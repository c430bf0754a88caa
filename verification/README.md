# A Dafny model of veloce's resolver, WebSocket, limiters and wire formats

Every statement below is proved for all inputs, plans, runs or interleavings; nothing was executed.

**The dependency resolver and its compiler.** `Plans`, `Hosts`, `Interpreter`, `Resolver` model a handler plan and the
walk that resolves it with a result cache, a scope stack and a teardown stack. `Codegen`, `ResolverCode`, `Emitter` and
`Names` model the compiler that turns a plan into straight-line code. `CompilerCorrectness` proves that the emitted code
cannot be told from the walk: same kwargs or same error, same dependency calls with the same arguments in the same
order, same teardown list, same outside world. `ScopeCaching`, `Coercion` and `TeardownOrder` say what the walk itself
means. `Planner`, `PlanGraph` and `Waves` model how plans and their waves are built, `PlannedSlots`, `TreePaths` and
`FirstFit` what is then in them; `Scheduler`, `WaveSafety`, `ScopeIntegrity`, `WaveValues`, `PlannedWaves` let the
gathered tasks of a wave interleave in any order, and fail, and `WaveExample` follows two such runs to their ends.
`ContractWalk` is the level-order walk of the route contract, `Blueprints` the flattening of nested hooks.

**The raw-transport WebSocket.** `Frames`, `Unmask`, `Utf8`, `CloseCodes` model the pieces, `Sessions` the connection as
a state machine, `WebSockets` the object whose methods take exactly those steps. `FrameAnswers` says what each frame is
answered with; `Chunking`, `Framing`, `SessionSafety`, `MessageSafety` and `Heartbeat` hold the theorems over whole
streams and whole runs.

**Limiters and stores.** `ExpiringStore`, `Cache`, `RateLimits` and `RateLimitBackend`, with times and tokens as exact
reals; `EvictionAge`, `RateLimitBounds`, `RateLimitExact` and `RateLimitAdvice` hold the theorems over whole runs.

**Parsers and printers.** `HeaderParams` with `HeaderMeaning`, `Chunked` with `ChunkGrammar`, and `Sse` with `SseLines`;
`Numerals` and `Bytes` are below them.

## Conventions and hypotheses

- A call into user code, and every conversion, is a function of the `Host` record; a dependency call maps the `World` to a
  new one, so its side effects are visible to whatever runs after it.
- Distinct dependency callables never compare equal. The walk keys its cache by `==` and the compiler by `id()`; a callable
  is a value here, so the two coincide.
- There are no overrides and no MCP context, and no route-level dependencies.
- The scheduler starts tasks that are all alive from the beginning of their wave and takes one step of any of them at a
  time; a task's suspension points are the calls of dependencies. A task that raises does not stop those gathered beside
  it.
- A value is pure in an invariant of the world when it is the same in every world that meets the invariant, whatever else
  has been done to that world, and the invariant survives.
- A WebSocket write never raises. The write gate answers as it likes: `gate(n)` is its n-th answer.
- A handler receives only after accepting. A receive on an empty queue parks until an item arrives or its deadline passes.
- Over a run of a limiter or of the cache the clock does not run backwards.
- The treatment of non-ASCII characters by `str.lower` is a parameter of the header parsers.
- The event-stream client is the one of section 9.2.6 of the HTML standard, on decoded text.

## Findings

- `SlidingWindow` reports a `retry_after` that is not always enough. A client refused in a window it had itself filled is
  refused once more if it returns exactly at the start of the next window. `RateLimits.SlidingRetryExact` gives the exact
  condition, `RateLimits.SlidingRetryRefused` an input. The other two strategies keep the promise.
- A live rate-limit state is dropped exactly when a new key meets `max_keys` live states and it is the oldest
  (`ExpiringStore.LiveDropsExactly`); its client then starts afresh (`RateLimitBackend.LiveDropForgives`).
- A fixed window admits up to twice its limit within one window length, across a boundary
  (`RateLimitBounds.StretchReached`), and never more (`RateLimitBounds.StretchBound`).
- A dependency that raises leaves the ones gathered beside it running, also behind the exception that ended the request's
  resolution (`WaveExample.SiblingOutlives`); they compute no key twice, and nothing they do completes the resolution
  (`WaveSafety.EachKeyOnce`, `ScopeIntegrity.FailureIsFinal`).
- `flush_pending_pong` does not look at the closed flag, so a PONG may follow the Close frame
  (`SessionSafety.PongBehindClose`); that is the only write behind a Close frame (`SessionSafety.WritesBehindClose`).
- A heartbeat timeout is the only way a connection closes without a Close frame (`SessionSafety.ClosedUnsent`,
  `SessionSafety.UnsentMeansTimeout`); a `close()` behind it still attempts one, and behind any other closing attempts
  none (`SessionSafety.LateCloseWrites`, `SessionSafety.CloseBehindTimeout`).
- A receive on a closed connection raises before it looks at the queue, so messages queued by the read that also brought
  the Close are lost, but for one to each receiver already parked (`MessageSafety.ClosedHandsOut`,
  `MessageSafety.QueuedButNeverReceived`).

## Model

| member | source | states |
|---|---|---|
| `CompilerCorrectness.CompiledGraphCorrect` | src/veloce/_resolver_codegen.py:184-231 | for every plan it compiles, the emitted code returns the kwargs or error of the interpreted walk, with the same ordered calls and arguments, teardown list and world |
| `CompilerCorrectness.SimulateDep` | src/veloce/_resolver_codegen.py:331-414 | one dependency: inlined, memoised by a variable per cache key, its scopes pushed at compile time, against `_exec_depends` |
| `CompilerCorrectness.SimulateSlots` | src/veloce/_resolver_codegen.py:274-328 | any run of slots keeps the compile-time scope stack, the memo variables and the in-progress set in step with the runtime cache and stack |
| `CompilerCorrectness.CompiledParamsCorrect` | src/veloce/_resolver_codegen.py:148-181 | the parameter-only resolver behaves as the walk on every plan it accepts |
| `CompilerTotality.PlannedCompiles` | src/veloce/_resolver_codegen.py:184-270 | a planned handler gets a compiled resolver exactly when its graph has no waves, only cacheable dependencies and only slots of a supported kind; the cycle refusal never fires |
| `Names.PrintInjective` | src/veloce/_resolver_codegen.py:366-397 | two names the compiler emits, locals, constants, library functions and helpers alike, are spelled alike only when they are the same name |
| `Fragments.ScalarBinds` | src/veloce/_resolver_codegen.py:507-553 | the code for a scalar parameter binds what `_resolve_scalar_param` returns or raises what it raises |
| `Fragments.MarkerBinds` | src/veloce/_resolver_codegen.py:556-669 | the code for a marker parameter, lists, defaults, aliases and field checks included, does what `_resolve_marker` does |
| `Fragments.CoercedBinds` | src/veloce/_resolver_codegen.py:417-461 | the inlined conversion and its exception handler equal the conversion function |
| `Fragments.ResponseBinds` | src/veloce/dependency.py:924-935 | the emitted injection of a response creates it at most once and stores it where the walk does |
| `Fragments.BackgroundBinds` | src/veloce/dependency.py:917-921 | the same for background tasks |
| `Emitter.CompileGraphResolver` | src/veloce/_resolver_codegen.py:184-231 | the compiler with its mutable context produces the specified code |
| `Emitter.EmitContext.EmitGraphSlot` | src/veloce/_resolver_codegen.py:274-328 | emits one slot into the context in place |
| `Emitter.EmitContext.EmitDependency` | src/veloce/_resolver_codegen.py:331-414 | emits a dependency in place, leaving the scope stack and the in-progress set as they were |
| `Resolver.DependencyResolver.ResolveSlots` | src/veloce/dependency.py:800-892 | for a plan that batches no waves, here or below, the resolver object resolves the slots as specified, updating cache, scopes and teardowns in place |
| `Resolver.DependencyResolver.ExecDepends` | src/veloce/dependency.py:1194-1271 | one dependency call, its own plan without waves, with its cache lookup, scope push and pop, and teardown registration |
| `Resolver.DependencyResolver.Reset` | src/veloce/dependency.py:663-671 | a reset leaves nothing of the previous request |
| `Resolver.DependencyResolver.ResolvePlan` | src/veloce/dependency.py:673-717 | for a plan without waves, whichever of the two compiled forms or the walk is taken, the caller sees the same result, teardowns, calls and world |
| `Resolver.DependencyResolver.RunTeardowns` | src/veloce/dependency.py:740-783 | every generator is resumed exactly once, last entered first and given the request's exception, whatever `Exception` the others raise; the failures come back as specified and the stack is empty. The first cancellation or other fatal exception escapes at once, and the generators entered earlier stay on the stack |
| `Resolver.FinishExact` | src/veloce/dependency.py:740-783 | with nothing fatal, the failures are, in order and in number, exactly the outcomes of the resumed generators that are neither a quiet end, nor the exhaustion of that kind of generator, nor the request's own exception; the first fatal outcome escapes |
| `TeardownOrder.LeftInReverse` | src/veloce/dependency.py:1248-1262 | the generators drained after a resolution are those it entered, from the last one back; only one whose first step raised is not among them |
| `TeardownOrder.NoneForgotten` | src/veloce/dependency.py:1248-1262 | a resolution that succeeded leaves as many generators waiting as it entered |
| `Resolver.ScopesRestored` | src/veloce/dependency.py:1194-1271 | a resolution leaves the scope stack as it found it, on success and on failure |
| `ScopeCaching.SecondCaller` | src/veloce/dependency.py:1206-1213 | of two callers of one cacheable callable, each under its own scopes, the second gets the first's value without a call if and only if nothing below reads the scopes or the two unions of scopes are the same; otherwise its arguments are resolved under its own scopes and the callable is called on them |
| `ScopeCaching.TwoParameters` | src/veloce/dependency.py:1206-1213 | the same for two parameters of one signature, with any others between them |
| `ScopeCaching.CalledEveryTime` | src/veloce/dependency.py:1212-1213 | a dependency that opted out of the cache is called every time and stores nothing |
| `Coercion.CollectExact` | src/veloce/dependency.py:318-347 | repeated values become the declared sequence of all of them, each converted to its own type and in order; the first that does not convert decides, and so does a wrong number of them for a fixed shape |
| `Planner.BuildPlan` | src/veloce/_handler_plan.py:1146-1278 | planning a signature graph, parameter by parameter, with the chain of callables being planned |
| `Planner.PlanningRefusesCycles` | src/veloce/_handler_plan.py:943-951 | planning terminates, and refuses exactly when a cycle is reachable |
| `Planner.BuildNoRepeat` | src/veloce/_handler_plan.py:623-658 | in a plan no callable repeats on a path from the root |
| `Planner.BuildUnique` | src/veloce/_handler_plan.py:1146-1278 | the plan of a callable does not depend on where it is met |
| `PlannedSlots.PlanHoldsParams` | src/veloce/_handler_plan.py:623-658 | a plan has one slot per parameter, in order: a direct parameter's own, or its edge's with the name, callable, mode, caching, scopes and the plan of the callable, scope-sensitive if and only if a path below leads to a `SecurityScopes` parameter |
| `PlannedSlots.CallsSeePathScopes` | src/veloce/_handler_plan.py:649-657 | every dependency a planned handler calls is reached by a path of edges, and each of its `SecurityScopes` parameters is bound to exactly the scopes of that path, outermost first |
| `PlanGraph.CachedCallables` | src/veloce/_handler_plan.py:502-523 | on shared or cyclic plan objects, the walk terminates with exactly the cached callables reachable |
| `PlanGraph.SubgraphReadsScopes` | src/veloce/_handler_plan.py:661-678 | true exactly when a reachable plan reads the scopes |
| `PlanGraph.SlotParallelSafe` | src/veloce/_handler_plan.py:478-499 | true exactly when nothing reachable is unsafe to run concurrently |
| `PlanGraph.PlanCompilable` | src/veloce/_resolver_codegen.py:235-270 | true exactly when every reachable slot is of a supported kind |
| `PlanGraph.WalksMatchTree` | src/veloce/_handler_plan.py:478-523 | what is reachable in the plan objects, for each of the four walks, is what recursion over the unfolded tree finds; in particular the pre-check passes exactly when the tree is one the compiler accepts |
| `TreePaths.SafeExactly` | src/veloce/_handler_plan.py:478-499 | a dependency is parallel-safe if and only if every dependency a path from it leads to pushes no scopes and is no generator |
| `TreePaths.CachedExactly` | src/veloce/_handler_plan.py:502-523 | a callable counts as cached if and only if a path leads to a dependency that caches it |
| `Waves.ComputeDepWaves` | src/veloce/_handler_plan.py:526-565 | the in-place batching computes the specified waves |
| `Waves.WavesPartition` | src/veloce/_handler_plan.py:526-565 | the waves partition the parallel-safe dependencies, ascending, with pairwise disjoint cached sets inside each |
| `Waves.WavesWhenFree` | src/veloce/_handler_plan.py:526-565 | waves are used exactly when two safe dependencies share no cached callable |
| `Waves.BatchedKeeps` | src/veloce/_handler_plan.py:584-615 | dropping the waves of one member keeps the guarantees of the rest |
| `FirstFit.PlaceAllEarliest` | src/veloce/_handler_plan.py:546-560 | each dependency shares a cached callable with an earlier one in every wave before its own |
| `FirstFit.OnlyOneFit` | src/veloce/_handler_plan.py:546-560 | together with the partition this leaves no choice: one batching has these properties |
| `FirstFit.PlanBatches` | src/veloce/_handler_plan.py:562-615 | a plan batches, of that one batching and in its order, exactly the waves that run something concurrently |
| `WaveSafety.EachKeyOnce` | src/veloce/dependency.py:894-914 | under every interleaving, and whatever calls and parameters raise, each cache key is computed at most once |
| `ScopeIntegrity.EveryTaskSeesItsScopes` | src/veloce/dependency.py:848-857 | whichever task runs next, not counting those left running below a call that has raised, finds on the shared stack exactly the scopes of its own path |
| `ScopeIntegrity.NeverStuck` | src/veloce/dependency.py:894-914 | until its kwargs are bound or an exception has reached the handler, a run can always take another step |
| `ScopeIntegrity.FailureIsFinal` | src/veloce/dependency.py:894-914 | once a call or parameter has raised, however deep and whatever else is still running, the resolution never binds |
| `ScopeIntegrity.ScopesGone` | src/veloce/dependency.py:1238-1246 | however a resolution with waves ends, by binding or by an exception, its scopes are off the shared stack |
| `WaveValues.WavesMatchSlotOrder` | src/veloce/dependency.py:848-857 | for a scope-free plan whose values, generators and injections included, are pure in an invariant of the world, every complete interleaving binds what slot order binds |
| `WaveValues.ResponsePure` | src/veloce/dependency.py:924-935 | a `Response` parameter meets that condition, the invariant being that the response injected, if any, is the one the request is given |
| `PlannedWaves.PlannedWavesSafe` | src/veloce/_handler_plan.py:584-615 | both safety properties for every handler the planner accepts |
| `PlannedWaves.PlannedWavesMatchSlotOrder` | src/veloce/_handler_plan.py:584-615 | the same values for every handler the planner accepts, under the same purity of what occurs in its plan |
| `WaveExample.HypothesesMet` | src/veloce/dependency.py:894-914 | a host, a planned handler with a wave, and a whole run with its two tasks interleaved, that meet every hypothesis of the two theorems above |
| `WaveExample.SiblingOutlives` | src/veloce/dependency.py:894-914 | a run in which a gathered call raises, and the one beside it starts and finishes behind the exception |
| `ContractWalk.IterThroughDependencies` | src/veloce/_route_contract.py:250-281 | exactly one descriptor per reachable wire name, from the shallowest level declaring it, level by level, each sub-plan expanded once; the descriptors and the sub-plans are the first ones met in the slots visited |
| `ContractWalk.FirstOfEachName` | src/veloce/_route_contract.py:276-279 | of the descriptors met, exactly the first of each wire name is kept, in order |
| `Blueprints.MergeScopedLists` | src/veloce/blueprints.py:115-133 | the merge of a child's table under its dotted names |
| `Blueprints.ScopedExact` | src/veloce/blueprints.py:318-364 | the flattened table answers every dotted path as the tree of registered blueprints does, the last registered winning |
| `Blueprints.ResolveScopedChain` | src/veloce/blueprints.py:136-149 | the chain collected over the prefixes of a suffix |
| `Blueprints.OutermostFirst` | src/veloce/blueprints.py:136-149 | a nested route runs, outermost first, the hooks found at each prefix of its path and no others, as long as no name has a dot; where siblings share a name these are the last registered one's |
| `Blueprints.EndpointFindsBlueprint` | src/veloce/blueprints.py:68-84 | a dot-free route name leads to the blueprint it was declared on |
| `Utf8.ValidatorExact` | src/veloce/websocket.py:189-246 | a fresh validator accepts exactly the prefixes of well-formed strings and is done exactly on those (section 4 of RFC 3629) |
| `Utf8.WellFormedIsEncoded` | src/veloce/websocket.py:189-246 | the grammar is exactly the encodings of scalar values |
| `Utf8.OrderKept` | src/veloce/websocket.py:170-182 | the encoding keeps the order of code points (section 1 of RFC 3629), which with the grammar leaves only one |
| `Utf8.DecodeExact` | src/veloce/websocket.py:1434-1438 | decoding succeeds exactly on well-formed strings and inverts encoding |
| `Utf8.Validator.Feed` | src/veloce/websocket.py:214-246 | the loop over three fields runs the automaton; a refused chunk leaves them alone |
| `Utf8.ValidateFragments` | src/veloce/websocket.py:1341-1353 | over any fragmentation: accepted so far iff a prefix of a well-formed string, finished iff well formed |
| `Unmask.UnmaskPayload` | src/veloce/websocket.py:122-147 | big-integer XOR over 16 KiB blocks and the ragged tail equals byte-wise XOR with `mask[i mod 4]`, for every length |
| `Unmask.UnmaskInvolution` | src/veloce/websocket.py:122-147 | applying it twice is the identity (section 5.3 of RFC 6455) |
| `Unmask.BigXor` | src/veloce/websocket.py:126-129 | the XOR of two big-endian integers is the octet-wise one |
| `CloseCodes.SanitiseClose` | src/veloce/websocket.py:150-182 | a legal code, kept if it was legal, and the longest prefix of whole characters that fits 123 octets; fails exactly on a lone surrogate |
| `CloseCodes.LongestUnique` | src/veloce/websocket.py:170-182 | there is only one such prefix |
| `Frames.ReadFrontStable` | src/veloce/websocket.py:1213-1278 | a verdict on the front of the buffer does not depend on what follows |
| `Frames.ReadFrontBounds` | src/veloce/websocket.py:1256-1275 | an incomplete front is shorter than 14 plus the frame limit; a whole one is within the limits |
| `Frames.ClientFrameReads` | src/veloce/websocket.py:1213-1281 | every frame a conforming client may send is read back, payload unmasked |
| `Frames.ServerStreamReads` | src/veloce/websocket.py:1593-1618 | every sequence of frames written is read back frame by frame, in all three length forms |
| `WebSockets.WebSocket.SendFrame` | src/veloce/websocket.py:1593-1618 | appends exactly the frame's octets to the transport |
| `WebSockets.WebSocket.ReadFrame` | src/veloce/websocket.py:1213-1281 | the header checks in their order, relative to an offset |
| `WebSockets.WebSocket.ParseFrame` | src/veloce/websocket.py:1213-1359 | one parse takes the specified step, consumes the specified octets and raises the specified disconnect |
| `WebSockets.WebSocket.ParseOpening` | src/veloce/websocket.py:1305-1334 | an opening data frame |
| `WebSockets.WebSocket.ParseContinuation` | src/veloce/websocket.py:1335-1357 | a continuation, validated in place |
| `WebSockets.WebSocket.ParsePing` | src/veloce/websocket.py:1289-1298 | a PING answered now or held back |
| `WebSockets.WebSocket.FeedData` | src/veloce/websocket.py:1185-1211 | parsing at a moving offset with one compaction drains the buffer as specified, also when a Close frame raises |
| `WebSockets.WebSocket.HandleCloseFrame` | src/veloce/websocket.py:1413-1443 | the five answers to a peer's Close frame |
| `WebSockets.WebSocket.TerminateRaw` | src/veloce/websocket.py:1361-1380 | the whole state a synchronous teardown leaves |
| `WebSockets.WebSocket.EnqueueOrClose` | src/veloce/websocket.py:1455-1468 | a full queue closes with 1009 |
| `WebSockets.WebSocket.Close` | src/veloce/websocket.py:1132-1173 | the local close up to its wait, keyed off the Close frame already sent |
| `WebSockets.WebSocket.HeartbeatTick` | src/veloce/websocket.py:1512-1535 | the four outcomes of a tick |
| `WebSockets.WebSocket.StartHeartbeat` | src/veloce/websocket.py:1487-1498 | arming is idempotent and refused once closed |
| `WebSockets.WebSocket.FlushPendingPong` | src/veloce/websocket.py:954-958 | sends the held-back PONG once |
| `FrameAnswers.CloseAnswered` | src/veloce/websocket.py:1413-1443 | the frame written, the code recorded and raised and the reason recorded for a peer's Close: 1000 and 1005 for an empty one; 1002 for one octet or a code that may not be sent; 1007 for a reason that is no UTF-8; else its own code and reason |
| `FrameAnswers.OpeningAnswered` | src/veloce/websocket.py:1305-1334 | an opening data frame is refused with 1002 inside a message, with 1007 when its text is no UTF-8, with 1009 when there is no room; else it is queued or started |
| `FrameAnswers.ContinuationAnswered` | src/veloce/websocket.py:1335-1357 | a continuation is refused with 1002 outside a message, with 1007 as soon as the text so far is no UTF-8, with 1009 past the message limit or for a full queue; else it extends the message or queues the whole |
| `FrameAnswers.PingAnswered` | src/veloce/websocket.py:1289-1298 | a PING is answered with its payload, or held back in the place of the one before it |
| `FrameAnswers.PongAnswered` | src/veloce/websocket.py:1299-1302 | a PONG clears the pending token if and only if it carries it |
| `FrameAnswers.HeaderAnswered` | src/veloce/websocket.py:1213-1281 | a reserved bit, a missing mask or a bad control frame is refused with 1002, too long a frame with 1009, from the header alone |
| `FrameAnswers.ProbeEchoed` | src/veloce/websocket.py:1512-1535 | a probe's echo clears it, and the next one will carry another token |
| `FrameAnswers.CloseWritten` | src/veloce/websocket.py:1132-1173 | a local close writes its code if that may be sent and 1000 if not, and as much of the reason as fits |
| `Chunking.ChunkingInvariance` | src/veloce/websocket.py:1185-1359 | any cutting of any octets leaves queue, frames written, close state, fragment, heartbeat flags, leftover buffer and raised disconnect as one feed of the whole does |
| `Framing.EndToEnd` | src/veloce/websocket.py:1213-1359 | whatever a conforming client sends, fragmented even inside a character, interleaved with PINGs and PONGs, cut anywhere, is queued message by message in order, and each PING the gate lets through is answered in order (sections 5.2 to 5.5 of RFC 6455) |
| `Framing.OpenGateAnswers` | src/veloce/websocket.py:1289-1298 | with the gate open each PING gets its own payload back |
| `Framing.PartHandled` | src/veloce/websocket.py:1305-1357 | each fragment leaves the reassembly state of the parts so far, and the last queues the whole |
| `SessionSafety.CloseSafety` | src/veloce/websocket.py:1361-1453 | over every run: at most one Close frame, of 2 to 125 octets, with a legal code and a UTF-8 reason; nothing but PONGs behind it |
| `SessionSafety.AtMostOneClose` | src/veloce/websocket.py:1158-1173 | the same, spelled out on the frames written |
| `SessionSafety.WritesBehindClose` | src/veloce/websocket.py:954-958 | once a Close frame has been written, an act writes a frame if and only if it flushes a PONG that was held back |
| `SessionSafety.PongBehindClose` | src/veloce/websocket.py:954-958 | a run in which that happens |
| `SessionSafety.LateCloseWrites` | src/veloce/websocket.py:1158-1173 | a local close on a closed connection writes a Close frame if and only if none has been written |
| `SessionSafety.ClosedUnsent` | src/veloce/websocket.py:1554-1568 | an act that closes an open connection leaves it without a Close frame if and only if it is a tick, which then timed out with 1006 |
| `SessionSafety.UnsentMeansTimeout` | src/veloce/websocket.py:1554-1568 | in every run, closed without a Close frame means recorded as 1006 and transport dropped |
| `SessionSafety.CloseBehindTimeout` | src/veloce/websocket.py:1554-1568 | a run of two silent ticks, closed without a Close frame, and the close behind them that writes one |
| `MessageSafety.RunSound` | src/veloce/websocket.py:1196-1359 | the invariant behind the bounds, after every run of feeds, timers, closes, sends and receives |
| `MessageSafety.BoundsAndText` | src/veloce/websocket.py:1327-1348 | over every run: buffer below 14 plus the frame limit and fragment within the message limit while open, queue within its size, every delivered text UTF-8; what was received and what is still queued are together every delivered message, in order, and at most one sentinel behind them |
| `MessageSafety.ClosedHandsOut` | src/veloce/websocket.py:932-943 | on a closed connection an item reaches the handler if and only if a receiver that was already parked is resumed and finds one |
| `MessageSafety.HandedAfterClosing` | src/veloce/websocket.py:1024-1046 | from its closing on a connection hands out a prefix of what was then queued, no longer than the number of receivers parked at that moment; the rest is never received |
| `MessageSafety.QueuedButNeverReceived` | src/veloce/websocket.py:932-943 | a message read together with the peer's Close and no receiver parked: queued, and never received whatever follows |
| `MessageSafety.ClosedIsFinal` | src/veloce/websocket.py:1204-1208 | once closed, nothing more is delivered and the recorded code stays |
| `MessageSafety.GrownSound` | src/veloce/websocket.py:1341-1353 | the validator carried over fragments is where a fresh one would be after all of them |
| `Heartbeat.DropNeedsSilentWindow` | src/veloce/websocket.py:1512-1568 | between two ticks of a watched connection: the second drops the peer only if the first wrote a probe and not one octet arrived since; it records 1006 and writes nothing |
| `Heartbeat.DropInAnyRun` | src/veloce/websocket.py:1512-1568 | in every run, a tick that drops the peer is not the first one: the tick before it wrote a probe and not one octet arrived since |
| `Heartbeat.SilentPeerDropped` | src/veloce/websocket.py:1512-1568 | a peer silent for good is dropped by the third tick, whatever the handler does meanwhile |
| `ExpiringStore.Evict` | src/veloce/ratelimit.py:341-347 | the two loops of the eviction |
| `ExpiringStore.LiveDropsExactly` | src/veloce/ratelimit.py:341-347 | a live entry is dropped if and only if a new key meets a full store whose entries are all live and it is the oldest |
| `ExpiringStore.InsertFacts` | src/veloce/ratelimit.py:335-339 | the store never exceeds its capacity |
| `ExpiringStore.InsertTracks` | src/veloce/ratelimit.py:335-339 | storing keeps the agreement with a dictionary that never forgets, but for a dropped live entry |
| `EvictionAge.CacheDropsEldest` | src/veloce/cache.py:138-146 | in every run the live entry a full cache gives up for a new key is the one that came in first |
| `EvictionAge.BackendDropsEldest` | src/veloce/ratelimit.py:341-347 | the same for the live state of a client |
| `Cache.InMemoryCache.Lookup` | src/veloce/cache.py:116-126 | a hit while live, else a miss that drops the expired entry |
| `Cache.InMemoryCache.Set` | src/veloce/cache.py:128-132 | stores, evicting only for a new key in a full cache |
| `Cache.InMemoryCache.Delete` | src/veloce/cache.py:134-136 | removes the key if present |
| `Cache.CacheAgrees` | src/veloce/cache.py:116-146 | after any run, a lookup answers as an unbounded map with expiry times would, for every key not dropped while live |
| `Cache.After` | src/veloce/cache.py:128-146 | after any run the cache is within its capacity |
| `RateLimits.ExpiredStateForgotten` | src/veloce/ratelimit.py:105-116 | for all three strategies, a state past its time to live decides and records exactly as no state |
| `RateLimits.EvaluateWrites` | src/veloce/ratelimit.py:161-182 | counts never exceed the limit of a sliding window, tokens stay between zero and the burst |
| `RateLimits.RetryAdmitted` | src/veloce/ratelimit.py:239-258 | having waited the reported `retry_after`, or longer, with nothing served in between, the next request is admitted (fixed window and token bucket) |
| `RateLimits.SlidingRetryExact` | src/veloce/ratelimit.py:161-182 | for a sliding window that holds if and only if the window was not full or the return is not at the very start of the next one |
| `RateLimits.SlidingRetryRefused` | src/veloce/ratelimit.py:161-182 | an input on which it fails |
| `RateLimitBackend.InMemoryRateLimitBackend.Evaluate` | src/veloce/ratelimit.py:329-339 | load, decide, evict if need be, store |
| `RateLimitBackend.ExpiryInvisible` | src/veloce/ratelimit.py:329-347 | over any run, a key that lost no live state is decided as by a backend that never forgets |
| `RateLimitBackend.LiveDropForgives` | src/veloce/ratelimit.py:335-347 | requests of two clients in a backend with room for one, after which the first is admitted where one that never forgets refuses it |
| `RateLimitBackend.After` | src/veloce/ratelimit.py:312-347 | after any run the backend holds at most `max_keys` states |
| `RateLimitBackend.TokenBucketBound` | src/veloce/ratelimit.py:239-258 | over every stretch of every run behind whose first request no live state of the key is thrown out, requests admitted for it are at most the burst plus the refill of the time taken |
| `RateLimitBackend.LevelSpent` | src/veloce/ratelimit.py:239-258 | an admitted request takes one token, a refused one none |
| `RateLimitBounds.WindowBound` | src/veloce/ratelimit.py:105-182 | for the fixed and the sliding window: in every run in which no live state of the key is thrown out behind the first request counted, at most the limit is admitted in an aligned window |
| `RateLimitBounds.StretchBound` | src/veloce/ratelimit.py:105-182 | over any stretch no longer than a window, wherever it starts, at most twice the limit is admitted |
| `RateLimitBounds.StretchReached` | src/veloce/ratelimit.py:105-116 | two requests one second apart that reach twice the limit of a fixed window |
| `RateLimitBounds.RetryAdmittedInRun` | src/veloce/ratelimit.py:329-339 | a refused client that comes back no sooner than it was told is admitted, whoever else the backend served in between, as long as its live state was not thrown out (fixed window and token bucket) |
| `RateLimitExact.FixedExact` | src/veloce/ratelimit.py:105-116 | over every run, for a key that lost no live state: a request is admitted if and only if fewer than the limit of earlier ones fall in its aligned window; it reports how many more would be |
| `RateLimitExact.SlidingExact` | src/veloce/ratelimit.py:161-182 | a request is admitted if and only if the admissions of the window before, weighted by the part of it still in view, and those of its own are together below the limit |
| `RateLimitExact.BucketExact` | src/veloce/ratelimit.py:239-258 | a request is admitted if and only if, from each earlier request of the key on, no more were admitted than the burst and the refill since allow |
| `RateLimitAdvice.FixedAdvice` | src/veloce/ratelimit.py:105-116 | a refused client is refused at any whole second before its `retry_after` and admitted from then on |
| `RateLimitAdvice.WindowAdvice` | src/veloce/ratelimit.py:105-182 | `reset` is the least whole number of seconds to the end of the aligned window, and a refused client is told to wait as long |
| `RateLimitAdvice.SlidingAdvice` | src/veloce/ratelimit.py:161-182 | `remaining` is what the weighted count leaves of the limit, in whole requests |
| `RateLimitAdvice.BucketAdvice` | src/veloce/ratelimit.py:239-258 | `retry_after` is the least whole number of seconds that refills a token |
| `RateLimitAdvice.BucketLeft` | src/veloce/ratelimit.py:239-258 | `remaining` counts whole tokens, and `reset` is the least whole number of seconds that fills the bucket |
| `RateLimitAdvice.KeptWhileItMatters` | src/veloce/ratelimit.py:105-258 | for all three strategies no state is kept longer than it can make a difference, but for two seconds of a token bucket's |
| `HeaderParams.ParseHeaderParams` | src/veloce/_header_parsing.py:122-210 | the walker and the fold over its tokens |
| `HeaderParams.Tokenise` | src/veloce/_header_parsing.py:139-182 | the index-driven walk with its quote offsets |
| `HeaderParams.HeaderRoundTrip` | src/veloce/_header_parsing.py:122-210 | printing a prefix and parameters with arbitrary values and parsing gives both back (section 5.6.4 of RFC 9110) |
| `HeaderParams.DistinctKept` | src/veloce/_header_parsing.py:186-209 | with distinct keys every parameter is in the result |
| `HeaderMeaning.ParseMeans` | src/veloce/_header_parsing.py:122-210 | a value written as words and `key = value` items, with any delimiter, any whitespace around their parts and any mixture of bare text and quoted regions, is read as it means: whitespace is dropped outside the quoted part only, escapes are decoded or kept as asked |
| `HeaderMeaning.LastNamed` | src/veloce/_header_parsing.py:194-209 | a parameter has the value of the last item with its lowered name |
| `HeaderMeaning.Unnamed` | src/veloce/_header_parsing.py:194-209 | and there is none that no item names |
| `HeaderParams.QuotedOnce` | src/veloce/_internal.py:628-635 | escaping the backslash first escapes every character once |
| `HeaderParams.ParseMediaTypeParams` | src/veloce/_header_parsing.py:33-57 | the quote-free fast path collects what the walker collects |
| `HeaderParams.FastPathAgrees` | src/veloce/_header_parsing.py:46-55 | the same, as a statement about the two specifications |
| `HeaderParams.SplitOutsideQuotes` | src/veloce/_header_parsing.py:79-119 | the splitting loop and its report of an unterminated quote |
| `HeaderParams.SplitterAgrees` | src/veloce/_header_parsing.py:79-119 | the parts join to the value, and the walker makes of each part exactly the token it finds there |
| `Chunked.WriteChunked` | src/veloce/_internal.py:343-373 | writes each non-empty chunk framed, and the last chunk |
| `Chunked.ReadChunkedBody` | src/veloce/liveserver.py:121-142 | reads as specified, errors included, and stops right behind the body |
| `Chunked.ReadChunk` | src/veloce/liveserver.py:130-142 | one turn of the reading loop |
| `Chunked.ChunkedRoundTrip` | src/veloce/_internal.py:362-373 | reading what was written returns the chunks joined and leaves the following octets (section 7.1 of RFC 9112) |
| `Chunked.HexReads` | src/veloce/liveserver.py:66-71 | a size printed in hexadecimal parses to the same size |
| `ChunkGrammar.BodyExactly` | src/veloce/liveserver.py:121-142 | a body is read if and only if the stream is whole chunks, a size of zero, trailer fields and a blank line, and its data are theirs |
| `ChunkGrammar.ErrorExactly` | src/veloce/liveserver.py:121-142 | a body is refused for a truncation, a size or a terminator if and only if that is what is wrong behind some whole chunks |
| `ChunkGrammar.SizeWritten` | src/veloce/liveserver.py:132-133 | the size of a line is its numeral, whatever the whitespace around it and the extensions behind |
| `ChunkGrammar.IntExactly` | src/veloce/liveserver.py:66-71 | a numeral is a sign, a base prefix and grouped hexadecimal digits, and denotes what they are worth; nothing else is one |
| `Numerals.NumeralRoundTrip` | src/veloce/_internal.py:366 | printing a number in any base and parsing it is the identity |
| `Sse.Encode` | src/veloce/sse.py:83-111 | the lines appended in order, joined, with the empty line behind them |
| `Sse.StreamReads` | src/veloce/sse.py:83-111 | any sequence of events and keep-alives decodes to the same types, data with line endings normalised, ids and delays, with none split or merged |
| `Sse.EventReads` | src/veloce/sse.py:44-59 | one accepted event, whatever its comment, id, type, retry and data |
| `Sse.KeepAliveReads` | src/veloce/sse.py:25 | a keep-alive frame changes nothing |
| `Sse.SplitTerminated` | src/veloce/sse.py:101-108 | splitting the data into lines loses nothing |
| `SseLines.EndingsNormalised` | src/veloce/sse.py:87-90 | whatever ends a line, CR LF, CR or LF, becomes one line feed, and nothing else changes |
| `SseLines.CommentCarried` | src/veloce/sse.py:86-93 | the comment lines of an event, which its client ignores, are those of its comment and no others |

## Left out

- Bodies, forms, files and model groups, which validation libraries resolve; such slots make a plan uncompilable here as there.
- Reflection on signatures, annotations and defaults: a signature is given as its planned parameters.
- Dependency overrides, route-level dependencies, `resolve_ws_plan` and the MCP context.
- Cancellation of a request while its tasks are gathered, and what a task left running behind an exception does to the resolver once the request is over.
- A `Header` alias outside latin-1, which the source fails to encode, when it compiles the plan or when the walk reaches the parameter; the model looks every alias up as text.
- The memo of compiled resolvers keyed by plan, and the printing of the emitted text itself beyond its names.
- ASGI mode of the WebSocket, the handshake, cookies and accessors.
- The wait of `close()` for the peer's reply, and data frames suspended in a drain while a close happens: serving/protocol.py is not part of this model.
- Write failures of the WebSocket transport, which the teardown paths suppress.
- `WebSockets.WebSocket.Close`: does not model the wait between the Close frame and the transport close.
- `WebSockets.WebSocket`: groups the closing flags, the heartbeat fields, the queue with its log, and the outgoing state into one record each; the parser's body is split over several methods.
- `Resolver.DependencyResolver.ResolvePlan`: plans with waves are not run by this object; their gathered tasks are the
  scheduler's, whose runs do not carry the world or the log of calls.
- `WaveValues.WavesMatchSlotOrder`: is stated for plans without `SecurityScopes` parameters, and says nothing about the order of the teardown stack, which only generators enter, one at a time.
- `Chunked.ReadChunkedBody`: says nothing about where the reader stands after an error, and its reader has no line limit.
- The chunk writer of the test client's own requests, which frames as `_write_chunked` does, and the response head.
- `HeaderParams.ParseHeaderParams`: returns an unordered map, so the insertion order of parameters is not captured.
- `Sse.Encode`: stops at text; UTF-8 encoding of the text is not repeated here, and plain strings or bytes yielded by a stream are not events.
- `RateLimits.Evaluate`: real arithmetic, so floating-point rounding is not modelled; times are non-negative where `retry_after` is concerned.
- The Lua scripts and the Redis backends.
- Blueprint routes, prefixes and error handlers; only the hook lists are modelled.
- Router, middleware, application dispatch, templating, security schemes, command line and test tools.
