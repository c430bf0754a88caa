/** Handler plans: the slots a handler signature is planned into, and the dependency tree below them.
    A plan built by the planner is a finite tree, because every `Depends` edge plans its callable afresh. */
module Plans {
  import opened Wrappers

  /** A dependency callable. Dafny's equality stands for both `is` and `==`: the model's standing
      hypothesis is that distinct callables never compare equal. */
  type Callable(==, !new)

  /** Run-time values, with everything the resolver does not look inside kept as an opaque object. */
  datatype Value =
    | NoneValue
    | Missing                          // the compiler's private `_M` sentinel
    | Text(text: string)
    | Object(id: nat)
    | ListValue(items: seq<Value>)
    | DictValue(id: nat)
    | ScopesValue(scopes: seq<string>) // a `SecurityScopes` instance
    | RequestValue

  datatype Container = ListContainer | SetContainer | FrozenSetContainer | TupleContainer

  datatype Type =
    | NoType
    | StrType
    | AnyType
    | IntType
    | FloatType
    | OtherType(id: nat)
    | SequenceType(container: Container, positions: Option<seq<Type>>, inner: Type)

  datatype Default = NoDefault | Static(value: Value) | Factory(id: nat)

  datatype Source = QuerySource | PathSource | HeaderSource | CookieSource

  /** A bare path-or-query parameter (`K_QUERY`). `check` is a source-less `Field` marker's validator. */
  datatype ScalarSpec = ScalarSpec(lookup: string, ty: Type, default: Default, optional: bool, check: Option<nat>)

  /** A synchronous `Query` / `Path` / `Header` / `Cookie` marker (`K_PARAM_MARKER`). */
  datatype MarkerSpec = MarkerSpec(source: Source, lookup: string, ty: Type, default: Default, optional: bool,
                                   validator: nat, checks: Option<nat>)

  /** How a dependency is run: exactly one of the branches of `_exec_depends`. */
  datatype Mode = Inline | Offloaded | Coroutine | Generator | AsyncGenerator

  datatype Slot =
    | RequestSlot(name: string, websocket: bool) // `K_REQUEST` and `K_WEBSOCKET` bind the same object
    | BackgroundSlot(name: string)
    | ResponseSlot(name: string)
    | ScopesSlot(name: string)
    | ScalarSlot(name: string, scalar: ScalarSpec)
    | MarkerSlot(name: string, marker: MarkerSpec)
    | DependsSlot(name: string, callable: Callable, mode: Mode, useCache: bool,
                  scopes: seq<string>, scopeSensitive: bool, sub: Plan)
    | OtherSlot(name: string, id: nat) // body, form, file and model-group slots, and query lists

  /** `waves` are the batched dependency waves, as slot indices; empty when nothing runs concurrently. */
  datatype Plan = Plan(slots: seq<Slot>, waves: seq<seq<nat>>)

  /** The result-cache key: the callable alone, or with the active scope union. */
  datatype Key = PlainKey(callable: Callable) | ScopedKey(callable: Callable, union: set<string>)

  function SetOf(s: seq<string>): set<string> {
    set x | x in s
  }

  function KeyOf(slot: Slot, active: seq<string>): Key
    requires slot.DependsSlot?
  {
    if slot.scopeSensitive then ScopedKey(slot.callable, SetOf(active) + SetOf(slot.scopes))
    else PlainKey(slot.callable)
  }
}
