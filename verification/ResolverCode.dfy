/** The straight-line code a compiled resolver consists of, and what running it does. */
module ResolverCode {
  import opened Wrappers
  import opened Plans
  import opened Hosts

  /** Locals of the generated function: the numbered ones, each bound once, and the shared scratch names. */
  datatype Local = KLocal | KwLocal(n: nat) | ResultLocal(n: nat) | GenLocal(n: nat)

  datatype Temp = VTemp | RawTemp | ValsTemp | InjTemp

  /** Names the generated source reads from its namespace: constants bound at compile time. */
  datatype Ref = FnRef(n: nat) | MsgRef(n: nat) | ScopesRef(n: nat) | TypeRef(n: nat) | InnerRef(n: nat)
               | SeqRef(n: nat) | DefaultRef(n: nat) | FactoryRef(n: nat) | ValidateRef(n: nat)
               | FieldRef(n: nat) | ChecksRef(n: nat)

  datatype Const = CallableConst(callable: Callable) | MsgConst(of: Callable) | ScopesConst(scopes: seq<string>)
                 | TypeConst(ty: Type) | ValueConst(value: Value) | IdConst(id: nat)

  type Namespace = map<Ref, Const>

  datatype Expr =
    | RequestE
    | NoneE
    | LocalE(x: Local)
    | TempE(t: Temp)
    | ItemE(d: Local, key: string)                       // d[key]
    | DefaultE(r: Ref)                                   // _d{j}
    | FactoryE(r: Ref)                                   // _df{j}()
    | ScopesE(r: Ref)                                    // _SS(_sc{n})
    | PathGetE(key: string, orElse: Value)               // path_params.get(key, ...)
    | QueryItemE(key: string)                            // request.query_params[key]
    | FirstE(source: Source, key: string)
    | EveryE(source: Source, key: string)
    | IntE(e: Expr)                                      // int(e)
    | FloatE(e: Expr)                                    // float(e)
    | CoerceE(e: Expr, r: Ref, name: string, loc: Source) // _cv(e, _t{j}, name, loc)
    | EachE(t: Temp, r: Ref, name: string, loc: Source)  // [_cv(_x, _in{j}, ...) for _x in x]
    | CollectE(t: Temp, r: Ref, name: string, loc: Source)
    | ValidateE(r: Ref, e: Expr, name: string)           // _val{j}(e, name) and _fv{j}(e, name)
    | BackgroundE                                        // request._background_tasks
    | NewBackgroundE
    | InjectedE                                          // request._state.get(...)
    | NewResponseE
    | CallE(mode: Mode, f: Ref, kw: Local)               // _f{n}(**kw), awaited or offloaded by mode
    | NextE(isAsync: bool, g: Local)

  datatype Cond =
    | IsNone(t: Temp)
    | IsPresent(t: Temp)                                // t is not _M
    | InQuery(key: string)
    | IsEmpty(t: Temp)                                  // not t
    | IsScalar(t: Temp)                                 // not isinstance(t, (dict, list))
    | NoBackground                                       // request._background_tasks is None

  /** The `except` clause of a `try`, always re-raising. */
  datatype Handler =
    | OnConversion(raise: Exc)                           // (ValueError, TypeError)
    | OnValueError(loc: Source, name: string)            // ValueError, message kept
    | OnStop(isAsync: bool, message: Ref)

  datatype Stmt =
    | Skip
    | Then(first: Stmt, second: Stmt)
    | If(c: Cond, thn: Stmt, els: Stmt)
    | Try(body: Stmt, handler: Handler)
    | Raise(exc: Exc)
    | Let(x: Local, e: Expr)
    | SetTemp(t: Temp, e: Expr)
    | NewDict(d: Local)
    | Put(d: Local, key: string, e: Expr)
    | SetBackground(e: Expr)
    | SetStatus(t: Temp, status: nat)
    | SetInjected(t: Temp)
    | CheckList(r: Ref, d: Local, key: string, name: string, loc: Source)
    | PushTeardown(isAsync: bool, g: Local)

  datatype Machine = Machine(temps: map<Temp, Value>, locals: map<Local, Value>, dicts: map<Local, Kwargs>,
      teardowns: seq<Teardown>,
                             log: seq<Call>, world: World)

  type Outcome = Option<Exc>

  // ---- Expressions ----------------------------------------------------------

  /** Evaluating an expression: a value or an exception, and the machine after it. */
  function Eval(h: Host, ns: Namespace, e: Expr, m: Machine): (Result<Value, Exc>, Machine) {
    match e
    case RequestE => (Ok(RequestValue), m)
    case NoneE => (Ok(NoneValue), m)
    case LocalE(x) => (if x in m.locals then Ok(m.locals[x]) else Err(NameError), m)
    case TempE(t) => (if t in m.temps then Ok(m.temps[t]) else Err(NameError), m)
    case ItemE(d, key) => (if d in m.dicts && key in m.dicts[d] then Ok(m.dicts[d][key]) else Err(NameError), m)
    case DefaultE(r) => (if r in ns && ns[r].ValueConst? then Ok(ns[r].value) else Err(NameError), m)
    case FactoryE(r) =>
      if r in ns && ns[r].IdConst? then var (v, w) := h.factory(ns[r].id, m.world); (v, m.(world := w))
      else (Err(NameError), m)
    case ScopesE(r) => (if r in ns && ns[r].ScopesConst? then Ok(ScopesValue(ns[r].scopes)) else Err(NameError), m)
    case PathGetE(key, orElse) => (Ok(if key in h.pathParams then Text(h.pathParams[key]) else orElse), m)
    case QueryItemE(key) => (Ok(h.queryItem(key, m.world)), m)
    case FirstE(source, key) => (Ok(h.first(source, key, m.world)), m)
    case EveryE(source, key) => (Ok(ListValue(h.every(source, key, m.world))), m)
    case IntE(a) =>
      var (v, m1) := Eval(h, ns, a, m);
      if v.Ok? then (h.toInt(v.value), m1) else (v, m1)
    case FloatE(a) =>
      var (v, m1) := Eval(h, ns, a, m);
      if v.Ok? then (h.toFloat(v.value), m1) else (v, m1)
    case CoerceE(a, r, name, loc) =>
      var (v, m1) := Eval(h, ns, a, m);
      if v.Err? then (v, m1)
      else if r in ns && ns[r].TypeConst? then (CoerceValue(h, v.value, ns[r].ty, name, loc), m1)
      else (Err(NameError), m1)
    case EachE(t, r, name, loc) =>
      if t in m.temps && m.temps[t].ListValue? && r in ns && ns[r].TypeConst? then
        match CoerceEach(h, m.temps[t].items, ns[r].ty, name, loc)
        case Ok(vs) => (Ok(ListValue(vs)), m)
        case Err(exc) => (Err(exc), m)
      else (Err(NameError), m)
    case CollectE(t, r, name, loc) =>
      if t in m.temps && m.temps[t].ListValue? && r in ns && ns[r].TypeConst? && ns[r].ty.SequenceType? then
        (CollectSequence(h, m.temps[t].items, ns[r].ty, name, loc), m)
      else (Err(NameError), m)
    case ValidateE(r, a, name) =>
      var (v, m1) := Eval(h, ns, a, m);
      if v.Err? then (v, m1)
      else if r in ns && ns[r].IdConst? then (h.validate(ns[r].id, v.value, name), m1)
      else (Err(NameError), m1)
    case BackgroundE => (Ok(h.background(m.world)), m)
    case NewBackgroundE => var (v, w) := h.newBackground(m.world); (Ok(v), m.(world := w))
    case InjectedE => (Ok(h.injected(m.world)), m)
    case NewResponseE => var (v, w) := h.newResponse(m.world); (Ok(v), m.(world := w))
    case CallE(mode, f, kw) =>
      if f in ns && ns[f].CallableConst? && kw in m.dicts then
        var (v, w) := h.invoke(mode, ns[f].callable, m.dicts[kw], m.world);
        (v, m.(log := m.log + [Invoke(mode, ns[f].callable, m.dicts[kw])], world := w))
      else (Err(NameError), m)
    case NextE(isAsync, g) =>
      if g in m.locals then
        var (v, w) := h.advance(isAsync, m.locals[g], m.world);
        (v, m.(log := m.log + [Advance(isAsync, m.locals[g])], world := w))
      else (Err(NameError), m)
  }

  function Test(h: Host, c: Cond, m: Machine): Result<bool, Exc> {
    match c
    case IsNone(t) => if t in m.temps then Ok(m.temps[t] == NoneValue) else Err(NameError)
    case IsPresent(t) => if t in m.temps then Ok(m.temps[t] != Missing) else Err(NameError)
    case InQuery(key) => Ok(h.inQuery(key, m.world))
    case IsEmpty(t) => if t in m.temps then Ok(m.temps[t] == ListValue([])) else Err(NameError)
    case IsScalar(t) =>
      if t in m.temps then Ok(!m.temps[t].DictValue? && !m.temps[t].ListValue?) else Err(NameError)
    case NoBackground => Ok(h.background(m.world) == NoneValue)
  }

  function Handle(ns: Namespace, k: Handler, exc: Exc): Exc {
    match k
    case OnConversion(e) => if exc.ValueError? || exc.TypeError? then e else exc
    case OnValueError(loc, name) => if exc.ValueError? then ValueErrorAt(loc, name, exc.msg) else exc
    case OnStop(isAsync, r) =>
      if exc == Stop(isAsync) then if r in ns && ns[r].MsgConst? then NoYield(ns[r].of) else NameError
      else exc
  }

  // ---- Statements -----------------------------------------------------------

  /** Running one statement: the exception that escaped it, if any, and the machine after it. */
  function Exec(h: Host, ns: Namespace, s: Stmt, m: Machine): (Outcome, Machine) {
    match s
    case Skip => (None, m)
    case Then(a, b) =>
      var (o, m1) := Exec(h, ns, a, m);
      if o.Some? then (o, m1) else Exec(h, ns, b, m1)
    case If(c, a, b) =>
      var t := Test(h, c, m);
      if t.Err? then (Some(t.error), m) else if t.value then Exec(h, ns, a, m) else Exec(h, ns, b, m)
    case Try(body, k) =>
      var (o, m1) := Exec(h, ns, body, m);
      (if o.Some? then Some(Handle(ns, k, o.value)) else None, m1)
    case Raise(e) => (Some(e), m)
    case Let(x, e) =>
      var (v, m1) := Eval(h, ns, e, m);
      if v.Err? then (Some(v.error), m1) else (None, m1.(locals := m1.locals[x := v.value]))
    case SetTemp(t, e) =>
      var (v, m1) := Eval(h, ns, e, m);
      if v.Err? then (Some(v.error), m1) else (None, m1.(temps := m1.temps[t := v.value]))
    case NewDict(d) => (None, m.(dicts := m.dicts[d := map[]]))
    case Put(d, key, e) =>
      var (v, m1) := Eval(h, ns, e, m);
      if v.Err? then (Some(v.error), m1)
      else if d !in m1.dicts then (Some(NameError), m1)
      else (None, m1.(dicts := m1.dicts[d := m1.dicts[d][key := v.value]]))
    case SetBackground(e) =>
      var (v, m1) := Eval(h, ns, e, m);
      if v.Err? then (Some(v.error), m1) else (None, m1.(world := h.setBackground(v.value, m1.world)))
    case SetStatus(t, status) =>
      if t in m.temps then (None, m.(world := h.setStatus(m.temps[t], status, m.world))) else (Some(NameError), m)
    case SetInjected(t) =>
      if t in m.temps then (None, m.(world := h.setInjected(m.temps[t], m.world))) else (Some(NameError), m)
    case CheckList(r, d, key, name, loc) =>
      if r in ns && ns[r].IdConst? && d in m.dicts && key in m.dicts[d] then
        (h.listCheck(ns[r].id, m.dicts[d][key], name, loc), m)
      else (Some(NameError), m)
    case PushTeardown(isAsync, g) =>
      if g in m.locals then (None, m.(teardowns := m.teardowns + [Teardown(isAsync, m.locals[g])]))
      else (Some(NameError), m)
  }

  /** Running the lines of a function body in order. */
  function Run(h: Host, ns: Namespace, lines: seq<Stmt>, m: Machine): (Outcome, Machine) {
    if lines == [] then (None, m)
    else
      var (o, m1) := Exec(h, ns, lines[0], m);
      if o.Some? then (o, m1) else Run(h, ns, lines[1..], m1)
  }

  lemma {:induction false} RunConcat(h: Host, ns: Namespace, a: seq<Stmt>, b: seq<Stmt>, m: Machine)
    ensures Run(h, ns, a + b, m) ==
            var (o, m1) := Run(h, ns, a, m);
            if o.Some? then (o, m1) else Run(h, ns, b, m1)
  {
    if a == [] {
      assert a + b == b;
    } else {
      var (o, m1) := Exec(h, ns, a[0], m);
      assert (a + b)[1..] == a[1..] + b;
      if o.None? {
        RunConcat(h, ns, a[1..], b, m1);
      }
    }
  }
}
