/** The registration-time compiler from a plan to straight-line resolver code. */
module Codegen {
  import opened Wrappers
  import opened Plans
  import opened Hosts
  import opened ResolverCode
  import Interpreter

  /** Compile-time state of one emission. `n` numbers every emitted name; `depVars` maps a dependency's
      dedup key to the result local already holding it; `scopes` mirrors the run-time scope stack. */
  datatype Ctx = Ctx(n: nat, depVars: map<Key, nat>, inProgress: set<Key>, scopes: seq<string>,
                     lines: seq<Stmt>, ns: Namespace)

  const START := Ctx(0, map[], {}, [], [], map[])

  // ---- Parameters and markers -----------------------------------------------

  function Effective(ty: Type): Type {
    if ty.NoType? then StrType else ty
  }

  function DefaultConsts(j: nat, d: Default): Namespace {
    match d
    case NoDefault => map[]
    case Static(v) => map[DefaultRef(j) := ValueConst(v)]
    case Factory(id) => map[FactoryRef(j) := IdConst(id)]
  }

  /** What to do when no source answered. */
  function EmitAbsent(j: nat, key: string, d: Default, optional: bool, target: Local, missing: Exc): Stmt {
    match d
    case Static(_) => Put(target, key, DefaultE(DefaultRef(j)))
    case Factory(_) => Put(target, key, FactoryE(FactoryRef(j)))
    case NoDefault => if optional then Put(target, key, NoneE) else Raise(missing)
  }

  /** `_emit_coerced`: the conversion chosen at compile time, falling back to the helper. */
  function EmitCoerced(j: nat, ty: Type, target: Local, key: string, e: Expr, name: string, loc: Source): Stmt {
    match ty
    case StrType | AnyType => Put(target, key, e)
    case IntType => Try(Put(target, key, IntE(e)), OnConversion(TypeErrorAt(loc, name, IntConverter)))
    case FloatType => Try(Put(target, key, FloatE(e)), OnConversion(TypeErrorAt(loc, name, FloatConverter)))
    case _ => Put(target, key, CoerceE(e, TypeRef(j), name, loc))
  }

  /** `_emit_field_validate`: a source-less marker's bound check, reported under the name the client used. */
  function EmitFieldValidate(j: nat, check: Option<nat>, target: Local, key: string, reported: string,
      loc: Source): Stmt {
    if check.None? then Skip
    else Try(Put(target, key, ValidateE(FieldRef(j), ItemE(target, key), reported)), OnValueError(loc, reported))
  }

  function ScalarConsts(j: nat, s: ScalarSpec): Namespace {
    map[TypeRef(j) := TypeConst(Effective(s.ty))] + DefaultConsts(j, s.default)
    + if s.check.Some? then map[FieldRef(j) := IdConst(s.check.value)] else map[]
  }

  function EmitScalar(j: nat, name: string, s: ScalarSpec, target: Local): Stmt {
    var ty := Effective(s.ty);
    Then(SetTemp(VTemp, PathGetE(name, Missing)),
         If(IsPresent(VTemp),
            Then(EmitCoerced(j, ty, target, name, TempE(VTemp), name, PathSource),
                 EmitFieldValidate(j, s.check, target, name, name, PathSource)),
            If(InQuery(s.lookup),
               Then(EmitCoerced(j, ty, target, name, QueryItemE(s.lookup), s.lookup, QuerySource),
                    EmitFieldValidate(j, s.check, target, name, s.lookup, QuerySource)),
               EmitAbsent(j, name, s.default, s.optional, target, FieldRequiredAt(s.lookup)))))
  }

  predicate SimpleList(ty: Type) {
    ty.SequenceType? && ty.positions.None? && ty.container.ListContainer?
  }

  function MarkerConsts(j: nat, m: MarkerSpec): Namespace {
    map[TypeRef(j) := TypeConst(m.ty), ValidateRef(j) := IdConst(m.validator)] + DefaultConsts(j, m.default)
    + (if Interpreter.ReadsList(m) then map[InnerRef(j) := TypeConst(m.ty.inner), SeqRef(j) := TypeConst(m.ty)]
        else map[])
    + if m.checks.Some? then map[ChecksRef(j) := IdConst(m.checks.value)] else map[]
  }

  /** The expression collecting repeated values: inlined for a plain `list[T]`, else the shared helper. */
  function CollectExpr(j: nat, name: string, ty: Type, loc: Source): Expr
    requires ty.SequenceType?
  {
    if !SimpleList(ty) then CollectE(ValsTemp, SeqRef(j), name, loc)
    else if ty.inner.StrType? then TempE(ValsTemp)
    else EachE(ValsTemp, InnerRef(j), name, loc)
  }

  /** `_emit_marker`, the list-typed branch. */
  function EmitListMarker(j: nat, name: string, m: MarkerSpec, target: Local): Stmt
    requires m.ty.SequenceType?
  {
    var loc := m.source;
    var check := if m.checks.Some? then CheckList(ChecksRef(j), target, name, name, loc) else Skip;
    Then(SetTemp(ValsTemp, EveryE(m.source, m.lookup)),
         If(IsEmpty(ValsTemp),
            EmitAbsent(j, name, m.default, m.optional, target, MissingMarkerAt(loc, name)),
            Then(Put(target, name, CollectExpr(j, name, m.ty, loc)), check)))
  }

  /** Coerce `_raw` in place, unless its declared type leaves it alone or it is already structured. */
  function EmitCoerceRaw(j: nat, name: string, ty: Type, loc: Source): Stmt {
    if ty.NoType? || ty.StrType? then Skip
    else If(IsScalar(RawTemp), SetTemp(RawTemp, CoerceE(TempE(RawTemp), TypeRef(j), name, loc)), Skip)
  }

  /** `_emit_marker`, the scalar branch. */
  function EmitScalarMarker(j: nat, name: string, m: MarkerSpec, target: Local): Stmt {
    var loc := m.source;
    var read := if m.source.PathSource? then PathGetE(m.lookup, NoneValue) else FirstE(m.source, m.lookup);
    Then(SetTemp(RawTemp, read),
         If(IsNone(RawTemp),
            EmitAbsent(j, name, m.default, m.optional, target, MissingMarkerAt(loc, name)),
            Then(EmitCoerceRaw(j, name, m.ty, loc),
                 Try(Put(target, name, ValidateE(ValidateRef(j), TempE(RawTemp), name)), OnValueError(loc, name)))))
  }

  function EmitMarker(j: nat, name: string, m: MarkerSpec, target: Local): Stmt {
    if Interpreter.ReadsList(m) then EmitListMarker(j, name, m, target) else EmitScalarMarker(j, name, m, target)
  }

  // ---- Slots ----------------------------------------------------------------

  function EmitBackground(name: string, target: Local): seq<Stmt> {
    [If(NoBackground, SetBackground(NewBackgroundE), Skip), Put(target, name, BackgroundE)]
  }

  function EmitResponse(name: string, target: Local): seq<Stmt> {
    [SetTemp(InjTemp, InjectedE), If(IsNone(InjTemp), CREATE_RESPONSE, Skip), Put(target, name, TempE(InjTemp))]
  }

  const CREATE_RESPONSE := Then(SetTemp(InjTemp, NewResponseE), Then(SetStatus(InjTemp, 0), SetInjected(InjTemp)))

  /** The lines that run a dependency once its arguments are in `_kw{n}`. */
  function EmitCall(n: nat, mode: Mode): seq<Stmt> {
    if mode.Generator? || mode.AsyncGenerator? then
      [Let(GenLocal(n), CallE(mode, FnRef(n), KwLocal(n))),
       Try(Let(ResultLocal(n), NextE(mode.AsyncGenerator?, GenLocal(n))), OnStop(mode.AsyncGenerator?, MsgRef(n))),
       PushTeardown(mode.AsyncGenerator?, GenLocal(n))]
    else [Let(ResultLocal(n), CallE(mode, FnRef(n), KwLocal(n)))]
  }

  /** The "returned without yielding" message, built once at compile time. */
  function MessageConsts(n: nat, slot: Slot): Namespace
    requires slot.DependsSlot?
  {
    if slot.mode.Generator? || slot.mode.AsyncGenerator? then map[MsgRef(n) := MsgConst(slot.callable)] else map[]
  }

  /** `_emit_dep`: the result local of a dependency, emitting its resolution the first time its key is met.
      `None` is the `_NotCompilable` exception. */
  function EmitDep(slot: Slot, c: Ctx): Option<(nat, Ctx)>
    requires slot.DependsSlot?
    decreases slot, 0
  {
    var key := KeyOf(slot, c.scopes);
    if key in c.depVars then Some((c.depVars[key], c))
    else if key in c.inProgress then None
    else
      match EmitSlots(slot.sub.slots, KwLocal(c.n), EnterDep(slot, c))
      case None => None
      case Some(c2) => Some((c.n, LeaveDep(slot, c, c2)))
  }

  /** Before a dependency's arguments: reserve its number, mark it pending, push its scopes. */
  function EnterDep(slot: Slot, c: Ctx): Ctx
    requires slot.DependsSlot?
  {
    c.(n := c.n + 1, inProgress := c.inProgress + {KeyOf(slot, c.scopes)},
       ns := c.ns[FnRef(c.n) := CallableConst(slot.callable)],
       lines := c.lines + [NewDict(KwLocal(c.n))], scopes := c.scopes + slot.scopes)
  }

  /** After them: pop the scopes, emit the call, remember the result local. */
  function LeaveDep(slot: Slot, c: Ctx, c2: Ctx): Ctx
    requires slot.DependsSlot?
  {
    c2.(scopes := c.scopes, lines := c2.lines + EmitCall(c.n, slot.mode), ns := c2.ns + MessageConsts(c.n, slot),
        inProgress := c2.inProgress - {KeyOf(slot, c.scopes)}, depVars := c2.depVars[KeyOf(slot, c.scopes) := c.n])
  }

  /** Emit a line under the next number, binding the constants it reads. */
  function Numbering(c: Ctx, consts: Namespace, line: Stmt): Ctx {
    c.(n := c.n + 1, ns := c.ns + consts, lines := c.lines + [line])
  }

  /** `_emit_graph_slot` */
  function EmitSlot(slot: Slot, target: Local, c: Ctx): Option<Ctx>
    decreases slot, 1
  {
    match slot
    case RequestSlot(name, _) => Some(c.(lines := c.lines + [Put(target, name, RequestE)]))
    case BackgroundSlot(name) => Some(c.(lines := c.lines + EmitBackground(name, target)))
    case ResponseSlot(name) => Some(c.(lines := c.lines + EmitResponse(name, target)))
    case ScopesSlot(name) =>
      Some(Numbering(c, map[ScopesRef(c.n) := ScopesConst(c.scopes)], Put(target, name, ScopesE(ScopesRef(c.n)))))
    case ScalarSlot(name, s) => Some(Numbering(c, ScalarConsts(c.n, s), EmitScalar(c.n, name, s, target)))
    case MarkerSlot(name, m) => Some(Numbering(c, MarkerConsts(c.n, m), EmitMarker(c.n, name, m, target)))
    case DependsSlot(name, _, _, _, _, _, _) =>
      (match EmitDep(slot, c)
       case None => None
       case Some((v, c1)) => Some(c1.(lines := c1.lines + [Put(target, name, LocalE(ResultLocal(v)))])))
    case OtherSlot(_, _) => None
  }

  function EmitSlots(slots: seq<Slot>, target: Local, c: Ctx): Option<Ctx>
    decreases slots
  {
    if slots == [] then Some(c)
    else
      match EmitSlot(slots[0], target, c)
      case None => None
      case Some(c1) => EmitSlots(slots[1..], target, c1)
  }

  /** `_graph_compilable`: no waves anywhere, only cacheable dependencies, only supported slot kinds. */
  predicate Compilable(plan: Plan) {
    && plan.waves == []
    && forall i | 0 <= i < |plan.slots| ::
         && !plan.slots[i].OtherSlot?
         && (plan.slots[i].DependsSlot? ==> plan.slots[i].useCache && Compilable(plan.slots[i].sub))
  }

  datatype Compiled = Compiled(lines: seq<Stmt>, ns: Namespace)

  /** `compile_graph_resolver`: the generated body, without its `k = {}` header and `return k`. */
  function CompileGraph(plan: Plan): Option<Compiled> {
    if !Compilable(plan) then None
    else
      match EmitSlots(plan.slots, KLocal, START)
      case None => None
      case Some(c) => Some(Compiled(c.lines, c.ns))
  }

  /** `compile_param_resolver`'s slot test: the request, bare parameters and synchronous markers only. */
  predicate ParamOnly(plan: Plan) {
    forall i | 0 <= i < |plan.slots| ::
      var s := plan.slots[i]; (s.RequestSlot? && !s.websocket) || s.ScalarSlot? || s.MarkerSlot?
  }

  /** The param-only emission: one number per slot, the handler's own kwargs as target. */
  function EmitParams(slots: seq<Slot>, c: Ctx): Ctx {
    if slots == [] then c
    else EmitParams(slots[1..], EmitParam(slots[0], c))
  }

  function EmitParam(slot: Slot, c: Ctx): Ctx {
    match slot
    case ScalarSlot(name, s) => Numbering(c, ScalarConsts(c.n, s), EmitScalar(c.n, name, s, KLocal))
    case MarkerSlot(name, m) => Numbering(c, MarkerConsts(c.n, m), EmitMarker(c.n, name, m, KLocal))
    case _ => Numbering(c, map[], Put(KLocal, slot.name, RequestE))
  }

  function CompileParams(plan: Plan): Option<Compiled> {
    if !ParamOnly(plan) then None
    else var c := EmitParams(plan.slots, START); Some(Compiled(c.lines, c.ns))
  }

  /** Calling a compiled resolver: `k = {}`, the body, `return k`. */
  function CallCompiled(h: Host, code: Compiled, teardowns: seq<Teardown>, log: seq<Call>, w: World)
    : (Result<Kwargs, Exc>, Machine)
  {
    var (o, m) := Run(h, code.ns, code.lines, Machine(map[], map[], map[KLocal := map[]], teardowns, log, w));
    if o.Some? then (Err(o.value), m)
    else if KLocal in m.dicts then (Ok(m.dicts[KLocal]), m)
    else (Err(NameError), m)
  }
}
