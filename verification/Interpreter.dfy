/** The resolver that walks a plan at request time (`DependencyResolver`). */
module Interpreter {
  import opened Wrappers
  import opened Plans
  import opened Hosts

  /** The per-request resolver state, plus the world and the calls made into it so far. */
  datatype State = State(cache: map<Key, Value>, scopes: seq<string>, teardowns: seq<Teardown>,
                         log: seq<Call>, world: World)

  // ---- Parameters -----------------------------------------------------------

  function UseDefault(h: Host, d: Default, w: World): (Result<Value, Exc>, World)
    requires !d.NoDefault?
  {
    match d
    case Static(v) => (Ok(v), w)
    case Factory(id) => h.factory(id, w)
  }

  /** `_validated`: a source-less marker's bounds on a value already found. */
  function Validated(h: Host, check: Option<nat>, r: Result<Value, Exc>, name: string, loc: Source): Result<Value,
      Exc> {
    if r.Err? || check.None? then r
    else
      match h.validate(check.value, r.value, name)
      case Ok(v) => Ok(v)
      case Err(ValueError(msg)) => Err(ValueErrorAt(loc, name, msg))
      case Err(e) => Err(e)
  }

  /** `_resolve_scalar_param`: path, then query, then default, then optional, else missing. */
  function ResolveScalar(h: Host, name: string, s: ScalarSpec, w: World): (Result<Value, Exc>, World) {
    if name in h.pathParams then
      (Validated(h, s.check, CoerceValue(h, Text(h.pathParams[name]), s.ty, name, PathSource), name, PathSource), w)
    else if h.inQuery(s.lookup, w) then
      (Validated(h, s.check, CoerceValue(h, h.queryItem(s.lookup, w), s.ty, s.lookup, QuerySource), s.lookup,
          QuerySource), w)
    else if !s.default.NoDefault? then UseDefault(h, s.default, w)
    else if s.optional then (Ok(NoneValue), w)
    else (Err(FieldRequiredAt(s.lookup)), w)
  }

  function AbsentMarker(h: Host, name: string, m: MarkerSpec, w: World): (Result<Value, Exc>, World) {
    if !m.default.NoDefault? then UseDefault(h, m.default, w)
    else if m.optional then (Ok(NoneValue), w)
    else (Err(MissingMarkerAt(m.source, name)), w)
  }

  predicate ReadsList(m: MarkerSpec) {
    !m.source.PathSource? && m.ty.SequenceType?
  }

  function RawValue(h: Host, m: MarkerSpec, w: World): Value {
    if m.source.PathSource? then
      if m.lookup in h.pathParams then Text(h.pathParams[m.lookup]) else NoneValue
    else h.first(m.source, m.lookup, w)
  }

  /** `_coerce_scalar`: strings and already structured values pass through. */
  function CoerceScalar(h: Host, v: Value, ty: Type, name: string, loc: Source): Result<Value, Exc> {
    if !ty.NoType? && !ty.StrType? && !v.DictValue? && !v.ListValue? then CoerceValue(h, v, ty, name, loc) else Ok(v)
  }

  /** `_resolve_marker`, for the four synchronous sources. */
  function ResolveMarker(h: Host, name: string, m: MarkerSpec, w: World): (Result<Value, Exc>, World) {
    var loc := m.source;
    if ReadsList(m) then
      var values := h.every(m.source, m.lookup, w);
      if values == [] then AbsentMarker(h, name, m, w)
      else
        var collected := CollectSequence(h, values, m.ty, name, loc);
        if collected.Ok? && m.checks.Some? && h.listCheck(m.checks.value, collected.value, name, loc).Some? then
          (Err(h.listCheck(m.checks.value, collected.value, name, loc).value), w)
        else (collected, w)
    else
      var raw := RawValue(h, m, w);
      if raw == NoneValue then AbsentMarker(h, name, m, w)
      else
        match CoerceScalar(h, raw, m.ty, name, loc)
        case Err(e) => (Err(e), w)
        case Ok(v) => (Validated(h, Some(m.validator), Ok(v), name, loc), w)
  }

  // ---- Framework injections -------------------------------------------------

  /** `_bind_background_tasks` */
  function BindBackground(h: Host, w: World): (Value, World) {
    if h.background(w) == NoneValue then
      var (b, w1) := h.newBackground(w);
      var w2 := h.setBackground(b, w1);
      (h.background(w2), w2)
    else (h.background(w), w)
  }

  /** `_bind_injected_response`: one per request, `status_code = 0` until the handler sets it. */
  function BindResponse(h: Host, w: World): (Value, World) {
    if h.injected(w) == NoneValue then
      var (r, w1) := h.newResponse(w);
      (r, h.setInjected(r, h.setStatus(r, 0, w1)))
    else (h.injected(w), w)
  }

  // ---- Dependencies ---------------------------------------------------------

  /** Run a dependency's callable on its resolved arguments, registering a generator for teardown. */
  function RunCallable(h: Host, slot: Slot, kw: Kwargs, st: State): (Result<Value, Exc>, State)
    requires slot.DependsSlot?
  {
    var (made, w1) := h.invoke(slot.mode, slot.callable, kw, st.world);
    var st1 := st.(log := st.log + [Invoke(slot.mode, slot.callable, kw)], world := w1);
    if made.Err? || !(slot.mode.Generator? || slot.mode.AsyncGenerator?) then (made, st1)
    else
      var isAsync := slot.mode.AsyncGenerator?;
      var gen := made.value;
      var (got, w2) := h.advance(isAsync, gen, w1);
      var st2 := st1.(log := st1.log + [Advance(isAsync, gen)], world := w2);
      match got
      case Ok(v) => (Ok(v), st2.(teardowns := st2.teardowns + [Teardown(isAsync, gen)]))
      case Err(e) => (Err(if e == Stop(isAsync) then NoYield(slot.callable) else e), st2)
  }

  /** `_exec_depends`, with no overrides: the scoped result cache, the scope stack and the call. */
  function ExecDepends(h: Host, slot: Slot, st: State): (Result<Value, Exc>, State)
    requires slot.DependsSlot?
    decreases slot, 0
  {
    var key := KeyOf(slot, st.scopes);
    if slot.useCache && key in st.cache then (Ok(st.cache[key]), st)
    else
      var (kw, st1) := ResolveSlots(h, slot.sub.slots, map[], st.(scopes := st.scopes + slot.scopes));
      var st2 := st1.(scopes := st.scopes);
      match kw
      case Err(e) => (Err(e), st2)
      case Ok(kwargs) =>
        var (r, st3) := RunCallable(h, slot, kwargs, st2);
        if r.Ok? && slot.useCache then (r, st3.(cache := st3.cache[key := r.value])) else (r, st3)
  }

  /** One slot's value; `None` binds nothing. */
  function ResolveSlot(h: Host, slot: Slot, st: State): (Result<Option<Value>, Exc>, State)
    decreases slot, 1
  {
    match slot
    case RequestSlot(_, _) => (Ok(Some(RequestValue)), st)
    case BackgroundSlot(_) => var (v, w) := BindBackground(h, st.world); (Ok(Some(v)), st.(world := w))
    case ResponseSlot(_) => var (v, w) := BindResponse(h, st.world); (Ok(Some(v)), st.(world := w))
    case ScopesSlot(_) => (Ok(Some(ScopesValue(st.scopes))), st)
    case ScalarSlot(name, s) => var (r, w) := ResolveScalar(h, name, s, st.world); (Lift(r), st.(world := w))
    case MarkerSlot(name, m) => var (r, w) := ResolveMarker(h, name, m, st.world); (Lift(r), st.(world := w))
    case DependsSlot(_, _, _, _, _, _, _) => var (r, st1) := ExecDepends(h, slot, st); (Lift(r), st1)
    case OtherSlot(_, _) => var (r, w) := h.resolveOther(slot, st.world); (r, st.(world := w))
  }

  function Lift(r: Result<Value, Exc>): Result<Option<Value>, Exc> {
    match r case Ok(v) => Ok(Some(v)) case Err(e) => Err(e)
  }

  function Bind(kw: Kwargs, name: string, v: Option<Value>): Kwargs {
    match v case Some(x) => kw[name := x] case None => kw
  }

  /** `_resolve_slots` for a plan without waves: every slot in order, stopping at the first exception. */
  function ResolveSlots(h: Host, slots: seq<Slot>, kw: Kwargs, st: State): (Result<Kwargs, Exc>, State)
    decreases slots
  {
    if slots == [] then (Ok(kw), st)
    else
      var (r, st1) := ResolveSlot(h, slots[0], st);
      match r
      case Err(e) => (Err(e), st1)
      case Ok(v) => ResolveSlots(h, slots[1..], Bind(kw, slots[0].name, v), st1)
  }

  function Fresh(w: World): State {
    State(map[], [], [], [], w)
  }
}
