/** What the resolver calls out to: the request, coercion, validation and the dependency callables
    themselves, each an arbitrary deterministic function of its arguments and the world it runs in. */
module Hosts {
  import opened Wrappers
  import opened Plans

  /** Everything a dependency call may read or change, the request included. */
  type World(!new)

  type Kwargs = map<string, Value>

  /** Where a validation error points: the source and the name reported, as a list or (for a bare missing query
      parameter) as a tuple. */
  datatype Loc = ListLoc(source: Source, name: string) | TupleLoc(source: Source, name: string)

  datatype Message =
    | InvalidValue(name: string, expected: Converter)   // "Invalid value for {name}: expected {expected}"
    | MissingParameter(name: string)                 // "Missing required parameter: {name}"
    | FieldRequired                                  // "field required"
    | MustHaveExactly(name: string, count: nat)      // "{name} must have exactly {count} values"
    | Verbatim(text: string)                         // `str(e)`

  datatype Code = TypeErrorCode | ValueErrorCode | ValueMissingCode | MissingCode

  datatype Converter = IntConverter | FloatConverter

  datatype Exc =
    | Invalid(loc: Loc, message: Message, code: Code) // `RequestValidationError`
    | ValueError(msg: string)
    | TypeError(msg: string)
    | Stop(isAsync: bool)                          // `StopIteration` / `StopAsyncIteration`
    | NoYield(callable: Callable)                  // the `RuntimeError` for a generator that never yields
    | NameError
    | Raised(id: nat)
    | Fatal(id: nat)                               // a `BaseException` that is no `Exception`, as a cancellation is

  datatype Host = Host(
    pathParams: map<string, string>,
    inQuery: (string, World) -> bool,
    queryItem: (string, World) -> Value,
    first: (Source, string, World) -> Value,       // `.get(...)`, `NoneValue` when absent
    every: (Source, string, World) -> seq<Value>,  // `.getlist(...)`
    toInt: Value -> Result<Value, Exc>,
    toFloat: Value -> Result<Value, Exc>,
    coerceOther: (Value, Type, string, Source) -> Result<Value, Exc>,
    build: (Container, seq<Value>) -> Result<Value, Exc>,
    validate: (nat, Value, string) -> Result<Value, Exc>,
    listCheck: (nat, Value, string, Source) -> Option<Exc>,
    factory: (nat, World) -> (Result<Value, Exc>, World),
    background: World -> Value,
    newBackground: World -> (Value, World),
    setBackground: (Value, World) -> World,
    injected: World -> Value,
    newResponse: World -> (Value, World),
    setStatus: (Value, nat, World) -> World,
    setInjected: (Value, World) -> World,
    invoke: (Mode, Callable, Kwargs, World) -> (Result<Value, Exc>, World),
    advance: (bool, Value, World) -> (Result<Value, Exc>, World),
    resolveOther: (Slot, World) -> (Result<Option<Value>, Exc>, World))

  /** One call the resolver makes into user code, with its arguments. */
  datatype Call = Invoke(mode: Mode, callable: Callable, kwargs: Kwargs) | Advance(isAsync: bool, gen: Value)

  /** A generator waiting for teardown. */
  datatype Teardown = Teardown(isAsync: bool, gen: Value)

  function TypeErrorAt(loc: Source, name: string, expected: Converter): Exc {
    Invalid(ListLoc(loc, name), InvalidValue(name, expected), TypeErrorCode)
  }

  function ValueErrorAt(loc: Source, name: string, msg: string): Exc {
    Invalid(ListLoc(loc, name), Verbatim(msg), ValueErrorCode)
  }

  function MissingMarkerAt(loc: Source, name: string): Exc {
    Invalid(ListLoc(loc, name), MissingParameter(name), ValueMissingCode)
  }

  function FieldRequiredAt(lookup: string): Exc {
    Invalid(TupleLoc(QuerySource, lookup), FieldRequired, MissingCode)
  }

  /** `try: r except (ValueError, TypeError): raise RequestValidationError(...)` */
  function AsTypeError(r: Result<Value, Exc>, loc: Source, name: string, expected: Converter): Result<Value, Exc> {
    if r.Err? && (r.error.ValueError? || r.error.TypeError?) then Err(TypeErrorAt(loc, name, expected)) else r
  }

  /** `_coerce_value`: the fast scalar branches, then everything else. */
  function CoerceValue(h: Host, v: Value, ty: Type, name: string, loc: Source): Result<Value, Exc> {
    match ty
    case NoType | StrType | AnyType => Ok(v)
    case IntType => AsTypeError(h.toInt(v), loc, name, IntConverter)
    case FloatType => AsTypeError(h.toFloat(v), loc, name, FloatConverter)
    case _ => h.coerceOther(v, ty, name, loc)
  }

  /** `[_coerce_value(v, inner, ...) for v in values]`, the first failure winning. */
  function CoerceEach(h: Host, vs: seq<Value>, ty: Type, name: string, loc: Source): Result<seq<Value>, Exc> {
    if vs == [] then Ok([])
    else
      match CoerceValue(h, vs[0], ty, name, loc)
      case Err(e) => Err(e)
      case Ok(x) =>
        match CoerceEach(h, vs[1..], ty, name, loc)
        case Err(e) => Err(e)
        case Ok(xs) => Ok([x] + xs)
  }

  function CoercePositions(h: Host, vs: seq<Value>, tys: seq<Type>, name: string, loc: Source): Result<seq<Value>, Exc>
    requires |vs| == |tys|
  {
    if vs == [] then Ok([])
    else
      match CoerceValue(h, vs[0], tys[0], name, loc)
      case Err(e) => Err(e)
      case Ok(x) =>
        match CoercePositions(h, vs[1..], tys[1..], name, loc)
        case Err(e) => Err(e)
        case Ok(xs) => Ok([x] + xs)
  }

  /** `_collect_sequence_marker`: coerce repeated values onto a declared sequence type. */
  function CollectSequence(h: Host, vs: seq<Value>, ty: Type, name: string, loc: Source): Result<Value, Exc>
    requires ty.SequenceType?
  {
    var collected :=
      if ty.positions.Some? then
        if |vs| != |ty.positions.value| then
          Err(Invalid(ListLoc(loc, name), MustHaveExactly(name, |ty.positions.value|), ValueErrorCode))
        else CoercePositions(h, vs, ty.positions.value, name, loc)
      else if ty.inner.StrType? then Ok(vs)
      else CoerceEach(h, vs, ty.inner, name, loc);
    match collected
    case Err(e) => Err(e)
    case Ok(xs) => if ty.container.ListContainer? then Ok(ListValue(xs)) else h.build(ty.container, xs)
  }
}
