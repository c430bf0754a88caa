/** What repeated values, missing parameters and failed conversions come to, element by element. */
module Coercion {
  import opened Wrappers
  import opened Hosts
  import opened Plans
  import I = Interpreter

  /** The declared type of the `i`-th value: its own position's, or the one all of them share. */
  function TypeAt(ty: Type, i: nat): Type
    requires ty.SequenceType?
  {
    if ty.positions.Some? && i < |ty.positions.value| then ty.positions.value[i] else ty.inner
  }

  /** `xs` are the values, each converted to its type, in order. */
  ghost predicate Converted(h: Host, vs: seq<Value>, ty: Type, name: string, loc: Source, xs: seq<Value>)
    requires ty.SequenceType?
  {
    |xs| == |vs| && forall i :: 0 <= i < |vs| ==> CoerceValue(h, vs[i], TypeAt(ty, i), name, loc) == Ok(xs[i])
  }

  /** The value at `i` is the first that does not convert, and `e` is why. */
  ghost predicate FailsAt(h: Host, vs: seq<Value>, ty: Type, name: string, loc: Source, i: nat, e: Exc)
    requires ty.SequenceType?
  {
    && i < |vs| && CoerceValue(h, vs[i], TypeAt(ty, i), name, loc) == Err(e)
    && forall j :: 0 <= j < i ==> CoerceValue(h, vs[j], TypeAt(ty, j), name, loc).Ok?
  }

  /** All of them converted, or the first failure. */
  ghost predicate EachExactly(h: Host, vs: seq<Value>, ty: Type, name: string, loc: Source,
                              r: Result<seq<Value>, Exc>)
    requires ty.SequenceType?
  {
    match r
    case Ok(xs) => Converted(h, vs, ty, name, loc, xs)
    case Err(e) => exists i: nat :: FailsAt(h, vs, ty, name, loc, i, e)
  }

  function Tail(ty: Type): Type
    requires ty.SequenceType?
  {
    if ty.positions.Some? && ty.positions.value != [] then ty.(positions := Some(ty.positions.value[1..])) else ty
  }

  /** From the values behind the first to all of them. */
  lemma EachOneMore(h: Host, vs: seq<Value>, ty: Type, name: string, loc: Source, x: Value, r: Result<seq<Value>, Exc>)
    requires ty.SequenceType? && vs != [] && CoerceValue(h, vs[0], TypeAt(ty, 0), name, loc) == Ok(x)
    requires EachExactly(h, vs[1..], Tail(ty), name, loc, r)
    ensures EachExactly(h, vs, ty, name, loc, match r case Ok(xs) => Ok([x] + xs) case Err(e) => Err(e))
  {
    assert forall i :: 0 <= i < |vs| - 1 ==> TypeAt(Tail(ty), i) == TypeAt(ty, i + 1) && vs[1..][i] == vs[i + 1];
    match r
    case Ok(xs) =>
      forall i: nat | i < |vs|
        ensures CoerceValue(h, vs[i], TypeAt(ty, i), name, loc) == Ok(([x] + xs)[i])
      {
        if i > 0 {
          assert CoerceValue(h, vs[1..][i - 1], TypeAt(Tail(ty), i - 1), name, loc) == Ok(xs[i - 1]);
        }
      }
    case Err(e) =>
      var i: nat :| FailsAt(h, vs[1..], Tail(ty), name, loc, i, e);
      forall j: nat | j < i + 1
        ensures CoerceValue(h, vs[j], TypeAt(ty, j), name, loc).Ok?
      {
        if j > 0 {
          assert CoerceValue(h, vs[1..][j - 1], TypeAt(Tail(ty), j - 1), name, loc).Ok?;
        }
      }
      assert FailsAt(h, vs, ty, name, loc, i + 1, e);
  }

  lemma {:induction false} EachConverts(h: Host, vs: seq<Value>, ty: Type, name: string, loc: Source)
    requires ty.SequenceType? && ty.positions.None?
    ensures EachExactly(h, vs, ty, name, loc, CoerceEach(h, vs, ty.inner, name, loc))
    decreases |vs|
  {
    if vs != [] {
      match CoerceValue(h, vs[0], ty.inner, name, loc)
      case Err(e) => assert FailsAt(h, vs, ty, name, loc, 0, e);
      case Ok(x) =>
        EachConverts(h, vs[1..], ty, name, loc);
        EachOneMore(h, vs, ty, name, loc, x, CoerceEach(h, vs[1..], ty.inner, name, loc));
    }
  }

  lemma {:induction false} PositionsConvert(h: Host, vs: seq<Value>, ty: Type, name: string, loc: Source)
    requires ty.SequenceType? && ty.positions.Some? && |vs| == |ty.positions.value|
    ensures EachExactly(h, vs, ty, name, loc, CoercePositions(h, vs, ty.positions.value, name, loc))
    decreases |vs|
  {
    if vs != [] {
      match CoerceValue(h, vs[0], ty.positions.value[0], name, loc)
      case Err(e) => assert FailsAt(h, vs, ty, name, loc, 0, e);
      case Ok(x) =>
        PositionsConvert(h, vs[1..], Tail(ty), name, loc);
        EachOneMore(h, vs, ty, name, loc, x, CoercePositions(h, vs[1..], ty.positions.value[1..], name, loc));
    }
  }

  lemma PlainStrings(h: Host, vs: seq<Value>, ty: Type, name: string, loc: Source)
    requires ty.SequenceType? && ty.positions.None? && ty.inner.StrType?
    ensures Converted(h, vs, ty, name, loc, vs)
  {
  }

  /** The type fixes how many values there are, and there are not as many. */
  predicate Misshapen(vs: seq<Value>, ty: Type)
    requires ty.SequenceType?
  {
    ty.positions.Some? && |vs| != |ty.positions.value|
  }

  /** Repeated values become the declared sequence of all of them, each converted to its own type and in order; the
      first that does not convert decides, and so does a wrong number of them for a shape that fixes it. */
  lemma CollectExact(h: Host, vs: seq<Value>, ty: Type, name: string, loc: Source)
    returns (each: Result<seq<Value>, Exc>)
    requires ty.SequenceType?
    ensures CollectSequence(h, vs, ty, name, loc) ==
      if Misshapen(vs, ty) then
        Err(Invalid(ListLoc(loc, name), MustHaveExactly(name, |ty.positions.value|), ValueErrorCode))
      else
        match each
        case Err(e) => Err(e)
        case Ok(xs) => if ty.container.ListContainer? then Ok(ListValue(xs)) else h.build(ty.container, xs)
    ensures Misshapen(vs, ty) || EachExactly(h, vs, ty, name, loc, each)
  {
    if ty.positions.Some? {
      each := Ok([]);
      if |vs| == |ty.positions.value| {
        each := CoercePositions(h, vs, ty.positions.value, name, loc);
        PositionsConvert(h, vs, ty, name, loc);
      }
    } else if ty.inner.StrType? {
      each := Ok(vs);
      PlainStrings(h, vs, ty, name, loc);
    } else {
      each := CoerceEach(h, vs, ty.inner, name, loc);
      EachConverts(h, vs, ty, name, loc);
    }
  }

  /** Where a bare text parameter comes from: the path before the query, the query before a default, and nothing else
      is looked at once it is found. */
  lemma FoundWhere(h: Host, name: string, s: ScalarSpec, w: World)
    requires s.ty.StrType? && s.check.None?
    ensures var (r, w1) := I.ResolveScalar(h, name, s, w);
      && (name in h.pathParams ==> r == Ok(Text(h.pathParams[name])))
      && (name !in h.pathParams && h.inQuery(s.lookup, w) ==> r == Ok(h.queryItem(s.lookup, w)))
      && (name in h.pathParams || h.inQuery(s.lookup, w) || s.default.Static? ==> w1 == w)
      && (name !in h.pathParams && !h.inQuery(s.lookup, w) && s.default.Static? ==> r == Ok(s.default.value))
      && (name !in h.pathParams && !h.inQuery(s.lookup, w) && s.default.NoDefault? && s.optional ==> r == Ok(NoneValue))
  {
  }

  /** What a client is told about a required parameter that is missing. */
  lemma MissingRefused(h: Host, name: string, s: ScalarSpec, m: MarkerSpec, w: World)
    requires s.default.NoDefault? && !s.optional && name !in h.pathParams && !h.inQuery(s.lookup, w)
    requires m.default.NoDefault? && !m.optional
    requires if m.source.PathSource? then m.lookup !in h.pathParams
             else if m.ty.SequenceType? then h.every(m.source, m.lookup, w) == []
             else h.first(m.source, m.lookup, w) == NoneValue
    ensures I.ResolveScalar(h, name, s, w)
      == (Err(Invalid(TupleLoc(QuerySource, s.lookup), FieldRequired, MissingCode)), w)
    ensures I.ResolveMarker(h, name, m, w)
      == (Err(Invalid(ListLoc(m.source, name), MissingParameter(name), ValueMissingCode)), w)
  {
  }

  /** And about one that is there but is no number. */
  lemma NumberRefused(h: Host, v: Value, name: string, loc: Source, e: Exc)
    requires e.ValueError? || e.TypeError?
    ensures h.toInt(v) == Err(e) ==>
      CoerceValue(h, v, IntType, name, loc)
        == Err(Invalid(ListLoc(loc, name), InvalidValue(name, IntConverter), TypeErrorCode))
    ensures h.toFloat(v) == Err(e) ==>
      CoerceValue(h, v, FloatType, name, loc)
        == Err(Invalid(ListLoc(loc, name), InvalidValue(name, FloatConverter), TypeErrorCode))
  {
  }
}
