/** What each emitted fragment does, against the interpreter branch it replaces. */
module Fragments {
  import opened Wrappers
  import opened Plans
  import opened Hosts
  import opened Interpreter
  import opened ResolverCode
  import opened Codegen

  // ---- Emitted fragments ----------------------------------------------------

  /** `a`'s entries are all in `b`. */
  ghost predicate Within(a: Namespace, b: Namespace) {
    forall r :: r in a ==> r in b && b[r] == a[r]
  }

  /** `m1` differs from `m` only in scratch names, kwargs dicts and the world. */
  ghost predicate OnlyScratch(m: Machine, m1: Machine) {
    m1.locals == m.locals && m1.teardowns == m.teardowns && m1.log == m.log
  }

  /** A fragment that binds `key` in `target` to exactly what `r` says, in the world `w`. */
  ghost predicate Binds(m: Machine, ran: (Outcome, Machine), target: Local, key: string, r: Result<Value, Exc>,
      w: World)
    requires target in m.dicts
  {
    && OnlyScratch(m, ran.1)
    && ran.1.world == w
    && match r
       case Ok(v) => ran.0 == None && ran.1.dicts == m.dicts[target := m.dicts[target][key := v]]
       case Err(e) => ran.0 == Some(e)
  }

  lemma AbsentBinds(h: Host, ns: Namespace, j: nat, key: string, d: Default, optional: bool, target: Local,
                    missing: Exc, m: Machine)
    requires target in m.dicts && Within(DefaultConsts(j, d), ns)
    ensures
      var (r, w) := if !d.NoDefault? then UseDefault(h, d, m.world)
                    else (if optional then Ok(NoneValue) else Err(missing), m.world);
      Binds(m, Exec(h, ns, EmitAbsent(j, key, d, optional, target, missing), m), target, key, r, w)
  {
  }

  lemma PutBinds(h: Host, ns: Namespace, target: Local, key: string, e: Expr, m: Machine, r: Result<Value, Exc>)
    requires target in m.dicts && Eval(h, ns, e, m) == (r, m)
    ensures Binds(m, Exec(h, ns, Put(target, key, e), m), target, key, r, m.world)
  {
  }

  /** `try: target[key] = int(...) except (ValueError, TypeError): raise ...` */
  lemma ConvertBinds(h: Host, ns: Namespace, target: Local, key: string, e: Expr, name: string, loc: Source,
                     to: Converter, m: Machine, r: Result<Value, Exc>)
    requires target in m.dicts && Eval(h, ns, e, m) == (r, m)
    ensures Binds(m, Exec(h, ns, Try(Put(target, key, e), OnConversion(TypeErrorAt(loc, name, to))), m), target, key,
                  AsTypeError(r, loc, name, to), m.world)
  {
    PutBinds(h, ns, target, key, e, m, r);
  }

  /** A string, or anything at all, is bound as it is. */
  lemma CoerceTextBinds(h: Host, ns: Namespace, j: nat, ty: Type, target: Local, key: string, e: Expr,
                        name: string, loc: Source, m: Machine, v: Value)
    requires target in m.dicts && (ty == StrType || ty == AnyType) && Eval(h, ns, e, m) == (Ok(v), m)
    ensures Binds(m, Exec(h, ns, EmitCoerced(j, ty, target, key, e, name, loc), m), target, key,
                  CoerceValue(h, v, ty, name, loc), m.world)
  {
    PutBinds(h, ns, target, key, e, m, Ok(v));
  }

  lemma CoerceIntBinds(h: Host, ns: Namespace, j: nat, target: Local, key: string, e: Expr,
                       name: string, loc: Source, m: Machine, v: Value)
    requires target in m.dicts && Eval(h, ns, e, m) == (Ok(v), m)
    ensures Binds(m, Exec(h, ns, EmitCoerced(j, IntType, target, key, e, name, loc), m), target, key,
                  CoerceValue(h, v, IntType, name, loc), m.world)
  {
    ConvertBinds(h, ns, target, key, IntE(e), name, loc, IntConverter, m, h.toInt(v));
  }

  lemma CoerceFloatBinds(h: Host, ns: Namespace, j: nat, target: Local, key: string, e: Expr,
                         name: string, loc: Source, m: Machine, v: Value)
    requires target in m.dicts && Eval(h, ns, e, m) == (Ok(v), m)
    ensures Binds(m, Exec(h, ns, EmitCoerced(j, FloatType, target, key, e, name, loc), m), target, key,
                  CoerceValue(h, v, FloatType, name, loc), m.world)
  {
    ConvertBinds(h, ns, target, key, FloatE(e), name, loc, FloatConverter, m, h.toFloat(v));
  }

  lemma CoercedBinds(h: Host, ns: Namespace, j: nat, ty: Type, target: Local, key: string, e: Expr,
                     name: string, loc: Source, m: Machine, v: Value)
    requires target in m.dicts && TypeRef(j) in ns && ns[TypeRef(j)] == TypeConst(ty)
    requires Eval(h, ns, e, m) == (Ok(v), m)
    ensures Binds(m, Exec(h, ns, EmitCoerced(j, ty, target, key, e, name, loc), m), target, key,
                  CoerceValue(h, v, ty, name, loc), m.world)
  {
    match ty
    case StrType => CoerceTextBinds(h, ns, j, ty, target, key, e, name, loc, m, v);
    case AnyType => CoerceTextBinds(h, ns, j, ty, target, key, e, name, loc, m, v);
    case IntType => CoerceIntBinds(h, ns, j, target, key, e, name, loc, m, v);
    case FloatType => CoerceFloatBinds(h, ns, j, target, key, e, name, loc, m, v);
    case _ => CoerceCallBinds(h, ns, j, ty, target, key, e, name, loc, m, v);
  }

  /** A conversion that is not inlined is a call of the conversion function. */
  lemma CoerceCallBinds(h: Host, ns: Namespace, j: nat, ty: Type, target: Local, key: string, e: Expr,
                        name: string, loc: Source, m: Machine, v: Value)
    requires target in m.dicts && TypeRef(j) in ns && ns[TypeRef(j)] == TypeConst(ty)
    requires Eval(h, ns, e, m) == (Ok(v), m)
    ensures Binds(m, Exec(h, ns, Put(target, key, CoerceE(e, TypeRef(j), name, loc)), m), target, key,
                  CoerceValue(h, v, ty, name, loc), m.world)
  {
    PutBinds(h, ns, target, key, CoerceE(e, TypeRef(j), name, loc), m, CoerceValue(h, v, ty, name, loc));
  }

  /** Coerce, then bound-check: the two-statement fragment against `Validated(CoerceValue(...))`. */
  lemma CoercedThenValidated(h: Host, ns: Namespace, j: nat, ty: Type, check: Option<nat>, target: Local, key: string,
                             e: Expr, name: string, loc: Source, m: Machine, v: Value)
    requires target in m.dicts && TypeRef(j) in ns && ns[TypeRef(j)] == TypeConst(ty)
    requires check.Some? ==> FieldRef(j) in ns && ns[FieldRef(j)] == IdConst(check.value)
    requires Eval(h, ns, e, m) == (Ok(v), m)
    ensures
      var code := Then(EmitCoerced(j, ty, target, key, e, name, loc),
          EmitFieldValidate(j, check, target, key, name, loc));
      Binds(m, Exec(h, ns, code, m), target, key, Validated(h, check, CoerceValue(h, v, ty, name, loc), name, loc),
          m.world)
  {
    CoercedBinds(h, ns, j, ty, target, key, e, name, loc, m, v);
    var (o, m1) := Exec(h, ns, EmitCoerced(j, ty, target, key, e, name, loc), m);
    if o.None? && check.Some? {
      RevalidateBinds(h, ns, j, check.value, target, key, name, loc, m, m1, CoerceValue(h, v, ty, name, loc).value);
    }
  }

  /** `target[key] = _fv(target[key], ...)`, a bound failure reported under the client's name. */
  lemma RevalidateBinds(h: Host, ns: Namespace, j: nat, id: nat, target: Local, key: string, name: string, loc: Source,
                        m: Machine, m1: Machine, got: Value)
    requires target in m.dicts && OnlyScratch(m, m1) && m1.world == m.world
    requires m1.dicts == m.dicts[target := m.dicts[target][key := got]]
    requires FieldRef(j) in ns && ns[FieldRef(j)] == IdConst(id)
    ensures Binds(m, Exec(h, ns, EmitFieldValidate(j, Some(id), target, key, name, loc), m1), target, key,
                  Validated(h, Some(id), Ok(got), name, loc), m.world)
  {
    var e := ValidateE(FieldRef(j), ItemE(target, key), name);
    assert Eval(h, ns, ItemE(target, key), m1) == (Ok(got), m1);
    var r := h.validate(id, got, name);
    PutBinds(h, ns, target, key, e, m1, r);
    if r.Ok? {
      assert m1.dicts[target][key := r.value] == m.dicts[target][key := r.value];
      assert m1.dicts[target := m1.dicts[target][key := r.value]] == m.dicts[target := m.dicts[target][key := r.value]];
    }
  }

  /** A scratch name set first does not matter. */
  lemma BindsAfterSet(m: Machine, x: Temp, v: Value, ran: (Outcome, Machine), target: Local, key: string,
                      r: Result<Value, Exc>, w: World)
    requires target in m.dicts
    requires Binds(m.(temps := m.temps[x := v]), ran, target, key, r, w)
    ensures Binds(m, ran, target, key, r, w)
  {
  }

  lemma ScalarConstants(j: nat, s: ScalarSpec, ns: Namespace)
    requires Within(ScalarConsts(j, s), ns)
    ensures TypeRef(j) in ns && ns[TypeRef(j)] == TypeConst(Effective(s.ty))
    ensures s.check.Some? ==> FieldRef(j) in ns && ns[FieldRef(j)] == IdConst(s.check.value)
    ensures Within(DefaultConsts(j, s.default), ns)
  {
    assert ScalarConsts(j, s)[TypeRef(j)] == TypeConst(Effective(s.ty));
    assert s.check.Some? ==> ScalarConsts(j, s)[FieldRef(j)] == IdConst(s.check.value);
    assert Within(DefaultConsts(j, s.default), ScalarConsts(j, s));
  }

  lemma ScalarSourceBinds(h: Host, ns: Namespace, j: nat, name: string, s: ScalarSpec, target: Local, m: Machine)
    requires target in m.dicts && Within(ScalarConsts(j, s), ns)
    requires VTemp in m.temps
    requires m.temps[VTemp] == if name in h.pathParams then Text(h.pathParams[name]) else Missing
    ensures
      var (r, w) := ResolveScalar(h, name, s, m.world);
      Binds(m, Exec(h, ns, EmitScalar(j, name, s, target).second, m), target, name, r, w)
  {
    var ty := Effective(s.ty);
    ScalarConstants(j, s, ns);
    if name in h.pathParams {
      CoercedThenValidated(h, ns, j, ty, s.check, target, name, TempE(VTemp), name, PathSource, m, m.temps[VTemp]);
    } else if h.inQuery(s.lookup, m.world) {
      CoercedThenValidated(h, ns, j, ty, s.check, target, name, QueryItemE(s.lookup), s.lookup, QuerySource, m,
                           h.queryItem(s.lookup, m.world));
    } else {
      AbsentBinds(h, ns, j, name, s.default, s.optional, target, FieldRequiredAt(s.lookup), m);
    }
  }

  /** `_emit_scalar_param` against `_resolve_scalar_param`. */
  lemma ScalarBinds(h: Host, ns: Namespace, j: nat, name: string, s: ScalarSpec, target: Local, m: Machine)
    requires target in m.dicts && Within(ScalarConsts(j, s), ns)
    ensures
      var (r, w) := ResolveScalar(h, name, s, m.world);
      Binds(m, Exec(h, ns, EmitScalar(j, name, s, target), m), target, name, r, w)
  {
    var v := if name in h.pathParams then Text(h.pathParams[name]) else Missing;
    var m1 := m.(temps := m.temps[VTemp := v]);
    ScalarSourceBinds(h, ns, j, name, s, target, m1);
    var (r, w) := ResolveScalar(h, name, s, m.world);
    BindsAfterSet(m, VTemp, v, Exec(h, ns, EmitScalar(j, name, s, target).second, m1), target, name, r, w);
  }

  /** The collecting expression evaluates to what `_collect_sequence_marker` returns. */
  lemma CollectExprCorrect(h: Host, ns: Namespace, j: nat, name: string, ty: Type, loc: Source, m: Machine,
      values: seq<Value>)
    requires ty.SequenceType?
    requires InnerRef(j) in ns && ns[InnerRef(j)] == TypeConst(ty.inner)
    requires SeqRef(j) in ns && ns[SeqRef(j)] == TypeConst(ty)
    requires ValsTemp in m.temps && m.temps[ValsTemp] == ListValue(values)
    ensures Eval(h, ns, CollectExpr(j, name, ty, loc), m) == (CollectSequence(h, values, ty, name, loc), m)
  {
  }

  /** Bind, then enforce the list bounds on what was bound. */
  lemma PutThenCheck(h: Host, ns: Namespace, target: Local, key: string, e: Expr, r: Ref, checks: Option<nat>,
                     loc: Source, m: Machine, collected: Result<Value, Exc>)
    requires target in m.dicts && Eval(h, ns, e, m) == (collected, m)
    requires checks.Some? ==> r in ns && ns[r] == IdConst(checks.value)
    ensures
      var check := if checks.Some? then CheckList(r, target, key, key, loc) else Skip;
      var checked := if collected.Ok? && checks.Some? then h.listCheck(checks.value, collected.value, key, loc)
          else None;
      Binds(m, Exec(h, ns, Then(Put(target, key, e), check), m), target, key,
            if checked.Some? then Err(checked.value) else collected, m.world)
  {
    var put := Put(target, key, e);
    PutBinds(h, ns, target, key, e, m, collected);
    var (o, m1) := Exec(h, ns, put, m);
    if o.None? && checks.Some? {
      CheckBound(h, ns, target, key, r, checks.value, loc, m1, collected.value);
    }
  }

  lemma CheckBound(h: Host, ns: Namespace, target: Local, key: string, r: Ref, id: nat, loc: Source, m: Machine,
      v: Value)
    requires r in ns && ns[r] == IdConst(id) && target in m.dicts && key in m.dicts[target] && m.dicts[target][key] == v
    ensures Exec(h, ns, CheckList(r, target, key, key, loc), m) == (h.listCheck(id, v, key, loc), m)
  {
  }

  lemma ListPresentBinds(h: Host, ns: Namespace, j: nat, name: string, m: MarkerSpec, target: Local, mc: Machine,
                         values: seq<Value>)
    requires target in mc.dicts && Within(MarkerConsts(j, m), ns) && ReadsList(m)
    requires ValsTemp in mc.temps && mc.temps[ValsTemp] == ListValue(values)
    requires values != [] && values == h.every(m.source, m.lookup, mc.world)
    ensures
      var (r, w) := ResolveMarker(h, name, m, mc.world);
      Binds(mc, Exec(h, ns, EmitListMarker(j, name, m, target).second.els, mc), target, name, r, w)
  {
    var loc := m.source;
    assert MarkerConsts(j, m)[InnerRef(j)] == TypeConst(m.ty.inner) && MarkerConsts(j, m)[SeqRef(j)] == TypeConst(m.ty);
    assert m.checks.Some? ==> MarkerConsts(j, m)[ChecksRef(j)] == IdConst(m.checks.value);
    CollectExprCorrect(h, ns, j, name, m.ty, loc, mc, values);
    PutThenCheck(h, ns, target, name, CollectExpr(j, name, m.ty, loc), ChecksRef(j), m.checks, loc, mc,
                 CollectSequence(h, values, m.ty, name, loc));
  }

  lemma MarkerDefault(j: nat, m: MarkerSpec, ns: Namespace)
    requires Within(MarkerConsts(j, m), ns)
    ensures Within(DefaultConsts(j, m.default), ns)
  {
    forall r | r in DefaultConsts(j, m.default)
      ensures r in MarkerConsts(j, m) && MarkerConsts(j, m)[r] == DefaultConsts(j, m.default)[r]
    {
      assert r == DefaultRef(j) || r == FactoryRef(j);
    }
  }

  lemma ListAbsentBinds(h: Host, ns: Namespace, j: nat, name: string, m: MarkerSpec, target: Local, mc: Machine)
    requires target in mc.dicts && Within(MarkerConsts(j, m), ns) && ReadsList(m)
    requires h.every(m.source, m.lookup, mc.world) == []
    ensures
      var (r, w) := ResolveMarker(h, name, m, mc.world);
      Binds(mc, Exec(h, ns, EmitListMarker(j, name, m, target).second.thn, mc), target, name, r, w)
  {
    MarkerDefault(j, m, ns);
    assert ResolveMarker(h, name, m, mc.world) == AbsentMarker(h, name, m, mc.world);
    assert EmitListMarker(j, name, m, target).second.thn
      == EmitAbsent(j, name, m.default, m.optional, target, MissingMarkerAt(m.source, name));
    AbsentBinds(h, ns, j, name, m.default, m.optional, target, MissingMarkerAt(m.source, name), mc);
  }

  lemma ListMarkerBinds(h: Host, ns: Namespace, j: nat, name: string, m: MarkerSpec, target: Local, mc: Machine)
    requires target in mc.dicts && Within(MarkerConsts(j, m), ns) && ReadsList(m)
    requires ValsTemp in mc.temps && mc.temps[ValsTemp] == ListValue(h.every(m.source, m.lookup, mc.world))
    ensures
      var (r, w) := ResolveMarker(h, name, m, mc.world);
      Binds(mc, Exec(h, ns, EmitListMarker(j, name, m, target).second, mc), target, name, r, w)
  {
    var values := h.every(m.source, m.lookup, mc.world);
    var code := EmitListMarker(j, name, m, target).second;
    if values == [] {
      ListAbsentBinds(h, ns, j, name, m, target, mc);
      assert Exec(h, ns, code, mc) == Exec(h, ns, code.thn, mc);
    } else {
      ListPresentBinds(h, ns, j, name, m, target, mc, values);
      assert Exec(h, ns, code, mc) == Exec(h, ns, code.els, mc);
    }
  }

  lemma CoerceRawCorrect(h: Host, ns: Namespace, j: nat, name: string, ty: Type, loc: Source, m: Machine)
    requires TypeRef(j) in ns && ns[TypeRef(j)] == TypeConst(ty) && RawTemp in m.temps
    ensures Exec(h, ns, EmitCoerceRaw(j, name, ty, loc), m) ==
            match CoerceScalar(h, m.temps[RawTemp], ty, name, loc)
            case Ok(v) => (None, m.(temps := m.temps[RawTemp := v]))
            case Err(e) => (Some(e), m)
  {
    assert m.temps[RawTemp := m.temps[RawTemp]] == m.temps;
    var e := CoerceE(TempE(RawTemp), TypeRef(j), name, loc);
    assert Eval(h, ns, TempE(RawTemp), m) == (Ok(m.temps[RawTemp]), m);
    assert Eval(h, ns, e, m) == (CoerceValue(h, m.temps[RawTemp], ty, name, loc), m);
  }

  lemma ValidateRawBinds(h: Host, ns: Namespace, j: nat, name: string, id: nat, loc: Source, target: Local, m: Machine)
    requires target in m.dicts && ValidateRef(j) in ns && ns[ValidateRef(j)] == IdConst(id) && RawTemp in m.temps
    ensures
      var code := Try(Put(target, name, ValidateE(ValidateRef(j), TempE(RawTemp), name)), OnValueError(loc, name));
      Binds(m, Exec(h, ns, code, m), target, name, Validated(h, Some(id), Ok(m.temps[RawTemp]), name, loc), m.world)
  {
    var e := ValidateE(ValidateRef(j), TempE(RawTemp), name);
    assert Eval(h, ns, TempE(RawTemp), m) == (Ok(m.temps[RawTemp]), m);
    PutBinds(h, ns, target, name, e, m, h.validate(id, m.temps[RawTemp], name));
  }

  lemma ScalarMarkerBinds(h: Host, ns: Namespace, j: nat, name: string, m: MarkerSpec, target: Local, mc: Machine)
    requires target in mc.dicts && Within(MarkerConsts(j, m), ns) && !ReadsList(m)
    requires RawTemp in mc.temps && mc.temps[RawTemp] == RawValue(h, m, mc.world)
    ensures
      var (r, w) := ResolveMarker(h, name, m, mc.world);
      Binds(mc, Exec(h, ns, EmitScalarMarker(j, name, m, target).second, mc), target, name, r, w)
  {
    var loc := m.source;
    var raw := RawValue(h, m, mc.world);
    var code := EmitScalarMarker(j, name, m, target).second;
    if raw == NoneValue {
      MarkerDefault(j, m, ns);
      AbsentBinds(h, ns, j, name, m.default, m.optional, target, MissingMarkerAt(loc, name), mc);
    } else {
      assert MarkerConsts(j, m)[TypeRef(j)] == TypeConst(m.ty);
      assert MarkerConsts(j, m)[ValidateRef(j)] == IdConst(m.validator);
      CoerceRawCorrect(h, ns, j, name, m.ty, loc, mc);
      var coerced := CoerceScalar(h, raw, m.ty, name, loc);
      assert Exec(h, ns, code, mc) == Exec(h, ns, code.els, mc);
      if coerced.Ok? {
        var m1 := mc.(temps := mc.temps[RawTemp := coerced.value]);
        ValidateRawBinds(h, ns, j, name, m.validator, loc, target, m1);
        assert Exec(h, ns, code.els, mc) == Exec(h, ns, code.els.second, m1);
        BindsAfterSet(mc, RawTemp, coerced.value, Exec(h, ns, code, mc), target, name,
                      ResolveMarker(h, name, m, mc.world).0, mc.world);
      }
    }
  }

  /** `_emit_marker` against `_resolve_marker`, list-typed and scalar. */
  lemma MarkerBinds(h: Host, ns: Namespace, j: nat, name: string, m: MarkerSpec, target: Local, mc: Machine)
    requires target in mc.dicts && Within(MarkerConsts(j, m), ns)
    ensures
      var (r, w) := ResolveMarker(h, name, m, mc.world);
      Binds(mc, Exec(h, ns, EmitMarker(j, name, m, target), mc), target, name, r, w)
  {
    var (r, w) := ResolveMarker(h, name, m, mc.world);
    var code := EmitMarker(j, name, m, target);
    if ReadsList(m) {
      var v := ListValue(h.every(m.source, m.lookup, mc.world));
      var m1 := mc.(temps := mc.temps[ValsTemp := v]);
      ListMarkerBinds(h, ns, j, name, m, target, m1);
      assert Exec(h, ns, code.first, mc) == (None, m1);
      BindsAfterSet(mc, ValsTemp, v, Exec(h, ns, EmitMarker(j, name, m, target).second, m1), target, name, r, w);
    } else {
      var v := RawValue(h, m, mc.world);
      var m1 := mc.(temps := mc.temps[RawTemp := v]);
      ScalarMarkerBinds(h, ns, j, name, m, target, m1);
      assert Exec(h, ns, code.first, mc) == (None, m1);
      BindsAfterSet(mc, RawTemp, v, Exec(h, ns, EmitMarker(j, name, m, target).second, m1), target, name, r, w);
    }
  }

  // ---- Framework injections -------------------------------------------------

  lemma Run1(h: Host, ns: Namespace, s: Stmt, m: Machine)
    ensures Run(h, ns, [s], m) == Exec(h, ns, s, m)
  {
    var (o, m1) := Exec(h, ns, s, m);
    assert Run(h, ns, [s][1..], m1) == (None, m1);
  }

  lemma Run2(h: Host, ns: Namespace, a: Stmt, b: Stmt, m: Machine)
    ensures Run(h, ns, [a, b], m) ==
            var (o, m1) := Exec(h, ns, a, m); if o.Some? then (o, m1) else Exec(h, ns, b, m1)
  {
    var (o, m1) := Exec(h, ns, a, m);
    assert [a, b][1..] == [b];
    Run1(h, ns, b, m1);
  }

  lemma Run3(h: Host, ns: Namespace, a: Stmt, b: Stmt, c: Stmt, m: Machine)
    ensures Run(h, ns, [a, b, c], m) ==
            var (o, m1) := Exec(h, ns, a, m); if o.Some? then (o, m1) else Run(h, ns, [b, c], m1)
  {
    assert [a, b, c][1..] == [b, c];
  }

  lemma PutAfter(h: Host, ns: Namespace, target: Local, key: string, e: Expr, m: Machine, m1: Machine, v: Value)
    requires target in m.dicts && OnlyScratch(m, m1) && m1.dicts == m.dicts && Eval(h, ns, e, m1) == (Ok(v), m1)
    ensures Binds(m, Exec(h, ns, Put(target, key, e), m1), target, key, Ok(v), m1.world)
  {
    PutBinds(h, ns, target, key, e, m1, Ok(v));
  }

  lemma BackgroundBinds(h: Host, ns: Namespace, name: string, target: Local, m: Machine)
    requires target in m.dicts
    ensures
      var (v, w) := BindBackground(h, m.world);
      Binds(m, Run(h, ns, EmitBackground(name, target), m), target, name, Ok(v), w)
  {
    var code := EmitBackground(name, target);
    var (v, w) := BindBackground(h, m.world);
    var m1 := m.(world := w);
    Run2(h, ns, code[0], code[1], m);
    assert Exec(h, ns, code[0], m) == (None, m1) by {
      if h.background(m.world) == NoneValue {
        assert Exec(h, ns, code[0], m) == Exec(h, ns, SetBackground(NewBackgroundE), m);
      } else {
        assert Exec(h, ns, code[0], m) == Exec(h, ns, Skip, m);
      }
    }
    PutAfter(h, ns, target, name, BackgroundE, m, m1, v);
  }

  lemma CreateResponse(h: Host, ns: Namespace, m: Machine)
    ensures
      var (r, w1) := h.newResponse(m.world);
      Exec(h, ns, CREATE_RESPONSE, m) ==
      (None, m.(temps := m.temps[InjTemp := r], world := h.setInjected(r, h.setStatus(r, 0, w1))))
  {
    var (r, w1) := h.newResponse(m.world);
    var a := m.(temps := m.temps[InjTemp := r], world := w1);
    assert Exec(h, ns, CREATE_RESPONSE.first, m) == (None, a);
    var b := a.(world := h.setStatus(r, 0, w1));
    assert Exec(h, ns, CREATE_RESPONSE.second.first, a) == (None, b);
    assert Exec(h, ns, CREATE_RESPONSE.second.second, b) == (None, b.(world := h.setInjected(r, b.world)));
    assert Exec(h, ns, CREATE_RESPONSE.second, a) == (None, b.(world := h.setInjected(r, b.world)));
  }

  lemma ResponseBinds(h: Host, ns: Namespace, name: string, target: Local, m: Machine)
    requires target in m.dicts
    ensures
      var (v, w) := BindResponse(h, m.world);
      Binds(m, Run(h, ns, EmitResponse(name, target), m), target, name, Ok(v), w)
  {
    var code := EmitResponse(name, target);
    Run3(h, ns, code[0], code[1], code[2], m);
    var m1 := m.(temps := m.temps[InjTemp := h.injected(m.world)]);
    assert Exec(h, ns, code[0], m) == (None, m1);
    Run2(h, ns, code[1], code[2], m1);
    var (v, w) := BindResponse(h, m.world);
    var m2 := m.(temps := m.temps[InjTemp := v], world := w);
    assert Exec(h, ns, code[1], m1) == (None, m2) by {
      if h.injected(m.world) == NoneValue {
        CreateResponse(h, ns, m1);
        assert m1.temps[InjTemp := v] == m2.temps;
        assert Exec(h, ns, code[1], m1) == Exec(h, ns, CREATE_RESPONSE, m1);
      } else {
        assert Exec(h, ns, code[1], m1) == Exec(h, ns, Skip, m1);
      }
    }
    PutAfter(h, ns, target, name, TempE(InjTemp), m, m2, v);
  }
}
