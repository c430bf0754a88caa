/** The text of emitted names. Everything the compiler numbers is printed as a fixed stem and a decimal. */
module Names {
  import opened Numerals
  import opened ResolverCode

  /** A name in the generated source: a local of the function, a constant of its namespace, or one of the
      two library functions a sequence marker binds under its own number. */
  datatype Name =
    | LocalName(local: Local)
    | TempName(temp: Temp)
    | RefName(ref: Ref)
    | CollectName(n: nat)
    | ListCheckName(n: nat)
    | Helper(text: string)

  function Stem(x: Name): string {
    match x
    case LocalName(l) =>
      (match l
       case KLocal => "k"
       case KwLocal(_) => "_kw"
       case ResultLocal(_) => "_r"
       case GenLocal(_) => "_g")
    case TempName(t) =>
      (match t
       case VTemp => "_v"
       case RawTemp => "_raw"
       case ValsTemp => "_vals"
       case InjTemp => "_inj")
    case RefName(r) =>
      (match r
       case FnRef(_) => "_f"
       case MsgRef(_) => "_m"
       case ScopesRef(_) => "_sc"
       case TypeRef(_) => "_t"
       case InnerRef(_) => "_in"
       case SeqRef(_) => "_tt"
       case DefaultRef(_) => "_d"
       case FactoryRef(_) => "_df"
       case ValidateRef(_) => "_val"
       case FieldRef(_) => "_fv"
       case ChecksRef(_) => "_lc")
    case CollectName(_) => "_cs"
    case ListCheckName(_) => "_lv"
    case Helper(text) => text
  }

  /** The helpers seeded into the namespace, the function's own name and parameters, and its unnumbered locals. */
  const HELPERS := {"_cv", "_RVE", "_M", "_offload", "_BG", "_Resp", "_SS", "_resolver",
                    "request", "path_params", "teardowns", "_qp", "_e", "_x", "err"}

  predicate WellFormed(x: Name) {
    x.Helper? ==> x.text in HELPERS
  }

  predicate IsNumbered(x: Name) {
    match x
    case LocalName(l) => l.KwLocal? || l.ResultLocal? || l.GenLocal?
    case RefName(_) | CollectName(_) | ListCheckName(_) => true
    case _ => false
  }

  function Number(x: Name): nat
    requires IsNumbered(x)
  {
    match x
    case LocalName(l) => l.n
    case RefName(r) => r.n
    case CollectName(n) => n
    case ListCheckName(n) => n
  }

  function Print(x: Name): string {
    if IsNumbered(x) then Stem(x) + Decimal(Number(x)) else Stem(x)
  }

  // ---- No collisions --------------------------------------------------------

  predicate DigitFree(s: string) {
    forall i :: 0 <= i < |s| ==> !('0' <= s[i] <= '9')
  }

  lemma DecimalDigits(n: nat)
    ensures forall i :: 0 <= i < |Decimal(n)| ==> '0' <= Decimal(n)[i] <= '9'
  {
    forall i | 0 <= i < |Decimal(n)|
      ensures '0' <= Decimal(n)[i] <= '9'
    {
      assert IsDigit(Decimal(n)[i], 10);
    }
  }

  /** Where the shorter stem ends, its number begins inside the longer stem. */
  lemma Overlap(a: string, x: string, b: string, y: string)
    requires a + x == b + y && |a| < |b|
    ensures x != [] && x[0] == b[|a|]
  {
    assert (a + x)[|a|] == (b + y)[|a|];
    assert |a| + |x| == |b| + |y|;
  }

  /** A digit-free stem followed by digits splits in one way. */
  lemma SplitUnique(a: string, x: string, b: string, y: string)
    requires DigitFree(a) && DigitFree(b) && a + x == b + y
    requires forall i :: 0 <= i < |x| ==> '0' <= x[i] <= '9'
    requires forall i :: 0 <= i < |y| ==> '0' <= y[i] <= '9'
    ensures a == b && x == y
  {
    if |a| < |b| {
      Overlap(a, x, b, y);
    } else if |b| < |a| {
      Overlap(b, y, a, x);
    }
    assert a == (a + x)[..|a|] == b;
    assert x == (a + x)[|a|..] == y;
  }

  lemma StemsDigitFree(x: Name)
    requires WellFormed(x)
    ensures DigitFree(Stem(x))
  {
  }

  /** Names of one shape share a stem only when they are of the same kind. */
  lemma StemsDistinct(x: Name, y: Name)
    requires WellFormed(x) && WellFormed(y) && Stem(x) == Stem(y)
    ensures IsNumbered(x) == IsNumbered(y)
    ensures IsNumbered(x) && Number(x) == Number(y) ==> x == y
    ensures !IsNumbered(x) ==> x == y
  {
  }

  /** Emitted names never collide: two names print alike only when they are the same name. */
  lemma PrintInjective(x: Name, y: Name)
    requires WellFormed(x) && WellFormed(y) && Print(x) == Print(y)
    ensures x == y
  {
    StemsDigitFree(x);
    StemsDigitFree(y);
    var p := if IsNumbered(x) then Decimal(Number(x)) else "";
    var q := if IsNumbered(y) then Decimal(Number(y)) else "";
    if IsNumbered(x) { DecimalDigits(Number(x)); }
    if IsNumbered(y) { DecimalDigits(Number(y)); }
    assert Stem(x) + p == Print(x) && Stem(y) + q == Print(y);
    SplitUnique(Stem(x), p, Stem(y), q);
    StemsDistinct(x, y);
    if IsNumbered(x) {
      NumeralRoundTrip(Number(x), 10);
      NumeralRoundTrip(Number(y), 10);
    }
  }
}
