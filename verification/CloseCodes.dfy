/** What an outbound Close frame may carry (`_sanitise_close`); sections 5.5.1 and 7.4.1 of RFC 6455. */
module CloseCodes {
  import opened Bytes
  import opened Utf8
  import opened Wrappers

  /** `_PEER_CLOSE_CODES_OK` */
  const ASSIGNED: set<int> := {1000, 1001, 1002, 1003, 1007, 1008, 1009, 1010, 1011, 1012, 1013, 1014}

  /** Registered below 3000, or private. */
  predicate LegalCode(code: int) {
    code in ASSIGNED || 3000 <= code <= 4999
  }

  /** The source's way of writing the test. */
  lemma LegalCodeTest(code: int)
    ensures code > 4999 || (code < 3000 && code !in ASSIGNED) <==> !LegalCode(code)
  {
  }

  const REASON_BUDGET: nat := 123

  /** The longest prefix of `reason`, in whole characters, that fits the control-frame budget. */
  ghost predicate LongestFitting(reason: seq<nat>, kept: seq<nat>)
    requires AllScalars(reason)
  {
    && kept <= reason
    && AllScalars(kept)
    && |Encode(kept)| <= REASON_BUDGET
    && forall k :: 0 <= k <= |reason| && |Encode(reason[..k])| <= REASON_BUDGET ==> k <= |kept|
  }

  lemma Regroup(a: bytes, b: bytes, c: bytes)
    ensures a + (b + c) == a + b + c
  {
  }

  lemma {:induction false} EncodeSplit(text: seq<nat>, k: nat)
    requires AllScalars(text) && k <= |text|
    ensures Encode(text) == Encode(text[..k]) + Encode(text[k..])
    ensures |Encode(text[..k])| >= k
  {
    if k == 0 {
      assert text[0..] == text;
    } else {
      var first, rest := EncodeScalar(text[0]), text[1..];
      EncodeSplit(rest, k - 1);
      Regroup(first, Encode(rest[..k - 1]), Encode(rest[k - 1..]));
      assert text[..k][1..] == rest[..k - 1] && text[k..] == rest[k - 1..];
      assert Encode(text[..k]) == first + Encode(rest[..k - 1]);
    }
  }

  lemma EncodeLonger(text: seq<nat>, j: nat, k: nat)
    requires AllScalars(text) && j < k <= |text|
    ensures |Encode(text[..j])| < |Encode(text[..k])|
  {
    EncodeSplit(text[..k], j);
    assert text[..k][..j] == text[..j];
    var rest := text[..k][j..];
    EncodeSplit(rest, k - j);
    assert rest[..k - j] == rest;
  }

  /** A cut of an encoding that decodes was made between characters. */
  lemma {:induction false} CutDecodes(reason: seq<nat>, n: nat)
    requires AllScalars(reason) && n <= |Encode(reason)| && Decode(Encode(reason)[..n]).Some?
    ensures Decode(Encode(reason)[..n]).value <= reason
  {
    var whole := Encode(reason);
    var cut := whole[..n];
    if n > 0 {
      EncodeFirst(reason);
      var m := Length(whole[0]);
      assert cut[..m] == whole[..m];
      assert cut[m..] == Encode(reason[1..])[..n - m];
      ScalarIsChar(reason[0]);
      CutDecodes(reason[1..], n - m);
    }
  }

  /** Cutting after `k` characters leaves something that decodes. */
  lemma WholeCharacters(reason: seq<nat>, k: nat)
    requires AllScalars(reason) && k <= |reason|
    ensures |Encode(reason[..k])| <= |Encode(reason)|
    ensures Decode(Encode(reason)[..|Encode(reason[..k])|]).Some?
  {
    EncodeSplit(reason, k);
    EncodeRoundTrip(reason[..k]);
    assert Encode(reason)[..|Encode(reason[..k])|] == Encode(reason[..k]);
  }

  lemma CutLongest(reason: seq<nat>, n: nat, kept: seq<nat>)
    requires AllScalars(reason) && n <= REASON_BUDGET < |Encode(reason)|
    requires Decode(Encode(reason)[..n]) == Some(kept)
    requires forall m :: n < m <= REASON_BUDGET ==> Decode(Encode(reason)[..m]).None?
    ensures LongestFitting(reason, kept)
  {
    CutDecodes(reason, n);
    DecodeExact(Encode(reason)[..n]);
    assert kept == reason[..|kept|];
    forall k | 0 <= k <= |reason| && |Encode(reason[..k])| <= REASON_BUDGET
      ensures k <= |kept|
    {
      WholeCharacters(reason, k);
      var m := |Encode(reason[..k])|;
      assert m <= n;
      if |kept| < k {
        EncodeLonger(reason, |kept|, k);
      }
    }
  }

  /** The first `n` characters, or fewer so that they fit. */
  function Fitting(reason: seq<nat>, n: nat): (kept: seq<nat>)
    requires AllScalars(reason) && n <= |reason|
    ensures kept <= reason && AllScalars(kept)
  {
    if n == 0 || |Encode(reason[..n])| <= REASON_BUDGET then reason[..n] else Fitting(reason, n - 1)
  }

  function Truncated(reason: seq<nat>): seq<nat>
    requires AllScalars(reason)
  {
    Fitting(reason, |reason|)
  }

  lemma {:induction false} FittingLongest(reason: seq<nat>, n: nat)
    requires AllScalars(reason) && n <= |reason|
    requires forall k :: n < k <= |reason| ==> |Encode(reason[..k])| > REASON_BUDGET
    ensures LongestFitting(reason, Fitting(reason, n))
  {
    if n > 0 && |Encode(reason[..n])| > REASON_BUDGET {
      FittingLongest(reason, n - 1);
    }
  }

  lemma TruncatedLongest(reason: seq<nat>)
    requires AllScalars(reason)
    ensures LongestFitting(reason, Truncated(reason))
  {
    FittingLongest(reason, |reason|);
  }

  lemma LongestUnique(reason: seq<nat>, a: seq<nat>, b: seq<nat>)
    requires AllScalars(reason) && LongestFitting(reason, a) && LongestFitting(reason, b)
    ensures a == b
  {
    assert a == reason[..|a|] && b == reason[..|b|];
  }

  function SafeCode(code: int): (c: nat)
    ensures LegalCode(c)
  {
    if LegalCode(code) then code else 1000
  }

  /** `_sanitise_close`; `None` is the `UnicodeEncodeError` of a lone surrogate. */
  method SanitiseClose(code: int, reason: seq<nat>) returns (r: Option<(nat, seq<nat>)>)
    ensures r.Some? <==> AllScalars(reason)
    ensures r.Some? ==> r.value.0 == SafeCode(code) && LongestFitting(reason, r.value.1)
    ensures r.Some? ==> r.value.1 == Truncated(reason)
  {
    LegalCodeTest(code);
    var c: nat := if code > 4999 || (code < 3000 && code !in ASSIGNED) then 1000 else code;
    if reason == [] { return Some((c, [])); }
    if !AllScalars(reason) { return None; }
    TruncatedLongest(reason);
    var whole := Encode(reason);
    if |whole| <= REASON_BUDGET {
      assert reason[..|reason|] == reason;
      return Some((c, reason));
    }
    var n := REASON_BUDGET;
    while n > 0
      invariant 0 <= n <= REASON_BUDGET
      invariant forall m :: n < m <= REASON_BUDGET ==> Decode(whole[..m]).None?
    {
      var decoded := Decode(whole[..n]);
      if decoded.Some? {
        CutLongest(reason, n, decoded.value);
        LongestUnique(reason, decoded.value, Truncated(reason));
        return Some((c, decoded.value));
      }
      n := n - 1;
    }
    assert whole[..0] == [];
    CutLongest(reason, 0, []);
    LongestUnique(reason, [], Truncated(reason));
    return Some((c, []));
  }
}
