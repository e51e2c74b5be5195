/** Event and stream identifiers: `{streamID}_{seq}` and `{kind}{n}`, printed and parsed. */
module EventIds {
  import opened Wrappers
  import opened Digits

  const INT64_MAX: int := 0x7fff_ffff_ffff_ffff

  /** strconv.ParseInt in base 10 and 64 bits: a sign, digits, and the range check. */
  function ParseInt64(s: string): Option<int> {
    var signed := |s| > 0 && (s[0] == '+' || s[0] == '-');
    var digits := if signed then s[1..] else s;
    if digits == "" || !AllDigits(digits) then None
    else
      var magnitude: int := DigitsValue(digits);
      var n := if signed && s[0] == '-' then -magnitude else magnitude;
      if -INT64_MAX - 1 <= n <= INT64_MAX then Some(n) else None
  }

  /** strings.LastIndex for one character: the last place of `c`, or -1. */
  function LastIndex(s: string, c: char): (i: int)
    ensures -1 <= i < |s|
    ensures i >= 0 ==> s[i] == c
    ensures forall j | i < j < |s| :: s[j] != c
  {
    if s == "" then -1
    else if s[|s| - 1] == c then |s| - 1
    else LastIndex(s[..|s| - 1], c)
  }

  function FormatEventID(streamID: string, seqNo: nat): string {
    streamID + "_" + Decimal(seqNo)
  }

  function ParseEventID(id: string): Option<(string, int)> {
    var i := LastIndex(id, '_');
    if i <= 0 || i == |id| - 1 then None
    else
      match ParseInt64(id[i + 1..])
      case None => None
      case Some(n) => Some((id[..i], n))
  }

  lemma SeparatorIsLast(streamID: string, seqNo: nat)
    ensures LastIndex(FormatEventID(streamID, seqNo), '_') == |streamID|
  {
    var id := FormatEventID(streamID, seqNo);
    assert id[|streamID|] == '_';
    forall j | |streamID| < j < |id|
      ensures id[j] != '_'
    {
      assert id[j] == Decimal(seqNo)[j - |streamID| - 1];
    }
  }

  /** Parsing a printed ID gives its parts back, for every non-empty stream ID. */
  lemma ParseFormatted(streamID: string, seqNo: nat)
    requires streamID != ""
    ensures seqNo <= INT64_MAX ==> ParseEventID(FormatEventID(streamID, seqNo)) == Some((streamID, seqNo))
    ensures seqNo > INT64_MAX ==> ParseEventID(FormatEventID(streamID, seqNo)) == None
  {
    var id := FormatEventID(streamID, seqNo);
    SeparatorIsLast(streamID, seqNo);
    assert id[..|streamID|] == streamID;
    assert id[|streamID| + 1..] == Decimal(seqNo);
    DecimalValue(seqNo);
  }

  /** An empty stream ID is the one that cannot be read back. */
  lemma EmptyStreamIDUnreadable(seqNo: nat)
    ensures ParseEventID(FormatEventID("", seqNo)) == None
  {
    SeparatorIsLast("", seqNo);
  }

  lemma EventIDsInjective(a: string, m: nat, b: string, n: nat)
    requires FormatEventID(a, m) == FormatEventID(b, n)
    ensures a == b && m == n
  {
    SeparatorIsLast(a, m);
    SeparatorIsLast(b, n);
    var id := FormatEventID(a, m);
    assert a == id[..|a|] && b == id[..|b|];
    assert Decimal(m) == id[|a| + 1..] && Decimal(n) == id[|b| + 1..];
    DecimalValue(m);
    DecimalValue(n);
  }

  /** `listen` and `post`, and any other kind that a number can be told apart from. */
  predicate IsKind(kind: string) {
    kind != "" && !IsDigit(kind[|kind| - 1])
  }

  function FormatStreamID(kind: string, n: nat): string {
    kind + Decimal(n)
  }

  lemma KindIsNoLonger(a: string, m: nat, b: string, n: nat)
    requires IsKind(b) && FormatStreamID(a, m) == FormatStreamID(b, n)
    ensures |b| <= |a|
  {
    var id := FormatStreamID(a, m);
    assert id[|b| - 1] == b[|b| - 1];
    assert forall j | |a| <= j < |id| :: id[j] == Decimal(m)[j - |a|];
  }

  lemma StreamIDsInjective(a: string, m: nat, b: string, n: nat)
    requires IsKind(a) && IsKind(b) && FormatStreamID(a, m) == FormatStreamID(b, n)
    ensures a == b && m == n
  {
    KindIsNoLonger(a, m, b, n);
    KindIsNoLonger(b, n, a, m);
    var id := FormatStreamID(a, m);
    assert a == id[..|a|] && b == id[..|b|];
    assert Decimal(m) == id[|a|..] && Decimal(n) == id[|b|..];
    DecimalValue(m);
    DecimalValue(n);
  }

  /** Kinds that end in a digit can collide: the eleventh `a` and the first `a1`. */
  lemma DigitKindsCollide()
    ensures FormatStreamID("a", 11) == FormatStreamID("a1", 1)
  {
    assert Decimal(11) == Decimal(1) + "1";
  }
}
