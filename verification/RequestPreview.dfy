/** Cutting percent-encoded or ordinary text with a one-character mark. */
module RequestPreview {
  import opened CodeUnits

  const PERCENT: CodeUnit := 0x25
  const MARK: Text := [0x2026]

  /** Where a text longer than `max` is cut: before an escape or a surrogate pair the limit falls into. */
  function CutAt(value: Text, max: nat): (cut: nat)
    requires 1 < max < |value|
    ensures cut <= max - 1
  {
    var at := max - 1;
    var before := if value[at - 1] == PERCENT then at - 1 else if at >= 2 && value[at - 2] == PERCENT then at - 2
        else at;
    if before > 0 && HighSurrogate(value[before - 1]) then before - 1 else before
  }

  function Shortened(value: Text, max: int): Text {
    if |value| <= max then value
    else if max <= 1 then value[..if max < 0 then 0 else max]
    else value[..CutAt(value, max)] + MARK
  }

  method TruncateRequestPreview(value: Text, max: int) returns (r: Text)
    ensures r == Shortened(value, max)
  {
    if |value| <= max { return value; }
    if max <= 1 { return value[..if max < 0 then 0 else max]; }
    var cut := max - 1;
    for back := 1 to 3
      invariant cut == max - 1 && (back == 2 ==> value[cut - 1] != PERCENT)
      invariant back == 3 ==> value[cut - 1] != PERCENT && (cut >= 2 ==> value[cut - 2] != PERCENT)
    {
      if cut - back >= 0 && value[cut - back] == PERCENT {
        cut := cut - back;
        break;
      }
    }
    if cut > 0 && HighSurrogate(value[cut - 1]) { cut := cut - 1; }
    r := value[..cut] + MARK;
  }

  /** The limit holds for every text and every limit; a negative one counts as nothing. */
  lemma ShortenedFits(value: Text, max: int)
    ensures |Shortened(value, max)| <= if max < 0 then 0 else max
  {
  }

  /** What is cut is cut at the end, by no more than the mark, an escape's start and half a character. */
  lemma ShortenedKeeps(value: Text, max: int)
    requires 1 < max < |value|
    ensures exists k | max - 4 <= k <= max - 1 && 0 <= k <= |value| :: Shortened(value, max) == value[..k] + MARK
  {
    var k := CutAt(value, max);
    assert Shortened(value, max) == value[..k] + MARK;
  }

  predicate Hex(u: CodeUnit) { 0x30 <= u <= 0x39 || 0x41 <= u <= 0x46 || 0x61 <= u <= 0x66 }

  predicate EscapeAt(t: Text, i: int) { 0 <= i && i + 2 < |t| && Hex(t[i + 1]) && Hex(t[i + 2]) }

  /** Every `%` starts a whole escape. */
  predicate PercentEncoded(t: Text) { forall i | 0 <= i < |t| && t[i] == PERCENT :: EscapeAt(t, i) }

  lemma CutKeepsEscapes(value: Text, max: int)
    requires PercentEncoded(value) && 1 < max < |value|
    ensures PercentEncoded(Shortened(value, max))
  {
    var at, k, r := max - 1, CutAt(value, max), Shortened(value, max);
    assert value[at - 1] == PERCENT ==> EscapeAt(value, at - 1);
    assert at >= 2 && value[at - 2] == PERCENT ==> EscapeAt(value, at - 2);
    forall i | 0 <= i < |r| && r[i] == PERCENT ensures EscapeAt(r, i) {
      assert i < k && r[i] == value[i] && EscapeAt(value, i);
      assert value[i + 1] != PERCENT && value[i + 2] != PERCENT;
      assert !HighSurrogate(value[i]) && !HighSurrogate(value[i + 1]) && !HighSurrogate(value[i + 2]);
      assert i + 2 < k;
      assert r[i + 1] == value[i + 1] && r[i + 2] == value[i + 2];
    }
  }

  /** No escape is left dangling, except by the limit of one character when the text starts with an escape. */
  lemma EscapesStayWhole(value: Text, max: int)
    requires PercentEncoded(value)
    ensures PercentEncoded(Shortened(value, max)) <==> |value| <= max || max != 1 || value[0] != PERCENT
  {
    if 1 < max < |value| {
      CutKeepsEscapes(value, max);
    } else if max == 1 && |value| > 1 {
      assert Shortened(value, 1) == [value[0]];
      if value[0] == PERCENT { assert !EscapeAt([value[0]], 0) && Shortened(value, 1)[0] == PERCENT; }
    }
  }

  lemma CutKeepsPairs(value: Text, max: int)
    requires WellFormed(value) && 1 < max < |value|
    ensures WellFormed(Shortened(value, max))
  {
    var k, r := CutAt(value, max), Shortened(value, max);
    assert k > 0 && HighSurrogate(value[k - 1]) ==> LowSurrogate(value[k]);
    assert r[k] == 0x2026;
    forall i | 0 <= i < |r| && HighSurrogate(r[i]) ensures i + 1 < |r| && LowSurrogate(r[i + 1]) {
      assert i < k && r[i] == value[i] && LowSurrogate(value[i + 1]);
    }
    forall i | 0 <= i < |r| && LowSurrogate(r[i]) ensures i > 0 && HighSurrogate(r[i - 1]) {
      assert i < k && r[i] == value[i];
    }
  }

  /** No surrogate pair is split, except by the limit of one character when the text starts with a pair. */
  lemma PairsStayWhole(value: Text, max: int)
    requires WellFormed(value)
    ensures WellFormed(Shortened(value, max)) <==> |value| <= max || max != 1 || !HighSurrogate(value[0])
  {
    if 1 < max < |value| {
      CutKeepsPairs(value, max);
    } else if max == 1 && |value| > 1 {
      var r := Shortened(value, 1);
      assert r == [value[0]] && !LowSurrogate(value[0]);
      if HighSurrogate(value[0]) { assert HighSurrogate(r[0]) && |r| == 1; }
    }
  }
}
