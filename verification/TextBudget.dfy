/** Cutting text to a budget. */
module TextBudget {
  import opened CodeUnits

  const TRUNCATION_MARK: Text := [0x20, 0x5b, 0x2026, 0x5d]

  /** At most `max` code units of `text`, marked when cut. */
  function Truncate(text: Text, max: nat): Text {
    if |text| <= max then text else
      var end := if max < 4 then 0 else max - 4;
      var cut := if end > 0 && HighSurrogate(text[end - 1]) then end - 1 else end;
      text[..cut] + TRUNCATION_MARK
  }

  method TruncateText(text: Text, max: nat) returns (r: Text)
    ensures r == Truncate(text, max)
  {
    if |text| <= max { return text; }
    var end := if max < |TRUNCATION_MARK| then 0 else max - |TRUNCATION_MARK|;
    if end > 0 && HighSurrogate(text[end - 1]) { end := end - 1; }
    r := text[..end] + TRUNCATION_MARK;
  }

  /** The budget is kept exactly when the text fits it or it has room for the mark. */
  lemma TruncateFits(text: Text, max: nat)
    ensures |Truncate(text, max)| <= max <==> |text| <= max || max >= 4
  {
    assert |TRUNCATION_MARK| == 4;
  }

  /** What is cut is cut at the end only, and by no more than the mark and half a character. */
  lemma TruncateKeeps(text: Text, max: nat)
    requires |text| > max >= 4
    ensures exists k | max - 5 <= k <= max - 4 && 0 <= k <= |text| :: Truncate(text, max) == text[..k] + TRUNCATION_MARK
  {
    var end := max - 4;
    var cut := if end > 0 && HighSurrogate(text[end - 1]) then end - 1 else end;
    assert Truncate(text, max) == text[..cut] + TRUNCATION_MARK;
  }

  /** Well-formed text stays well-formed: no surrogate pair is split. */
  lemma TruncateWellFormed(text: Text, max: nat)
    requires WellFormed(text)
    ensures WellFormed(Truncate(text, max))
  {
    if |text| > max {
      var end := if max < 4 then 0 else max - 4;
      var cut := if end > 0 && HighSurrogate(text[end - 1]) then end - 1 else end;
      var r := Truncate(text, max);
      assert |TRUNCATION_MARK| == 4;
      assert TRUNCATION_MARK[0] == 0x20 && TRUNCATION_MARK[1] == 0x5b && TRUNCATION_MARK[2] == 0x2026
          && TRUNCATION_MARK[3] == 0x5d;
      assert cut > 0 && cut < end ==> !LowSurrogate(text[cut]);
      assert cut > 0 ==> !HighSurrogate(text[cut - 1]);
      forall i | 0 <= i < |r| && HighSurrogate(r[i]) ensures i + 1 < |r| && LowSurrogate(r[i + 1]) {
        assert i < cut && r[i] == text[i];
      }
      forall i | 0 <= i < |r| && LowSurrogate(r[i]) ensures i > 0 && HighSurrogate(r[i - 1]) {
        assert i < cut && r[i] == text[i];
      }
    }
  }
}

/** Lines put together. */
module TextLines {
  import opened CodeUnits

  const NEWLINE: CodeUnit := 0x0a

  function Join(parts: seq<Text>): Text {
    if parts == [] then [] else if |parts| == 1 then parts[0] else parts[0] + [NEWLINE] + Join(parts[1..])
  }

  /** What texts take, each with its line break. */
  function Cost(texts: seq<Text>): nat {
    if texts == [] then 0 else |texts[0]| + 1 + Cost(texts[1..])
  }

  lemma {:induction false} JoinLength(parts: seq<Text>)
    requires parts != []
    ensures |Join(parts)| + 1 == Cost(parts)
  {
    if |parts| > 1 { JoinLength(parts[1..]); }
  }

  lemma {:induction false} CostOfBoth(a: seq<Text>, b: seq<Text>)
    ensures Cost(a + b) == Cost(a) + Cost(b)
  {
    if a == [] {
      assert a + b == b;
    } else {
      CostOfBoth(a[1..], b);
      assert (a + b)[1..] == a[1..] + b;
    }
  }

  lemma {:induction false} JoinOfBoth(a: seq<Text>, b: seq<Text>)
    requires a != [] && b != []
    ensures Join(a + b) == Join(a) + [NEWLINE] + Join(b)
  {
    if |a| > 1 {
      JoinOfBoth(a[1..], b);
    }
    assert (a + b)[1..] == a[1..] + b && (|a| == 1 ==> a[1..] + b == b);
  }
}
