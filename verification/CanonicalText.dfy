/** What the canonical text of a value is, character by character: the order of an object's keys, the separators, the
    escapes of a string and the digits of a number, none of it said through the printer. */
module CanonicalText {
  import opened Wrappers
  import opened CodeUnits
  import opened Sorting
  import opened CanonicalJson

  // ----- Strings

  const HEX := Units("0123456789abcdef")

  /** The unit stands next to its other half. */
  predicate Paired(t: Text, i: nat)
    requires i < |t|
  {
    || (0xd800 <= t[i] <= 0xdbff && i + 1 < |t| && 0xdc00 <= t[i + 1] <= 0xdfff)
    || (0xdc00 <= t[i] <= 0xdfff && i > 0 && 0xd800 <= t[i - 1] <= 0xdbff)
  }

  /** How unit `i` of a string is written. */
  function Piece(t: Text, i: nat): Text
    requires i < |t|
  {
    var u := t[i];
    if u == 0x22 then Units("\\\"") else if u == 0x5c then Units("\\\\")
    else if u == 0x08 then Units("\\b") else if u == 0x09 then Units("\\t") else if u == 0x0a then Units("\\n")
    else if u == 0x0c then Units("\\f") else if u == 0x0d then Units("\\r")
    else if u < 0x20 || (0xd800 <= u <= 0xdfff && !Paired(t, i)) then
      Units("\\u") + [HEX[u / 4096], HEX[u / 256 % 16], HEX[u / 16 % 16], HEX[u % 16]]
    else [u]
  }

  /** The pieces from unit `k` on, one after another. */
  function Pieces(t: Text, k: nat): Text
    requires k <= |t|
    decreases |t| - k
  {
    if k == |t| then [] else Piece(t, k) + Pieces(t, k + 1)
  }

  lemma HexMeaning(d: nat)
    requires d < 16
    ensures HexDigit(d) == HEX[d]
  {
  }

  lemma Hex4Meaning(u: CodeUnit)
    ensures Hex4(u) == [HEX[u / 4096], HEX[u / 256 % 16], HEX[u / 16 % 16], HEX[u % 16]]
  {
    HexMeaning(u / 4096);
    HexMeaning(u / 256 % 16);
    HexMeaning(u / 16 % 16);
    HexMeaning(u % 16);
  }

  lemma ShortMeaning(u: CodeUnit)
    ensures ShortEscape(u).Some? <==> u in {0x22, 0x5c, 0x08, 0x09, 0x0a, 0x0c, 0x0d}
    ensures ShortEscape(u).Some? ==> forall t: Text, i: nat | i < |t| && t[i] == u ::
              Piece(t, i) == [BACKSLASH, ShortEscape(u).value]
  {
    assert Units("\\\"") == [0x5c, 0x22] && Units("\\\\") == [0x5c, 0x5c] && Units("\\b") == [0x5c, 0x62];
    assert Units("\\t") == [0x5c, 0x74] && Units("\\n") == [0x5c, 0x6e] && Units("\\f") == [0x5c, 0x66];
    assert Units("\\r") == [0x5c, 0x72];
  }

  /** Unit `k` is not the second half of a pair. */
  predicate Starts(t: Text, k: nat) {
    !(0 < k < |t| && HighSurrogate(t[k - 1]) && LowSurrogate(t[k]))
  }

  /** What `Escape` writes first, when the text does not begin with a pair. */
  function Head(u: CodeUnit): Text {
    if ShortEscape(u).Some? then [BACKSLASH, ShortEscape(u).value]
    else if u < 0x20 || HighSurrogate(u) || LowSurrogate(u) then [BACKSLASH, 0x75] + Hex4(u) else [u]
  }

  lemma HeadIsPiece(t: Text, k: nat)
    requires k < |t| && Starts(t, k) && !PairAhead(t[k..])
    ensures Piece(t, k) == Head(t[k])
  {
    ShortMeaning(t[k]);
    Hex4Meaning(t[k]);
    assert Units("\\u") == [0x5c, 0x75];
  }

  lemma EscapePair(s: Text)
    requires PairAhead(s)
    ensures Escape(s) == s[..2] + Escape(s[2..])
  {
  }

  lemma EscapeHead(s: Text)
    requires s != [] && !PairAhead(s)
    ensures Escape(s) == Head(s[0]) + Escape(s[1..])
  {
  }

  lemma HalvesArePlain(t: Text, k: nat)
    requires k + 1 < |t| && HighSurrogate(t[k]) && LowSurrogate(t[k + 1])
    ensures Piece(t, k) == [t[k]] && Piece(t, k + 1) == [t[k + 1]]
  {
  }

  lemma PairPieces(t: Text, k: nat)
    requires k + 1 < |t| && HighSurrogate(t[k]) && LowSurrogate(t[k + 1])
    ensures Pieces(t, k) == t[k..][..2] + Pieces(t, k + 2)
  {
    HalvesArePlain(t, k);
    var rest := Pieces(t, k + 2);
    assert Pieces(t, k + 1) == [t[k + 1]] + rest;
    assert t[k..][..2] == [t[k], t[k + 1]];
    assert [t[k]] + ([t[k + 1]] + rest) == [t[k], t[k + 1]] + rest;
  }

  lemma {:induction false} EscapeFrom(t: Text, k: nat)
    requires k <= |t| && Starts(t, k)
    ensures Escape(t[k..]) == Pieces(t, k)
    decreases |t| - k
  {
    if k < |t| {
      if PairAhead(t[k..]) {
        EscapePair(t[k..]);
        PairPieces(t, k);
        EscapeFrom(t, k + 2);
        assert t[k..][2..] == t[k + 2..];
      } else {
        EscapeHead(t[k..]);
        HeadIsPiece(t, k);
        EscapeFrom(t, k + 1);
        assert t[k..][1..] == t[k + 1..];
      }
    }
  }

  /** A string is written between quotes, unit by unit: seven two-character escapes, four lower-case hexadecimal digits
      for the other controls and for halves of a pair that stand alone, everything else as it is. */
  lemma QuoteMeaning(t: Text)
    ensures Quote(t) == [0x22] + Pieces(t, 0) + [0x22]
  {
    EscapeFrom(t, 0);
    assert t[0..] == t;
  }

  // ----- Numbers

  function DecimalValue(t: Text): int {
    if t == [] then 0 else
      var digit: int := t[|t| - 1];
      DecimalValue(t[..|t| - 1]) * 10 + (digit - 0x30)
  }

  /** The decimal digits of `n` without a leading zero. */
  ghost predicate Decimal(t: Text, n: nat) {
    && t != [] && (forall i | 0 <= i < |t| :: 0x30 <= t[i] <= 0x39)
    && (t[0] == 0x30 ==> |t| == 1) && DecimalValue(t) == n
  }

  lemma {:induction false} DigitsMeaning(n: nat)
    ensures Decimal(Digits(n), n) && (n > 0 ==> Digits(n)[0] != 0x30)
  {
    var t := Digits(n);
    if n >= 10 {
      DigitsMeaning(n / 10);
      assert t[..|t| - 1] == Digits(n / 10) && t[0] == Digits(n / 10)[0];
    } else {
      assert t[..0] == [] && DecimalValue([]) == 0;
    }
  }

  // ----- Arrays and objects

  /** The parts with a comma between any two. */
  function Joined(parts: seq<Text>): Text {
    if parts == [] then [] else if |parts| == 1 then parts[0] else parts[0] + [0x2c] + Joined(parts[1..])
  }

  function ItemTexts(items: seq<Json>): seq<Text> {
    seq(|items|, i requires 0 <= i < |items| => Canonical(items[i]))
  }

  /** `"key":value` of each entry. */
  function EntryTexts(ps: seq<Pair>): seq<Text> {
    seq(|ps|, i requires 0 <= i < |ps| => Quote(ps[i].key) + [0x3a] + Canonical(ps[i].value))
  }

  lemma {:induction false} ItemsJoined(items: seq<Json>)
    ensures CanonicalItems(items) == Joined(ItemTexts(items))
  {
    if |items| > 1 {
      ItemsJoined(items[1..]);
      assert ItemTexts(items)[1..] == ItemTexts(items[1..]);
    }
  }

  lemma {:induction false} PairsJoined(ps: seq<Pair>, parent: Json)
    requires forall p <- ps :: p.value < parent
    ensures CanonicalPairs(ps, parent) == Joined(EntryTexts(ps))
    decreases |ps|
  {
    if ps != [] {
      FirstPair(ps, parent);
      if |ps| > 1 {
        PairsJoined(ps[1..], parent);
        assert EntryTexts(ps)[1..] == EntryTexts(ps[1..]);
      }
    }
  }

  lemma {:induction false} DefinedMembers(fields: seq<Field>, p: Pair)
    ensures p in Defined(fields) <==> Field(p.key, Some(p.value)) in fields
  {
    if fields != [] {
      DefinedMembers(fields[1..], p);
      assert fields == [fields[0]] + fields[1..];
    }
  }

  /** The defined entries of the object, each once, their keys ascending code unit by code unit. */
  ghost predicate InOrder(ps: seq<Pair>, fields: seq<Field>) {
    && (forall p: Pair :: p in ps <==> Field(p.key, Some(p.value)) in fields)
    && (forall i, j | 0 <= i < j < |ps| :: Ascends(ps[i].key, ps[j].key))
  }

  lemma SortedInOrder(v: Json)
    requires v.Obj? && Proper(v)
    ensures InOrder(Sort(Defined(v.fields), KeyLess), v.fields)
  {
    var ps := Sort(Defined(v.fields), KeyLess);
    SortedEntries(v);
    forall p: Pair ensures p in ps <==> Field(p.key, Some(p.value)) in v.fields {
      SortMembers(Defined(v.fields), KeyLess, p);
      DefinedMembers(v.fields, p);
    }
    forall i, j | 0 <= i < j < |ps| ensures Ascends(ps[i].key, ps[j].key) {
      assert KeyLess(ps[i], ps[j]);
      LessMeaning(ps[i].key, ps[j].key);
    }
  }

  /** An object is written as its defined entries in the order of their keys, between braces. */
  lemma ObjectMeaning(v: Json)
    requires v.Obj? && Proper(v)
    ensures exists ps: seq<Pair> ::
              InOrder(ps, v.fields) && Canonical(v) == Units("{") + Joined(EntryTexts(ps)) + Units("}")
  {
    var ps := Sort(Defined(v.fields), KeyLess);
    SortedInOrder(v);
    SortedBelow(v.fields, v);
    PairsJoined(ps, v);
    assert Units("{") == [0x7b] && Units("}") == [0x7d];
  }

  /** There is one such order. */
  lemma OrderIsOne(ps: seq<Pair>, qs: seq<Pair>, fields: seq<Field>)
    requires InOrder(ps, fields) && InOrder(qs, fields)
    ensures ps == qs
  {
    forall p <- ps + qs, q <- ps + qs
      ensures !(KeyLess(p, q) && KeyLess(q, p)) && !KeyLess(p, p) {
      LessTotal(p.key, q.key);
      LessTotal(p.key, p.key);
    }
    forall i, j | 0 <= i < j < |ps| ensures KeyLess(ps[i], ps[j]) { LessMeaning(ps[i].key, ps[j].key); }
    forall i, j | 0 <= i < j < |qs| ensures KeyLess(qs[i], qs[j]) { LessMeaning(qs[i].key, qs[j].key); }
    StrictUnique(ps, qs, KeyLess);
  }

  /** What the text of each kind of value is. */
  lemma TextMeaning(v: Json)
    ensures v.Null? ==> Canonical(v) == Units("null")
    ensures v.Bool? ==> Canonical(v) == if v.b then Units("true") else Units("false")
    ensures v.Num? && v.n >= 0 ==> Decimal(Canonical(v), v.n)
    ensures v.Num? && v.n < 0 ==> |Canonical(v)| > 0 && Canonical(v)[0] == 0x2d && Decimal(Canonical(v)[1..], -v.n)
    ensures v.Str? ==> Canonical(v) == [0x22] + Pieces(v.t, 0) + [0x22]
    ensures v.Arr? ==> Canonical(v) == Units("[") + Joined(ItemTexts(v.items)) + Units("]")
  {
    match v
    case Num(n) => DigitsMeaning(if n < 0 then -n else n);
    case Str(t) => QuoteMeaning(t);
    case Arr(items) =>
      ItemsJoined(items);
      assert Units("[") == [0x5b] && Units("]") == [0x5d];
    case _ =>
  }
}
