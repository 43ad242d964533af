/** Canonical JSON: a printer whose text identifies the value, shown by a parser that inverts it.
    Strings are quoted as section 25.5.2 of ECMA-262 does it, lone surrogates included; numbers are integers. */
module CanonicalJson {
  import opened Wrappers
  import opened CodeUnits
  import opened Sorting

  /** A JSON value as it lies in memory: an object lists its entries in insertion order, some undefined. */
  datatype Json =
    | Null | Bool(b: bool) | Num(n: int) | Str(t: Text) | Arr(items: seq<Json>) | Obj(fields: seq<Field>)

  datatype Field = Field(key: Text, value: Option<Json>)

  datatype Pair = Pair(key: Text, value: Json)

  /** A JSON value as data: an object is a finite map. */
  datatype Data =
    | DNull | DBool(b: bool) | DNum(n: int) | DStr(t: Text) | DArr(items: seq<Data>) | DObj(entries: map<Text, Data>)

  const QUOTE: CodeUnit := 0x22
  const BACKSLASH: CodeUnit := 0x5c
  const COMMA: CodeUnit := 0x2c
  const COLON: CodeUnit := 0x3a
  const MINUS: CodeUnit := 0x2d
  const OPEN_BRACKET: CodeUnit := 0x5b
  const CLOSE_BRACKET: CodeUnit := 0x5d
  const OPEN_BRACE: CodeUnit := 0x7b
  const CLOSE_BRACE: CodeUnit := 0x7d

  // ----- Data

  /** The entries that are not undefined. */
  function Defined(fields: seq<Field>): (ps: seq<Pair>)
    ensures forall p <- ps :: Field(p.key, Some(p.value)) in fields
  {
    if fields == [] then [] else
      (if fields[0].value.Some? then [Pair(fields[0].key, fields[0].value.value)] else []) + Defined(fields[1..])
  }

  ghost predicate DistinctKeys(fields: seq<Field>) {
    forall i, j | 0 <= i < j < |fields| :: fields[i].key != fields[j].key
  }

  /** A value whose objects have each key once, as every object in memory does. */
  ghost predicate Proper(v: Json) {
    match v
    case Arr(items) => forall x <- items :: Proper(x)
    case Obj(fields) => DistinctKeys(fields) && forall f <- fields | f.value.Some? :: Proper(f.value.value)
    case _ => true
  }

  function Denote(v: Json): Data {
    match v
    case Null => DNull
    case Bool(b) => DBool(b)
    case Num(n) => DNum(n)
    case Str(t) => DStr(t)
    case Arr(items) => DArr(seq(|items|, i requires 0 <= i < |items| => Denote(items[i])))
    case Obj(fields) => DObj(DenotePairs(Defined(fields), v))
  }

  function DenotePairs(ps: seq<Pair>, ghost parent: Json): map<Text, Data>
    requires forall p <- ps :: p.value < parent
    decreases parent, |ps|
  {
    if ps == [] then map[] else map[ps[0].key := Denote(ps[0].value)] + DenotePairs(ps[1..], parent)
  }

  // ----- The printer

  function Digits(n: nat): Text {
    if n < 10 then [0x30 + n] else Digits(n / 10) + [0x30 + n % 10]
  }

  function Number(n: int): Text {
    if n < 0 then [MINUS] + Digits(-n) else Digits(n)
  }

  function HexDigit(d: nat): CodeUnit
    requires d < 16
  {
    if d < 10 then 0x30 + d else 0x61 + d - 10
  }

  function Hex4(u: CodeUnit): Text {
    [HexDigit(u / 4096), HexDigit(u / 256 % 16), HexDigit(u / 16 % 16), HexDigit(u % 16)]
  }

  /** The letter of a two-character escape. */
  function ShortEscape(u: CodeUnit): Option<CodeUnit> {
    if u == QUOTE || u == BACKSLASH then Some(u)
    else if u == 0x08 then Some(0x62) else if u == 0x09 then Some(0x74) else if u == 0x0a then Some(0x6e)
    else if u == 0x0c then Some(0x66) else if u == 0x0d then Some(0x72) else None
  }

  predicate PairAhead(t: Text) { |t| >= 2 && HighSurrogate(t[0]) && LowSurrogate(t[1]) }

  function Escape(t: Text): Text {
    if t == [] then []
    else if ShortEscape(t[0]).Some? then [BACKSLASH, ShortEscape(t[0]).value] + Escape(t[1..])
    else if PairAhead(t) then t[..2] + Escape(t[2..])
    else if t[0] < 0x20 || HighSurrogate(t[0]) || LowSurrogate(t[0])
        then [BACKSLASH, 0x75] + Hex4(t[0]) + Escape(t[1..])
    else [t[0]] + Escape(t[1..])
  }

  function Quote(t: Text): Text { [QUOTE] + Escape(t) + [QUOTE] }

  predicate KeyLess(a: Pair, b: Pair) { Less(a.key, b.key) }

  function Canonical(v: Json): Text {
    match v
    case Null => Units("null")
    case Bool(b) => if b then Units("true") else Units("false")
    case Num(n) => Number(n)
    case Str(t) => Quote(t)
    case Arr(items) => [OPEN_BRACKET] + CanonicalItems(items) + [CLOSE_BRACKET]
    case Obj(fields) =>
      SortedBelow(fields, v);
      [OPEN_BRACE] + CanonicalPairs(Sort(Defined(fields), KeyLess), v) + [CLOSE_BRACE]
  }

  function CanonicalItems(items: seq<Json>): Text {
    if items == [] then [] else
      Canonical(items[0]) + if |items| == 1 then [] else [COMMA] + CanonicalItems(items[1..])
  }

  function CanonicalPairs(ps: seq<Pair>, ghost parent: Json): Text
    requires forall p <- ps :: p.value < parent
    decreases parent, |ps|
  {
    if ps == [] then [] else
      Quote(ps[0].key) + [COLON] + Canonical(ps[0].value)
        + if |ps| == 1 then [] else [COMMA] + CanonicalPairs(ps[1..], parent)
  }

  /** Sorting keeps the entries, so their values stay below the object. */
  lemma SortedBelow(fields: seq<Field>, v: Json)
    requires v == Obj(fields)
    ensures forall p <- Sort(Defined(fields), KeyLess) :: p.value < v
  {
    forall p <- Sort(Defined(fields), KeyLess) ensures p.value < v {
      SortMembers(Defined(fields), KeyLess, p);
    }
  }

  // ----- The parser

  datatype Parsed<T> = Failed | Parsed(value: T, rest: Text)

  predicate IsDigit(u: CodeUnit) { 0x30 <= u <= 0x39 }

  function ReadDigits(s: Text, acc: nat): (nat, Text) {
    if s == [] || !IsDigit(s[0]) then (acc, s) else ReadDigits(s[1..], acc * 10 + (s[0] - 0x30))
  }

  function HexValue(u: CodeUnit): Option<nat> {
    if IsDigit(u) then Some(u - 0x30) else if 0x61 <= u <= 0x66 then Some(u - 0x61 + 10) else None
  }

  function UnescapeShort(c: CodeUnit): Option<CodeUnit> {
    if c == QUOTE || c == BACKSLASH then Some(c)
    else if c == 0x62 then Some(0x08) else if c == 0x74 then Some(0x09) else if c == 0x6e then Some(0x0a)
    else if c == 0x66 then Some(0x0c) else if c == 0x72 then Some(0x0d) else None
  }

  function ReadHex4(s: Text): Option<CodeUnit>
    requires |s| >= 4
  {
    var a, b, c, d := HexValue(s[0]), HexValue(s[1]), HexValue(s[2]), HexValue(s[3]);
    if a.Some? && b.Some? && c.Some? && d.Some? then Some(a.value * 4096 + b.value * 256 + c.value * 16 + d.value)
        else None
  }

  /** The characters of a string, up to and including its closing quote. */
  function ParseChars(s: Text): Parsed<Text>
    decreases |s|
  {
    if s == [] then Failed
    else if s[0] == QUOTE then Parsed([], s[1..])
    else if s[0] == BACKSLASH then
      if |s| < 2 then Failed
      else if UnescapeShort(s[1]).Some? then Prepend(UnescapeShort(s[1]).value, ParseChars(s[2..]))
      else if s[1] == 0x75 && |s| >= 6 && ReadHex4(s[2..]).Some? then
        Prepend(ReadHex4(s[2..]).value, ParseChars(s[6..]))
      else Failed
    else Prepend(s[0], ParseChars(s[1..]))
  }

  function Prepend(u: CodeUnit, r: Parsed<Text>): Parsed<Text> {
    if r.Failed? then Failed else Parsed([u] + r.value, r.rest)
  }

  predicate Begins(s: Text, word: Text) { |word| <= |s| && s[..|word|] == word }

  function ParseNumber(s: Text): Parsed<Data> {
    if s != [] && s[0] == MINUS then
      if |s| > 1 && IsDigit(s[1]) then var (n, rest) := ReadDigits(s[1..], 0); Parsed(DNum(0 - n), rest) else Failed
    else if s != [] && IsDigit(s[0]) then var (n, rest) := ReadDigits(s, 0); Parsed(DNum(n), rest)
    else Failed
  }

  function Parse(s: Text): Parsed<Data>
    decreases |s|, 1
  {
    if Begins(s, Units("null")) then Parsed(DNull, s[4..])
    else if Begins(s, Units("true")) then Parsed(DBool(true), s[4..])
    else if Begins(s, Units("false")) then Parsed(DBool(false), s[5..])
    else if s != [] && s[0] == QUOTE then
      var r := ParseChars(s[1..]);
      if r.Failed? then Failed else Parsed(DStr(r.value), r.rest)
    else if s != [] && s[0] == OPEN_BRACKET then
      if |s| > 1 && s[1] == CLOSE_BRACKET then Parsed(DArr([]), s[2..]) else
        var r := ParseItems(s[1..]);
        if r.Failed? then Failed else Parsed(DArr(r.value), r.rest)
    else if s != [] && s[0] == OPEN_BRACE then
      if |s| > 1 && s[1] == CLOSE_BRACE then Parsed(DObj(map[]), s[2..]) else
        var r := ParsePairs(s[1..]);
        if r.Failed? then Failed else Parsed(DObj(r.value), r.rest)
    else ParseNumber(s)
  }

  /** One or more items and the closing bracket. */
  function ParseItems(s: Text): Parsed<seq<Data>>
    decreases |s|, 2
  {
    var first := Parse(s);
    if first.Failed? || first.rest == [] || |first.rest| > |s| then Failed
    else if first.rest[0] == CLOSE_BRACKET then Parsed([first.value], first.rest[1..])
    else if first.rest[0] == COMMA then
      var more := ParseItems(first.rest[1..]);
      if more.Failed? then Failed else Parsed([first.value] + more.value, more.rest)
    else Failed
  }

  /** One or more entries and the closing brace. */
  function ParsePairs(s: Text): Parsed<map<Text, Data>>
    decreases |s|, 2
  {
    if s == [] || s[0] != QUOTE then Failed else
      var key := ParseChars(s[1..]);
      if key.Failed? || |key.rest| >= |s| || key.rest == [] || key.rest[0] != COLON then Failed else
        var value := Parse(key.rest[1..]);
        if value.Failed? || value.rest == [] || |value.rest| >= |s| then Failed
        else if value.rest[0] == CLOSE_BRACE then Parsed(map[key.value := value.value], value.rest[1..])
        else if value.rest[0] == COMMA then
          var more := ParsePairs(value.rest[1..]);
          if more.Failed? then Failed else Parsed(map[key.value := value.value] + more.value, more.rest)
        else Failed
  }

  // ----- Strings and numbers come back

  lemma HexInverse(d: nat)
    requires d < 16
    ensures HexValue(HexDigit(d)) == Some(d)
  {
  }

  lemma Nibbles(u: CodeUnit)
    ensures u / 4096 < 16 && u / 4096 * 4096 + u / 256 % 16 * 256 + u / 16 % 16 * 16 + u % 16 == u
  {
    var x := u / 16;
    var y := x / 16;
    assert u / 256 == y && u / 4096 == y / 16;
  }

  lemma Hex4Inverse(u: CodeUnit, rest: Text)
    ensures |Hex4(u) + rest| >= 4 && ReadHex4(Hex4(u) + rest) == Some(u)
  {
    var s := Hex4(u) + rest;
    Nibbles(u);
    assert s[0] == HexDigit(u / 4096) && s[1] == HexDigit(u / 256 % 16);
    assert s[2] == HexDigit(u / 16 % 16) && s[3] == HexDigit(u % 16);
    HexInverse(u / 4096);
    HexInverse(u / 256 % 16);
    HexInverse(u / 16 % 16);
    HexInverse(u % 16);
  }

  lemma ShortInverse(u: CodeUnit)
    ensures ShortEscape(u).Some? ==> UnescapeShort(ShortEscape(u).value) == Some(u)
  {
  }

  lemma ShortRoundTrip(t: Text, more: Text, rest: Text)
    requires t != [] && ShortEscape(t[0]).Some? && ParseChars(more) == Parsed(t[1..], rest)
    ensures ParseChars([BACKSLASH, ShortEscape(t[0]).value] + more) == Parsed(t, rest)
  {
    var s := [BACKSLASH, ShortEscape(t[0]).value] + more;
    ShortInverse(t[0]);
    assert s[2..] == more && [t[0]] + t[1..] == t;
  }

  lemma LongRoundTrip(t: Text, more: Text, rest: Text)
    requires t != [] && ParseChars(more) == Parsed(t[1..], rest)
    ensures ParseChars([BACKSLASH, 0x75] + Hex4(t[0]) + more) == Parsed(t, rest)
  {
    var s := [BACKSLASH, 0x75] + Hex4(t[0]) + more;
    assert s[2..] == Hex4(t[0]) + more && s[6..] == more && [t[0]] + t[1..] == t;
    Hex4Inverse(t[0], more);
  }

  lemma PlainRoundTrip(u: CodeUnit, t: Text, more: Text, rest: Text)
    requires u != QUOTE && u != BACKSLASH && ParseChars(more) == Parsed(t, rest)
    ensures ParseChars([u] + more) == Parsed([u] + t, rest)
  {
    assert ([u] + more)[1..] == more;
  }

  lemma Regroup(head: Text, body: Text, rest: Text)
    ensures (head + body) + [QUOTE] + rest == head + (body + [QUOTE] + rest)
  {
  }

  lemma PairRoundTrip(t: Text, more: Text, rest: Text)
    requires PairAhead(t) && ParseChars(more) == Parsed(t[2..], rest)
    ensures ParseChars(t[..2] + more) == Parsed(t, rest)
  {
    PlainRoundTrip(t[1], t[2..], more, rest);
    PlainRoundTrip(t[0], [t[1]] + t[2..], [t[1]] + more, rest);
    assert t[..2] + more == [t[0]] + ([t[1]] + more) && [t[0]] + ([t[1]] + t[2..]) == t;
  }

  /** Every text, well-formed or not, is read back from its quoted form. */
  lemma {:induction false} CharsRoundTrip(t: Text, rest: Text)
    ensures ParseChars(Escape(t) + [QUOTE] + rest) == Parsed(t, rest)
    decreases |t|
  {
    if t == [] {
      assert Escape(t) + [QUOTE] + rest == [QUOTE] + rest;
    } else if ShortEscape(t[0]).Some? {
      CharsRoundTrip(t[1..], rest);
      Regroup([BACKSLASH, ShortEscape(t[0]).value], Escape(t[1..]), rest);
      ShortRoundTrip(t, Escape(t[1..]) + [QUOTE] + rest, rest);
    } else if PairAhead(t) {
      CharsRoundTrip(t[2..], rest);
      Regroup(t[..2], Escape(t[2..]), rest);
      PairRoundTrip(t, Escape(t[2..]) + [QUOTE] + rest, rest);
    } else if t[0] < 0x20 || HighSurrogate(t[0]) || LowSurrogate(t[0]) {
      CharsRoundTrip(t[1..], rest);
      Regroup([BACKSLASH, 0x75] + Hex4(t[0]), Escape(t[1..]), rest);
      LongRoundTrip(t, Escape(t[1..]) + [QUOTE] + rest, rest);
    } else {
      CharsRoundTrip(t[1..], rest);
      Regroup([t[0]], Escape(t[1..]), rest);
      PlainRoundTrip(t[0], t[1..], Escape(t[1..]) + [QUOTE] + rest, rest);
      assert [t[0]] + t[1..] == t;
    }
  }

  lemma {:induction false} DigitsRead(n: nat, rest: Text)
    ensures ReadDigits(Digits(n) + rest, 0) == ReadDigits(rest, n)
    ensures Digits(n) != [] && IsDigit(Digits(n)[0])
  {
    if n < 10 {
      assert (Digits(n) + rest)[1..] == rest;
    } else {
      var d: CodeUnit := 0x30 + n % 10;
      DigitsRead(n / 10, [d] + rest);
      assert Digits(n) + rest == Digits(n / 10) + ([d] + rest);
      assert ([d] + rest)[1..] == rest;
    }
  }

  /** What may follow a value inside a canonical text: anything but a digit. */
  predicate Ends(rest: Text) { rest == [] || !IsDigit(rest[0]) }

  lemma ParseIsNumber(s: Text)
    requires s != [] && (s[0] == MINUS || IsDigit(s[0]))
    ensures Parse(s) == ParseNumber(s)
  {
    assert Units("null")[0] == 0x6e && Units("true")[0] == 0x74 && Units("false")[0] == 0x66;
  }

  lemma NumberRead(n: int, rest: Text)
    requires Ends(rest)
    ensures var s := Number(n) + rest; (s[0] == MINUS || IsDigit(s[0])) && ParseNumber(s) == Parsed(DNum(n), rest)
  {
    var s := Number(n) + rest;
    if n < 0 {
      DigitsRead(-n, rest);
      assert s[0] == MINUS && s[1..] == Digits(-n) + rest;
    } else {
      DigitsRead(n, rest);
      assert s[0] == Digits(n)[0];
    }
  }

  lemma NumberRoundTrip(n: int, rest: Text)
    requires Ends(rest)
    ensures Parse(Number(n) + rest) == Parsed(DNum(n), rest)
  {
    NumberRead(n, rest);
    ParseIsNumber(Number(n) + rest);
  }

  lemma WordRoundTrip(rest: Text)
    ensures Parse(Units("null") + rest) == Parsed(DNull, rest)
    ensures Parse(Units("true") + rest) == Parsed(DBool(true), rest)
    ensures Parse(Units("false") + rest) == Parsed(DBool(false), rest)
  {
    assert (Units("null") + rest)[..4] == Units("null") && (Units("null") + rest)[4..] == rest;
    assert (Units("true") + rest)[..4] == Units("true") && (Units("true") + rest)[4..] == rest;
    assert (Units("false") + rest)[..5] == Units("false") && (Units("false") + rest)[5..] == rest;
    assert Units("null")[0] == 0x6e && Units("true")[0] == 0x74 && Units("false")[0] == 0x66;
    assert Units("true")[0] != Units("null")[0];
  }

  // ----- Values come back

  function DenoteItems(items: seq<Json>): seq<Data> {
    seq(|items|, i requires 0 <= i < |items| => Denote(items[i]))
  }

  lemma FirstUnit(v: Json)
    ensures Canonical(v) != [] && Canonical(v)[0] != CLOSE_BRACKET
  {
    if v.Num? {
      DigitsRead(if v.n < 0 then -v.n else v.n, []);
    } else if v.Null? {
      assert Units("null")[0] == 0x6e;
    } else if v.Bool? {
      assert Units("true")[0] == 0x74 && Units("false")[0] == 0x66;
    }
  }

  lemma LastItem(text: Text, d: Data, rest: Text)
    requires Parse(text + ([CLOSE_BRACKET] + rest)) == Parsed(d, [CLOSE_BRACKET] + rest)
    ensures ParseItems(text + ([CLOSE_BRACKET] + rest)) == Parsed([d], rest)
  {
    assert ([CLOSE_BRACKET] + rest)[1..] == rest;
  }

  lemma NextItem(text: Text, d: Data, more: Text, ds: seq<Data>, rest: Text)
    requires Parse(text + ([COMMA] + more)) == Parsed(d, [COMMA] + more) && ParseItems(more) == Parsed(ds, rest)
    ensures ParseItems(text + ([COMMA] + more)) == Parsed([d] + ds, rest)
  {
    assert ([COMMA] + more)[1..] == more;
  }

  lemma ParseQuoted(t: Text, rest: Text)
    ensures ParseChars((Quote(t) + rest)[1..]) == Parsed(t, rest) && (Quote(t) + rest)[0] == QUOTE
  {
    CharsRoundTrip(t, rest);
    assert (Quote(t) + rest)[1..] == Escape(t) + [QUOTE] + rest;
  }

  lemma LastPair(key: Text, text: Text, d: Data, rest: Text)
    requires Parse(text + ([CLOSE_BRACE] + rest)) == Parsed(d, [CLOSE_BRACE] + rest)
    ensures ParsePairs(Quote(key) + ([COLON] + (text + ([CLOSE_BRACE] + rest)))) == Parsed(map[key := d], rest)
  {
    ParseQuoted(key, [COLON] + (text + ([CLOSE_BRACE] + rest)));
    assert ([COLON] + (text + ([CLOSE_BRACE] + rest)))[1..] == text + ([CLOSE_BRACE] + rest);
    assert ([CLOSE_BRACE] + rest)[1..] == rest;
  }

  lemma NextPair(key: Text, text: Text, d: Data, more: Text, m: map<Text, Data>, rest: Text)
    requires Parse(text + ([COMMA] + more)) == Parsed(d, [COMMA] + more) && ParsePairs(more) == Parsed(m, rest)
    ensures ParsePairs(Quote(key) + ([COLON] + (text + ([COMMA] + more)))) == Parsed(map[key := d] + m, rest)
  {
    ParseQuoted(key, [COLON] + (text + ([COMMA] + more)));
    assert ([COLON] + (text + ([COMMA] + more)))[1..] == text + ([COMMA] + more);
    assert ([COMMA] + more)[1..] == more;
  }

  /** The text of items before `tail`, taken apart at its first item. */
  lemma ItemsText(items: seq<Json>, tail: Text)
    requires items != []
    ensures CanonicalItems(items) + tail ==
            Canonical(items[0]) + if |items| == 1 then tail else [COMMA] + (CanonicalItems(items[1..]) + tail)
  {
    if |items| == 1 {
      RegroupItem(Canonical(items[0]), [], tail);
      assert [] + tail == tail;
    } else {
      var others := CanonicalItems(items[1..]);
      RegroupItem(Canonical(items[0]), [COMMA] + others, tail);
      RegroupItem([COMMA], others, tail);
    }
  }

  lemma RegroupItem(text: Text, sep: Text, tail: Text)
    ensures (text + sep) + tail == text + (sep + tail)
  {
  }

  lemma ItemsData(items: seq<Json>)
    requires items != []
    ensures DenoteItems(items) == if |items| == 1 then [Denote(items[0])]
              else [Denote(items[0])] + DenoteItems(items[1..])
  {
  }

  lemma {:induction false} ItemsRoundTrip(items: seq<Json>, rest: Text)
    requires items != [] && forall x <- items :: Proper(x)
    ensures ParseItems(CanonicalItems(items) + ([CLOSE_BRACKET] + rest)) == Parsed(DenoteItems(items), rest)
    decreases items
  {
    var text, d := Canonical(items[0]), Denote(items[0]);
    ItemsText(items, [CLOSE_BRACKET] + rest);
    ItemsData(items);
    if |items| == 1 {
      RoundTripBefore(items[0], [CLOSE_BRACKET] + rest);
      LastItem(text, d, rest);
    } else {
      var more := CanonicalItems(items[1..]) + ([CLOSE_BRACKET] + rest);
      RoundTripBefore(items[0], [COMMA] + more);
      ItemsRoundTrip(items[1..], rest);
      NextItem(text, d, more, DenoteItems(items[1..]), rest);
    }
  }

  lemma RegroupPair(key: Text, text: Text, sep: Text, more: Text)
    ensures (key + [COLON] + text + sep) + more == key + ([COLON] + (text + (sep + more)))
  {
  }

  /** The text of entries before `tail`, taken apart at its first value. */
  lemma PairsText(ps: seq<Pair>, parent: Json, tail: Text)
    requires ps != [] && forall p <- ps :: p.value < parent
    ensures CanonicalPairs(ps, parent) + tail ==
            Quote(ps[0].key) + ([COLON] + (Canonical(ps[0].value) +
              if |ps| == 1 then tail else [COMMA] + (CanonicalPairs(ps[1..], parent) + tail)))
  {
    if |ps| == 1 {
      RegroupPair(Quote(ps[0].key), Canonical(ps[0].value), [], tail);
      assert [] + tail == tail;
    } else {
      var others := CanonicalPairs(ps[1..], parent);
      RegroupPair(Quote(ps[0].key), Canonical(ps[0].value), [COMMA] + others, tail);
      assert ([COMMA] + others) + tail == [COMMA] + (others + tail);
    }
  }

  lemma OnlyEntry(ps: seq<Pair>, parent: Json)
    requires |ps| == 1 && ps[0].value < parent
    ensures DenotePairs(ps, parent) == map[ps[0].key := Denote(ps[0].value)]
  {
    assert DenotePairs(ps[1..], parent) == map[];
  }

  lemma {:induction false} PairsRoundTrip(ps: seq<Pair>, parent: Json, rest: Text)
    requires ps != [] && forall p <- ps :: p.value < parent && Proper(p.value)
    ensures ParsePairs(CanonicalPairs(ps, parent) + ([CLOSE_BRACE] + rest)) == Parsed(DenotePairs(ps, parent), rest)
    decreases parent, 0, |ps|
  {
    var tail := [CLOSE_BRACE] + rest;
    PairsText(ps, parent, tail);
    if |ps| == 1 {
      RoundTripBefore(ps[0].value, tail);
      LastPair(ps[0].key, Canonical(ps[0].value), Denote(ps[0].value), rest);
      OnlyEntry(ps, parent);
    } else {
      var more := CanonicalPairs(ps[1..], parent) + tail;
      RoundTripBefore(ps[0].value, [COMMA] + more);
      PairsRoundTrip(ps[1..], parent, rest);
      NextPair(ps[0].key, Canonical(ps[0].value), Denote(ps[0].value), more, DenotePairs(ps[1..], parent), rest);
    }
  }

  ghost predicate DistinctPairs(ps: seq<Pair>) {
    forall i, j | 0 <= i < j < |ps| :: ps[i].key != ps[j].key
  }

  lemma {:induction false} DefinedDistinct(fields: seq<Field>)
    requires DistinctKeys(fields)
    ensures DistinctPairs(Defined(fields))
  {
    if fields != [] { DefinedDistinct(fields[1..]); }
  }

  /** With distinct keys, the map of the entries is what its entries say, whatever their order. */
  lemma {:induction false} DenotePairsMeaning(ps: seq<Pair>, parent: Json, k: Text)
    requires DistinctPairs(ps) && forall p <- ps :: p.value < parent
    ensures k in DenotePairs(ps, parent) <==> exists p <- ps :: p.key == k
    ensures forall p <- ps | p.key == k :: k in DenotePairs(ps, parent) && DenotePairs(ps, parent)[k] == Denote(p.value)
    decreases |ps|
  {
    if ps != [] {
      DenotePairsMeaning(ps[1..], parent, k);
      assert ps == [ps[0]] + ps[1..];
    }
  }

  lemma {:induction false} InsertDistinct(x: Pair, ps: seq<Pair>)
    requires StrictlySorted(ps, KeyLess) && forall p <- ps :: p.key != x.key
    ensures StrictlySorted(Insert(x, ps, KeyLess), KeyLess)
  {
    if ps == [] {
    } else if KeyLess(ps[0], x) {
      InsertDistinct(x, ps[1..]);
      var r := Insert(x, ps[1..], KeyLess);
      InsertPermutes(x, ps[1..], KeyLess);
      forall k | 0 <= k < |r| ensures KeyLess(ps[0], r[k]) {
        assert r[k] in multiset(r);
        assert r[k] == x || r[k] in ps[1..];
      }
    } else {
      forall k | 0 <= k < |ps| ensures KeyLess(x, ps[k]) {
        LessTotal(x.key, ps[0].key);
        assert ps[0] in ps;
        if k > 0 { LessTransitive(x.key, ps[0].key, ps[k].key); }
      }
    }
  }

  lemma {:induction false} SortDistinct(ps: seq<Pair>)
    requires DistinctPairs(ps)
    ensures StrictlySorted(Sort(ps, KeyLess), KeyLess) && DistinctPairs(Sort(ps, KeyLess))
  {
    if ps != [] {
      SortDistinct(ps[1..]);
      forall p <- Sort(ps[1..], KeyLess) ensures p.key != ps[0].key { SortMembers(ps[1..], KeyLess, p); }
      InsertDistinct(ps[0], Sort(ps[1..], KeyLess));
    }
    var r := Sort(ps, KeyLess);
    forall i, j | 0 <= i < j < |r| ensures r[i].key != r[j].key { LessTotal(r[i].key, r[j].key); }
  }

  /** Sorting the entries does not change the map they stand for. */
  lemma SortedDenotes(ps: seq<Pair>, parent: Json)
    requires DistinctPairs(ps) && (forall p <- ps :: p.value < parent) && forall p <- Sort(ps, KeyLess) ::
               p.value < parent
    ensures DenotePairs(Sort(ps, KeyLess), parent) == DenotePairs(ps, parent)
  {
    SortDistinct(ps);
    var sorted := Sort(ps, KeyLess);
    forall p ensures p in sorted <==> p in ps { SortMembers(ps, KeyLess, p); }
    forall k: Text
      ensures k in DenotePairs(sorted, parent) <==> k in DenotePairs(ps, parent)
      ensures k in DenotePairs(ps, parent) ==> DenotePairs(sorted, parent)[k] == DenotePairs(ps, parent)[k]
    {
      DenotePairsMeaning(sorted, parent, k);
      DenotePairsMeaning(ps, parent, k);
    }
  }

  lemma ArrayText(v: Json, rest: Text)
    requires v.Arr?
    ensures var s := Canonical(v) + rest;
            && s[0] == OPEN_BRACKET && s[1..] == CanonicalItems(v.items) + ([CLOSE_BRACKET] + rest)
            && (v.items == [] ==> s[1] == CLOSE_BRACKET && s[2..] == rest)
            && (v.items != [] ==> s[1] != CLOSE_BRACKET)
  {
    var s := Canonical(v) + rest;
    assert s == [OPEN_BRACKET] + (CanonicalItems(v.items) + ([CLOSE_BRACKET] + rest));
    if v.items == [] {
      assert s == [OPEN_BRACKET, CLOSE_BRACKET] + rest;
    } else {
      FirstUnit(v.items[0]);
      assert CanonicalItems(v.items)[0] == Canonical(v.items[0])[0];
    }
  }

  lemma ParseArray(s: Text, ds: seq<Data>, rest: Text)
    requires |s| > 1 && s[0] == OPEN_BRACKET && s[1] != CLOSE_BRACKET && ParseItems(s[1..]) == Parsed(ds, rest)
    ensures Parse(s) == Parsed(DArr(ds), rest)
  {
    NotAWord(s);
  }

  lemma ArrayRoundTrip(v: Json, rest: Text)
    requires v.Arr? && Proper(v)
    ensures Parse(Canonical(v) + rest) == Parsed(Denote(v), rest)
    decreases v, 1
  {
    var s := Canonical(v) + rest;
    ArrayText(v, rest);
    assert Denote(v) == DArr(DenoteItems(v.items));
    if v.items == [] {
      NotAWord(s);
      assert DenoteItems(v.items) == [];
    } else {
      ItemsRoundTrip(v.items, rest);
      ParseArray(s, DenoteItems(v.items), rest);
    }
  }

  /** A text beginning with a bracket, a brace or a quote is none of the three words. */
  lemma NotAWord(s: Text)
    requires s != [] && (s[0] == OPEN_BRACKET || s[0] == OPEN_BRACE || s[0] == QUOTE)
    ensures !Begins(s, Units("null")) && !Begins(s, Units("true")) && !Begins(s, Units("false"))
  {
    assert Units("null")[0] == 0x6e && Units("true")[0] == 0x74 && Units("false")[0] == 0x66;
  }

  lemma ObjectText(v: Json, rest: Text)
    requires v.Obj? && forall p <- Sort(Defined(v.fields), KeyLess) :: p.value < v
    ensures var ps := Sort(Defined(v.fields), KeyLess); var s := Canonical(v) + rest;
            && s[0] == OPEN_BRACE && s[1..] == CanonicalPairs(ps, v) + ([CLOSE_BRACE] + rest)
            && (ps == [] ==> s[1] == CLOSE_BRACE && s[2..] == rest) && (ps != [] ==> s[1] == QUOTE)
  {
    var ps := Sort(Defined(v.fields), KeyLess);
    var s := Canonical(v) + rest;
    assert s == [OPEN_BRACE] + (CanonicalPairs(ps, v) + ([CLOSE_BRACE] + rest));
    if ps == [] { assert s == [OPEN_BRACE, CLOSE_BRACE] + rest; }
  }

  lemma ParseObject(s: Text, m: map<Text, Data>, rest: Text)
    requires |s| > 1 && s[0] == OPEN_BRACE && s[1] != CLOSE_BRACE && ParsePairs(s[1..]) == Parsed(m, rest)
    ensures Parse(s) == Parsed(DObj(m), rest)
  {
    NotAWord(s);
  }

  lemma ObjectRoundTrip(v: Json, rest: Text)
    requires v.Obj? && Proper(v)
    ensures Parse(Canonical(v) + rest) == Parsed(Denote(v), rest)
    decreases v, 1
  {
    var s := Canonical(v) + rest;
    var ps := Sort(Defined(v.fields), KeyLess);
    SortedEntries(v);
    ObjectText(v, rest);
    if ps == [] {
      NotAWord(s);
      assert DenotePairs(ps, v) == map[];
    } else {
      PairsRoundTrip(ps, v, rest);
      ParseObject(s, DenotePairs(ps, v), rest);
    }
  }

  /** A value printed before any text that cannot continue a number is read back, and the text is left over. */
  lemma {:induction false} RoundTripBefore(v: Json, rest: Text)
    requires Proper(v) && Ends(rest)
    ensures Parse(Canonical(v) + rest) == Parsed(Denote(v), rest)
    decreases v, 2
  {
    match v
    case Null => WordRoundTrip(rest);
    case Bool(_) => WordRoundTrip(rest);
    case Num(n) => NumberRoundTrip(n, rest);
    case Str(t) =>
      ParseQuoted(t, rest);
      NotAWord(Quote(t) + rest);
    case Arr(_) => ArrayRoundTrip(v, rest);
    case Obj(_) => ObjectRoundTrip(v, rest);
  }

  /** The canonical text of every value parses to the value's data. */
  lemma RoundTrip(v: Json)
    requires Proper(v)
    ensures Parse(Canonical(v)) == Parsed(Denote(v), [])
  {
    RoundTripBefore(v, []);
    assert Canonical(v) + [] == Canonical(v);
  }

  // ----- Equal data, equal text

  function KeysOf(ps: seq<Pair>): seq<Text> {
    seq(|ps|, i requires 0 <= i < |ps| => ps[i].key)
  }

  ghost predicate HasKey(ps: seq<Pair>, k: Text) { exists p <- ps :: p.key == k }

  lemma KeysMembers(ps: seq<Pair>, k: Text)
    ensures k in KeysOf(ps) <==> HasKey(ps, k)
  {
    if k in KeysOf(ps) {
      var i :| 0 <= i < |ps| && KeysOf(ps)[i] == k;
      assert ps[i] in ps;
    }
    if HasKey(ps, k) {
      var i :| 0 <= i < |ps| && ps[i].key == k;
      assert KeysOf(ps)[i] == k;
    }
  }

  lemma SortedKeysAgree(ps: seq<Pair>, qs: seq<Pair>)
    requires StrictlySorted(ps, KeyLess) && StrictlySorted(qs, KeyLess)
    requires forall k: Text :: HasKey(ps, k) <==> HasKey(qs, k)
    ensures KeysOf(ps) == KeysOf(qs)
  {
    var a, b := KeysOf(ps), KeysOf(qs);
    forall k ensures k in a <==> k in b {
      KeysMembers(ps, k);
      KeysMembers(qs, k);
    }
    forall x: Text, y: Text ensures !Less(x, x) && !(Less(x, y) && Less(y, x)) {
      LessTotal(x, y);
      LessTotal(x, x);
    }
    forall i, j | 0 <= i < j < |a| ensures Less(a[i], a[j]) { assert KeyLess(ps[i], ps[j]); }
    forall i, j | 0 <= i < j < |b| ensures Less(b[i], b[j]) { assert KeyLess(qs[i], qs[j]); }
    StrictUnique(a, b, Less);
  }

  function PairThen(key: Text, value: Text, more: Option<Text>): Text {
    Quote(key) + [COLON] + value + if more.None? then [] else [COMMA] + more.value
  }

  lemma FirstPair(ps: seq<Pair>, parent: Json)
    requires ps != [] && forall p <- ps :: p.value < parent
    ensures CanonicalPairs(ps, parent)
         == PairThen(ps[0].key, Canonical(ps[0].value), if |ps| == 1 then None
             else Some(CanonicalPairs(ps[1..], parent)))
  {
  }

  ghost predicate EntriesOf(ps: seq<Pair>, v: Json) { forall p <- ps :: p.value < v && Proper(p.value) }

  ghost predicate SameEntries(ps: seq<Pair>, qs: seq<Pair>) {
    |ps| == |qs| && forall i | 0 <= i < |ps| :: ps[i].key == qs[i].key && Denote(ps[i].value) == Denote(qs[i].value)
  }

  lemma {:induction false} SamePairTexts(ps: seq<Pair>, v: Json, qs: seq<Pair>, w: Json)
    requires EntriesOf(ps, v) && EntriesOf(qs, w) && SameEntries(ps, qs)
    ensures CanonicalPairs(ps, v) == CanonicalPairs(qs, w)
    decreases v, 0, |ps|
  {
    if ps != [] {
      assert ps[0] in ps && qs[0] in qs;
      SameText(ps[0].value, qs[0].value);
      SamePairTexts(ps[1..], v, qs[1..], w);
      FirstPair(ps, v);
      FirstPair(qs, w);
    }
  }

  lemma {:induction false} SameItemTexts(xs: seq<Json>, ys: seq<Json>)
    requires (forall x <- xs :: Proper(x)) && (forall y <- ys :: Proper(y)) && DenoteItems(xs) == DenoteItems(ys)
    ensures CanonicalItems(xs) == CanonicalItems(ys)
    decreases xs
  {
    assert |DenoteItems(xs)| == |DenoteItems(ys)|;
    if xs != [] {
      assert DenoteItems(xs)[0] == DenoteItems(ys)[0];
      SameText(xs[0], ys[0]);
      assert DenoteItems(xs[1..]) == DenoteItems(xs)[1..] && DenoteItems(ys[1..]) == DenoteItems(ys)[1..];
      SameItemTexts(xs[1..], ys[1..]);
    }
  }

  lemma SameValue(ps: seq<Pair>, v: Json, qs: seq<Pair>, w: Json, i: nat)
    requires DistinctPairs(ps) && DistinctPairs(qs) && (forall p <- ps :: p.value < v) && forall q <- qs :: q.value < w
    requires DenotePairs(ps, v) == DenotePairs(qs, w) && i < |ps| && i < |qs| && ps[i].key == qs[i].key
    ensures Denote(ps[i].value) == Denote(qs[i].value)
  {
    DenotePairsMeaning(ps, v, ps[i].key);
    DenotePairsMeaning(qs, w, qs[i].key);
    assert ps[i] in ps && qs[i] in qs;
  }

  /** Sorted entries of the same map: the same keys in the same places, with equal data. */
  lemma SameSortedEntries(ps: seq<Pair>, v: Json, qs: seq<Pair>, w: Json)
    requires StrictlySorted(ps, KeyLess) && DistinctPairs(ps) && forall p <- ps :: p.value < v
    requires StrictlySorted(qs, KeyLess) && DistinctPairs(qs) && forall q <- qs :: q.value < w
    requires DenotePairs(ps, v) == DenotePairs(qs, w)
    ensures SameEntries(ps, qs)
  {
    forall k: Text ensures HasKey(ps, k) <==> HasKey(qs, k) {
      DenotePairsMeaning(ps, v, k);
      DenotePairsMeaning(qs, w, k);
    }
    SortedKeysAgree(ps, qs);
    assert |KeysOf(ps)| == |KeysOf(qs)|;
    forall i | 0 <= i < |ps| ensures ps[i].key == qs[i].key && Denote(ps[i].value) == Denote(qs[i].value) {
      assert KeysOf(ps)[i] == KeysOf(qs)[i];
      SameValue(ps, v, qs, w, i);
    }
  }

  /** An object's entries in canonical order, and that they still stand for its data. */
  lemma SortedEntries(v: Json)
    requires v.Obj? && Proper(v)
    ensures var ps := Sort(Defined(v.fields), KeyLess);
            && (forall p <- ps :: p.value < v && Proper(p.value))
            && StrictlySorted(ps, KeyLess) && DistinctPairs(ps) && DenotePairs(ps, v) == Denote(v).entries
  {
    SortedBelow(v.fields, v);
    DefinedDistinct(v.fields);
    SortDistinct(Defined(v.fields));
    SortedDenotes(Defined(v.fields), v);
    forall p <- Sort(Defined(v.fields), KeyLess) ensures Proper(p.value) { SortMembers(Defined(v.fields), KeyLess, p); }
  }

  lemma SameObjectText(v: Json, w: Json)
    requires v.Obj? && w.Obj? && Proper(v) && Proper(w) && Denote(v) == Denote(w)
    ensures Canonical(v) == Canonical(w)
    decreases v, 1
  {
    SortedEntries(v);
    SortedEntries(w);
    var ps, qs := Sort(Defined(v.fields), KeyLess), Sort(Defined(w.fields), KeyLess);
    SameSortedEntries(ps, v, qs, w);
    SamePairTexts(ps, v, qs, w);
  }

  lemma {:induction false} SameText(v: Json, w: Json)
    requires Proper(v) && Proper(w) && Denote(v) == Denote(w)
    ensures Canonical(v) == Canonical(w)
    decreases v, 2
  {
    match v
    case Arr(items) =>
      assert w.Arr? && DenoteItems(items) == Denote(v).items && DenoteItems(w.items) == Denote(w).items;
      SameItemTexts(items, w.items);
    case Obj(_) => SameObjectText(v, w);
    case _ =>
  }

  /** Two values have the same canonical text exactly when they are equal as data: objects as finite maps,
      undefined entries dropped, insertion order forgotten. */
  lemma CanonicalIdentifies(v: Json, w: Json)
    requires Proper(v) && Proper(w)
    ensures Canonical(v) == Canonical(w) <==> Denote(v) == Denote(w)
  {
    RoundTrip(v);
    RoundTrip(w);
    if Denote(v) == Denote(w) { SameText(v, w); }
  }
}
