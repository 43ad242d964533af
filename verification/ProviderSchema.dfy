/** Reducing a JSON Schema to the subset that providers accept for strict structured output. */
module ProviderSchema {
  /** A JSON value; an object lists its entries in order. */
  datatype Json =
    | Null | Bool(b: bool) | Num(n: real) | Str(t: string) | Arr(items: seq<Json>) | Obj(entries: seq<Entry>)

  datatype Entry = Entry(key: string, value: Json)

  const UNSUPPORTED_KEYWORDS: seq<string> :=
    ["minLength", "maxLength", "maxItems", "minimum", "maximum", "exclusiveMinimum", "exclusiveMaximum", "multipleOf",
     "minProperties", "maxProperties"]

  const SUPPORTED_FORMATS: seq<string> := ["date-time", "date", "time", "uuid", "email"]

  // ----- The reduction

  /** How many digits a text starts with. */
  function LeadingDigits(t: string): (n: nat)
    ensures n <= |t|
  {
    if t == [] || !('0' <= t[0] <= '9') then 0 else 1 + LeadingDigits(t[1..])
  }

  predicate Lookaround(t: string) {
    |t| >= 3 && t[0] == '(' && t[1] == '?' && (t[2] == '=' || t[2] == '!' || t[2] == '<')
  }

  predicate RangeQuantifier(t: string) {
    && t != [] && t[0] == '{'
    && var m := LeadingDigits(t[1..]);
       && m > 0 && |t| > 1 + m && t[1 + m] == ','
       && var n := LeadingDigits(t[2 + m..]);
          |t| > 2 + m + n && t[2 + m + n] == '}'
  }

  /** A lookaround or a range quantifier somewhere in the pattern. */
  predicate UnsupportedPattern(t: string) {
    t != [] && (Lookaround(t) || RangeQuantifier(t) || UnsupportedPattern(t[1..]))
  }

  predicate IsUnsupportedKeyword(key: string, value: Json) {
    || key in UNSUPPORTED_KEYWORDS
    || (key == "minItems" && value.Num? && value.n > 1.0)
    || (key == "pattern" && value.Str? && UnsupportedPattern(value.t))
    || (key == "format" && value.Str? && value.t !in SUPPORTED_FORMATS)
  }

  predicate IsFormat(e: Entry) { e.key == "format" && e.value.Str? && e.value.t != "" }

  /** The object has a format that is a non-empty string. */
  predicate Formatted(entries: seq<Entry>) { exists e <- entries :: IsFormat(e) }

  /** The entry goes: a pattern beside a format, or a keyword providers reject. Field names never go. */
  predicate Dropped(e: Entry, formatted: bool) {
    && !(e.key == "properties" && e.value.Obj?)
    && ((e.key == "pattern" && formatted) || IsUnsupportedKeyword(e.key, e.value))
  }

  function Reduce(node: Json): Json
    decreases node
  {
    match node
    case Arr(items) => Arr(seq(|items|, i requires 0 <= i < |items| => Reduce(items[i])))
    case Obj(entries) => Obj(ReduceEntries(entries, Formatted(entries)))
    case _ => node
  }

  function ReduceEntries(entries: seq<Entry>, formatted: bool): seq<Entry>
    decreases entries
  {
    if entries == [] then [] else
      (if Dropped(entries[0], formatted) then [] else [ReduceEntry(entries[0])])
          + ReduceEntries(entries[1..], formatted)
  }

  function ReduceEntry(e: Entry): Entry
    decreases e
  {
    Entry(e.key, if e.key == "properties" && e.value.Obj? then Obj(ReduceFields(e.value.entries)) else Reduce(e.value))
  }

  /** Field names stay; their schemas are reduced. */
  function ReduceFields(fields: seq<Entry>): seq<Entry>
    decreases fields
  {
    if fields == [] then [] else [Entry(fields[0].key, Reduce(fields[0].value))] + ReduceFields(fields[1..])
  }

  method ToProviderSchema(node: Json) returns (r: Json)
    ensures r == Reduce(node)
    decreases node
  {
    match node
    case Arr(items) =>
      var reduced: seq<Json> := [];
      for i := 0 to |items|
        invariant |reduced| == i && forall j | 0 <= j < i :: reduced[j] == Reduce(items[j])
      {
        var item := ToProviderSchema(items[i]);
        reduced := reduced + [item];
      }
      r := Arr(reduced);
    case Obj(entries) =>
      var result := ToProviderEntries(entries);
      r := Obj(result);
    case _ => r := node;
  }

  method ToProviderEntries(entries: seq<Entry>) returns (result: seq<Entry>)
    ensures result == ReduceEntries(entries, Formatted(entries))
    decreases entries
  {
    result := [];
    var formatted := exists f <- entries :: f.key == "format" && f.value.Str? && f.value.t != "";
    assert formatted == Formatted(entries);
    for i := 0 to |entries|
      invariant result + ReduceEntries(entries[i..], formatted) == ReduceEntries(entries, formatted)
    {
      var e := entries[i];
      ghost var before := result;
      if e.key == "properties" && e.value.Obj? {
        var fields := ToProviderFields(e.value.entries);
        result := result + [Entry(e.key, Obj(fields))];
      } else if e.key == "pattern" && formatted {
      } else if !IsUnsupportedKeyword(e.key, e.value) {
        var value := ToProviderSchema(e.value);
        result := result + [Entry(e.key, value)];
      }
      NextEntry(before, entries, i, formatted);
    }
  }

  method ToProviderFields(fields: seq<Entry>) returns (r: seq<Entry>)
    ensures r == ReduceFields(fields)
    decreases fields
  {
    r := [];
    for j := 0 to |fields|
      invariant r + ReduceFields(fields[j..]) == ReduceFields(fields)
    {
      var schema := ToProviderSchema(fields[j].value);
      assert fields[j..][1..] == fields[j + 1..];
      assert r + ReduceFields(fields[j..]) == r + [Entry(fields[j].key, schema)] + ReduceFields(fields[j + 1..]);
      r := r + [Entry(fields[j].key, schema)];
    }
  }

  lemma NextEntry(done: seq<Entry>, entries: seq<Entry>, i: nat, formatted: bool)
    requires i < |entries|
    ensures done + ReduceEntries(entries[i..], formatted)
         == (if Dropped(entries[i], formatted) then done else done + [ReduceEntry(entries[i])])
            + ReduceEntries(entries[i + 1..], formatted)
  {
    assert entries[i..][1..] == entries[i + 1..];
  }

  // ----- What the reduction leaves

  /** Nothing to drop, at any depth. */
  ghost predicate Supported(node: Json)
    decreases node
  {
    match node
    case Arr(items) => forall x <- items :: Supported(x)
    case Obj(entries) => forall e <- entries :: !Dropped(e, Formatted(entries)) && SupportedEntry(e)
    case _ => true
  }

  ghost predicate SupportedEntry(e: Entry)
    decreases e
  {
    if e.key == "properties" && e.value.Obj? then forall f <- e.value.entries :: Supported(f.value)
        else Supported(e.value)
  }

  lemma ReduceKeepsKind(v: Json)
    ensures Reduce(v).Num? == v.Num? && Reduce(v).Str? == v.Str? && Reduce(v).Obj? == v.Obj?
    ensures v.Num? || v.Str? || v.Bool? || v.Null? ==> Reduce(v) == v
  {
  }

  /** An entry that stays is judged the same afterwards. */
  lemma JudgedTheSame(e: Entry, formatted: bool)
    ensures Dropped(ReduceEntry(e), formatted) == Dropped(e, formatted) && IsFormat(ReduceEntry(e)) == IsFormat(e)
  {
    ReduceKeepsKind(e.value);
  }

  /** The entries left are the reduced ones of those not dropped. */
  lemma {:induction false} ReducedMembers(entries: seq<Entry>, formatted: bool, x: Entry)
    ensures x in ReduceEntries(entries, formatted) <==>
              exists e <- entries :: !Dropped(e, formatted) && x == ReduceEntry(e)
  {
    if entries != [] { ReducedMembers(entries[1..], formatted, x); }
  }

  lemma {:induction false} ReducedFields(fields: seq<Entry>)
    ensures |ReduceFields(fields)| == |fields|
    ensures forall i | 0 <= i < |fields| :: ReduceFields(fields)[i] == Entry(fields[i].key, Reduce(fields[i].value))
  {
    if fields != [] { ReducedFields(fields[1..]); }
  }

  lemma {:induction false} ReducedIsSupported(v: Json)
    ensures Supported(Reduce(v))
    decreases v
  {
    match v
    case Arr(items) =>
      forall i | 0 <= i < |items| ensures Supported(Reduce(items[i])) { ReducedIsSupported(items[i]); }
    case Obj(entries) =>
      forall i | 0 <= i < |entries| ensures SupportedEntry(ReduceEntry(entries[i])) {
        ReducedEntryIsSupported(entries[i]);
      }
      NothingLeftToDrop(entries);
    case _ =>
  }

  lemma {:induction false} ReducedEntryIsSupported(e: Entry)
    ensures SupportedEntry(ReduceEntry(e))
    decreases e
  {
    if e.key == "properties" && e.value.Obj? {
      var fields := e.value.entries;
      ReducedFields(fields);
      forall i | 0 <= i < |fields| ensures Supported(Reduce(fields[i].value)) { ReducedIsSupported(fields[i].value); }
    } else {
      ReduceKeepsKind(e.value);
      ReducedIsSupported(e.value);
    }
  }

  /** An entry that is left came from one that was not dropped. */
  lemma LeftFrom(entries: seq<Entry>, formatted: bool, x: Entry) returns (e: Entry)
    requires x in ReduceEntries(entries, formatted)
    ensures e in entries && !Dropped(e, formatted) && x == ReduceEntry(e)
    ensures !Dropped(x, formatted) && IsFormat(x) == IsFormat(e)
  {
    ReducedMembers(entries, formatted, x);
    e :| e in entries && !Dropped(e, formatted) && x == ReduceEntry(e);
    JudgedTheSame(e, formatted);
  }

  lemma NoNewFormat(entries: seq<Entry>, formatted: bool)
    ensures Formatted(ReduceEntries(entries, formatted)) ==> Formatted(entries)
  {
    if Formatted(ReduceEntries(entries, formatted)) {
      var x :| x in ReduceEntries(entries, formatted) && IsFormat(x);
      var e := LeftFrom(entries, formatted, x);
    }
  }

  lemma DroppedForMore(x: Entry, formatted: bool)
    requires !Dropped(x, formatted)
    ensures !Dropped(x, false)
  {
  }

  lemma NothingLeftToDrop(entries: seq<Entry>)
    requires forall e <- entries :: SupportedEntry(ReduceEntry(e))
    ensures Supported(Obj(ReduceEntries(entries, Formatted(entries))))
  {
    var left := ReduceEntries(entries, Formatted(entries));
    NoNewFormat(entries, Formatted(entries));
    forall x <- left ensures !Dropped(x, Formatted(left)) && SupportedEntry(x) {
      var e := LeftFrom(entries, Formatted(entries), x);
      if !Formatted(left) { DroppedForMore(x, Formatted(entries)); }
    }
  }

  lemma {:induction false} SupportedIsFixed(v: Json)
    requires Supported(v)
    ensures Reduce(v) == v
    decreases v
  {
    match v
    case Arr(items) =>
      forall i | 0 <= i < |items| ensures Reduce(items[i]) == items[i] { SupportedIsFixed(items[i]); }
    case Obj(entries) =>
      SupportedEntriesAreFixed(entries, Formatted(entries));
    case _ =>
  }

  lemma {:induction false} SupportedEntriesAreFixed(entries: seq<Entry>, formatted: bool)
    requires forall e <- entries :: !Dropped(e, formatted) && SupportedEntry(e)
    ensures ReduceEntries(entries, formatted) == entries
    decreases entries
  {
    if entries != [] {
      SupportedEntriesAreFixed(entries[1..], formatted);
      var e := entries[0];
      assert SupportedEntry(e) && !Dropped(e, formatted);
      if e.key == "properties" && e.value.Obj? {
        SupportedFieldsAreFixed(e.value.entries);
      } else {
        SupportedIsFixed(e.value);
      }
    }
  }

  lemma {:induction false} SupportedFieldsAreFixed(fields: seq<Entry>)
    requires forall f <- fields :: Supported(f.value)
    ensures ReduceFields(fields) == fields
    decreases fields
  {
    if fields != [] {
      SupportedIsFixed(fields[0].value);
      SupportedFieldsAreFixed(fields[1..]);
    }
  }

  /** The reduction changes a schema exactly when something in it is not supported. */
  lemma FixedIffSupported(v: Json)
    ensures Reduce(v) == v <==> Supported(v)
  {
    ReducedIsSupported(v);
    if Supported(v) { SupportedIsFixed(v); }
  }

  /** Reducing again changes nothing. */
  lemma Idempotent(v: Json)
    ensures Reduce(Reduce(v)) == Reduce(v)
  {
    ReducedIsSupported(v);
    SupportedIsFixed(Reduce(v));
  }

  /** Every field name under `properties` stays, in place, with its reduced schema. */
  lemma FieldNamesStay(entries: seq<Entry>, fields: seq<Entry>)
    requires Entry("properties", Obj(fields)) in entries
    ensures Entry("properties", Obj(ReduceFields(fields))) in Reduce(Obj(entries)).entries
    ensures |ReduceFields(fields)| == |fields|
    ensures forall i | 0 <= i < |fields| ::
              ReduceFields(fields)[i].key == fields[i].key && ReduceFields(fields)[i].value == Reduce(fields[i].value)
  {
    ReducedFields(fields);
    var e := Entry("properties", Obj(fields));
    assert !Dropped(e, Formatted(entries));
    ReducedMembers(entries, Formatted(entries), ReduceEntry(e));
  }
}
