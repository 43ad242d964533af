/** Which keywords a reduced schema is free of, keyword by keyword. */
module ProviderKeywords {
  import opened ProviderSchema

  // ----- Patterns, by position

  predicate DigitsAt(t: string, from: nat, to: nat) {
    from <= to <= |t| && forall k | from <= k < to :: '0' <= t[k] <= '9'
  }

  /** `(?=`, `(?!` or `(?<` begins at `i`. */
  predicate LookaroundAt(t: string, i: nat) {
    i + 2 < |t| && t[i] == '(' && t[i + 1] == '?' && t[i + 2] in {'=', '!', '<'}
  }

  /** `{m,n}` or `{m,}` begins at `i`, its comma at `c` and its end at `z`. */
  predicate RangeSpelled(t: string, i: nat, c: nat, z: nat) {
    && i + 1 < c < z < |t| && t[i] == '{' && t[c] == ',' && t[z] == '}'
    && DigitsAt(t, i + 1, c) && DigitsAt(t, c + 1, z)
  }

  ghost predicate RangeAt(t: string, i: nat) { exists c: nat, z: nat :: RangeSpelled(t, i, c, z) }

  /** Somewhere in the pattern a lookaround or a range quantifier begins. */
  ghost predicate Unsupported(t: string) { exists i: nat :: LookaroundAt(t, i) || RangeAt(t, i) }

  /** The digits counted are digits, and no digit follows. */
  lemma {:induction false} LeadingMeaning(t: string, from: nat)
    requires from <= |t|
    ensures var to := from + LeadingDigits(t[from..]);
            DigitsAt(t, from, to) && (to < |t| ==> !('0' <= t[to] <= '9'))
    decreases |t| - from
  {
    if from < |t| && '0' <= t[from] <= '9' {
      LeadingMeaning(t, from + 1);
      assert t[from..][1..] == t[from + 1..];
    }
  }

  /** A run of digits that ends in something else is the one counted. */
  lemma LeadingIs(t: string, from: nat, to: nat)
    requires to < |t| && DigitsAt(t, from, to) && !('0' <= t[to] <= '9')
    ensures LeadingDigits(t[from..]) == to - from
  {
    LeadingMeaning(t, from);
  }

  /** Where the comma and the end of a quantifier beginning at `i` would be. */
  function CommaOf(t: string, i: nat): nat
    requires i < |t|
  {
    i + 1 + LeadingDigits(t[i + 1..])
  }

  lemma CommaMeaning(t: string, i: nat)
    requires i < |t|
    ensures DigitsAt(t, i + 1, CommaOf(t, i))
  {
    LeadingMeaning(t, i + 1);
  }

  predicate RangePlaced(t: string, i: nat)
    requires i < |t|
  {
    var c := CommaOf(t, i);
    t[i] == '{' && i + 1 < c < |t| && t[c] == ',' && CommaOf(t, c) < |t| && t[CommaOf(t, c)] == '}'
  }

  lemma RangeByPlace(t: string, i: nat)
    requires i < |t|
    ensures RangeQuantifier(t[i..]) <==> RangePlaced(t, i)
  {
    var s, c := t[i..], CommaOf(t, i);
    var m := LeadingDigits(s[1..]);
    assert s[1..] == t[i + 1..] && c == i + 1 + m;
    if c < |t| {
      assert s[2 + m..] == t[c + 1..];
      assert s[1 + m] == t[c];
      var z := CommaOf(t, c);
      if z < |t| { assert s[z - i] == t[z]; }
    }
  }

  lemma PlacedIsSpelled(t: string, i: nat)
    requires i < |t| && RangePlaced(t, i)
    ensures RangeAt(t, i)
  {
    var c := CommaOf(t, i);
    CommaMeaning(t, i);
    CommaMeaning(t, c);
    assert RangeSpelled(t, i, c, CommaOf(t, c));
  }

  lemma SpelledIsPlaced(t: string, i: nat, c: nat, z: nat)
    requires RangeSpelled(t, i, c, z)
    ensures RangePlaced(t, i)
  {
    CommaIs(t, i, c);
    CommaIs(t, c, z);
  }

  lemma CommaIs(t: string, i: nat, c: nat)
    requires i < c < |t| && DigitsAt(t, i + 1, c) && !('0' <= t[c] <= '9')
    ensures CommaOf(t, i) == c
  {
    LeadingIs(t, i + 1, c);
  }

  lemma RangeMeaning(t: string, i: nat)
    requires i < |t|
    ensures RangeQuantifier(t[i..]) <==> RangeAt(t, i)
  {
    RangeByPlace(t, i);
    if RangePlaced(t, i) { PlacedIsSpelled(t, i); }
    if c: nat, z: nat :| RangeSpelled(t, i, c, z) { SpelledIsPlaced(t, i, c, z); }
  }

  lemma {:induction false} UnsupportedFrom(t: string, i: nat)
    requires i <= |t|
    ensures UnsupportedPattern(t[i..]) <==> exists k: nat :: i <= k && (LookaroundAt(t, k) || RangeAt(t, k))
    decreases |t| - i
  {
    if i < |t| {
      UnsupportedFrom(t, i + 1);
      RangeMeaning(t, i);
      assert t[i..][1..] == t[i + 1..];
      assert Lookaround(t[i..]) <==> LookaroundAt(t, i);
    } else {
      assert forall k: nat | i <= k :: !LookaroundAt(t, k) && !RangeAt(t, k);
    }
  }

  /** A pattern is unsupported exactly when somewhere in it a lookaround or a range quantifier begins. */
  lemma PatternMeaning(t: string)
    ensures UnsupportedPattern(t) <==> Unsupported(t)
  {
    UnsupportedFrom(t, 0);
    assert t[0..] == t;
  }

  // ----- Entries

  /** The object names a format. */
  predicate NamesFormat(entries: seq<Entry>) {
    exists e <- entries :: e.key == "format" && e.value.Str? && e.value.t != ""
  }

  /** What providers reject in an object: each size and numeric keyword, more than one required item, a pattern beside a
      format or with a lookaround or range quantifier, and formats they do not know. */
  ghost predicate Rejected(e: Entry, entries: seq<Entry>) {
    match e.key
    case "minLength" => true
    case "maxLength" => true
    case "maxItems" => true
    case "minimum" => true
    case "maximum" => true
    case "exclusiveMinimum" => true
    case "exclusiveMaximum" => true
    case "multipleOf" => true
    case "minProperties" => true
    case "maxProperties" => true
    case "minItems" => e.value.Num? && e.value.n > 1.0
    case "pattern" => NamesFormat(entries) || (e.value.Str? && Unsupported(e.value.t))
    case "format" => e.value.Str? && e.value.t !in {"date-time", "date", "time", "uuid", "email"}
    case _ => false
  }

  lemma RejectedIsDropped(e: Entry, entries: seq<Entry>)
    ensures Rejected(e, entries) <==> Dropped(e, Formatted(entries))
  {
    assert NamesFormat(entries) <==> Formatted(entries);
    if e.value.Str? { PatternMeaning(e.value.t); }
  }

  /** The entries of a reduced object: exactly those not rejected, their values reduced, field names left alone. */
  lemma EntryStaysExactlyWhen(entries: seq<Entry>, x: Entry)
    ensures x in Reduce(Obj(entries)).entries <==>
              exists e <- entries :: !Rejected(e, entries) && x.key == e.key &&
                x.value == if e.key == "properties" && e.value.Obj? then Obj(ReduceFields(e.value.entries))
                           else Reduce(e.value)
  {
    ReducedMembers(entries, Formatted(entries), x);
    forall e <- entries ensures Rejected(e, entries) <==> Dropped(e, Formatted(entries)) {
      RejectedIsDropped(e, entries);
    }
  }

  // ----- Whole schemas

  /** No object in the schema has an entry that providers reject; the names under `properties` are not keywords. */
  ghost predicate Accepted(node: Json)
    decreases node
  {
    match node
    case Arr(items) => forall x <- items :: Accepted(x)
    case Obj(entries) => forall e <- entries :: !Rejected(e, entries) && AcceptedEntry(e)
    case _ => true
  }

  ghost predicate AcceptedEntry(e: Entry)
    decreases e
  {
    if e.key == "properties" && e.value.Obj? then forall f <- e.value.entries :: Accepted(f.value)
    else Accepted(e.value)
  }

  lemma {:induction false} AcceptedIsSupported(v: Json)
    ensures Accepted(v) <==> Supported(v)
    decreases v
  {
    match v
    case Arr(items) => forall x <- items ensures Accepted(x) <==> Supported(x) { AcceptedIsSupported(x); }
    case Obj(entries) =>
      forall e <- entries
        ensures Rejected(e, entries) <==> Dropped(e, Formatted(entries))
        ensures AcceptedEntry(e) <==> SupportedEntry(e) {
        RejectedIsDropped(e, entries);
        AcceptedEntryIsSupported(e);
      }
    case _ =>
  }

  lemma {:induction false} AcceptedEntryIsSupported(e: Entry)
    ensures AcceptedEntry(e) <==> SupportedEntry(e)
    decreases e
  {
    if e.key == "properties" && e.value.Obj? {
      forall f <- e.value.entries ensures Accepted(f.value) <==> Supported(f.value) { AcceptedIsSupported(f.value); }
    } else {
      AcceptedIsSupported(e.value);
    }
  }

  /** Every reduced schema is accepted, at every depth, and one is left unchanged exactly when it already was. */
  lemma ReducedIsAccepted(v: Json)
    ensures Accepted(Reduce(v))
    ensures Reduce(v) == v <==> Accepted(v)
  {
    ReducedIsSupported(v);
    AcceptedIsSupported(Reduce(v));
    AcceptedIsSupported(v);
    FixedIffSupported(v);
  }
}
