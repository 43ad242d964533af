/** What a schema means, after section 6 of JSON Schema Validation 2020-12 and section 10 of JSON Schema Core 2020-12,
    and that reducing it only weakens it. Keywords that are not named here are annotations. */
module SchemaMeaning {
  import opened ProviderSchema

  /** Regular expressions and formats are decided elsewhere. */
  datatype Checks = Checks(matches: (string, string) -> bool, conforms: (string, string) -> bool)

  predicate HasKind(v: Json, kind: string) {
    match v
    case Null => kind == "null"
    case Bool(_) => kind == "boolean"
    case Num(n) => kind == "number" || (kind == "integer" && n == n.Floor as real)
    case Str(_) => kind == "string"
    case Arr(_) => kind == "array"
    case Obj(_) => kind == "object"
  }

  predicate Scalar(v: Json) { !v.Arr? && !v.Obj? }

  predicate HasKey(v: Json, name: string)
    requires v.Obj?
  {
    exists m <- v.entries :: m.key == name
  }

  predicate Multiple(n: real, unit: real) { unit > 0.0 ==> n / unit == (n / unit).Floor as real }

  /** Keywords about the value itself. */
  ghost predicate Asserts(c: Checks, key: string, k: Json, v: Json) {
    if key == "type" then (k.Str? ==> HasKind(v, k.t)) && (k.Arr? ==> exists x <- k.items :: x.Str? && HasKind(v, x.t))
    else if key == "enum" then k.Arr? ==> v in k.items
    else if key == "const" then v == k
    else if key == "required" then v.Obj? && k.Arr? ==> forall x <- k.items | x.Str? :: HasKey(v, x.t)
    else if key == "minimum" then v.Num? && k.Num? ==> v.n >= k.n
    else if key == "maximum" then v.Num? && k.Num? ==> v.n <= k.n
    else if key == "exclusiveMinimum" then v.Num? && k.Num? ==> v.n > k.n
    else if key == "exclusiveMaximum" then v.Num? && k.Num? ==> v.n < k.n
    else if key == "multipleOf" then v.Num? && k.Num? ==> Multiple(v.n, k.n)
    else if key == "minLength" then v.Str? && k.Num? ==> |v.t| as real >= k.n
    else if key == "maxLength" then v.Str? && k.Num? ==> |v.t| as real <= k.n
    else if key == "minItems" then v.Arr? && k.Num? ==> |v.items| as real >= k.n
    else if key == "maxItems" then v.Arr? && k.Num? ==> |v.items| as real <= k.n
    else if key == "minProperties" then v.Obj? && k.Num? ==> |v.entries| as real >= k.n
    else if key == "maxProperties" then v.Obj? && k.Num? ==> |v.entries| as real <= k.n
    else if key == "pattern" then v.Str? && k.Str? ==> c.matches(k.t, v.t)
    else if key == "format" then v.Str? && k.Str? ==> c.conforms(k.t, v.t)
    else true
  }

  predicate Applicator(key: string) {
    key == "properties" || key == "additionalProperties" || key == "items" || key == "anyOf" || key == "not"
  }

  /** A field some `properties` of the object names. */
  ghost predicate Declared(entries: seq<Entry>, name: string) {
    exists e <- entries :: e.key == "properties" && e.value.Obj? && HasKey(e.value, name)
  }

  ghost predicate Valid(c: Checks, schema: Json, v: Json)
    decreases schema
  {
    match schema
    case Bool(b) => b
    case Obj(entries) => forall e <- entries :: Holds(c, e, entries, v)
    case _ => false
  }

  /** One keyword of a schema with the given entries. */
  ghost predicate Holds(c: Checks, e: Entry, siblings: seq<Entry>, v: Json)
    decreases e
  {
    if e.key == "properties" then
      v.Obj? && e.value.Obj? ==>
        forall f <- e.value.entries, m <- v.entries | f.key == m.key :: Valid(c, f.value, m.value)
    else if e.key == "additionalProperties" then
      v.Obj? ==> forall m <- v.entries | !Declared(siblings, m.key) :: Valid(c, e.value, m.value)
    else if e.key == "items" then
      v.Arr? ==> forall x <- v.items :: Valid(c, e.value, x)
    else if e.key == "anyOf" then
      e.value.Arr? ==> exists s <- e.value.items :: Valid(c, s, v)
    else if e.key == "not" then
      !Valid(c, e.value, v)
    else
      Asserts(c, e.key, e.value, v)
  }

  /** Schemas the reduction moves one way only: `up`, it accepts no less than before; otherwise, no more. A `not`
      turns the way round; downwards nothing may be dropped; fixed values must be left alone. What the reduction
      leaves alone moves neither way, whatever it is. */
  ghost predicate Fragment(up: bool, schema: Json)
    decreases schema
  {
    || Supported(schema)
    || match schema
       case Bool(_) => true
       case Obj(entries) => forall e <- entries :: (up || !Dropped(e, Formatted(entries))) && FragmentEntry(up, e)
       case _ => false
  }

  ghost predicate FragmentEntry(up: bool, e: Entry)
    decreases e
  {
    if e.key == "properties" then e.value.Obj? ==> forall f <- e.value.entries :: Fragment(up, f.value)
    else if e.key == "additionalProperties" || e.key == "items" then Fragment(up, e.value)
    else if e.key == "anyOf" then e.value.Arr? ==> forall s <- e.value.items :: Fragment(up, s)
    else if e.key == "not" then Fragment(!up, e.value)
    else if e.key == "const" then Supported(e.value)
    else e.key == "enum" ==> e.value.Arr? ==> forall x <- e.value.items :: Supported(x)
  }

  // ----- Weakening

  lemma ReducedItems(items: seq<Json>)
    ensures |Reduce(Arr(items)).items| == |items| && forall i | 0 <= i < |items| ::
              Reduce(Arr(items)).items[i] == Reduce(items[i])
  {
  }

  lemma SupportedItemsStay(items: seq<Json>)
    requires forall x <- items :: Supported(x)
    ensures Reduce(Arr(items)) == Arr(items)
  {
    assert Supported(Arr(items));
    SupportedIsFixed(Arr(items));
  }

  lemma SameNames(items: seq<Json>, x: Json)
    requires x.Str?
    ensures x in Reduce(Arr(items)).items <==> x in items
  {
    var left := Reduce(Arr(items)).items;
    ReducedItems(items);
    forall i | 0 <= i < |items| ensures left[i] == x <==> items[i] == x { ReduceKeepsKind(items[i]); }
    if x in items {
      var i :| 0 <= i < |items| && items[i] == x;
      assert left[i] == x;
    }
  }

  /** A keyword about the value itself means the same after the reduction. */
  lemma AssertsTheSame(c: Checks, up: bool, e: Entry, v: Json)
    requires FragmentEntry(up, e) && !Applicator(e.key)
    ensures Asserts(c, e.key, Reduce(e.value), v) <==> Asserts(c, e.key, e.value, v)
  {
    if e.key == "const" {
      SupportedIsFixed(e.value);
    } else if Scalar(e.value) {
      assert Reduce(e.value) == e.value;
    } else {
      ReduceKeepsKind(e.value);
      if e.value.Arr? {
        if e.key == "enum" { SupportedItemsStay(e.value.items); }
        else { NamesTheSame(c, e.key, e.value.items, v); }
      }
    }
  }

  lemma NamesTheSame(c: Checks, key: string, items: seq<Json>, v: Json)
    requires key != "enum" && key != "const"
    ensures Asserts(c, key, Reduce(Arr(items)), v) <==> Asserts(c, key, Arr(items), v)
  {
    forall x: Json | x.Str? ensures x in Reduce(Arr(items)).items <==> x in items { SameNames(items, x); }
  }

  /** The reduced schema declares the same fields. */
  lemma DeclaresTheSame(entries: seq<Entry>, formatted: bool, name: string)
    ensures Declared(ReduceEntries(entries, formatted), name) <==> Declared(entries, name)
  {
    if Declared(entries, name) {
      var e :| e in entries && e.key == "properties" && e.value.Obj? && HasKey(e.value, name);
      ReducedMembers(entries, formatted, ReduceEntry(e));
      FieldsHaveTheSameKeys(e.value.entries, name);
    }
    if Declared(ReduceEntries(entries, formatted), name) {
      var x :| x in ReduceEntries(entries, formatted) && x.key == "properties" && x.value.Obj? && HasKey(x.value, name);
      var e := LeftFrom(entries, formatted, x);
      ReduceKeepsKind(e.value);
      FieldsHaveTheSameKeys(e.value.entries, name);
    }
  }

  lemma FieldsHaveTheSameKeys(fields: seq<Entry>, name: string)
    ensures HasKey(Obj(ReduceFields(fields)), name) <==> HasKey(Obj(fields), name)
  {
    ReducedFields(fields);
    if HasKey(Obj(fields), name) {
      var i :| 0 <= i < |fields| && fields[i].key == name;
      assert ReduceFields(fields)[i].key == name;
    }
  }

  /** What is known before implies what is known after; downwards the other way round. */
  predicate Moves(up: bool, before: bool, after: bool) { if up then before ==> after else after ==> before }

  lemma {:induction false} ReducingMoves(c: Checks, up: bool, schema: Json, v: Json)
    requires Fragment(up, schema)
    ensures Moves(up, Valid(c, schema, v), Valid(c, Reduce(schema), v))
    decreases schema
  {
    if Supported(schema) {
      SupportedIsFixed(schema);
    } else if schema.Obj? {
      var entries := schema.entries;
      var left := ReduceEntries(entries, Formatted(entries));
      forall name ensures Declared(left, name) <==> Declared(entries, name) {
        DeclaresTheSame(entries, Formatted(entries), name);
      }
      forall i | 0 <= i < |entries|
        ensures Moves(up, Holds(c, entries[i], entries, v), Holds(c, ReduceEntry(entries[i]), left, v))
      {
        KeywordMoves(c, up, entries[i], entries, left, v);
      }
      EntriesMove(c, up, entries, v);
    }
  }

  lemma EntriesMove(c: Checks, up: bool, entries: seq<Entry>, v: Json)
    requires forall e <- entries :: up || !Dropped(e, Formatted(entries))
    requires forall e <- entries ::
               Moves(up, Holds(c, e, entries, v),
                   Holds(c, ReduceEntry(e), ReduceEntries(entries, Formatted(entries)), v))
    ensures Moves(up, Valid(c, Obj(entries), v), Valid(c, Reduce(Obj(entries)), v))
  {
    var left := ReduceEntries(entries, Formatted(entries));
    if up && Valid(c, Obj(entries), v) {
      forall x <- left ensures Holds(c, x, left, v) { var e := LeftFrom(entries, Formatted(entries), x); }
    } else if !up && Valid(c, Reduce(Obj(entries)), v) {
      forall e <- entries ensures Holds(c, e, entries, v) {
        ReducedMembers(entries, Formatted(entries), ReduceEntry(e));
      }
    }
  }

  lemma {:induction false} KeywordMoves(c: Checks, up: bool, e: Entry, siblings: seq<Entry>, left: seq<Entry>, v: Json)
    requires FragmentEntry(up, e)
    requires forall name :: Declared(left, name) <==> Declared(siblings, name)
    ensures Moves(up, Holds(c, e, siblings, v), Holds(c, ReduceEntry(e), left, v))
    decreases e
  {
    if e.key == "properties" {
      ReduceKeepsKind(e.value);
      if e.value.Obj? && v.Obj? { FieldsMove(c, up, e.value.entries, v); }
    } else if e.key == "additionalProperties" {
      if v.Obj? {
        forall m <- v.entries ensures Moves(up, Valid(c, e.value, m.value), Valid(c, Reduce(e.value), m.value)) {
          ReducingMoves(c, up, e.value, m.value);
        }
      }
    } else if e.key == "items" {
      if v.Arr? {
        forall x <- v.items ensures Moves(up, Valid(c, e.value, x), Valid(c, Reduce(e.value), x)) {
          ReducingMoves(c, up, e.value, x);
        }
      }
    } else if e.key == "anyOf" {
      ReduceKeepsKind(e.value);
      if e.value.Arr? { ChoiceMoves(c, up, e.value.items, v); }
    } else if e.key == "not" {
      ReducingMoves(c, !up, e.value, v);
    } else {
      AssertsTheSame(c, up, e, v);
    }
  }

  ghost predicate FieldsValid(c: Checks, fields: seq<Entry>, v: Json)
    requires v.Obj?
  {
    forall f <- fields, m <- v.entries | f.key == m.key :: Valid(c, f.value, m.value)
  }

  lemma {:induction false} FieldsMove(c: Checks, up: bool, fields: seq<Entry>, v: Json)
    requires v.Obj? && forall f <- fields :: Fragment(up, f.value)
    ensures Moves(up, FieldsValid(c, fields, v), FieldsValid(c, ReduceFields(fields), v))
    decreases fields
  {
    var left := ReduceFields(fields);
    ReducedFields(fields);
    forall i, j | 0 <= i < |fields| && 0 <= j < |v.entries|
      ensures Moves(up, Valid(c, fields[i].value, v.entries[j].value), Valid(c, left[i].value, v.entries[j].value))
    {
      ReducingMoves(c, up, fields[i].value, v.entries[j].value);
    }
    FieldByField(c, up, fields, left, v);
  }

  lemma FieldByField(c: Checks, up: bool, fields: seq<Entry>, left: seq<Entry>, v: Json)
    requires v.Obj? && |fields| == |left| && forall i | 0 <= i < |fields| :: left[i].key == fields[i].key
    requires forall i, j | 0 <= i < |fields| && 0 <= j < |v.entries| ::
               Moves(up, Valid(c, fields[i].value, v.entries[j].value), Valid(c, left[i].value, v.entries[j].value))
    ensures Moves(up, FieldsValid(c, fields, v), FieldsValid(c, left, v))
  {
    if up && FieldsValid(c, fields, v) {
      forall i, j | 0 <= i < |left| && 0 <= j < |v.entries| && left[i].key == v.entries[j].key
        ensures Valid(c, left[i].value, v.entries[j].value)
      {
        assert fields[i] in fields && v.entries[j] in v.entries;
      }
    } else if !up && FieldsValid(c, left, v) {
      forall i, j | 0 <= i < |fields| && 0 <= j < |v.entries| && fields[i].key == v.entries[j].key
        ensures Valid(c, fields[i].value, v.entries[j].value)
      {
        assert left[i] in left && v.entries[j] in v.entries;
      }
    }
  }

  ghost predicate SomeValid(c: Checks, schemas: seq<Json>, v: Json) { exists s <- schemas :: Valid(c, s, v) }

  lemma {:induction false} ChoiceMoves(c: Checks, up: bool, schemas: seq<Json>, v: Json)
    requires forall s <- schemas :: Fragment(up, s)
    ensures Moves(up, SomeValid(c, schemas, v), SomeValid(c, Reduce(Arr(schemas)).items, v))
    decreases schemas
  {
    var left := Reduce(Arr(schemas)).items;
    ReducedItems(schemas);
    if up && SomeValid(c, schemas, v) {
      var i :| 0 <= i < |schemas| && Valid(c, schemas[i], v);
      ReducingMoves(c, up, schemas[i], v);
      assert left[i] in left;
    } else if !up && SomeValid(c, left, v) {
      var i :| 0 <= i < |left| && Valid(c, left[i], v);
      ReducingMoves(c, up, schemas[i], v);
    }
  }

  /** Every value valid for a schema of the fragment is valid for the reduced schema. */
  lemma ReducingWeakens(c: Checks, schema: Json, v: Json)
    requires Fragment(true, schema) && Valid(c, schema, v)
    ensures Valid(c, Reduce(schema), v)
  {
    ReducingMoves(c, true, schema, v);
  }

  /** On the downward fragment it only strengthens, so a `not` over it is weakened. */
  lemma ReducingStrengthens(c: Checks, schema: Json, v: Json)
    requires Fragment(false, schema) && Valid(c, Reduce(schema), v)
    ensures Valid(c, schema, v)
  {
    ReducingMoves(c, false, schema, v);
  }

  /** The reduced schema accepts no less than the original. */
  ghost predicate Weakened(c: Checks, schema: Json) { forall v :: Valid(c, schema, v) ==> Valid(c, Reduce(schema), v) }

  // ----- Exactly when single keywords are weakened

  lemma OneKeyword(c: Checks, e: Entry, v: Json)
    ensures Valid(c, Obj([e]), v) <==> Holds(c, e, [e], v)
    ensures Reduce(Obj([e])) == Obj(if Dropped(e, IsFormat(e)) then [] else [ReduceEntry(e)])
  {
    assert [e][0] == e && Formatted([e]) == IsFormat(e);
    assert ReduceEntries([e], IsFormat(e)) == (if Dropped(e, IsFormat(e)) then [] else [ReduceEntry(e)])
        + ReduceEntries([e][1..], IsFormat(e));
  }

  function Negated(schema: Json): Json { Obj([Entry("not", schema)]) }

  /** Under `not` a weaker schema is a stronger one. */
  lemma NotReverses(c: Checks, schema: Json, v: Json)
    ensures Valid(c, Negated(schema), v) <==> !Valid(c, schema, v)
    ensures Valid(c, Reduce(Negated(schema)), v) <==> !Valid(c, Reduce(schema), v)
  {
    var e := Entry("not", schema);
    OneKeyword(c, e, v);
    assert ReduceEntry(e) == Entry("not", Reduce(schema));
    ShortKeywordIsKept(e);
    OneKeyword(c, ReduceEntry(e), v);
  }

  /** Every keyword that is dropped has more than five letters. */
  lemma ShortKeywordIsKept(e: Entry)
    requires |e.key| <= 5
    ensures !Dropped(e, false)
  {
    var ks := UNSUPPORTED_KEYWORDS;
    assert |ks| == 10;
    assert |ks[0]| > 5 && |ks[1]| > 5 && |ks[2]| > 5 && |ks[3]| > 5 && |ks[4]| > 5;
    assert |ks[5]| > 5 && |ks[6]| > 5 && |ks[7]| > 5 && |ks[8]| > 5 && |ks[9]| > 5;
  }

  /** The reduced schema accepts no more than the original. */
  ghost predicate Strengthened(c: Checks, schema: Json) {
    forall v :: Valid(c, Reduce(schema), v) ==> Valid(c, schema, v)
  }

  /** A `not` is weakened exactly when the schema under it gained no value. */
  lemma NotWeakenedExactlyWhen(c: Checks, schema: Json)
    ensures Weakened(c, Negated(schema)) <==> Strengthened(c, schema)
  {
    if Weakened(c, Negated(schema)) {
      forall v | Valid(c, Reduce(schema), v) ensures Valid(c, schema, v) { NotReverses(c, schema, v); }
    }
    if Strengthened(c, schema) {
      forall v | Valid(c, Negated(schema), v) ensures Valid(c, Reduce(Negated(schema)), v) {
        NotReverses(c, schema, v);
      }
    }
  }

  const AT_LEAST_ONE: Json := Obj([Entry("minLength", Num(1.0))])

  lemma AtLeastOneGoes(c: Checks)
    ensures Reduce(AT_LEAST_ONE) == Obj([]) && !Valid(c, AT_LEAST_ONE, Str("")) && Valid(c, Obj([]), Str(""))
  {
    var length := Entry("minLength", Num(1.0));
    OneKeyword(c, length, Str(""));
    assert UNSUPPORTED_KEYWORDS[0] == length.key;
  }

  lemma NotMayStrengthen(c: Checks)
    ensures Valid(c, Negated(AT_LEAST_ONE), Str("")) && !Valid(c, Reduce(Negated(AT_LEAST_ONE)), Str(""))
  {
    AtLeastOneGoes(c);
    NotReverses(c, AT_LEAST_ONE, Str(""));
  }

  /** A fixed value means equality, with what the reduction makes of it. */
  lemma ConstMeaning(c: Checks, value: Json, v: Json)
    ensures Valid(c, Obj([Entry("const", value)]), v) <==> v == value
    ensures Valid(c, Reduce(Obj([Entry("const", value)])), v) <==> v == Reduce(value)
  {
    var e := Entry("const", value);
    OneKeyword(c, e, v);
    ShortKeywordIsKept(e);
    assert ReduceEntry(e) == Entry("const", Reduce(value));
    OneKeyword(c, ReduceEntry(e), v);
  }

  /** A fixed value is weakened exactly when the reduction leaves it alone, so when it is supported. */
  lemma ConstWeakenedExactlyWhen(c: Checks, value: Json)
    ensures Weakened(c, Obj([Entry("const", value)])) <==> Reduce(value) == value
    ensures Reduce(value) == value <==> Supported(value)
  {
    var schema := Obj([Entry("const", value)]);
    FixedIffSupported(value);
    forall v ensures (Valid(c, schema, v) <==> v == value) && (Valid(c, Reduce(schema), v) <==> v == Reduce(value)) {
      ConstMeaning(c, value, v);
    }
    if Weakened(c, schema) { assert Valid(c, schema, value); }
  }

  lemma EnumMeaning(c: Checks, values: seq<Json>, v: Json)
    ensures Valid(c, Obj([Entry("enum", Arr(values))]), v) <==> v in values
    ensures Valid(c, Reduce(Obj([Entry("enum", Arr(values))])), v) <==> v in Reduce(Arr(values)).items
  {
    var e := Entry("enum", Arr(values));
    OneKeyword(c, e, v);
    ShortKeywordIsKept(e);
    assert ReduceEntry(e) == Entry("enum", Reduce(Arr(values)));
    OneKeyword(c, ReduceEntry(e), v);
  }

  /** Fixed values are weakened exactly when every one of them is supported. */
  lemma EnumWeakenedExactlyWhen(c: Checks, values: seq<Json>)
    ensures Weakened(c, Obj([Entry("enum", Arr(values))])) <==> forall x <- values :: Supported(x)
  {
    var schema, left := Obj([Entry("enum", Arr(values))]), Reduce(Arr(values)).items;
    forall v ensures (Valid(c, schema, v) <==> v in values) && (Valid(c, Reduce(schema), v) <==> v in left) {
      EnumMeaning(c, values, v);
    }
    if forall x <- values :: Supported(x) { SupportedItemsStay(values); }
    if Weakened(c, schema) {
      forall x <- values ensures Supported(x) {
        assert Valid(c, schema, x);
        ReducedItems(values);
        var i :| 0 <= i < |left| && left[i] == x;
        ReducedIsSupported(values[i]);
      }
    }
  }

  /** A fixed object value loses the entries that look like keywords. */
  lemma ObjectConstMayChange(c: Checks)
    ensures var schema := Obj([Entry("const", AT_LEAST_ONE)]);
            Valid(c, schema, AT_LEAST_ONE) && !Valid(c, Reduce(schema), AT_LEAST_ONE)
  {
    AtLeastOneGoes(c);
    ConstMeaning(c, AT_LEAST_ONE, AT_LEAST_ONE);
  }
}
