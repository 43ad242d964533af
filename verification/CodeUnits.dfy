/** Text as the runtime sees it: sequences of UTF-16 code units, compared unit by unit. */
module CodeUnits {
  type CodeUnit = x: int | 0 <= x < 0x1_0000 witness 0
  type Text = seq<CodeUnit>

  /** The code units of a text in the Basic Multilingual Plane, as every literal here is; others are replaced. */
  function Units(s: string): (t: Text)
    ensures |t| == |s| && forall i | 0 <= i < |s| :: t[i] == if s[i] as int < 0x1_0000 then s[i] as int else 0xfffd
  {
    seq(|s|, i requires 0 <= i < |s| => if s[i] as int < 0x1_0000 then s[i] as int else 0xfffd)
  }

  predicate HighSurrogate(u: CodeUnit) { 0xd800 <= u <= 0xdbff }

  predicate LowSurrogate(u: CodeUnit) { 0xdc00 <= u <= 0xdfff }

  /** Well-formed UTF-16: surrogates come in pairs, high then low. */
  predicate WellFormed(t: Text) {
    && (forall i | 0 <= i < |t| && HighSurrogate(t[i]) :: i + 1 < |t| && LowSurrogate(t[i + 1]))
    && (forall i | 0 <= i < |t| && LowSurrogate(t[i]) :: i > 0 && HighSurrogate(t[i - 1]))
  }

  /** `a < b` on strings. */
  predicate Less(a: Text, b: Text) {
    b != [] && (a == [] || a[0] < b[0] || (a[0] == b[0] && Less(a[1..], b[1..])))
  }

  lemma {:induction false} LessTotal(a: Text, b: Text)
    ensures a == b || Less(a, b) || Less(b, a)
    ensures !(Less(a, b) && Less(b, a)) && !Less(a, a)
  {
    if a != [] && b != [] {
      LessTotal(a[1..], b[1..]);
      if a[0] == b[0] && a[1..] == b[1..] {
        assert a == [a[0]] + a[1..] && b == [b[0]] + b[1..];
      }
    }
    if a != [] && a != b { LessTotal(a[1..], a[1..]); }
  }

  lemma {:induction false} LessTransitive(a: Text, b: Text, c: Text)
    requires Less(a, b) && Less(b, c)
    ensures Less(a, c)
  {
    if a != [] && a[0] == b[0] == c[0] { LessTransitive(a[1..], b[1..], c[1..]); }
  }

  /** The texts agree before `k`, and there `a` ends or has the smaller unit. */
  ghost predicate AscendsAt(a: Text, b: Text, k: nat) {
    k <= |a| && k < |b| && a[..k] == b[..k] && (k == |a| || a[k] < b[k])
  }

  /** By index: at the first place where they differ `a` has the smaller unit, or it is a proper beginning of `b`. */
  ghost predicate Ascends(a: Text, b: Text) { exists k: nat :: AscendsAt(a, b, k) }

  lemma AscendsBehind(a: Text, b: Text, k: nat)
    requires a != [] && b != [] && a[0] == b[0]
    ensures AscendsAt(a, b, k + 1) <==> AscendsAt(a[1..], b[1..], k)
  {
    if k + 1 <= |a| && k + 1 < |b| {
      assert a[..k + 1] == [a[0]] + a[1..][..k] && b[..k + 1] == [b[0]] + b[1..][..k];
    }
  }

  /** The recursive comparison is the one by index. */
  lemma {:induction false} LessMeaning(a: Text, b: Text)
    ensures Less(a, b) <==> Ascends(a, b)
  {
    if a == [] || b == [] || a[0] != b[0] {
      if Less(a, b) { assert AscendsAt(a, b, 0); }
      forall k: nat | AscendsAt(a, b, k) ensures Less(a, b) {
        if k > 0 { assert a[..k][0] == b[..k][0]; }
      }
    } else {
      LessMeaning(a[1..], b[1..]);
      if k: nat :| AscendsAt(a[1..], b[1..], k) { AscendsBehind(a, b, k); assert AscendsAt(a, b, k + 1); }
      if k: nat :| AscendsAt(a, b, k) {
        assert k > 0;
        AscendsBehind(a, b, k - 1);
      }
    }
  }
}

/** Stable sorting by a strict order, as `Array.prototype.sort` with a comparator does it. */
module Sorting {
  function Insert<T>(x: T, s: seq<T>, less: (T, T) -> bool): seq<T> {
    if s == [] || !less(s[0], x) then [x] + s else [s[0]] + Insert(x, s[1..], less)
  }

  function Sort<T>(s: seq<T>, less: (T, T) -> bool): seq<T> {
    if s == [] then [] else Insert(s[0], Sort(s[1..], less), less)
  }

  /** A strict weak order: asymmetric, and not being smaller is transitive. */
  ghost predicate StrictWeak<T(!new)>(less: (T, T) -> bool) {
    && (forall x, y :: less(x, y) ==> !less(y, x))
    && (forall x, y, z :: !less(x, y) && !less(y, z) ==> !less(x, z))
  }

  ghost predicate Sorted<T>(s: seq<T>, less: (T, T) -> bool) {
    forall i, j | 0 <= i < j < |s| :: !less(s[j], s[i])
  }

  ghost predicate StrictlySorted<T>(s: seq<T>, less: (T, T) -> bool) {
    forall i, j | 0 <= i < j < |s| :: less(s[i], s[j])
  }

  lemma {:induction false} InsertPermutes<T>(x: T, s: seq<T>, less: (T, T) -> bool)
    ensures multiset(Insert(x, s, less)) == multiset(s) + multiset{x}
  {
    if s != [] && less(s[0], x) {
      InsertPermutes(x, s[1..], less);
      assert s == [s[0]] + s[1..];
    }
  }

  lemma {:induction false} InsertSorts<T(!new)>(x: T, s: seq<T>, less: (T, T) -> bool)
    requires StrictWeak(less) && Sorted(s, less)
    ensures Sorted(Insert(x, s, less), less)
  {
    if s != [] && less(s[0], x) {
      var r := Insert(x, s[1..], less);
      InsertSorts(x, s[1..], less);
      InsertPermutes(x, s[1..], less);
      forall k | 0 <= k < |r| ensures !less(r[k], s[0]) {
        assert r[k] in multiset(r);
        assert r[k] == x || r[k] in s[1..];
      }
    }
  }

  /** Sorting permutes, and orders. */
  lemma {:induction false} SortFacts<T(!new)>(s: seq<T>, less: (T, T) -> bool)
    ensures multiset(Sort(s, less)) == multiset(s)
    ensures StrictWeak(less) ==> Sorted(Sort(s, less), less)
  {
    if s != [] {
      SortFacts(s[1..], less);
      InsertPermutes(s[0], Sort(s[1..], less), less);
      if StrictWeak(less) { InsertSorts(s[0], Sort(s[1..], less), less); }
      assert s == [s[0]] + s[1..];
    }
  }

  lemma SortMembers<T(!new)>(s: seq<T>, less: (T, T) -> bool, x: T)
    ensures x in Sort(s, less) <==> x in s
  {
    SortFacts(s, less);
    assert x in Sort(s, less) <==> x in multiset(Sort(s, less));
  }

  lemma HasMember<T>(a: seq<T>, b: seq<T>)
    requires a != [] && forall x <- a :: x in b
    ensures b != []
  {
    assert a[0] in b;
  }

  /** Strictly sorted sequences with the same elements are the same sequence. */
  lemma {:induction false} StrictUnique<T>(a: seq<T>, b: seq<T>, less: (T, T) -> bool)
    requires StrictlySorted(a, less) && StrictlySorted(b, less)
    requires forall x <- a + b :: !less(x, x)
    requires forall x <- a + b, y <- a + b :: !(less(x, y) && less(y, x))
    requires forall x <- a :: x in b
    requires forall x <- b :: x in a
    ensures a == b
  {
    if a != [] { HasMember(a, b); }
    if b != [] { HasMember(b, a); }
    if a != [] {
      assert a[0] in b;
      assert b[0] in a;
      assert a[0] in a + b && b[0] in a + b;
      assert a[0] == b[0];
      forall x <- a[1..] ensures x in b[1..] {
        assert x in a + b && less(a[0], x) && x != b[0];
        assert b == [b[0]] + b[1..];
      }
      forall x <- b[1..] ensures x in a[1..] {
        assert x in a + b && less(b[0], x) && x != a[0];
        assert a == [a[0]] + a[1..];
      }
      assert forall x <- a[1..] + b[1..] :: x in a + b;
      StrictUnique(a[1..], b[1..], less);
    }
  }
}
