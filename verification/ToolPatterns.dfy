/** Tool patterns as sets of concrete tool names. */
module ToolPatterns {
  predicate IsSegment(s: string) {
    |s| > 0 && 'a' <= s[0] <= 'z' && forall c <- s :: 'a' <= c <= 'z' || '0' <= c <= '9' || c == '-'
  }

  function FirstDot(s: string): (d: nat)
    ensures d <= |s| && (d < |s| ==> s[d] == '.') && forall i | 0 <= i < d :: s[i] != '.'
  {
    if s == [] || s[0] == '.' then 0 else 1 + FirstDot(s[1..])
  }

  /** The dot-separated segments of a text. */
  function Split(s: string): (parts: seq<string>)
    ensures parts != []
    decreases |s|
  {
    var d := FirstDot(s);
    if d == |s| then [s] else [s[..d]] + Split(s[d + 1..])
  }

  function Join(parts: seq<string>): string
    requires parts != []
  {
    if |parts| == 1 then parts[0] else parts[0] + "." + Join(parts[1..])
  }

  /** A concrete tool action: at least two segments. */
  predicate IsToolName(s: string) {
    var parts := Split(s);
    |parts| >= 2 && forall p <- parts :: IsSegment(p)
  }

  /** A tool name, or a wildcard in the last segment only. */
  predicate IsToolPattern(s: string) {
    var parts := Split(s);
    && |parts| >= 2 && (forall i | 0 <= i < |parts| - 1 :: IsSegment(parts[i]))
    && (IsSegment(parts[|parts| - 1]) || parts[|parts| - 1] == "*")
  }

  /** What a pattern means: its segments, with a final wildcard standing for one or more further ones. */
  predicate Matches(pattern: string, name: string) {
    var ps, ns := Split(pattern), Split(name);
    if ps[|ps| - 1] == "*" then |ns| >= |ps| && ns[..|ps| - 1] == ps[..|ps| - 1] else ns == ps
  }

  predicate StartsWith(s: string, prefix: string) {
    |prefix| <= |s| && s[..|prefix|] == prefix
  }

  predicate IsWildcard(pattern: string) {
    |pattern| >= 2 && pattern[|pattern| - 2..] == ".*"
  }

  /** `toolPatternCovers`, on the texts. */
  predicate Covers(pattern: string, other: string) {
    if !IsWildcard(pattern) then pattern == other
    else other == pattern || StartsWith(other, pattern[..|pattern| - 1])
  }

  predicate Overlap(a: string, b: string) {
    Covers(a, b) || Covers(b, a)
  }

  // ----- Splitting and joining

  lemma FirstDotOfJoined(a: string, b: string)
    ensures FirstDot(a + "." + b) == FirstDot(a)
  {
    var s := a + "." + b;
    assert s[|a|] == '.';
    assert forall i | 0 <= i < |a| :: s[i] == a[i];
  }

  lemma {:induction false} SplitDot(a: string, b: string)
    ensures Split(a + "." + b) == Split(a) + Split(b)
    decreases |a|
  {
    var s := a + "." + b;
    var d := FirstDot(a);
    FirstDotOfJoined(a, b);
    assert s[..d] == a[..d];
    if d == |a| {
      assert a[..d] == a && s[d + 1..] == b;
    } else {
      assert s[d + 1..] == a[d + 1..] + "." + b;
      SplitDot(a[d + 1..], b);
    }
  }

  lemma JoinCons(part: string, parts: seq<string>)
    requires parts != []
    ensures Join([part] + parts) == part + "." + Join(parts)
  {
    assert ([part] + parts)[1..] == parts;
  }

  lemma {:induction false} JoinSplit(s: string)
    ensures Join(Split(s)) == s
    decreases |s|
  {
    var d := FirstDot(s);
    if d < |s| {
      JoinSplit(s[d + 1..]);
      assert Split(s) == [s[..d]] + Split(s[d + 1..]);
      JoinCons(s[..d], Split(s[d + 1..]));
      assert s == s[..d] + "." + s[d + 1..];
    }
  }

  lemma {:induction false} JoinConcat(a: seq<string>, b: seq<string>)
    requires a != [] && b != []
    ensures Join(a + b) == Join(a) + "." + Join(b)
  {
    if |a| == 1 {
      assert (a + b)[1..] == b;
    } else {
      JoinConcat(a[1..], b);
      assert (a + b)[1..] == a[1..] + b;
    }
  }

  lemma SplitInjective(a: string, b: string)
    requires Split(a) == Split(b)
    ensures a == b
  {
    JoinSplit(a);
    JoinSplit(b);
  }

  lemma SegmentAlone(s: string)
    requires IsSegment(s) || s == "*"
    ensures Split(s) == [s]
  {
    if IsSegment(s) { assert forall i | 0 <= i < |s| :: s[i] in s; }
  }

  lemma TwoSegments(a: string, b: string)
    requires IsSegment(a) && (IsSegment(b) || b == "*")
    ensures Split(a + "." + b) == [a, b] && IsToolPattern(a + "." + b)
  {
    SplitDot(a, b);
    SegmentAlone(a);
    SegmentAlone(b);
  }

  // ----- Wildcards by their prefix

  /** The text before a wildcard's dot. */
  function Stem(pattern: string): string
    requires IsWildcard(pattern)
  {
    pattern[..|pattern| - 2]
  }

  lemma OneSegment(c: char)
    requires c != '.'
    ensures Split([c]) == [[c]]
  {
    assert FirstDot([c]) == 1;
  }

  lemma WildcardText(p: string)
    requires IsWildcard(p)
    ensures p == Stem(p) + "." + "*" && p[..|p| - 1] == Stem(p) + "."
  {
    assert p[|p| - 2..][0] == '.' && p[|p| - 2..][1] == '*';
  }

  lemma WildcardSplit(p: string)
    requires IsWildcard(p)
    ensures Split(p) == Split(Stem(p)) + ["*"] && p == Stem(p) + "." + "*" && p[..|p| - 1] == Stem(p) + "."
  {
    WildcardText(p);
    SplitDot(Stem(p), "*");
    OneSegment('*');
  }

  lemma EndsInStar(init: seq<string>)
    requires init != []
    ensures IsWildcard(Join(init + ["*"]))
  {
    JoinConcat(init, ["*"]);
    var p := Join(init) + "." + "*";
    assert p[|p| - 2..] == ".*";
  }

  lemma StarIsWildcard(p: string, parts: seq<string>)
    requires parts == Split(p) && |parts| >= 2 && parts[|parts| - 1] == "*"
    ensures IsWildcard(p)
  {
    JoinSplit(p);
    assert parts == parts[..|parts| - 1] + ["*"];
    EndsInStar(parts[..|parts| - 1]);
  }

  /** For a pattern, ending in `.*` and ending in the wildcard segment are the same. */
  lemma WildcardByEnd(p: string)
    requires IsToolPattern(p)
    ensures IsWildcard(p) <==> Split(p)[|Split(p)| - 1] == "*"
  {
    if IsWildcard(p) { WildcardSplit(p); } else if Split(p)[|Split(p)| - 1] == "*" { StarIsWildcard(p, Split(p)); }
  }

  /** A wildcard matches exactly the names that begin with its stem and a dot. */
  lemma MatchesByPrefix(p: string, n: string)
    requires IsToolPattern(p) && IsWildcard(p)
    ensures Matches(p, n) <==> StartsWith(n, Stem(p) + ".")
  {
    WildcardSplit(p);
    var stem := Split(Stem(p));
    var ns := Split(n);
    assert Split(p)[..|Split(p)| - 1] == stem;
    if StartsWith(n, Stem(p) + ".") {
      var rest := n[|Stem(p)| + 1..];
      assert n == Stem(p) + "." + rest;
      SplitDot(Stem(p), rest);
    }
    if Matches(p, n) {
      var rest := ns[|stem|..];
      assert ns == stem + rest;
      JoinConcat(stem, rest);
      JoinSplit(n);
      JoinSplit(Stem(p));
      assert n[..|Stem(p)| + 1] == Stem(p) + ".";
    }
  }

  lemma MatchesExactly(p: string, n: string)
    requires IsToolPattern(p) && !IsWildcard(p)
    ensures Matches(p, n) <==> n == p
  {
    WildcardByEnd(p);
    if Matches(p, n) { SplitInjective(n, p); }
  }

  /** Names a pattern surely matches: itself, or its stem followed by a letter. */
  function Sample(p: string, letter: char): string {
    if IsWildcard(p) then Stem(p) + "." + [letter] else p
  }

  lemma SampleMatches(p: string, letter: char)
    requires IsToolPattern(p) && 'a' <= letter <= 'z'
    ensures IsToolName(Sample(p, letter)) && Matches(p, Sample(p, letter))
  {
    WildcardByEnd(p);
    if IsWildcard(p) {
      WildcardSplit(p);
      SplitDot(Stem(p), [letter]);
      assert Split([letter]) == [[letter]];
      assert forall i | 0 <= i < |Split(Stem(p))| :: Split(p)[i] == Split(Stem(p))[i];
      MatchesByPrefix(p, Sample(p, letter));
    } else {
      MatchesExactly(p, p);
    }
  }

  lemma SamplesDiffer(q: string)
    requires IsWildcard(q)
    ensures Sample(q, 'a') != Sample(q, 'b')
  {
    assert Sample(q, 'a')[|Stem(q)| + 1] == 'a' && Sample(q, 'b')[|Stem(q)| + 1] == 'b';
  }

  // ----- The algebra

  lemma StartsTransitive(a: string, b: string, c: string)
    requires StartsWith(b, a) && StartsWith(c, b)
    ensures StartsWith(c, a)
  {
    assert c[..|a|] == c[..|b|][..|a|];
  }

  /** A wildcard that begins with a stem and a dot does so before its star. */
  lemma BeforeTheStar(stem: string, q: string)
    requires IsWildcard(q) && StartsWith(q, stem + ".")
    ensures StartsWith(q[..|q| - 1], stem + ".")
  {
    var n := |stem| + 1;
    assert q[n - 1] == q[..n][n - 1] == '.' && q[|q| - 1] == q[|q| - 2..][1] == '*';
    assert q[..|q| - 1][..n] == q[..n];
  }

  lemma CoversIncludes(p: string, q: string, n: string)
    requires IsToolPattern(p) && IsToolPattern(q) && Covers(p, q) && Matches(q, n)
    ensures Matches(p, n)
  {
    if p != q {
      WildcardSplit(p);
      MatchesByPrefix(p, n);
      if IsWildcard(q) {
        WildcardSplit(q);
        MatchesByPrefix(q, n);
        BeforeTheStar(Stem(p), q);
        StartsTransitive(Stem(p) + ".", q[..|q| - 1], n);
      } else {
        MatchesExactly(q, n);
      }
    }
  }

  /** `toolPatternCovers` is exactly inclusion of the tools matched. */
  lemma CoversIsInclusion(p: string, q: string)
    requires IsToolPattern(p) && IsToolPattern(q)
    ensures Covers(p, q) <==> forall n | IsToolName(n) && Matches(q, n) :: Matches(p, n)
  {
    if Covers(p, q) {
      forall n | IsToolName(n) && Matches(q, n) ensures Matches(p, n) { CoversIncludes(p, q, n); }
    } else {
      SampleMatches(q, 'a');
      SampleMatches(q, 'b');
      if Matches(p, Sample(q, 'a')) && Matches(p, Sample(q, 'b')) { IncludedSamples(p, q); }
    }
  }

  /** What a sample of a wildcard begins with, up to a dot, the wildcard begins with. */
  lemma SampleShares(stem: string, q: string)
    requires IsWildcard(q) && StartsWith(Sample(q, 'a'), stem + ".")
    ensures StartsWith(q, stem + ".")
  {
    WildcardText(q);
    var sample, n := Sample(q, 'a'), |stem| + 1;
    assert sample[n - 1] == sample[..n][n - 1] == '.' && sample[|sample| - 1] == 'a';
    assert q[..n] == q[..|q| - 1][..n] == sample[..|q| - 1][..n] == sample[..n];
  }

  /** A pattern matching two samples of another covers it. */
  lemma IncludedSamples(p: string, q: string)
    requires IsToolPattern(p) && IsToolPattern(q)
    requires Matches(p, Sample(q, 'a')) && Matches(p, Sample(q, 'b'))
    ensures Covers(p, q)
  {
    if IsWildcard(p) {
      MatchesByPrefix(p, Sample(q, 'a'));
      WildcardText(p);
      if IsWildcard(q) { SampleShares(Stem(p), q); }
    } else {
      MatchesExactly(p, Sample(q, 'a'));
      MatchesExactly(p, Sample(q, 'b'));
      if IsWildcard(q) { SamplesDiffer(q); }
    }
  }

  /** `toolPatternsOverlap` is exactly a common tool. */
  lemma OverlapIsIntersection(p: string, q: string)
    requires IsToolPattern(p) && IsToolPattern(q)
    ensures Overlap(p, q) <==> exists n :: IsToolName(n) && Matches(p, n) && Matches(q, n)
  {
    if Covers(p, q) {
      SampleMatches(q, 'a');
      CoversIncludes(p, q, Sample(q, 'a'));
    } else if Covers(q, p) {
      SampleMatches(p, 'a');
      CoversIncludes(q, p, Sample(p, 'a'));
    }
    forall n | IsToolName(n) && Matches(p, n) && Matches(q, n) ensures Overlap(p, q) { CommonTool(p, q, n); }
  }

  lemma CommonPrefix(p: string, q: string, n: string)
    requires 0 < |p| <= |q| && StartsWith(n, p[..|p| - 1]) && StartsWith(n, q[..|q| - 1])
    ensures StartsWith(q, p[..|p| - 1])
  {
    assert q[..|p| - 1] == q[..|q| - 1][..|p| - 1] == n[..|q| - 1][..|p| - 1] == n[..|p| - 1];
  }

  lemma CommonTool(p: string, q: string, n: string)
    requires IsToolPattern(p) && IsToolPattern(q) && Matches(p, n) && Matches(q, n)
    ensures Overlap(p, q)
  {
    if !IsWildcard(p) { MatchesExactly(p, n); } else { MatchesByPrefix(p, n); WildcardText(p); }
    if !IsWildcard(q) { MatchesExactly(q, n); } else { MatchesByPrefix(q, n); WildcardText(q); }
    if IsWildcard(p) && IsWildcard(q) {
      if |p| <= |q| { CommonPrefix(p, q, n); } else { CommonPrefix(q, p, n); }
    }
  }

  // ----- Permission lists

  /** One pattern of one named list. */
  datatype Entry = Entry(list: string, pattern: string)

  /** The entries after `i` that overlap it. */
  function OverlapsOf(entries: seq<Entry>, i: nat, j: nat): seq<(nat, nat)>
    requires i < j <= |entries|
    decreases |entries| - j
  {
    if j == |entries| then [] else
      (if Overlap(entries[i].pattern, entries[j].pattern) then [(i, j)] else []) + OverlapsOf(entries, i, j + 1)
  }

  /** `toolPatternOverlaps`: one report per overlapping pair, from entry `i` on. */
  function OverlapsFrom(entries: seq<Entry>, i: nat): seq<(nat, nat)>
    requires i <= |entries|
    decreases |entries| - i
  {
    if i == |entries| then [] else OverlapsOf(entries, i, i + 1) + OverlapsFrom(entries, i + 1)
  }

  lemma {:induction false} OverlapsOfBounds(entries: seq<Entry>, i: nat, j: nat, pair: (nat, nat))
    requires i < j <= |entries|
    ensures pair in OverlapsOf(entries, i, j) ==> pair.0 == i && j <= pair.1 < |entries|
    decreases |entries| - j
  {
    if j < |entries| { OverlapsOfBounds(entries, i, j + 1, pair); }
  }

  lemma {:induction false} OverlapsOfMeaning(entries: seq<Entry>, i: nat, j: nat, k: nat)
    requires i < j <= k < |entries|
    ensures (i, k) in OverlapsOf(entries, i, j) <==> Overlap(entries[i].pattern, entries[k].pattern)
    decreases |entries| - j
  {
    var here := if Overlap(entries[i].pattern, entries[j].pattern) then [(i, j)] else [];
    InEither(here, OverlapsOf(entries, i, j + 1), (i, k));
    if j < k { OverlapsOfMeaning(entries, i, j + 1, k); } else { OverlapsOfBounds(entries, i, j + 1, (i, k)); }
  }

  lemma {:induction false} OverlapsFromBounds(entries: seq<Entry>, i: nat, pair: (nat, nat))
    requires i <= |entries|
    ensures pair in OverlapsFrom(entries, i) ==> i <= pair.0 < pair.1 < |entries|
    decreases |entries| - i
  {
    if i < |entries| {
      OverlapsOfBounds(entries, i, i + 1, pair);
      OverlapsFromBounds(entries, i + 1, pair);
    }
  }

  lemma InEither<T>(a: seq<T>, b: seq<T>, x: T)
    ensures x in a + b <==> x in a || x in b
  {
  }

  /** The report is exactly the set of overlapping pairs. */
  lemma {:induction false} OverlapsMeaning(entries: seq<Entry>, i: nat, a: nat, b: nat)
    requires i <= a < b < |entries|
    ensures (a, b) in OverlapsFrom(entries, i) <==> Overlap(entries[a].pattern, entries[b].pattern)
    decreases |entries| - i
  {
    OverlapsOfBounds(entries, i, i + 1, (a, b));
    InEither(OverlapsOf(entries, i, i + 1), OverlapsFrom(entries, i + 1), (a, b));
    if i == a {
      OverlapsOfMeaning(entries, a, a + 1, b);
      OverlapsFromBounds(entries, a + 1, (a, b));
    } else {
      OverlapsMeaning(entries, i + 1, a, b);
    }
  }

  /** Nothing is reported exactly when every tool is reached by at most one entry, so has at most one outcome. */
  lemma NoOverlapsMeansOneOutcome(entries: seq<Entry>)
    requires forall e <- entries :: IsToolPattern(e.pattern)
    ensures OverlapsFrom(entries, 0) == [] <==>
              forall a, b, n | 0 <= a < b < |entries| && IsToolName(n) ::
                !(Matches(entries[a].pattern, n) && Matches(entries[b].pattern, n))
  {
    var report := OverlapsFrom(entries, 0);
    if report == [] {
      forall a, b, n | 0 <= a < b < |entries| && IsToolName(n)
        ensures !(Matches(entries[a].pattern, n) && Matches(entries[b].pattern, n))
      {
        OverlapsMeaning(entries, 0, a, b);
        OverlapIsIntersection(entries[a].pattern, entries[b].pattern);
      }
    } else {
      var pair := report[0];
      OverlapsFromBounds(entries, 0, pair);
      OverlapsMeaning(entries, 0, pair.0, pair.1);
      OverlapIsIntersection(entries[pair.0].pattern, entries[pair.1].pattern);
    }
  }
}
