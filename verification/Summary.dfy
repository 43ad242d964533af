/** The running summary of a thread: the newest runs whole, older ones compacted to their decisions and results. */
module Summary {
  import opened Wrappers
  import opened CodeUnits
  import opened TextBudget
  import opened TextLines
  import CanonicalJson

  const MAX_SUMMARY_ENTRIES: nat := 8
  const MAX_EARLIER_LINES: nat := 24
  const MAX_SUMMARY_CHARS: nat := 8000

  datatype Entry = Entry(
    runId: Text, agentId: Text, at: Text, task: Text,
    facts: seq<Text>, done: seq<Text>, decisions: seq<Text>, remaining: seq<Text>, waitingFor: seq<Text>,
        risks: seq<Text>)

  datatype ThreadSummary = ThreadSummary(entries: seq<Entry>, decisions: seq<Text>, done: seq<Text>, compactedRuns: nat)

  const EMPTY: ThreadSummary := ThreadSummary([], [], [], 0)

  // ----- Merging

  /** The last `n` items, or all of them. */
  function LastN<T>(s: seq<T>, n: nat): seq<T> { if |s| <= n then s else s[|s| - n..] }

  function Attributed(agentId: Text, lines: seq<Text>): seq<Text> {
    seq(|lines|, i requires 0 <= i < |lines| => Units("@") + agentId + Units(": ") + lines[i])
  }

  predicate Knows(s: ThreadSummary, runId: Text) { exists e <- s.entries :: e.runId == runId }

  /** The oldest whole run becomes its decisions and results. */
  function CompactOldest(s: ThreadSummary): ThreadSummary
    requires s.entries != []
  {
    var oldest := s.entries[0];
    ThreadSummary(
      s.entries[1..],
      LastN(s.decisions + Attributed(oldest.agentId, oldest.decisions), MAX_EARLIER_LINES),
      LastN(s.done + Attributed(oldest.agentId, oldest.done), MAX_EARLIER_LINES),
      s.compactedRuns + 1)
  }

  function Compact(s: ThreadSummary): ThreadSummary
    decreases |s.entries|
  {
    if |s.entries| <= MAX_SUMMARY_ENTRIES then s else Compact(CompactOldest(s))
  }

  function Merge(s: ThreadSummary, e: Entry): ThreadSummary {
    if Knows(s, e.runId) then s else Compact(s.(entries := s.entries + [e]))
  }

  function MergeAll(s: ThreadSummary, runs: seq<Entry>): ThreadSummary {
    if runs == [] then s else Merge(MergeAll(s, runs[..|runs| - 1]), runs[|runs| - 1])
  }

  method MergeThreadSummary(previous: Option<ThreadSummary>, e: Entry) returns (r: ThreadSummary)
    ensures r == Merge(if previous.Some? then previous.value else EMPTY, e)
  {
    var s := if previous.Some? then previous.value else EMPTY;
    if exists known <- s.entries :: known.runId == e.runId { return s; }
    var entries, decisions, done, compactedRuns := s.entries + [e], s.decisions, s.done, s.compactedRuns;
    while |entries| > MAX_SUMMARY_ENTRIES
      invariant Compact(ThreadSummary(entries, decisions, done, compactedRuns))
                  == Compact(s.(entries := s.entries + [e]))
      decreases |entries|
    {
      var oldest := entries[0];
      entries := entries[1..];
      decisions := LastN(decisions + Attributed(oldest.agentId, oldest.decisions), MAX_EARLIER_LINES);
      done := LastN(done + Attributed(oldest.agentId, oldest.done), MAX_EARLIER_LINES);
      compactedRuns := compactedRuns + 1;
    }
    r := ThreadSummary(entries, decisions, done, compactedRuns);
  }

  // ----- The closed form

  function DecisionLines(runs: seq<Entry>): seq<Text> {
    if runs == [] then [] else
      DecisionLines(runs[..|runs| - 1]) + Attributed(runs[|runs| - 1].agentId, runs[|runs| - 1].decisions)
  }

  function DoneLines(runs: seq<Entry>): seq<Text> {
    if runs == [] then [] else
      DoneLines(runs[..|runs| - 1]) + Attributed(runs[|runs| - 1].agentId, runs[|runs| - 1].done)
  }

  /** The first `k` whole runs compacted, all at once. */
  function CompactFirst(s: ThreadSummary, k: nat): ThreadSummary
    requires k <= |s.entries|
  {
    if k == 0 then s else
      ThreadSummary(
        s.entries[k..],
        LastN(s.decisions + DecisionLines(s.entries[..k]), MAX_EARLIER_LINES),
        LastN(s.done + DoneLines(s.entries[..k]), MAX_EARLIER_LINES),
        s.compactedRuns + k)
  }

  function Excess(n: nat): nat { if n <= MAX_SUMMARY_ENTRIES then 0 else n - MAX_SUMMARY_ENTRIES }

  /** All runs put in whole, then as many of the oldest compacted as exceed the limit. */
  function ClosedForm(s: ThreadSummary, runs: seq<Entry>): ThreadSummary {
    CompactFirst(s.(entries := s.entries + runs), Excess(|s.entries| + |runs|))
  }

  ghost predicate DistinctRuns(runs: seq<Entry>) {
    forall i, j | 0 <= i < j < |runs| :: runs[i].runId != runs[j].runId
  }

  /** Keeping the newest in between loses nothing that the end would have kept. */
  lemma LastNAbsorbs<T>(a: seq<T>, b: seq<T>, n: nat)
    ensures LastN(LastN(a, n) + b, n) == LastN(a + b, n)
  {
    var d := |a| - |LastN(a, n)|;
    if d > 0 {
      assert |a + b| - n == d + |b| && a[d..] == LastN(a, n);
      assert (a + b)[d..] == a[d..] + b;
      assert (a + b)[d + |b|..] == (a + b)[d..][|b|..];
    }
  }

  /** One more compaction after `k` of them. */
  lemma CompactNext(s: ThreadSummary, k: nat)
    requires k < |s.entries|
    ensures CompactOldest(CompactFirst(s, k)) == CompactFirst(s, k + 1)
  {
    var oldest := s.entries[k];
    assert s.entries[..k + 1][..k] == s.entries[..k] && s.entries[..0] == [];
    assert CompactFirst(s, k).entries[0] == oldest && s.entries[k..][1..] == s.entries[k + 1..];
    var ds, os := Attributed(oldest.agentId, oldest.decisions), Attributed(oldest.agentId, oldest.done);
    if k == 0 {
      assert DecisionLines(s.entries[..1]) == ds && DoneLines(s.entries[..1]) == os;
    } else {
      LastNAbsorbs(s.decisions + DecisionLines(s.entries[..k]), ds, MAX_EARLIER_LINES);
      LastNAbsorbs(s.done + DoneLines(s.entries[..k]), os, MAX_EARLIER_LINES);
      assert s.decisions + DecisionLines(s.entries[..k + 1]) == s.decisions + DecisionLines(s.entries[..k]) + ds;
      assert s.done + DoneLines(s.entries[..k + 1]) == s.done + DoneLines(s.entries[..k]) + os;
    }
  }

  lemma {:induction false} CompactIsAllAtOnce(s: ThreadSummary, k: nat)
    requires k <= Excess(|s.entries|)
    ensures Compact(CompactFirst(s, k)) == CompactFirst(s, Excess(|s.entries|))
    decreases |s.entries| - k
  {
    if k < Excess(|s.entries|) {
      CompactNext(s, k);
      CompactIsAllAtOnce(s, k + 1);
    }
  }

  /** The entries one compaction leaves do not matter to it: runs may be added before or after. */
  lemma CompactFirstThenAdd(s: ThreadSummary, k: nat, e: Entry)
    requires k <= |s.entries|
    ensures CompactFirst(s, k).(entries := CompactFirst(s, k).entries + [e])
              == CompactFirst(s.(entries := s.entries + [e]), k)
  {
    assert (s.entries + [e])[..k] == s.entries[..k] && (s.entries + [e])[k..] == s.entries[k..] + [e];
  }

  /** Compacting `k` of the runs and then what is too much comes to compacting what is too much. */
  lemma AddAfterCompaction(s: ThreadSummary, e: Entry)
    ensures var before := CompactFirst(s, Excess(|s.entries|));
            Compact(before.(entries := before.entries + [e]))
              == CompactFirst(s.(entries := s.entries + [e]), Excess(|s.entries| + 1))
  {
    CompactFirstThenAdd(s, Excess(|s.entries|), e);
    CompactIsAllAtOnce(s.(entries := s.entries + [e]), Excess(|s.entries|));
  }

  /** A run that is not among the whole ones before is not among those left after. */
  lemma StillUnknown(s: ThreadSummary, k: nat, runId: Text)
    requires k <= |s.entries| && !Knows(s, runId)
    ensures !Knows(CompactFirst(s, k), runId)
  {
    assert forall x <- CompactFirst(s, k).entries :: x in s.entries;
  }

  lemma LastIsUnknown(s: ThreadSummary, e: Entry)
    requires DistinctRuns(s.entries + [e])
    ensures DistinctRuns(s.entries) && !Knows(s, e.runId)
  {
    var all := s.entries + [e];
    assert forall i | 0 <= i < |s.entries| :: s.entries[i] == all[i] && all[i].runId != all[|s.entries|].runId;
  }

  /** Merging one more run into the closed form of the others. */
  lemma MergeStep(whole: ThreadSummary, e: Entry)
    requires DistinctRuns(whole.entries + [e])
    ensures Merge(CompactFirst(whole, Excess(|whole.entries|)), e)
         == CompactFirst(whole.(entries := whole.entries + [e]), Excess(|whole.entries| + 1))
  {
    LastIsUnknown(whole, e);
    StillUnknown(whole, Excess(|whole.entries|), e.runId);
    AddAfterCompaction(whole, e);
  }

  lemma MergeAllLast(s: ThreadSummary, runs: seq<Entry>, e: Entry)
    ensures MergeAll(s, runs + [e]) == Merge(MergeAll(s, runs), e)
  {
    assert (runs + [e])[..|runs|] == runs;
  }

  lemma ClosedFormLast(s: ThreadSummary, runs: seq<Entry>, e: Entry)
    ensures ClosedForm(s, runs + [e])
         == CompactFirst(s.(entries := s.entries + runs + [e]), Excess(|s.entries + runs| + 1))
  {
    assert s.entries + (runs + [e]) == s.entries + runs + [e];
  }

  lemma MergeAllStep(s: ThreadSummary, runs: seq<Entry>, e: Entry)
    requires DistinctRuns(s.entries + runs + [e]) && MergeAll(s, runs) == ClosedForm(s, runs)
    ensures MergeAll(s, runs + [e]) == ClosedForm(s, runs + [e])
  {
    MergeAllLast(s, runs, e);
    ClosedFormLast(s, runs, e);
    MergeStep(s.(entries := s.entries + runs), e);
  }

  /** Merging runs one by one, all distinct and unknown, is the closed form: no interleaving of compactions shows. */
  lemma {:induction false} MergingIsClosedForm(s: ThreadSummary, runs: seq<Entry>)
    requires DistinctRuns(s.entries + runs) && |s.entries| <= MAX_SUMMARY_ENTRIES
    ensures MergeAll(s, runs) == ClosedForm(s, runs)
  {
    if runs == [] {
      assert s.entries + runs == s.entries;
    } else {
      var before, e := runs[..|runs| - 1], runs[|runs| - 1];
      assert runs == before + [e] && s.entries + runs == s.entries + before + [e];
      LastIsUnknown(s.(entries := s.entries + before), e);
      MergingIsClosedForm(s, before);
      MergeAllStep(s, before, e);
    }
  }

  /** What a thread keeps of its runs: the last eight whole, the last lines of all before, and the count of those. */
  lemma MergedFromNothing(runs: seq<Entry>)
    requires DistinctRuns(runs)
    ensures MergeAll(EMPTY, runs)
         == ThreadSummary(
              LastN(runs, MAX_SUMMARY_ENTRIES),
              LastN(DecisionLines(runs[..Excess(|runs|)]), MAX_EARLIER_LINES),
              LastN(DoneLines(runs[..Excess(|runs|)]), MAX_EARLIER_LINES),
              |runs| - |LastN(runs, MAX_SUMMARY_ENTRIES)|)
  {
    assert [] + runs == runs;
    MergingIsClosedForm(EMPTY, runs);
    var compacted := runs[..Excess(|runs|)];
    assert [] + DecisionLines(compacted) == DecisionLines(compacted)
        && [] + DoneLines(compacted) == DoneLines(compacted);
  }

  lemma MergedLast(s: ThreadSummary, e: Entry)
    requires !Knows(s, e.runId)
    ensures Merge(s, e) == CompactFirst(s.(entries := s.entries + [e]), Excess(|s.entries| + 1))
    ensures Merge(s, e).entries == LastN(s.entries + [e], MAX_SUMMARY_ENTRIES)
    ensures Merge(s, e).compactedRuns + |Merge(s, e).entries| == s.compactedRuns + |s.entries| + 1
  {
    CompactIsAllAtOnce(s.(entries := s.entries + [e]), 0);
  }

  /** Merging a run twice in a row is merging it once, whatever summary was stored. */
  lemma MergeIsIdempotent(s: ThreadSummary, e: Entry)
    ensures Merge(Merge(s, e), e) == Merge(s, e)
  {
    if !Knows(s, e.runId) {
      MergedLast(s, e);
      var r := Merge(s, e);
      assert r.entries[|r.entries| - 1] == e;
      assert Knows(r, e.runId);
    }
  }

  /** A run of the thread merged again later is left out exactly while it is still kept whole. */
  lemma RepeatedRun(runs: seq<Entry>, i: nat)
    requires DistinctRuns(runs) && i < |runs|
    ensures Merge(MergeAll(EMPTY, runs), runs[i]) == MergeAll(EMPTY, runs) <==> i >= Excess(|runs|)
  {
    MergedFromNothing(runs);
    var s, k := MergeAll(EMPTY, runs), Excess(|runs|);
    assert s.entries == runs[k..];
    if i >= k {
      assert s.entries[i - k] == runs[i];
    } else {
      assert !Knows(s, runs[i].runId);
      MergedLast(s, runs[i]);
    }
  }

  // ----- Rendering

  function Items(items: seq<Text>): seq<Text> {
    seq(|items|, i requires 0 <= i < |items| => Units("  - ") + items[i])
  }

  function Section(title: Text, items: seq<Text>): seq<Text> {
    if items == [] then [] else [Units("  ") + title + Units(":")] + Items(items)
  }

  function RenderEntry(e: Entry): Text {
    Join([Units("@") + e.agentId + Units(" at ") + e.at + Units(": ") + e.task]
         + Section(Units("facts"), e.facts) + Section(Units("done"), e.done) + Section(Units("decisions"), e.decisions)
         + Section(Units("remaining"), e.remaining) + Section(Units("waiting for"), e.waitingFor)
             + Section(Units("risks"), e.risks))
  }

  function Rendered(entries: seq<Entry>): seq<Text> {
    seq(|entries|, i requires 0 <= i < |entries| => RenderEntry(entries[i]))
  }

  function Clipped(texts: seq<Text>): seq<Text> {
    seq(|texts|, i requires 0 <= i < |texts| => Truncate(texts[i], MAX_SUMMARY_CHARS))
  }

  function Newest<T>(s: seq<T>, k: nat): seq<T>
    requires k <= |s|
  {
    s[|s| - k..]
  }

  /** The most of the newest texts that fit the budget; the very newest in any case. */
  ghost predicate MostNewest(texts: seq<Text>, k: nat) {
    && k <= |texts| && (texts != [] ==> k >= 1)
    && (k <= 1 || Cost(Newest(texts, k)) <= MAX_SUMMARY_CHARS)
    && forall j | k < j <= |texts| :: Cost(Newest(texts, j)) > MAX_SUMMARY_CHARS
  }

  /** The first line break at or after `from`, or nothing. */
  function LineBreak(text: Text, from: nat): (r: Option<nat>)
    requires from <= |text|
    ensures r.Some? ==> from <= r.value < |text| && text[r.value] == NEWLINE
    ensures forall i | from <= i < |text| && (r.None? || i < r.value) :: text[i] != NEWLINE
    decreases |text| - from
  {
    if from == |text| then None else if text[from] == NEWLINE then Some(from) else LineBreak(text, from + 1)
  }

  const CUT_MARK: Text := [0x5b, 0x2026, 0x5d, 0x0a]

  /** The last lines of a text, marked as cut; a search before the text starts at its first character. */
  function Tail(text: Text, max: nat): Text {
    var room := if max < |CUT_MARK| then 0 else max - |CUT_MARK|;
    match LineBreak(text, if |text| < room then 0 else |text| - room)
    case None => []
    case Some(b) => CUT_MARK + text[b + 1..]
  }

  predicate EndsLine(text: Text, b: int) { 0 <= b < |text| && text[b] == NEWLINE }

  /** The last lines from position `c` on stay, with the mark, below the budget; filling it exactly is too much, since
      the search for a line break starts inside the room it counts. */
  predicate StaysBelow(text: Text, c: int, max: nat) { EndsLine(text, c) && |CUT_MARK| + |text[c + 1..]| < max }

  /** Where the search for a line break starts. */
  function SearchFrom(text: Text, max: nat): nat
    requires |text| > max
  {
    if max < 4 then |text| else |text| - (max - 4)
  }

  lemma BelowByPosition(text: Text, c: int, max: nat)
    requires |text| > max && EndsLine(text, c)
    ensures StaysBelow(text, c, max) <==> c >= SearchFrom(text, max)
  {
    assert |CUT_MARK| == 4 && |text[c + 1..]| == |text| - c - 1;
  }

  lemma TailFound(text: Text, max: nat, b: nat)
    requires |text| > max && LineBreak(text, SearchFrom(text, max)) == Some(b)
    ensures Tail(text, max) == CUT_MARK + text[b + 1..] && 4 <= |Tail(text, max)| < max && StaysBelow(text, b, max)
    ensures forall c | StaysBelow(text, c, max) :: b <= c
  {
    BelowByPosition(text, b, max);
    forall c | StaysBelow(text, c, max) ensures b <= c { BelowByPosition(text, c, max); }
  }

  lemma TailNotFound(text: Text, max: nat)
    requires |text| > max && LineBreak(text, SearchFrom(text, max)).None?
    ensures Tail(text, max) == [] && forall c :: !StaysBelow(text, c, max)
  {
    forall c ensures !StaysBelow(text, c, max) {
      if StaysBelow(text, c, max) { BelowByPosition(text, c, max); }
    }
  }

  /** The mark and the most whole last lines that stay below the budget, or nothing when none do. */
  lemma TailIsMostLines(text: Text, max: nat)
    requires |text| > max
    ensures Tail(text, max) != [] ==>
              exists b | StaysBelow(text, b, max) ::
                Tail(text, max) == CUT_MARK + text[b + 1..] && forall c | StaysBelow(text, c, max) :: b <= c
    ensures Tail(text, max) == [] <==> forall c :: !StaysBelow(text, c, max)
    ensures |Tail(text, max)| <= max && (max > 0 ==> |Tail(text, max)| < max)
  {
    match LineBreak(text, SearchFrom(text, max))
    case Some(b) => TailFound(text, max, b);
    case None => TailNotFound(text, max);
  }

  function HistoryLines(s: ThreadSummary, omitted: nat): seq<Text> {
    if s.compactedRuns + omitted == 0 then [] else
      [Units("Earlier runs: ") + CanonicalJson.Digits(s.compactedRuns) + Units(" compacted")
       + (if omitted > 0 then Units(", ") + CanonicalJson.Digits(omitted) + Units(" more not shown") else [])
           + Units(".")]
      + Section(Units("decisions"), s.decisions) + Section(Units("done"), s.done)
  }

  /** The compacted history in what the newest runs left of the budget. */
  function Head(history: Text, chars: nat): (r: seq<Text>) {
    if history == [] || chars >= MAX_SUMMARY_CHARS then [] else
      var room := MAX_SUMMARY_CHARS - chars;
      [if |history| <= room then history else Tail(history, room)]
  }

  function Layout(history: Text, shown: seq<Text>): Text { Join(Head(history, Cost(shown)) + Clipped(shown)) }

  /** The history by the number of runs left out. */
  function Histories(s: ThreadSummary): nat -> Text { (omitted: nat) => Join(HistoryLines(s, omitted)) }

  /** `r` shows the most of the newest texts, under the history that goes with those left out. */
  ghost predicate ShowsNewest(texts: seq<Text>, histories: nat -> Text, r: Text) {
    exists k: nat | k <= |texts| :: MostNewest(texts, k) && r == Layout(histories(|texts| - k), Newest(texts, k))
  }

  /** That determines the text. */
  lemma OnlyOneShowsNewest(texts: seq<Text>, histories: nat -> Text, r: Text, r': Text)
    requires ShowsNewest(texts, histories, r) && ShowsNewest(texts, histories, r')
    ensures r == r'
  {
    var k: nat :| k <= |texts| && MostNewest(texts, k) && r == Layout(histories(|texts| - k), Newest(texts, k));
    var k': nat :| k' <= |texts| && MostNewest(texts, k') && r' == Layout(histories(|texts| - k'), Newest(texts, k'));
    OneMostNewest(texts, k, k');
    OneMostNewest(texts, k', k);
  }

  lemma OneMostNewest(texts: seq<Text>, k: nat, k': nat)
    requires MostNewest(texts, k) && MostNewest(texts, k')
    ensures k <= k'
  {
  }

  /** From the newest backwards, as many texts as fit. */
  method KeepNewest(texts: seq<Text>) returns (kept: seq<Text>, chars: nat, omitted: nat)
    ensures |kept| <= |texts| && omitted == |texts| - |kept| && MostNewest(texts, |kept|)
    ensures kept == Clipped(Newest(texts, |kept|)) && chars == Cost(Newest(texts, |kept|))
  {
    kept, chars, omitted := [], 0, 0;
    var i := |texts| - 1;
    while i >= 0
      invariant -1 <= i < |texts| && |kept| == |texts| - 1 - i && omitted == 0
      invariant kept == Clipped(Newest(texts, |kept|)) && chars == Cost(Newest(texts, |kept|))
      invariant |kept| <= 1 || chars <= MAX_SUMMARY_CHARS
      decreases i
    {
      var text := texts[i];
      NewestStep(texts, |kept|);
      if |kept| > 0 && chars + |text| + 1 > MAX_SUMMARY_CHARS {
        omitted := i + 1;
        CostGrows(texts, |kept| + 1);
        return;
      }
      kept := [Truncate(text, MAX_SUMMARY_CHARS)] + kept;
      chars := chars + |text| + 1;
      i := i - 1;
    }
  }

  lemma NewestStep(texts: seq<Text>, k: nat)
    requires k < |texts|
    ensures Newest(texts, k + 1) == [texts[|texts| - 1 - k]] + Newest(texts, k)
    ensures Clipped(Newest(texts, k + 1)) == [Truncate(texts[|texts| - 1 - k], MAX_SUMMARY_CHARS)]
              + Clipped(Newest(texts, k))
    ensures Cost(Newest(texts, k + 1)) == |texts[|texts| - 1 - k]| + 1 + Cost(Newest(texts, k))
  {
    assert Newest(texts, k + 1)[1..] == Newest(texts, k);
  }

  method LayOut(texts: seq<Text>, histories: nat -> Text) returns (r: Text)
    ensures |r| <= MAX_SUMMARY_CHARS && ShowsNewest(texts, histories, r)
  {
    var kept, chars, omitted := KeepNewest(texts);
    var history := histories(omitted);
    r := Join(Head(history, chars) + kept);
    Shows(texts, histories, |kept|, r);
  }

  lemma Shows(texts: seq<Text>, histories: nat -> Text, k: nat, r: Text)
    requires MostNewest(texts, k) && r == Layout(histories(|texts| - k), Newest(texts, k))
    ensures |r| <= MAX_SUMMARY_CHARS && ShowsNewest(texts, histories, r)
  {
    NewestFit(histories(|texts| - k), texts, k);
  }

  /** Nothing exactly when no run contributed; otherwise the newest runs that fit, within the limit. */
  method RenderThreadSummary(stored: Option<ThreadSummary>) returns (r: Option<Text>)
    ensures r.None? <==> stored.None? || (stored.value.entries == [] && stored.value.compactedRuns == 0)
    ensures r.Some? ==> |r.value| <= MAX_SUMMARY_CHARS
    ensures r.Some? ==> ShowsNewest(Rendered(stored.value.entries), Histories(stored.value), r.value)
  {
    if stored.None? || (stored.value.entries == [] && stored.value.compactedRuns == 0) { return None; }
    var text := LayOut(Rendered(stored.value.entries), Histories(stored.value));
    r := Some(text);
  }

  lemma {:induction false} CostGrows(texts: seq<Text>, j: nat)
    requires j <= |texts|
    ensures forall k | j <= k <= |texts| :: Cost(Newest(texts, j)) <= Cost(Newest(texts, k))
    decreases |texts| - j
  {
    if j < |texts| {
      CostGrows(texts, j + 1);
      assert Newest(texts, j + 1)[1..] == Newest(texts, j);
    }
  }

  /** Texts within the budget are shown uncut. */
  lemma {:induction false} ClippedWhole(texts: seq<Text>)
    requires Cost(texts) <= MAX_SUMMARY_CHARS
    ensures Clipped(texts) == texts
  {
    if texts != [] {
      ClippedWhole(texts[1..]);
      assert Clipped(texts) == [Truncate(texts[0], MAX_SUMMARY_CHARS)] + Clipped(texts[1..]);
    }
  }

  lemma HeadFits(history: Text, chars: nat)
    requires chars <= MAX_SUMMARY_CHARS
    ensures Cost(Head(history, chars)) <= MAX_SUMMARY_CHARS - chars + 1
    ensures Head(history, chars) == []
              || (|Head(history, chars)| == 1 && |Head(history, chars)[0]| <= MAX_SUMMARY_CHARS - chars)
  {
    if |history| > MAX_SUMMARY_CHARS - chars { TailIsMostLines(history, MAX_SUMMARY_CHARS - chars); }
  }

  lemma LayoutFits(history: Text, shown: seq<Text>)
    requires Cost(shown) <= MAX_SUMMARY_CHARS
    ensures |Layout(history, shown)| <= MAX_SUMMARY_CHARS
  {
    var head := Head(history, Cost(shown));
    ClippedWhole(shown);
    HeadFits(history, Cost(shown));
    if head + shown != [] {
      JoinLength(head + shown);
      assert if head == [] then head + shown == shown else (head + shown)[1..] == shown;
    }
  }

  lemma LayoutOfOne(history: Text, text: Text)
    requires Cost([text]) > MAX_SUMMARY_CHARS
    ensures |Layout(history, [text])| <= MAX_SUMMARY_CHARS
  {
    assert Head(history, Cost([text])) == [];
    assert [] + Clipped([text]) == [Truncate(text, MAX_SUMMARY_CHARS)];
    TruncateFits(text, MAX_SUMMARY_CHARS);
  }

  /** Whatever is stored, the newest runs that fit and their history stay within the limit. */
  lemma NewestFit(history: Text, texts: seq<Text>, k: nat)
    requires MostNewest(texts, k)
    ensures |Layout(history, Newest(texts, k))| <= MAX_SUMMARY_CHARS
  {
    if Cost(Newest(texts, k)) <= MAX_SUMMARY_CHARS {
      LayoutFits(history, Newest(texts, k));
    } else {
      assert Newest(texts, k) == [texts[|texts| - 1]];
      LayoutOfOne(history, texts[|texts| - 1]);
    }
  }

  /** Without cuts nothing is missing: every run's text follows the whole history. */
  lemma ShownWhole(texts: seq<Text>, histories: nat -> Text, r: Text)
    requires ShowsNewest(texts, histories, r) && histories(0) != [] && Cost(texts) + |histories(0)| <= MAX_SUMMARY_CHARS
    ensures r == Join([histories(0)] + texts)
  {
    assert Newest(texts, |texts|) == texts;
    ClippedWhole(texts);
  }
}
