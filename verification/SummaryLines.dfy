/** What a thread summary says, line by line: whose lines were kept of compacted runs, and what each run shows. */
module SummaryLines {
  import opened Wrappers
  import opened CodeUnits
  import opened TextLines
  import opened Summary
  import CanonicalJson
  import CanonicalText

  // ----- Compacted runs

  /** How many decisions the first `n` runs made together. */
  function DecisionsOf(runs: seq<Entry>, n: nat): nat
    requires n <= |runs|
  {
    if n == 0 then 0 else DecisionsOf(runs, n - 1) + |runs[n - 1].decisions|
  }

  function DoneOf(runs: seq<Entry>, n: nat): nat
    requires n <= |runs|
  {
    if n == 0 then 0 else DoneOf(runs, n - 1) + |runs[n - 1].done|
  }

  /** `@agent: line`. */
  function ByAgent(agent: Text, line: Text): Text { Units("@") + agent + Units(": ") + line }

  lemma {:induction false} DecisionsOfSome(runs: seq<Entry>, more: seq<Entry>, n: nat)
    requires n <= |runs|
    ensures DecisionsOf(runs + more, n) == DecisionsOf(runs, n) && DoneOf(runs + more, n) == DoneOf(runs, n)
  {
    if n > 0 { DecisionsOfSome(runs, more, n - 1); }
  }

  ghost predicate LineOf(lines: seq<Text>, at: nat, line: Text) { at < |lines| && lines[at] == line }

  /** Decision `j` of run `i` stands behind all decisions of the runs before it, under its agent's name. */
  lemma {:induction false} DecisionStands(runs: seq<Entry>, i: nat, j: nat)
    requires i < |runs| && j < |runs[i].decisions|
    ensures LineOf(DecisionLines(runs), DecisionsOf(runs, i) + j, ByAgent(runs[i].agentId, runs[i].decisions[j]))
    ensures |DecisionLines(runs)| == DecisionsOf(runs, |runs|)
    decreases |runs|
  {
    DecisionCount(runs);
    var n := |runs| - 1;
    assert runs == runs[..n] + [runs[n]];
    DecisionsOfSome(runs[..n], [runs[n]], i);
    DecisionsOfSome(runs[..n], [runs[n]], n);
    DecisionCount(runs[..n]);
    if i < n { DecisionStands(runs[..n], i, j); }
  }

  lemma {:induction false} DecisionCount(runs: seq<Entry>)
    ensures |DecisionLines(runs)| == DecisionsOf(runs, |runs|) && |DoneLines(runs)| == DoneOf(runs, |runs|)
  {
    if runs != [] {
      var n := |runs| - 1;
      DecisionCount(runs[..n]);
      DecisionsOfSome(runs[..n], [runs[n]], n);
      assert runs == runs[..n] + [runs[n]];
    }
  }

  /** The same of results. */
  lemma {:induction false} ResultStands(runs: seq<Entry>, i: nat, j: nat)
    requires i < |runs| && j < |runs[i].done|
    ensures LineOf(DoneLines(runs), DoneOf(runs, i) + j, ByAgent(runs[i].agentId, runs[i].done[j]))
    decreases |runs|
  {
    var n := |runs| - 1;
    assert runs == runs[..n] + [runs[n]];
    DecisionsOfSome(runs[..n], [runs[n]], i);
    DecisionCount(runs[..n]);
    if i < n { ResultStands(runs[..n], i, j); }
  }

  // ----- One run

  /** Nothing for an empty list; else the title, and every item on a line of its own behind a dash. */
  ghost predicate Lists(lines: seq<Text>, title: string, items: seq<Text>) {
    if items == [] then lines == [] else
      && |lines| == |items| + 1 && lines[0] == Units("  ") + Units(title) + Units(":")
      && forall j | 0 <= j < |items| :: lines[j + 1] == Units("  - ") + items[j]
  }

  lemma SectionLists(title: string, items: seq<Text>)
    ensures Lists(Section(Units(title), items), title, items)
  {
  }

  /** The lines of one run: who, when and what, then its facts, results, decisions, what remains, what it waits for and
      the risks, in this order. */
  ghost predicate TellsRun(e: Entry, lines: seq<seq<Text>>) {
    && |lines| == 7 && lines[0] == [Units("@") + e.agentId + Units(" at ") + e.at + Units(": ") + e.task]
    && Lists(lines[1], "facts", e.facts) && Lists(lines[2], "done", e.done)
    && Lists(lines[3], "decisions", e.decisions) && Lists(lines[4], "remaining", e.remaining)
    && Lists(lines[5], "waiting for", e.waitingFor) && Lists(lines[6], "risks", e.risks)
  }

  lemma RunIsTold(e: Entry)
    ensures exists s: seq<seq<Text>> ::
              TellsRun(e, s) && RenderEntry(e) == Join(s[0] + s[1] + s[2] + s[3] + s[4] + s[5] + s[6])
  {
    ToldIsRendered(e);
    SectionLists("facts", e.facts);
    SectionLists("done", e.done);
    SectionLists("decisions", e.decisions);
    SectionLists("remaining", e.remaining);
    SectionLists("waiting for", e.waitingFor);
    SectionLists("risks", e.risks);
    assert TellsRun(e, Told(e));
  }

  /** The lines as the printer has them. */
  function Told(e: Entry): seq<seq<Text>> {
    [[Units("@") + e.agentId + Units(" at ") + e.at + Units(": ") + e.task],
     Section(Units("facts"), e.facts), Section(Units("done"), e.done),
     Section(Units("decisions"), e.decisions), Section(Units("remaining"), e.remaining),
     Section(Units("waiting for"), e.waitingFor), Section(Units("risks"), e.risks)]
  }

  lemma ToldIsRendered(e: Entry)
    ensures var s := Told(e); RenderEntry(e) == Join(s[0] + s[1] + s[2] + s[3] + s[4] + s[5] + s[6])
  {
  }

  // ----- The history

  /** The first line counts the compacted runs, and those not shown when there are any. */
  ghost predicate Counts(line: Text, compacted: nat, omitted: nat) {
    exists a: Text, b: Text ::
      && CanonicalText.Decimal(a, compacted) && CanonicalText.Decimal(b, omitted)
      && line == Units("Earlier runs: ") + a + Units(" compacted")
                 + (if omitted > 0 then Units(", ") + b + Units(" more not shown") else []) + Units(".")
  }

  /** No history exactly without compacted or omitted runs; else the counts, the decisions and the results. */
  lemma HistoryIsTold(s: ThreadSummary, omitted: nat)
    ensures HistoryLines(s, omitted) == [] <==> s.compactedRuns == 0 && omitted == 0
    ensures s.compactedRuns + omitted > 0 ==>
              exists first: Text, decisions: seq<Text>, done: seq<Text> ::
                && Counts(first, s.compactedRuns, omitted)
                && Lists(decisions, "decisions", s.decisions) && Lists(done, "done", s.done)
                && HistoryLines(s, omitted) == [first] + decisions + done
  {
    CanonicalText.DigitsMeaning(s.compactedRuns);
    CanonicalText.DigitsMeaning(omitted);
    SectionLists("decisions", s.decisions);
    SectionLists("done", s.done);
    if s.compactedRuns + omitted > 0 {
      var first := HistoryLines(s, omitted)[0];
      assert Counts(first, s.compactedRuns, omitted);
      assert HistoryLines(s, omitted) ==
             [first] + Section(Units("decisions"), s.decisions) + Section(Units("done"), s.done);
    }
  }
}
