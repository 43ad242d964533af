/** Where the protocol's excuses and events come from: each is traced to a moment of the run. */
module GmailWitnesses {
  import opened Wrappers
  import opened GmailStore
  import opened GmailMailbox
  import opened GmailSync
  import opened GmailProtocol

  /** The system after the first `k` steps. */
  function Moment(box: Mailbox, steps: seq<Step>, k: nat): Sys
    requires k <= |steps|
  {
    Run(Init(box), steps[..k])
  }

  /** The moments of a run are moments of its continuations. */
  lemma MomentStays(box: Mailbox, steps: seq<Step>, n: nat, k: nat)
    requires k <= n <= |steps|
    ensures Moment(box, steps[..n], k) == Moment(box, steps, k)
  {
    assert steps[..n][..k] == steps[..k];
  }

  lemma LastMoment(box: Mailbox, steps: seq<Step>)
    ensures Moment(box, steps, |steps|) == Run(Init(box), steps)
  {
    assert steps[..|steps|] == steps;
  }

  // ----- The log

  /** The log only grows, above the old head. */
  ghost predicate LogGrows(a: Mailbox, b: Mailbox) {
    && a.log <= b.log && a.head <= b.head
    && forall j | |a.log| <= j < |b.log| :: b.log[j].id > a.head
  }

  lemma LogStep(s: Sys, step: Step)
    ensures LogGrows(s.box, Apply(s, step).box)
  {
  }

  lemma LogGrowsOn(a: Mailbox, b: Mailbox, c: Mailbox)
    requires LogGrows(a, b) && LogGrows(b, c)
    ensures LogGrows(a, c)
  {
    forall j | |a.log| <= j < |c.log| ensures c.log[j].id > a.head {
      if j < |b.log| { assert c.log[j] == b.log[j]; }
    }
  }

  lemma {:induction false} LogSince(box: Mailbox, steps: seq<Step>, k: nat)
    requires k <= |steps|
    ensures LogGrows(Moment(box, steps, k).box, Run(Init(box), steps).box)
    decreases |steps|
  {
    if k == |steps| {
      LastMoment(box, steps);
    } else {
      var n := |steps| - 1;
      LogSince(box, steps[..n], k);
      MomentStays(box, steps, n, k);
      LogStep(Run(Init(box), steps[..n]), steps[n]);
      LogGrowsOn(Moment(box, steps, k).box, Run(Init(box), steps[..n]).box, Run(Init(box), steps).box);
    }
  }

  /** A record at or below the head of a moment was in the log by then. */
  lemma LoggedBy(box: Mailbox, steps: seq<Step>, k: nat, r: Record)
    requires k <= |steps| && r in Run(Init(box), steps).box.log && r.id <= Moment(box, steps, k).box.head
    ensures r in Moment(box, steps, k).box.log
  {
    LogSince(box, steps, k);
    var past, log := Moment(box, steps, k).box, Run(Init(box), steps).box.log;
    var j :| 0 <= j < |log| && log[j] == r;
    assert j < |past.log| && past.log[j] == r;
  }

  // ----- Messages seen gone

  /** Deleted, or labelled as excluded. */
  predicate Away(box: Mailbox, m: MsgId) { m !in box.messages || Barred(box.messages[m].labels) }

  ghost predicate AwayAt(box: Mailbox, steps: seq<Step>, k: nat, m: MsgId, at: nat) {
    k <= |steps| && Moment(box, steps, k).box.head == at && Away(Moment(box, steps, k).box, m)
  }

  ghost predicate ExcludedRecord(log: seq<Record>, m: MsgId, at: nat) {
    exists r <- log :: r.msg == m && r.id == at && Barred(r.labels)
  }

  /** What a page's excluded records put into `gone`. */
  lemma {:induction false} NotedFrom(gone: map<MsgId, nat>, records: seq<Record>, shown: bool, m: MsgId)
    requires m in NoteExcluded(gone, records, shown)
    ensures (m in gone && NoteExcluded(gone, records, shown)[m] == gone[m])
         || ExcludedRecord(records, m, NoteExcluded(gone, records, shown)[m])
  {
    if records != [] {
      var n := |records| - 1;
      var before := NoteExcluded(gone, records[..n], shown);
      assert records == records[..n] + [records[n]];
      BarredIsExcluded(records[n].labels);
      if m in before { NotedFrom(gone, records[..n], shown, m); }
    }
  }

  lemma GoneByPage(s: Sys, i: nat, max: nat, shown: bool, m: MsgId)
    requires i in s.syncs && s.syncs[i].Reading? && m in DoReadPage(s, i, max, shown).gone
    ensures var at := DoReadPage(s, i, max, shown).gone[m];
            (m in s.gone && at == s.gone[m]) || ExcludedRecord(s.box.log, m, at)
  {
    var pc := s.syncs[i];
    var page := HistoryPage(s.box, pc.start, pc.offset, max);
    if page.Some? {
      var at := DoReadPage(s, i, max, shown).gone[m];
      NotedFrom(s.gone, page.value.records, shown, m);
      forall r <- page.value.records ensures r in s.box.log {
        assert r in After(s.box.log, pc.start);
        AfterMembers(s.box.log, pc.start, r);
      }
    }
  }

  lemma GoneStep(s: Sys, step: Step, m: MsgId)
    requires m in Apply(s, step).gone
    ensures var at := Apply(s, step).gone[m];
            (m in s.gone && at == s.gone[m]) || (at == s.box.head && Away(s.box, m)) || ExcludedRecord(s.box.log, m, at)
  {
    if step.ReadPage? && step.i in s.syncs && s.syncs[step.i].Reading? {
      GoneByPage(s, step.i, step.max, step.shown, m);
    } else if m in s.box.messages {
      BarredIsExcluded(s.box.messages[m].labels);
    }
  }

  /** `gone` names only what a history sync saw: at some moment with that head the message was deleted or excluded, or
      the log has a record of it with that id and excluding labels. */
  lemma {:induction false} GoneWasSeen(box: Mailbox, steps: seq<Step>, m: MsgId)
    requires m in Run(Init(box), steps).gone
    ensures var s := Run(Init(box), steps);
            (exists k: nat :: AwayAt(box, steps, k, m, s.gone[m])) || ExcludedRecord(s.box.log, m, s.gone[m])
  {
    var n := |steps| - 1;
    var s, t := Run(Init(box), steps[..n]), Run(Init(box), steps);
    GoneStep(s, steps[n], m);
    LogStep(s, steps[n]);
    if m in s.gone && t.gone[m] == s.gone[m] {
      GoneWasSeen(box, steps[..n], m);
      if k: nat :| AwayAt(box, steps[..n], k, m, s.gone[m]) {
        MomentStays(box, steps, n, k);
        assert AwayAt(box, steps, k, m, t.gone[m]);
      }
    } else if t.gone[m] == s.box.head && Away(s.box, m) {
      assert AwayAt(box, steps, n, m, t.gone[m]);
    }
  }

  // ----- Alerts

  /** The message is there, admitted and not readable. */
  predicate BrokenIn(box: Mailbox, m: MsgId) {
    m in box.messages && !box.messages[m].readable && !Barred(box.messages[m].labels)
  }

  ghost predicate BrokenAt(box: Mailbox, steps: seq<Step>, k: nat, m: MsgId) {
    k <= |steps| && BrokenIn(Moment(box, steps, k).box, m)
  }

  lemma AlertStep(s: Sys, step: Step, m: MsgId)
    requires Unreadable(m) in Apply(s, step).store.alerts
    ensures Unreadable(m) in s.store.alerts || BrokenIn(s.box, m)
  {
    if m in s.box.messages { BarredIsExcluded(s.box.messages[m].labels); }
  }

  /** An unreadable alert is raised only for a message that was in the mailbox, admitted, and could not be read. */
  lemma {:induction false} AlertWasRaised(box: Mailbox, steps: seq<Step>, m: MsgId)
    requires Unreadable(m) in Run(Init(box), steps).store.alerts
    ensures exists k: nat :: BrokenAt(box, steps, k, m)
  {
    var n := |steps| - 1;
    AlertStep(Run(Init(box), steps[..n]), steps[n], m);
    if Unreadable(m) in Run(Init(box), steps[..n]).store.alerts {
      AlertWasRaised(box, steps[..n], m);
      var k: nat :| BrokenAt(box, steps[..n], k, m);
      MomentStays(box, steps, n, k);
      assert BrokenAt(box, steps, k, m);
    } else {
      assert BrokenAt(box, steps, n, m);
    }
  }

  // ----- Stored mail

  /** The event's message is there, admitted and readable, and the event carries its hash. */
  predicate FetchedFrom(box: Mailbox, e: Event) {
    && e.key.Mail? && e.key.msg in box.messages
    && var message := box.messages[e.key.msg]; message.readable && message.hash == e.hash && !Barred(message.labels)
  }

  ghost predicate FetchedAt(box: Mailbox, steps: seq<Step>, k: nat, e: Event) {
    k <= |steps| && FetchedFrom(Moment(box, steps, k).box, e)
  }

  ghost predicate Genuine(box: Mailbox, steps: seq<Step>, e: Event) { exists k: nat :: FetchedAt(box, steps, k, e) }

  function EventsOf(pc: Pc): seq<Event> { if pc.Fetching? || pc.Collecting? then pc.events else [] }

  /** Some sync holds the event. */
  ghost predicate Held(s: Sys, e: Event) { exists i <- s.syncs :: e in EventsOf(s.syncs[i]) }

  lemma HeldStep(s: Sys, step: Step, e: Event)
    requires Held(Apply(s, step), e)
    ensures Held(s, e) || FetchedFrom(s.box, e)
  {
    var t := Apply(s, step);
    var i :| i in t.syncs && e in EventsOf(t.syncs[i]);
    if step.FetchNext? && step.i == i && t != s {
      HeldByFetch(s, i, e);
    } else {
      EventsElsewhere(s, step, i);
    }
  }

  /** No other step gives a sync events. */
  lemma EventsElsewhere(s: Sys, step: Step, i: nat)
    requires i in Apply(s, step).syncs && !(step.FetchNext? && step.i == i && Apply(s, step) != s)
    ensures (i in s.syncs && Apply(s, step).syncs[i] == s.syncs[i]) || EventsOf(Apply(s, step).syncs[i]) == []
  {
  }

  lemma HeldByFetch(s: Sys, i: nat, e: Event)
    requires i in s.syncs && (s.syncs[i].Fetching? || s.syncs[i].Collecting?) && s.syncs[i].todo != []
    requires e in EventsOf(DoFetch(s, i).syncs[i])
    ensures Held(s, e) || FetchedFrom(s.box, e)
  {
    var m := s.syncs[i].todo[0];
    if m in s.box.messages { BarredIsExcluded(s.box.messages[m].labels); }
    assert e in EventsOf(s.syncs[i]) || FetchedFrom(s.box, e);
  }

  /** A batch stores nothing but what was stored and what it delivers. */
  lemma {:induction false} IngestedFrom(m: map<EventKey, Event>, events: seq<Event>, key: EventKey)
    requires key in IngestAll(m, events)
    ensures (key in m && IngestAll(m, events)[key] == m[key]) || IngestAll(m, events)[key] in events
  {
    if events != [] {
      var n := |events| - 1;
      assert events == events[..n] + [events[n]];
      if key in IngestAll(m, events[..n]) { IngestedFrom(m, events[..n], key); }
    }
  }

  lemma {:induction false} ReverseMembers(events: seq<Event>, e: Event)
    ensures e in Reverse(events) <==> e in events
  {
    if events != [] { ReverseMembers(events[1..], e); }
  }

  lemma StoredByCommit(s: Sys, step: Step, key: EventKey)
    requires (step.CommitPage? || step.CommitFull?) && key in Apply(s, step).store.stored
    ensures var e := Apply(s, step).store.stored[key];
            (key in s.store.stored && e == s.store.stored[key]) || Held(s, e)
  {
    if Apply(s, step).store != s.store {
      var pc := s.syncs[step.i];
      IngestedFrom(s.store.stored, if step.CommitPage? then pc.events else Reverse(pc.events), key);
      ReverseMembers(pc.events, Apply(s, step).store.stored[key]);
    }
  }

  lemma StoredStep(s: Sys, step: Step, key: EventKey)
    requires key.Mail? && key in Apply(s, step).store.stored
    ensures var e := Apply(s, step).store.stored[key];
            (key in s.store.stored && e == s.store.stored[key]) || Held(s, e)
  {
    if step.CommitPage? || step.CommitFull? {
      StoredByCommit(s, step, key);
    } else {
      StoredElsewhere(s, step, key);
    }
  }

  lemma StoredElsewhere(s: Sys, step: Step, key: EventKey)
    requires key.Mail? && !step.CommitPage? && !step.CommitFull? && key in Apply(s, step).store.stored
    ensures key in s.store.stored && Apply(s, step).store.stored[key] == s.store.stored[key]
  {
  }

  lemma GenuineStays(box: Mailbox, steps: seq<Step>, n: nat, e: Event)
    requires n <= |steps| && Genuine(box, steps[..n], e)
    ensures Genuine(box, steps, e)
  {
    var k: nat :| FetchedAt(box, steps[..n], k, e);
    MomentStays(box, steps, n, k);
    assert FetchedAt(box, steps, k, e);
  }

  lemma {:induction false} HeldIsGenuine(box: Mailbox, steps: seq<Step>, e: Event)
    requires Held(Run(Init(box), steps), e)
    ensures Genuine(box, steps, e)
  {
    if steps != [] {
      var n := |steps| - 1;
      HeldStep(Run(Init(box), steps[..n]), steps[n], e);
      if Held(Run(Init(box), steps[..n]), e) {
        HeldIsGenuine(box, steps[..n], e);
        GenuineStays(box, steps, n, e);
      } else {
        assert FetchedAt(box, steps, n, e);
      }
    }
  }

  /** Every stored mail event is what fetching its message gave at some moment: the message was in the mailbox, admitted
      and readable, and the event carries its hash. */
  lemma {:induction false} StoredMailWasFetched(box: Mailbox, steps: seq<Step>, m: MsgId)
    requires Mail(m) in Run(Init(box), steps).store.stored
    ensures Genuine(box, steps, Run(Init(box), steps).store.stored[Mail(m)])
  {
    var n := |steps| - 1;
    var s, e := Run(Init(box), steps[..n]), Run(Init(box), steps).store.stored[Mail(m)];
    StoredStep(s, steps[n], Mail(m));
    if Mail(m) in s.store.stored && s.store.stored[Mail(m)] == e {
      StoredMailWasFetched(box, steps[..n], m);
    } else {
      HeldIsGenuine(box, steps[..n], e);
    }
    GenuineStays(box, steps, n, e);
  }
}
