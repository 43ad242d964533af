/** What the sync protocol promises over every run. */
module GmailTheorems {
  import opened Wrappers
  import opened GmailStore
  import opened GmailMailbox
  import opened GmailSync
  import opened GmailProtocol
  import opened GmailWitnesses

  lemma {:induction false} RunKeepsInv(box: Mailbox, steps: seq<Step>)
    requires Valid(box)
    ensures Inv(Run(Init(box), steps))
  {
    if steps != [] {
      var n := |steps| - 1;
      RunKeepsInv(box, steps[..n]);
      StepKeepsInv(Run(Init(box), steps[..n]), steps[n]);
    }
  }

  // ----- No mail is lost

  /** The record was in the log at moment `k` and its message deleted or excluded there. */
  ghost predicate AwaySince(box: Mailbox, steps: seq<Step>, k: nat, r: Record) {
    && k <= |steps|
    && r in Moment(box, steps, k).box.log && Away(Moment(box, steps, k).box, r.msg)
  }

  /** What became of an inbox record, told by the mailbox alone: its event is stored, as fetching the message gave it;
      or the message was away at some moment since; or a record of it since then excludes it; or it could not be read,
      and an alert says so. */
  ghost predicate Accounted(box: Mailbox, steps: seq<Step>, r: Record) {
    var s := Run(Init(box), steps);
    || (Mail(r.msg) in s.store.stored && Genuine(box, steps, s.store.stored[Mail(r.msg)]))
    || (exists k: nat :: AwaySince(box, steps, k, r))
    || (exists q <- s.box.log :: q.msg == r.msg && q.id >= r.id && Barred(q.labels))
    || (Unreadable(r.msg) in s.store.alerts && exists k: nat :: BrokenAt(box, steps, k, r.msg))
  }

  lemma HandledIsAccounted(box: Mailbox, steps: seq<Step>, r: Record)
    requires var s := Run(Init(box), steps); r in s.box.log && Handled(s, r)
    ensures Accounted(box, steps, r)
  {
    var s := Run(Init(box), steps);
    if Mail(r.msg) in s.store.stored {
      StoredMailWasFetched(box, steps, r.msg);
    } else if Unreadable(r.msg) in s.store.alerts {
      AlertWasRaised(box, steps, r.msg);
    } else {
      GoneWasSeen(box, steps, r.msg);
      if k: nat :| AwayAt(box, steps, k, r.msg, s.gone[r.msg]) {
        LoggedBy(box, steps, k, r);
        assert AwaySince(box, steps, k, r);
      }
    }
  }

  /** Every inbox record above the last full sync's cursor (the first cursor, without one) and at or
      below the cursor is accounted for; and a full sync never goes unannounced. */
  lemma NoMailLost(box: Mailbox, steps: seq<Step>)
    requires Valid(box)
    ensures var s := Run(Init(box), steps);
            s.store.historyId.Some? ==>
              && (forall r <- s.box.log | INBOX in r.labels && s.floor < r.id <= s.store.historyId.value ::
                   Accounted(box, steps, r))
              && (s.floor == s.first || FullSync(s.floor) in s.store.alerts)
  {
    var s := Run(Init(box), steps);
    RunKeepsInv(box, steps);
    if s.store.historyId.Some? {
      forall r <- s.box.log | INBOX in r.labels && s.floor < r.id <= s.store.historyId.value
        ensures Accounted(box, steps, r) {
        HandledIsAccounted(box, steps, r);
      }
    }
  }

  ghost predicate HistoryKept(s: Sys) {
    && s.box.oldest == 0 && s.floor == s.first
    && forall i <- s.syncs :: !s.syncs[i].Profiling? && !s.syncs[i].Listing? && !s.syncs[i].Collecting?
  }

  lemma HistoryKeptStep(s: Sys, step: Step)
    requires HistoryKept(s) && !step.Expired?
    ensures HistoryKept(Apply(s, step))
  {
    match step
    case ReadPage(i, max, shown) =>
      if i in s.syncs && s.syncs[i].Reading? {
        assert HistoryPage(s.box, s.syncs[i].start, s.syncs[i].offset, max).Some?;
      }
    case _ =>
  }

  lemma {:induction false} NoFullSync(box: Mailbox, steps: seq<Step>)
    requires Valid(box) && box.oldest == 0 && forall step <- steps :: !step.Expired?
    ensures HistoryKept(Run(Init(box), steps))
  {
    if steps != [] {
      var n := |steps| - 1;
      NoFullSync(box, steps[..n]);
      HistoryKeptStep(Run(Init(box), steps[..n]), steps[n]);
    }
  }

  /** Without history expiry nothing above the first cursor is ever lost. */
  lemma NoMailLostWithoutExpiry(box: Mailbox, steps: seq<Step>)
    requires Valid(box) && box.oldest == 0 && forall step <- steps :: !step.Expired?
    ensures var s := Run(Init(box), steps);
            s.store.historyId.Some? ==>
              forall r <- s.box.log | INBOX in r.labels && s.first < r.id <= s.store.historyId.value ::
                Accounted(box, steps, r)
  {
    NoMailLost(box, steps);
    NoFullSync(box, steps);
  }

  // ----- The cursor

  ghost predicate Advances(s: Sys, t: Sys) {
    && s.box.head <= t.box.head
    && (s.store.historyId.Some? ==>
          t.store.historyId.Some? && s.store.historyId.value <= t.store.historyId.value)
    && (s.store.accountHash.Some? ==> t.store.accountHash == s.store.accountHash)
    && (forall k <- s.store.stored :: k in t.store.stored && t.store.stored[k] == s.store.stored[k])
  }

  lemma CommitPageAdvances(s: Sys, i: nat, now: nat)
    requires Inv(s) && i in s.syncs && s.syncs[i].Fetching? && s.syncs[i].todo == []
    ensures Advances(s, DoCommit(s, i, now))
  {
    assert PcOk(s, s.syncs[i]);
    IngestAllMeaning(s.store.stored, s.syncs[i].events);
  }

  lemma CommitFullAdvances(s: Sys, i: nat, now: nat)
    requires Inv(s) && i in s.syncs && s.syncs[i].Collecting? && s.syncs[i].todo == []
    ensures Advances(s, DoCommitFull(s, i, now))
  {
    assert PcOk(s, s.syncs[i]);
    IngestAllMeaning(s.store.stored, Reverse(s.syncs[i].events));
  }

  lemma MailboxAdvances(s: Sys, step: Step)
    requires step.Arrive? || step.Relabelled? || step.Deleted? || step.Expired?
    ensures Advances(s, Apply(s, step))
  {
  }

  lemma CreationAdvances(s: Sys, step: Step)
    requires Inv(s) && (step.StartCursor? || step.RecordWatch? || step.Notify?)
    ensures Advances(s, Apply(s, step))
  {
  }

  lemma ReadingAdvances(s: Sys, step: Step)
    requires step.Begin? || step.WatchCall? || step.ReadPage? || step.FetchNext? || step.TakeProfile?
               || step.ListPage? || step.Crash?
    ensures Advances(s, Apply(s, step)) && Apply(s, step).store.lastSyncAt == s.store.lastSyncAt
  {
    assert Apply(s, step).store.(alerts := {}) == s.store.(alerts := {}) && Apply(s, step).box == s.box;
  }

  lemma StepAdvances(s: Sys, step: Step)
    requires Inv(s)
    ensures Advances(s, Apply(s, step))
  {
    match step
    case CommitPage(i, now) =>
      if i in s.syncs && s.syncs[i].Fetching? && s.syncs[i].todo == [] { CommitPageAdvances(s, i, now); }
    case CommitFull(i, now) =>
      if i in s.syncs && s.syncs[i].Collecting? && s.syncs[i].todo == [] { CommitFullAdvances(s, i, now); }
    case Arrive(_) => MailboxAdvances(s, step);
    case Relabelled(_, _) => MailboxAdvances(s, step);
    case Deleted(_) => MailboxAdvances(s, step);
    case Expired(_) => MailboxAdvances(s, step);
    case StartCursor(_, _, _) => CreationAdvances(s, step);
    case RecordWatch(_, _, _) => CreationAdvances(s, step);
    case Notify(_, _) => CreationAdvances(s, step);
    case _ => ReadingAdvances(s, step);
  }

  /** Between any two moments of any run, full syncs included: the cursor never decreases, a stored
      event is never replaced, the account never changes, and the cursor never passes the head. */
  lemma {:induction false} CursorAndEventsOnlyGrow(box: Mailbox, steps: seq<Step>, k: nat)
    requires Valid(box) && k <= |steps|
    ensures Advances(Run(Init(box), steps[..k]), Run(Init(box), steps))
    ensures var s := Run(Init(box), steps); s.store.historyId.Some? ==> s.store.historyId.value <= s.box.head
    decreases |steps|
  {
    RunKeepsInv(box, steps);
    var n := |steps| - 1;
    if k <= n {
      CursorAndEventsOnlyGrow(box, steps[..n], k);
      assert steps[..n][..k] == steps[..k];
      RunKeepsInv(box, steps[..n]);
      StepAdvances(Run(Init(box), steps[..n]), steps[n]);
    } else {
      assert steps[..k] == steps;
    }
  }

  /** Exactly once: the accepted results returned so far count the stored events, each stored under its
      own key; cursor and account exist together. */
  lemma ExactlyOnce(box: Mailbox, steps: seq<Step>)
    requires Valid(box)
    ensures var s := Run(Init(box), steps);
            && s.accepted == |s.store.stored|
            && (forall k <- s.store.stored :: s.store.stored[k].key == k)
            && (s.store.historyId.Some? <==> s.store.accountHash.Some?)
  {
    RunKeepsInv(box, steps);
  }
}
