/** Which heads of the mailbox a sync reaches, and when it took them. */
module GmailHeads {
  import opened Wrappers
  import opened GmailStore
  import opened GmailMailbox
  import opened GmailSync
  import opened GmailProtocol
  import opened GmailWitnesses
  import opened GmailTheorems

  /** The head a sync commits to, once it has one: the last page's, or the full sync's profile. */
  function Target(pc: Pc): Option<nat> {
    match pc
    case Fetching(_, _, to, last, _, _, _) => if last then Some(to) else None
    case Listing(_, head, _, _) => Some(head)
    case Collecting(_, head, _, _, _) => Some(head)
    case _ => None
  }

  predicate InFullSync(pc: Pc) { pc.Listing? || pc.Collecting? }

  predicate SameTarget(p: Pc, q: Pc) {
    Target(p) == Target(q) && InFullSync(p) == InFullSync(q) && (InFullSync(q) ==> p.seen == q.seen)
  }

  /** The step gives sync `i` its target: the present head, by reading the last page, or by taking a profile and with it
      the length of the log. */
  ghost predicate TakenBy(s: Sys, step: Step, i: nat, pc: Pc) {
    && Target(pc) == Some(s.box.head) && i in s.syncs
    && if InFullSync(pc) then step == TakeProfile(i) && s.syncs[i].Profiling? && pc.seen == |s.box.log|
       else step.ReadPage? && step.i == i && s.syncs[i].Reading?
  }

  /** The target was taken in step `k`, and at every moment since the sync has had it: a full sync has been listing or
      collecting under the head of its own profile. */
  ghost predicate TakenAt(box: Mailbox, steps: seq<Step>, k: nat, i: nat, pc: Pc) {
    && k < |steps| && TakenBy(Moment(box, steps, k), steps[k], i, pc)
    && forall j | k < j <= |steps| :: HasTarget(Moment(box, steps, j), i, pc)
  }

  ghost predicate HasTarget(s: Sys, i: nat, pc: Pc) { i in s.syncs && SameTarget(s.syncs[i], pc) }

  // ----- One step

  lemma ReadTarget(s: Sys, i: nat, max: nat, shown: bool)
    requires Inv(s) && i in s.syncs && s.syncs[i].Reading?
    ensures var pc := DoReadPage(s, i, max, shown).syncs[i];
            Target(pc).Some? ==> TakenBy(s, ReadPage(i, max, shown), i, pc)
  {
    assert PcOk(s, s.syncs[i]);
  }

  lemma FetchTarget(s: Sys, i: nat)
    requires i in s.syncs && (s.syncs[i].Fetching? || s.syncs[i].Collecting?) && s.syncs[i].todo != []
    ensures HasTarget(s, i, DoFetch(s, i).syncs[i])
  {
  }

  lemma ListTarget(s: Sys, i: nat, listed: seq<MsgId>, more: bool)
    requires i in s.syncs && s.syncs[i].Listing?
    ensures HasTarget(s, i, DoList(s, i, listed, more).syncs[i])
  {
  }

  predicate OtherSync(step: Step, i: nat) {
    match step
    case ReadPage(j, _, _) => j != i
    case FetchNext(j) => j != i
    case ListPage(j, _, _) => j != i
    case TakeProfile(j) => j != i
    case _ => true
  }

  /** Steps other than these give no sync a target, and leave those of the others. */
  lemma OtherTarget(s: Sys, step: Step, i: nat)
    requires OtherSync(step, i) && i in Apply(s, step).syncs && Target(Apply(s, step).syncs[i]).Some?
    ensures i in s.syncs && s.syncs[i] == Apply(s, step).syncs[i]
  {
  }

  /** A target is taken from the head of the moment it is taken in, or the sync had it before. */
  lemma TargetStep(s: Sys, step: Step, i: nat)
    requires Inv(s) && i in Apply(s, step).syncs && Target(Apply(s, step).syncs[i]).Some?
    ensures TakenBy(s, step, i, Apply(s, step).syncs[i]) || HasTarget(s, i, Apply(s, step).syncs[i])
  {
    if OtherSync(step, i) {
      OtherTarget(s, step, i);
    } else if Apply(s, step) != s {
      match step
      case ReadPage(_, max, shown) => ReadTarget(s, i, max, shown);
      case FetchNext(_) => FetchTarget(s, i);
      case ListPage(_, listed, more) => ListTarget(s, i, listed, more);
      case TakeProfile(_) =>
    }
  }

  // ----- Over every run

  lemma TakenStays(box: Mailbox, steps: seq<Step>, n: nat, k: nat, i: nat, p: Pc, q: Pc)
    requires n + 1 == |steps| && TakenAt(box, steps[..n], k, i, p) && SameTarget(p, q)
    requires HasTarget(Run(Init(box), steps), i, q)
    ensures TakenAt(box, steps, k, i, q)
  {
    MomentStays(box, steps, n, k);
    LastMoment(box, steps);
    forall j | k < j <= n ensures HasTarget(Moment(box, steps, j), i, q) {
      assert HasTarget(Moment(box, steps[..n], j), i, p);
      MomentStays(box, steps, n, j);
    }
  }

  lemma TakenNow(box: Mailbox, steps: seq<Step>, n: nat, i: nat)
    requires n + 1 == |steps| && i in Run(Init(box), steps).syncs
    requires TakenBy(Run(Init(box), steps[..n]), steps[n], i, Run(Init(box), steps).syncs[i])
    ensures TakenAt(box, steps, n, i, Run(Init(box), steps).syncs[i])
  {
    LastMoment(box, steps);
  }

  /** Over every run: the head a sync is going to commit to was the mailbox's head when the sync itself took it, by its
      last page or by its profile; a full sync's profile comes before its whole listing. */
  lemma {:induction false} TargetWasHead(box: Mailbox, steps: seq<Step>, i: nat)
    requires Valid(box)
    requires var s := Run(Init(box), steps); i in s.syncs && Target(s.syncs[i]).Some?
    ensures exists k: nat :: TakenAt(box, steps, k, i, Run(Init(box), steps).syncs[i])
    decreases |steps|
  {
    var n := |steps| - 1;
    var s, t := Run(Init(box), steps[..n]), Run(Init(box), steps);
    RunKeepsInv(box, steps[..n]);
    TargetStep(s, steps[n], i);
    if HasTarget(s, i, t.syncs[i]) {
      TargetWasHead(box, steps[..n], i);
      var k: nat :| TakenAt(box, steps[..n], k, i, s.syncs[i]);
      TakenStays(box, steps, n, k, i, s.syncs[i], t.syncs[i]);
    } else {
      TakenNow(box, steps, n, i);
    }
  }

  // ----- Completed syncs

  lemma PageSynced(s: Sys, i: nat, now: nat)
    requires i in s.syncs && s.syncs[i].Fetching? && s.syncs[i].todo == []
    requires DoCommit(s, i, now).store.lastSyncAt != s.store.lastSyncAt
    ensures s.syncs[i].last && DoCommit(s, i, now).store.historyId == Some(s.syncs[i].to)
    ensures DoCommit(s, i, now).box == s.box
  {
  }

  lemma FullSynced(s: Sys, i: nat, now: nat)
    requires i in s.syncs && s.syncs[i].Collecting? && s.syncs[i].todo == []
    requires DoCommitFull(s, i, now).store.lastSyncAt != s.store.lastSyncAt
    ensures DoCommitFull(s, i, now).store.historyId == Some(s.syncs[i].head) && DoCommitFull(s, i, now).box == s.box
  {
  }

  lemma OthersDoNotSync(s: Sys, step: Step)
    requires !step.CommitPage? && !step.CommitFull?
    ensures Apply(s, step).store.lastSyncAt == s.store.lastSyncAt
  {
  }

  /** What `lastSyncAt` moving tells of the step. */
  lemma SyncedByCommit(s: Sys, step: Step)
    requires Apply(s, step).store.lastSyncAt != s.store.lastSyncAt
    ensures step.CommitPage? || step.CommitFull?
    ensures step.i in s.syncs && Target(s.syncs[step.i]) == Apply(s, step).store.historyId
    ensures Target(s.syncs[step.i]).Some? && Apply(s, step).box == s.box
    ensures step.CommitFull? <==> InFullSync(s.syncs[step.i])
  {
    if !step.CommitPage? && !step.CommitFull? { OthersDoNotSync(s, step); }
    match step
    case CommitPage(i, now) => PageSynced(s, i, now);
    case CommitFull(i, now) => FullSynced(s, i, now);
  }

  /** The cursor of `t` is the head that sync `i` took in step `k`; in a full sync, by the profile before its listing,
      and everything recorded since that profile lies above the cursor. */
  ghost predicate ReachedHeadAt(box: Mailbox, steps: seq<Step>, k: nat, i: nat, t: Sys) {
    && i in Run(Init(box), steps).syncs && TakenAt(box, steps, k, i, Run(Init(box), steps).syncs[i])
    && var past := Moment(box, steps, k).box;
       t.store.historyId == Some(past.head) && LogGrows(past, t.box)
  }

  /** `lastSyncAt` moves only in a commit, of a last page or of a full sync, whose new cursor is the head that this very
      sync took before. */
  lemma LastSyncReachedAHead(box: Mailbox, steps: seq<Step>, step: Step)
    requires Valid(box)
    requires Apply(Run(Init(box), steps), step).store.lastSyncAt != Run(Init(box), steps).store.lastSyncAt
    ensures step.CommitPage? || step.CommitFull?
    ensures exists k: nat :: ReachedHeadAt(box, steps, k, step.i, Apply(Run(Init(box), steps), step))
    ensures step.CommitFull? <==> InFullSync(Run(Init(box), steps).syncs[step.i])
  {
    var s := Run(Init(box), steps);
    SyncedByCommit(s, step);
    TargetWasHead(box, steps, step.i);
    var k: nat :| TakenAt(box, steps, k, step.i, s.syncs[step.i]);
    LogSince(box, steps, k);
    assert ReachedHeadAt(box, steps, k, step.i, Apply(s, step));
  }
}
