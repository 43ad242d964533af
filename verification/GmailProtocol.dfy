/** The sync protocol as a transition system. Mail arrives, moves and is deleted; history expires;
    any number of syncs and watch renewals run interleaved, each step atomic where the source awaits
    between steps, and each may crash or be aborted anywhere. A run is a sequence of steps; every
    result holds for all of them. */
module GmailProtocol {
  import opened Wrappers
  import opened GmailStore
  import opened GmailMailbox
  import opened GmailSync

  /** Where an in-flight activity stands, with the variables it holds there. */
  datatype Pc =
    | Starting(head: nat)
    | Watching(head: nat)
    | Reading(start: nat, cursor: nat, offset: nat)
    | Fetching(start: nat, cursor: nat, to: nat, last: bool, next: nat, todo: seq<MsgId>, events: seq<Event>)
    | Profiling(cursor: nat)
    | Listing(cursor: nat, head: nat, seen: nat, refs: seq<MsgId>)
    | Collecting(cursor: nat, head: nat, seen: nat, todo: seq<MsgId>, events: seq<Event>)

  /** `first`: the first cursor. `floor`: the first cursor, or the cursor of the last full sync.
      `gone`: the messages a sync saw deleted or excluded, each with the history id up to which that excuses it.
      `accepted`: the accepted results returned so far. */
  datatype Sys = Sys(box: Mailbox, store: Store, syncs: map<nat, Pc>,
                     first: nat, floor: nat, gone: map<MsgId, nat>, accepted: nat)

  datatype Step =
    | Arrive(message: Message)
    | Relabelled(id: MsgId, labels: set<Label>)
    | Deleted(id: MsgId)
    | Expired(oldest: nat)
    | Begin(i: nat)
    | StartCursor(i: nat, account: string, now: nat)
    | WatchCall(i: nat)
    | RecordWatch(i: nat, account: string, now: nat)
    | ReadPage(i: nat, max: nat, shown: bool)
    | FetchNext(i: nat)
    | CommitPage(i: nat, now: nat)
    | TakeProfile(i: nat)
    | ListPage(i: nat, listed: seq<MsgId>, more: bool)
    | CommitFull(i: nat, now: nat)
    | Notify(pubsubId: nat, hash: int)
    | Crash(i: nat)

  const MAX_FULL_SYNC_MESSAGES := 500

  function Init(box: Mailbox): Sys {
    Sys(box, EMPTY, map[], 0, 0, map[], 0)
  }

  function At(s: Sys, i: nat, pc: Pc): Sys { s.(syncs := s.syncs[i := pc]) }

  function Ended(s: Sys, i: nat): Sys { s.(syncs := s.syncs - {i}) }

  /** The cursor is created: from here on every inbox record above `head` counts. */
  function Created(s: Sys, store: Store, head: nat): Sys {
    if s.store.historyId.None? then s.(store := store, first := head, floor := head) else s.(store := store)
  }

  /** A first start reads the profile; otherwise the history is read from the stored cursor. */
  function DoBegin(s: Sys, i: nat): Sys {
    match s.store.historyId
    case None => At(s, i, Starting(s.box.head))
    case Some(cursor) => At(s, i, Reading(cursor, cursor, 0))
  }

  /** The message was seen gone: that excuses its records up to `at`. */
  function Note(gone: map<MsgId, nat>, m: MsgId, at: nat): map<MsgId, nat> {
    gone[m := if m in gone && gone[m] > at then gone[m] else at]
  }

  /** Records whose labels, as Gmail sent them, exclude their message. */
  function NoteExcluded(gone: map<MsgId, nat>, records: seq<Record>, shown: bool): map<MsgId, nat> {
    if records == [] then gone else
      var n := |records| - 1;
      var before := NoteExcluded(gone, records[..n], shown);
      if shown && Excluded(records[n].labels) then Note(before, records[n].msg, records[n].id) else before
  }

  function DoReadPage(s: Sys, i: nat, max: nat, shown: bool): Sys
    requires i in s.syncs && s.syncs[i].Reading?
  {
    var pc := s.syncs[i];
    match HistoryPage(s.box, pc.start, pc.offset, max)
    case None => At(s, i, Profiling(pc.cursor))
    case Some(page) =>
      var refs := RefsOf(page.records, shown);
      At(s, i, Fetching(pc.start, pc.cursor, Reach(page, pc.cursor), page.next.None?,
                        if page.next.Some? then page.next.value else 0, Unique(refs), []))
        .(gone := NoteExcluded(s.gone, page.records, shown))
  }

  /** Fetches the next message: an event, a skipped message, or an alert raised at once. */
  function DoFetch(s: Sys, i: nat): Sys
    requires i in s.syncs && (s.syncs[i].Fetching? || s.syncs[i].Collecting?) && s.syncs[i].todo != []
  {
    var pc := s.syncs[i];
    var m := pc.todo[0];
    match Fetch(s.box, m, if pc.Fetching? then History else Listed)
    case Skip => At(s, i, pc.(todo := pc.todo[1..]))
        .(gone := if pc.Fetching? then Note(s.gone, m, s.box.head) else s.gone)
    case Deliverable(e) => At(s, i, pc.(todo := pc.todo[1..], events := pc.events + [e]))
    case Broken => At(s, i, pc.(todo := pc.todo[1..])).(store := AlertStore(s.store, Unreadable(m)))
  }

  /** Commits a page, or moves on without a commit when the page brought nothing. */
  function DoCommit(s: Sys, i: nat, now: nat): Sys
    requires i in s.syncs && s.syncs[i].Fetching? && s.syncs[i].todo == []
  {
    var pc := s.syncs[i];
    if !(pc.last || pc.to != pc.cursor || pc.events != []) then At(s, i, Reading(pc.start, pc.cursor, pc.next)) else
      var d := Delta(pc.cursor, pc.to, pc.events, pc.last, None);
      if !Commits(s.store, d) then Ended(s, i) else
        var t := s.(store := CommitStore(s.store, d, now),
                    accepted := s.accepted + AcceptedIn(s.store.stored, d.events));
        if pc.last then Ended(t, i) else At(t, i, Reading(pc.start, pc.to, pc.next))
  }

  /** A listing page is whatever Gmail answers; the listing stops without a next page or when full. */
  function DoList(s: Sys, i: nat, listed: seq<MsgId>, more: bool): Sys
    requires i in s.syncs && s.syncs[i].Listing?
  {
    var pc := s.syncs[i];
    var refs := pc.refs + listed;
    if more && |refs| < MAX_FULL_SYNC_MESSAGES then At(s, i, pc.(refs := refs)) else
      At(s, i, Collecting(pc.cursor, pc.head, pc.seen,
                          if |refs| > MAX_FULL_SYNC_MESSAGES then refs[..MAX_FULL_SYNC_MESSAGES] else refs, []))
  }

  function Reverse<T>(s: seq<T>): seq<T> { if s == [] then [] else Reverse(s[1..]) + [s[0]] }

  function DoCommitFull(s: Sys, i: nat, now: nat): Sys
    requires i in s.syncs && s.syncs[i].Collecting? && s.syncs[i].todo == []
  {
    var pc := s.syncs[i];
    var d := Delta(pc.cursor, pc.head, Reverse(pc.events), true, Some(FullSync(pc.head)));
    if !Commits(s.store, d) then Ended(s, i) else
      Ended(s.(store := CommitStore(s.store, d, now), floor := pc.head,
               accepted := s.accepted + AcceptedIn(s.store.stored, d.events)), i)
  }

  /** One step; a step that is not enabled changes nothing. */
  function Apply(s: Sys, step: Step): Sys {
    match step
    case Arrive(message) => s.(box := Deliver(s.box, message))
    case Relabelled(id, labels) => s.(box := SetLabels(s.box, id, labels))
    case Deleted(id) => s.(box := Remove(s.box, id))
    case Expired(oldest) => s.(box := Expire(s.box, oldest))
    case Begin(i) => if i in s.syncs then s else DoBegin(s, i)
    case StartCursor(i, account, now) =>
      if i in s.syncs && s.syncs[i].Starting? then
        Ended(Created(s, StartStore(s.store, s.syncs[i].head, account, now), s.syncs[i].head), i)
      else s
    case WatchCall(i) => if i in s.syncs then s else At(s, i, Watching(s.box.head))
    case RecordWatch(i, account, now) =>
      if i in s.syncs && s.syncs[i].Watching? then
        Ended(Created(s, WatchStore(s.store, s.syncs[i].head, account, now), s.syncs[i].head), i)
      else s
    case ReadPage(i, max, shown) => if i in s.syncs && s.syncs[i].Reading? then DoReadPage(s, i, max, shown) else s
    case FetchNext(i) =>
      if i in s.syncs && (s.syncs[i].Fetching? || s.syncs[i].Collecting?) && s.syncs[i].todo != [] then DoFetch(s, i)
          else s
    case CommitPage(i, now) =>
      if i in s.syncs && s.syncs[i].Fetching? && s.syncs[i].todo == [] then DoCommit(s, i, now) else s
    case TakeProfile(i) =>
      if i in s.syncs && s.syncs[i].Profiling? then
        At(s, i, Listing(s.syncs[i].cursor, s.box.head, |s.box.log|, []))
      else s
    case ListPage(i, listed, more) => if i in s.syncs && s.syncs[i].Listing? then DoList(s, i, listed, more) else s
    case CommitFull(i, now) =>
      if i in s.syncs && s.syncs[i].Collecting? && s.syncs[i].todo == [] then DoCommitFull(s, i, now) else s
    case Notify(pubsubId, hash) =>
      var e := Event(Notification(pubsubId), hash);
      s.(store := NotifyStore(s.store, e), accepted := s.accepted + if e.key in s.store.stored then 0 else 1)
    case Crash(i) => Ended(s, i)
  }

  function Run(s: Sys, steps: seq<Step>): Sys {
    if steps == [] then s else Apply(Run(s, steps[..|steps| - 1]), steps[|steps| - 1])
  }

  lemma RunSnoc(s: Sys, steps: seq<Step>, step: Step)
    ensures Run(s, steps + [step]) == Apply(Run(s, steps), step)
  {
    assert (steps + [step])[..|steps|] == steps;
  }

  lemma {:induction false} RunConcat(s: Sys, a: seq<Step>, b: seq<Step>)
    ensures Run(Run(s, a), b) == Run(s, a + b)
  {
    if b == [] {
      assert a + b == a;
    } else {
      var n := |b| - 1;
      RunConcat(s, a, b[..n]);
      RunSnoc(Run(s, a), b[..n], b[n]);
      RunSnoc(s, a + b[..n], b[n]);
      assert b == b[..n] + [b[n]] && a + b == a + b[..n] + [b[n]];
    }
  }

  lemma RunOne(s: Sys, step: Step)
    ensures Run(s, [step]) == Apply(s, step)
  {
    assert [step][..0] == [];
  }

  // ----- What is promised

  /** A sync saw the record's message deleted or excluded, at or after the record. */
  ghost predicate SeenGone(s: Sys, r: Record) { r.msg in s.gone && s.gone[r.msg] >= r.id }

  /** The message's event is stored, or a sync saw it gone since the record, or an alert names it. */
  ghost predicate Handled(s: Sys, r: Record) {
    Mail(r.msg) in s.store.stored || SeenGone(s, r) || Unreadable(r.msg) in s.store.alerts
  }

  ghost predicate NoLoss(s: Sys) {
    s.store.historyId.Some? ==>
      forall r <- s.box.log | Inbox(r) && s.floor < r.id <= s.store.historyId.value :: Handled(s, r)
  }

  ghost predicate CursorOk(s: Sys) {
    && (s.store.historyId.Some? ==> s.first <= s.floor <= s.store.historyId.value <= s.box.head)
    && (s.floor > s.first ==> FullSync(s.floor) in s.store.alerts)
    && (s.store.historyId.None? ==> s.floor == s.first == 0)
  }

  ghost predicate StoreOk(s: Sys) {
    && s.accepted == |s.store.stored|
    && (s.store.historyId.Some? <==> s.store.accountHash.Some?)
    && (s.store.historyId.Some? <==> s.store.startedAt.Some?)
    && forall k <- s.store.stored :: s.store.stored[k].key == k
  }

  // ----- The invariant behind it

  ghost predicate Settled(s: Sys, events: seq<Event>, r: Record) {
    Mail(r.msg) in KeysOf(events) || SeenGone(s, r) || Unreadable(r.msg) in s.store.alerts
  }

  /** Every inbox record between the cursor and the page's reach is fetched or still to be fetched. */
  ghost predicate Covers(s: Sys, pc: Pc)
    requires pc.Fetching?
  {
    forall r <- s.box.log | Inbox(r) && pc.cursor < r.id <= pc.to :: r.msg in pc.todo || Settled(s, pc.events, r)
  }

  /** What a sync has read from offset zero lies at or below `bound`. */
  ghost predicate ReadUpTo(s: Sys, start: nat, offset: nat, bound: nat) {
    var after := After(s.box.log, start);
    offset <= |after| && forall j | 0 <= j < offset :: after[j].id <= bound
  }

  /** The log as it stood when the profile was read: everything since lies above `head`. */
  ghost predicate SplitAt(s: Sys, head: nat, seen: nat) {
    && seen <= |s.box.log|
    && (forall j | 0 <= j < seen :: s.box.log[j].id <= head)
    && (forall j | seen <= j < |s.box.log| :: s.box.log[j].id > head)
  }

  ghost predicate PcOk(s: Sys, pc: Pc) {
    match pc
    case Starting(head) => head <= s.box.head
    case Watching(head) => head <= s.box.head
    case Reading(start, cursor, offset) => start <= cursor <= s.box.head && ReadUpTo(s, start, offset, cursor)
    case Fetching(start, cursor, to, last, next, todo, events) =>
      start <= cursor <= to <= s.box.head && (!last ==> ReadUpTo(s, start, next, to)) && Covers(s, pc)
    case Profiling(cursor) => cursor <= s.box.head
    case Listing(cursor, head, seen, refs) => cursor <= head <= s.box.head && SplitAt(s, head, seen)
    case Collecting(cursor, head, seen, todo, events) => cursor <= head <= s.box.head && SplitAt(s, head, seen)
  }

  ghost predicate Inv(s: Sys) {
    && Valid(s.box) && CursorOk(s) && StoreOk(s) && NoLoss(s)
    && forall i <- s.syncs :: PcOk(s, s.syncs[i])
  }

  // ----- Frame lemmas

  lemma {:induction false} AfterPrefix(log: seq<Record>, more: seq<Record>, start: nat)
    ensures After(log, start) <= After(log + more, start)
  {
    if more == [] {
      assert log + more == log;
    } else {
      var n := |more| - 1;
      AfterPrefix(log, more[..n], start);
      assert log + more == (log + more[..n]) + [more[n]];
      AfterSnoc(log + more[..n], more[n], start);
    }
  }

  ghost predicate GoneGrows(a: map<MsgId, nat>, b: map<MsgId, nat>) { forall m <- a :: m in b && b[m] >= a[m] }

  /** `t` knows at least as much as `s`: the log only grew, above the old head. */
  ghost predicate Later(s: Sys, t: Sys) {
    && s.box.log <= t.box.log && s.box.head <= t.box.head
    && (forall j | |s.box.log| <= j < |t.box.log| :: t.box.log[j].id > s.box.head)
    && GoneGrows(s.gone, t.gone) && s.store.alerts <= t.store.alerts
    && s.store.stored.Keys <= t.store.stored.Keys
  }

  lemma LogTail(s: Sys, t: Sys, r: Record)
    requires Later(s, t) && r in t.box.log && r.id <= s.box.head
    ensures r in s.box.log
  {
    var j :| 0 <= j < |t.box.log| && t.box.log[j] == r;
    assert j < |s.box.log| && s.box.log[j] == r;
  }

  /** What a sync knows stays true while others, and the mailbox, move on. */
  lemma PcStable(s: Sys, t: Sys, pc: Pc)
    requires Later(s, t) && PcOk(s, pc)
    ensures PcOk(t, pc)
  {
    var more := t.box.log[|s.box.log|..];
    assert t.box.log == s.box.log + more;
    match pc
    case Reading(start, _, _) => AfterPrefix(s.box.log, more, start);
    case Fetching(start, _, _, _, _, _, _) =>
      AfterPrefix(s.box.log, more, start);
      forall r <- t.box.log | Inbox(r) && pc.cursor < r.id <= pc.to
        ensures r.msg in pc.todo || Settled(t, pc.events, r)
      {
        LogTail(s, t, r);
      }
    case _ =>
  }

  lemma HandledStable(s: Sys, t: Sys)
    requires Later(s, t) && NoLoss(s) && CursorOk(s)
    requires s.store.historyId.Some? && t.store.historyId == s.store.historyId && t.floor == s.floor
    ensures NoLoss(t)
  {
    forall r <- t.box.log | Inbox(r) && t.floor < r.id <= t.store.historyId.value ensures Handled(t, r) {
      LogTail(s, t, r);
    }
  }

  /** A step that only adds knowledge, with every activity where it was or shown right, keeps the invariant. */
  lemma Moved(s: Sys, t: Sys)
    requires Inv(s) && Later(s, t) && Valid(t.box) && StoreOk(t)
    requires t.store.historyId == s.store.historyId && t.floor == s.floor && t.first == s.first
    requires forall j <- t.syncs :: (j in s.syncs && t.syncs[j] == s.syncs[j]) || PcOk(t, t.syncs[j])
    ensures Inv(t)
  {
    if s.store.historyId.Some? { HandledStable(s, t); }
    forall j <- t.syncs ensures PcOk(t, t.syncs[j]) {
      if j in s.syncs && t.syncs[j] == s.syncs[j] { PcStable(s, t, s.syncs[j]); }
    }
  }

  // ----- Each step keeps the invariant

  lemma MailboxStep(s: Sys, step: Step)
    requires Inv(s) && (step.Arrive? || step.Relabelled? || step.Deleted? || step.Expired?)
    ensures Inv(Apply(s, step))
  {
    Moved(s, Apply(s, step));
  }

  /** A history page covers every inbox record between the cursor and its reach. */
  lemma ReadPageStep(s: Sys, i: nat, max: nat, shown: bool)
    requires Inv(s) && i in s.syncs && s.syncs[i].Reading?
    ensures Inv(DoReadPage(s, i, max, shown))
  {
    var pc := s.syncs[i];
    var t := DoReadPage(s, i, max, shown);
    if pc.start >= s.box.oldest {
      NotesExcluded(s.gone, HistoryPage(s.box, pc.start, pc.offset, max).value.records, shown, 0);
      PageCovers(s, i, max, shown);
      PageReads(s, i, max, shown);
    }
    Moved(s, t);
  }

  lemma PageReads(s: Sys, i: nat, max: nat, shown: bool)
    requires Inv(s) && i in s.syncs && s.syncs[i].Reading? && s.syncs[i].start >= s.box.oldest
    ensures var t := DoReadPage(s, i, max, shown); var pc := t.syncs[i];
            pc.Fetching? && pc.cursor <= pc.to <= s.box.head && (!pc.last ==> ReadUpTo(t, pc.start, pc.next, pc.to))
  {
    var pc := s.syncs[i];
    var after := After(s.box.log, pc.start);
    AfterOrdered(s.box.log, pc.start, s.box.head);
    if pc.offset + max < |after| && max > 0 {
      assert Slice(after, pc.offset, max) == after[pc.offset..pc.offset + max];
      assert forall j | 0 <= j < pc.offset + max :: after[j].id <= after[pc.offset + max - 1].id;
    }
  }

  /** A record above the cursor and within the page's reach is on the page. */
  lemma OnPage(box: Mailbox, start: nat, cursor: nat, offset: nat, max: nat, r: Record)
    requires Valid(box) && start >= box.oldest && start <= cursor && offset <= |After(box.log, start)|
    requires forall j | 0 <= j < offset :: After(box.log, start)[j].id <= cursor
    requires r in box.log && Inbox(r) && cursor < r.id <= Reach(HistoryPage(box, start, offset, max).value, cursor)
    ensures r in HistoryPage(box, start, offset, max).value.records
  {
    var after, page := After(box.log, start), HistoryPage(box, start, offset, max).value;
    AfterOrdered(box.log, start, box.head);
    AfterMembers(box.log, start, r);
    assert r in after;
    var j :| 0 <= j < |after| && after[j] == r;
    assert offset <= j;
    assert page.next.Some? ==> page.records == [] || j < offset + max;
    assert page.records[j - offset] == r;
  }

  /** Noting excluded records takes back no excuse, and gives each of them one. */
  lemma {:induction false} NotesExcluded(gone: map<MsgId, nat>, records: seq<Record>, shown: bool, k: nat)
    ensures GoneGrows(gone, NoteExcluded(gone, records, shown))
    ensures k < |records| && shown && Excluded(records[k].labels) ==>
              var after := NoteExcluded(gone, records, shown);
              records[k].msg in after && after[records[k].msg] >= records[k].id
  {
    if records != [] { NotesExcluded(gone, records[..|records| - 1], shown, k); }
  }

  lemma PageCovers(s: Sys, i: nat, max: nat, shown: bool)
    requires Inv(s) && i in s.syncs && s.syncs[i].Reading? && s.syncs[i].start >= s.box.oldest
    ensures var t := DoReadPage(s, i, max, shown); t.syncs[i].Fetching? && Covers(t, t.syncs[i])
  {
    var pc := s.syncs[i];
    var t := DoReadPage(s, i, max, shown);
    var page := HistoryPage(s.box, pc.start, pc.offset, max).value;
    var refs := RefsOf(page.records, shown);
    forall r <- s.box.log | Inbox(r) && pc.cursor < r.id <= Reach(page, pc.cursor)
      ensures r.msg in Unique(refs) || SeenGone(t, r)
    {
      OnPage(s.box, pc.start, pc.cursor, pc.offset, max, r);
      var k :| 0 <= k < |page.records| && page.records[k] == r;
      assert refs[k] in refs && refs[k].msg == r.msg;
      UniqueMeaning(refs, r.msg);
      BarredIsExcluded(r.labels);
      NotesExcluded(s.gone, page.records, shown, k);
    }
  }

  lemma FetchCovers(s: Sys, i: nat, r: Record)
    requires i in s.syncs && s.syncs[i].Fetching? && s.syncs[i].todo != [] && r.id <= s.box.head
    requires r.msg in s.syncs[i].todo || Settled(s, s.syncs[i].events, r)
    ensures var t := DoFetch(s, i); var q := t.syncs[i];
            q.Fetching? && (r.msg in q.todo || Settled(t, q.events, r))
  {
    var pc := s.syncs[i];
    var m := pc.todo[0];
    assert pc.todo == [m] + pc.todo[1..];
    var fetched := Fetch(s.box, m, History);
    if fetched.Deliverable? { KeysOfSnoc(pc.events, fetched.event); }
  }

  /** Fetching one message keeps what the sync knows about its page. */
  lemma FetchPc(s: Sys, i: nat)
    requires Inv(s) && i in s.syncs && s.syncs[i].Fetching? && s.syncs[i].todo != []
    ensures var t := DoFetch(s, i); PcOk(t, t.syncs[i])
  {
    var t := DoFetch(s, i);
    assert PcOk(s, s.syncs[i]) && t.box == s.box;
    forall r <- t.box.log | Inbox(r) && t.syncs[i].cursor < r.id <= t.syncs[i].to
      ensures r.msg in t.syncs[i].todo || Settled(t, t.syncs[i].events, r)
    {
      FetchCovers(s, i, r);
    }
  }

  /** Fetching one message touches nothing but its own sync, `gone` and the alerts. */
  lemma FetchFrame(s: Sys, i: nat)
    requires Inv(s) && i in s.syncs && (s.syncs[i].Fetching? || s.syncs[i].Collecting?) && s.syncs[i].todo != []
    ensures var t := DoFetch(s, i);
            && Later(s, t) && t.box == s.box && StoreOk(t)
            && t.store.historyId == s.store.historyId && t.floor == s.floor && t.first == s.first
            && t.syncs.Keys == s.syncs.Keys && (forall j <- s.syncs :: j != i ==> t.syncs[j] == s.syncs[j])
            && (s.syncs[i].Collecting? ==> PcOk(t, t.syncs[i]))
  {
    var m := s.syncs[i].todo[0];
    var fetched := Fetch(s.box, m, if s.syncs[i].Fetching? then History else Listed);
    match fetched
    case Skip =>
    case Deliverable(_) =>
    case Broken =>
  }

  lemma FetchStep(s: Sys, i: nat)
    requires Inv(s) && i in s.syncs && (s.syncs[i].Fetching? || s.syncs[i].Collecting?) && s.syncs[i].todo != []
    ensures Inv(DoFetch(s, i))
  {
    var t := DoFetch(s, i);
    FetchFrame(s, i);
    if s.syncs[i].Fetching? { FetchPc(s, i); }
    Moved(s, t);
  }

  /** A commit grows the dedupe map by exactly what it reports as accepted and forgets nothing. */
  lemma CommitFacts(s: Store, d: Delta, now: nat)
    requires Commits(s, d) && forall k <- s.stored :: s.stored[k].key == k
    ensures var t := CommitStore(s, d, now);
            t.stored.Keys == s.stored.Keys + KeysOf(d.events)
                && |t.stored| == |s.stored| + AcceptedIn(s.stored, d.events)
            && forall k <- t.stored :: t.stored[k].key == k
  {
    IngestAllMeaning(s.stored, d.events);
    IngestKeyed(s.stored, d.events);
    AcceptedGrow(s.stored, d.events);
  }

  lemma {:induction false} IngestKeyed(m: map<EventKey, Event>, events: seq<Event>)
    requires forall k <- m :: m[k].key == k
    ensures forall k <- IngestAll(m, events) :: IngestAll(m, events)[k].key == k
  {
    if events != [] { IngestKeyed(m, events[..|events| - 1]); }
  }

  /** The heart of the protocol: a successful compare-and-set means the local cursor is the stored
      one, so the page's records continue exactly where the stored events end. */
  lemma CommitStep(s: Sys, i: nat, now: nat)
    requires Inv(s) && i in s.syncs && s.syncs[i].Fetching? && s.syncs[i].todo == []
    ensures Inv(DoCommit(s, i, now))
  {
    var pc := s.syncs[i];
    var t := DoCommit(s, i, now);
    var d := Delta(pc.cursor, pc.to, pc.events, pc.last, None);
    if !(pc.last || pc.to != pc.cursor || pc.events != []) || !Commits(s.store, d) {
      Moved(s, t);
    } else {
      CommitFacts(s.store, d, now);
      assert Later(s, t);
      forall r <- t.box.log | Inbox(r) && t.floor < r.id <= t.store.historyId.value ensures Handled(t, r) {
        if r.id <= pc.cursor {
          assert Handled(s, r);
        } else {
          assert Settled(s, pc.events, r);
        }
      }
      forall j <- t.syncs ensures PcOk(t, t.syncs[j]) {
        if j != i { PcStable(s, t, s.syncs[j]); }
      }
    }
  }

  lemma CommitFullStep(s: Sys, i: nat, now: nat)
    requires Inv(s) && i in s.syncs && s.syncs[i].Collecting? && s.syncs[i].todo == []
    ensures Inv(DoCommitFull(s, i, now))
  {
    var pc := s.syncs[i];
    var t := DoCommitFull(s, i, now);
    var d := Delta(pc.cursor, pc.head, Reverse(pc.events), true, Some(FullSync(pc.head)));
    if !Commits(s.store, d) {
      Moved(s, t);
    } else {
      CommitFacts(s.store, d, now);
      forall j <- t.syncs ensures PcOk(t, t.syncs[j]) { PcStable(s, t, s.syncs[j]); }
    }
  }

  lemma CreateStep(s: Sys, step: Step)
    requires Inv(s) && (step.StartCursor? || step.RecordWatch?)
    ensures Inv(Apply(s, step))
  {
    var t := Apply(s, step);
    if t != s {
      if s.store.historyId.Some? {
        Moved(s, t);
      } else {
        forall j <- t.syncs ensures PcOk(t, t.syncs[j]) { PcStable(s, t, s.syncs[j]); }
      }
    }
  }

  lemma NotifyStep(s: Sys, step: Step)
    requires Inv(s) && step.Notify?
    ensures Inv(Apply(s, step))
  {
    var t := Apply(s, step);
    assert StoreOk(t);
    Moved(s, t);
  }

  /** Beginning, taking a profile, listing, a watch call and a crash. */
  lemma QuietStep(s: Sys, step: Step)
    requires Inv(s)
    requires step.Begin? || step.WatchCall? || step.TakeProfile? || step.ListPage? || step.Crash?
    ensures Inv(Apply(s, step))
  {
    var t := Apply(s, step);
    assert t.box == s.box && t.store == s.store && t.gone == s.gone && t.floor == s.floor;
    if !step.Crash? && t != s { QuietPc(s, step); }
    Moved(s, t);
  }

  lemma QuietPc(s: Sys, step: Step)
    requires Inv(s) && (step.Begin? || step.WatchCall? || step.TakeProfile? || step.ListPage?) && Apply(s, step) != s
    ensures var t := Apply(s, step); step.i in t.syncs && PcOk(t, t.syncs[step.i])
  {
    if step.i in s.syncs { assert PcOk(s, s.syncs[step.i]); }
    match step
    case ListPage(i, listed, more) => ListPc(s, i, listed, more);
    case TakeProfile(i) => ProfilePc(s, i);
    case _ =>
  }

  lemma ListPc(s: Sys, i: nat, listed: seq<MsgId>, more: bool)
    requires i in s.syncs && s.syncs[i].Listing? && PcOk(s, s.syncs[i])
    ensures var t := DoList(s, i, listed, more); i in t.syncs && PcOk(t, t.syncs[i])
  {
  }

  /** A profile splits the log at the present head. */
  lemma ProfilePc(s: Sys, i: nat)
    requires Valid(s.box) && i in s.syncs && s.syncs[i].Profiling? && PcOk(s, s.syncs[i])
    ensures var t := Apply(s, TakeProfile(i)); i in t.syncs && PcOk(t, t.syncs[i])
  {
  }

  lemma StepKeepsInv(s: Sys, step: Step)
    requires Inv(s)
    ensures Inv(Apply(s, step))
  {
    match step
    case ReadPage(i, max, shown) => if i in s.syncs && s.syncs[i].Reading? { ReadPageStep(s, i, max, shown); }
    case FetchNext(i) =>
      if i in s.syncs && (s.syncs[i].Fetching? || s.syncs[i].Collecting?) && s.syncs[i].todo != [] { FetchStep(s, i); }
    case CommitPage(i, now) =>
      if i in s.syncs && s.syncs[i].Fetching? && s.syncs[i].todo == [] { CommitStep(s, i, now); }
    case CommitFull(i, now) =>
      if i in s.syncs && s.syncs[i].Collecting? && s.syncs[i].todo == [] { CommitFullStep(s, i, now); }
    case StartCursor(_, _, _) => CreateStep(s, step);
    case RecordWatch(_, _, _) => CreateStep(s, step);
    case Arrive(_) => MailboxStep(s, step);
    case Relabelled(_, _) => MailboxStep(s, step);
    case Deleted(_) => MailboxStep(s, step);
    case Expired(_) => MailboxStep(s, step);
    case Notify(_, _) => NotifyStep(s, step);
    case _ => QuietStep(s, step);
  }
}
