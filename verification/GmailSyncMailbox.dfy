/** The sync itself, as the source writes it: a loop over history pages, a fetch per message, a commit
    per page, and the full sync as its fallback. Each method is shown to be a run of the transition
    system (`steps`), so every result about runs is a result about this code. */
module GmailSyncMailbox {
  import opened Wrappers
  import opened GmailStore
  import opened GmailMailbox
  import opened GmailSync
  import opened GmailProtocol
  import GmailListing

  datatype Kind = Started | Synced | FullySynced | Stale | StoreFailed

  const FULL_SYNC_OVERLAP_MS := 60 * 60 * 1000

  /** Second precision, as the query's `after:` has it. */
  function Since(lastSyncAt: Option<nat>, startedAt: Option<nat>, now: nat): nat {
    var from := if lastSyncAt.Some? then lastSyncAt.value else if startedAt.Some? then startedAt.value else now;
    if from < FULL_SYNC_OVERLAP_MS then 0 else (from - FULL_SYNC_OVERLAP_MS) / 1000 * 1000
  }

  /** The effect of one fetch on the sync's own variables. */
  lemma FetchEffect(t: Sys, i: nat)
    requires i in t.syncs && (t.syncs[i].Fetching? || t.syncs[i].Collecting?) && t.syncs[i].todo != []
    ensures var pc := t.syncs[i]; var u := Apply(t, FetchNext(i));
            var fetched := Fetch(t.box, pc.todo[0], if pc.Fetching? then History else Listed);
            && u.box == t.box
            && u.store == (if fetched.Broken? then AlertStore(t.store, Unreadable(pc.todo[0])) else t.store)
            && u.syncs == t.syncs[i := pc.(todo := pc.todo[1..],
                                           events := pc.events + if fetched.Deliverable? then [fetched.event] else [])]
  {
    var pc := t.syncs[i];
    assert pc.events + [] == pc.events;
  }

  /** A readable message gave an event and an unreadable one an alert, unless it is gone or not admitted. */
  ghost predicate Accounted(box: Mailbox, keys: set<EventKey>, alerts: set<AlertKey>, m: MsgId, admission: Admission) {
    match Fetch(box, m, admission)
    case Skip => true
    case Deliverable(_) => Mail(m) in keys
    case Broken => Unreadable(m) in alerts
  }

  ghost predicate MailOf(keys: set<EventKey>, ids: seq<MsgId>) {
    forall k <- keys :: k.Mail? && k.msg in ids
  }

  /** Whatever mail is new in the store is among `ids`. */
  ghost predicate OnlyNew(before: set<EventKey>, after: set<EventKey>, ids: seq<MsgId>) {
    forall m: MsgId | Mail(m) in after && Mail(m) !in before :: m in ids
  }

  lemma AccountedNext(box: Mailbox, events: seq<Event>, alerts: set<AlertKey>, m: MsgId, admission: Admission,
                      events': seq<Event>, alerts': set<AlertKey>)
    requires var f := Fetch(box, m, admission);
             && events' == (if f.Deliverable? then events + [f.event] else events)
             && alerts' == (if f.Broken? then alerts + {Unreadable(m)} else alerts)
    ensures Accounted(box, KeysOf(events'), alerts', m, admission)
    ensures forall n | Accounted(box, KeysOf(events), alerts, n, admission) ::
              Accounted(box, KeysOf(events'), alerts', n, admission)
    ensures KeysOf(events') <= KeysOf(events) + {Mail(m)}
  {
    var f := Fetch(box, m, admission);
    if f.Deliverable? { KeysOfSnoc(events, f.event); }
  }

  /** Fetches every message in `ids`, in order, raising an alert for each that cannot be read. */
  method MessageEvents(google: FakeGoogle, store: MemoryStore, ids: seq<MsgId>, admission: Admission,
                       ghost s: Sys, ghost i: nat)
      returns (events: seq<Event>, ghost steps: seq<Step>)
    requires s.box == google.Value() && s.store == store.Value() && i in s.syncs
    requires if admission.History? then s.syncs[i].Fetching? else s.syncs[i].Collecting?
    requires s.syncs[i].todo == ids && s.syncs[i].events == []
    modifies store`alerts
    ensures Run(s, steps).store == store.Value() && Run(s, steps).box == s.box
    ensures Run(s, steps).syncs == s.syncs[i := s.syncs[i].(todo := [], events := events)]
    ensures forall m <- ids :: Accounted(google.Value(), KeysOf(events), store.alerts, m, admission)
    ensures MailOf(KeysOf(events), ids)
  {
    events, steps := [], [];
    ghost var t := s;
    var rest := ids;
    while rest != []
      invariant t == Run(s, steps) && t.store == store.Value() && t.box == s.box
      invariant i in t.syncs && t.syncs == s.syncs[i := t.syncs[i]]
      invariant t.syncs[i] == s.syncs[i].(todo := rest, events := events)
      invariant forall m <- ids :: m in rest || Accounted(google.Value(), KeysOf(events), store.alerts, m, admission)
      invariant MailOf(KeysOf(events), ids) && forall m <- rest :: m in ids
      decreases |rest|
    {
      ghost var before, alerts := events, store.alerts;
      FetchEffect(t, i);
      RunSnoc(s, steps, FetchNext(i));
      t, steps := Apply(t, FetchNext(i)), steps + [FetchNext(i)];
      var fetched := Fetch(google.Value(), rest[0], admission);
      if fetched.Deliverable? {
        events := events + [fetched.event];
      } else if fetched.Broken? {
        store.Alert(Unreadable(rest[0]));
      }
      AccountedNext(google.Value(), before, alerts, rest[0], admission, events, store.alerts);
      rest := rest[1..];
    }
  }

  const PAGE_SIZE := 100

  function TakeUpTo<T>(s: seq<T>, n: nat): seq<T> { if |s| > n then s[..n] else s }

  method Reversed(events: seq<Event>) returns (r: seq<Event>)
    ensures r == Reverse(events)
  {
    r := [];
    for k := |events| downto 0
      invariant r == Reverse(events[k..])
    {
      assert events[k..][1..] == events[k + 1..];
      r := r + [events[k]];
    }
    assert events[0..] == events;
  }

  /** The sync's variables after one more listing page. */
  function PcListed(pc: Pc, ids: seq<MsgId>, more: bool): Pc
    requires pc.Listing?
  {
    var refs := pc.refs + ids;
    if more && |refs| < MAX_FULL_SYNC_MESSAGES then pc.(refs := refs)
    else Collecting(pc.cursor, pc.head, pc.seen, TakeUpTo(refs, MAX_FULL_SYNC_MESSAGES), [])
  }

  /** `s` but for what the sync `i` has listed. */
  ghost predicate HasListed(s: Sys, t: Sys, i: nat, refs: seq<MsgId>)
    requires i in s.syncs && s.syncs[i].Listing?
  {
    t.box == s.box && t.store == s.store && t.syncs == s.syncs[i := s.syncs[i].(refs := refs)]
  }

  lemma ListRun(s: Sys, steps: seq<Step>, i: nat, refs: seq<MsgId>, ids: seq<MsgId>, more: bool)
    requires i in s.syncs && s.syncs[i].Listing? && HasListed(s, Run(s, steps), i, refs)
    ensures var u := Run(s, steps + [ListPage(i, ids, more)]);
            && u.box == s.box && u.store == s.store
            && u.syncs == s.syncs[i := PcListed(s.syncs[i].(refs := refs), ids, more)]
  {
    RunSnoc(s, steps, ListPage(i, ids, more));
  }

  /** Pages put together are the beginning of the list, and what is kept of them is what is kept of the list. */
  lemma PagesAddUp<T>(all: seq<T>, offset: nat, max: nat, limit: nat)
    requires offset <= |all|
    ensures var refs := all[..offset] + Slice(all, offset, max);
            && refs == (if offset + max < |all| then all[..offset + max] else all)
            && (refs == all || |refs| >= limit ==> TakeUpTo(refs, limit) == TakeUpTo(all, limit))
  {
  }

  /** Lists the inbox page by page until there is no next page or enough is listed. */
  method ListMessages(google: FakeGoogle, since: nat, ghost s: Sys, ghost i: nat)
      returns (listed: seq<MsgId>, ghost steps: seq<Step>)
    requires s.box == google.Value() && i in s.syncs && s.syncs[i].Listing? && s.syncs[i].refs == []
    ensures Run(s, steps).store == s.store && Run(s, steps).box == s.box
    ensures Run(s, steps).syncs ==
            s.syncs[i := Collecting(s.syncs[i].cursor, s.syncs[i].head, s.syncs[i].seen, listed, [])]
    ensures listed == TakeUpTo(GmailMailbox.Listing(google.messages, since, google.nextMessage), MAX_FULL_SYNC_MESSAGES)
  {
    steps := [];
    var refs: seq<MsgId> := [];
    var offset: nat := 0;
    ghost var all := GmailMailbox.Listing(google.messages, since, google.nextMessage);
    while true
      invariant HasListed(s, Run(s, steps), i, refs)
      invariant (offset == 0 || offset < |all|) && offset <= |all| && refs == all[..offset]
      decreases |all| - offset
    {
      var ids, next := google.ListInbox(since, offset, PAGE_SIZE);
      ListRun(s, steps, i, refs, ids, next.Some?);
      steps := steps + [ListPage(i, ids, next.Some?)];
      PagesAddUp(all, offset, PAGE_SIZE, MAX_FULL_SYNC_MESSAGES);
      refs := refs + ids;
      if next.None? || |refs| >= MAX_FULL_SYNC_MESSAGES {
        listed := TakeUpTo(refs, MAX_FULL_SYNC_MESSAGES);
        return;
      }
      offset := next.value;
    }
  }

  /** The effect of a full sync's commit, or of the store failing in it. */
  lemma CommitFullEffect(t: Sys, i: nat, now: nat)
    requires i in t.syncs && t.syncs[i].Collecting? && t.syncs[i].todo == []
    ensures var pc := t.syncs[i];
            var d := Delta(pc.cursor, pc.head, Reverse(pc.events), true, Some(AlertKey.FullSync(pc.head)));
            var u := Apply(t, CommitFull(i, now));
            u.box == t.box && u.store == CommitStore(t.store, d, now) && u.syncs == t.syncs - {i}
    ensures Apply(t, Crash(i)) == t.(syncs := t.syncs - {i})
  {
  }

  /** The effect of a page's commit: ended, or reading the next page from the new cursor. */
  lemma CommitPageEffect(t: Sys, i: nat, now: nat)
    requires i in t.syncs && t.syncs[i].Fetching? && t.syncs[i].todo == []
    ensures var pc := t.syncs[i]; var d := Delta(pc.cursor, pc.to, pc.events, pc.last, None);
            var u := Apply(t, CommitPage(i, now));
            && u.box == t.box
            && (if pc.last || pc.to != pc.cursor || pc.events != [] then
                  && u.store == CommitStore(t.store, d, now)
                  && u.syncs == if pc.last || !Commits(t.store, d) then t.syncs - {i}
                                else t.syncs[i := Reading(pc.start, pc.to, pc.next)]
                else u.store == t.store && u.syncs == t.syncs[i := Reading(pc.start, pc.cursor, pc.next)])
    ensures Apply(t, Crash(i)) == t.(syncs := t.syncs - {i})
  {
  }

  /** The sync's variables after reading a page. */
  function PcRead(pc: Pc, page: Option<Page>): Pc
    requires pc.Reading?
  {
    if page.None? then Profiling(pc.cursor) else
      Fetching(pc.start, pc.cursor, Reach(page.value, pc.cursor), page.value.next.None?,
               if page.value.next.Some? then page.value.next.value else 0, Unique(RefsOf(page.value.records, false)),
                   [])
  }

  lemma ReadPageRun(s: Sys, i: nat, max: nat, page: Option<Page>)
    requires i in s.syncs && s.syncs[i].Reading? && page == HistoryPage(s.box, s.syncs[i].start, s.syncs[i].offset, max)
    ensures var t := Run(s, [ReadPage(i, max, false)]);
            t.box == s.box && t.store == s.store && t.syncs == s.syncs[i := PcRead(s.syncs[i], page)]
                && t.syncs - {i} == s.syncs - {i}
  {
    RunOne(s, ReadPage(i, max, false));
  }

  /** What the loop needs of a page. */
  lemma PageFacts(box: Mailbox, start: nat, offset: nat, max: nat, cursor: nat, page: Option<Page>)
    requires Valid(box) && cursor <= box.head && max > 0 && page == HistoryPage(box, start, offset, max)
    ensures page.None? <==> start < box.oldest
    ensures page.Some? ==> cursor <= Reach(page.value, cursor) <= box.head
    ensures page.Some? && page.value.next.None? ==> Reach(page.value, cursor) == box.head
    ensures page.Some? && page.value.next.Some? ==> offset < page.value.next.value < |After(box.log, start)|
  {
    AfterOrdered(box.log, start, box.head);
  }

  /** The effect of beginning a sync, and of a first start. */
  lemma BeginEffect(s: Sys, i: nat, account: string, now: nat)
    requires i !in s.syncs
    ensures var t := Apply(s, Begin(i));
            && t.box == s.box && t.store == s.store
            && t.syncs == s.syncs[i := if s.store.historyId.None? then Starting(s.box.head)
                                       else Reading(s.store.historyId.value, s.store.historyId.value, 0)]
            && t.syncs - {i} == s.syncs && Apply(t, Crash(i)) == t.(syncs := s.syncs)
    ensures s.store.historyId.None? ==>
              var u := Apply(Apply(s, Begin(i)), StartCursor(i, account, now));
              u.box == s.box && u.store == StartStore(s.store, s.box.head, account, now) && u.syncs == s.syncs
  {
  }

  lemma {:induction false} ReverseKeys(events: seq<Event>)
    ensures KeysOf(Reverse(events)) == KeysOf(events)
  {
    if events != [] {
      ReverseKeys(events[1..]);
      KeysOfSnoc(Reverse(events[1..]), events[0]);
      assert events == [events[0]] + events[1..];
    }
  }

  lemma AllAccounted(box: Mailbox, ids: seq<MsgId>, events: seq<Event>, stored: map<EventKey, Event>,
                     alerts: set<AlertKey>, later: set<AlertKey>)
    requires (forall m <- ids :: Accounted(box, KeysOf(events), alerts, m, Listed)) && alerts <= later
    requires MailOf(KeysOf(events), ids)
    ensures forall m <- ids :: Accounted(box, IngestAll(stored, Reverse(events)).Keys, later, m, Listed)
    ensures OnlyNew(stored.Keys, IngestAll(stored, Reverse(events)).Keys, ids)
  {
    IngestAllMeaning(stored, Reverse(events));
    ReverseKeys(events);
  }

  /** The full sync's last part: fetch what was listed and commit it at the profile's head. */
  method CommitListed(google: FakeGoogle, store: MemoryStore, listed: seq<MsgId>, cursor: nat, head: nat, now: nat,
                      ghost s: Sys, ghost i: nat)
      returns (kind: Kind, accepted: nat, ghost steps: seq<Step>)
    requires s.box == google.Value() && s.store == store.Value() && i in s.syncs
    requires s.syncs[i].Collecting? && s.syncs[i] == Collecting(cursor, head, s.syncs[i].seen, listed, [])
    modifies store
    ensures Run(s, steps).store == store.Value() && Run(s, steps).box == s.box && Run(s, steps).syncs == s.syncs - {i}
    ensures old(store.failures) == 0 && old(store.historyId) == Some(cursor) ==>
              kind.FullySynced? && store.historyId == Some(head)
    ensures !kind.Synced? && !kind.Started?
    ensures |store.stored| == |old(store.stored)| + accepted
    ensures kind.FullySynced? ==> forall m <- listed ::
              Accounted(google.Value(), store.stored.Keys, store.alerts, m, Listed)
    ensures kind.FullySynced? ==> OnlyNew(old(store.stored).Keys, store.stored.Keys, listed)
    ensures kind.FullySynced? ==> store.lastSyncAt == Some(now)
  {
    var events;
    events, steps := MessageEvents(google, store, listed, Listed, s, i);
    ghost var t := Run(s, steps);
    CommitFullEffect(t, i, now);
    var reversed := Reversed(events);
    var failed, committed, n := store.Commit(Delta(cursor, head, reversed, true, Some(AlertKey.FullSync(head))), now);
    accepted := n;
    AllAccounted(google.Value(), listed, events, t.store.stored, t.store.alerts, store.alerts);
    ghost var last := if failed then Crash(i) else CommitFull(i, now);
    RunSnoc(s, steps, last);
    steps := steps + [last];
    kind := if failed then StoreFailed else if committed then FullySynced else Stale;
  }

  /** What a full sync leaves: the latest listed messages are accounted for, and nothing else is new. */
  ghost predicate Reread(box: Mailbox, before: set<EventKey>, store: Store, since: nat) {
    var listed := TakeUpTo(GmailMailbox.Listing(box.messages, since, box.next), MAX_FULL_SYNC_MESSAGES);
    && (forall m <- listed :: Accounted(box, store.stored.Keys, store.alerts, m, Listed))
    && OnlyNew(before, store.stored.Keys, listed)
  }

  /** The moment a full sync looks back from: the last sync that reached the present, else the cursor's creation. */
  function LooksBackFrom(store: Store, now: nat): nat {
    if store.lastSyncAt.Some? then store.lastSyncAt.value
    else if store.startedAt.Some? then store.startedAt.value else now
  }

  /** In the inbox, dated at most an hour before `from`, and fewer than 500 later messages of the inbox are dated so
      or up to one second earlier. */
  ghost predicate Owed(messages: map<MsgId, Message>, next: MsgId, from: nat, m: MsgId) {
    && m in messages && INBOX in messages[m].labels && from <= messages[m].date + 3_600_000
    && |set y | m < y < next && y in messages && INBOX in messages[y].labels && from < messages[y].date + 3_601_000|
         < 500
  }

  /** The message's event is stored, or there is an alert that it could not be read; excluded mail is left alone. */
  ghost predicate Served(message: Message, store: Store, m: MsgId) {
    || message.labels * {SPAM, TRASH, DRAFT, CHAT} != {}
    || (if message.readable then Mail(m) in store.stored else Unreadable(m) in store.alerts)
  }

  lemma SmallerSet(s: set<MsgId>, t: set<MsgId>)
    requires s <= t
    ensures |s| <= |t|
  {
    assert t == s + (t - s);
  }

  /** What is owed is listed, and within the limit. */
  lemma OwedIsListed(box: Mailbox, from: nat, since: nat, m: MsgId)
    requires Valid(box) && Owed(box.messages, box.next, from, m)
    requires since <= (if from < 3_600_000 then 0 else from - 3_600_000)
    requires from < since + 3_601_000
    ensures m in TakeUpTo(GmailMailbox.Listing(box.messages, since, box.next), MAX_FULL_SYNC_MESSAGES)
  {
    var listing := GmailMailbox.Listing(box.messages, since, box.next);
    var newer := GmailListing.Before(box.messages, since, box.next, m);
    GmailListing.PlaceIsCount(box.messages, since, box.next, m);
    SmallerSet(newer, set y | m < y < box.next && y in box.messages && INBOX in box.messages[y].labels
                                && from < box.messages[y].date + 3_601_000);
    assert listing[|newer|] == m && TakeUpTo(listing, MAX_FULL_SYNC_MESSAGES)[|newer|] == m;
  }

  /** A full sync that looked back to `since` served what it owes from `from` on, and stored no older mail. */
  lemma RereadServes(box: Mailbox, before: set<EventKey>, store: Store, from: nat, since: nat)
    requires Valid(box) && Reread(box, before, store, since)
    requires since <= (if from < 3_600_000 then 0 else from - 3_600_000)
    requires from < since + 3_601_000
    ensures forall m | Owed(box.messages, box.next, from, m) :: Served(box.messages[m], store, m)
    ensures forall m: MsgId | Mail(m) in store.stored && Mail(m) !in before ::
              m in box.messages && INBOX in box.messages[m].labels && from < box.messages[m].date + 3_601_000
  {
    forall m | Owed(box.messages, box.next, from, m) ensures Served(box.messages[m], store, m) {
      OwedIsListed(box, from, since, m);
    }
    forall m: MsgId | Mail(m) in store.stored && Mail(m) !in before
      ensures m in box.messages && INBOX in box.messages[m].labels && from < box.messages[m].date + 3_601_000 {
      GmailListing.ListingMembers(box.messages, since, box.next, m);
    }
  }

  /** History before the cursor is gone: re-read the inbox since shortly before the last completed sync
      and restart the cursor at a head taken before the listing. */
  method FullSync(google: FakeGoogle, store: MemoryStore, since: nat, cursor: nat, now: nat, ghost s: Sys, ghost i: nat)
      returns (kind: Kind, accepted: nat, ghost steps: seq<Step>)
    requires s.box == google.Value() && s.store == store.Value()
    requires i in s.syncs && s.syncs[i] == Profiling(cursor)
    modifies store
    ensures Run(s, steps).store == store.Value() && Run(s, steps).box == s.box && Run(s, steps).syncs == s.syncs - {i}
    ensures old(store.failures) == 0 && old(store.historyId) == Some(cursor) ==>
              kind.FullySynced? && store.historyId == Some(google.history)
    ensures |store.stored| == |old(store.stored)| + accepted
    ensures kind.FullySynced? ==> Reread(google.Value(), old(store.stored).Keys, store.Value(), since)
    ensures kind.FullySynced? ==> store.lastSyncAt == Some(now)
    ensures !kind.Synced? && !kind.Started?
  {
    var head := google.history;
    RunOne(s, TakeProfile(i));
    ghost var t := Apply(s, TakeProfile(i));
    var listed, pages := ListMessages(google, since, t, i);
    RunConcat(s, [TakeProfile(i)], pages);
    ghost var u := Run(t, pages);
    assert u.syncs - {i} == s.syncs - {i};
    ghost var rest;
    kind, accepted, rest := CommitListed(google, store, listed, cursor, head, now, u, i);
    RunConcat(s, [TakeProfile(i)] + pages, rest);
    steps := [TakeProfile(i)] + pages + rest;
  }

  /** One page of the loop below: fetch its messages and commit it, unless it brought nothing. */
  method SyncPage(google: FakeGoogle, store: MemoryStore, page: Page, cursor: nat, to: nat, now: nat, ghost s: Sys,
      ghost i: nat)
      returns (failed: bool, accepted: nat, ghost steps: seq<Step>)
    requires s.box == google.Value() && s.store == store.Value() && store.historyId == Some(cursor) && i in s.syncs
    requires s.syncs[i].Fetching? && s.syncs[i].cursor == cursor && s.syncs[i].to == to
               && s.syncs[i].last == page.next.None?
    requires s.syncs[i].todo == Unique(RefsOf(page.records, false)) && s.syncs[i].events == []
    modifies store
    ensures Run(s, steps).store == store.Value() && Run(s, steps).box == s.box
    ensures Run(s, steps).syncs ==
            if failed || page.next.None? then s.syncs - {i}
                else s.syncs[i := Reading(s.syncs[i].start, to, s.syncs[i].next)]
    ensures |store.stored| == |old(store.stored)| + accepted
    ensures failed ==> old(store.failures) > 0
    ensures !failed ==> store.historyId == Some(to) && store.failures == old(store.failures)
    ensures !failed && page.next.None? ==> store.lastSyncAt == Some(now)
  {
    var refs := UniqueRefs(RefsOf(page.records, false));
    var events;
    events, steps := MessageEvents(google, store, refs, History, s, i);
    ghost var t := Run(s, steps);
    assert t.syncs - {i} == s.syncs - {i};
    CommitPageEffect(t, i, now);
    failed, accepted := false, 0;
    if page.next.None? || to != cursor || events != [] {
      var committed;
      failed, committed, accepted := store.Commit(Delta(cursor, to, events, page.next.None?, None), now);
    }
    ghost var last := if failed then Crash(i) else CommitPage(i, now);
    RunSnoc(s, steps, last);
    steps := steps + [last];
  }

  lemma {:induction false} RunFromKeepsInv(s: Sys, steps: seq<Step>)
    requires Inv(s)
    ensures Inv(Run(s, steps))
  {
    if steps != [] {
      RunFromKeepsInv(s, steps[..|steps| - 1]);
      StepKeepsInv(Run(s, steps[..|steps| - 1]), steps[|steps| - 1]);
    }
  }

  /** Brings the store up to the mailbox's present. Undisturbed and with a working store it always
      completes, whatever the number of pages, and the cursor ends at the head. */
  method SyncMailbox(google: FakeGoogle, store: MemoryStore, account: string, now: nat, ghost s: Sys, ghost i: nat)
      returns (kind: Kind, accepted: nat, ghost steps: seq<Step>)
    requires s.box == google.Value() && s.store == store.Value() && Valid(s.box) && i !in s.syncs
    requires store.historyId.Some? ==> store.historyId.value <= google.history
    modifies store
    ensures Run(s, steps).store == store.Value() && Run(s, steps).box == s.box && Run(s, steps).syncs == s.syncs
    ensures |store.stored| == |old(store.stored)| + accepted
    ensures old(store.failures) == 0 ==> store.historyId == Some(google.history)
    ensures old(store.failures) == 0 ==>
              kind == if old(store.historyId).None? then Started
                      else if old(store.historyId.value) < google.oldest then FullySynced else Synced
    ensures Inv(s) ==> Inv(Run(s, steps)) && Run(s, steps).accepted == s.accepted + accepted
    ensures kind.Started? ==> store.startedAt == Some(now) && store.accountHash == Some(account)
    ensures kind.Synced? || kind.FullySynced? ==> store.lastSyncAt == Some(now)
    ensures kind.FullySynced? ==>
              var from := LooksBackFrom(old(store.Value()), now);
              && (forall m | Owed(google.messages, google.nextMessage, from, m) ::
                    Served(google.messages[m], store.Value(), m))
              && (forall m: MsgId | Mail(m) in store.stored && Mail(m) !in old(store.stored) ::
                    m in google.messages && INBOX in google.messages[m].labels
                    && from < google.messages[m].date + 3_601_000)
  {
    RunOne(s, Begin(i));
    BeginEffect(s, i, account, now);
    steps, accepted := [Begin(i)], 0;
    ghost var t := Apply(s, Begin(i));
    if store.historyId.None? {
      var failed := store.Start(google.history, account, now);
      ghost var last := if failed then Crash(i) else StartCursor(i, account, now);
      RunSnoc(s, steps, last);
      steps := steps + [last];
      if Inv(s) { RunFromKeepsInv(s, steps); }
      return if failed then StoreFailed else Started, 0, steps;
    }
    var start := store.historyId.value;
    var since := Since(store.lastSyncAt, store.startedAt, now);
    ghost var more;
    kind, accepted, more := SyncFrom(google, store, start, since, now, t, i);
    RunConcat(s, steps, more);
    steps := steps + more;
    if Inv(s) { RunFromKeepsInv(s, steps); }
    if kind.FullySynced? {
      ghost var from := LooksBackFrom(old(store.Value()), now);
      RereadServes(google.Value(), old(store.stored).Keys, store.Value(), from, since);
    }
  }

  /** One round of the loop: read a page and commit it, or fall back to a full sync; nothing when more pages follow. */
  method SyncRound(google: FakeGoogle, store: MemoryStore, start: nat, cursor: nat, offset: nat, since: nat, now: nat,
                   ghost s: Sys, ghost i: nat)
      returns (kind: Option<Kind>, accepted: nat, to: nat, next: nat, ghost steps: seq<Step>)
    requires s.box == google.Value() && s.store == store.Value() && Valid(s.box)
    requires i in s.syncs && s.syncs[i] == Reading(start, cursor, offset) && store.historyId == Some(cursor)
               && cursor <= google.history
    modifies store
    ensures Run(s, steps).store == store.Value() && Run(s, steps).box == s.box
              && |store.stored| == |old(store.stored)| + accepted
    ensures kind.Some? ==> Run(s, steps).syncs == s.syncs - {i}
    ensures kind.Some? && old(store.failures) == 0 ==> store.historyId == Some(google.history)
    ensures kind.Some? && old(store.failures) == 0 ==> kind.value == if start < google.oldest then FullySynced
              else Synced
    ensures kind.None? ==> Run(s, steps).syncs == s.syncs[i := Reading(start, to, next)] && store.historyId == Some(to)
    ensures kind.None? ==> to <= google.history && offset < next < |After(s.box.log, start)|
    ensures kind.None? ==> store.failures == old(store.failures)
    ensures kind.None? ==> google.oldest <= start
    ensures kind == Some(Synced) || kind == Some(FullySynced) ==> store.lastSyncAt == Some(now)
    ensures kind != Some(Started)
    ensures kind == Some(FullySynced) ==>
              start < google.oldest && Reread(google.Value(), old(store.stored).Keys, store.Value(), since)
  {
    var page := google.History(start, offset, PAGE_SIZE);
    ReadPageRun(s, i, PAGE_SIZE, page);
    PageFacts(s.box, start, offset, PAGE_SIZE, cursor, page);
    steps := [ReadPage(i, PAGE_SIZE, false)];
    ghost var t := Run(s, steps);
    ghost var more;
    to, next := cursor, offset;
    if page.None? {
      var full;
      full, accepted, more := FullSync(google, store, since, cursor, now, t, i);
      RunConcat(s, steps, more);
      return Some(full), accepted, to, next, steps + more;
    }
    to := Reach(page.value, cursor);
    var failed;
    failed, accepted, more := SyncPage(google, store, page.value, cursor, to, now, t, i);
    RunConcat(s, steps, more);
    steps := steps + more;
    if failed { kind := Some(StoreFailed); }
    else if page.value.next.None? { kind := Some(Synced); }
    else { kind, next := None, page.value.next.value; }
  }

  /** The loop over pages, from the stored cursor on. */
  method SyncFrom(google: FakeGoogle, store: MemoryStore, start: nat, since: nat, now: nat, ghost s: Sys, ghost i: nat)
      returns (kind: Kind, accepted: nat, ghost steps: seq<Step>)
    requires s.box == google.Value() && s.store == store.Value() && Valid(s.box)
    requires i in s.syncs && s.syncs[i] == Reading(start, start, 0) && store.historyId == Some(start)
               && start <= google.history
    modifies store
    ensures Run(s, steps).store == store.Value() && Run(s, steps).box == s.box && Run(s, steps).syncs == s.syncs - {i}
    ensures |store.stored| == |old(store.stored)| + accepted
    ensures old(store.failures) == 0 ==> store.historyId == Some(google.history)
    ensures old(store.failures) == 0 ==> kind == if start < google.oldest then FullySynced else Synced
    ensures kind.FullySynced? ==> Reread(google.Value(), old(store.stored).Keys, store.Value(), since)
    ensures kind.Synced? || kind.FullySynced? ==> store.lastSyncAt == Some(now)
    ensures !kind.Started?
  {
    var cursor: nat, offset: nat := start, 0;
    ghost var all := |After(s.box.log, start)|;
    accepted, steps := 0, [];
    ghost var t := s;
    while true
      invariant t == Run(s, steps) && t.store == store.Value() && t.box == s.box
      invariant i in t.syncs && t.syncs == s.syncs[i := Reading(start, cursor, offset)]
      invariant store.historyId == Some(cursor) && cursor <= google.history && (offset == 0 || offset < all)
      invariant |store.stored| == |old(store.stored)| + accepted && store.failures == old(store.failures)
      invariant google.oldest <= start || store.stored == old(store.stored)
      decreases all - offset
    {
      ghost var more;
      var outcome, n;
      assert t.syncs - {i} == s.syncs - {i};
      outcome, n, cursor, offset, more := SyncRound(google, store, start, cursor, offset, since, now, t, i);
      RunConcat(s, steps, more);
      steps, t := steps + more, Run(t, more);
      accepted := accepted + n;
      if outcome.Some? { return outcome.value, accepted, steps; }
    }
  }
}
