/** The control plane behind one mailbox, as the in-memory store implements it:
    a cursor moved by compare-and-set, a dedupe map of events and once-per-key alerts.
    The class updates its fields in place; `Store` is the value it stands for, and the
    functions on `Store` are what the run-level results are proved about. */
module GmailStore {
  import opened Wrappers

  /** Gmail message ids. */
  type MsgId = nat

  /** `source` and `id` of an event of one mailbox: both are functions of what happened. */
  datatype EventKey = Mail(msg: MsgId) | Notification(pubsubId: nat)

  /** An event as the dedupe map sees it: its key and the hash of its payload. */
  datatype Event = Event(key: EventKey, hash: int)

  datatype AlertKey = Unreadable(msg: MsgId) | FullSync(head: nat) | Operator(topic: string)

  datatype IngestStatus = Accepted | Duplicate | Conflict

  datatype Delta = Delta(from: nat, to: nat, events: seq<Event>, complete: bool, alert: Option<AlertKey>)

  datatype Store = Store(
    historyId: Option<nat>,
    accountHash: Option<string>,
    lastSyncAt: Option<nat>,
    startedAt: Option<nat>,
    watchRenewedAt: Option<nat>,
    stored: map<EventKey, Event>,
    alerts: set<AlertKey>)

  const EMPTY := Store(None, None, None, None, None, map[], {})

  ghost function KeysOf(events: seq<Event>): set<EventKey> {
    set e <- events :: e.key
  }

  /** The dedupe map after one delivery: a known key keeps its first event. */
  function Ingest(m: map<EventKey, Event>, e: Event): map<EventKey, Event> {
    if e.key in m then m else m[e.key := e]
  }

  /** The dedupe map after delivering `events` in order. */
  function IngestAll(m: map<EventKey, Event>, events: seq<Event>): map<EventKey, Event> {
    if events == [] then m else Ingest(IngestAll(m, events[..|events| - 1]), events[|events| - 1])
  }

  lemma KeysOfSnoc(events: seq<Event>, e: Event)
    ensures KeysOf(events + [e]) == KeysOf(events) + {e.key}
  {
    assert e in events + [e];
  }

  /** What a delivery of any batch does to the dedupe map: it adds exactly the delivered keys
      and replaces nothing. */
  lemma {:induction false} IngestAllMeaning(m: map<EventKey, Event>, events: seq<Event>)
    ensures IngestAll(m, events).Keys == m.Keys + KeysOf(events)
    ensures forall k <- m :: IngestAll(m, events)[k] == m[k]
  {
    if events != [] {
      var n := |events| - 1;
      IngestAllMeaning(m, events[..n]);
      assert events == events[..n] + [events[n]];
      KeysOfSnoc(events[..n], events[n]);
    }
  }

  /** A key that a batch adds holds its first delivery, whatever follows under the same key. */
  lemma {:induction false} FirstDeliveryWins(m: map<EventKey, Event>, events: seq<Event>, i: nat)
    requires i < |events| && events[i].key !in m && events[i].key !in KeysOf(events[..i])
    ensures events[i].key in IngestAll(m, events) && IngestAll(m, events)[events[i].key] == events[i]
  {
    var n := |events| - 1;
    if i < n {
      assert events[..n][..i] == events[..i];
      FirstDeliveryWins(m, events[..n], i);
    } else {
      IngestAllMeaning(m, events[..n]);
    }
  }

  /** How many of the events are accepted when they are delivered in order: those whose key is new at their turn. */
  function AcceptedIn(m: map<EventKey, Event>, events: seq<Event>): nat {
    if events == [] then 0 else
      var n := |events| - 1;
      AcceptedIn(m, events[..n]) + if events[n].key in IngestAll(m, events[..n]) then 0 else 1
  }

  /** The dedupe map grows by the events it accepts. */
  lemma {:induction false} AcceptedGrow(m: map<EventKey, Event>, events: seq<Event>)
    ensures |IngestAll(m, events)| == |m| + AcceptedIn(m, events)
  {
    if events != [] {
      var n := |events| - 1;
      AcceptedGrow(m, events[..n]);
      var before := IngestAll(m, events[..n]);
      if events[n].key !in before { assert before[events[n].key := events[n]].Keys == before.Keys + {events[n].key}; }
    }
  }

  predicate Commits(s: Store, d: Delta) {
    s.historyId == Some(d.from)
  }

  /** The store after a commit at time `now`; unchanged when the compare-and-set fails. */
  function CommitStore(s: Store, d: Delta, now: nat): Store {
    if !Commits(s, d) then s else
      s.(stored := IngestAll(s.stored, d.events),
         alerts := if d.alert.Some? then s.alerts + {d.alert.value} else s.alerts,
         historyId := Some(d.to),
         lastSyncAt := if d.complete then Some(now) else s.lastSyncAt)
  }

  function StartStore(s: Store, head: nat, account: string, now: nat): Store {
    if s.historyId.Some? then s else
      s.(historyId := Some(head), accountHash := Some(account), startedAt := Some(now))
  }

  function WatchStore(s: Store, head: nat, account: string, now: nat): Store {
    s.(historyId := if s.historyId.Some? then s.historyId else Some(head),
       accountHash := if s.accountHash.Some? then s.accountHash else Some(account),
       startedAt := if s.startedAt.Some? then s.startedAt else Some(now),
       watchRenewedAt := Some(now))
  }

  function NotifyStore(s: Store, e: Event): Store {
    s.(stored := Ingest(s.stored, e))
  }

  function AlertStore(s: Store, key: AlertKey): Store {
    s.(alerts := s.alerts + {key})
  }

  class MemoryStore {
    var historyId: Option<nat>
    var accountHash: Option<string>
    var lastSyncAt: Option<nat>
    var startedAt: Option<nat>
    var watchRenewedAt: Option<nat>
    var stored: map<EventKey, Event>
    var alerts: set<AlertKey>
    /** How many of the next writes fail, as a database outage would make them. */
    var failures: nat

    ghost function Value(): Store
      reads this
    {
      Store(historyId, accountHash, lastSyncAt, startedAt, watchRenewedAt, stored, alerts)
    }

    constructor ()
      ensures Value() == EMPTY && failures == 0
    {
      historyId, accountHash, lastSyncAt, startedAt, watchRenewedAt := None, None, None, None, None;
      stored, alerts, failures := map[], {}, 0;
    }

    /** True when this write fails; a failing write changes nothing but the outage itself. */
    method MaybeFail() returns (fails: bool)
      modifies this`failures
      ensures fails == (old(failures) > 0)
      ensures failures == if fails then old(failures) - 1 else old(failures)
    {
      fails := failures > 0;
      if fails { failures := failures - 1; }
    }

    method IngestOne(e: Event) returns (status: IngestStatus)
      modifies this`stored
      ensures stored == Ingest(old(stored), e)
      ensures status.Accepted? <==> e.key !in old(stored)
      ensures status.Duplicate? <==> e.key in old(stored) && old(stored)[e.key].hash == e.hash
    {
      if e.key in stored {
        status := if stored[e.key].hash == e.hash then Duplicate else Conflict;
      } else {
        stored := stored[e.key := e];
        status := Accepted;
      }
    }

    method Start(head: nat, account: string, now: nat) returns (failed: bool)
      modifies this
      ensures failed == (old(failures) > 0)
      ensures Value() == if failed then old(Value()) else StartStore(old(Value()), head, account, now)
    {
      failed := MaybeFail();
      if !failed && historyId.None? {
        historyId, accountHash, startedAt := Some(head), Some(account), Some(now);
      }
    }

    /** Ingests the events and moves the cursor together; `accepted` counts the events whose ingest said so. */
    method Commit(d: Delta, now: nat) returns (failed: bool, committed: bool, accepted: nat)
      modifies this
      ensures failed == (old(failures) > 0)
      ensures failures == if failed then old(failures) - 1 else old(failures)
      ensures Value() == if failed then old(Value()) else CommitStore(old(Value()), d, now)
      ensures committed == (!failed && Commits(old(Value()), d))
      ensures accepted == if committed then AcceptedIn(old(stored), d.events) else 0
      ensures |stored| == |old(stored)| + accepted
    {
      failed := MaybeFail();
      committed, accepted := false, 0;
      if failed || historyId != Some(d.from) { return; }
      ghost var before := stored;
      for i := 0 to |d.events|
        invariant stored == IngestAll(before, d.events[..i])
        invariant accepted == AcceptedIn(before, d.events[..i])
        invariant unchanged(`historyId) && unchanged(`accountHash) && unchanged(`lastSyncAt)
        invariant unchanged(`startedAt) && unchanged(`watchRenewedAt) && unchanged(`alerts)
        invariant failures == old(failures)
      {
        assert d.events[..i + 1][..i] == d.events[..i];
        var status := IngestOne(d.events[i]);
        if status.Accepted? { accepted := accepted + 1; }
      }
      assert d.events[..|d.events|] == d.events;
      AcceptedGrow(before, d.events);
      if d.alert.Some? { alerts := alerts + {d.alert.value}; }
      historyId := Some(d.to);
      if d.complete { lastSyncAt := Some(now); }
      committed := true;
    }

    method RecordNotification(e: Event) returns (failed: bool, status: IngestStatus)
      modifies this
      ensures failed == (old(failures) > 0)
      ensures Value() == if failed then old(Value()) else NotifyStore(old(Value()), e)
      ensures !failed ==> (status.Accepted? <==> e.key !in old(stored))
      ensures failures == if failed then old(failures) - 1 else old(failures)
    {
      failed := MaybeFail();
      status := Conflict;
      if !failed { status := IngestOne(e); }
    }

    method RecordWatch(head: nat, account: string, now: nat) returns (failed: bool)
      modifies this
      ensures failed == (old(failures) > 0)
      ensures Value() == if failed then old(Value()) else WatchStore(old(Value()), head, account, now)
    {
      failed := MaybeFail();
      if !failed {
        historyId := if historyId.Some? then historyId else Some(head);
        accountHash := if accountHash.Some? then accountHash else Some(account);
        startedAt := if startedAt.Some? then startedAt else Some(now);
        watchRenewedAt := Some(now);
      }
    }

    method Alert(key: AlertKey)
      modifies this`alerts
      ensures Value() == AlertStore(old(Value()), key)
    {
      alerts := alerts + {key};
    }
  }
}
