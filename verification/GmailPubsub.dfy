/** Pub/Sub delivery around the connector: leases that run out, messages pulled again under a new ack id,
    acknowledgements that arrive late, redeliveries, and pull loops that crash anywhere. */
module GmailPubsub {
  import opened Wrappers

  /** A published message; its id is its index. `email` is the address it names, None when malformed. */
  datatype Entry = Entry(email: Option<string>, ackId: nat, leasedUntil: nat, acked: bool)

  /** A message as a pull returned it. */
  datatype Pulled = Pulled(id: nat, ackId: nat)

  /** A pull loop between its pull and its acknowledge. */
  datatype Batch = Batch(todo: seq<Pulled>, acks: seq<nat>)

  datatype Topic = Topic(entries: seq<Entry>, nextAck: nat, recorded: set<nat>, loops: map<nat, Batch>)

  datatype Step =
    | Publish(email: Option<string>)
    | Pull(i: nat, max: nat, now: nat, deadline: nat)
    | Handle(i: nat, storeFails: bool)
    | Acknowledge(i: nat, now: nat)
    | Redeliver(id: nat)
    | Crash(i: nat)

  predicate Ready(e: Entry, now: nat) { !e.acked && e.leasedUntil <= now }

  /** One entry leased under a fresh ack id. */
  function Taken(t: Topic, k: nat, until: nat): Topic
    requires k < |t.entries|
  {
    t.(entries := t.entries[k := t.entries[k].(ackId := t.nextAck, leasedUntil := until)], nextAck := t.nextAck + 1)
  }

  /** Leases the first `max` ready entries among the first `n`, each under a fresh ack id. */
  function Lease(t: Topic, n: nat, max: nat, now: nat, deadline: nat): (r: (Topic, seq<Pulled>))
    requires n <= |t.entries|
    ensures |r.0.entries| == |t.entries| && r.0.recorded == t.recorded && r.0.loops == t.loops
  {
    if n == 0 then (t, []) else
      var (u, batch) := Lease(t, n - 1, max, now, deadline);
      if Ready(u.entries[n - 1], now) && |batch| < max then
        (Taken(u, n - 1, now + deadline), batch + [Pulled(n - 1, u.nextAck)])
      else (u, batch)
  }

  function DoHandle(t: Topic, i: nat, storeFails: bool, address: string): Topic
    requires i in t.loops && t.loops[i].todo != []
  {
    var b := t.loops[i];
    var m := b.todo[0];
    if m.id < |t.entries| && t.entries[m.id].email == Some(address) then
      if storeFails then t.(loops := t.loops[i := b.(todo := [])])
      else t.(recorded := t.recorded + {m.id}, loops := t.loops[i := Batch(b.todo[1..], b.acks + [m.ackId])])
    else t.(loops := t.loops[i := Batch(b.todo[1..], b.acks + [m.ackId])])
  }

  function DoAcknowledge(t: Topic, i: nat, now: nat): Topic
    requires i in t.loops
  {
    t.(entries := seq(|t.entries|, k requires 0 <= k < |t.entries| =>
         var e := t.entries[k]; if e.ackId in t.loops[i].acks && e.leasedUntil > now then e.(acked := true) else e),
       loops := t.loops - {i})
  }

  function Apply(t: Topic, step: Step, address: string): Topic {
    match step
    case Publish(email) => t.(entries := t.entries + [Entry(email, t.nextAck, 0, false)], nextAck := t.nextAck + 1)
    case Pull(i, max, now, deadline) =>
      if i in t.loops then t else
        var (u, batch) := Lease(t, |t.entries|, max, now, deadline);
        u.(loops := u.loops[i := Batch(batch, [])])
    case Handle(i, storeFails) =>
      if i in t.loops && t.loops[i].todo != [] then DoHandle(t, i, storeFails, address) else t
    case Acknowledge(i, now) => if i in t.loops && t.loops[i].todo == [] then DoAcknowledge(t, i, now) else t
    case Redeliver(id) =>
      if id < |t.entries| then t.(entries := t.entries[id := t.entries[id].(acked := false, leasedUntil := 0)]) else t
    case Crash(i) => t.(loops := t.loops - {i})
  }

  function Run(steps: seq<Step>, address: string): Topic {
    if steps == [] then Topic([], 0, {}, map[])
    else Apply(Run(steps[..|steps| - 1], address), steps[|steps| - 1], address)
  }

  /** Losing message `k` loses nothing. */
  predicate Safe(t: Topic, k: nat, address: string)
    requires k < |t.entries|
  {
    t.entries[k].email != Some(address) || k in t.recorded
  }

  /** Whoever holds an ack id holds it for one message only. */
  ghost predicate IdsOk(t: Topic) {
    && (forall k | 0 <= k < |t.entries| :: t.entries[k].ackId < t.nextAck)
    && (forall k, l | 0 <= k < l < |t.entries| :: t.entries[k].ackId != t.entries[l].ackId)
  }

  ghost predicate PulledOk(t: Topic, m: Pulled) {
    && m.id < |t.entries| && m.ackId < t.nextAck
    && forall k | 0 <= k < |t.entries| && t.entries[k].ackId == m.ackId :: k == m.id
  }

  ghost predicate AckOk(t: Topic, a: nat, address: string) {
    a < t.nextAck && forall k | 0 <= k < |t.entries| && t.entries[k].ackId == a :: Safe(t, k, address)
  }

  ghost predicate BatchOk(t: Topic, b: Batch, address: string) {
    && (forall j | 0 <= j < |b.todo| :: PulledOk(t, b.todo[j]))
    && (forall j | 0 <= j < |b.acks| :: AckOk(t, b.acks[j], address))
  }

  ghost predicate AckedSafe(t: Topic, address: string) {
    forall k | 0 <= k < |t.entries| && t.entries[k].acked :: Safe(t, k, address)
  }

  ghost predicate Inv(t: Topic, address: string) {
    IdsOk(t) && AckedSafe(t, address) && forall i <- t.loops :: BatchOk(t, t.loops[i], address)
  }

  /** Entries keep their address; an ack id is either kept or replaced by a fresh one. */
  ghost predicate Renewed(t: Topic, u: Topic) {
    && |t.entries| <= |u.entries| && t.nextAck <= u.nextAck && t.recorded <= u.recorded
    && (forall k | 0 <= k < |t.entries| :: u.entries[k].email == t.entries[k].email)
    && (forall k | 0 <= k < |t.entries| :: u.entries[k].ackId == t.entries[k].ackId || u.entries[k].ackId >= t.nextAck)
    && (forall k | |t.entries| <= k < |u.entries| :: u.entries[k].ackId >= t.nextAck)
  }

  lemma BatchStable(t: Topic, u: Topic, b: Batch, address: string)
    requires Renewed(t, u) && BatchOk(t, b, address)
    ensures BatchOk(u, b, address)
  {
    forall j | 0 <= j < |b.todo| ensures PulledOk(u, b.todo[j]) {
      assert PulledOk(t, b.todo[j]);
    }
    forall j | 0 <= j < |b.acks| ensures AckOk(u, b.acks[j], address) {
      assert AckOk(t, b.acks[j], address);
      forall k | 0 <= k < |u.entries| && u.entries[k].ackId == b.acks[j] ensures Safe(u, k, address) {
        assert k < |t.entries| && Safe(t, k, address);
      }
    }
  }

  lemma TakenOk(t: Topic, k: nat, until: nat)
    requires k < |t.entries| && IdsOk(t)
    ensures var u := Taken(t, k, until); Renewed(t, u) && IdsOk(u) && PulledOk(u, Pulled(k, t.nextAck))
  {
  }

  lemma RenewedTwice(t: Topic, u: Topic, v: Topic)
    requires Renewed(t, u) && Renewed(u, v)
    ensures Renewed(t, v)
  {
  }

  lemma PulledStable(t: Topic, u: Topic, m: Pulled)
    requires Renewed(t, u) && PulledOk(t, m)
    ensures PulledOk(u, m)
  {
  }

  ghost predicate Leased(t: Topic, u: Topic, batch: seq<Pulled>) {
    && Renewed(t, u) && IdsOk(u)
    && (forall k | 0 <= k < |t.entries| :: u.entries[k].acked == t.entries[k].acked)
    && forall j | 0 <= j < |batch| :: PulledOk(u, batch[j])
  }

  lemma LeasedOneMore(t: Topic, u: Topic, batch: seq<Pulled>, k: nat, until: nat)
    requires Leased(t, u, batch) && k < |u.entries|
    ensures Leased(t, Taken(u, k, until), batch + [Pulled(k, u.nextAck)])
  {
    var v := Taken(u, k, until);
    TakenOk(u, k, until);
    RenewedTwice(t, u, v);
    forall j | 0 <= j < |batch| ensures PulledOk(v, batch[j]) { PulledStable(u, v, batch[j]); }
  }

  lemma LeasedNone(t: Topic)
    requires IdsOk(t)
    ensures Leased(t, t, [])
  {
  }

  lemma LeasedNext(t: Topic, before: (Topic, seq<Pulled>), k: nat, until: nat, r: (Topic, seq<Pulled>))
    requires Leased(t, before.0, before.1) && k < |before.0.entries|
    requires r == before || r == (Taken(before.0, k, until), before.1 + [Pulled(k, before.0.nextAck)])
    ensures Leased(t, r.0, r.1)
  {
    LeasedOneMore(t, before.0, before.1, k, until);
  }

  lemma {:induction false} LeaseOk(t: Topic, n: nat, max: nat, now: nat, deadline: nat, r: (Topic, seq<Pulled>))
    requires n <= |t.entries| && IdsOk(t) && r == Lease(t, n, max, now, deadline)
    ensures Leased(t, r.0, r.1)
  {
    if n == 0 {
      LeasedNone(t);
    } else {
      var before := Lease(t, n - 1, max, now, deadline);
      LeaseOk(t, n - 1, max, now, deadline, before);
      LeasedNext(t, before, n - 1, now + deadline, r);
    }
  }

  lemma PullKeeps(t: Topic, i: nat, max: nat, now: nat, deadline: nat, address: string)
    requires Inv(t, address) && i !in t.loops
    ensures Inv(Apply(t, Pull(i, max, now, deadline), address), address)
  {
    var u := Apply(t, Pull(i, max, now, deadline), address);
    LeaseOk(t, |t.entries|, max, now, deadline, Lease(t, |t.entries|, max, now, deadline));
    forall j <- u.loops ensures BatchOk(u, u.loops[j], address) {
      if j != i { BatchStable(t, u, t.loops[j], address); }
    }
  }

  lemma StepKeepsInv(t: Topic, step: Step, address: string)
    requires Inv(t, address)
    ensures Inv(Apply(t, step, address), address)
  {
    var u := Apply(t, step, address);
    match step
    case Pull(i, max, now, deadline) =>
      if i !in t.loops { PullKeeps(t, i, max, now, deadline, address); }
    case Handle(i, storeFails) =>
      if i in t.loops && t.loops[i].todo != [] { HandleKeeps(t, i, storeFails, address); }
    case Acknowledge(i, now) =>
      if i in t.loops && t.loops[i].todo == [] { AcknowledgeKeeps(t, i, now, address); }
    case _ =>
      forall j <- u.loops ensures BatchOk(u, u.loops[j], address) { BatchStable(t, u, t.loops[j], address); }
  }

  lemma HandleKeeps(t: Topic, i: nat, storeFails: bool, address: string)
    requires Inv(t, address) && i in t.loops && t.loops[i].todo != []
    ensures Inv(DoHandle(t, i, storeFails, address), address)
  {
    var u := DoHandle(t, i, storeFails, address);
    var b := t.loops[i];
    assert PulledOk(t, b.todo[0]);
    forall j <- u.loops ensures BatchOk(u, u.loops[j], address) {
      BatchStable(t, u, t.loops[j], address);
      if j == i && |u.loops[i].acks| > |b.acks| {
        assert AckOk(u, b.todo[0].ackId, address);
        assert forall l | 0 <= l < |b.acks| :: u.loops[i].acks[l] == b.acks[l];
      }
    }
  }

  lemma AcknowledgeKeeps(t: Topic, i: nat, now: nat, address: string)
    requires Inv(t, address) && i in t.loops
    ensures Inv(DoAcknowledge(t, i, now), address)
  {
    var u := DoAcknowledge(t, i, now);
    forall k | 0 <= k < |u.entries| && u.entries[k].acked ensures Safe(u, k, address) {
      if !t.entries[k].acked {
        var j :| 0 <= j < |t.loops[i].acks| && t.loops[i].acks[j] == t.entries[k].ackId;
        assert AckOk(t, t.loops[i].acks[j], address);
      }
      assert Safe(t, k, address);
    }
    forall j <- u.loops ensures BatchOk(u, u.loops[j], address) { BatchStable(t, u, t.loops[j], address); }
  }

  lemma {:induction false} RunKeepsInv(steps: seq<Step>, address: string)
    ensures Inv(Run(steps, address), address)
  {
    if steps != [] {
      RunKeepsInv(steps[..|steps| - 1], address);
      StepKeepsInv(Run(steps[..|steps| - 1], address), steps[|steps| - 1], address);
    }
  }

  /** Over every run, with any number of pull loops: what Pub/Sub holds as acknowledged is malformed, of
      another mailbox, or already recorded. */
  lemma AcknowledgedIsSafe(steps: seq<Step>, address: string, k: nat)
    requires k < |Run(steps, address).entries| && Run(steps, address).entries[k].acked
    ensures Run(steps, address).entries[k].email != Some(address) || k in Run(steps, address).recorded
  {
    RunKeepsInv(steps, address);
    assert Safe(Run(steps, address), k, address);
  }

  // ----- What an undisturbed pass acknowledges

  function Handles(i: nat, n: nat): seq<Step> { if n == 0 then [] else Handles(i, n - 1) + [Handle(i, false)] }

  /** One pass of a pull loop with a working store: a pull, its messages one by one, the acknowledgement. */
  function Pass(i: nat, max: nat, now: nat, deadline: nat, later: nat): seq<Step> {
    [Pull(i, max, now, deadline)] + Handles(i, max) + [Acknowledge(i, later)]
  }

  /** The entries before `k` that a pull at `now` may return. */
  ghost function ReadyBefore(entries: seq<Entry>, k: nat, now: nat): set<nat>
    requires k <= |entries|
  {
    set l: nat | l < k && !entries[l].acked && entries[l].leasedUntil <= now
  }

  /** A pull of `max` returns entry `k`: it is ready, and fewer than `max` before it are. */
  ghost predicate Returned(entries: seq<Entry>, k: nat, max: nat, now: nat)
    requires k < |entries|
  {
    !entries[k].acked && entries[k].leasedUntil <= now && |ReadyBefore(entries, k, now)| < max
  }

  lemma ReadyNext(entries: seq<Entry>, k: nat, now: nat)
    requires k < |entries|
    ensures |ReadyBefore(entries, k + 1, now)| ==
            |ReadyBefore(entries, k, now)| + if !entries[k].acked && entries[k].leasedUntil <= now then 1 else 0
  {
    assert ReadyBefore(entries, k + 1, now) ==
           ReadyBefore(entries, k, now) + if !entries[k].acked && entries[k].leasedUntil <= now then {k} else {};
  }

  /** Entry `k` as a pull over the first `n` leaves it. */
  ghost predicate PulledEntry(t: Topic, u: Topic, batch: seq<Pulled>, k: nat, n: nat, max: nat, now: nat, until: nat)
    requires k < |t.entries| == |u.entries|
  {
    var e, f := t.entries[k], u.entries[k];
    if k < n && Returned(t.entries, k, max, now) then
      f == e.(ackId := f.ackId, leasedUntil := until) && f.ackId >= t.nextAck && Pulled(k, f.ackId) in batch
    else f == e
  }

  /** What a pull over the first `n` entries does: the first `max` ready ones are leased, each under a fresh ack id,
      they make up the batch, and no other changes. */
  ghost predicate Leases(t: Topic, u: Topic, batch: seq<Pulled>, n: nat, max: nat, now: nat, until: nat)
    requires n <= |t.entries|
  {
    && |u.entries| == |t.entries| && u.nextAck >= t.nextAck
    && |batch| == (if |ReadyBefore(t.entries, n, now)| < max then |ReadyBefore(t.entries, n, now)| else max)
    && (forall m <- batch :: m.id < n && m.ackId >= t.nextAck && Returned(t.entries, m.id, max, now))
    && (forall k | 0 <= k < |t.entries| :: PulledEntry(t, u, batch, k, n, max, now, until))
  }

  lemma LeasesNext(t: Topic, u: Topic, batch: seq<Pulled>, n: nat, max: nat, now: nat, until: nat,
                   v: Topic, more: seq<Pulled>)
    requires n < |t.entries| && Leases(t, u, batch, n, max, now, until)
    requires if Ready(u.entries[n], now) && |batch| < max
             then v == Taken(u, n, until) && more == batch + [Pulled(n, u.nextAck)] else v == u && more == batch
    ensures Leases(t, v, more, n + 1, max, now, until)
  {
    ReadyNext(t.entries, n, now);
    assert PulledEntry(t, u, batch, n, n, max, now, until);
    var next := n + 1;
    forall k | 0 <= k < |t.entries| ensures PulledEntry(t, v, more, k, next, max, now, until) {
      assert PulledEntry(t, u, batch, k, n, max, now, until);
      if k == n && Returned(t.entries, k, max, now) { assert more[|batch|] == Pulled(k, u.nextAck); }
    }
  }

  lemma {:induction false} LeaseMeaning(t: Topic, n: nat, max: nat, now: nat, deadline: nat, r: (Topic, seq<Pulled>))
    requires n <= |t.entries| && r == Lease(t, n, max, now, deadline)
    ensures Leases(t, r.0, r.1, n, max, now, now + deadline)
  {
    if n == 0 {
      assert ReadyBefore(t.entries, 0, now) == {};
    } else {
      var before := Lease(t, n - 1, max, now, deadline);
      LeaseMeaning(t, n - 1, max, now, deadline, before);
      LeasesNext(t, before.0, before.1, n - 1, max, now, now + deadline, r.0, r.1);
    }
  }

  function AckIds(batch: seq<Pulled>): seq<nat> {
    seq(|batch|, j requires 0 <= j < |batch| => batch[j].ackId)
  }

  /** The messages of the batch that are for this mailbox. */
  ghost function Addressed(entries: seq<Entry>, batch: seq<Pulled>, address: string): set<nat> {
    set m <- batch | m.id < |entries| && entries[m.id].email == Some(address) :: m.id
  }

  ghost predicate HandledUpTo(t: Topic, u: Topic, i: nat, batch: seq<Pulled>, n: nat, address: string) {
    var k := if n < |batch| then n else |batch|;
    && u.entries == t.entries && i in u.loops && u.loops[i] == Batch(batch[k..], AckIds(batch[..k]))
    && u.recorded == t.recorded + Addressed(t.entries, batch[..k], address)
  }

  lemma AddressedNext(entries: seq<Entry>, batch: seq<Pulled>, n: nat, address: string)
    requires n < |batch|
    ensures Addressed(entries, batch[..n + 1], address) == Addressed(entries, batch[..n], address)
            + if batch[n].id < |entries| && entries[batch[n].id].email == Some(address) then {batch[n].id} else {}
    ensures AckIds(batch[..n + 1]) == AckIds(batch[..n]) + [batch[n].ackId]
  {
    assert batch[..n + 1] == batch[..n] + [batch[n]];
  }

  lemma HandleOneMore(t: Topic, u: Topic, i: nat, batch: seq<Pulled>, n: nat, address: string)
    requires HandledUpTo(t, u, i, batch, n, address)
    ensures HandledUpTo(t, Apply(u, Handle(i, false), address), i, batch, n + 1, address)
  {
    if n < |batch| {
      AddressedNext(t.entries, batch, n, address);
      assert batch[n..][0] == batch[n] && batch[n..][1..] == batch[n + 1..];
    }
  }

  lemma RunNext(steps: seq<Step>, step: Step, address: string)
    ensures Run(steps + [step], address) == Apply(Run(steps, address), step, address)
  {
    assert (steps + [step])[..|steps|] == steps;
  }

  lemma {:induction false} HandledAll(steps: seq<Step>, i: nat, batch: seq<Pulled>, n: nat, address: string)
    requires var t := Run(steps, address); i in t.loops && t.loops[i] == Batch(batch, [])
    ensures HandledUpTo(Run(steps, address), Run(steps + Handles(i, n), address), i, batch, n, address)
  {
    var t := Run(steps, address);
    if n == 0 {
      assert steps + Handles(i, 0) == steps;
      assert HandledUpTo(t, t, i, batch, 0, address);
    } else {
      HandledAll(steps, i, batch, n - 1, address);
      var before := steps + Handles(i, n - 1);
      assert steps + Handles(i, n) == before + [Handle(i, false)];
      RunNext(before, Handle(i, false), address);
      HandleOneMore(t, Run(before, address), i, batch, n - 1, address);
    }
  }

  lemma InAckIds(batch: seq<Pulled>, m: Pulled)
    requires m in batch
    ensures m.ackId in AckIds(batch)
  {
    var j :| 0 <= j < |batch| && batch[j] == m;
    assert AckIds(batch)[j] == m.ackId;
  }

  /** Acknowledging what was pulled: exactly the entries the pull returned become acknowledged. */
  lemma AcknowledgedByPass(t: Topic, u: Topic, batch: seq<Pulled>, max: nat, now: nat, until: nat,
                           v: Topic, i: nat, later: nat, k: nat)
    requires Leases(t, u, batch, |t.entries|, max, now, until) && IdsOk(t) && k < |t.entries| && later < until
    requires i in v.loops && v.loops[i] == Batch([], AckIds(batch)) && v.entries == u.entries
    ensures DoAcknowledge(v, i, later).entries[k].acked <==> t.entries[k].acked || Returned(t.entries, k, max, now)
  {
    assert PulledEntry(t, u, batch, k, |t.entries|, max, now, until);
    if Returned(t.entries, k, max, now) { InAckIds(batch, Pulled(k, u.entries[k].ackId)); }
  }

  /** The recorded ones are those returned that name this mailbox. */
  lemma RecordedByPass(t: Topic, u: Topic, batch: seq<Pulled>, max: nat, now: nat, until: nat, address: string, k: nat)
    requires Leases(t, u, batch, |t.entries|, max, now, until) && k < |t.entries|
    ensures k in Addressed(u.entries, batch, address) <==>
              Returned(t.entries, k, max, now) && t.entries[k].email == Some(address)
  {
    assert PulledEntry(t, u, batch, k, |t.entries|, max, now, until);
  }

  /** The state between the pass's last message and its acknowledgement. */
  lemma PassHandled(steps: seq<Step>, i: nat, max: nat, now: nat, deadline: nat, address: string,
                    r: (Topic, seq<Pulled>))
    requires var t := Run(steps, address); i !in t.loops && r == Lease(t, |t.entries|, max, now, deadline)
    requires |r.1| <= max
    ensures var v := Run(steps + [Pull(i, max, now, deadline)] + Handles(i, max), address);
            && v.entries == r.0.entries && i in v.loops && v.loops[i] == Batch([], AckIds(r.1))
            && v.recorded == r.0.recorded + Addressed(r.0.entries, r.1, address)
  {
    var pull, batch := Pull(i, max, now, deadline), r.1;
    RunNext(steps, pull, address);
    HandledAll(steps + [pull], i, batch, max, address);
    assert batch[..|batch|] == batch && batch[|batch|..] == [];
  }

  lemma PassParts(steps: seq<Step>, i: nat, max: nat, now: nat, deadline: nat, later: nat, address: string, v: Topic)
    requires v == Run(steps + [Pull(i, max, now, deadline)] + Handles(i, max), address)
    requires i in v.loops && v.loops[i].todo == []
    ensures Run(steps + Pass(i, max, now, deadline, later), address) == DoAcknowledge(v, i, later)
  {
    var handled := steps + [Pull(i, max, now, deadline)] + Handles(i, max);
    assert steps + Pass(i, max, now, deadline, later) == handled + [Acknowledge(i, later)];
    RunNext(handled, Acknowledge(i, later), address);
  }

  /** Entry `k` after a pass: acknowledged if it was or the pull returned it, and recorded if it was or it was returned
      and names this mailbox. */
  ghost predicate Passed(t: Topic, u: Topic, max: nat, now: nat, address: string, k: nat)
    requires k < |t.entries|
  {
    var taken := Returned(t.entries, k, max, now);
    && |u.entries| == |t.entries|
    && (u.entries[k].acked <==> t.entries[k].acked || taken)
    && (k in u.recorded <==> k in t.recorded || (taken && t.entries[k].email == Some(address)))
  }

  lemma PassEffect(t: Topic, i: nat, max: nat, now: nat, deadline: nat, later: nat, address: string,
                   r: (Topic, seq<Pulled>), v: Topic, k: nat)
    requires IdsOk(t) && k < |t.entries| && later < now + deadline && r == Lease(t, |t.entries|, max, now, deadline)
    requires v.entries == r.0.entries && i in v.loops && v.loops[i] == Batch([], AckIds(r.1))
    requires v.recorded == r.0.recorded + Addressed(r.0.entries, r.1, address)
    ensures Passed(t, DoAcknowledge(v, i, later), max, now, address, k)
  {
    LeaseMeaning(t, |t.entries|, max, now, deadline, r);
    AcknowledgedByPass(t, r.0, r.1, max, now, now + deadline, v, i, later, k);
    RecordedByPass(t, r.0, r.1, max, now, now + deadline, address, k);
  }

  /** From every reachable state, a pass whose acknowledgement comes within the lease acknowledges exactly the entries
      its pull returned: those neither acknowledged nor leased, up to `max` of them, first published first. Of these it
      records exactly the ones that name this mailbox. */
  lemma PassAcknowledges(steps: seq<Step>, i: nat, max: nat, now: nat, deadline: nat, later: nat, address: string,
                         k: nat)
    requires i !in Run(steps, address).loops && k < |Run(steps, address).entries| && later < now + deadline
    ensures Passed(Run(steps, address), Run(steps + Pass(i, max, now, deadline, later), address), max, now, address, k)
  {
    var t := Run(steps, address);
    var r := Lease(t, |t.entries|, max, now, deadline);
    assert IdsOk(t) by { RunKeepsInv(steps, address); }
    assert |r.1| <= max by { LeaseMeaning(t, |t.entries|, max, now, deadline, r); }
    PassHandled(steps, i, max, now, deadline, address, r);
    var v := Run(steps + [Pull(i, max, now, deadline)] + Handles(i, max), address);
    PassParts(steps, i, max, now, deadline, later, address, v);
    PassEffect(t, i, max, now, deadline, later, address, r, v, k);
  }
}
