/** The connector's concurrency: sync requests coalesced into one sync at a time, and Pub/Sub
    messages acknowledged only once they are safe to lose. */
module GmailConnector {
  import opened Wrappers
  import opened GmailStore

  // ----- Sync coalescing

  /** `started` and `ended` count sync attempts; `requests` holds, per request, how many attempts had
      started before it; `queued` counts requests waiting in the microtask queue. */
  datatype Conn = Conn(syncing: bool, again: bool, queued: nat, aborted: bool,
                       started: nat, ended: nat, requests: seq<nat>)

  datatype Step = Request | Succeed | Fail | Microtask | Stop

  const IDLE := Conn(false, false, 0, false, 0, 0, [])

  /** `syncNow`: joins the running sync and asks for another one, or starts one. */
  function SyncNow(c: Conn): Conn {
    if c.syncing then c.(again := true) else c.(syncing := true, again := false, started := c.started + 1)
  }

  function Apply(c: Conn, step: Step): Conn {
    match step
    case Request => SyncNow(c).(requests := c.requests + [c.started])
    case Succeed =>
      if !c.syncing then c
      else if !c.again || c.aborted then c.(syncing := false, ended := c.ended + 1)
      else c.(again := false, started := c.started + 1, ended := c.ended + 1)
    case Fail =>
      if !c.syncing then c
      else c.(syncing := false, ended := c.ended + 1, queued := if c.again && !c.aborted then c.queued + 1
          else c.queued)
    case Microtask => if c.queued == 0 then c else SyncNow(c.(queued := c.queued - 1))
    case Stop => c.(aborted := true)
  }

  function Run(c: Conn, steps: seq<Step>): Conn {
    if steps == [] then c else Apply(Run(c, steps[..|steps| - 1]), steps[|steps| - 1])
  }

  /** An attempt has started after the request. */
  predicate Served(c: Conn, r: nat)
    requires r < |c.requests|
  {
    c.started > c.requests[r]
  }

  /** The connector still owes a sync: one follows the running sync, or one is queued. */
  predicate Owes(c: Conn) {
    (c.syncing && c.again) || c.queued > 0
  }

  ghost predicate ConnOk(c: Conn) {
    && c.started == c.ended + (if c.syncing then 1 else 0)
    && (forall r | 0 <= r < |c.requests| :: c.requests[r] <= c.started)
    && (!c.aborted ==> forall r | 0 <= r < |c.requests| :: Served(c, r) || Owes(c))
  }

  lemma StepOk(c: Conn, step: Step)
    requires ConnOk(c)
    ensures ConnOk(Apply(c, step))
  {
    var d := Apply(c, step);
    if !d.aborted {
      forall r | 0 <= r < |d.requests| ensures Served(d, r) || Owes(d) {
        if r < |c.requests| { assert Served(c, r) || Owes(c); }
      }
    }
  }

  lemma {:induction false} RunOk(steps: seq<Step>)
    ensures ConnOk(Run(IDLE, steps))
  {
    if steps != [] {
      RunOk(steps[..|steps| - 1]);
      StepOk(Run(IDLE, steps[..|steps| - 1]), steps[|steps| - 1]);
    }
  }

  /** Over every interleaving: at most one attempt is in flight, and unless the connector stopped, every
      request has had an attempt start after it or one is still owed; at rest none is owed. */
  lemma EveryRequestIsServed(steps: seq<Step>, r: nat)
    requires r < |Run(IDLE, steps).requests|
    ensures var c := Run(IDLE, steps);
            && c.ended <= c.started <= c.ended + 1
            && (!c.aborted ==> Served(c, r) || Owes(c))
            && (!c.aborted && !c.syncing && c.queued == 0 ==> Served(c, r))
  {
    RunOk(steps);
  }

  /** What is owed is paid: however the running sync ends, its successor starts after the request. */
  lemma OwedSyncStarts(c: Conn, r: nat)
    requires ConnOk(c) && !c.aborted && r < |c.requests| && !Served(c, r)
    ensures c.syncing && c.again ==> Served(Apply(c, Succeed), r)
    ensures c.syncing && c.again ==> Served(Apply(Apply(c, Fail), Microtask), r)
    ensures !c.syncing ==> Served(Apply(c, Microtask), r)
    ensures c.syncing && !c.again ==> Apply(c, Microtask).again && Apply(c, Microtask).syncing
  {
    assert c.requests[r] == c.started && Owes(c);
  }

  /** The step ends the attempt in flight or takes a request from the microtask queue. */
  predicate Effective(c: Conn, step: Step) {
    (c.syncing && (step.Succeed? || step.Fail?)) || (c.queued > 0 && step.Microtask?)
  }

  /** How many of the steps are effective where they happen. */
  function CountEffective(c: Conn, steps: seq<Step>): nat {
    if steps == [] then 0 else
      var n := |steps| - 1;
      CountEffective(c, steps[..n]) + if Effective(Run(c, steps[..n]), steps[n]) then 1 else 0
  }

  /** The most effective steps that may pass before an owed attempt starts. */
  function Patience(c: Conn): nat { c.queued + if c.syncing then 2 else 0 }

  /** While a request waits, an effective step is at hand, each one uses up patience, and nothing else restores it. */
  lemma PatienceStep(c: Conn, step: Step, r: nat)
    requires ConnOk(c) && !c.aborted && !step.Stop? && r < |c.requests| && !Served(c, r)
    ensures Effective(c, Succeed) || Effective(c, Microtask)
    ensures var d := Apply(c, step);
            Served(d, r) || Patience(d) + (if Effective(c, step) then 1 else 0) <= Patience(c)
  {
    assert c.requests[r] == c.started && Owes(c);
  }

  lemma {:induction false} WaitingUsesPatience(c: Conn, steps: seq<Step>, r: nat)
    requires ConnOk(c) && !c.aborted && r < |c.requests| && forall step <- steps :: !step.Stop?
    ensures var d := Run(c, steps);
            && ConnOk(d) && !d.aborted && |d.requests| >= |c.requests| && d.requests[r] == c.requests[r]
            && (Served(d, r) || Patience(d) + CountEffective(c, steps) <= Patience(c))
  {
    if steps != [] {
      var n := |steps| - 1;
      WaitingUsesPatience(c, steps[..n], r);
      var d := Run(c, steps[..n]);
      StepOk(d, steps[n]);
      if !Served(d, r) { PatienceStep(d, steps[n], r); }
    }
  }

  /** From any reachable state and however it goes on without a stop, in whatever order further requests come: once as
      many effective steps have passed as requests were queued, and two more if a sync was in flight, every earlier
      request has had an attempt start after it. */
  lemma ServedInTime(before: seq<Step>, steps: seq<Step>, r: nat)
    requires r < |Run(IDLE, before).requests| && !Run(IDLE, before).aborted && forall step <- steps :: !step.Stop?
    requires CountEffective(Run(IDLE, before), steps) >= Patience(Run(IDLE, before))
    ensures var d := Run(Run(IDLE, before), steps); r < |d.requests| && Served(d, r)
  {
    var c := Run(IDLE, before);
    RunOk(before);
    WaitingUsesPatience(c, steps, r);
    var d := Run(c, steps);
    assert Served(d, r) || Owes(d);
  }

  class Connector {
    var syncing: bool
    var again: bool
    var queued: nat
    var aborted: bool
    ghost var started: nat
    ghost var ended: nat
    ghost var requests: seq<nat>

    ghost function Value(): Conn
      reads this
    {
      Conn(syncing, again, queued, aborted, started, ended, requests)
    }

    constructor ()
      ensures Value() == IDLE
    {
      syncing, again, queued, aborted := false, false, 0, false;
      started, ended, requests := 0, 0, [];
    }

    method StartOrJoin()
      modifies this
      ensures Value() == SyncNow(old(Value()))
    {
      if syncing {
        again := true;
      } else {
        syncing := true;
        again := false;
        started := started + 1;
      }
    }

    method RequestSync()
      modifies this
      ensures Value() == Apply(old(Value()), Request)
    {
      requests := requests + [started];
      StartOrJoin();
    }

    /** The attempt in flight succeeded: run another one when asked to, else finish. */
    method AttemptSucceeded()
      requires syncing
      modifies this
      ensures Value() == Apply(old(Value()), Succeed)
    {
      ended := ended + 1;
      if !again || aborted {
        Finish();
      } else {
        again := false;
        started := started + 1;
      }
    }

    method AttemptFailed()
      requires syncing
      modifies this
      ensures Value() == Apply(old(Value()), Fail)
    {
      ended := ended + 1;
      Finish();
    }

    /** The `finally` block: no await lies between the last look at `again` and clearing `syncing`. */
    method Finish()
      modifies this`syncing, this`queued
      ensures !syncing && queued == if again && !aborted then old(queued) + 1 else old(queued)
    {
      syncing := false;
      if again && !aborted { queued := queued + 1; }
    }

    method RunMicrotask()
      requires queued > 0
      modifies this
      ensures Value() == Apply(old(Value()), Microtask)
    {
      queued := queued - 1;
      StartOrJoin();
    }

    method Abort()
      modifies this
      ensures Value() == Apply(old(Value()), Stop)
    {
      aborted := true;
    }
  }

  // ----- Pub/Sub

  /** A pulled message; `email` is the lowercased address it names, None when the message is malformed. */
  datatype Received = Received(ackId: nat, messageId: nat, email: Option<string>, hash: int)

  /** Losing the message loses nothing: it is malformed, of another mailbox, or durably recorded. */
  predicate SafeToAck(m: Received, address: string, stored: map<EventKey, Event>) {
    m.email != Some(address) || Notification(m.messageId) in stored
  }

  method Handle(store: MemoryStore, m: Received, address: string) returns (ack: bool)
    modifies store
    ensures ack ==> SafeToAck(m, address, store.stored)
    ensures ack <==> m.email != Some(address) || old(store.failures) == 0
    ensures forall k <- old(store.stored) :: k in store.stored && store.stored[k] == old(store.stored)[k]
    ensures store.failures <= old(store.failures)
  {
    if m.email.None? { return true; }
    if m.email.value != address { return true; }
    var failed, status := store.RecordNotification(Event(Notification(m.messageId), m.hash));
    ack := !failed;
  }

  /** One pulled batch: the acknowledged messages are a prefix of it, each safe to lose, and the batch stops
      only at a message of this mailbox that could not be recorded. */
  method HandleBatch(store: MemoryStore, batch: seq<Received>, address: string) returns (acks: seq<nat>, retry: bool)
    modifies store
    ensures |acks| <= |batch| && forall j | 0 <= j < |acks| :: acks[j] == batch[j].ackId
    ensures forall j | 0 <= j < |acks| :: SafeToAck(batch[j], address, store.stored)
    ensures retry <==> |acks| < |batch|
    ensures retry ==> batch[|acks|].email == Some(address)
    ensures old(store.failures) == 0 ==> !retry
    ensures forall k <- old(store.stored) :: k in store.stored && store.stored[k] == old(store.stored)[k]
  {
    acks, retry := [], false;
    for i := 0 to |batch|
      invariant |acks| == i && forall j | 0 <= j < i :: acks[j] == batch[j].ackId
      invariant forall j | 0 <= j < i :: SafeToAck(batch[j], address, store.stored)
      invariant store.failures <= old(store.failures)
      invariant forall k <- old(store.stored) :: k in store.stored && store.stored[k] == old(store.stored)[k]
    {
      var ack := Handle(store, batch[i], address);
      if !ack { return acks, true; }
      acks := acks + [batch[i].ackId];
    }
  }
}
