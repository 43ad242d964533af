/** Deterministic routing of one event under the loop guards. The source spends two shared budgets
    greedily, candidate by candidate; here that loop is proved equal to a closed form. */
module Routing {
  import opened Wrappers
  import opened CodeUnits
  import opened Sorting
  import opened Events
  import opened Waits

  const MAX_PAIRWISE_MESSAGES := 12
  const MAX_THREAD_WAKES_PER_WINDOW := 30

  datatype WakeRule = WakeRule(eventType: EventType, target: Option<AgentId>)

  datatype Agent = Agent(id: AgentId, disabled: bool, rules: seq<WakeRule>, channels: set<Id>, floors: map<Id, int>)

  datatype Limits = Limits(maxHops: nat, maxTurns: nat, maxRunsPerHour: nat)

  datatype Stats = Stats(cascadeWakes: nat, runsLastHour: map<AgentId, nat>, duplicates: nat,
                         pairwise: map<AgentId, nat>, threadWakes: nat)

  datatype Input = Input(event: Event, agents: seq<Agent>, waits: seq<Wait>, limits: Limits, stats: Stats, now: int)

  datatype Reason =
    | WaitMatchedR | WaitTimeoutR | Target | Subscription
    | SelfPost | ChannelNotAllowed | AgentDisabled
    | HopLimit | CascadeLimit | RateLimit | ThreadRateLimit | DuplicatePayload | PairwiseLimit

  datatype Decision = WakeUp | WaitMatch | Ignore | Blocked

  datatype Candidate = Candidate(agent: AgentId, reason: Reason, waitId: Option<Id>)

  datatype Route = Route(agent: AgentId, decision: Decision, reason: Reason, waitId: Option<Id>, priority: nat)

  // ----- Candidates

  predicate TimeoutLess(a: Wait, b: Wait) { a.timeoutAt < b.timeoutAt }

  predicate IdLess(a: Candidate, b: Candidate) { Less(a.agent, b.agent) }

  predicate HasAgent(ws: seq<Wait>, a: AgentId) { exists w <- ws :: w.agent == a }

  /** The first matching wait of each agent, in order. */
  function FirstMatches(ws: seq<Wait>, e: Event, now: int): seq<Wait> {
    if ws == [] then [] else
      var n := |ws| - 1;
      var before := FirstMatches(ws[..n], e, now);
      if !HasAgent(before, ws[n].agent) && Matches(ws[n], e, now) then before + [ws[n]] else before
  }

  function WaitOf(ws: seq<Wait>, id: Id): Option<Wait> {
    if ws == [] then None else if ws[0].id == id then Some(ws[0]) else WaitOf(ws[1..], id)
  }

  function AsCandidates(ws: seq<Wait>): seq<Candidate> {
    seq(|ws|, i requires 0 <= i < |ws| => Candidate(ws[i].agent, WaitMatchedR, Some(ws[i].id)))
  }

  function WaitCandidates(input: Input): seq<Candidate> {
    var e := input.event;
    if e.typ.WaitTimeout? then
      if !GatewayEmitted(e) || !e.data.TimeoutData? then [] else
        var w := WaitOf(input.waits, e.data.waitId);
        if w.Some? && w.value.agent == e.data.agentId then [Candidate(w.value.agent, WaitTimeoutR, Some(w.value.id))]
            else []
    else AsCandidates(FirstMatches(Sort(input.waits, TimeoutLess), e, input.now))
  }

  predicate Subscribes(a: Agent, e: Event) {
    !IsReserved(e.typ) && !IsPostType(e.typ) && exists r <- a.rules :: r.target.None? && r.eventType == e.typ
  }

  /** How an agent without a matched wait is reached, if at all. */
  function Wake(a: Agent, e: Event): Option<Candidate> {
    if a.id in Targets(e) then Some(Candidate(a.id, Target, None))
    else if Subscribes(a, e) then Some(Candidate(a.id, Subscription, None)) else None
  }

  function WakeCandidates(agents: seq<Agent>, e: Event, taken: set<AgentId>): seq<Candidate> {
    if agents == [] then [] else
      var n := |agents| - 1;
      var a := agents[n];
      WakeCandidates(agents[..n], e, taken) + if a.id !in taken && Wake(a, e).Some? then [Wake(a, e).value] else []
  }

  function Known(agents: seq<Agent>): map<AgentId, Agent> {
    if agents == [] then map[] else Known(agents[..|agents| - 1])[agents[|agents| - 1].id := agents[|agents| - 1]]
  }

  function Filter<T>(s: seq<T>, p: T -> bool): seq<T> {
    if s == [] then [] else Filter(s[..|s| - 1], p) + if p(s[|s| - 1]) then [s[|s| - 1]] else []
  }

  /** The wait tier: waits of agents still registered. */
  function WaitTier(input: Input): seq<Candidate> {
    Filter(WaitCandidates(input), (c: Candidate) => c.agent in Known(input.agents))
  }

  function Wakes(input: Input): seq<Candidate> {
    WakeCandidates(input.agents, input.event, set c <- WaitTier(input) :: c.agent)
  }

  /** Waits, then targets, then subscriptions; inside a tier by agent id. */
  function Candidates(input: Input): seq<Candidate> {
    Sort(WaitTier(input), IdLess)
      + Sort(Filter(Wakes(input), (c: Candidate) => c.reason == Target), IdLess)
      + Sort(Filter(Wakes(input), (c: Candidate) => c.reason == Subscription), IdLess)
  }

  predicate Routable(e: Event) { !IsControl(e.typ) && !IsRecordOnly(e.typ) }

  // ----- One candidate

  function OwnCount(m: map<AgentId, nat>, id: AgentId): nat { if id in m then m[id] else 0 }

  function IgnoredFor(input: Input, c: Candidate): Option<Reason>
    requires c.agent in Known(input.agents)
  {
    var a := Known(input.agents)[c.agent];
    var post := MattermostPost(input.event);
    if post.Some? && (post.value.channel !in a.channels ||
                      (post.value.channel in a.floors && input.event.time <= a.floors[post.value.channel]))
    then Some(ChannelNotAllowed)
    else if Sender(input.event) == Some(a.id) then Some(SelfPost)
    else if a.disabled then Some(AgentDisabled)
    else None
  }

  /** A timeout, or an approval's end, resolves a wait the agent already holds: never blocked. */
  predicate Exempt(input: Input, c: Candidate) {
    c.reason.WaitTimeoutR? || (c.waitId.Some? && IsResolution(input.event))
  }

  predicate Repeats(input: Input) { Sender(input.event).Some? && input.stats.duplicates > 0 }

  predicate PairLimited(input: Input, c: Candidate) {
    Sender(input.event).Some? && OwnCount(input.stats.pairwise, c.agent) >= MAX_PAIRWISE_MESSAGES
  }

  /** A candidate that only the two shared budgets can still stop. */
  predicate Passing(input: Input, c: Candidate) {
    && c.agent in Known(input.agents) && IgnoredFor(input, c).None? && !Exempt(input, c)
    && input.event.hop <= input.limits.maxHops
    && OwnCount(input.stats.runsLastHour, c.agent) < input.limits.maxRunsPerHour
    && !Repeats(input) && !PairLimited(input, c)
  }

  function RouteOf(c: Candidate, d: Decision, reason: Reason): Route {
    Route(c.agent, d, reason, c.waitId,
          if c.waitId.Some? then 10 else if c.reason == Target then 5 else 0)
  }

  function Granted(c: Candidate): Route {
    RouteOf(c, if c.waitId.Some? then WaitMatch else WakeUp, c.reason)
  }

  predicate IsGrant(r: Route) { r.decision.WakeUp? || r.decision.WaitMatch? }

  /** The decision for one candidate, given what was spent before it. */
  function Decide(input: Input, c: Candidate, cascade: nat, thread: nat): Route
    requires c.agent in Known(input.agents)
  {
    var ignored := IgnoredFor(input, c);
    if ignored.Some? then RouteOf(c, Ignore, ignored.value)
    else if Exempt(input, c) then Granted(c)
    else if input.event.hop > input.limits.maxHops then RouteOf(c, Blocked, HopLimit)
    else if cascade >= input.limits.maxTurns then RouteOf(c, Blocked, CascadeLimit)
    else if OwnCount(input.stats.runsLastHour, c.agent) >= input.limits.maxRunsPerHour
        then RouteOf(c, Blocked, RateLimit)
    else if thread >= MAX_THREAD_WAKES_PER_WINDOW then RouteOf(c, Blocked, ThreadRateLimit)
    else if Repeats(input) then RouteOf(c, Blocked, DuplicatePayload)
    else if PairLimited(input, c) then RouteOf(c, Blocked, PairwiseLimit)
    else Granted(c)
  }

  // ----- The closed form

  predicate Excused(input: Input, c: Candidate) {
    c.agent in Known(input.agents) && IgnoredFor(input, c).None? && Exempt(input, c)
  }

  /** How many of `cs` pass every stateless guard. */
  function Passed(input: Input, cs: seq<Candidate>): nat {
    if cs == [] then 0 else Passed(input, cs[..|cs| - 1]) + if Passing(input, cs[|cs| - 1]) then 1 else 0
  }

  /** How many of `cs` are granted whatever the budgets. */
  function Exempted(input: Input, cs: seq<Candidate>): nat {
    if cs == [] then 0 else Exempted(input, cs[..|cs| - 1]) + if Excused(input, cs[|cs| - 1]) then 1 else 0
  }

  function Min(a: int, b: int): int { if a < b then a else b }
  function Max(a: int, b: int): int { if a > b then a else b }

  /** What is left of the tighter budget, once the exempt waits are counted. */
  function Room(input: Input, cs: seq<Candidate>): nat {
    Max(0, Min(input.limits.maxTurns - input.stats.cascadeWakes, MAX_THREAD_WAKES_PER_WINDOW - input.stats.threadWakes)
             - Exempted(input, cs))
  }

  /** Wake-ups granted to the first `i` candidates: the exempt ones, and as many passing ones as there is room. */
  function Spent(input: Input, cs: seq<Candidate>, i: nat): nat
    requires i <= |cs|
  {
    Exempted(input, cs[..i]) + Min(Passed(input, cs[..i]), Room(input, cs))
  }

  function RouteAt(input: Input, cs: seq<Candidate>, i: nat): Route
    requires i < |cs| && cs[i].agent in Known(input.agents)
  {
    var spent := Spent(input, cs, i);
    Decide(input, cs[i], input.stats.cascadeWakes + spent, input.stats.threadWakes + spent)
  }

  /** Every route from its candidate's own standing and the counts before it: no loop, no counter. */
  function RoutesOf(input: Input, cs: seq<Candidate>): seq<Route>
    requires forall c <- cs :: c.agent in Known(input.agents)
  {
    seq(|cs|, i requires 0 <= i < |cs| => RouteAt(input, cs, i))
  }

  function Routes(input: Input): seq<Route> {
    if !Routable(input.event) then [] else
      CandidatesProper(input);
      RoutesOf(input, Candidates(input))
  }

  // ----- What the candidates are

  lemma {:induction false} FilterMembers<T>(s: seq<T>, p: T -> bool, x: T)
    ensures x in Filter(s, p) <==> x in s && p(x)
  {
    if s != [] {
      FilterMembers(s[..|s| - 1], p, x);
      assert s == s[..|s| - 1] + [s[|s| - 1]];
    }
  }

  lemma {:induction false} KnownMeaning(agents: seq<Agent>, id: AgentId)
    ensures id in Known(agents) <==> exists a <- agents :: a.id == id
    ensures id in Known(agents) ==> Known(agents)[id] in agents && Known(agents)[id].id == id
  {
    if agents != [] {
      KnownMeaning(agents[..|agents| - 1], id);
      assert agents == agents[..|agents| - 1] + [agents[|agents| - 1]];
    }
  }

  lemma {:induction false} WakeMembers(agents: seq<Agent>, e: Event, taken: set<AgentId>, c: Candidate)
    ensures c in WakeCandidates(agents, e, taken) <==> exists a <- agents :: a.id !in taken && Wake(a, e) == Some(c)
  {
    if agents != [] {
      var n := |agents| - 1;
      WakeMembers(agents[..n], e, taken, c);
      assert agents == agents[..n] + [agents[n]];
    }
  }

  /** Every agent with a matching wait is served. */
  lemma {:induction false} FirstMatchesCover(ws: seq<Wait>, e: Event, now: int, w: Wait)
    requires w in ws && Matches(w, e, now)
    ensures HasAgent(FirstMatches(ws, e, now), w.agent)
  {
    var n := |ws| - 1;
    assert ws == ws[..n] + [ws[n]];
    var before, all := FirstMatches(ws[..n], e, now), FirstMatches(ws, e, now);
    assert before <= all;
    if w in ws[..n] { FirstMatchesCover(ws[..n], e, now, w); }
    if HasAgent(before, w.agent) {
      var k :| 0 <= k < |before| && before[k].agent == w.agent;
      assert all[k] in all;
    } else {
      assert all[|before|] == w;
    }
  }

  lemma LastIsLatest(ws: seq<Wait>, w: Wait)
    requires ws != [] && Sorted(ws, TimeoutLess) && w in ws[..|ws| - 1]
    ensures w.timeoutAt <= ws[|ws| - 1].timeoutAt
  {
    var j :| 0 <= j < |ws| - 1 && ws[j] == w;
    assert !TimeoutLess(ws[|ws| - 1], ws[j]);
  }

  /** The wait chosen for an agent: it matches, and no matching wait of the agent times out earlier. */
  lemma {:induction false} FirstMatchesMeaning(ws: seq<Wait>, e: Event, now: int, w: Wait)
    requires Sorted(ws, TimeoutLess) && w in FirstMatches(ws, e, now)
    ensures w in ws && Matches(w, e, now)
    ensures forall v <- ws | v.agent == w.agent && Matches(v, e, now) :: w.timeoutAt <= v.timeoutAt
  {
    var n := |ws| - 1;
    assert ws == ws[..n] + [ws[n]];
    var before := FirstMatches(ws[..n], e, now);
    if w in before {
      FirstMatchesMeaning(ws[..n], e, now, w);
      LastIsLatest(ws, w);
    } else {
      forall v <- ws[..n] | v.agent == w.agent ensures !Matches(v, e, now) {
        if Matches(v, e, now) { FirstMatchesCover(ws[..n], e, now, v); }
      }
    }
  }

  ghost predicate OnePerAgent(ws: seq<Wait>) {
    forall i, j | 0 <= i < j < |ws| :: ws[i].agent != ws[j].agent
  }

  lemma {:induction false} FirstMatchesDistinct(ws: seq<Wait>, e: Event, now: int)
    ensures OnePerAgent(FirstMatches(ws, e, now))
  {
    if ws != [] {
      FirstMatchesDistinct(ws[..|ws| - 1], e, now);
      var before, r := FirstMatches(ws[..|ws| - 1], e, now), FirstMatches(ws, e, now);
      forall i, j | 0 <= i < j < |r| ensures r[i].agent != r[j].agent {
        assert r[i] == before[i] && before[i] in before;
        if j < |before| {
          assert before[i].agent != before[j].agent;
        } else {
          assert r[j] == ws[|ws| - 1] && !HasAgent(before, r[j].agent);
        }
      }
    }
  }

  /** For every event but a timeout: an agent gets a wait candidate exactly when one of its waits matches, and
      it is the matching wait that times out first. */
  lemma WaitChoice(input: Input, a: AgentId)
    requires !input.event.typ.WaitTimeout?
    ensures (exists c <- WaitCandidates(input) :: c.agent == a)
              <==> exists w <- input.waits :: w.agent == a && Matches(w, input.event, input.now)
    ensures forall c <- WaitCandidates(input) | c.agent == a ::
              exists w <- input.waits ::
                && w.agent == a && c.waitId == Some(w.id) && Matches(w, input.event, input.now)
                && forall v <- input.waits | v.agent == a && Matches(v, input.event, input.now) ::
                     w.timeoutAt <= v.timeoutAt
  {
    var ws := Sort(input.waits, TimeoutLess);
    var chosen := FirstMatches(ws, input.event, input.now);
    var cs := WaitCandidates(input);
    SortFacts(input.waits, TimeoutLess);
    forall w ensures w in ws <==> w in input.waits { SortMembers(input.waits, TimeoutLess, w); }
    forall c <- cs | c.agent == a
      ensures exists w <- input.waits ::
                && w.agent == a && c.waitId == Some(w.id) && Matches(w, input.event, input.now)
                && forall v <- input.waits | v.agent == a && Matches(v, input.event, input.now) ::
                     w.timeoutAt <= v.timeoutAt
    {
      var k :| 0 <= k < |cs| && cs[k] == c;
      assert chosen[k] in chosen;
      FirstMatchesMeaning(ws, input.event, input.now, chosen[k]);
      assert chosen[k] in input.waits;
    }
    forall w <- input.waits | w.agent == a && Matches(w, input.event, input.now)
      ensures exists c <- cs :: c.agent == a
    {
      FirstMatchesCover(ws, input.event, input.now, w);
      var k :| 0 <= k < |chosen| && chosen[k].agent == a;
      assert cs[k] in cs && cs[k].agent == a;
    }
  }

  lemma TierMembers(input: Input, c: Candidate)
    ensures c in Candidates(input) <==>
              || c in WaitTier(input)
              || (c in Wakes(input) && (c.reason == Target || c.reason == Subscription))
  {
    var targets := Filter(Wakes(input), (c: Candidate) => c.reason == Target);
    var subs := Filter(Wakes(input), (c: Candidate) => c.reason == Subscription);
    SortMembers(WaitTier(input), IdLess, c);
    SortMembers(targets, IdLess, c);
    SortMembers(subs, IdLess, c);
    FilterMembers(Wakes(input), (c: Candidate) => c.reason == Target, c);
    FilterMembers(Wakes(input), (c: Candidate) => c.reason == Subscription, c);
  }

  lemma CandidateKnown(input: Input, c: Candidate)
    requires c in Candidates(input)
    ensures c.agent in Known(input.agents)
    ensures c.waitId.Some? <==> c in WaitTier(input)
    ensures c.waitId.Some? ==> (c.reason.WaitTimeoutR? <==> input.event.typ.WaitTimeout?)
    ensures c.waitId.None? ==> !IsReserved(input.event.typ) && !c.reason.WaitTimeoutR?
  {
    TierMembers(input, c);
    KnownMeaning(input.agents, c.agent);
    if c in WaitTier(input) {
      FilterMembers(WaitCandidates(input), (c: Candidate) => c.agent in Known(input.agents), c);
    } else {
      WakeMembers(input.agents, input.event, set c <- WaitTier(input) :: c.agent, c);
    }
    if c.waitId.Some? { FilterMembers(WaitCandidates(input), (c: Candidate) => c.agent in Known(input.agents), c); }
  }

  /** Whether a candidate is exempt is decided by the event. */
  lemma ExemptByEvent(input: Input, c: Candidate)
    requires c in Candidates(input)
    ensures Exempt(input, c) <==> input.event.typ.WaitTimeout? || IsResolution(input.event)
  {
    CandidateKnown(input, c);
  }

  /** Exempt and guarded candidates never meet in one event. */
  lemma NeverMixed(input: Input, c: Candidate, d: Candidate)
    requires c in Candidates(input) && d in Candidates(input) && Exempt(input, c)
    ensures Exempt(input, d)
  {
    ExemptByEvent(input, c);
    ExemptByEvent(input, d);
  }

  lemma {:induction false} NoneExempted(input: Input, cs: seq<Candidate>)
    requires forall c <- cs :: !Exempt(input, c)
    ensures Exempted(input, cs) == 0
  {
    if cs != [] { NoneExempted(input, cs[..|cs| - 1]); }
  }

  /** What the closed form needs of a candidate list. */
  ghost predicate Proper(input: Input, cs: seq<Candidate>) {
    && (forall c <- cs :: c.agent in Known(input.agents))
    && (forall c <- cs, d <- cs :: Exempt(input, c) ==> Exempt(input, d))
  }

  lemma CandidatesProper(input: Input)
    ensures Proper(input, Candidates(input))
  {
    var cs := Candidates(input);
    forall c <- cs ensures c.agent in Known(input.agents) { CandidateKnown(input, c); }
    forall c <- cs, d <- cs | Exempt(input, c) ensures Exempt(input, d) { NeverMixed(input, c, d); }
  }

  // ----- The loop equals the closed form

  /** A guarded candidate means that nothing was or will be exempt. */
  lemma GuardedMeansNoExempt(input: Input, cs: seq<Candidate>, i: nat, j: nat)
    requires Proper(input, cs) && i < |cs| && j <= |cs| && !Exempt(input, cs[i])
    ensures Exempted(input, cs) == 0 && Exempted(input, cs[..j]) == 0
  {
    NoneExempted(input, cs);
    NoneExempted(input, cs[..j]);
  }

  /** One candidate's decision, in terms of its own standing and what is left. */
  lemma DecideMeaning(input: Input, c: Candidate, cascade: nat, thread: nat)
    requires c.agent in Known(input.agents)
    ensures IsGrant(Decide(input, c, cascade, thread)) <==>
              || Excused(input, c)
              || (Passing(input, c) && cascade < input.limits.maxTurns && thread < MAX_THREAD_WAKES_PER_WINDOW)
  {
  }

  lemma CountsStep(input: Input, cs: seq<Candidate>, i: nat)
    requires i < |cs|
    ensures Passed(input, cs[..i + 1]) == Passed(input, cs[..i]) + if Passing(input, cs[i]) then 1 else 0
    ensures Exempted(input, cs[..i + 1]) == Exempted(input, cs[..i]) + if Excused(input, cs[i]) then 1 else 0
  {
    assert cs[..i + 1][..i] == cs[..i];
  }

  /** The budget test of the loop is the rank test of the closed form. */
  lemma GrantByRank(input: Input, cs: seq<Candidate>, i: nat)
    requires Proper(input, cs) && i < |cs|
    ensures IsGrant(RouteAt(input, cs, i)) <==>
              Excused(input, cs[i]) || (Passing(input, cs[i]) && Passed(input, cs[..i]) < Room(input, cs))
  {
    var spent := Spent(input, cs, i);
    DecideMeaning(input, cs[i], input.stats.cascadeWakes + spent, input.stats.threadWakes + spent);
    if !Exempt(input, cs[i]) { GuardedMeansNoExempt(input, cs, i, i); }
  }

  /** The spending of the closed form moves exactly with the grants. */
  lemma SpentStep(input: Input, cs: seq<Candidate>, i: nat)
    requires Proper(input, cs) && i < |cs|
    ensures Spent(input, cs, i + 1) == Spent(input, cs, i) + if IsGrant(RouteAt(input, cs, i)) then 1 else 0
  {
    GrantByRank(input, cs, i);
    CountsStep(input, cs, i);
  }

  /** Guarded grants are exactly the first `Room` candidates that pass every stateless guard; exempt candidates
      are always granted; ignored ones never. */
  ghost predicate FirstPassing(input: Input, cs: seq<Candidate>, i: nat, r: Route)
    requires i < |cs|
  {
    var c := cs[i];
    && c.agent in Known(input.agents) && r.agent == c.agent && r.waitId == c.waitId
    && (r.decision.Ignore? <==> IgnoredFor(input, c).Some?)
    && (IgnoredFor(input, c).None? && Exempt(input, c) ==> IsGrant(r))
    && (IgnoredFor(input, c).None? && !Exempt(input, c) ==>
          (IsGrant(r) <==> Passing(input, c) && Passed(input, cs[..i]) < Room(input, cs)))
    && (IsGrant(r) ==> r.reason == c.reason && (r.decision.WaitMatch? <==> c.waitId.Some?))
  }

  lemma GrantsOf(input: Input, cs: seq<Candidate>, i: nat)
    requires Proper(input, cs) && i < |cs|
    ensures FirstPassing(input, cs, i, RoutesOf(input, cs)[i])
  {
    GrantByRank(input, cs, i);
  }

  lemma GrantsAreTheFirstPassing(input: Input)
    requires Routable(input.event)
    ensures |Routes(input)| == |Candidates(input)|
    ensures forall i | 0 <= i < |Routes(input)| :: FirstPassing(input, Candidates(input), i, Routes(input)[i])
  {
    var cs := Candidates(input);
    CandidatesProper(input);
    var rs := Routes(input);
    assert rs == RoutesOf(input, cs);
    forall i | 0 <= i < |rs| ensures FirstPassing(input, cs, i, rs[i]) { GrantsOf(input, cs, i); }
  }

  // ----- The source's loops

  method BuildWaitCandidates(input: Input) returns (cs: seq<Candidate>)
    ensures cs == WaitCandidates(input)
  {
    var e := input.event;
    if e.typ.WaitTimeout? { return WaitCandidates(input); }
    var sorted := Sort(input.waits, TimeoutLess);
    var byAgent: map<AgentId, Wait> := map[];
    var order: seq<Wait> := [];
    for i := 0 to |sorted|
      invariant order == FirstMatches(sorted[..i], e, input.now)
      invariant forall a :: a in byAgent <==> HasAgent(order, a)
    {
      assert sorted[..i + 1][..i] == sorted[..i];
      var w := sorted[i];
      if w.agent !in byAgent && Matches(w, e, input.now) {
        forall a ensures HasAgent(order + [w], a) <==> HasAgent(order, a) || a == w.agent {
          assert w in order + [w];
          if HasAgent(order, a) { var v :| v in order && v.agent == a; assert v in order + [w]; }
        }
        byAgent := byAgent[w.agent := w];
        order := order + [w];
      }
    }
    assert sorted[..|sorted|] == sorted;
    cs := AsCandidates(order);
  }

  method BuildWakeCandidates(input: Input, taken: set<AgentId>) returns (cs: seq<Candidate>)
    ensures cs == WakeCandidates(input.agents, input.event, taken)
  {
    var targets := Targets(input.event);
    cs := [];
    for i := 0 to |input.agents|
      invariant cs == WakeCandidates(input.agents[..i], input.event, taken)
    {
      assert input.agents[..i + 1][..i] == input.agents[..i];
      var a := input.agents[i];
      if a.id in taken { continue; }
      if a.id in targets {
        cs := cs + [Candidate(a.id, Target, None)];
      } else if Subscribes(a, input.event) {
        cs := cs + [Candidate(a.id, Subscription, None)];
      }
    }
    assert input.agents[..|input.agents|] == input.agents;
  }

  method BuildCandidates(input: Input) returns (cs: seq<Candidate>)
    ensures cs == Candidates(input)
  {
    var waits := BuildWaitCandidates(input);
    var tier := Filter(waits, (c: Candidate) => c.agent in Known(input.agents));
    var wakes := BuildWakeCandidates(input, set c <- tier :: c.agent);
    cs := Sort(tier, IdLess)
      + Sort(Filter(wakes, (c: Candidate) => c.reason == Target), IdLess)
      + Sort(Filter(wakes, (c: Candidate) => c.reason == Subscription), IdLess);
  }

  /** Routes one event. */
  method RouteEvent(input: Input) returns (routes: seq<Route>)
    ensures routes == Routes(input)
  {
    routes := [];
    if !Routable(input.event) { return; }
    var candidates := BuildCandidates(input);
    CandidatesProper(input);
    routes := RouteCandidates(input, candidates);
  }

  /** The greedy loop over the candidates, two counters running along. */
  method RouteCandidates(input: Input, candidates: seq<Candidate>) returns (routes: seq<Route>)
    requires Proper(input, candidates)
    ensures routes == RoutesOf(input, candidates)
  {
    routes := [];
    var cascadeWakes, threadWakes := input.stats.cascadeWakes, input.stats.threadWakes;
    for i := 0 to |candidates|
      invariant |routes| == i && forall k | 0 <= k < i :: routes[k] == RouteAt(input, candidates, k)
      invariant cascadeWakes == input.stats.cascadeWakes + Spent(input, candidates, i)
      invariant threadWakes == input.stats.threadWakes + Spent(input, candidates, i)
    {
      SpentStep(input, candidates, i);
      var c := candidates[i];
      var ignored := IgnoredFor(input, c);
      var route;
      if ignored.Some? {
        route := RouteOf(c, Ignore, ignored.value);
      } else if Exempt(input, c) {
        cascadeWakes, threadWakes := cascadeWakes + 1, threadWakes + 1;
        route := Granted(c);
      } else if input.event.hop > input.limits.maxHops {
        route := RouteOf(c, Blocked, HopLimit);
      } else if cascadeWakes >= input.limits.maxTurns {
        route := RouteOf(c, Blocked, CascadeLimit);
      } else if OwnCount(input.stats.runsLastHour, c.agent) >= input.limits.maxRunsPerHour {
        route := RouteOf(c, Blocked, RateLimit);
      } else if threadWakes >= MAX_THREAD_WAKES_PER_WINDOW {
        route := RouteOf(c, Blocked, ThreadRateLimit);
      } else if Repeats(input) {
        route := RouteOf(c, Blocked, DuplicatePayload);
      } else if PairLimited(input, c) {
        route := RouteOf(c, Blocked, PairwiseLimit);
      } else {
        cascadeWakes, threadWakes := cascadeWakes + 1, threadWakes + 1;
        route := Granted(c);
      }
      routes := routes + [route];
    }
  }
}
