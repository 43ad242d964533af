/** What one event's routes are, said of the event, the agents and the waits alone. */
module RoutingReasons {
  import opened Wrappers
  import opened CodeUnits
  import opened Sorting
  import opened Events
  import opened Waits
  import opened Routing
  import opened RoutingOrder
  import RoutingRuns

  // ----- The event

  predicate PostEvent(e: Event) {
    && e.data.PostData?
    && e.typ in {PostCreated, PostEdited, PostDeleted, PostRecovered, AgentMentioned, ThreadReply}
  }

  predicate FromGateway(e: Event) { e.gatewaySource && e.trust == SystemTrusted }

  /** A timeout, or the Gateway's word on how an approval ended. */
  predicate EndsAWait(e: Event) { e.typ == WaitTimeout || (e.typ == ApprovalResolved && FromGateway(e)) }

  /** What the Gateway alone emits. */
  predicate GatewayType(t: EventType) {
    t in {RunRequested, RunStarted, RunCompleted, RunFailed, WaitCreated, WaitMatched, WaitTimeout, MessageRequested,
          MessagePosted, ApprovalRequested, ApprovalGranted, ApprovalDenied, EventType.ApprovalResolved, TimerFired,
          ControlPause, ControlResume, ControlKillAll}
  }

  /** The types no event of which is routed. */
  predicate StoredOnly(t: EventType) {
    t in {ControlPause, ControlResume, ControlKillAll, PostEdited, PostDeleted, PostRecovered, GmailNotification}
  }

  lemma EventMeaning(e: Event)
    ensures MattermostPost(e) == (if PostEvent(e) then Some(e.data.post) else None)
    ensures IsReserved(e.typ) <==> GatewayType(e.typ)
    ensures Routable(e) <==> !StoredOnly(e.typ)
  {
  }

  // ----- Waits

  /** Who may answer: anyone when nobody is named, else a named agent, or a named user by a post of their own. */
  predicate MayAnswer(c: Condition, post: Post, trust: Trust) {
    || (c.senderAgents == [] && c.senderUsers == [])
    || (post.sender.Some? && post.sender.value in c.senderAgents)
    || (trust == HumanTrusted && post.user in c.senderUsers)
  }

  predicate PostMeets(w: Wait, post: Post, trust: Trust) {
    && post.sender != Some(w.agent)
    && (w.roots.Some? ==> (if post.rootId.Some? then post.rootId.value else post.postId) in w.roots.value)
    && MayAnswer(w.condition, post, trust)
    && (w.condition.requireTarget.Some? ==> w.condition.requireTarget.value in post.targets)
  }

  /** The event is what the wait is for. */
  predicate Meets(w: Wait, e: Event, now: int) {
    && e.typ == w.condition.eventType && e.correlation == w.condition.correlation
    && (now < w.timeoutAt || (e.typ == ApprovalResolved && FromGateway(e)))
    && (GatewayType(e.typ) ==> FromGateway(e))
    && if PostEvent(e) then PostMeets(w, e.data.post, e.trust)
       else w.condition.senderAgents == [] && w.condition.senderUsers == [] && w.condition.requireTarget.None?
  }

  /** A wait is matched exactly by the events it is for. */
  lemma MatchesExactlyWhen(w: Wait, e: Event, now: int)
    ensures Matches(w, e, now) <==> Meets(w, e, now)
  {
    EventMeaning(e);
  }

  /** The first of `ws` that the event resolves for the agent. */
  function FirstOf(ws: seq<Wait>, a: AgentId, e: Event, now: int): Option<Wait> {
    if ws == [] then None
    else if ws[0].agent == a && Matches(ws[0], e, now) then Some(ws[0]) else FirstOf(ws[1..], a, e, now)
  }

  lemma {:induction false} FirstOfSnoc(ws: seq<Wait>, w: Wait, a: AgentId, e: Event, now: int)
    ensures FirstOf(ws + [w], a, e, now) ==
            if FirstOf(ws, a, e, now).Some? then FirstOf(ws, a, e, now)
            else if w.agent == a && Matches(w, e, now) then Some(w) else None
  {
    if ws != [] {
      FirstOfSnoc(ws[1..], w, a, e, now);
      assert (ws + [w])[1..] == ws[1..] + [w];
    } else {
      assert (ws + [w])[1..] == [];
    }
  }

  lemma {:induction false} FirstMatchesAreFirst(ws: seq<Wait>, e: Event, now: int, w: Wait)
    ensures w in FirstMatches(ws, e, now) <==> FirstOf(ws, w.agent, e, now) == Some(w)
    ensures HasAgent(FirstMatches(ws, e, now), w.agent) <==> FirstOf(ws, w.agent, e, now).Some?
  {
    if ws != [] {
      var n := |ws| - 1;
      var before := FirstMatches(ws[..n], e, now);
      assert ws == ws[..n] + [ws[n]];
      FirstOfSnoc(ws[..n], ws[n], w.agent, e, now);
      FirstMatchesAreFirst(ws[..n], e, now, w);
      FirstMatchesAreFirst(ws[..n], e, now, ws[n]);
      HasAgentSnoc(before, ws[n], w.agent);
    }
  }

  lemma HasAgentSnoc(ws: seq<Wait>, w: Wait, a: AgentId)
    ensures HasAgent(ws + [w], a) <==> HasAgent(ws, a) || w.agent == a
  {
    assert w in ws + [w];
    if HasAgent(ws, a) {
      var v :| v in ws && v.agent == a;
      assert v in ws + [w];
    }
  }

  lemma {:induction false} FirstOfMember(ws: seq<Wait>, a: AgentId, e: Event, now: int)
    ensures FirstOf(ws, a, e, now).Some? ==> FirstOf(ws, a, e, now).value in ws
  {
    if ws != [] { FirstOfMember(ws[1..], a, e, now); }
  }

  /** Sorting a wait in: it comes before those that time out with it. */
  lemma {:induction false} FirstOfInsert(x: Wait, ws: seq<Wait>, a: AgentId, e: Event, now: int)
    requires Sorted(ws, TimeoutLess)
    ensures var f := FirstOf(ws, a, e, now);
            FirstOf(Insert(x, ws, TimeoutLess), a, e, now) ==
            if x.agent == a && Matches(x, e, now) && (f.None? || x.timeoutAt <= f.value.timeoutAt) then Some(x) else f
  {
    FirstOfMember(ws, a, e, now);
    if ws == [] || !TimeoutLess(ws[0], x) {
      assert ([x] + ws)[1..] == ws;
    } else {
      FirstOfInsert(x, ws[1..], a, e, now);
      assert ([ws[0]] + Insert(x, ws[1..], TimeoutLess))[1..] == Insert(x, ws[1..], TimeoutLess);
    }
  }

  /** Wait `j` is the one the event resolves for the agent: of those it is for, the first to time out, and the first
      listed among those. */
  ghost predicate Soonest(ws: seq<Wait>, a: AgentId, e: Event, now: int, j: nat) {
    && j < |ws| && ws[j].agent == a && Meets(ws[j], e, now)
    && (forall k | 0 <= k < |ws| && ws[k].agent == a && Meets(ws[k], e, now) :: ws[j].timeoutAt <= ws[k].timeoutAt)
    && (forall k | 0 <= k < j && ws[k].agent == a && Meets(ws[k], e, now) :: ws[j].timeoutAt < ws[k].timeoutAt)
  }

  ghost predicate NoneMeets(ws: seq<Wait>, a: AgentId, e: Event, now: int) {
    forall k | 0 <= k < |ws| && ws[k].agent == a :: !Meets(ws[k], e, now)
  }

  /** `f` is what the event resolves for the agent among `ws`. */
  ghost predicate IsSoonest(ws: seq<Wait>, a: AgentId, e: Event, now: int, f: Option<Wait>) {
    if f.None? then NoneMeets(ws, a, e, now) else exists j: nat :: Soonest(ws, a, e, now, j) && ws[j] == f.value
  }

  lemma SoonestLater(x: Wait, ws: seq<Wait>, a: AgentId, e: Event, now: int, j: nat)
    requires Soonest(ws, a, e, now, j)
    requires !(x.agent == a && Meets(x, e, now) && x.timeoutAt <= ws[j].timeoutAt)
    ensures Soonest([x] + ws, a, e, now, j + 1)
  {
    var all := [x] + ws;
    assert all[j + 1] == ws[j];
    forall k | 0 <= k < |all| && all[k].agent == a && Meets(all[k], e, now)
      ensures all[j + 1].timeoutAt <= all[k].timeoutAt && (k < j + 1 ==> all[j + 1].timeoutAt < all[k].timeoutAt) {
      if k > 0 { assert all[k] == ws[k - 1]; }
    }
  }

  lemma SoonestHere(x: Wait, ws: seq<Wait>, a: AgentId, e: Event, now: int, f: Option<Wait>)
    requires IsSoonest(ws, a, e, now, f) && x.agent == a && Meets(x, e, now)
    requires f.Some? ==> x.timeoutAt <= f.value.timeoutAt
    ensures Soonest([x] + ws, a, e, now, 0)
  {
    var all := [x] + ws;
    forall k | 0 <= k < |all| && all[k].agent == a && Meets(all[k], e, now)
      ensures all[0].timeoutAt <= all[k].timeoutAt {
      if k > 0 { assert all[k] == ws[k - 1]; }
    }
  }

  lemma NoneMeetsCons(x: Wait, ws: seq<Wait>, a: AgentId, e: Event, now: int)
    requires NoneMeets(ws, a, e, now) && !(x.agent == a && Meets(x, e, now))
    ensures NoneMeets([x] + ws, a, e, now)
  {
    var all := [x] + ws;
    forall k | 0 <= k < |all| && all[k].agent == a ensures !Meets(all[k], e, now) {
      if k > 0 { assert all[k] == ws[k - 1]; }
    }
  }

  lemma SoonestCons(x: Wait, ws: seq<Wait>, a: AgentId, e: Event, now: int, f: Option<Wait>)
    requires IsSoonest(ws, a, e, now, f)
    ensures IsSoonest([x] + ws, a, e, now,
              if x.agent == a && Meets(x, e, now) && (f.None? || x.timeoutAt <= f.value.timeoutAt) then Some(x) else f)
  {
    if x.agent == a && Meets(x, e, now) && (f.None? || x.timeoutAt <= f.value.timeoutAt) {
      SoonestHere(x, ws, a, e, now, f);
    } else if f.Some? {
      var j: nat :| Soonest(ws, a, e, now, j) && ws[j] == f.value;
      SoonestLater(x, ws, a, e, now, j);
      assert ([x] + ws)[j + 1] == f.value;
    } else {
      NoneMeetsCons(x, ws, a, e, now);
    }
  }

  lemma TimeoutSorts(ws: seq<Wait>)
    ensures Sorted(Sort(ws, TimeoutLess), TimeoutLess)
  {
    SortFacts(ws, TimeoutLess);
  }

  lemma SoonestInserted(x: Wait, ws: seq<Wait>, sorted: seq<Wait>, a: AgentId, e: Event, now: int)
    requires Sorted(sorted, TimeoutLess) && IsSoonest(ws, a, e, now, FirstOf(sorted, a, e, now))
    ensures IsSoonest([x] + ws, a, e, now, FirstOf(Insert(x, sorted, TimeoutLess), a, e, now))
  {
    FirstOfInsert(x, sorted, a, e, now);
    MatchesExactlyWhen(x, e, now);
    SoonestCons(x, ws, a, e, now, FirstOf(sorted, a, e, now));
  }

  lemma {:induction false} FirstOfSorted(ws: seq<Wait>, a: AgentId, e: Event, now: int)
    ensures IsSoonest(ws, a, e, now, FirstOf(Sort(ws, TimeoutLess), a, e, now))
  {
    if ws != [] {
      var rest := ws[1..];
      FirstOfSorted(rest, a, e, now);
      TimeoutSorts(rest);
      SoonestInserted(ws[0], rest, Sort(rest, TimeoutLess), a, e, now);
      assert ws == [ws[0]] + rest;
    }
  }

  /** The wait a timeout names: the first with that id, if it is this agent's. */
  ghost predicate TimedOut(ws: seq<Wait>, a: AgentId, e: Event, j: nat) {
    && FromGateway(e) && e.data.TimeoutData? && e.data.agentId == a
    && j < |ws| && ws[j].id == e.data.waitId && ws[j].agent == a
    && forall k | 0 <= k < j :: ws[k].id != e.data.waitId
  }

  /** The event resolves wait `j` for the agent. */
  ghost predicate Resolves(input: Input, a: AgentId, j: nat) {
    if input.event.typ == WaitTimeout then TimedOut(input.waits, a, input.event, j)
    else Soonest(input.waits, a, input.event, input.now, j)
  }

  lemma {:induction false} WaitOfFirst(ws: seq<Wait>, id: Id, j: nat)
    requires j < |ws| && ws[j].id == id && forall k | 0 <= k < j :: ws[k].id != id
    ensures WaitOf(ws, id) == Some(ws[j])
  {
    if j > 0 { WaitOfFirst(ws[1..], id, j - 1); }
  }

  lemma {:induction false} WaitOfPlace(ws: seq<Wait>, id: Id)
    ensures WaitOf(ws, id).Some? ==>
              exists j: nat | j < |ws| :: ws[j] == WaitOf(ws, id).value && ws[j].id == id
                                          && forall k | 0 <= k < j :: ws[k].id != id
  {
    if ws != [] {
      if ws[0].id == id {
        assert ws[0] == WaitOf(ws, id).value;
      } else if WaitOf(ws, id).Some? {
        WaitOfPlace(ws[1..], id);
        var j: nat :| j < |ws[1..]| && ws[1..][j] == WaitOf(ws[1..], id).value && ws[1..][j].id == id
                      && forall k | 0 <= k < j :: ws[1..][k].id != id;
        assert forall k | 1 <= k < |ws| :: ws[k] == ws[1..][k - 1];
        assert ws[j + 1] == WaitOf(ws, id).value;
      }
    }
  }

  lemma TimeoutCandidate(input: Input, a: AgentId, c: Candidate)
    requires input.event.typ == WaitTimeout
    ensures c in WaitCandidates(input) && c.agent == a <==>
              exists j: nat :: Resolves(input, a, j) && c == Candidate(a, WaitTimeoutR, Some(input.waits[j].id))
  {
    var e, ws := input.event, input.waits;
    if e.data.TimeoutData? {
      if c in WaitCandidates(input) && c.agent == a {
        WaitOfPlace(ws, e.data.waitId);
        var j: nat :| j < |ws| && ws[j] == WaitOf(ws, e.data.waitId).value && ws[j].id == e.data.waitId
                      && forall k | 0 <= k < j :: ws[k].id != e.data.waitId;
        assert Resolves(input, a, j);
      }
      forall j: nat | Resolves(input, a, j) ensures WaitOf(ws, e.data.waitId) == Some(ws[j]) {
        WaitOfFirst(ws, e.data.waitId, j);
      }
    }
  }

  lemma SoonestIsOne(ws: seq<Wait>, a: AgentId, e: Event, now: int, i: nat, j: nat)
    requires Soonest(ws, a, e, now, i) && Soonest(ws, a, e, now, j)
    ensures i == j
  {
  }

  lemma MatchedCandidate(input: Input, a: AgentId, c: Candidate)
    requires input.event.typ != WaitTimeout
    ensures c in WaitCandidates(input) && c.agent == a <==>
              exists j: nat :: Resolves(input, a, j) && c == Candidate(a, WaitMatchedR, Some(input.waits[j].id))
  {
    var e, ws, now := input.event, input.waits, input.now;
    var sorted := Sort(ws, TimeoutLess);
    var chosen := FirstMatches(sorted, e, now);
    FirstOfSorted(ws, a, e, now);
    var f := FirstOf(sorted, a, e, now);
    if c in WaitCandidates(input) && c.agent == a {
      var k :| 0 <= k < |chosen| && c == Candidate(chosen[k].agent, WaitMatchedR, Some(chosen[k].id));
      FirstMatchesAreFirst(sorted, e, now, chosen[k]);
    }
    forall j: nat | Resolves(input, a, j) && c == Candidate(a, WaitMatchedR, Some(ws[j].id))
      ensures c in WaitCandidates(input)
    {
      var i: nat :| Soonest(ws, a, e, now, i) && ws[i] == f.value;
      SoonestIsOne(ws, a, e, now, i, j);
      FirstMatchesAreFirst(sorted, e, now, f.value);
      var k :| 0 <= k < |chosen| && chosen[k] == f.value;
      assert WaitCandidates(input)[k] == c;
    }
  }

  // ----- Who is reached, and how

  ghost predicate Resolved(input: Input, a: AgentId) { exists j: nat :: Resolves(input, a, j) }

  predicate Targeted(e: Event, a: AgentId) { PostEvent(e) && a in e.data.post.targets }

  /** A rule without a target for the event's type; posts and what the Gateway emits wake nobody so. */
  predicate Subscribed(e: Event, a: Agent) {
    && e.typ !in {PostCreated, PostEdited, PostDeleted, PostRecovered, AgentMentioned, ThreadReply}
    && !GatewayType(e.typ)
    && exists r <- a.rules :: r.target.None? && r.eventType == e.typ
  }

  /** How the event reaches an agent: through its wait, else as a target, else by subscription. */
  ghost predicate ReachedBy(input: Input, a: Agent, reason: Reason, waitId: Option<Id>) {
    if Resolved(input, a.id) then
      && (exists j: nat :: Resolves(input, a.id, j) && waitId == Some(input.waits[j].id))
      && reason == (if input.event.typ == WaitTimeout then WaitTimeoutR else WaitMatchedR)
    else
      waitId == None && if Targeted(input.event, a.id) then reason == Target
                        else reason == Subscription && Subscribed(input.event, a)
  }

  /** The candidate is for a wait that the event resolves. */
  ghost predicate ForWait(input: Input, c: Candidate) {
    && c.reason == (if input.event.typ == WaitTimeout then WaitTimeoutR else WaitMatchedR)
    && exists j: nat :: Resolves(input, c.agent, j) && c.waitId == Some(input.waits[j].id)
  }

  lemma WaitTierMeaning(input: Input, c: Candidate)
    ensures c in WaitTier(input) <==> c.agent in Known(input.agents) && ForWait(input, c)
  {
    FilterMembers(WaitCandidates(input), (c: Candidate) => c.agent in Known(input.agents), c);
    if input.event.typ == WaitTimeout {
      TimeoutCandidate(input, c.agent, c);
    } else {
      MatchedCandidate(input, c.agent, c);
    }
  }

  lemma TakenMeaning(input: Input, a: Agent, taken: set<AgentId>)
    requires a in input.agents && taken == set c <- WaitTier(input) :: c.agent
    ensures a.id in taken <==> Resolved(input, a.id)
  {
    KnownMeaning(input.agents, a.id);
    if j: nat :| Resolves(input, a.id, j) {
      var c := Candidate(a.id, if input.event.typ == WaitTimeout then WaitTimeoutR else WaitMatchedR,
                         Some(input.waits[j].id));
      WaitTierMeaning(input, c);
    }
    forall c <- WaitTier(input) | c.agent == a.id ensures Resolved(input, a.id) { WaitTierMeaning(input, c); }
  }

  ghost predicate ByWake(e: Event, a: Agent, c: Candidate) {
    c.waitId == None && if Targeted(e, a.id) then c.reason == Target else c.reason == Subscription && Subscribed(e, a)
  }

  lemma WakeMeaning(e: Event, a: Agent, c: Candidate)
    requires c.agent == a.id
    ensures Wake(a, e) == Some(c) <==> ByWake(e, a, c)
  {
    EventMeaning(e);
  }

  lemma WakesMeaning(input: Input, a: Agent, c: Candidate)
    requires DistinctAgents(input.agents) && a in input.agents && c.agent == a.id
    ensures c in Wakes(input) <==> !Resolved(input, a.id) && ByWake(input.event, a, c)
  {
    var taken := set c <- WaitTier(input) :: c.agent;
    TakenMeaning(input, a, taken);
    WakeMembers(input.agents, input.event, taken, c);
    WakeMeaning(input.event, a, c);
    forall b <- input.agents | Wake(b, input.event) == Some(c) ensures b == a {
      WakeNames(b, input.event);
      UniqueById(input.agents, a, b);
    }
  }

  /** An agent is a candidate exactly when the event reaches it, and then in that one way. */
  lemma CandidateMeaning(input: Input, a: Agent, c: Candidate)
    requires DistinctAgents(input.agents) && a in input.agents && c.agent == a.id
    ensures c in Candidates(input) <==> ReachedBy(input, a, c.reason, c.waitId)
  {
    TierMembers(input, c);
    WaitTierMeaning(input, c);
    KnownMeaning(input.agents, a.id);
    WakesMeaning(input, a, c);
  }

  // ----- In which order

  function Rank(c: Candidate): nat { if c.waitId.Some? then 10 else if c.reason == Target then 5 else 0 }

  lemma AsCandidatesDistinct(ws: seq<Wait>)
    requires OnePerAgent(ws)
    ensures DistinctIds(AsCandidates(ws))
  {
  }

  lemma WaitTierDistinct(input: Input)
    ensures DistinctIds(WaitTier(input))
  {
    if !input.event.typ.WaitTimeout? {
      var ws := Sort(input.waits, TimeoutLess);
      FirstMatchesDistinct(ws, input.event, input.now);
      AsCandidatesDistinct(FirstMatches(ws, input.event, input.now));
    }
    FilterDistinct(WaitCandidates(input), (c: Candidate) => c.agent in Known(input.agents));
  }

  /** A list of candidates of one rank, by agent id. */
  ghost predicate Tier(s: seq<Candidate>, rank: nat) {
    StrictlySorted(s, IdLess) && forall c <- s :: Rank(c) == rank
  }

  lemma WaitsAreATier(input: Input)
    ensures Tier(Sort(WaitTier(input), IdLess), 10)
  {
    WaitTierDistinct(input);
    SortStrict(WaitTier(input));
    forall c <- Sort(WaitTier(input), IdLess) ensures Rank(c) == 10 {
      SortMembers(WaitTier(input), IdLess, c);
      WaitTierMeaning(input, c);
    }
  }

  lemma WakeHasNoWait(input: Input, c: Candidate)
    requires c in Wakes(input)
    ensures c.waitId == None
  {
    WakeMembers(input.agents, input.event, set c <- WaitTier(input) :: c.agent, c);
  }

  lemma WakesAreATier(input: Input, p: Candidate -> bool, rank: nat)
    requires DistinctAgents(input.agents)
    requires forall c <- Wakes(input) | p(c) && c.waitId == None :: Rank(c) == rank
    ensures Tier(Sort(Filter(Wakes(input), p), IdLess), rank)
  {
    var s := Filter(Wakes(input), p);
    WakesDistinct(input.agents, input.event, set c <- WaitTier(input) :: c.agent);
    FilterDistinct(Wakes(input), p);
    SortStrict(s);
    forall c <- Sort(s, IdLess) ensures Rank(c) == rank {
      SortMembers(s, IdLess, c);
      FilterMembers(Wakes(input), p, c);
      WakeHasNoWait(input, c);
    }
  }

  ghost predicate Before(c: Candidate, d: Candidate) {
    Rank(c) > Rank(d) || (Rank(c) == Rank(d) && Less(c.agent, d.agent))
  }

  lemma TiersInOrder(a: seq<Candidate>, b: seq<Candidate>, c: seq<Candidate>, i: nat, j: nat)
    requires Tier(a, 10) && Tier(b, 5) && Tier(c, 0) && i < j < |a + b + c|
    ensures Before((a + b + c)[i], (a + b + c)[j])
  {
    var s := a + b + c;
    assert i < |a| ==> s[i] == a[i];
    assert |a| <= i < |a| + |b| ==> s[i] == b[i - |a|];
    assert |a| + |b| <= i ==> s[i] == c[i - |a| - |b|];
    assert j < |a| ==> s[j] == a[j];
    assert |a| <= j < |a| + |b| ==> s[j] == b[j - |a|];
    assert |a| + |b| <= j ==> s[j] == c[j - |a| - |b|];
  }

  /** Waits, then targets, then subscriptions, each by agent id, and no agent twice. */
  lemma CandidatesInOrder(input: Input, i: nat, j: nat)
    requires DistinctAgents(input.agents) && i < j < |Candidates(input)|
    ensures var cs := Candidates(input); Before(cs[i], cs[j]) && cs[i].agent != cs[j].agent
  {
    var cs := Candidates(input);
    WaitsAreATier(input);
    WakesAreATier(input, (c: Candidate) => c.reason == Target, 5);
    WakesAreATier(input, (c: Candidate) => c.reason == Subscription, 0);
    TiersInOrder(Sort(WaitTier(input), IdLess),
                 Sort(Filter(Wakes(input), (c: Candidate) => c.reason == Target), IdLess),
                 Sort(Filter(Wakes(input), (c: Candidate) => c.reason == Subscription), IdLess), i, j);
    if cs[i].agent == cs[j].agent { SameRank(input, cs[i], cs[j]); LessTotal(cs[i].agent, cs[j].agent); }
  }

  lemma SameRank(input: Input, c: Candidate, d: Candidate)
    requires DistinctAgents(input.agents) && c in Candidates(input) && d in Candidates(input) && c.agent == d.agent
    ensures Rank(c) == Rank(d)
  {
    CandidateKnown(input, c);
    KnownMeaning(input.agents, c.agent);
    CandidateMeaning(input, Known(input.agents)[c.agent], c);
    CandidateMeaning(input, Known(input.agents)[c.agent], d);
  }

  // ----- With which decision and reason

  const OBSTACLES := [ChannelNotAllowed, SelfPost, AgentDisabled,
                      HopLimit, CascadeLimit, RateLimit, ThreadRateLimit, DuplicatePayload, PairwiseLimit]

  /** What stands in an agent's way when `spent` routes before it were granted. */
  predicate Stands(input: Input, a: Agent, spent: nat, obstacle: Reason) {
    var e, limits, stats := input.event, input.limits, input.stats;
    var byAgent := PostEvent(e) && e.data.post.sender.Some?;
    match obstacle
    case ChannelNotAllowed => PostEvent(e) && var channel := e.data.post.channel;
      channel !in a.channels || (channel in a.floors && e.time <= a.floors[channel])
    case SelfPost => PostEvent(e) && e.data.post.sender == Some(a.id)
    case AgentDisabled => a.disabled
    case HopLimit => !EndsAWait(e) && e.hop > limits.maxHops
    case CascadeLimit => !EndsAWait(e) && stats.cascadeWakes + spent >= limits.maxTurns
    case RateLimit => !EndsAWait(e) &&
      if a.id in stats.runsLastHour then stats.runsLastHour[a.id] >= limits.maxRunsPerHour
      else limits.maxRunsPerHour == 0
    case ThreadRateLimit => !EndsAWait(e) && stats.threadWakes + spent >= 30
    case DuplicatePayload => !EndsAWait(e) && byAgent && stats.duplicates > 0
    case PairwiseLimit => !EndsAWait(e) && byAgent && a.id in stats.pairwise && stats.pairwise[a.id] >= 12
    case _ => false
  }

  predicate FirstStanding(input: Input, a: Agent, spent: nat, k: nat) {
    && k < |OBSTACLES| && Stands(input, a, spent, OBSTACLES[k])
    && forall j | 0 <= j < k :: !Stands(input, a, spent, OBSTACLES[j])
  }

  /** Ignored for the first three obstacles, blocked for the others. */
  predicate Hindered(input: Input, a: Agent, r: Route, spent: nat, k: nat) {
    FirstStanding(input, a, spent, k) && r.reason == OBSTACLES[k] && r.decision == if k < 3 then Ignore else Blocked
  }

  predicate Free(input: Input, a: Agent, spent: nat) {
    forall k | 0 <= k < |OBSTACLES| :: !Stands(input, a, spent, OBSTACLES[k])
  }

  /** The decision and its reason: the first obstacle that stands; without one the agent is woken for what reached
      it. */
  ghost predicate Reasoned(input: Input, a: Agent, r: Route, spent: nat) {
    if Free(input, a, spent) then
      && ReachedBy(input, a, r.reason, r.waitId)
      && r.decision == if r.waitId.Some? then WaitMatch else WakeUp
    else exists k: nat :: Hindered(input, a, r, spent, k)
  }

  /** What the loop tests, in the event's and the agent's terms. */
  lemma IgnoredMeaning(input: Input, a: Agent, c: Candidate, spent: nat)
    requires c.agent in Known(input.agents) && Known(input.agents)[c.agent] == a
    ensures IgnoredFor(input, c) == if Stands(input, a, spent, ChannelNotAllowed) then Some(ChannelNotAllowed)
                                    else if Stands(input, a, spent, SelfPost) then Some(SelfPost)
                                    else if Stands(input, a, spent, AgentDisabled) then Some(AgentDisabled) else None
  {
    EventMeaning(input.event);
  }

  lemma GuardsMeaning(input: Input, a: Agent, c: Candidate, spent: nat)
    requires a.id == c.agent && !EndsAWait(input.event)
    ensures Stands(input, a, spent, HopLimit) <==> input.event.hop > input.limits.maxHops
    ensures Stands(input, a, spent, CascadeLimit) <==> input.stats.cascadeWakes + spent >= input.limits.maxTurns
    ensures Stands(input, a, spent, RateLimit) <==>
              OwnCount(input.stats.runsLastHour, c.agent) >= input.limits.maxRunsPerHour
    ensures Stands(input, a, spent, ThreadRateLimit) <==> input.stats.threadWakes + spent >= MAX_THREAD_WAKES_PER_WINDOW
    ensures Stands(input, a, spent, DuplicatePayload) <==> Repeats(input)
    ensures Stands(input, a, spent, PairwiseLimit) <==> PairLimited(input, c)
  {
    EventMeaning(input.event);
  }

  lemma NothingStands(input: Input, a: Agent, spent: nat)
    requires !Stands(input, a, spent, ChannelNotAllowed) && !Stands(input, a, spent, SelfPost)
    requires !Stands(input, a, spent, AgentDisabled) && !Stands(input, a, spent, HopLimit)
    requires !Stands(input, a, spent, CascadeLimit) && !Stands(input, a, spent, RateLimit)
    requires !Stands(input, a, spent, ThreadRateLimit) && !Stands(input, a, spent, DuplicatePayload)
    requires !Stands(input, a, spent, PairwiseLimit)
    ensures Free(input, a, spent)
  {
  }

  lemma IgnoredReasons(input: Input, a: Agent, c: Candidate, r: Route, spent: nat)
    requires c.agent in Known(input.agents) && Known(input.agents)[c.agent] == a && IgnoredFor(input, c).Some?
    requires r == RouteOf(c, Ignore, IgnoredFor(input, c).value)
    ensures Reasoned(input, a, r, spent)
  {
    IgnoredMeaning(input, a, c, spent);
    var k := if r.reason == ChannelNotAllowed then 0 else if r.reason == SelfPost then 1 else 2;
    assert Stands(input, a, spent, OBSTACLES[k]);
    assert Hindered(input, a, r, spent, k);
  }

  lemma Hindrance(input: Input, a: Agent, r: Route, spent: nat, k: nat)
    requires Hindered(input, a, r, spent, k)
    ensures Reasoned(input, a, r, spent)
  {
    assert Stands(input, a, spent, OBSTACLES[k]);
  }

  lemma BlockedReasons(input: Input, a: Agent, c: Candidate, r: Route, spent: nat, k: nat)
    requires c.agent in Known(input.agents) && Known(input.agents)[c.agent] == a && IgnoredFor(input, c).None?
    requires 3 <= k < |OBSTACLES| && Stands(input, a, spent, OBSTACLES[k]) && r == RouteOf(c, Blocked, OBSTACLES[k])
    requires forall j | 3 <= j < k :: !Stands(input, a, spent, OBSTACLES[j])
    ensures Reasoned(input, a, r, spent)
  {
    IgnoredMeaning(input, a, c, spent);
    assert OBSTACLES[0] == ChannelNotAllowed && OBSTACLES[1] == SelfPost && OBSTACLES[2] == AgentDisabled;
    Hindrance(input, a, r, spent, k);
  }

  /** Each guard that stops a candidate stands first among the guards. */
  lemma GuardStands(input: Input, a: Agent, c: Candidate, spent: nat, r: Route, k: nat)
    requires c.agent in Known(input.agents) && a.id == c.agent && !EndsAWait(input.event) && !Exempt(input, c)
    requires IgnoredFor(input, c).None? && r.decision == Blocked && 3 <= k < |OBSTACLES| && r.reason == OBSTACLES[k]
    requires r == Decide(input, c, input.stats.cascadeWakes + spent, input.stats.threadWakes + spent)
    ensures Stands(input, a, spent, OBSTACLES[k])
    ensures forall j | 3 <= j < k :: !Stands(input, a, spent, OBSTACLES[j])
  {
    GuardsMeaning(input, a, c, spent);
    assert OBSTACLES[3] == HopLimit && OBSTACLES[4] == CascadeLimit && OBSTACLES[5] == RateLimit;
    assert OBSTACLES[6] == ThreadRateLimit && OBSTACLES[7] == DuplicatePayload && OBSTACLES[8] == PairwiseLimit;
  }

  lemma BlockedHasGuard(input: Input, c: Candidate, cascade: nat, thread: nat)
    requires c.agent in Known(input.agents) && Decide(input, c, cascade, thread).decision == Blocked
    ensures IgnoredFor(input, c).None?
    ensures exists k: nat ::
              3 <= k < |OBSTACLES| && Decide(input, c, cascade, thread) == RouteOf(c, Blocked, OBSTACLES[k])
  {
    var r := Decide(input, c, cascade, thread);
    assert r == RouteOf(c, Blocked, r.reason);
    assert r.reason in {HopLimit, CascadeLimit, RateLimit, ThreadRateLimit, DuplicatePayload, PairwiseLimit};
    assert OBSTACLES[3] == HopLimit && OBSTACLES[4] == CascadeLimit && OBSTACLES[5] == RateLimit;
    assert OBSTACLES[6] == ThreadRateLimit && OBSTACLES[7] == DuplicatePayload && OBSTACLES[8] == PairwiseLimit;
  }

  lemma GrantReasons(input: Input, a: Agent, c: Candidate, spent: nat, r: Route)
    requires c.agent in Known(input.agents) && Known(input.agents)[c.agent] == a && a.id == c.agent
    requires Exempt(input, c) <==> EndsAWait(input.event)
    requires ReachedBy(input, a, c.reason, c.waitId) && IsGrant(r)
    requires r == Decide(input, c, input.stats.cascadeWakes + spent, input.stats.threadWakes + spent)
    ensures Reasoned(input, a, r, spent)
  {
    IgnoredMeaning(input, a, c, spent);
    if !EndsAWait(input.event) { GuardsMeaning(input, a, c, spent); }
    NothingStands(input, a, spent);
  }

  lemma DecideReasons(input: Input, a: Agent, c: Candidate, spent: nat, r: Route)
    requires c.agent in Known(input.agents) && Known(input.agents)[c.agent] == a && a.id == c.agent
    requires Exempt(input, c) <==> EndsAWait(input.event)
    requires ReachedBy(input, a, c.reason, c.waitId)
    requires r == Decide(input, c, input.stats.cascadeWakes + spent, input.stats.threadWakes + spent)
    ensures Reasoned(input, a, r, spent)
  {
    if r.decision == Ignore {
      IgnoredReasons(input, a, c, r, spent);
    } else if r.decision == Blocked {
      BlockedHasGuard(input, c, input.stats.cascadeWakes + spent, input.stats.threadWakes + spent);
      var k: nat :| 3 <= k < |OBSTACLES| && r == RouteOf(c, Blocked, OBSTACLES[k]);
      GuardStands(input, a, c, spent, r, k);
      BlockedReasons(input, a, c, r, spent, k);
    } else {
      GrantReasons(input, a, c, spent, r);
    }
  }

  // ----- Together

  ghost predicate Reached(input: Input, a: Agent) {
    Resolved(input, a.id) || Targeted(input.event, a.id) || Subscribed(input.event, a)
  }

  /** A route of an agent, given how many before it were granted. */
  ghost predicate Right(input: Input, a: Agent, r: Route, spent: nat) {
    && r.agent == a.id && Reached(input, a) && Reasoned(input, a, r, spent)
    && r.priority == (if Resolved(input, a.id) then 10 else if Targeted(input.event, a.id) then 5 else 0)
    && if Resolved(input, a.id) then exists j: nat :: Resolves(input, a.id, j) && r.waitId == Some(input.waits[j].id)
       else r.waitId == None
  }

  lemma RoutesLength(input: Input)
    ensures |Routes(input)| == if Routable(input.event) then |Candidates(input)| else 0
  {
    CandidatesProper(input);
  }

  /** The candidate's decision once `spent` routes were granted. */
  ghost predicate DecidedAt(input: Input, c: Candidate, r: Route, spent: nat) {
    && c.agent in Known(input.agents)
    && r == Decide(input, c, input.stats.cascadeWakes + spent, input.stats.threadWakes + spent)
  }

  lemma DecidedAfterGrants(input: Input, cs: seq<Candidate>, rs: seq<Route>, i: nat)
    requires Proper(input, cs) && rs == RoutesOf(input, cs) && i < |cs|
    ensures DecidedAt(input, cs[i], rs[i], RoutingRuns.CountGrants(rs[..i]))
  {
    RoutingRuns.CountedGrants(input, cs, i);
    assert rs[i] == RouteAt(input, cs, i);
  }

  lemma RoutesOfCandidates(input: Input)
    requires Routable(input.event)
    ensures Proper(input, Candidates(input)) && Routes(input) == RoutesOf(input, Candidates(input))
  {
    CandidatesProper(input);
  }

  /** The route of candidate `i` is its decision after the grants before it. */
  lemma RouteDecided(input: Input, cs: seq<Candidate>, rs: seq<Route>, i: nat)
    requires Routable(input.event) && cs == Candidates(input) && rs == Routes(input) && i < |cs| && i < |rs|
    ensures DecidedAt(input, cs[i], rs[i], RoutingRuns.CountGrants(rs[..i]))
  {
    RoutesOfCandidates(input);
    DecidedAfterGrants(input, cs, rs, i);
  }

  lemma DecidedKeeps(input: Input, c: Candidate, r: Route, spent: nat)
    requires DecidedAt(input, c, r, spent)
    ensures r.agent == c.agent && r.waitId == c.waitId && r.priority == Rank(c)
  {
  }

  lemma DecidedRight(input: Input, a: Agent, c: Candidate, spent: nat, r: Route)
    requires DistinctAgents(input.agents) && c in Candidates(input) && a in input.agents
    requires DecidedAt(input, c, r, spent) && Known(input.agents)[c.agent] == a && a.id == c.agent
    ensures Right(input, a, r, spent)
  {
    CandidateMeaning(input, a, c);
    ExemptByEvent(input, c);
    DecideReasons(input, a, c, spent, r);
    DecidedKeeps(input, c, r, spent);
  }

  lemma RouteIsRight(input: Input, cs: seq<Candidate>, rs: seq<Route>, i: nat)
    requires DistinctAgents(input.agents) && !StoredOnly(input.event.typ) && i < |rs|
    requires cs == Candidates(input) && rs == Routes(input)
    ensures exists a <- input.agents :: Right(input, a, rs[i], RoutingRuns.CountGrants(rs[..i]))
  {
    EventMeaning(input.event);
    RoutesLength(input);
    RouteDecided(input, cs, rs, i);
    KnownMeaning(input.agents, cs[i].agent);
    var a := Known(input.agents)[cs[i].agent];
    DecidedRight(input, a, cs[i], RoutingRuns.CountGrants(rs[..i]), rs[i]);
  }

  lemma ReachedIsCandidate(input: Input, a: Agent)
    requires DistinctAgents(input.agents) && a in input.agents && Reached(input, a)
    ensures exists c <- Candidates(input) :: c.agent == a.id
  {
    if j: nat :| Resolves(input, a.id, j) {
      CandidateMeaning(input, a, Candidate(a.id, if input.event.typ == WaitTimeout then WaitTimeoutR else WaitMatchedR,
                                           Some(input.waits[j].id)));
    } else {
      CandidateMeaning(input, a, Candidate(a.id, if Targeted(input.event, a.id) then Target else Subscription, None));
    }
  }

  lemma RouteKeepsCandidate(input: Input, i: nat)
    requires i < |Routes(input)|
    ensures Routable(input.event) && i < |Candidates(input)|
    ensures var r, c := Routes(input)[i], Candidates(input)[i]; r.agent == c.agent && r.priority == Rank(c)
  {
    RoutesLength(input);
    var cs, rs := Candidates(input), Routes(input);
    RouteDecided(input, cs, rs, i);
    DecidedKeeps(input, cs[i], rs[i], RoutingRuns.CountGrants(rs[..i]));
  }

  lemma ReachedIsRouted(input: Input, a: Agent)
    requires DistinctAgents(input.agents) && !StoredOnly(input.event.typ) && a in input.agents && Reached(input, a)
    ensures exists r <- Routes(input) :: r.agent == a.id
  {
    EventMeaning(input.event);
    ReachedIsCandidate(input, a);
    RoutesLength(input);
    var cs := Candidates(input);
    var i :| 0 <= i < |cs| && cs[i].agent == a.id;
    RouteKeepsCandidate(input, i);
  }

  ghost predicate RoutedBefore(r: Route, q: Route) {
    r.agent != q.agent && (r.priority > q.priority || (r.priority == q.priority && Ascends(r.agent, q.agent)))
  }

  lemma RoutesInOrder(input: Input, i: nat, j: nat)
    requires DistinctAgents(input.agents) && i < j < |Routes(input)|
    ensures RoutedBefore(Routes(input)[i], Routes(input)[j])
  {
    RouteKeepsCandidate(input, i);
    RouteKeepsCandidate(input, j);
    CandidatesInOrder(input, i, j);
    LessMeaning(Candidates(input)[i].agent, Candidates(input)[j].agent);
  }

  /** Everything one event's routes are: nothing for a control or record-only event; else one route for each agent that
      the event reaches, waits first, then targets, then subscriptions, each by agent id; each with the priority of its
      kind, the wait it resolves, and the first reason that stands in its way. */
  lemma RoutesMeaning(input: Input)
    requires DistinctAgents(input.agents)
    ensures StoredOnly(input.event.typ) ==> Routes(input) == []
    ensures !StoredOnly(input.event.typ) ==>
              && (forall a <- input.agents :: Reached(input, a) <==> exists r <- Routes(input) :: r.agent == a.id)
              && (forall i | 0 <= i < |Routes(input)| :: exists a <- input.agents ::
                    Right(input, a, Routes(input)[i], RoutingRuns.CountGrants(Routes(input)[..i])))
              && (forall i, j | 0 <= i < j < |Routes(input)| :: RoutedBefore(Routes(input)[i], Routes(input)[j]))
  {
    EventMeaning(input.event);
    var rs := Routes(input);
    if !StoredOnly(input.event.typ) {
      forall i | 0 <= i < |rs|
        ensures exists a <- input.agents :: Right(input, a, rs[i], RoutingRuns.CountGrants(rs[..i])) {
        RouteIsRight(input, Candidates(input), rs, i);
      }
      forall a <- input.agents ensures Reached(input, a) <==> exists r <- rs :: r.agent == a.id {
        if Reached(input, a) { ReachedIsRouted(input, a); }
        forall i | 0 <= i < |rs| && rs[i].agent == a.id ensures Reached(input, a) {
          var b :| b in input.agents && Right(input, b, rs[i], RoutingRuns.CountGrants(rs[..i]));
          UniqueById(input.agents, a, b);
        }
      }
      forall i, j | 0 <= i < j < |rs| ensures RoutedBefore(rs[i], rs[j]) { RoutesInOrder(input, i, j); }
    }
  }
}
