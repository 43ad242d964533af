/** Routing does not depend on the order agents are listed in. */
module RoutingOrder {
  import opened Wrappers
  import opened CodeUnits
  import opened Sorting
  import opened Events
  import opened Waits
  import opened Routing

  ghost predicate DistinctAgents(agents: seq<Agent>) {
    forall i, j | 0 <= i < j < |agents| :: agents[i].id != agents[j].id
  }

  ghost predicate SameAgents(a: seq<Agent>, b: seq<Agent>) {
    DistinctAgents(a) && DistinctAgents(b) && forall x :: x in a <==> x in b
  }

  ghost predicate DistinctIds(cs: seq<Candidate>) {
    forall i, j | 0 <= i < j < |cs| :: cs[i].agent != cs[j].agent
  }

  lemma UniqueById(agents: seq<Agent>, x: Agent, y: Agent)
    requires DistinctAgents(agents) && x in agents && y in agents && x.id == y.id
    ensures x == y
  {
  }

  lemma SameKnown(a: seq<Agent>, b: seq<Agent>)
    requires SameAgents(a, b)
    ensures Known(a) == Known(b)
  {
    forall id: AgentId
      ensures id in Known(a) <==> id in Known(b)
      ensures id in Known(a) && id in Known(b) ==> Known(a)[id] == Known(b)[id]
    {
      KnownMeaning(a, id);
      KnownMeaning(b, id);
      if id in Known(a) && id in Known(b) { UniqueById(a, Known(a)[id], Known(b)[id]); }
    }
  }

  // ----- Sorting distinct candidates

  lemma {:induction false} InsertStrict(x: Candidate, s: seq<Candidate>)
    requires StrictlySorted(s, IdLess) && forall y <- s :: y.agent != x.agent
    ensures StrictlySorted(Insert(x, s, IdLess), IdLess)
  {
    if s == [] {
    } else if IdLess(s[0], x) {
      InsertStrict(x, s[1..]);
      var r := Insert(x, s[1..], IdLess);
      InsertPermutes(x, s[1..], IdLess);
      forall k | 0 <= k < |r| ensures IdLess(s[0], r[k]) {
        assert r[k] in multiset(r);
        assert r[k] == x || r[k] in s[1..];
      }
    } else {
      forall k | 0 <= k < |s| ensures IdLess(x, s[k]) {
        LessTotal(x.agent, s[0].agent);
        assert s[0] in s;
        if k > 0 { LessTransitive(x.agent, s[0].agent, s[k].agent); }
      }
    }
  }

  lemma {:induction false} SortStrict(s: seq<Candidate>)
    requires DistinctIds(s)
    ensures StrictlySorted(Sort(s, IdLess), IdLess)
  {
    if s != [] {
      SortStrict(s[1..]);
      forall y <- Sort(s[1..], IdLess) ensures y.agent != s[0].agent { SortMembers(s[1..], IdLess, y); }
      InsertStrict(s[0], Sort(s[1..], IdLess));
    }
  }

  lemma SortByContent(a: seq<Candidate>, b: seq<Candidate>)
    requires DistinctIds(a) && DistinctIds(b) && forall x :: x in a <==> x in b
    ensures Sort(a, IdLess) == Sort(b, IdLess)
  {
    SortStrict(a);
    SortStrict(b);
    forall x ensures x in Sort(a, IdLess) <==> x in Sort(b, IdLess) {
      SortMembers(a, IdLess, x);
      SortMembers(b, IdLess, x);
    }
    forall x: Candidate, y: Candidate ensures !IdLess(x, x) && !(IdLess(x, y) && IdLess(y, x)) {
      LessTotal(x.agent, y.agent);
      LessTotal(x.agent, x.agent);
    }
    StrictUnique(Sort(a, IdLess), Sort(b, IdLess), IdLess);
  }

  // ----- The candidates

  lemma WakeNames(a: Agent, e: Event)
    ensures Wake(a, e).Some? ==> Wake(a, e).value.agent == a.id
  {
  }

  lemma {:induction false} WakesDistinct(agents: seq<Agent>, e: Event, taken: set<AgentId>)
    requires DistinctAgents(agents)
    ensures DistinctIds(WakeCandidates(agents, e, taken))
  {
    if agents != [] {
      var n := |agents| - 1;
      WakesDistinct(agents[..n], e, taken);
      var before := WakeCandidates(agents[..n], e, taken);
      forall k | 0 <= k < |before| ensures before[k].agent != agents[n].id {
        WakeMembers(agents[..n], e, taken, before[k]);
        var a :| a in agents[..n] && a.id !in taken && Wake(a, e) == Some(before[k]);
        WakeNames(a, e);
      }
    }
  }

  lemma {:induction false} FilterDistinct(s: seq<Candidate>, p: Candidate -> bool)
    requires DistinctIds(s)
    ensures DistinctIds(Filter(s, p))
  {
    if s != [] {
      var n := |s| - 1;
      FilterDistinct(s[..n], p);
      var before := Filter(s[..n], p);
      forall k | 0 <= k < |before| ensures before[k].agent != s[n].agent {
        FilterMembers(s[..n], p, before[k]);
      }
    }
  }

  lemma {:induction false} FilterSame<T>(s: seq<T>, p: T -> bool, q: T -> bool)
    requires forall x <- s :: p(x) == q(x)
    ensures Filter(s, p) == Filter(s, q)
  {
    if s != [] { FilterSame(s[..|s| - 1], p, q); }
  }

  lemma SameTier(wakes: seq<Candidate>, wakes': seq<Candidate>, p: Candidate -> bool)
    requires DistinctIds(wakes) && DistinctIds(wakes') && forall c :: c in wakes <==> c in wakes'
    ensures Sort(Filter(wakes, p), IdLess) == Sort(Filter(wakes', p), IdLess)
  {
    FilterDistinct(wakes, p);
    FilterDistinct(wakes', p);
    forall c ensures c in Filter(wakes, p) <==> c in Filter(wakes', p) {
      FilterMembers(wakes, p, c);
      FilterMembers(wakes', p, c);
    }
    SortByContent(Filter(wakes, p), Filter(wakes', p));
  }

  lemma SameCandidates(input: Input, agents: seq<Agent>)
    requires SameAgents(input.agents, agents)
    ensures Candidates(input) == Candidates(input.(agents := agents))
  {
    var other := input.(agents := agents);
    SameKnown(input.agents, agents);
    assert WaitCandidates(other) == WaitCandidates(input);
    FilterSame(WaitCandidates(input), (c: Candidate) => c.agent in Known(input.agents),
               (c: Candidate) => c.agent in Known(other.agents));
    assert WaitTier(other) == WaitTier(input);
    var taken := set c <- WaitTier(input) :: c.agent;
    var w, w' := WakeCandidates(input.agents, input.event, taken), WakeCandidates(agents, input.event, taken);
    WakesDistinct(input.agents, input.event, taken);
    WakesDistinct(agents, input.event, taken);
    forall c ensures c in w <==> c in w' {
      WakeMembers(input.agents, input.event, taken, c);
      WakeMembers(agents, input.event, taken, c);
    }
    SameTier(w, w', (c: Candidate) => c.reason == Target);
    SameTier(w, w', (c: Candidate) => c.reason == Subscription);
  }

  lemma {:induction false} SameCounts(input: Input, agents: seq<Agent>, cs: seq<Candidate>)
    requires Known(input.agents) == Known(agents)
    ensures Passed(input, cs) == Passed(input.(agents := agents), cs)
    ensures Exempted(input, cs) == Exempted(input.(agents := agents), cs)
  {
    if cs != [] { SameCounts(input, agents, cs[..|cs| - 1]); }
  }

  lemma SameRoute(input: Input, agents: seq<Agent>, cs: seq<Candidate>, i: nat)
    requires Known(input.agents) == Known(agents) && i < |cs| && cs[i].agent in Known(agents)
    ensures RouteAt(input, cs, i) == RouteAt(input.(agents := agents), cs, i)
  {
    SameCounts(input, agents, cs);
    SameCounts(input, agents, cs[..i]);
  }

  lemma SameRoutes(input: Input, agents: seq<Agent>, cs: seq<Candidate>)
    requires Known(input.agents) == Known(agents) && forall c <- cs :: c.agent in Known(agents)
    ensures RoutesOf(input, cs) == RoutesOf(input.(agents := agents), cs)
  {
    forall i | 0 <= i < |cs| ensures RouteAt(input, cs, i) == RouteAt(input.(agents := agents), cs, i) {
      SameRoute(input, agents, cs, i);
    }
  }

  /** With distinct agent ids, listing the agents in another order changes no route. */
  lemma OrderIrrelevant(input: Input, agents: seq<Agent>)
    requires SameAgents(input.agents, agents)
    ensures Routes(input) == Routes(input.(agents := agents))
  {
    var other := input.(agents := agents);
    SameKnown(input.agents, agents);
    SameCandidates(input, agents);
    CandidatesProper(input);
    SameRoutes(input, agents, Candidates(input));
  }
}
