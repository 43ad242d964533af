/** What the loop guards bound over whole runs of events. */
module RoutingRuns {
  import opened Wrappers
  import opened CodeUnits
  import opened Events
  import opened Waits
  import opened Routing

  /** The routes that wake, all of them. */
  function CountGrants(rs: seq<Route>): nat {
    if rs == [] then 0 else CountGrants(rs[..|rs| - 1]) + if IsGrant(rs[|rs| - 1]) then 1 else 0
  }

  /** Those among them that the guards could have stopped: the ones of candidates that are not exempt. */
  function CountGuarded(input: Input, cs: seq<Candidate>, rs: seq<Route>): nat
    requires |cs| == |rs|
  {
    if rs == [] then 0 else
      var n := |rs| - 1;
      CountGuarded(input, cs[..n], rs[..n]) + if IsGrant(rs[n]) && !Exempt(input, cs[n]) then 1 else 0
  }

  /** Wake-ups an event granted. */
  function Grants(input: Input): nat { CountGrants(Routes(input)) }

  /** Guarded wake-ups an event granted. */
  function Guarded(input: Input): nat {
    if !Routable(input.event) then 0 else CountGuarded(input, Candidates(input), Routes(input))
  }

  lemma {:induction false} CountedGrants(input: Input, cs: seq<Candidate>, i: nat)
    requires Proper(input, cs) && i <= |cs|
    ensures CountGrants(RoutesOf(input, cs)[..i]) == Spent(input, cs, i)
  {
    if i > 0 {
      CountedGrants(input, cs, i - 1);
      SpentStep(input, cs, i - 1);
      assert RoutesOf(input, cs)[..i][..i - 1] == RoutesOf(input, cs)[..i - 1];
    }
  }

  lemma {:induction false} CountedGuarded(input: Input, cs: seq<Candidate>, i: nat)
    requires Proper(input, cs) && i <= |cs|
    ensures CountGuarded(input, cs[..i], RoutesOf(input, cs)[..i]) == Min(Passed(input, cs[..i]), Room(input, cs))
  {
    if i > 0 {
      CountedGuarded(input, cs, i - 1);
      GrantByRank(input, cs, i - 1);
      CountsStep(input, cs, i - 1);
      var rs := RoutesOf(input, cs);
      assert rs[..i][..i - 1] == rs[..i - 1] && cs[..i][..i - 1] == cs[..i - 1];
      assert rs[..i][i - 1] == RouteAt(input, cs, i - 1) && cs[..i][i - 1] == cs[i - 1];
    }
  }

  /** The granted routes are the exempt candidates and as many passing ones as there is room for. */
  lemma GrantsCounted(input: Input)
    requires Routable(input.event)
    ensures var cs := Candidates(input);
            && Guarded(input) == Min(Passed(input, cs), Room(input, cs))
            && Grants(input) == Exempted(input, cs) + Guarded(input)
  {
    var cs := Candidates(input);
    CandidatesProper(input);
    CountedGrants(input, cs, |cs|);
    CountedGuarded(input, cs, |cs|);
    assert RoutesOf(input, cs)[..|cs|] == RoutesOf(input, cs) && cs[..|cs|] == cs;
  }

  /** The guarded wake-ups stay within both budgets the event was given. */
  lemma GuardedWithinBudget(input: Input)
    ensures Guarded(input) <= Grants(input)
    ensures Guarded(input) > 0 ==>
              && input.stats.cascadeWakes + Guarded(input) <= input.limits.maxTurns
              && input.stats.threadWakes + Guarded(input) <= MAX_THREAD_WAKES_PER_WINDOW
  {
    if Routable(input.event) { GrantsCounted(input); }
  }

  /** Every other wake-up resolves a wait that its agent holds, through a timeout or an approval's end
      that the Gateway itself emitted. */
  lemma ExemptResolvesOwnWait(input: Input, c: Candidate)
    requires c in Candidates(input) && Exempt(input, c)
    ensures GatewayEmitted(input.event) && (input.event.typ.WaitTimeout? || input.event.typ.ApprovalResolved?)
    ensures exists w <- input.waits :: w.agent == c.agent && c.waitId == Some(w.id)
  {
    CandidateKnown(input, c);
    FilterMembers(WaitCandidates(input), (c: Candidate) => c.agent in Known(input.agents), c);
    if input.event.typ.WaitTimeout? {
      WaitOfMember(input.waits, input.event.data.waitId);
    } else {
      WaitChoice(input, c.agent);
    }
  }

  lemma {:induction false} WaitOfMember(ws: seq<Wait>, id: Id)
    ensures WaitOf(ws, id).Some? ==> WaitOf(ws, id).value in ws && WaitOf(ws, id).value.id == id
  {
    if ws != [] && ws[0].id != id { WaitOfMember(ws[1..], id); }
  }

  // ----- Sums over a run

  function Sum(ns: seq<nat>): nat {
    if ns == [] then 0 else Sum(ns[..|ns| - 1]) + ns[|ns| - 1]
  }

  lemma {:induction false} SumBelow(ms: seq<nat>, ns: seq<nat>)
    requires |ms| == |ns| && forall i | 0 <= i < |ms| :: ms[i] <= ns[i]
    ensures Sum(ms) <= Sum(ns)
  {
    if ms != [] { SumBelow(ms[..|ms| - 1], ns[..|ns| - 1]); }
  }

  /** Spending bounded against all that was granted before stays bounded in total. */
  lemma {:induction false} TotalBounded(guarded: seq<nat>, grants: seq<nat>, limit: nat)
    requires |guarded| == |grants| && forall i | 0 <= i < |grants| :: guarded[i] <= grants[i]
    requires forall i | 0 <= i < |grants| && guarded[i] > 0 :: Sum(grants[..i]) + guarded[i] <= limit
    ensures Sum(guarded) <= limit
  {
    if guarded != [] {
      var n := |guarded| - 1;
      assert forall i | 0 <= i < n :: grants[..n][..i] == grants[..i];
      TotalBounded(guarded[..n], grants[..n], limit);
      SumBelow(guarded[..n], grants[..n]);
    }
  }

  function GrantsOf(rounds: seq<Input>): seq<nat> {
    seq(|rounds|, i requires 0 <= i < |rounds| => Grants(rounds[i]))
  }

  function GuardedOf(rounds: seq<Input>): seq<nat> {
    seq(|rounds|, i requires 0 <= i < |rounds| => Guarded(rounds[i]))
  }

  // ----- One cascade

  /** The events of one cascade, each routed with the count of wake-ups granted before it. */
  ghost predicate Cascade(rounds: seq<Input>, maxTurns: nat) {
    forall i | 0 <= i < |rounds| ::
      rounds[i].limits.maxTurns == maxTurns && rounds[i].stats.cascadeWakes == Sum(GrantsOf(rounds)[..i])
  }

  /** However many events a cascade has and whoever they wake, its guarded wake-ups never exceed the limit. */
  lemma CascadeBounded(rounds: seq<Input>, maxTurns: nat)
    requires Cascade(rounds, maxTurns)
    ensures Sum(GuardedOf(rounds)) <= maxTurns
  {
    forall i | 0 <= i < |rounds|
      ensures Guarded(rounds[i]) <= Grants(rounds[i])
      ensures Guarded(rounds[i]) > 0 ==> Sum(GrantsOf(rounds)[..i]) + Guarded(rounds[i]) <= maxTurns
    {
      GuardedWithinBudget(rounds[i]);
    }
    TotalBounded(GuardedOf(rounds), GrantsOf(rounds), maxTurns);
  }

  // ----- One thread

  /** Wake-ups granted by the first events of a thread that were received after `since`. */
  function SumSince(grants: seq<nat>, times: seq<int>, since: int): nat
    requires |grants| == |times|
  {
    if grants == [] then 0 else
      var n := |grants| - 1;
      SumSince(grants[..n], times[..n], since) + if times[n] > since then grants[n] else 0
  }

  ghost predicate Ordered(times: seq<int>) { forall i, j | 0 <= i <= j < |times| :: times[i] <= times[j] }

  /** A thread's events in acceptance order with their times; each is routed with the wake-ups of the earlier
      events inside the window before it. */
  ghost predicate Thread(rounds: seq<Input>, times: seq<int>, window: nat) {
    && |times| == |rounds| && Ordered(times)
    && (forall i | 0 <= i < |rounds| ::
          rounds[i].stats.threadWakes == SumSince(GrantsOf(rounds)[..i], times[..i], times[i] - window))
  }

  lemma {:induction false} SumInside(grants: seq<nat>, times: seq<int>, a: nat, b: nat, since: int)
    requires |grants| == |times| && a <= b <= |grants| && forall i | a <= i < b :: times[i] > since
    ensures Sum(grants[a..b]) <= SumSince(grants[..b], times[..b], since)
  {
    if a < b {
      SumInside(grants, times, a, b - 1, since);
      assert grants[..b][..b - 1] == grants[..b - 1] && times[..b][..b - 1] == times[..b - 1];
      assert grants[a..b][..b - 1 - a] == grants[a..b - 1];
    }
  }

  lemma RoundFacts(input: Input)
    ensures Guarded(input) <= Grants(input)
    ensures Guarded(input) > 0 ==> input.stats.threadWakes + Guarded(input) <= MAX_THREAD_WAKES_PER_WINDOW
  {
    GuardedWithinBudget(input);
  }

  /** The events since `a` lie in the window before event `i`, so their wake-ups are counted there. */
  lemma WindowSum(grants: seq<nat>, times: seq<int>, window: nat, a: nat, i: nat)
    requires |grants| == |times| && a <= i < |grants| && times[i] - times[a] < window
    requires forall k | a <= k < i :: times[a] <= times[k]
    ensures Sum(grants[a..i]) <= SumSince(grants[..i], times[..i], times[i] - window)
  {
    SumInside(grants, times, a, i, times[i] - window);
  }

  ghost predicate RoundBounded(rounds: seq<Input>, a: nat, i: nat)
    requires a <= i < |rounds|
  {
    && Guarded(rounds[i]) <= Grants(rounds[i])
    && (Guarded(rounds[i]) > 0 ==> Sum(GrantsOf(rounds)[a..i]) + Guarded(rounds[i]) <= MAX_THREAD_WAKES_PER_WINDOW)
  }

  lemma WithinWindow(rounds: seq<Input>, times: seq<int>, window: nat, a: nat, i: nat)
    requires Thread(rounds, times, window) && a <= i < |rounds| && times[i] - times[a] < window
    ensures RoundBounded(rounds, a, i)
  {
    RoundFacts(rounds[i]);
    assert forall k | a <= k < i :: times[a] <= times[k];
    WindowSum(GrantsOf(rounds), times, window, a, i);
  }

  lemma SegmentBounded(guarded: seq<nat>, grants: seq<nat>, a: nat, b: nat, limit: nat)
    requires |guarded| == |grants| && a <= b <= |grants|
    requires forall i | a <= i < b :: guarded[i] <= grants[i]
               && (guarded[i] > 0 ==> Sum(grants[a..i]) + guarded[i] <= limit)
    ensures Sum(guarded[a..b]) <= limit
  {
    forall k | 0 <= k < b - a ensures grants[a..b][..k] == grants[a..a + k] {}
    TotalBounded(guarded[a..b], grants[a..b], limit);
  }

  lemma RoundsBounded(rounds: seq<Input>, a: nat, b: nat)
    requires a <= b <= |rounds| && forall i | a <= i < b :: RoundBounded(rounds, a, i)
    ensures Sum(GuardedOf(rounds)[a..b]) <= MAX_THREAD_WAKES_PER_WINDOW
  {
    var grants, guarded := GrantsOf(rounds), GuardedOf(rounds);
    forall i | a <= i < b
      ensures guarded[i] <= grants[i]
                && (guarded[i] > 0 ==> Sum(grants[a..i]) + guarded[i] <= MAX_THREAD_WAKES_PER_WINDOW)
    {
      assert RoundBounded(rounds, a, i);
    }
    SegmentBounded(guarded, grants, a, b, MAX_THREAD_WAKES_PER_WINDOW);
  }

  lemma InWindow(times: seq<int>, window: nat, a: nat, b: nat, i: nat)
    requires Ordered(times) && a <= i < b <= |times| && times[b - 1] - times[a] < window
    ensures times[i] - times[a] < window
  {
    assert times[i] <= times[b - 1];
  }

  /** In every window of a thread, wherever it starts, the guarded wake-ups stay within the limit: the events
      `a` to `b - 1`, received less than a window apart. */
  lemma ThreadBounded(rounds: seq<Input>, times: seq<int>, window: nat, a: nat, b: nat)
    requires Thread(rounds, times, window) && a < b <= |rounds| && times[b - 1] - times[a] < window
    ensures Sum(GuardedOf(rounds)[a..b]) <= MAX_THREAD_WAKES_PER_WINDOW
  {
    forall i | a <= i < b ensures RoundBounded(rounds, a, i) {
      InWindow(times, window, a, b, i);
      WithinWindow(rounds, times, window, a, i);
    }
    RoundsBounded(rounds, a, b);
  }
}
