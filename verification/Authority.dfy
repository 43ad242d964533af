/** Where agents may work, what a turn may address, and how that agrees with routing. */
module Authority {
  import opened Wrappers
  import opened CodeUnits
  import opened Events
  import opened Routing
  import ToolPatterns

  // ----- Channel access

  datatype Grant = Grant(channel: Id, since: int)

  datatype Access = Access(named: map<Text, Id>, granted: map<AgentId, seq<Grant>>)

  datatype Record = Record(id: AgentId, disabled: bool, channels: seq<Text>, rules: seq<WakeRule>)

  function GrantsOf(a: Record, access: Access): seq<Grant> {
    if a.id in access.granted then access.granted[a.id] else []
  }

  function Configured(a: Record, access: Access): set<Id> {
    set name <- a.channels | name in access.named :: access.named[name]
  }

  /** An agent's channels: its configured ones that are resolved, and its grants. */
  function ChannelIds(a: Record, access: Access): set<Id> {
    Configured(a, access) + set g <- GrantsOf(a, access) :: g.channel
  }

  method AgentChannelRefs(a: Record, access: Access) returns (ids: seq<Id>)
    ensures forall id :: id in ids <==> id in ChannelIds(a, access)
    ensures forall i, j | 0 <= i < j < |ids| :: ids[i] != ids[j]
  {
    ids := [];
    for k := 0 to |a.channels|
      invariant forall id ::
                  id in ids <==> exists name <- a.channels[..k] :: name in access.named && access.named[name] == id
      invariant forall i, j | 0 <= i < j < |ids| :: ids[i] != ids[j]
    {
      assert a.channels[..k + 1] == a.channels[..k] + [a.channels[k]];
      var name := a.channels[k];
      if name in access.named && access.named[name] !in ids { ids := ids + [access.named[name]]; }
    }
    assert a.channels[..|a.channels|] == a.channels;
    assert forall id :: id in ids <==> id in Configured(a, access);
    var grants := GrantsOf(a, access);
    for k := 0 to |grants|
      invariant forall id :: id in ids <==> id in Configured(a, access) || exists g <- grants[..k] :: g.channel == id
      invariant forall i, j | 0 <= i < j < |ids| :: ids[i] != ids[j]
    {
      assert grants[..k + 1] == grants[..k] + [grants[k]];
      if grants[k].channel !in ids { ids := ids + [grants[k].channel]; }
    }
    assert grants[..|grants|] == grants;
  }

  /** Per granted channel that is not configured as well, the newest time the agent may not see. */
  function FloorsFrom(grants: seq<Grant>, configured: set<Id>): map<Id, int> {
    if grants == [] then map[] else
      var n := |grants| - 1;
      var before := FloorsFrom(grants[..n], configured);
      if grants[n].channel in configured then before else before[grants[n].channel := grants[n].since]
  }

  function Floors(a: Record, access: Access): map<Id, int> {
    FloorsFrom(GrantsOf(a, access), Configured(a, access))
  }

  /** Grant `k` is the last one of its channel. */
  ghost predicate LastGrant(grants: seq<Grant>, channel: Id, k: nat) {
    && k < |grants| && grants[k].channel == channel
    && forall j | k < j < |grants| :: grants[j].channel != channel
  }

  lemma {:induction false} FloorsFromMeaning(grants: seq<Grant>, configured: set<Id>, channel: Id)
    ensures channel in FloorsFrom(grants, configured) <==>
              channel !in configured && exists g <- grants :: g.channel == channel
    ensures channel in FloorsFrom(grants, configured) ==>
              exists k: nat ::
                LastGrant(grants, channel, k) && FloorsFrom(grants, configured)[channel] == grants[k].since
  {
    if grants != [] {
      var n := |grants| - 1;
      var before := grants[..n];
      FloorsFromMeaning(before, configured, channel);
      assert grants == before + [grants[n]];
      if grants[n].channel == channel {
        assert LastGrant(grants, channel, n);
      } else if channel in FloorsFrom(before, configured) {
        var k: nat :| LastGrant(before, channel, k) && FloorsFrom(before, configured)[channel] == before[k].since;
        assert LastGrant(grants, channel, k);
      }
    }
  }

  /** An agent has a floor exactly in the channels it was granted and is not configured for: when its bot was last
      added there. It may work exactly in the channels it is configured for by name and in those it was granted. */
  lemma ChannelsMeaning(a: Record, access: Access, channel: Id)
    ensures var granted := if a.id in access.granted then access.granted[a.id] else [];
            var configured := exists name <- a.channels :: name in access.named && access.named[name] == channel;
            && (channel in RoutingAgent(a, access).channels <==>
                  configured || exists g <- granted :: g.channel == channel)
            && (channel in RoutingAgent(a, access).floors <==>
                  !configured && exists g <- granted :: g.channel == channel)
            && (channel in RoutingAgent(a, access).floors ==>
                  exists k: nat ::
                    LastGrant(granted, channel, k) && RoutingAgent(a, access).floors[channel] == granted[k].since)
  {
    FloorsFromMeaning(GrantsOf(a, access), Configured(a, access), channel);
  }

  function RoutingAgent(a: Record, access: Access): Agent {
    Agent(a.id, a.disabled, a.rules, ChannelIds(a, access), Floors(a, access))
  }

  function RoutingAgents(agents: seq<Record>, access: Access): seq<Agent> {
    seq(|agents|, i requires 0 <= i < |agents| => RoutingAgent(agents[i], access))
  }

  // ----- The authority of a turn

  datatype Attachment = Attachment(key: Option<Id>, artifact: Option<Id>)

  datatype Message = Message(channel: Id, mentions: seq<AgentId>, targets: seq<AgentId>, attachments: seq<Attachment>)

  datatype WaitDraft = WaitDraft(senderAgents: seq<AgentId>, senderUsers: seq<Id>, requireTarget: Option<AgentId>)

  datatype NextState = Done | Waiting(waits: seq<WaitDraft>) | NeedsHuman(actionType: string)

  /** `artifacts` maps the keys produced in the turn to whether they are private. */
  datatype Result = Result(runId: Id, artifacts: map<Id, bool>, messages: seq<Message>, next: NextState,
      memory: seq<Text>)

  datatype Context = Context(
    runId: Id, agentId: AgentId, channels: set<Id>, registered: set<AgentId>, addressable: map<AgentId, set<Id>>,
    writable: set<Text>, waitable: set<Id>, attachable: set<Id>,
    allow: seq<string>, approve: seq<string>, deny: seq<string>)

  datatype Issue =
    | WrongRun | MayNotPost | ChannelRefused | MentionMissing | AddressesItself | NotAddressable | NotAMember
    | ArtifactUnknown | ArtifactPrivate | NotAttachable | UserNotWaitable | ForeignTarget | MayNotRequest | NotWritable

  /** The agents this agent may address, each with its channels. */
  method AddressableAgents(agent: Record, agents: seq<Record>, access: Access) returns (m: map<AgentId, set<Id>>)
    requires forall i, j | 0 <= i < j < |agents| :: agents[i].id != agents[j].id
    ensures forall id :: id in m <==> exists a <- agents :: a.id == id && a.id != agent.id && !a.disabled
    ensures forall a <- agents | a.id in m :: m[a.id] == ChannelIds(a, access)
  {
    m := map[];
    for k := 0 to |agents|
      invariant forall id ::
                  id in m <==> exists j | 0 <= j < k :: agents[j].id == id && id != agent.id && !agents[j].disabled
      invariant forall j | 0 <= j < k && agents[j].id in m :: m[agents[j].id] == ChannelIds(agents[j], access)
    {
      var other := agents[k];
      if other.id != agent.id && !other.disabled { m := m[other.id := ChannelIds(other, access)]; }
    }
  }

  predicate CoveredBy(patterns: seq<string>, tool: string) {
    exists p <- patterns :: ToolPatterns.Covers(p, tool)
  }

  predicate MayPost(c: Context) {
    CoveredBy(c.allow, "mattermost.post") && !CoveredBy(c.deny, "mattermost.post")
        && !CoveredBy(c.approve, "mattermost.post")
  }

  predicate IsAgent(c: Context, name: AgentId) {
    name == c.agentId || name in c.registered || name in c.addressable
  }

  predicate MayAddress(c: Context, id: AgentId) { id != c.agentId && id in c.addressable }

  predicate AttachmentOk(r: Result, c: Context, a: Attachment) {
    && (a.key.Some? ==> a.key.value in r.artifacts && !r.artifacts[a.key.value])
    && (a.artifact.Some? ==> a.artifact.value in c.attachable)
  }

  predicate MessageOk(r: Result, c: Context, m: Message) {
    && MayPost(c) && m.channel in c.channels
    && (forall name <- m.mentions :: IsAgent(c, name) ==> name in m.targets)
    && (forall t <- m.targets :: MayAddress(c, t) && m.channel in c.addressable[t])
    && (forall a <- m.attachments :: AttachmentOk(r, c, a))
  }

  predicate WaitOk(c: Context, w: WaitDraft) {
    && (forall s <- w.senderAgents :: MayAddress(c, s))
    && (forall u <- w.senderUsers :: u in c.waitable)
    && (w.requireTarget.None? || w.requireTarget.value == c.agentId)
  }

  predicate NextOk(c: Context, n: NextState) {
    match n
    case Done => true
    case Waiting(waits) => forall w <- waits :: WaitOk(c, w)
    case NeedsHuman(actionType) => !CoveredBy(c.deny, actionType) && CoveredBy(c.approve, actionType)
  }

  /** What a turn must keep to for its result to be accepted. */
  predicate Authorized(r: Result, c: Context) {
    r.runId == c.runId && MessagesOk(r, c) && NextOk(c, r.next) && MemoryOk(r, c)
  }

  predicate MessagesOk(r: Result, c: Context) { forall m <- r.messages :: MessageOk(r, c, m) }

  predicate MemoryOk(r: Result, c: Context) { forall n <- r.memory :: n in c.writable }

  method AddressIssue(c: Context, id: AgentId) returns (issues: seq<Issue>)
    ensures issues == [] <==> MayAddress(c, id)
  {
    issues := if id == c.agentId then [AddressesItself] else if id !in c.addressable then [NotAddressable] else [];
  }

  method MessageIssues(r: Result, c: Context, m: Message) returns (issues: seq<Issue>)
    ensures issues == [] <==> MessageOk(r, c, m)
  {
    issues := [];
    if !MayPost(c) { issues := issues + [MayNotPost]; }
    if m.channel !in c.channels { issues := issues + [ChannelRefused]; }
    ghost var base := issues == [];
    for k := 0 to |m.mentions|
      invariant issues == [] <==> base && forall j | 0 <= j < k :: IsAgent(c, m.mentions[j]) ==>
                  m.mentions[j] in m.targets
    {
      if IsAgent(c, m.mentions[k]) && m.mentions[k] !in m.targets { issues := issues + [MentionMissing]; }
    }
    base := issues == [];
    for k := 0 to |m.targets|
      invariant issues == [] <==>
        base && forall j | 0 <= j < k :: MayAddress(c, m.targets[j]) && m.channel in c.addressable[m.targets[j]]
    {
      var own := AddressIssue(c, m.targets[k]);
      issues := issues + own;
      if own == [] && m.channel !in c.addressable[m.targets[k]] { issues := issues + [NotAMember]; }
    }
    base := issues == [];
    for k := 0 to |m.attachments|
      invariant issues == [] <==> base && forall j | 0 <= j < k :: AttachmentOk(r, c, m.attachments[j])
    {
      var a := m.attachments[k];
      if a.key.Some? {
        if a.key.value !in r.artifacts { issues := issues + [ArtifactUnknown]; }
        else if r.artifacts[a.key.value] { issues := issues + [ArtifactPrivate]; }
      }
      if a.artifact.Some? && a.artifact.value !in c.attachable { issues := issues + [NotAttachable]; }
    }
  }

  method WaitIssues(c: Context, w: WaitDraft) returns (issues: seq<Issue>)
    ensures issues == [] <==> WaitOk(c, w)
  {
    issues := [];
    for k := 0 to |w.senderAgents|
      invariant issues == [] <==> forall j | 0 <= j < k :: MayAddress(c, w.senderAgents[j])
    {
      var own := AddressIssue(c, w.senderAgents[k]);
      issues := issues + own;
    }
    ghost var base := issues == [];
    for k := 0 to |w.senderUsers|
      invariant issues == [] <==> base && forall j | 0 <= j < k :: w.senderUsers[j] in c.waitable
    {
      if w.senderUsers[k] !in c.waitable { issues := issues + [UserNotWaitable]; }
    }
    if w.requireTarget.Some? && w.requireTarget.value != c.agentId { issues := issues + [ForeignTarget]; }
  }

  method NextIssues(c: Context, next: NextState) returns (issues: seq<Issue>)
    ensures issues == [] <==> NextOk(c, next)
  {
    issues := [];
    match next {
      case Done =>
      case Waiting(waits) =>
        for k := 0 to |waits|
          invariant issues == [] <==> forall j | 0 <= j < k :: WaitOk(c, waits[j])
        {
          var own := WaitIssues(c, waits[k]);
          issues := issues + own;
        }
      case NeedsHuman(actionType) =>
        if CoveredBy(c.deny, actionType) || !CoveredBy(c.approve, actionType) { issues := [MayNotRequest]; }
    }
  }

  method AllMessageIssues(r: Result, c: Context) returns (issues: seq<Issue>)
    ensures issues == [] <==> MessagesOk(r, c)
  {
    issues := [];
    for k := 0 to |r.messages|
      invariant issues == [] <==> forall j | 0 <= j < k :: MessageOk(r, c, r.messages[j])
    {
      var own := MessageIssues(r, c, r.messages[k]);
      issues := issues + own;
    }
  }

  method MemoryIssues(r: Result, c: Context) returns (issues: seq<Issue>)
    ensures issues == [] <==> MemoryOk(r, c)
  {
    issues := [];
    for k := 0 to |r.memory|
      invariant issues == [] <==> forall j | 0 <= j < k :: r.memory[j] in c.writable
    {
      if r.memory[k] !in c.writable { issues := issues + [NotWritable]; }
    }
  }

  /** `checkTurnResultAuthority`: nothing is reported exactly when the result keeps to the turn's authority. */
  method CheckTurnResult(r: Result, c: Context) returns (issues: seq<Issue>)
    ensures issues == [] <==> Authorized(r, c)
  {
    var messages := AllMessageIssues(r, c);
    var next := NextIssues(c, r.next);
    var memory := MemoryIssues(r, c);
    issues := (if r.runId != c.runId then [WrongRun] else []) + messages + next + memory;
  }

  // ----- Authority and routing agree

  /** The context was built for `agent` from these agents and this access. */
  ghost predicate BuiltFrom(c: Context, agent: Record, agents: seq<Record>, access: Access) {
    && c.agentId == agent.id
    && (forall id :: id in c.addressable <==> exists a <- agents :: a.id == id && a.id != agent.id && !a.disabled)
    && (forall a <- agents | a.id in c.addressable :: c.addressable[a.id] == ChannelIds(a, access))
  }

  /** The event of an accepted message, as the Gateway posts it. */
  ghost predicate EventOf(e: Event, m: Message, sender: AgentId) {
    && MattermostPost(e).Some? && Routable(e)
    && MattermostPost(e).value.sender == Some(sender)
    && MattermostPost(e).value.channel == m.channel && MattermostPost(e).value.targets == m.targets
  }

  lemma KnownRecord(agents: seq<Record>, access: Access, a: Record)
    requires forall i, j | 0 <= i < j < |agents| :: agents[i].id != agents[j].id
    requires a in agents
    ensures a.id in Known(RoutingAgents(agents, access))
    ensures Known(RoutingAgents(agents, access))[a.id] == RoutingAgent(a, access)
  {
    var ras := RoutingAgents(agents, access);
    var k :| 0 <= k < |agents| && agents[k] == a;
    assert ras[k] in ras && ras[k].id == a.id;
    KnownMeaning(ras, a.id);
    var l :| 0 <= l < |ras| && ras[l] == Known(ras)[a.id];
    assert agents[l].id == a.id;
  }

  /** A target of a routable post is a candidate: through its wait, or as addressed. */
  lemma TargetIsCandidate(input: Input, t: AgentId)
    requires t in Targets(input.event) && t in Known(input.agents)
    ensures exists c <- Candidates(input) :: c.agent == t
  {
    var taken := set c <- WaitTier(input) :: c.agent;
    if t in taken {
      var c :| c in WaitTier(input) && c.agent == t;
      TierMembers(input, c);
    } else {
      KnownMeaning(input.agents, t);
      var a := Known(input.agents)[t];
      var c := Candidate(t, Target, None);
      assert Wake(a, input.event) == Some(c);
      WakeMembers(input.agents, input.event, taken, c);
      TierMembers(input, c);
    }
  }

  /** An addressable agent, reached in a channel of its own after its floor, is not ignored. */
  lemma NotIgnored(input: Input, a: Record, agents: seq<Record>, access: Access, cand: Candidate)
    requires forall i, j | 0 <= i < j < |agents| :: agents[i].id != agents[j].id
    requires input.agents == RoutingAgents(agents, access) && a in agents && !a.disabled && cand.agent == a.id
    requires MattermostPost(input.event).Some? && Sender(input.event) != Some(a.id)
    requires var ch := MattermostPost(input.event).value.channel;
             ch in ChannelIds(a, access) && (ch in Floors(a, access) ==> input.event.time > Floors(a, access)[ch])
    ensures cand.agent in Known(input.agents) && IgnoredFor(input, cand).None?
  {
    KnownRecord(agents, access, a);
  }

  lemma RoutedByCandidates(input: Input, t: AgentId)
    requires Routable(input.event) && t in Targets(input.event) && t in Known(input.agents)
    requires forall cand: Candidate | cand.agent == t :: IgnoredFor(input, cand).None?
    ensures exists x <- Routes(input) :: x.agent == t
    ensures forall x <- Routes(input) | x.agent == t :: !x.decision.Ignore?
  {
    TargetIsCandidate(input, t);
    GrantsAreTheFirstPassing(input);
    var cs, rs := Candidates(input), Routes(input);
    var k :| 0 <= k < |cs| && cs[k].agent == t;
    assert FirstPassing(input, cs, k, rs[k]) && rs[k] in rs;
    forall i | 0 <= i < |rs| && rs[i].agent == t ensures !rs[i].decision.Ignore? {
      assert FirstPassing(input, cs, i, rs[i]);
    }
  }

  /** If the authority check reports nothing, then under the same agents and channel access every target of an
      accepted post gets a route, and none of its routes is an ignore: it wakes, matches a wait, or is stopped by a
      loop guard, whenever the event is dated after the target's floor in that channel. */
  lemma AuthorizedTargetsAreRouted(r: Result, c: Context, agent: Record, agents: seq<Record>, access: Access,
                                   m: Message, t: AgentId, input: Input)
    requires forall i, j | 0 <= i < j < |agents| :: agents[i].id != agents[j].id
    requires BuiltFrom(c, agent, agents, access) && Authorized(r, c) && m in r.messages && t in m.targets
    requires input.agents == RoutingAgents(agents, access) && EventOf(input.event, m, agent.id)
    requires forall a <- agents | a.id == t && m.channel in Floors(a, access) ::
               input.event.time > Floors(a, access)[m.channel]
    ensures exists x <- Routes(input) :: x.agent == t
    ensures forall x <- Routes(input) | x.agent == t :: !x.decision.Ignore?
  {
    assert MessageOk(r, c, m);
    var a :| a in agents && a.id == t && a.id != agent.id && !a.disabled;
    KnownRecord(agents, access, a);
    forall cand: Candidate | cand.agent == t ensures IgnoredFor(input, cand).None? {
      NotIgnored(input, a, agents, access, cand);
    }
    RoutedByCandidates(input, t);
  }
}
