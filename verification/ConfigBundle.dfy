/** Cross-file validation of a configuration bundle. */
module ConfigBundle {
  import opened Wrappers
  import opened ToolPatterns

  datatype WakeRule = WakeRule(eventType: string, target: Option<string>)

  datatype AgentConfig = AgentConfig(
    id: string, username: string, secretFile: string, channels: seq<string>, namespace: string,
    rules: seq<WakeRule>, allow: seq<string>, approve: seq<string>, deny: seq<string>)

  datatype Bundle = Bundle(
    owners: seq<string>, channels: seq<string>, financeAgent: string,
    listenerName: string, listenerFile: string, agents: seq<AgentConfig>)

  datatype Kind =
    | ReservedListenerFile | ListenerIsOwner | DuplicateId | WrongUsername | DuplicateUsername | ListenerName
    | SharedSecretFile | OwnerName | UnknownChannel | WrongNamespace | ForeignRule
    | FinanceTool | FinanceNotDenied | FinanceNotApproved | NoFinanceAgent

  datatype Issue = Issue(agent: Option<string>, kind: Kind)

  const ROUTING_KEY_SECRET_FILE := "/run/secrets/gateway_routing_key"
  const MATTERMOST_ADMIN_TOKEN_SECRET_FILE := "/run/secrets/mattermost_admin_token"
  const FINANCE_TOOLS := "finance.*"
  const FINANCE_READ_ONLY_TOOL := "finance.read"

  // ----- What a consistent bundle is

  predicate FinanceOk(a: AgentConfig, financeAgent: string) {
    if a.id != financeAgent then
      (forall p <- a.allow + a.approve :: !Overlap(p, FINANCE_TOOLS)) && FINANCE_TOOLS in a.deny
    else forall p <- a.allow | Overlap(p, FINANCE_TOOLS) :: p == FINANCE_READ_ONLY_TOOL
  }

  /** What is asked of one agent on its own. */
  predicate AgentOk(a: AgentConfig, b: Bundle) {
    && a.username == a.id && a.username != b.listenerName && a.username !in b.owners
    && (forall c <- a.channels :: c in b.channels)
    && a.namespace == "agents/" + a.id
    && (forall r <- a.rules :: r.target.None? || r.target.value == a.id)
    && FinanceOk(a, b.financeAgent)
  }

  function ReservedFiles(b: Bundle): set<string> {
    {ROUTING_KEY_SECRET_FILE, MATTERMOST_ADMIN_TOKEN_SECRET_FILE, b.listenerFile}
  }

  /** What is asked of an agent against those before it. */
  predicate Apart(b: Bundle, i: nat)
    requires i < |b.agents|
  {
    && b.agents[i].secretFile !in ReservedFiles(b)
    && forall j | 0 <= j < i ::
         && b.agents[j].id != b.agents[i].id && b.agents[j].username != b.agents[i].username
         && b.agents[j].secretFile != b.agents[i].secretFile
  }

  predicate Consistent(b: Bundle) {
    && b.listenerFile != ROUTING_KEY_SECRET_FILE && b.listenerFile != MATTERMOST_ADMIN_TOKEN_SECRET_FILE
    && b.listenerName !in b.owners
    && (forall i | 0 <= i < |b.agents| :: AgentOk(b.agents[i], b) && Apart(b, i))
    && exists a <- b.agents :: a.id == b.financeAgent
  }

  // ----- The source's loops

  method FinanceIssues(a: AgentConfig, financeAgent: string) returns (issues: seq<Issue>)
    ensures issues == [] <==> FinanceOk(a, financeAgent)
  {
    issues := [];
    if a.id != financeAgent {
      var held := a.allow + a.approve;
      for i := 0 to |held|
        invariant issues == [] <==> forall j | 0 <= j < i :: !Overlap(held[j], FINANCE_TOOLS)
      {
        if Overlap(held[i], FINANCE_TOOLS) { issues := issues + [Issue(Some(a.id), FinanceTool)]; }
      }
      if FINANCE_TOOLS !in a.deny { issues := issues + [Issue(Some(a.id), FinanceNotDenied)]; }
      return;
    }
    for i := 0 to |a.allow|
      invariant issues == [] <==>
        forall j | 0 <= j < i :: Overlap(a.allow[j], FINANCE_TOOLS) ==> a.allow[j] == FINANCE_READ_ONLY_TOOL
    {
      if Overlap(a.allow[i], FINANCE_TOOLS) && a.allow[i] != FINANCE_READ_ONLY_TOOL {
        issues := issues + [Issue(Some(a.id), FinanceNotApproved)];
      }
    }
  }

  method ChannelIssues(a: AgentConfig, b: Bundle) returns (issues: seq<Issue>)
    ensures issues == [] <==> forall c <- a.channels :: c in b.channels
  {
    issues := [];
    for i := 0 to |a.channels|
      invariant issues == [] <==> forall j | 0 <= j < i :: a.channels[j] in b.channels
    {
      if a.channels[i] !in b.channels { issues := issues + [Issue(Some(a.id), UnknownChannel)]; }
    }
  }

  method RuleIssues(a: AgentConfig) returns (issues: seq<Issue>)
    ensures issues == [] <==> forall r <- a.rules :: r.target.None? || r.target.value == a.id
  {
    issues := [];
    for i := 0 to |a.rules|
      invariant issues == [] <==> forall j | 0 <= j < i :: a.rules[j].target.None? || a.rules[j].target.value == a.id
    {
      if a.rules[i].target.Some? && a.rules[i].target.value != a.id {
        issues := issues + [Issue(Some(a.id), ForeignRule)];
      }
    }
  }

  method AgentIssues(a: AgentConfig, b: Bundle) returns (issues: seq<Issue>)
    ensures issues == [] <==> AgentOk(a, b)
  {
    issues := [];
    if a.username != a.id { issues := issues + [Issue(Some(a.id), WrongUsername)]; }
    if a.username == b.listenerName { issues := issues + [Issue(Some(a.id), ListenerName)]; }
    if a.username in b.owners { issues := issues + [Issue(Some(a.id), OwnerName)]; }
    var channels := ChannelIssues(a, b);
    issues := issues + channels;
    if a.namespace != "agents/" + a.id { issues := issues + [Issue(Some(a.id), WrongNamespace)]; }
    var rules := RuleIssues(a);
    var finance := FinanceIssues(a, b.financeAgent);
    issues := issues + rules + finance;
  }

  /** No issue is reported exactly when the bundle is consistent. */
  method ValidateConfigBundle(b: Bundle) returns (issues: seq<Issue>)
    ensures issues == [] <==> Consistent(b)
  {
    issues := [];
    var agentIds: set<string>, usernames: set<string> := {}, {};
    var secretFiles := {ROUTING_KEY_SECRET_FILE, MATTERMOST_ADMIN_TOKEN_SECRET_FILE};
    if b.listenerFile in secretFiles { issues := issues + [Issue(None, ReservedListenerFile)]; }
    secretFiles := secretFiles + {b.listenerFile};
    if b.listenerName in b.owners { issues := issues + [Issue(None, ListenerIsOwner)]; }
    ghost var listener := issues == [];
    for i := 0 to |b.agents|
      invariant agentIds == (set j | 0 <= j < i :: b.agents[j].id)
      invariant usernames == (set j | 0 <= j < i :: b.agents[j].username)
      invariant secretFiles == ReservedFiles(b) + (set j | 0 <= j < i :: b.agents[j].secretFile)
      invariant issues == [] <==> listener && forall j | 0 <= j < i :: AgentOk(b.agents[j], b) && Apart(b, j)
    {
      var a := b.agents[i];
      if a.id in agentIds { issues := issues + [Issue(Some(a.id), DuplicateId)]; }
      if a.username in usernames { issues := issues + [Issue(Some(a.id), DuplicateUsername)]; }
      if a.secretFile in secretFiles { issues := issues + [Issue(Some(a.id), SharedSecretFile)]; }
      agentIds, usernames, secretFiles := agentIds + {a.id}, usernames + {a.username}, secretFiles + {a.secretFile};
      var own := AgentIssues(a, b);
      issues := issues + own;
    }
    if b.financeAgent !in agentIds { issues := issues + [Issue(None, NoFinanceAgent)]; }
  }

  // ----- What that buys

  predicate PatternsValid(a: AgentConfig) {
    forall p <- a.allow + a.approve + a.deny :: IsToolPattern(p)
  }

  lemma FinanceWildcard()
    ensures IsToolPattern(FINANCE_TOOLS) && Split(FINANCE_TOOLS) == ["finance", "*"]
  {
    assert FINANCE_TOOLS == "finance" + "." + "*";
    TwoSegments("finance", "*");
  }

  lemma FinanceReading()
    ensures IsToolPattern(FINANCE_READ_ONLY_TOOL) && Split(FINANCE_READ_ONLY_TOOL) == ["finance", "read"]
  {
    assert FINANCE_READ_ONLY_TOOL == "finance" + "." + "read";
    TwoSegments("finance", "read");
  }

  lemma FinancePattern()
    ensures IsToolPattern(FINANCE_TOOLS) && Matches(FINANCE_TOOLS, FINANCE_READ_ONLY_TOOL)
    ensures IsToolPattern(FINANCE_READ_ONLY_TOOL) && !IsWildcard(FINANCE_READ_ONLY_TOOL)
  {
    FinanceWildcard();
    FinanceReading();
    assert ["finance", "*"][..1] == ["finance", "read"][..1];
  }

  /** In a consistent bundle only the finance agent reaches any finance tool, by allowance or by approval; all
      others deny them; and the finance agent itself runs no finance tool but reading without an approval. */
  lemma FinanceIsolated(b: Bundle, i: nat, tool: string)
    requires Consistent(b) && i < |b.agents| && PatternsValid(b.agents[i])
    requires IsToolName(tool) && Matches(FINANCE_TOOLS, tool)
    ensures b.agents[i].id != b.financeAgent ==>
              && (forall p <- b.agents[i].allow + b.agents[i].approve :: !Matches(p, tool))
              && exists p <- b.agents[i].deny :: Matches(p, tool)
    ensures b.agents[i].id == b.financeAgent ==>
              forall p <- b.agents[i].allow | Matches(p, tool) :: tool == FINANCE_READ_ONLY_TOOL
  {
    var a := b.agents[i];
    FinancePattern();
    assert AgentOk(a, b);
    forall p <- a.allow + a.approve | Matches(p, tool) ensures Overlap(p, FINANCE_TOOLS) {
      assert p in a.allow + a.approve + a.deny;
      OverlapIsIntersection(p, FINANCE_TOOLS);
    }
    if a.id == b.financeAgent {
      forall p <- a.allow | Matches(p, tool) ensures tool == FINANCE_READ_ONLY_TOOL {
        assert p in a.allow + a.approve;
        MatchesExactly(FINANCE_READ_ONLY_TOOL, tool);
      }
    }
  }

  /** The permissions a new agent starts with pass the finance rule. */
  function DefaultPermissions(a: AgentConfig, financeAgent: Option<string>): AgentConfig {
    a.(allow := ["mattermost.post"], approve := [], deny := if financeAgent == Some(a.id) then [] else [FINANCE_TOOLS])
  }

  lemma DefaultsPassFinance(a: AgentConfig, financeAgent: string)
    ensures FinanceOk(DefaultPermissions(a, Some(financeAgent)), financeAgent)
  {
    var post := "mattermost.post";
    assert post[0] == 'm' && post[|post| - 1] == 't' && FINANCE_TOOLS[..|FINANCE_TOOLS| - 1][0] == 'f';
    assert !IsWildcard(post) && !StartsWith(post, FINANCE_TOOLS[..|FINANCE_TOOLS| - 1]);
  }
}
