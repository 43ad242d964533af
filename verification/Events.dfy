/** Gateway events as routing sees them. */
module Events {
  import opened Wrappers
  import opened CodeUnits

  type AgentId = Text
  type Id = Text

  datatype EventType =
    | PostCreated | PostEdited | PostDeleted | PostRecovered | AgentMentioned | ThreadReply
    | RunRequested | RunStarted | RunCompleted | RunFailed
    | WaitCreated | WaitMatched | WaitTimeout
    | MessageRequested | MessagePosted
    | ApprovalRequested | ApprovalGranted | ApprovalDenied | ApprovalResolved
    | GmailNotification | GmailMessage | TimerFired
    | ControlPause | ControlResume | ControlKillAll

  datatype Trust = SystemTrusted | HumanTrusted | InternalUntrusted | ExternalUntrusted

  datatype Post = Post(postId: Id, rootId: Option<Id>, channel: Id, user: Id,
                       sender: Option<AgentId>, targets: seq<AgentId>)

  datatype Data = PostData(post: Post) | TimeoutData(waitId: Id, agentId: AgentId) | OtherData

  datatype Event = Event(typ: EventType, gatewaySource: bool, trust: Trust, correlation: Id,
                         hop: nat, time: int, data: Data)

  predicate IsControl(t: EventType) { t.ControlPause? || t.ControlResume? || t.ControlKillAll? }

  predicate IsPostType(t: EventType) {
    t.PostCreated? || t.PostEdited? || t.PostDeleted? || t.PostRecovered? || t.AgentMentioned? || t.ThreadReply?
  }

  /** Types only the Gateway itself emits. */
  predicate IsReserved(t: EventType) { !IsPostType(t) && !t.GmailNotification? && !t.GmailMessage? }

  predicate IsRecordOnly(t: EventType) {
    t.PostEdited? || t.PostDeleted? || t.PostRecovered? || t.GmailNotification?
  }

  predicate GatewayEmitted(e: Event) { e.gatewaySource && e.trust.SystemTrusted? }

  function MattermostPost(e: Event): Option<Post> {
    if IsPostType(e.typ) && e.data.PostData? then Some(e.data.post) else None
  }

  function Targets(e: Event): seq<AgentId> {
    match MattermostPost(e) case Some(p) => p.targets case None => []
  }

  function Sender(e: Event): Option<AgentId> {
    match MattermostPost(e) case Some(p) => p.sender case None => None
  }
}

/** Which event resolves which wait. */
module Waits {
  import opened Wrappers
  import opened CodeUnits
  import opened Events

  datatype Condition = Condition(eventType: EventType, correlation: Id, senderAgents: seq<AgentId>,
                                 senderUsers: seq<Id>, requireTarget: Option<AgentId>)

  /** An active wait; `roots` are the thread roots a reply must be in, None when not bound to a thread. */
  datatype Wait = Wait(id: Id, agent: AgentId, condition: Condition, timeoutAt: int, roots: Option<set<Id>>)

  /** How an approval ended, as the Gateway tells it. */
  predicate IsResolution(e: Event) { e.typ.ApprovalResolved? && GatewayEmitted(e) }

  predicate Matches(w: Wait, e: Event, now: int) {
    var c := w.condition;
    if e.typ != c.eventType || e.correlation != c.correlation then false
    else if w.timeoutAt <= now && !IsResolution(e) then false
    else if IsReserved(e.typ) && !GatewayEmitted(e) then false
    else
      var namesSender := |c.senderAgents| > 0 || |c.senderUsers| > 0;
      match MattermostPost(e)
      case None => !namesSender && c.requireTarget.None?
      case Some(post) =>
        if post.sender == Some(w.agent) then false
        else if w.roots.Some? && (if post.rootId.Some? then post.rootId.value else post.postId) !in w.roots.value
            then false
        else
          var senderMatches :=
            || (post.sender.Some? && post.sender.value in c.senderAgents)
            || (e.trust.HumanTrusted? && post.user in c.senderUsers);
          if namesSender && !senderMatches then false
          else c.requireTarget.None? || c.requireTarget.value in Targets(e)
  }

  /** What a match guarantees: never the agent's own post, never an expired wait but for an approval's end,
      never a reserved type from outside, and a named human only by that human's own trusted post. */
  lemma MatchMeaning(w: Wait, e: Event, now: int)
    requires Matches(w, e, now)
    ensures Sender(e) != Some(w.agent)
    ensures w.timeoutAt > now || IsResolution(e)
    ensures IsReserved(e.typ) ==> GatewayEmitted(e)
    ensures w.condition.senderAgents == [] && w.condition.senderUsers != [] ==>
              MattermostPost(e).Some? && e.trust.HumanTrusted?
                  && MattermostPost(e).value.user in w.condition.senderUsers
    ensures w.condition.requireTarget.Some? ==> w.condition.requireTarget.value in Targets(e)
  {
  }
}
