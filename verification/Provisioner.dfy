/** Provisioning and retiring an agent's bot: external steps, durable checkpoints, and a crash between any two
    of them. One pass runs at a time (the pass lock); a new operation may supersede the current one at any
    moment, and a pass notices only when it writes its next checkpoint. */
module Provisioner {
  import opened Wrappers

  type User = nat
  type Token = nat

  datatype Kind = Provision | Retire

  datatype OpState = Running | Done | Failed

  /** The current operation with its durable checkpoints. */
  datatype Op = Op(kind: Kind, state: OpState, bot: Option<User>, tokenRef: bool, tokensRevoked: bool,
      botDisabled: bool)

  datatype File = Missing | Private(token: Token) | Exposed(token: Token) | Symlink

  /** Where a pass over operation `id` stands. */
  datatype Pc =
    | Idle
    | Resolving(id: nat, known: Option<User>)
    | GotBot(id: nat, known: Option<User>, u: User)
    | HasBot(id: nat, known: Option<User>, u: User)
    | Identified(id: nat, u: User)
    | Replacing(id: nat, u: User)
    | Minting(id: nat, u: User)
    | Minted(id: nat, u: User, t: Token)
    | TokenReady(id: nat, u: User)
    | Ready(id: nat, u: User)
    | Recovering(id: nat)
    | Retiring(id: nat, u: User)
    | Revoking(id: nat, u: User)
    | Revoked(id: nat, u: User)
    | Powerless(id: nat, u: User)
    | Disabled(id: nat, u: User)
    | Retired(id: nat, u: User)

  /** `tokens`: the valid tokens and their owners. `local`: the pass's own copy of the checkpoints. */
  datatype World = World(
    tokens: map<Token, User>, nextToken: Token, enabled: set<User>, nextUser: User, file: File,
    identity: Option<User>, opId: nat, op: Op, local: Op, pc: Pc)

  datatype Step =
    | Request(kind: Kind)
    | Begin
    | EnsureBot(u: User)
    | CheckpointBot
    | WriteIdentity
    | CheckFile
    | RevokeOne(t: Token)
    | RevokeDone
    | Mint
    | WriteFile
    | CheckpointToken
    | CompleteProvision
    | Recover(u: User)
    | RecoverNothing
    | DecideRevocation
    | CheckpointRevoked
    | DisableBot
    | CheckpointDisabled
    | CompleteRetire
    | Crash

  function NewOp(kind: Kind): Op { Op(kind, Running, None, false, false, false) }

  predicate NoTokens(w: World, u: User) { forall t <- w.tokens :: w.tokens[t] != u }

  /** The token in the file is accepted as `u`. */
  predicate Works(w: World, u: User) {
    w.file.Private? && w.file.token in w.tokens && w.tokens[w.file.token] == u && u in w.enabled
  }

  predicate Current(w: World, id: nat) { id == w.opId && w.op.state.Running? }

  function DoBegin(w: World): World {
    var v := w.(local := w.op);
    if w.op.kind.Provision? then
      v.(pc := if w.op.bot.Some? then HasBot(w.opId, w.identity, w.op.bot.value) else Resolving(w.opId, w.identity))
    else v.(pc := if w.identity.Some? then Retiring(w.opId, w.identity.value) else Recovering(w.opId))
  }

  /** The file decides: a working token is kept, a symlink refused, anything else replaced. */
  function DoCheckFile(w: World, id: nat, u: User): World {
    if w.local.tokenRef then w.(pc := Ready(id, u))
    else if w.file.Symlink? then w.(pc := Idle, op := if Current(w, id) then w.op.(state := Failed) else w.op)
    else if Works(w, u) then w.(pc := TokenReady(id, u))
    else w.(pc := Replacing(id, u))
  }

  /** One step; a step that is not enabled changes nothing. A checkpoint of a superseded operation ends the pass. */
  function Apply(w: World, step: Step): World {
    match (step, w.pc)
    case (Request(kind), _) => w.(opId := w.opId + 1, op := NewOp(kind))
    case (Crash, _) => w.(pc := Idle)
    case (Begin, Idle) => if w.op.state.Running? then DoBegin(w) else w
    case (EnsureBot(u), Resolving(id, known)) =>
      if u <= w.nextUser then
        w.(enabled := w.enabled + {u}, nextUser := if u == w.nextUser then u + 1 else w.nextUser,
           pc := GotBot(id, known, u))
      else w
    case (CheckpointBot, GotBot(id, known, u)) =>
      if Current(w, id) then w.(op := w.op.(bot := Some(u)), pc := HasBot(id, known, u)) else w.(pc := Idle)
    case (WriteIdentity, HasBot(id, known, u)) =>
      w.(identity := if known != Some(u) then Some(u) else w.identity, pc := Identified(id, u))
    case (CheckFile, Identified(id, u)) => DoCheckFile(w, id, u)
    case (RevokeOne(t), Replacing(id, u)) =>
      if t in w.tokens && w.tokens[t] == u then w.(tokens := w.tokens - {t}) else w
    case (RevokeOne(t), Revoking(id, u)) =>
      if t in w.tokens && w.tokens[t] == u then w.(tokens := w.tokens - {t}) else w
    case (RevokeDone, Replacing(id, u)) => if NoTokens(w, u) then w.(pc := Minting(id, u)) else w
    case (RevokeDone, Revoking(id, u)) => if NoTokens(w, u) then w.(pc := Revoked(id, u)) else w
    case (Mint, Minting(id, u)) =>
      w.(tokens := w.tokens[w.nextToken := u], nextToken := w.nextToken + 1, pc := Minted(id, u, w.nextToken))
    case (WriteFile, Minted(id, u, t)) => w.(file := Private(t), pc := TokenReady(id, u))
    case (CheckpointToken, TokenReady(id, u)) =>
      if Current(w, id) then w.(op := w.op.(tokenRef := true), pc := Ready(id, u)) else w.(pc := Idle)
    case (CompleteProvision, Ready(id, u)) =>
      w.(op := if Current(w, id) then w.op.(state := Done) else w.op, pc := Idle)
    case (Recover(u), Recovering(id)) => if u < w.nextUser then w.(identity := Some(u), pc := Retiring(id, u)) else w
    case (RecoverNothing, Recovering(id)) =>
      w.(op := if Current(w, id) then w.op.(state := Done) else w.op, pc := Idle)
    case (DecideRevocation, Retiring(id, u)) =>
      w.(pc := if w.local.tokensRevoked then Powerless(id, u) else Revoking(id, u))
    case (CheckpointRevoked, Revoked(id, u)) =>
      if Current(w, id) then w.(op := w.op.(tokensRevoked := true), pc := Powerless(id, u)) else w.(pc := Idle)
    case (DisableBot, Powerless(id, u)) =>
      if w.local.botDisabled then w.(pc := Retired(id, u)) else w.(enabled := w.enabled - {u}, pc := Disabled(id, u))
    case (CheckpointDisabled, Disabled(id, u)) =>
      if Current(w, id) then w.(op := w.op.(botDisabled := true), pc := Retired(id, u)) else w.(pc := Idle)
    case (CompleteRetire, Retired(id, u)) =>
      w.(op := if Current(w, id) then w.op.(state := Done) else w.op, pc := Idle)
    case _ => w
  }

  function Run(w: World, steps: seq<Step>): World {
    if steps == [] then w else Apply(Run(w, steps[..|steps| - 1]), steps[|steps| - 1])
  }

  lemma RunSnoc(w: World, steps: seq<Step>, step: Step)
    ensures Run(w, steps + [step]) == Apply(Run(w, steps), step)
  {
    assert (steps + [step])[..|steps|] == steps;
  }

  lemma {:induction false} RunConcat(w: World, a: seq<Step>, b: seq<Step>)
    ensures Run(Run(w, a), b) == Run(w, a + b)
  {
    if b == [] {
      assert a + b == a;
    } else {
      var n := |b| - 1;
      RunConcat(w, a, b[..n]);
      RunSnoc(Run(w, a), b[..n], b[n]);
      RunSnoc(w, a + b[..n], b[n]);
      assert b == b[..n] + [b[n]] && a + b == a + b[..n] + [b[n]];
    }
  }

  /** Nothing is in flight and nothing requested yet; accounts, tokens and file are whatever they are. */
  ghost predicate Fresh(w: World) {
    && w.pc.Idle? && w.op.state.Done? && w.op == NewOp(Retire).(state := Done) && w.identity.None?
    && (forall t <- w.tokens :: t < w.nextToken && w.tokens[t] < w.nextUser)
    && (forall u <- w.enabled :: u < w.nextUser)
  }

  // ----- The invariant

  /** At most one valid token per account. */
  ghost predicate OnePerUser(w: World) {
    forall s <- w.tokens, t <- w.tokens | s != t :: w.tokens[s] != w.tokens[t]
  }

  ghost predicate IdsOk(w: World) {
    && (forall t <- w.tokens :: t < w.nextToken && w.tokens[t] < w.nextUser)
    && (forall u <- w.enabled :: u < w.nextUser)
    && (w.identity.Some? ==> w.identity.value < w.nextUser)
    && (w.op.bot.Some? ==> w.op.bot.value < w.nextUser)
  }

  /** What the current operation's checkpoints stand for. */
  ghost predicate OpOk(w: World) {
    && (w.op.kind.Provision? ==>
          && !w.op.tokensRevoked && !w.op.botDisabled
          && (w.op.bot.Some? ==> w.op.bot.value in w.enabled)
          && (w.op.tokenRef ==> w.op.bot.Some? && w.identity == w.op.bot && Works(w, w.op.bot.value))
          && (w.op.state.Done? ==> w.op.tokenRef))
    && (w.op.kind.Retire? ==>
          && w.op.bot.None? && !w.op.tokenRef
          && (w.op.tokensRevoked ==> w.identity.Some? && NoTokens(w, w.identity.value))
          && (w.op.botDisabled ==> w.op.tokensRevoked && w.identity.value !in w.enabled)
          && (w.op.state.Done? && w.identity.Some? ==> w.op.botDisabled))
  }

  predicate Provisioning(pc: Pc) {
    pc.Resolving? || pc.GotBot? || pc.HasBot? || pc.Identified? || pc.Replacing? || pc.Minting? || pc.Minted?
    || pc.TokenReady? || pc.Ready?
  }

  /** What holds of a pass whoever it works for. */
  ghost predicate PassOk(w: World) {
    && (!w.pc.Idle? && !w.pc.Resolving? && !w.pc.Recovering? ==> w.pc.u < w.nextUser)
    && (w.pc.Minting? ==> NoTokens(w, w.pc.u))
    && (w.pc.Revoked? || w.pc.Powerless? || w.pc.Disabled? || w.pc.Retired? ==>
          w.pc.id == w.opId ==> NoTokens(w, w.pc.u))
    && (w.pc.Minted? ==> w.pc.t in w.tokens && w.tokens[w.pc.t] == w.pc.u)
    && (!w.pc.Idle? ==> w.pc.id <= w.opId && (w.local.kind.Provision? <==> Provisioning(w.pc)))
    && (!w.pc.Idle? && w.pc.id != w.opId ==> w.op == NewOp(w.op.kind))
  }

  /** What holds of a pass over the operation that is still current. */
  ghost predicate CurrentPassOk(w: World) {
    !w.pc.Idle? && w.pc.id == w.opId ==>
      && w.op.state.Running? && w.local.kind == w.op.kind
      && (Provisioning(w.pc) ==>
            && (w.pc.Ready? <==> w.op.tokenRef && !w.pc.HasBot? && !w.pc.Identified?)
            && (w.pc.HasBot? || w.pc.Identified? ==> w.local.tokenRef == w.op.tokenRef)
            && (w.pc.Resolving? || w.pc.GotBot? ==> w.op.bot.None? && !w.local.tokenRef && !w.op.tokenRef)
            && (w.pc.GotBot? ==> w.pc.u in w.enabled)
            && (!w.pc.Resolving? && !w.pc.GotBot? ==> w.op.bot == Some(w.pc.u))
            && (w.pc.Resolving? || w.pc.GotBot? || w.pc.HasBot? ==> w.pc.known == w.identity)
            && (!w.pc.Resolving? && !w.pc.GotBot? && !w.pc.HasBot? ==> w.identity == Some(w.pc.u))
            && (w.pc.TokenReady? ==> Works(w, w.pc.u)))
      && (!Provisioning(w.pc) ==>
            && (w.pc.Recovering? ==> w.identity.None? && !w.op.tokensRevoked)
            && (!w.pc.Recovering? ==> w.identity == Some(w.pc.u))
            && (w.pc.Retiring? || w.pc.Recovering? ==> w.local == w.op)
            && (w.pc.Revoking? || w.pc.Revoked? ==>
                  !w.op.tokensRevoked && !w.local.tokensRevoked && !w.local.botDisabled)
            && (w.pc.Powerless? ==> w.op.tokensRevoked && w.local.botDisabled == w.op.botDisabled)
            && (w.pc.Disabled? ==> w.op.tokensRevoked && w.pc.u !in w.enabled)
            && (w.pc.Retired? ==> w.op.botDisabled))
  }

  ghost predicate Inv(w: World, clean: bool) {
    IdsOk(w) && OpOk(w) && PassOk(w) && CurrentPassOk(w) && (clean ==> OnePerUser(w))
  }

  lemma LifecycleSteps(w: World, step: Step, clean: bool)
    requires Inv(w, clean) && (step.Request? || step.Crash?)
    ensures Inv(Apply(w, step), clean)
  {
  }

  lemma BeginStep(w: World, step: Step, clean: bool)
    requires Inv(w, clean) && (step.Begin?)
    ensures Inv(Apply(w, step), clean)
  {
  }

  lemma BotSteps(w: World, step: Step, clean: bool)
    requires Inv(w, clean) && (step.EnsureBot? || step.CheckpointBot? || step.WriteIdentity?)
    ensures Inv(Apply(w, step), clean)
  {
  }

  lemma CheckFileStep(w: World, clean: bool)
    requires Inv(w, clean)
    ensures Inv(Apply(w, CheckFile), clean)
  {
  }

  lemma RevokeDoneStep(w: World, clean: bool)
    requires Inv(w, clean)
    ensures Inv(Apply(w, RevokeDone), clean)
  {
  }

  lemma RevokeSteps(w: World, step: Step, clean: bool)
    requires Inv(w, clean) && (step.RevokeOne?)
    ensures Inv(Apply(w, step), clean)
  {
  }

  lemma MintStep(w: World, step: Step, clean: bool)
    requires Inv(w, clean) && (step.Mint?)
    ensures Inv(Apply(w, step), clean)
  {
  }

  lemma TokenSteps(w: World, step: Step, clean: bool)
    requires Inv(w, clean) && (step.WriteFile? || step.CheckpointToken? || step.CompleteProvision?)
    ensures Inv(Apply(w, step), clean)
  {
  }

  lemma RecoverSteps(w: World, step: Step, clean: bool)
    requires Inv(w, clean) && (step.Recover? || step.RecoverNothing? || step.DecideRevocation?)
    ensures Inv(Apply(w, step), clean)
  {
  }

  lemma PowerlessSteps(w: World, step: Step, clean: bool)
    requires Inv(w, clean) && (step.CheckpointRevoked? || step.DisableBot?)
    ensures Inv(Apply(w, step), clean)
  {
  }

  lemma RetireSteps(w: World, step: Step, clean: bool)
    requires Inv(w, clean) && (step.CheckpointDisabled? || step.CompleteRetire?)
    ensures Inv(Apply(w, step), clean)
  {
  }

  lemma StepKeepsInv(w: World, step: Step, clean: bool)
    requires Inv(w, clean)
    ensures Inv(Apply(w, step), clean)
  {
    match step
    case Request(_) => LifecycleSteps(w, step, clean);
    case Crash => LifecycleSteps(w, step, clean);
    case Begin => BeginStep(w, step, clean);
    case EnsureBot(_) => BotSteps(w, step, clean);
    case CheckpointBot => BotSteps(w, step, clean);
    case WriteIdentity => BotSteps(w, step, clean);
    case CheckFile => CheckFileStep(w, clean);
    case RevokeDone => RevokeDoneStep(w, clean);
    case RevokeOne(_) => RevokeSteps(w, step, clean);
    case Mint => MintStep(w, step, clean);
    case WriteFile => TokenSteps(w, step, clean);
    case CheckpointToken => TokenSteps(w, step, clean);
    case CompleteProvision => TokenSteps(w, step, clean);
    case Recover(_) => RecoverSteps(w, step, clean);
    case RecoverNothing => RecoverSteps(w, step, clean);
    case DecideRevocation => RecoverSteps(w, step, clean);
    case CheckpointRevoked => PowerlessSteps(w, step, clean);
    case DisableBot => PowerlessSteps(w, step, clean);
    case CheckpointDisabled => RetireSteps(w, step, clean);
    case CompleteRetire => RetireSteps(w, step, clean);
  }

  lemma {:induction false} RunKeepsInv(w: World, steps: seq<Step>, clean: bool)
    requires Inv(w, clean)
    ensures Inv(Run(w, steps), clean)
  {
    if steps != [] {
      RunKeepsInv(w, steps[..|steps| - 1], clean);
      StepKeepsInv(Run(w, steps[..|steps| - 1]), steps[|steps| - 1], clean);
    }
  }

  // ----- What completed operations leave behind

  /** Whatever crashed before and however often it was superseded: a completed provisioning has its checkpointed
      bot recorded as the agent's identity and a token file that works for it. */
  lemma ProvisionedWorks(w: World, steps: seq<Step>)
    requires Fresh(w)
    ensures var v := Run(w, steps);
            v.op.kind.Provision? && v.op.state.Done? ==>
              v.op.bot.Some? && v.identity == v.op.bot && Works(v, v.op.bot.value)
  {
    RunKeepsInv(w, steps, false);
  }

  /** Starting with no valid tokens, the token in the file is the bot's only one. */
  lemma ProvisionedTokenIsOnlyOne(w: World, steps: seq<Step>)
    requires Fresh(w) && w.tokens == map[]
    ensures var v := Run(w, steps);
            v.op.kind.Provision? && v.op.state.Done? ==>
              v.op.bot.Some? && v.file.Private? &&
              forall t <- v.tokens :: v.tokens[t] == v.op.bot.value <==> t == v.file.token
  {
    RunKeepsInv(w, steps, true);
  }

  /** A completed retirement of a resolved bot leaves it disabled and without any valid token. */
  lemma RetiredIsPowerless(w: World, steps: seq<Step>)
    requires Fresh(w)
    ensures var v := Run(w, steps);
            v.op.kind.Retire? && v.op.state.Done? && v.identity.Some? ==>
              v.identity.value !in v.enabled && NoTokens(v, v.identity.value)
  {
    RunKeepsInv(w, steps, false);
  }

  /** At no moment, crash points included, does an account that started without tokens hold two. */
  lemma NeverTwoTokens(w: World, steps: seq<Step>)
    requires Fresh(w) && w.tokens == map[]
    ensures OnePerUser(Run(w, steps))
  {
    RunKeepsInv(w, steps, true);
  }
}
