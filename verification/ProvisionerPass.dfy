/** One pass over a lifecycle operation as the source writes it. Each method is shown to be a run of the transition
    system (`steps`), so what holds of every run holds of this code; and a pass that nothing interrupts completes its
    operation, from whatever an earlier crash left. */
module ProvisionerPass {
  import opened Wrappers
  import opened Provisioner

  /** No crash and no new request. */
  predicate Undisturbed(steps: seq<Step>) { forall s <- steps :: !s.Crash? && !s.Request? }

  // ----- What short sequences of steps do

  lemma RunOne(w: World, a: Step)
    ensures Run(w, [a]) == Apply(w, a)
  {
    RunSnoc(w, [], a);
    assert [] + [a] == [a];
  }

  lemma RunTwo(w: World, a: Step, b: Step)
    ensures Run(w, [a, b]) == Apply(Apply(w, a), b)
  {
    RunOne(w, a);
    RunSnoc(w, [a], b);
    assert [a] + [b] == [a, b];
  }

  lemma RunThree(w: World, a: Step, b: Step, c: Step)
    ensures Run(w, [a, b, c]) == Apply(Apply(Apply(w, a), b), c)
  {
    RunTwo(w, a, b);
    RunSnoc(w, [a, b], c);
    assert [a, b] + [c] == [a, b, c];
  }

  lemma RunParts(w: World, a: seq<Step>, b: seq<Step>, c: seq<Step>)
    ensures Run(w, a + b + c) == Run(Run(Run(w, a), b), c)
  {
    RunConcat(w, a, b);
    RunConcat(w, a + b, c);
  }

  lemma RevokeRun(w: World, steps: seq<Step>, v: World, t: Token)
    requires Run(w, steps) == v && (v.pc.Replacing? || v.pc.Revoking?) && t in v.tokens && v.tokens[t] == v.pc.u
    requires Undisturbed(steps)
    ensures Run(w, steps + [RevokeOne(t)]) == v.(tokens := v.tokens - {t}) && Undisturbed(steps + [RevokeOne(t)])
  {
    RunSnoc(w, steps, RevokeOne(t));
  }

  lemma BeginRun(w: World)
    requires w.pc.Idle? && w.op.state.Running?
    ensures Run(w, [Begin]) == DoBegin(w)
  {
    RunOne(w, Begin);
  }

  lemma EnsureRun(w: World, id: nat, known: Option<User>, u: User)
    requires w.pc == Resolving(id, known) && u <= w.nextUser && Current(w, id)
    ensures Run(w, [EnsureBot(u), CheckpointBot])
         == w.(enabled := w.enabled + {u}, nextUser := if u == w.nextUser then u + 1 else w.nextUser,
               op := w.op.(bot := Some(u)), pc := HasBot(id, known, u))
  {
    RunTwo(w, EnsureBot(u), CheckpointBot);
  }

  lemma IdentifyRun(w: World, id: nat, known: Option<User>, u: User)
    requires w.pc == HasBot(id, known, u)
    ensures Run(w, [WriteIdentity])
         == w.(identity := if known != Some(u) then Some(u) else w.identity, pc := Identified(id, u))
  {
    RunOne(w, WriteIdentity);
  }

  lemma CheckRun(w: World, id: nat, u: User)
    requires w.pc == Identified(id, u)
    ensures Run(w, [CheckFile]) == DoCheckFile(w, id, u)
  {
    RunOne(w, CheckFile);
  }

  lemma RevokedStep(w: World, id: nat, u: User)
    requires w.pc == Replacing(id, u) && NoTokens(w, u)
    ensures Apply(w, RevokeDone) == w.(pc := Minting(id, u))
  {
  }

  lemma MintedSteps(w: World, id: nat, u: User)
    requires w.pc == Minting(id, u)
    ensures Apply(Apply(w, Mint), WriteFile)
         == w.(tokens := w.tokens[w.nextToken := u], nextToken := w.nextToken + 1, file := Private(w.nextToken),
               pc := TokenReady(id, u))
  {
  }

  lemma MintRun(w: World, id: nat, u: User)
    requires w.pc == Replacing(id, u) && NoTokens(w, u)
    ensures Run(w, [RevokeDone, Mint, WriteFile])
         == w.(tokens := w.tokens[w.nextToken := u], nextToken := w.nextToken + 1, file := Private(w.nextToken),
               pc := TokenReady(id, u))
  {
    RunThree(w, RevokeDone, Mint, WriteFile);
    RevokedStep(w, id, u);
    MintedSteps(w.(pc := Minting(id, u)), id, u);
  }

  lemma FinishRun(w: World, id: nat, u: User)
    requires w.pc == TokenReady(id, u) && Current(w, id)
    ensures Run(w, [CheckpointToken, CompleteProvision]) == w.(op := w.op.(tokenRef := true, state := Done), pc := Idle)
  {
    RunTwo(w, CheckpointToken, CompleteProvision);
  }

  lemma FinishKeptRun(w: World, id: nat, u: User)
    requires w.pc == Identified(id, u) && w.local.tokenRef && Current(w, id)
    ensures Run(w, [CheckFile, CompleteProvision]) == w.(op := w.op.(state := Done), pc := Idle)
  {
    RunTwo(w, CheckFile, CompleteProvision);
  }

  lemma DecideRun(w: World, id: nat, u: User)
    requires w.pc == Retiring(id, u)
    ensures Run(w, [DecideRevocation]) == w.(pc := if w.local.tokensRevoked then Powerless(id, u) else Revoking(id, u))
  {
    RunOne(w, DecideRevocation);
  }

  lemma PowerlessRun(w: World, id: nat, u: User)
    requires w.pc == Revoking(id, u) && NoTokens(w, u) && Current(w, id)
    ensures Run(w, [RevokeDone, CheckpointRevoked]) == w.(op := w.op.(tokensRevoked := true), pc := Powerless(id, u))
  {
    RunTwo(w, RevokeDone, CheckpointRevoked);
  }

  lemma StillDisabledRun(w: World, id: nat, u: User)
    requires w.pc == Powerless(id, u) && w.local.botDisabled
    ensures Run(w, [DisableBot]) == w.(pc := Retired(id, u))
  {
    RunOne(w, DisableBot);
  }

  lemma DisableStep(w: World, id: nat, u: User)
    requires w.pc == Powerless(id, u) && !w.local.botDisabled
    ensures Apply(w, DisableBot) == w.(enabled := w.enabled - {u}, pc := Disabled(id, u))
  {
  }

  lemma DisabledStep(w: World, id: nat, u: User)
    requires w.pc == Disabled(id, u) && Current(w, id)
    ensures Apply(w, CheckpointDisabled) == w.(op := w.op.(botDisabled := true), pc := Retired(id, u))
  {
  }

  lemma DisabledRun(w: World, id: nat, u: User)
    requires w.pc == Powerless(id, u) && Current(w, id) && !w.local.botDisabled
    ensures Run(w, [DisableBot, CheckpointDisabled])
         == w.(enabled := w.enabled - {u}, op := w.op.(botDisabled := true), pc := Retired(id, u))
  {
    RunTwo(w, DisableBot, CheckpointDisabled);
    DisableStep(w, id, u);
    DisabledStep(w.(enabled := w.enabled - {u}, pc := Disabled(id, u)), id, u);
  }

  lemma RetireRun(w: World, id: nat, u: User)
    requires w.pc == Retired(id, u) && Current(w, id)
    ensures Run(w, [CompleteRetire]) == w.(op := w.op.(state := Done), pc := Idle)
  {
    RunOne(w, CompleteRetire);
  }

  lemma RecoverRun(w: World, id: nat, u: User)
    requires w.pc == Recovering(id) && u < w.nextUser
    ensures Run(w, [Recover(u)]) == w.(identity := Some(u), pc := Retiring(id, u))
  {
    RunOne(w, Recover(u));
  }

  lemma NothingRun(w: World, id: nat)
    requires w.pc == Recovering(id) && Current(w, id)
    ensures Run(w, [RecoverNothing]) == w.(op := w.op.(state := Done), pc := Idle)
  {
    RunOne(w, RecoverNothing);
  }

  // ----- And what they do in a pass

  lemma KeptRun(w: World, id: nat, u: User)
    requires w.pc == Identified(id, u) && !w.local.tokenRef && Works(w, u)
    ensures Run(w, [CheckFile]) == w.(pc := TokenReady(id, u)) && Undisturbed([CheckFile])
  {
    CheckRun(w, id, u);
  }

  lemma ReplacedRun(w: World, id: nat, u: User, more: seq<Step>, v: World)
    requires w.pc == Identified(id, u) && !w.local.tokenRef && !w.file.Symlink? && !Works(w, u)
    requires Run(w.(pc := Replacing(id, u)), more) == v && Undisturbed(more)
    requires v.pc == Replacing(id, u) && NoTokens(v, u)
    ensures var steps := [CheckFile] + more + [RevokeDone, Mint, WriteFile];
            && Undisturbed(steps)
            && Run(w, steps) == v.(tokens := v.tokens[v.nextToken := u], nextToken := v.nextToken + 1,
                                   file := Private(v.nextToken), pc := TokenReady(id, u))
  {
    CheckRun(w, id, u);
    MintRun(v, id, u);
    RunParts(w, [CheckFile], more, [RevokeDone, Mint, WriteFile]);
  }

  lemma ResolvedRun(w: World, ensured: User)
    requires w.pc.Idle? && w.op.state.Running? && w.op.kind.Provision? && ensured <= w.nextUser
    requires w.op.bot.None?
    ensures var steps := [Begin] + [EnsureBot(ensured), CheckpointBot] + [WriteIdentity];
            && Undisturbed(steps)
            && Run(w, steps) == w.(enabled := w.enabled + {ensured}, local := w.op,
                                   nextUser := if ensured == w.nextUser then ensured + 1 else w.nextUser,
                                   op := w.op.(bot := Some(ensured)), identity := Some(ensured),
                                   pc := Identified(w.opId, ensured))
  {
    BeginRun(w);
    var v := DoBegin(w);
    EnsureRun(v, w.opId, w.identity, ensured);
    IdentifyRun(Run(v, [EnsureBot(ensured), CheckpointBot]), w.opId, w.identity, ensured);
    RunParts(w, [Begin], [EnsureBot(ensured), CheckpointBot], [WriteIdentity]);
  }

  lemma KnownRun(w: World)
    requires w.pc.Idle? && w.op.state.Running? && w.op.kind.Provision? && w.op.bot.Some?
    ensures Undisturbed([Begin] + [WriteIdentity])
    ensures Run(w, [Begin] + [WriteIdentity])
         == w.(local := w.op, identity := w.op.bot, pc := Identified(w.opId, w.op.bot.value))
  {
    BeginRun(w);
    IdentifyRun(DoBegin(w), w.opId, w.identity, w.op.bot.value);
    RunConcat(w, [Begin], [WriteIdentity]);
  }

  lemma CompletedRun(w: World, steps: seq<Step>, v: World, id: nat, u: User)
    requires Run(w, steps) == v && Undisturbed(steps) && v.pc == Identified(id, u) && Current(v, id)
    ensures v.local.tokenRef ==>
              Run(w, steps + [CheckFile, CompleteProvision]) == v.(op := v.op.(state := Done), pc := Idle)
    ensures !v.local.tokenRef && v.file.Symlink? ==>
              Run(w, steps + [CheckFile]) == v.(op := v.op.(state := Failed), pc := Idle)
    ensures Undisturbed(steps + [CheckFile, CompleteProvision]) && Undisturbed(steps + [CheckFile])
  {
    CheckRun(v, id, u);
    RunConcat(w, steps, [CheckFile]);
    if v.local.tokenRef {
      FinishKeptRun(v, id, u);
      RunConcat(w, steps, [CheckFile, CompleteProvision]);
    }
  }

  lemma FinishedRun(w: World, steps: seq<Step>, x: World, more: seq<Step>, v: World, id: nat, u: User)
    requires Run(w, steps) == x && Run(x, more) == v && Undisturbed(steps) && Undisturbed(more)
    requires v.pc == TokenReady(id, u) && Current(v, id)
    ensures var all := steps + more + [CheckpointToken, CompleteProvision];
            Undisturbed(all) && Run(w, all) == v.(op := v.op.(tokenRef := true, state := Done), pc := Idle)
  {
    FinishRun(v, id, u);
    RunParts(w, steps, more, [CheckpointToken, CompleteProvision]);
  }

  lemma RevokedRun(w: World, id: nat, u: User, more: seq<Step>, v: World)
    requires w.pc == Retiring(id, u) && !w.local.tokensRevoked && Run(w.(pc := Revoking(id, u)), more) == v
    requires Undisturbed(more) && v.pc == Revoking(id, u) && NoTokens(v, u) && Current(v, id)
    ensures var steps := [DecideRevocation] + more + [RevokeDone, CheckpointRevoked];
            Undisturbed(steps) && Run(w, steps) == v.(op := v.op.(tokensRevoked := true), pc := Powerless(id, u))
  {
    DecideRun(w, id, u);
    PowerlessRun(v, id, u);
    RunParts(w, [DecideRevocation], more, [RevokeDone, CheckpointRevoked]);
  }

  lemma RetiredRun(w: World, steps: seq<Step>, x: World, first: seq<Step>, y: World, second: seq<Step>, z: World,
                   id: nat, u: User)
    requires Run(w, steps) == x && Run(x, first) == y && Run(y, second) == z && z.pc == Retired(id, u) && Current(z, id)
    requires Undisturbed(steps) && Undisturbed(first) && Undisturbed(second)
    ensures var all := steps + first + second + [CompleteRetire];
            Undisturbed(all) && Run(w, all) == z.(op := z.op.(state := Done), pc := Idle)
  {
    RunParts(w, steps, first, second);
    RetireRun(z, id, u);
    RunConcat(w, steps + first + second, [CompleteRetire]);
  }

  // ----- The pass

  /** Accounts, token file, recorded identity and the current operation, changed in place. */
  class Gateway {
    var tokens: map<Token, User>
    var nextToken: Token
    var enabled: set<User>
    var nextUser: User
    var file: File
    var identity: Option<User>
    var opId: nat
    var op: Op

    /** The world with a pass at `pc` that began with the checkpoints `local`. */
    ghost function At(local: Op, pc: Pc): World
      reads this
    {
      World(tokens, nextToken, enabled, nextUser, file, identity, opId, op, local, pc)
    }

    /** Lists and revokes again until nothing is left; gives up after a thousand rounds. */
    method RevokeAllTokens(u: User, ghost local: Op, ghost pc: Pc) returns (gaveUp: bool, ghost steps: seq<Step>)
      requires (pc.Replacing? || pc.Revoking?) && pc.u == u
      modifies this`tokens
      ensures !gaveUp && Undisturbed(steps) && Run(old(At(local, pc)), steps) == At(local, pc)
      ensures forall t :: t in tokens <==> t in old(tokens) && old(tokens)[t] != u
      ensures forall t <- tokens :: tokens[t] == old(tokens)[t]
    {
      steps := [];
      for round := 0 to 1000
        invariant round <= 1
        invariant Undisturbed(steps) && Run(old(At(local, pc)), steps) == At(local, pc)
        invariant forall t <- tokens :: t in old(tokens) && tokens[t] == old(tokens)[t]
        invariant forall t <- old(tokens) | old(tokens)[t] != u :: t in tokens
        invariant round > 0 ==> forall t <- tokens :: tokens[t] != u
      {
        var ids := set t <- tokens | tokens[t] == u;
        if ids == {} {
          assert forall t <- tokens :: tokens[t] != u by { assert forall t <- tokens | tokens[t] == u :: t in ids; }
          return false, steps;
        }
        while ids != {}
          invariant Undisturbed(steps) && Run(old(At(local, pc)), steps) == At(local, pc)
          invariant forall t <- tokens :: t in old(tokens) && tokens[t] == old(tokens)[t]
          invariant forall t <- old(tokens) | old(tokens)[t] != u :: t in tokens
          invariant forall t <- tokens | tokens[t] == u :: t in ids
          invariant forall t <- ids :: t in tokens && tokens[t] == u
          decreases |ids|
        {
          var t :| t in ids;
          RevokeRun(old(At(local, pc)), steps, At(local, pc), t);
          steps := steps + [RevokeOne(t)];
          tokens, ids := tokens - {t}, ids - {t};
        }
      }
      gaveUp := true;
    }

    /** The file ends holding a token that works for `u`: kept when it already does, replaced otherwise, and refused
        when it is a symlink. */
    method EnsureBotToken(u: User, ghost id: nat, ghost local: Op) returns (refused: bool, ghost steps: seq<Step>)
      requires !local.tokenRef && u in enabled && forall t <- tokens :: t < nextToken
      modifies this`tokens, this`nextToken, this`file
      ensures refused <==> old(file).Symlink?
      ensures refused ==> tokens == old(tokens) && file == old(file) && nextToken == old(nextToken)
      ensures !refused ==> Run(old(At(local, Identified(id, u))), steps) == At(local, TokenReady(id, u))
      ensures !refused ==> Undisturbed(steps) && file.Private? && file.token in tokens && tokens[file.token] == u
      ensures !refused && !old(Works(At(local, Idle), u)) ==>
                file.token == old(nextToken) && forall t <- tokens | tokens[t] == u :: t == file.token
      ensures forall t <- old(tokens) | old(tokens)[t] != u :: t in tokens && tokens[t] == old(tokens)[t]
    {
      ghost var w := At(local, Identified(id, u));
      steps := [];
      if file.Symlink? { return true, steps; }
      if file.Private? && file.token in tokens && tokens[file.token] == u {
        KeptRun(w, id, u);
        return false, [CheckFile];
      }
      steps := ReplaceToken(u, id, local);
      refused := false;
    }

    /** Revokes what the account has, mints one token and writes it. */
    method ReplaceToken(u: User, ghost id: nat, ghost local: Op) returns (ghost steps: seq<Step>)
      requires !local.tokenRef && !file.Symlink? && !Works(At(local, Idle), u) && forall t <- tokens :: t < nextToken
      modifies this`tokens, this`nextToken, this`file
      ensures Undisturbed(steps) && Run(old(At(local, Identified(id, u))), steps) == At(local, TokenReady(id, u))
      ensures file == Private(old(nextToken)) && nextToken == old(nextToken) + 1
      ensures forall t :: t in tokens <==> t == old(nextToken) || (t in old(tokens) && old(tokens)[t] != u)
      ensures forall t <- tokens :: tokens[t] == if t == old(nextToken) then u else old(tokens)[t]
    {
      ghost var w := At(local, Identified(id, u));
      var gaveUp;
      ghost var more;
      gaveUp, more := RevokeAllTokens(u, local, Replacing(id, u));
      ghost var v := At(local, Replacing(id, u));
      assert NoTokens(v, u);
      ReplacedRun(w, id, u, more, v);
      steps := [CheckFile] + more + [RevokeDone, Mint, WriteFile];
      WriteNew(u);
    }

    /** Mints a token for the account and puts it into the file. */
    method WriteNew(u: User)
      modifies this`tokens, this`nextToken, this`file
      ensures tokens == old(tokens)[old(nextToken) := u] && nextToken == old(nextToken) + 1
      ensures file == Private(old(nextToken))
    {
      tokens := tokens[nextToken := u];
      file := Private(nextToken);
      nextToken := nextToken + 1;
    }

    /** Resolves the bot, or takes the checkpointed one, and records it. `ensured` is the account that ensuring the bot
        gives, an existing one or a new one. */
    method ResolveBot(ensured: User, ghost w: World) returns (u: User, ghost steps: seq<Step>)
      requires w == At(w.local, Idle) && Inv(w, false) && op.kind.Provision? && op.state.Running? && ensured <= nextUser
      modifies this`enabled, this`nextUser, this`op, this`identity
      ensures Undisturbed(steps) && Run(w, steps) == At(old(op), Identified(opId, u))
      ensures op == old(op).(bot := Some(u)) && identity == Some(u) && u in enabled
      ensures u == if old(op).bot.Some? then old(op).bot.value else ensured
    {
      var known := identity;
      if op.bot.None? {
        u := ensured;
        ResolvedRun(w, u);
        steps := [Begin] + [EnsureBot(u), CheckpointBot] + [WriteIdentity];
        enabled := enabled + {u};
        if u == nextUser { nextUser := nextUser + 1; }
        op := op.(bot := Some(u));
      } else {
        u := op.bot.value;
        KnownRun(w);
        steps := [Begin] + [WriteIdentity];
      }
      if known != Some(u) { identity := Some(u); }
    }

    /** A create or restore: from whatever its checkpoints say, it completes, with a token file that works for the
        recorded bot; a symlink in the file's place fails it. */
    method ProcessOperation(ensured: User, ghost w: World) returns (refused: bool, ghost steps: seq<Step>)
      requires w == At(w.local, Idle) && Inv(w, false) && op.kind.Provision? && op.state.Running? && ensured <= nextUser
      modifies this
      ensures Undisturbed(steps) && Run(w, steps) == At(old(op), Idle)
      ensures refused <==> old(file).Symlink? && !old(op).tokenRef
      ensures op.state == (if refused then Failed else Done) && op.bot.Some? && identity == op.bot
      ensures old(op).bot.Some? ==> op.bot == old(op).bot
      ensures !refused ==> Works(At(old(op), Idle), op.bot.value)
    {
      var checkpoints := op;
      var u;
      u, steps := ResolveBot(ensured, w);
      RunKeepsInv(w, steps, false);
      ghost var v := At(checkpoints, Identified(opId, u));
      CompletedRun(w, steps, v, opId, u);
      refused := false;
      if checkpoints.tokenRef {
        steps := steps + [CheckFile, CompleteProvision];
      } else {
        ghost var more;
        refused, more := EnsureBotToken(u, opId, checkpoints);
        if refused {
          op := op.(state := Failed);
          return true, steps + [CheckFile];
        }
        FinishedRun(w, steps, v, more, At(checkpoints, TokenReady(opId, u)), opId, u);
        steps := steps + more + [CheckpointToken, CompleteProvision];
        op := op.(tokenRef := true);
      }
      op := op.(state := Done);
    }

    /** The recorded bot, or the recovered one, which is then recorded; without either there is nothing to do. */
    method FindBot(recovered: Option<User>, ghost w: World) returns (ghost steps: seq<Step>)
      requires w == At(w.local, Idle) && op.kind.Retire? && op.state.Running?
      requires recovered.Some? ==> recovered.value < nextUser
      modifies this`identity, this`op
      ensures Undisturbed(steps) && identity == if old(identity).Some? then old(identity) else recovered
      ensures op == if identity.Some? then old(op) else old(op).(state := Done)
      ensures Run(w, steps) == At(old(op), if identity.Some? then Retiring(opId, identity.value) else Idle)
    {
      BeginRun(w);
      steps := [Begin];
      if identity.Some? { return; }
      if recovered.None? {
        NothingRun(DoBegin(w), opId);
        RunConcat(w, steps, [RecoverNothing]);
        steps := steps + [RecoverNothing];
        op := op.(state := Done);
      } else {
        RecoverRun(DoBegin(w), opId, recovered.value);
        RunConcat(w, steps, [Recover(recovered.value)]);
        steps := steps + [Recover(recovered.value)];
        identity := recovered;
      }
    }

    /** A retirement: its bot, recorded or recovered, ends without tokens and disabled, and the operation completes. */
    method ProcessRetire(recovered: Option<User>, ghost w: World) returns (ghost steps: seq<Step>)
      requires w == At(w.local, Idle) && Inv(w, false) && op.kind.Retire? && op.state.Running?
      requires recovered.Some? ==> recovered.value < nextUser
      modifies this
      ensures Undisturbed(steps) && Run(w, steps) == At(old(op), Idle) && op.state.Done?
      ensures identity == if old(identity).Some? then old(identity) else recovered
      ensures identity.Some? ==> identity.value !in enabled && NoTokens(At(old(op), Idle), identity.value)
    {
      var checkpoints := op;
      steps := FindBot(recovered, w);
      if identity.None? { return; }
      ghost var x := At(checkpoints, Retiring(opId, identity.value));
      ghost var first := PowerDown(identity.value, checkpoints);
      ghost var y := At(checkpoints, Powerless(opId, identity.value));
      ghost var second := Disable(identity.value, checkpoints);
      ghost var z := At(checkpoints, Retired(opId, identity.value));
      RetiredRun(w, steps, x, first, y, second, z, opId, identity.value);
      steps := steps + first + second + [CompleteRetire];
      op := op.(state := Done);
    }

    method PowerDown(u: User, checkpoints: Op) returns (ghost steps: seq<Step>)
      requires op == checkpoints && op.state.Running?
      requires checkpoints.tokensRevoked ==> NoTokens(At(checkpoints, Idle), u)
      modifies this`tokens, this`op
      ensures Undisturbed(steps)
      ensures Run(old(At(checkpoints, Retiring(opId, u))), steps) == At(checkpoints, Powerless(opId, u))
      ensures op == checkpoints.(tokensRevoked := true) && NoTokens(At(checkpoints, Idle), u)
    {
      ghost var w := At(checkpoints, Retiring(opId, u));
      if checkpoints.tokensRevoked {
        DecideRun(w, opId, u);
        steps := [DecideRevocation];
      } else {
        var gaveUp;
        ghost var more;
        gaveUp, more := RevokeAllTokens(u, checkpoints, Revoking(opId, u));
        RevokedRun(w, opId, u, more, At(checkpoints, Revoking(opId, u)));
        steps := [DecideRevocation] + more + [RevokeDone, CheckpointRevoked];
        op := op.(tokensRevoked := true);
      }
    }

    method Disable(u: User, ghost local: Op) returns (ghost steps: seq<Step>)
      requires op == local.(tokensRevoked := true) && op.state.Running? && (op.botDisabled ==> u !in enabled)
      modifies this`enabled, this`op
      ensures Undisturbed(steps)
      ensures Run(old(At(local, Powerless(opId, u))), steps) == At(local, Retired(opId, u))
      ensures op == old(op).(botDisabled := true) && u !in enabled
    {
      if op.botDisabled {
        StillDisabledRun(At(local, Powerless(opId, u)), opId, u);
        return [DisableBot];
      }
      DisabledRun(At(local, Powerless(opId, u)), opId, u);
      steps := [DisableBot, CheckpointDisabled];
      enabled := enabled - {u};
      op := op.(botDisabled := true);
    }
  }
}
