/** Setting and rotating the Mattermost admin token: create, verify, write, revoke, with a crash possible
    between any two steps and the next run picking up from whatever was left. */
module AdminToken {
  import opened Wrappers

  type Account = nat
  type TokenId = nat

  /** A personal access token on the server; `tagged` when it carries the Gateway's own description. */
  datatype Token = Token(account: Account, tagged: bool)

  /** What an operator may paste: a personal access token, or a login session of an account, which also
      authenticates but is never listed among the account's tokens. */
  datatype Credential = Personal(id: TokenId) | Session(account: Account)

  datatype Pc =
    | Idle
    | SetListed(pasted: Credential, account: Account, before: set<TokenId>)
    | SetCreated(pasted: Credential, account: Account, before: set<TokenId>, created: TokenId)
    | SetVerified(pasted: Credential, account: Account, before: set<TokenId>, created: TokenId)
    | SetWritten(pasted: Credential, account: Account, before: set<TokenId>, created: TokenId)
    | RotateBegun(account: Account)
    | RotateCreated(account: Account, created: TokenId)
    | RotateVerified(account: Account, created: TokenId)
    | RotateListing(account: Account, created: TokenId, round: nat)
    | RotateRevoking(account: Account, created: TokenId, round: nat, todo: set<TokenId>)

  /** `file`: the token in the secret file. */
  datatype State = State(tokens: map<TokenId, Token>, next: TokenId, file: Option<TokenId>, pc: Pc)

  datatype Step =
    | BeginSet(pasted: Credential)
    | BeginRotate
    | Create
    | Verify(same: bool)
    | Write
    | RevokePasted
    | List
    | RevokeOne(id: TokenId)
    | Crash
    | OperatorMints(account: Account)

  const MAX_ROUNDS := 1000

  /** The tokens an account lists. */
  function Listing(tokens: map<TokenId, Token>, a: Account): set<TokenId> {
    set id <- tokens | tokens[id].account == a
  }

  /** The Gateway's own tokens on an account. */
  function TaggedOf(s: State, a: Account): set<TokenId> {
    set id <- s.tokens | s.tokens[id].account == a && s.tokens[id].tagged
  }

  /** The account a credential authenticates as, if any. */
  function OwnerOf(tokens: map<TokenId, Token>, c: Credential): Option<Account> {
    match c
    case Personal(id) => if id in tokens then Some(tokens[id].account) else None
    case Session(a) => Some(a)
  }

  function Revoke(s: State, id: TokenId): State { s.(tokens := s.tokens - {id}) }

  function Minted(s: State, a: Account): State {
    s.(tokens := s.tokens[s.next := Token(a, true)], next := s.next + 1)
  }

  /** A single token listed before is taken for the pasted one and revoked; otherwise all are left alone. */
  function DoRevokePasted(s: State, before: set<TokenId>): State {
    s.(tokens := if |before| == 1 then s.tokens - before else s.tokens, pc := Idle)
  }

  function DoList(s: State, account: Account, created: TokenId, round: nat): State {
    var remaining := TaggedOf(s, account) - {created};
    if round >= MAX_ROUNDS || remaining == {} then s.(pc := Idle)
    else s.(pc := RotateRevoking(account, created, round, remaining))
  }

  /** One step; a step that is not enabled changes nothing. The admin-token lock keeps to one run at a time. */
  function Apply(s: State, step: Step): State {
    match (step, s.pc)
    case (Crash, _) => s.(pc := Idle)
    case (OperatorMints(a), _) => s.(tokens := s.tokens[s.next := Token(a, false)], next := s.next + 1)
    case (BeginSet(pasted), Idle) =>
      var owner := OwnerOf(s.tokens, pasted);
      if owner.Some? then s.(pc := SetListed(pasted, owner.value, Listing(s.tokens, owner.value))) else s
    case (BeginRotate, Idle) =>
      if s.file.Some? && s.file.value in s.tokens then s.(pc := RotateBegun(s.tokens[s.file.value].account)) else s
    case (Create, SetListed(pasted, account, before)) =>
      Minted(s, account).(pc := SetCreated(pasted, account, before, s.next))
    case (Create, RotateBegun(account)) => Minted(s, account).(pc := RotateCreated(account, s.next))
    case (Verify(same), SetCreated(pasted, account, before, created)) =>
      if same then s.(pc := SetVerified(pasted, account, before, created)) else Revoke(s, created).(pc := Idle)
    case (Verify(same), RotateCreated(account, created)) =>
      if same then s.(pc := RotateVerified(account, created)) else Revoke(s, created).(pc := Idle)
    case (Write, SetVerified(pasted, account, before, created)) =>
      s.(file := Some(created), pc := SetWritten(pasted, account, before, created))
    case (Write, RotateVerified(account, created)) =>
      s.(file := Some(created), pc := RotateListing(account, created, 0))
    case (RevokePasted, SetWritten(pasted, account, before, created)) => DoRevokePasted(s, before)
    case (List, RotateListing(account, created, round)) => DoList(s, account, created, round)
    case (RevokeOne(id), RotateRevoking(account, created, round, todo)) =>
      if id !in todo then s
      else if todo == {id} then Revoke(s, id).(pc := RotateListing(account, created, round + 1))
      else Revoke(s, id).(pc := RotateRevoking(account, created, round, todo - {id}))
    case _ => s
  }

  function Run(s: State, steps: seq<Step>): State {
    if steps == [] then s else Apply(Run(s, steps[..|steps| - 1]), steps[|steps| - 1])
  }

  /** No token has been written yet; the server may hold any tokens. */
  ghost predicate Fresh(s: State) {
    s.file.None? && s.pc.Idle? && forall id <- s.tokens :: id < s.next
  }

  // ----- The invariant

  ghost predicate Own(s: State, account: Account, id: TokenId) {
    id in s.tokens && s.tokens[id] == Token(account, true)
  }

  ghost predicate SetOk(s: State) {
    && (s.pc.SetListed? || s.pc.SetCreated? || s.pc.SetVerified? || s.pc.SetWritten? ==>
          && (forall id <- s.pc.before :: id < s.next)
          && (s.pc.pasted.Personal? ==> s.pc.pasted.id in s.pc.before))
    && (s.pc.SetCreated? || s.pc.SetVerified? || s.pc.SetWritten? ==>
          s.pc.created !in s.pc.before && Own(s, s.pc.account, s.pc.created))
    && (s.pc.SetCreated? || s.pc.SetVerified? ==> s.file != Some(s.pc.created))
    && (s.pc.SetWritten? ==> s.file == Some(s.pc.created))
  }

  ghost predicate RotateOk(s: State) {
    && (s.pc.RotateCreated? || s.pc.RotateVerified? || s.pc.RotateListing? || s.pc.RotateRevoking? ==>
          Own(s, s.pc.account, s.pc.created))
    && (s.pc.RotateCreated? || s.pc.RotateVerified? ==> s.file != Some(s.pc.created))
    && (s.pc.RotateListing? || s.pc.RotateRevoking? ==> s.file == Some(s.pc.created))
    && (s.pc.RotateListing? ==> s.pc.round <= 1 && (s.pc.round == 1 ==> TaggedOf(s, s.pc.account) == {s.pc.created}))
    && (s.pc.RotateRevoking? ==> s.pc.round == 0 && s.pc.todo == TaggedOf(s, s.pc.account) - {s.pc.created})
  }

  ghost predicate Inv(s: State) {
    && (forall id <- s.tokens :: id < s.next)
    && (s.file.Some? ==> s.file.value in s.tokens && s.tokens[s.file.value].tagged)
    && SetOk(s) && RotateOk(s)
  }

  lemma OneElement(s: set<TokenId>, x: TokenId)
    requires |s| == 1 && x in s
    ensures s == {x}
  {
    assert |s - {x}| == 0;
  }

  lemma SetSteps(s: State, step: Step)
    requires Inv(s) && (s.pc.SetListed? || s.pc.SetCreated? || s.pc.SetVerified? || s.pc.SetWritten?)
    ensures Inv(Apply(s, step))
  {
  }

  lemma RotateSteps(s: State, step: Step)
    requires Inv(s) && !(s.pc.SetListed? || s.pc.SetCreated? || s.pc.SetVerified? || s.pc.SetWritten?)
    ensures Inv(Apply(s, step))
  {
    var t := Apply(s, step);
    if step.RevokeOne? && s.pc.RotateRevoking? && step.id in s.pc.todo {
      assert TaggedOf(t, s.pc.account) == TaggedOf(s, s.pc.account) - {step.id};
    }
    if step.OperatorMints? && (s.pc.RotateListing? || s.pc.RotateRevoking?) {
      assert TaggedOf(t, s.pc.account) == TaggedOf(s, s.pc.account);
    }
  }

  lemma {:induction false} RunKeepsInv(s: State, steps: seq<Step>)
    requires Fresh(s)
    ensures Inv(Run(s, steps))
  {
    if steps != [] {
      var t := Run(s, steps[..|steps| - 1]);
      RunKeepsInv(s, steps[..|steps| - 1]);
      if t.pc.SetListed? || t.pc.SetCreated? || t.pc.SetVerified? || t.pc.SetWritten? {
        SetSteps(t, steps[|steps| - 1]);
      } else {
        RotateSteps(t, steps[|steps| - 1]);
      }
    }
  }

  // ----- What holds at every crash point

  /** From the first write on, at every moment of any sequence of runs, the file holds a token of the Gateway's own
      that the server still accepts. */
  lemma {:induction false} FileStaysAccepted(s: State, steps: seq<Step>, k: nat)
    requires Fresh(s) && k <= |steps| && Run(s, steps[..k]).file.Some?
    ensures var t := Run(s, steps); t.file.Some? && t.file.value in t.tokens && t.tokens[t.file.value].tagged
    decreases |steps|
  {
    RunKeepsInv(s, steps);
    if k < |steps| {
      var n := |steps| - 1;
      assert steps[..n][..k] == steps[..k];
      FileStaysAccepted(s, steps[..n], k);
    } else {
      assert steps[..k] == steps;
    }
  }

  /** A rotation never gives up, and one that finishes leaves exactly one tagged token on its account: the one
      in the file. */
  lemma FinishedRotateLeavesOne(s: State, steps: seq<Step>)
    requires Fresh(s) && Run(s, steps).pc.RotateListing?
    ensures var t := Run(s, steps); var u := Apply(t, List);
            && t.pc.round < MAX_ROUNDS
            && (u.pc.Idle? ==> TaggedOf(u, t.pc.account) == {t.pc.created} && u.file == Some(t.pc.created))
            && (!u.pc.Idle? ==> t.pc.round == 0)
  {
    RunKeepsInv(s, steps);
    var t := Run(s, steps);
    assert t.pc.created in TaggedOf(t, t.pc.account);
    assert TaggedOf(t, t.pc.account) - {t.pc.created} == {} ==> TaggedOf(t, t.pc.account) == {t.pc.created};
  }

  /** A `set` run in progress works with a personal access token. */
  predicate PastedPersonal(pc: Pc) {
    pc.SetListed? || pc.SetCreated? || pc.SetVerified? || pc.SetWritten? ==> pc.pasted.Personal?
  }

  lemma {:induction false} RunPastedPersonal(s: State, steps: seq<Step>)
    requires Fresh(s) && forall step <- steps | step.BeginSet? :: step.pasted.Personal?
    ensures PastedPersonal(Run(s, steps).pc)
  {
    if steps != [] { RunPastedPersonal(s, steps[..|steps| - 1]); }
  }

  /** At every moment of any sequence of runs: a token that is not the Gateway's own is revoked exactly when a `set`
      run has written its new token and found this one alone on the account before. No rotation and no failed
      verification ever touches one. */
  lemma UntaggedLeavesExactlyWhen(s: State, steps: seq<Step>, step: Step, id: TokenId)
    requires Fresh(s) && id in Run(s, steps).tokens && !Run(s, steps).tokens[id].tagged
    ensures var t := Run(s, steps);
            id !in Apply(t, step).tokens <==> step.RevokePasted? && t.pc.SetWritten? && t.pc.before == {id}
  {
    RunKeepsInv(s, steps);
    var t := Run(s, steps);
    if step.RevokePasted? && t.pc.SetWritten? && |t.pc.before| == 1 && id in t.pc.before {
      OneElement(t.pc.before, id);
    }
  }

  /** While every pasted credential is a personal access token, no untagged token but the pasted one is revoked. */
  lemma OnlyThePastedIsRevoked(s: State, steps: seq<Step>, step: Step, id: TokenId)
    requires Fresh(s) && forall step <- steps | step.BeginSet? :: step.pasted.Personal?
    requires id in Run(s, steps).tokens && !Run(s, steps).tokens[id].tagged && id !in Apply(Run(s, steps), step).tokens
    ensures Run(s, steps).pc.SetWritten? && Run(s, steps).pc.pasted == Personal(id)
  {
    UntaggedLeavesExactlyWhen(s, steps, step, id);
    RunPastedPersonal(s, steps);
    RunKeepsInv(s, steps);
  }

  /** Exactly when a `set` run revokes a token nobody pasted: the operator entered a login session instead of a
      personal access token, and the account held a single, untagged token. */
  lemma StrayExactlyWhen(s: State, steps: seq<Step>)
    requires Fresh(s) && Run(s, steps).pc.SetWritten?
    ensures var t := Run(s, steps); var u := Apply(t, RevokePasted);
            (exists id <- t.tokens :: id !in u.tokens && !t.tokens[id].tagged && t.pc.pasted != Personal(id))
              <==> t.pc.pasted.Session? && |t.pc.before| == 1
                   && exists id <- t.pc.before :: id in t.tokens && !t.tokens[id].tagged
  {
    RunKeepsInv(s, steps);
    var t := Run(s, steps);
    if |t.pc.before| == 1 && t.pc.pasted.Personal? { OneElement(t.pc.before, t.pc.pasted.id); }
  }

  lemma RunSnoc(s: State, steps: seq<Step>, step: Step)
    ensures Run(s, steps + [step]) == Apply(Run(s, steps), step)
  {
    assert (steps + [step])[..|steps|] == steps;
  }

  /** An account whose only token is somebody's own. */
  const STRANGER := State(map[7 := Token(1, false)], 8, None, Idle)

  lemma SessionReachesTheFile()
    ensures var t := Run(STRANGER, [BeginSet(Session(1)), Create, Verify(true), Write]);
            t.pc == SetWritten(Session(1), 1, {7}, 8) && t.tokens == map[7 := Token(1, false), 8 := Token(1, true)]
  {
    var s := STRANGER;
    assert Listing(s.tokens, 1) == {7};
    RunSnoc(s, [], BeginSet(Session(1)));
    RunSnoc(s, [BeginSet(Session(1))], Create);
    RunSnoc(s, [BeginSet(Session(1)), Create], Verify(true));
    RunSnoc(s, [BeginSet(Session(1)), Create, Verify(true)], Write);
    assert [] + [BeginSet(Session(1))] == [BeginSet(Session(1))];
    assert [BeginSet(Session(1))] + [Create] == [BeginSet(Session(1)), Create];
    assert [BeginSet(Session(1)), Create] + [Verify(true)] == [BeginSet(Session(1)), Create, Verify(true)];
    assert [BeginSet(Session(1)), Create, Verify(true)] + [Write]
        == [BeginSet(Session(1)), Create, Verify(true), Write];
  }

  /** It does happen: a session of that account revokes the stranger's token. */
  lemma SessionRevokesAStranger()
    ensures Fresh(STRANGER)
    ensures var t := Run(STRANGER, [BeginSet(Session(1)), Create, Verify(true), Write] + [RevokePasted]);
            7 in STRANGER.tokens && !STRANGER.tokens[7].tagged && 7 !in t.tokens
  {
    SessionReachesTheFile();
    RunSnoc(STRANGER, [BeginSet(Session(1)), Create, Verify(true), Write], RevokePasted);
    assert 7 in {7} && |{7 as TokenId}| == 1;
  }

  // ----- The runs as the source writes them

  lemma RunTwo(s: State, a: Step, b: Step)
    ensures Run(s, [a]) == Apply(s, a)
    ensures Run(s, [a, b]) == Apply(Apply(s, a), b)
  {
    assert [a][..0] == [] && [a, b][..1] == [a];
  }

  lemma RunThree(s: State, a: Step, b: Step, c: Step)
    ensures Run(s, [a, b, c]) == Apply(Apply(Apply(s, a), b), c)
  {
    RunTwo(s, a, b);
    assert [a, b, c][..2] == [a, b];
  }

  lemma RotateRefusedRun(s: State)
    requires s.pc.Idle? && s.file.Some? && s.file.value in s.tokens && s.next !in s.tokens
    ensures Run(s, [BeginRotate, Create, Verify(false)]) == s.(next := s.next + 1)
  {
    var account := s.tokens[s.file.value].account;
    RunThree(s, BeginRotate, Create, Verify(false));
    assert s.tokens[s.next := Token(account, true)] - {s.next} == s.tokens;
  }

  /** A `rotate` up to the written file. */
  lemma RotateRun(s: State)
    requires s.pc.Idle? && s.file.Some? && s.file.value in s.tokens
    ensures var account := s.tokens[s.file.value].account;
            Run(s, [BeginRotate, Create, Verify(true)] + [Write])
            == s.(tokens := s.tokens[s.next := Token(account, true)], next := s.next + 1, file := Some(s.next),
                  pc := RotateListing(account, s.next, 0))
  {
    RunThree(s, BeginRotate, Create, Verify(true));
    RunSnoc(s, [BeginRotate, Create, Verify(true)], Write);
  }

  lemma SetRefusedRun(s: State, entered: Credential)
    requires s.pc.Idle? && OwnerOf(s.tokens, entered).Some? && s.next !in s.tokens
    ensures Run(s, [BeginSet(entered), Create, Verify(false)]) == s.(next := s.next + 1)
  {
    var account := OwnerOf(s.tokens, entered).value;
    RunThree(s, BeginSet(entered), Create, Verify(false));
    assert s.tokens[s.next := Token(account, true)] - {s.next} == s.tokens;
  }

  lemma SetWrittenRun(s: State, entered: Credential)
    requires s.pc.Idle? && OwnerOf(s.tokens, entered).Some?
    ensures var account := OwnerOf(s.tokens, entered).value;
            Run(s, [BeginSet(entered), Create, Verify(true)] + [Write])
            == s.(tokens := s.tokens[s.next := Token(account, true)], next := s.next + 1, file := Some(s.next),
                  pc := SetWritten(entered, account, Listing(s.tokens, account), s.next))
  {
    var account := OwnerOf(s.tokens, entered).value;
    var before := Listing(s.tokens, account);
    var listed := s.(pc := SetListed(entered, account, before));
    var created := Minted(s, account).(pc := SetCreated(entered, account, before, s.next));
    assert Apply(s, BeginSet(entered)) == listed && Apply(listed, Create) == created;
    RunThree(s, BeginSet(entered), Create, Verify(true));
    RunSnoc(s, [BeginSet(entered), Create, Verify(true)], Write);
  }

  /** A `set` to its end. */
  lemma SetRun(s: State, entered: Credential)
    requires s.pc.Idle? && OwnerOf(s.tokens, entered).Some?
    ensures var account := OwnerOf(s.tokens, entered).value; var before := Listing(s.tokens, account);
            Run(s, [BeginSet(entered), Create, Verify(true)] + [Write] + [RevokePasted])
            == s.(tokens := if |before| == 1 then s.tokens[s.next := Token(account, true)] - before
                            else s.tokens[s.next := Token(account, true)],
                  next := s.next + 1, file := Some(s.next))
  {
    SetWrittenRun(s, entered);
    RunSnoc(s, [BeginSet(entered), Create, Verify(true)] + [Write], RevokePasted);
  }

  /** One listing of a rotation: finished, or the stray tokens to revoke. */
  lemma ListRun(s: State, steps: seq<Step>, account: Account, created: TokenId, round: nat, remaining: set<TokenId>)
    requires round < MAX_ROUNDS && Run(s, steps).pc == RotateListing(account, created, round)
    requires remaining == TaggedOf(Run(s, steps), account) - {created}
    ensures Run(s, steps + [List]) == Run(s, steps).(
              pc := if remaining == {} then Idle else RotateRevoking(account, created, round, remaining))
  {
    RunSnoc(s, steps, List);
  }

  /** Where the rotation stands with `remaining` still to revoke. */
  function Revoking(account: Account, created: TokenId, round: nat, remaining: set<TokenId>): Pc {
    if remaining == {} then RotateListing(account, created, round + 1)
    else RotateRevoking(account, created, round, remaining)
  }

  lemma RevokeRun(s: State, steps: seq<Step>, account: Account, created: TokenId, round: nat, remaining: set<TokenId>,
                  id: TokenId)
    requires id in remaining && Run(s, steps).pc == Revoking(account, created, round, remaining)
    ensures var t := Run(s, steps);
            Run(s, steps + [RevokeOne(id)]) ==
            t.(tokens := t.tokens - {id}, pc := Revoking(account, created, round, remaining - {id}))
  {
    RunSnoc(s, steps, RevokeOne(id));
    assert remaining == {id} <==> remaining - {id} == {};
  }

  /** Nothing happened in between. */
  ghost predicate Undisturbed(steps: seq<Step>) { forall step <- steps :: !step.Crash? && !step.OperatorMints? }

  lemma WithoutOneMore(m: map<TokenId, Token>, listed: set<TokenId>, remaining: set<TokenId>, id: TokenId)
    requires id in remaining && remaining <= listed
    ensures m - (listed - remaining) - {id} == m - (listed - (remaining - {id}))
  {
  }

  /** The account's tokens on the server and the secret file, changed in place. */
  class Server {
    var tokens: map<TokenId, Token>
    var next: TokenId
    var file: Option<TokenId>

    ghost predicate Valid()
      reads this
    {
      forall id <- tokens :: id < next
    }

    ghost function At(pc: Pc): State
      reads this
    {
      State(tokens, next, file, pc)
    }

    method CreateToken(account: Account) returns (id: TokenId)
      requires Valid()
      modifies this
      ensures Valid() && id == old(next) && id !in old(tokens)
      ensures tokens == old(tokens)[id := Token(account, true)] && file == old(file) && next == old(next) + 1
    {
      id := next;
      tokens := tokens[id := Token(account, true)];
      next := next + 1;
    }

    /** Revokes the listed tokens one by one. */
    method RevokeEach(account: Account, created: TokenId, round: nat, listed: set<TokenId>,
                      ghost s: State, ghost before: seq<Step>)
        returns (ghost steps: seq<Step>)
      requires Valid() && Run(s, before) == At(Revoking(account, created, round, listed)) && Undisturbed(before)
      modifies this`tokens
      ensures Valid() && tokens == old(tokens) - listed
      ensures Run(s, steps) == At(RotateListing(account, created, round + 1)) && Undisturbed(steps)
    {
      var remaining := listed;
      steps := before;
      while remaining != {}
        invariant Valid() && remaining <= listed && tokens == old(tokens) - (listed - remaining)
        invariant Run(s, steps) == At(Revoking(account, created, round, remaining)) && Undisturbed(steps)
        decreases |remaining|
      {
        var id :| id in remaining;
        RevokeRun(s, steps, account, created, round, remaining, id);
        WithoutOneMore(old(tokens), listed, remaining, id);
        tokens, remaining := tokens - {id}, remaining - {id};
        steps := steps + [RevokeOne(id)];
      }
    }

    /** Lists and revokes until only the created token carries the Gateway's description. */
    method RevokeOthers(account: Account, created: TokenId, ghost s: State, ghost before: seq<Step>)
        returns (failed: bool, ghost steps: seq<Step>)
      requires Valid() && created in tokens && Undisturbed(before)
      requires Run(s, before) == At(RotateListing(account, created, 0))
      modifies this`tokens
      ensures Valid() && !failed && Run(s, steps) == At(Idle) && Undisturbed(steps)
      ensures tokens == map id | id in old(tokens) && (id == created || old(tokens)[id] != Token(account, true))
                            :: old(tokens)[id]
    {
      steps := before;
      for round := 0 to MAX_ROUNDS
        invariant round <= 1 && Valid() && created in tokens
        invariant Run(s, steps) == At(RotateListing(account, created, round)) && Undisturbed(steps)
        invariant tokens == if round == 0 then old(tokens) else
                    map id | id in old(tokens) && (id == created || old(tokens)[id] != Token(account, true))
                        :: old(tokens)[id]
      {
        var remaining := set id <- tokens | id != created && tokens[id] == Token(account, true);
        assert remaining == TaggedOf(At(Idle), account) - {created};
        ListRun(s, steps, account, created, round, remaining);
        steps := steps + [List];
        if remaining == {} {
          assert forall id <- tokens | id != created && tokens[id] == Token(account, true) :: id in remaining;
          return false, steps;
        }
        steps := RevokeEach(account, created, round, remaining, s, steps);
      }
      failed := true;
    }

    /** A rotation left undisturbed is a run of the steps above: unless the minted token belongs to another account, a
        new token in the file, every other tagged one of the account gone, and nothing untagged and nobody else's
        touched. `same` is what verifying the minted token answers. */
    method Rotate(same: bool) returns (failed: bool, ghost steps: seq<Step>)
      requires Valid()
      modifies this
      ensures Valid() && Run(old(At(Idle)), steps) == At(Idle)
      ensures Undisturbed(steps)
      ensures failed <==> old(file).None? || old(file).value !in old(tokens) || !same
      ensures failed ==> tokens == old(tokens) && file == old(file)
      ensures !failed ==> file == Some(old(next))
      ensures !failed ==>
                forall id :: id in tokens <==>
                  || id == old(next)
                  || (id in old(tokens) && old(tokens)[id] != Token(old(tokens)[old(file).value].account, true))
      ensures !failed ==> forall id <- tokens | id != old(next) :: tokens[id] == old(tokens)[id]
    {
      steps := [];
      if file.None? || file.value !in tokens { return true, steps; }
      ghost var s := At(Idle);
      RotateRefusedRun(s);
      RotateRun(s);
      var account := tokens[file.value].account;
      var created := CreateToken(account);
      if !same {
        tokens := tokens - {created};
        return true, [BeginRotate, Create, Verify(false)];
      }
      file := Some(created);
      failed, steps := RevokeOthers(account, created, s, [BeginRotate, Create, Verify(true)] + [Write]);
    }

    /** A `set` left undisturbed is a run too. `entered` is what the operator typed, `admin` whether its account is a
        system administrator and no bot, `same` what verifying the minted token answers. The minted token is in the
        file; of the account's tokens nothing goes but a single one, whichever it was. */
    method SetToken(entered: Credential, admin: bool, same: bool) returns (failed: bool, ghost steps: seq<Step>)
      requires Valid()
      modifies this
      ensures Valid() && Run(old(At(Idle)), steps) == At(Idle)
      ensures Undisturbed(steps)
      ensures failed <==> OwnerOf(old(tokens), entered).None? || !admin || !same
      ensures failed ==> tokens == old(tokens) && file == old(file)
      ensures !failed ==> file == Some(old(next)) && old(next) in tokens
      ensures !failed ==> tokens[old(next)] == Token(OwnerOf(old(tokens), entered).value, true)
      ensures !failed ==>
                forall id <- old(tokens) ::
                  id !in tokens <==> Listing(old(tokens), OwnerOf(old(tokens), entered).value) == {id}
      ensures forall id <- old(tokens) | id in tokens :: tokens[id] == old(tokens)[id]
    {
      steps := [];
      var owner := OwnerOf(tokens, entered);
      if owner.None? || !admin { return true, steps; }
      SetRefusedRun(At(Idle), entered);
      SetRun(At(Idle), entered);
      var account := owner.value;
      var before := Listing(tokens, account);
      var created := CreateToken(account);
      if !same {
        tokens := tokens - {created};
        return true, [BeginSet(entered), Create, Verify(false)];
      }
      file := Some(created);
      if |before| == 1 {
        forall id | id in before ensures before == {id} { OneElement(before, id); }
        tokens := tokens - before;
      }
      failed, steps := false, [BeginSet(entered), Create, Verify(true)] + [Write] + [RevokePasted];
    }
  }
}
