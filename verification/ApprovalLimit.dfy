/** Whether a draft within its own limit of characters fits one post. */
module ApprovalLimit {
  import opened Wrappers
  import opened CodeUnits
  import opened TextLines
  import opened Fences
  import opened ApprovalCard
  import ToolPatterns
  import CanonicalJson

  /** The card as first tried: the full summary and no preview. */
  function FullCard(w: Wording, c: Card): Text { CardText(w, c, Some(c.summary), None) }

  predicate Fits(w: Wording, c: Card) { |FullCard(w, c)| <= MATTERMOST_POST_MAX }

  /** Characters of the card that are neither in its blocks nor its action type or expiry. */
  function Overhead(w: Wording, c: Card): nat {
    |w.risk| + |c.riskLevel| + |w.expires| + |w.agent| + |c.agentId| + |w.asks| + |w.asked|
    + |w.summary| + |w.params| + 5
    + (if MixedNames(c.params) == [] then 0 else |WarningLine(w, MixedNames(c.params))| + 1)
    + |DecideLine(w, c)| + |RequestLine(w, c)| + 2
  }

  /** A card fits exactly when its action type and expiry fit what its blocks and its other lines leave. */
  lemma FitsExactlyWhen(w: Wording, c: Card)
    ensures Fits(w, c) <==>
              |c.actionType| + |c.expiresAt|
                <= MATTERMOST_POST_MAX - ApprovalBlocksLength(c.summary, c.params) - Overhead(w, c)
  {
    CardCost(w, c);
    ClosingCost(w, c);
  }

  // ----- What the schemas allow

  predicate LowerCase(u: CodeUnit) { 0x61 <= u <= 0x7a }

  predicate NameUnit(u: CodeUnit) { LowerCase(u) || 0x30 <= u <= 0x39 || u == 0x5f }

  predicate ParamOk(p: Param) {
    0 < |p.name| <= 64 && LowerCase(p.name[0]) && (forall u <- p.name :: NameUnit(u)) && 0 < |p.value| <= 2000
  }

  predicate HexUnit(u: CodeUnit) { 0x30 <= u <= 0x39 || 0x61 <= u <= 0x66 }

  predicate IsRisk(t: Text) { t in {Units("low"), Units("medium"), Units("high"), Units("critical")} }

  /** Lower-case letters and digits, starting with a letter, with single hyphens inside. */
  predicate IsAgentId(t: Text) {
    && 2 <= |t| <= 32 && LowerCase(t[0]) && t[|t| - 1] != 0x2d
    && forall i | 0 <= i < |t| ::
         LowerCase(t[i]) || 0x30 <= t[i] <= 0x39 || (t[i] == 0x2d && i + 1 < |t| && t[i + 1] != 0x2d)
  }

  /** A character of an approval code: digits and capitals without I, L, O and U. */
  predicate CodeUnitOk(u: CodeUnit) { 0x30 <= u <= 0x39 || (0x41 <= u <= 0x5a && u !in {0x49, 0x4c, 0x4f, 0x55}) }

  /** Three groups of four, with hyphens between. */
  predicate IsCode(t: Text) {
    |t| == 14 && forall i | 0 <= i < 14 :: if i == 4 || i == 9 then t[i] == 0x2d else CodeUnitOk(t[i])
  }

  predicate IsUuid(t: Text) {
    && |t| == 36 && 0x31 <= t[14] <= 0x38 && t[19] in {0x38, 0x39, 0x61, 0x62}
    && forall i | 0 <= i < 36 :: if i == 8 || i == 13 || i == 18 || i == 23 then t[i] == 0x2d else HexUnit(t[i])
  }

  predicate IsSha256(t: Text) { |t| == 64 && forall u <- t :: HexUnit(u) }

  ghost predicate IsToolName(t: Text) { exists s: string :: Units(s) == t && ToolPatterns.IsToolName(s) }

  predicate FieldsOk(c: Card) {
    IsRisk(c.riskLevel) && IsAgentId(c.agentId) && IsCode(c.code) && IsUuid(c.id) && IsSha256(c.hash)
  }

  predicate ParamsOk(params: seq<Param>) {
    && |params| <= 32 && (forall p <- params :: ParamOk(p))
    && forall i, j | 0 <= i < j < |params| :: params[i].name != params[j].name
  }

  /** A draft the schemas accept, with the fields the controller adds. Neither the action type nor the expiry has a
      greatest length. */
  ghost predicate Draft(c: Card) {
    && FieldsOk(c) && IsToolName(c.actionType) && 0 < |c.summary| <= 2000 && ParamsOk(c.params)
    && ApprovalBlocksLength(c.summary, c.params) <= APPROVAL_TEXT_MAX
  }

  /** The lengths of the source's wording. */
  predicate SourceLengths(w: Wording) {
    && |w.listSeparator| == 2 && |w.warning| + |w.warningEnd| == 112 && |w.and| + |w.more| == 10
    && |w.risk| + |w.expires| + |w.agent| + |w.asks| + |w.asked| + |w.summary| + |w.params| == 142
    && |w.decide| + |w.deny| + |w.decided| + |w.request| + |w.hash| + |w.hashed| == 108
  }

  lemma WordingHasSourceLengths()
    ensures SourceLengths(WORDING)
  {
    assert |WARNING| == 29 && |SEPARATOR| == 2 && |AND| == 5 && |MORE| == 5 && |WARNING_END| == 83;
    assert |RISK| == 32 && |EXPIRES| == 13 && |AGENT| == 7 && |ASKS| == 15 && |ASKED| == 2;
    assert |SUMMARY| == 31 && |PARAMS| == 42;
    assert |DECIDE| == 75 && |DENY| == 11 && |DECIDED| == 2 && |REQUEST| == 9 && |HASH| == 10 && |HASHED| == 1;
  }

  // ----- The most the other lines take

  const MAX_OVERHEAD: nat := 888

  lemma {:induction false} ListedLength(w: Wording, names: seq<Text>)
    requires |w.listSeparator| == 2 && names != [] && forall n <- names :: |n| <= 64
    ensures |Listed(w, names)| <= 68 * |names| - 2
    ensures (forall n <- names :: |n| == 64) ==> |Listed(w, names)| == 68 * |names| - 2
  {
    assert names[0] in names;
    if |names| > 1 { ListedLength(w, names[1..]); }
  }

  lemma {:induction false} MixedNamesLength(params: seq<Param>)
    requires forall p <- params :: |p.name| <= 64
    ensures |MixedNames(params)| <= |params| && forall n <- MixedNames(params) :: |n| <= 64
    ensures (forall p <- params :: p.mixed && |p.name| == 64) ==>
              |MixedNames(params)| == |params| && forall n <- MixedNames(params) :: |n| == 64
  {
    if params != [] { MixedNamesLength(params[1..]); }
  }

  lemma DigitsLength(n: nat)
    requires 0 < n <= 27
    ensures |CanonicalJson.Digits(n)| <= 2 && (n == 27 ==> |CanonicalJson.Digits(n)| == 2)
  {
    assert n >= 10 ==> n / 10 < 10;
  }

  lemma WarningLength(w: Wording, names: seq<Text>)
    requires SourceLengths(w) && 0 < |names| <= 32 && forall n <- names :: |n| <= 64
    ensures |WarningLine(w, names)| <= 462
    ensures |names| == 32 && (forall n <- names :: |n| == 64) ==> |WarningLine(w, names)| == 462
  {
    ListedLength(w, FirstFew(names));
    if |names| > MAX_FLAGGED { DigitsLength(|names| - MAX_FLAGGED); }
  }

  lemma OverheadBound(w: Wording, c: Card)
    requires SourceLengths(w) && Draft(c)
    ensures Overhead(w, c) <= MAX_OVERHEAD
  {
    MixedNamesLength(c.params);
    if MixedNames(c.params) != [] { WarningLength(w, MixedNames(c.params)); }
  }

  /** A draft within the limit on its blocks fits as long as action type and expiry take at most 495 characters. */
  lemma DraftFits(w: Wording, c: Card)
    requires SourceLengths(w) && Draft(c) && |c.actionType| + |c.expiresAt| <= 495
    ensures Fits(w, c)
  {
    OverheadBound(w, c);
    FitsExactlyWhen(w, c);
  }

  // ----- The draft that takes the most

  function Letters(n: nat): Text { seq(n, _ => 0x61) }

  /** Names of 64 characters that differ in the last. */
  function WideName(i: nat): Text
    requires i < 32
  {
    Letters(63) + [if i < 26 then 0x61 + i else 0x30 + (i - 26)]
  }

  /** A value of Latin letters with a Cyrillic one in front. */
  function WideValue(): Text { [0x430] + Letters(337) }

  function WideParams(): seq<Param> { seq(32, i requires 0 <= i < 32 => Param(WideName(i), WideValue(), true)) }

  function SomeCode(): Text { seq(14, i => if i == 4 || i == 9 then 0x2d else 0x30) }

  function SomeUuid(): Text {
    seq(36, i => if i == 8 || i == 13 || i == 18 || i == 23 then 0x2d
                 else if i == 14 then 0x34 else if i == 19 then 0x38 else 0x61)
  }

  function WideCard(actionType: Text, expiresAt: Text): Card {
    Card(Units("critical"), expiresAt, Letters(32), actionType, Letters(1993), WideParams(),
         SomeCode(), SomeUuid(), Letters(64))
  }

  lemma {:induction false} NoTicks(t: Text)
    requires BACKTICK !in t
    ensures Runs(t) == [] && FenceLength(t) == 3
  {
    if t != [] {
      assert t[0] in t;
      NoTicks(t[1..]);
    }
  }

  lemma {:induction false} JoinNoTicks(parts: seq<Text>)
    requires forall p <- parts :: BACKTICK !in p
    ensures BACKTICK !in Join(parts)
  {
    if |parts| > 1 { JoinNoTicks(parts[1..]); }
  }

  lemma {:induction false} EvenCost(texts: seq<Text>)
    requires forall t <- texts :: |t| == 405
    ensures Cost(texts) == 406 * |texts|
  {
    if texts != [] {
      assert texts[0] in texts;
      EvenCost(texts[1..]);
    }
  }

  lemma WideLines()
    ensures |ParamLines(WideParams())| == 32
    ensures forall t <- ParamLines(WideParams()) :: |t| == 405 && BACKTICK !in t
  {
    var lines := ParamLines(WideParams());
    forall i | 0 <= i < 32 ensures |lines[i]| == 405 && BACKTICK !in lines[i] {
      assert lines[i] == WideName(i) + EQUALS + WideValue();
    }
  }

  /** Its blocks take the whole limit. */
  lemma WideBlocks()
    ensures ApprovalBlocksLength(Letters(1993), WideParams()) == APPROVAL_TEXT_MAX
  {
    var lines := ParamLines(WideParams());
    WideLines();
    EvenCost(lines);
    JoinLength(lines);
    JoinNoTicks(lines);
    NoTicks(Join(lines));
    NoTicks(Letters(1993));
  }

  lemma WideParamsOk()
    ensures forall p <- WideParams() :: ParamOk(p) && p.mixed && |p.name| == 64
    ensures ParamsOk(WideParams())
  {
    forall i, j | 0 <= i < j < 32 ensures WideName(i) != WideName(j) { assert WideName(i)[63] != WideName(j)[63]; }
  }

  lemma WideIsDraft(actionType: Text, expiresAt: Text)
    requires IsToolName(actionType)
    ensures Draft(WideCard(actionType, expiresAt))
  {
    WideFieldsOk(actionType, expiresAt);
    WideParamsOk();
    WideBlocks();
  }

  lemma WideFieldsOk(actionType: Text, expiresAt: Text)
    ensures FieldsOk(WideCard(actionType, expiresAt))
  {
    assert IsAgentId(Letters(32)) && IsSha256(Letters(64));
    assert IsCode(SomeCode());
    assert IsUuid(SomeUuid());
  }

  lemma WideOverhead(w: Wording, actionType: Text, expiresAt: Text)
    requires SourceLengths(w)
    ensures Overhead(w, WideCard(actionType, expiresAt)) == MAX_OVERHEAD
  {
    WideParamsOk();
    MixedNamesLength(WideParams());
    WarningLength(w, MixedNames(WideParams()));
  }

  /** A draft within the limit that fits exactly up to 495 characters of action type and expiry. */
  lemma WideFitsExactlyWhen(w: Wording, actionType: Text, expiresAt: Text)
    requires SourceLengths(w) && IsToolName(actionType)
    ensures Draft(WideCard(actionType, expiresAt))
    ensures Fits(w, WideCard(actionType, expiresAt)) <==> |actionType| + |expiresAt| <= 495
  {
    WideIsDraft(actionType, expiresAt);
    WideBlocks();
    WideOverhead(w, actionType, expiresAt);
    FitsExactlyWhen(w, WideCard(actionType, expiresAt));
  }

  // ----- The threshold

  const EXPIRY := "2026-01-01T00:00:00.000Z"

  /** A tool name of any length from three on. */
  lemma LongToolName(n: nat) returns (t: Text)
    requires n >= 3
    ensures IsToolName(t) && |t| == n
  {
    var action: string := seq(n - 2, _ => 'b');
    var s := "a" + "." + action;
    ToolPatterns.TwoSegments("a", action);
    t := Units(s);
    assert ToolPatterns.IsToolName(s);
  }

  ghost predicate AllFit(w: Wording, n: nat) {
    forall c | Draft(c) && |c.actionType| + |c.expiresAt| == n :: Fits(w, c)
  }

  /** The limit on the blocks makes every card fit exactly up to 495 characters of action type and expiry together. */
  lemma ThresholdIsExact(w: Wording, n: nat)
    requires SourceLengths(w)
    ensures AllFit(w, n) <==> n <= 495
  {
    if n <= 495 {
      forall c | Draft(c) && |c.actionType| + |c.expiresAt| == n ensures Fits(w, c) { DraftFits(w, c); }
    } else {
      var actionType := LongToolName(n - |EXPIRY|);
      WideFitsExactlyWhen(w, actionType, Units(EXPIRY));
    }
  }
}
