/** The approval card: fixed lines around fenced blocks, shortened in its summary only until it fits one post. */
module ApprovalCard {
  import opened Wrappers
  import opened CodeUnits
  import opened TextLines
  import opened RequestPreview
  import opened Fences
  import CanonicalJson

  const MATTERMOST_POST_MAX: nat := 16383
  const APPROVAL_TEXT_MAX: nat := 15000
  const MAX_FLAGGED: nat := 5

  /** A parameter; `mixed` when its value has letters of more than one script. */
  datatype Param = Param(name: Text, value: Text, mixed: bool)

  datatype Card = Card(
    riskLevel: Text, expiresAt: Text, agentId: Text, actionType: Text, summary: Text, params: seq<Param>,
    code: Text, id: Text, hash: Text)

  /** The fixed wording around the fields. */
  datatype Wording = Wording(
    risk: Text, expires: Text, agent: Text, asks: Text, asked: Text,
    summary: Text, params: Text, preview: Text,
    warning: Text, listSeparator: Text, and: Text, more: Text, warningEnd: Text,
    decide: Text, deny: Text, decided: Text, request: Text, hash: Text, hashed: Text)

  const RISK := "**Approval " + "requested** · " + "risk **"
  const EXPIRES := "** · expires "
  const AGENT := "Agent `"
  const ASKS := "` asks to run `"
  const ASKED := "`."
  const SUMMARY := "Summary (written " + "by the agent):"
  const PARAMS := "Parameters " + "(covered by the " + "approval hash):"
  const PREVIEW := "Request preview " + "(authoritative; " + "no secret value " + "is ever shown):"
  const WARNING := ":warning: Mixed " + "alphabets in "
  const SEPARATOR := ", "
  const AND := " and "
  const MORE := " more"
  const WARNING_END :=
      ": look-alike " + "letters can hide " + "a different " + "value; check them " + "character by " + "character."
  const DECIDE := "To decide, an " + "owner replies in " + "this thread with " + "exactly one line: " + "`approve "
  const DENY := "` or `deny "
  const DECIDED := "`."
  const REQUEST := "Request `"
  const HASH := "` · hash `"
  const HASHED := "`"

  const WORDING: Wording := Wording(
    Units(RISK), Units(EXPIRES), Units(AGENT), Units(ASKS), Units(ASKED), Units(SUMMARY), Units(PARAMS), Units(PREVIEW),
    Units(WARNING), Units(SEPARATOR), Units(AND), Units(MORE), Units(WARNING_END),
    Units(DECIDE), Units(DENY), Units(DECIDED), Units(REQUEST), Units(HASH), Units(HASHED))

  // ----- Lines

  function ParamLines(params: seq<Param>): seq<Text> {
    seq(|params|, i requires 0 <= i < |params| => params[i].name + EQUALS + params[i].value)
  }

  const EQUALS: Text := [SPACE, 0x3d, SPACE]

  function MixedNames(params: seq<Param>): seq<Text> {
    if params == [] then [] else (if params[0].mixed then [params[0].name] else []) + MixedNames(params[1..])
  }

  function Listed(w: Wording, names: seq<Text>): Text {
    if names == [] then [] else
      [BACKTICK] + names[0] + [BACKTICK] + if |names| == 1 then [] else w.listSeparator + Listed(w, names[1..])
  }

  function FirstFew(names: seq<Text>): seq<Text> { if |names| <= MAX_FLAGGED then names else names[..MAX_FLAGGED] }

  function More(w: Wording, names: seq<Text>): Text {
    if |names| <= MAX_FLAGGED then [] else w.and + CanonicalJson.Digits(|names| - MAX_FLAGGED) + w.more
  }

  function WarningLine(w: Wording, names: seq<Text>): Text {
    w.warning + Listed(w, FirstFew(names)) + More(w, names) + w.warningEnd
  }

  function RiskLine(w: Wording, c: Card): Text { w.risk + c.riskLevel + w.expires + c.expiresAt }

  function AgentLine(w: Wording, c: Card): Text { w.agent + c.agentId + w.asks + c.actionType + w.asked }

  function DecideLine(w: Wording, c: Card): Text { w.decide + c.code + w.deny + c.code + w.decided }

  function RequestLine(w: Wording, c: Card): Text { w.request + c.id + w.hash + c.hash + w.hashed }

  // ----- The card

  function Opening(w: Wording, c: Card): seq<Part> { [Line(RiskLine(w, c)), Line(AgentLine(w, c))] }

  /** A titled block, or nothing. */
  function Titled(title: Text, t: Option<Text>): seq<Part> { if t.None? then [] else [Line(title), Block(t.value)] }

  function ParamParts(w: Wording, params: seq<Param>): seq<Part> { [Line(w.params), Block(Join(ParamLines(params)))] }

  function Closing(w: Wording, c: Card): seq<Part> {
    (if MixedNames(c.params) == [] then [] else [Line(WarningLine(w, MixedNames(c.params)))])
    + [Line(DecideLine(w, c)), Line(RequestLine(w, c))]
  }

  /** Everything below the summary. */
  function Below(w: Wording, c: Card, preview: Option<Text>): seq<Part> {
    ParamParts(w, c.params) + Titled(w.preview, preview) + Closing(w, c)
  }

  /** A summary between what stands above and below it. */
  function Assembled(above: seq<Part>, title: Text, summary: Option<Text>, below: seq<Part>): Text {
    Join(PrintAll(above + Titled(title, summary) + below))
  }

  function CardText(w: Wording, c: Card, summary: Option<Text>, preview: Option<Text>): Text {
    Assembled(Opening(w, c), w.summary, summary, Below(w, c, preview))
  }

  // ----- What the blocks take

  function ApprovalBlocksLength(summary: Text, params: seq<Param>): (n: nat)
    ensures n == |CodeBlock(summary)| + |CodeBlock(Join(ParamLines(params)))|
  {
    var lines := Join(ParamLines(params));
    (|summary| + 2 * FenceLength(summary) + 2) + (|lines| + 2 * FenceLength(lines) + 2)
  }

  lemma PrintBoth(a: seq<Part>, b: seq<Part>)
    ensures PrintAll(a + b) == PrintAll(a) + PrintAll(b)
  {
  }

  lemma AssembledLength(above: seq<Part>, title: Text, summary: Option<Text>, below: seq<Part>)
    requires below != []
    ensures |Assembled(above, title, summary, below)| + 1
         == Cost(PrintAll(above)) + Cost(PrintAll(Titled(title, summary))) + Cost(PrintAll(below))
  {
    var middle := Titled(title, summary);
    PrintBoth(above + middle, below);
    PrintBoth(above, middle);
    JoinLength(PrintAll(above + middle + below));
    CostOfBoth(PrintAll(above + middle), PrintAll(below));
    CostOfBoth(PrintAll(above), PrintAll(middle));
  }

  lemma CostOfTwo(x: Text, y: Text)
    ensures Cost([x, y]) == |x| + |y| + 2
  {
    assert [x, y][1..] == [y];
    assert Cost([y]) == |y| + 1 + Cost([y][1..]);
  }

  lemma TitledCost(title: Text, t: Option<Text>)
    ensures Cost(PrintAll(Titled(title, t))) == if t.None? then 0 else |title| + |CodeBlock(t.value)| + 2
  {
    if t.Some? {
      assert PrintAll(Titled(title, t)) == [title, CodeBlock(t.value)];
      CostOfTwo(title, CodeBlock(t.value));
    }
  }

  /** A summary only adds to the card, and none adds less than an empty one. */
  lemma SummaryAdds(above: seq<Part>, title: Text, summary: Text, below: seq<Part>)
    requires below != []
    ensures |Assembled(above, title, None, below)| < |Assembled(above, title, Some([]), below)|
    ensures |Assembled(above, title, Some([]), below)| <= |Assembled(above, title, Some(summary), below)|
  {
    AssembledLength(above, title, None, below);
    AssembledLength(above, title, Some([]), below);
    AssembledLength(above, title, Some(summary), below);
    TitledCost(title, None);
    TitledCost(title, Some([]));
    TitledCost(title, Some(summary));
    assert Runs([]) == [];
  }

  lemma ClosingCost(w: Wording, c: Card)
    ensures Cost(PrintAll(Closing(w, c)))
         == (if MixedNames(c.params) == [] then 0 else |WarningLine(w, MixedNames(c.params))| + 1)
             + |DecideLine(w, c)| + |RequestLine(w, c)| + 2
  {
    var lines := [DecideLine(w, c), RequestLine(w, c)];
    CostOfTwo(lines[0], lines[1]);
    if MixedNames(c.params) == [] {
      assert PrintAll(Closing(w, c)) == lines;
    } else {
      assert PrintAll(Closing(w, c)) == [WarningLine(w, MixedNames(c.params))] + lines;
      CostOfBoth([WarningLine(w, MixedNames(c.params))], lines);
    }
  }

  /** A card without a preview is its two blocks and its lines. */
  lemma CardCost(w: Wording, c: Card)
    ensures |CardText(w, c, Some(c.summary), None)| + 1
         == ApprovalBlocksLength(c.summary, c.params) + |RiskLine(w, c)| + |AgentLine(w, c)| + |w.summary|
             + |w.params| + 6
            + Cost(PrintAll(Closing(w, c)))
  {
    var params := Some(Join(ParamLines(c.params)));
    AssembledLength(Opening(w, c), w.summary, Some(c.summary), Below(w, c, None));
    assert PrintAll(Opening(w, c)) == [RiskLine(w, c), AgentLine(w, c)];
    CostOfTwo(RiskLine(w, c), AgentLine(w, c));
    TitledCost(w.summary, Some(c.summary));
    assert Below(w, c, None) == Titled(w.params, params) + Closing(w, c);
    PrintBoth(Titled(w.params, params), Closing(w, c));
    CostOfBoth(PrintAll(Titled(w.params, params)), PrintAll(Closing(w, c)));
    TitledCost(w.params, params);
  }

  // ----- Fitting

  /** `s` is the beginning of `full`, whole, marked as cut, or down to nothing. */
  ghost predicate Beginning(s: Text, full: Text) {
    exists k | 0 <= k <= |full| :: s == full[..k] || s == full[..k] + MARK
  }

  /** The summary as it is first cut: by what the full card has too much. */
  function Cut(above: seq<Part>, title: Text, full: Text, below: seq<Part>): Text {
    Shortened(full, |full| - (|Assembled(above, title, Some(full), below)| - MATTERMOST_POST_MAX))
  }

  lemma CutIsABeginning(above: seq<Part>, title: Text, full: Text, below: seq<Part>)
    ensures Beginning(Cut(above, title, full, below), full)
    ensures FenceLength(Cut(above, title, full, below)) <= FenceLength(full)
  {
    var max := |full| - (|Assembled(above, title, Some(full), below)| - MATTERMOST_POST_MAX);
    if |full| <= max {
      assert full == full[..|full|];
    } else if max <= 1 {
      FenceOfBeginning(full, if max < 0 then 0 else max, []);
      assert full[..if max < 0 then 0 else max] + [] == full[..if max < 0 then 0 else max];
    } else {
      FenceOfBeginning(full, CutAt(full, max), MARK);
    }
  }

  /** One cut suffices unless it leaves nothing. */
  lemma OneCutSuffices(above: seq<Part>, title: Text, full: Text, below: seq<Part>)
    requires below != []
    ensures Cut(above, title, full, below) != [] ==>
              |Assembled(above, title, Some(Cut(above, title, full, below)), below)| <= MATTERMOST_POST_MAX
  {
    var cut := Cut(above, title, full, below);
    ShortenedFits(full, |full| - (|Assembled(above, title, Some(full), below)| - MATTERMOST_POST_MAX));
    CutIsABeginning(above, title, full, below);
    AssembledLength(above, title, Some(full), below);
    AssembledLength(above, title, Some(cut), below);
    TitledCost(title, Some(full));
    TitledCost(title, Some(cut));
  }

  method FitSummary(above: seq<Part>, title: Text, full: Text, below: seq<Part>) returns (r: Option<Text>)
    requires below != []
    ensures r.None? <==> |Assembled(above, title, None, below)| > MATTERMOST_POST_MAX
    ensures r.Some? ==> |r.value| <= MATTERMOST_POST_MAX
    ensures r.Some? ==>
              r.value == if |Assembled(above, title, Some([]), below)| > MATTERMOST_POST_MAX
                         then Assembled(above, title, None, below)
                         else Assembled(above, title, Some(Cut(above, title, full, below)), below)
  {
    var summary := Some(full);
    ghost var cut := Cut(above, title, full, below);
    while true
      invariant summary == Some(full) || summary == Some(cut) || (summary.None? && cut == [])
      invariant summary.None? ==> |Assembled(above, title, Some([]), below)| > MATTERMOST_POST_MAX
      decreases if summary.None? then 0 else |summary.value| + 1
    {
      var text := Assembled(above, title, summary, below);
      SummaryAdds(above, title, full, below);
      SummaryAdds(above, title, cut, below);
      OneCutSuffices(above, title, full, below);
      if |text| <= MATTERMOST_POST_MAX { return Some(text); }
      if summary.None? { return None; }
      if summary.value == [] {
        summary := None;
        continue;
      }
      var overflow := |text| - MATTERMOST_POST_MAX;
      ShortenedFits(summary.value, |summary.value| - overflow);
      var shrunk := TruncateRequestPreview(summary.value, |summary.value| - overflow);
      // The cut always shortens, so no further character has to be forced off.
      summary := Some(shrunk);
    }
  }

  /** Nothing exactly when the card without a summary is too long; otherwise the card within the limit, and of its
      summary, whenever an empty one would fit, all that is left when it is cut once by what the full card has too
      much. */
  method FitApprovalCard(w: Wording, c: Card, preview: Option<Text>) returns (r: Option<Text>)
    ensures r.None? <==> |CardText(w, c, None, preview)| > MATTERMOST_POST_MAX
    ensures r.Some? ==> |r.value| <= MATTERMOST_POST_MAX
    ensures r.Some? ==>
              var overflow := |CardText(w, c, Some(c.summary), preview)| - MATTERMOST_POST_MAX;
              r.value == if |CardText(w, c, Some([]), preview)| > MATTERMOST_POST_MAX then CardText(w, c, None, preview)
                         else CardText(w, c, Some(Shortened(c.summary, |c.summary| - overflow)), preview)
  {
    r := FitSummary(Opening(w, c), w.summary, c.summary, Below(w, c, preview));
  }

  /** What is kept of a summary that does not fit: all but the overflow, the mark, and at most an escape's start and
      half a character. */
  lemma SummaryKept(w: Wording, c: Card, preview: Option<Text>)
    requires var overflow := |CardText(w, c, Some(c.summary), preview)| - MATTERMOST_POST_MAX;
             0 < overflow < |c.summary| - 1
    ensures var overflow := |CardText(w, c, Some(c.summary), preview)| - MATTERMOST_POST_MAX;
            exists k | |c.summary| - overflow - 4 <= k < |c.summary| - overflow && 0 <= k <= |c.summary| ::
              Shortened(c.summary, |c.summary| - overflow) == c.summary[..k] + MARK
  {
    ShortenedKeeps(c.summary, |c.summary| - (|CardText(w, c, Some(c.summary), preview)| - MATTERMOST_POST_MAX));
  }

  // ----- The card read back

  /** The preview stands in the card whole, in its own block between two line breaks. */
  lemma PreviewIsWhole(w: Wording, c: Card, summary: Option<Text>, preview: Text)
    ensures exists before: Text, after: Text ::
              CardText(w, c, summary, Some(preview)) == before + [NEWLINE] + CodeBlock(preview) + [NEWLINE] + after
  {
    BlockIsWhole(Opening(w, c) + Titled(w.summary, summary), ParamParts(w, c.params), w.preview, preview,
        Closing(w, c));
  }

  lemma BlockIsWhole(above: seq<Part>, params: seq<Part>, title: Text, t: Text, tail: seq<Part>)
    requires tail != []
    ensures exists before: Text, after: Text ::
              before + [NEWLINE] + CodeBlock(t) + [NEWLINE] + after
                == Join(PrintAll(above + (params + [Line(title), Block(t)] + tail)))
  {
    var head := above + params + [Line(title)];
    AroundBlock(head, t, tail);
    assert above + (params + [Line(title), Block(t)] + tail) == head + [Block(t)] + tail;
  }

  lemma AroundBlock(head: seq<Part>, t: Text, tail: seq<Part>)
    requires head != [] && tail != []
    ensures Join(PrintAll(head + [Block(t)] + tail))
         == Join(PrintAll(head)) + [NEWLINE] + CodeBlock(t) + [NEWLINE] + Join(PrintAll(tail))
  {
    PrintBoth(head + [Block(t)], tail);
    PrintBoth(head, [Block(t)]);
    JoinOfBoth(PrintAll(head) + PrintAll([Block(t)]), PrintAll(tail));
    JoinOfBoth(PrintAll(head), PrintAll([Block(t)]));
    assert PrintAll([Block(t)]) == [CodeBlock(t)];
  }

  /** The fields outside the blocks have no line break, as their schemas demand. */
  predicate SingleLineFields(c: Card) {
    && OneLine(c.riskLevel) && OneLine(c.expiresAt) && OneLine(c.agentId) && OneLine(c.actionType)
    && OneLine(c.code) && OneLine(c.id) && OneLine(c.hash)
    && forall p <- c.params :: OneLine(p.name)
  }

  /** Wording without line breaks that opens no block. */
  predicate PlainWording(w: Wording) {
    && Plain(Line(w.risk)) && OneLine(w.expires)
    && Plain(Line(w.agent)) && OneLine(w.asks) && OneLine(w.asked)
    && Plain(Line(w.summary)) && Plain(Line(w.params)) && Plain(Line(w.preview))
    && Plain(Line(w.warning)) && OneLine(w.listSeparator) && OneLine(w.and) && OneLine(w.more) && OneLine(w.warningEnd)
    && Plain(Line(w.decide)) && OneLine(w.deny) && OneLine(w.decided)
    && Plain(Line(w.request)) && OneLine(w.hash) && OneLine(w.hashed)
  }

  lemma OneLineBoth(a: Text, b: Text)
    requires OneLine(a) && OneLine(b)
    ensures OneLine(a + b)
  {
  }

  lemma PlainFive(a: Text, b: Text, c: Text, d: Text, e: Text)
    requires Plain(Line(a)) && OneLine(b) && OneLine(c) && OneLine(d) && OneLine(e)
    ensures Plain(Line(a + b + c + d + e))
  {
  }

  lemma {:induction false} DigitsAreOneLine(n: nat)
    ensures OneLine(CanonicalJson.Digits(n))
  {
    if n >= 10 { DigitsAreOneLine(n / 10); }
  }

  lemma {:induction false} ListedIsOneLine(w: Wording, names: seq<Text>)
    requires OneLine(w.listSeparator) && forall n <- names :: OneLine(n)
    ensures OneLine(Listed(w, names))
  {
    if names != [] {
      ListedIsOneLine(w, names[1..]);
      OneLineBoth(w.listSeparator, Listed(w, names[1..]));
      assert OneLine(names[0]);
      assert OneLine([BACKTICK] + names[0] + [BACKTICK]);
      OneLineBoth([BACKTICK] + names[0] + [BACKTICK],
                  if |names| == 1 then [] else w.listSeparator + Listed(w, names[1..]));
    }
  }

  lemma {:induction false} MixedNamesAreOneLine(params: seq<Param>)
    requires forall p <- params :: OneLine(p.name)
    ensures forall n <- MixedNames(params) :: OneLine(n)
  {
    if params != [] { MixedNamesAreOneLine(params[1..]); }
  }

  lemma WarningLineIsPlain(w: Wording, names: seq<Text>)
    requires PlainWording(w) && forall n <- names :: OneLine(n)
    ensures Plain(Line(WarningLine(w, names)))
  {
    ListedIsOneLine(w, FirstFew(names));
    if |names| > MAX_FLAGGED { DigitsAreOneLine(|names| - MAX_FLAGGED); }
    assert OneLine(More(w, names));
    PlainFive(w.warning, Listed(w, FirstFew(names)), More(w, names), w.warningEnd, []);
    assert WarningLine(w, names) == w.warning + Listed(w, FirstFew(names)) + More(w, names) + w.warningEnd + [];
  }

  lemma LinesArePlain(w: Wording, c: Card)
    requires PlainWording(w) && SingleLineFields(c)
    ensures forall p <- Opening(w, c) + Closing(w, c) :: Plain(p)
  {
    PlainFive(w.risk, c.riskLevel, w.expires, c.expiresAt, []);
    assert RiskLine(w, c) == w.risk + c.riskLevel + w.expires + c.expiresAt + [];
    PlainFive(w.agent, c.agentId, w.asks, c.actionType, w.asked);
    PlainFive(w.decide, c.code, w.deny, c.code, w.decided);
    PlainFive(w.request, c.id, w.hash, c.hash, w.hashed);
    MixedNamesAreOneLine(c.params);
    WarningLineIsPlain(w, MixedNames(c.params));
  }

  lemma Associate(x: seq<Text>, y: seq<Text>, z: seq<Text>)
    ensures x + (y + z) == x + y + z
  {
  }

  lemma {:induction false} ContentsOfBoth(a: seq<Part>, b: seq<Part>)
    ensures Contents(a + b) == Contents(a) + Contents(b)
  {
    if a == [] {
      assert a + b == b;
    } else {
      ContentsOfBoth(a[1..], b);
      assert (a + b)[1..] == a[1..] + b && (a + b)[0] == a[0];
      Associate(PartContent(a[0]), Contents(a[1..]), Contents(b));
    }
  }

  lemma ContentsOfTitled(title: Text, t: Option<Text>)
    ensures Contents(Titled(title, t)) == ContentOf(t)
  {
    if t.Some? {
      assert [Line(title), Block(t.value)][1..] == [Block(t.value)];
      assert Contents([Block(t.value)]) == [t.value + [NEWLINE]] + Contents([Block(t.value)][1..]);
    }
  }

  lemma {:induction false} ContentsOfLines(parts: seq<Part>)
    requires forall p <- parts :: p.Line?
    ensures Contents(parts) == []
  {
    if parts != [] { ContentsOfLines(parts[1..]); }
  }

  /** A block's content as read: its text and the line break before the closing fence. */
  function ContentOf(t: Option<Text>): seq<Text> { if t.None? then [] else [t.value + [NEWLINE]] }

  lemma ContentsOfThree(x: seq<Part>, y: seq<Part>, z: seq<Part>)
    ensures Contents(x + y + z) == Contents(x) + Contents(y) + Contents(z)
  {
    ContentsOfBoth(x + y, z);
    ContentsOfBoth(x, y);
  }

  lemma WithoutEmpty(x: seq<Text>, y: seq<Text>, z: seq<Text>)
    ensures [] + x + (y + z + []) == x + y + z
  {
  }

  lemma ContentsOfCard(above: seq<Part>, a: seq<Part>, b: seq<Part>, c: seq<Part>, below: seq<Part>)
    requires (forall p <- above :: p.Line?) && (forall p <- below :: p.Line?)
    ensures Contents(above + a + (b + c + below)) == Contents(a) + Contents(b) + Contents(c)
  {
    ContentsOfThree(above, a, b + c + below);
    ContentsOfThree(b, c, below);
    ContentsOfLines(above);
    ContentsOfLines(below);
    WithoutEmpty(Contents(a), Contents(b), Contents(c));
  }

  /** The card's blocks as a reader of the post finds them: no text an agent writes makes more, fewer or others. */
  lemma CardReadsBack(w: Wording, c: Card, summary: Option<Text>, preview: Option<Text>)
    requires PlainWording(w) && SingleLineFields(c)
    ensures Blocks(CardText(w, c, summary, preview))
         == ContentOf(summary) + ContentOf(Some(Join(ParamLines(c.params)))) + ContentOf(preview)
  {
    var params := Some(Join(ParamLines(c.params)));
    LinesArePlain(w, c);
    AllPlain(Opening(w, c), Titled(w.summary, summary), Titled(w.params, params), Titled(w.preview, preview),
        Closing(w, c));
    DocumentReadsBack(Opening(w, c) + Titled(w.summary, summary)
        + (Titled(w.params, params) + Titled(w.preview, preview) + Closing(w, c)));
    ContentsOfCard(Opening(w, c), Titled(w.summary, summary), Titled(w.params, params), Titled(w.preview, preview),
        Closing(w, c));
    ContentsOfTitled(w.summary, summary);
    ContentsOfTitled(w.params, params);
    ContentsOfTitled(w.preview, preview);
  }

  lemma AllPlain(above: seq<Part>, a: seq<Part>, b: seq<Part>, c: seq<Part>, below: seq<Part>)
    requires (forall p <- above + below :: Plain(p)) && (forall p <- a :: Plain(p)) && (forall p <- b :: Plain(p))
               && forall p <- c :: Plain(p)
    ensures forall p <- above + a + (b + c + below) :: Plain(p)
  {
    assert forall p <- above :: p in above + below;
    assert forall p <- below :: p in above + below;
  }

  predicate SingleLine(s: string) { '\n' !in s && '\r' !in s }

  lemma LiteralIsOneLine(s: string)
    requires SingleLine(s)
    ensures OneLine(Units(s))
  {
    assert forall i | 0 <= i < |s| :: s[i] in s;
  }

  lemma OpeningWording()
    ensures SingleLine(RISK) && SingleLine(AGENT) && SingleLine(EXPIRES) && SingleLine(ASKS) && SingleLine(ASKED)
  {
  }

  lemma LabelWording()
    ensures SingleLine(SUMMARY) && SingleLine(PARAMS)
  {
  }

  lemma PreviewWording()
    ensures SingleLine(PREVIEW)
  {
  }

  lemma WarningWording()
    ensures SingleLine(WARNING) && SingleLine(SEPARATOR) && SingleLine(AND) && SingleLine(MORE)
  {
  }

  lemma WarningEndWording()
    ensures SingleLine(WARNING_END)
  {
  }

  lemma DecideWording()
    ensures SingleLine(DECIDE)
  {
  }

  lemma ClosingWording()
    ensures SingleLine(REQUEST) && SingleLine(DENY) && SingleLine(DECIDED) && SingleLine(HASH) && SingleLine(HASHED)
  {
  }

  lemma WordingIsPlain()
    ensures PlainWording(WORDING)
  {
    OpeningWording();
    LabelWording();
    PreviewWording();
    WarningWording();
    WarningEndWording();
    DecideWording();
    ClosingWording();
    LiteralIsOneLine(RISK);
    LiteralIsOneLine(EXPIRES);
    LiteralIsOneLine(AGENT);
    LiteralIsOneLine(ASKS);
    LiteralIsOneLine(ASKED);
    LiteralIsOneLine(SUMMARY);
    LiteralIsOneLine(PARAMS);
    LiteralIsOneLine(PREVIEW);
    LiteralIsOneLine(WARNING);
    LiteralIsOneLine(SEPARATOR);
    LiteralIsOneLine(AND);
    LiteralIsOneLine(MORE);
    LiteralIsOneLine(WARNING_END);
    LiteralIsOneLine(DECIDE);
    LiteralIsOneLine(DENY);
    LiteralIsOneLine(DECIDED);
    LiteralIsOneLine(REQUEST);
    LiteralIsOneLine(HASH);
    LiteralIsOneLine(HASHED);
  }
}
