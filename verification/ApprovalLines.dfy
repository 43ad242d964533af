/** What the approval card shows, line by line. */
module ApprovalLines {
  import opened Wrappers
  import opened CodeUnits
  import opened TextLines
  import opened Fences
  import opened ApprovalCard
  import CanonicalJson
  import CanonicalText

  // ----- Parameters

  /** Each parameter on a line of its own, `name = value`, in order. */
  lemma ParamsAreListed(params: seq<Param>)
    ensures |ParamLines(params)| == |params|
    ensures forall i | 0 <= i < |params| :: ParamLines(params)[i] == params[i].name + Units(" = ") + params[i].value
  {
    assert Units(" = ") == [0x20, 0x3d, 0x20];
  }

  /** The names flagged are those of the parameters with mixed alphabets, in order. */
  lemma {:induction false} FlaggedInOrder(a: seq<Param>, b: seq<Param>)
    ensures MixedNames(a + b) == MixedNames(a) + MixedNames(b)
  {
    if a == [] {
      assert a + b == b;
    } else {
      FlaggedInOrder(a[1..], b);
      var first: seq<Text> := if a[0].mixed then [a[0].name] else [];
      assert (a + b)[1..] == a[1..] + b;
      assert MixedNames(a + b) == first + MixedNames(a[1..] + b);
      NamesTogether(first, MixedNames(a[1..]), MixedNames(b));
    }
  }

  lemma NamesTogether(x: seq<Text>, y: seq<Text>, z: seq<Text>)
    ensures x + (y + z) == (x + y) + z
  {
  }

  lemma FlaggedAlone(p: Param)
    ensures MixedNames([p]) == if p.mixed then [p.name] else []
  {
    assert [p][1..] == [];
  }

  /** The card warns exactly when some parameter mixes alphabets. */
  lemma {:induction false} WarnsExactlyWhen(params: seq<Param>)
    ensures MixedNames(params) != [] <==> exists p <- params :: p.mixed
  {
    if params != [] {
      WarnsExactlyWhen(params[1..]);
      assert params == [params[0]] + params[1..];
    }
  }

  /** The names in backticks with a comma between any two. */
  ghost predicate NamesInTicks(text: Text, names: seq<Text>)
    decreases |names|
  {
    if names == [] then text == []
    else if |names| == 1 then text == Units("`") + names[0] + Units("`")
    else exists rest ::
           NamesInTicks(rest, names[1..]) && text == Units("`") + names[0] + Units("`") + Units(", ") + rest
  }

  lemma {:induction false} NamesAreListed(names: seq<Text>)
    ensures NamesInTicks(Listed(WORDING, names), names)
  {
    assert Units("`") == [0x60];
    if |names| > 1 {
      NamesAreListed(names[1..]);
      var rest := Listed(WORDING, names[1..]);
      assert Listed(WORDING, names) == [0x60] + names[0] + [0x60] + (Units(", ") + rest);
      assert Listed(WORDING, names) == Units("`") + names[0] + Units("`") + Units(", ") + rest;
    }
  }

  /** The warning: the first five names, and how many more there are. */
  ghost predicate Warns(line: Text, names: seq<Text>) {
    exists listed: Text, more: Text ::
      && NamesInTicks(listed, if |names| <= 5 then names else names[..5])
      && (if |names| <= 5 then more == []
          else exists n :: CanonicalText.Decimal(n, |names| - 5) && more == Units(" and ") + n + Units(" more"))
      && line == Units(WARNING) + listed + more + Units(WARNING_END)
  }

  lemma WarningIsTold(names: seq<Text>)
    ensures Warns(WarningLine(WORDING, names), names)
  {
    var listed, more := Listed(WORDING, FirstFew(names)), More(WORDING, names);
    NamesAreListed(FirstFew(names));
    if |names| > 5 {
      CanonicalText.DigitsMeaning(|names| - 5);
      assert more == Units(" and ") + CanonicalJson.Digits(|names| - 5) + Units(" more");
    }
    assert WarningLine(WORDING, names) == Units(WARNING) + listed + more + Units(WARNING_END);
  }

  // ----- The card

  /** A title and a fenced block under it, when there is something to show. */
  ghost predicate Shows(lines: seq<Text>, title: Text, t: Option<Text>) {
    if t.None? then lines == [] else lines == [title, CodeBlock(t.value)]
  }

  /** Every line of the card in order: risk and expiry, agent and action, the summary, the parameters, the preview, the
      warning, how to decide by the approval's code, and the request's id and hash. */
  ghost predicate CardLines(c: Card, summary: Option<Text>, preview: Option<Text>, s: seq<seq<Text>>) {
    && |s| == 6
    && s[0] == [Units(RISK) + c.riskLevel + Units(EXPIRES) + c.expiresAt,
                Units(AGENT) + c.agentId + Units(ASKS) + c.actionType + Units(ASKED)]
    && Shows(s[1], Units(SUMMARY), summary)
    && s[2] == [Units(PARAMS), CodeBlock(Join(ParamLines(c.params)))]
    && Shows(s[3], Units(PREVIEW), preview)
    && (if exists p <- c.params :: p.mixed then |s[4]| == 1 && Warns(s[4][0], MixedNames(c.params)) else s[4] == [])
    && s[5] == [Units(DECIDE) + c.code + Units(DENY) + c.code + Units(DECIDED),
                Units(REQUEST) + c.id + Units(HASH) + c.hash + Units(HASHED)]
  }

  function TitledLines(title: Text, t: Option<Text>): seq<Text> {
    if t.None? then [] else [title, CodeBlock(t.value)]
  }

  lemma PrintedParts(a: seq<Part>, b: seq<Part>, c: seq<Part>, d: seq<Part>, e: seq<Part>)
    ensures PrintAll(a + b + (c + d + e)) == PrintAll(a) + PrintAll(b) + PrintAll(c) + PrintAll(d) + PrintAll(e)
  {
    PrintBoth(a + b, c + d + e);
    PrintBoth(a, b);
    PrintBoth(c + d, e);
    PrintBoth(c, d);
  }

  lemma ClosingPrinted(c: Card)
    ensures PrintAll(Closing(WORDING, c))
         == (if MixedNames(c.params) == [] then [] else [WarningLine(WORDING, MixedNames(c.params))])
            + [DecideLine(WORDING, c), RequestLine(WORDING, c)]
  {
  }

  /** The card's lines as the printer has them. */
  function Told(c: Card, summary: Option<Text>, preview: Option<Text>): seq<seq<Text>> {
    var w, names := WORDING, MixedNames(c.params);
    [[RiskLine(w, c), AgentLine(w, c)], TitledLines(w.summary, summary),
     [w.params, CodeBlock(Join(ParamLines(c.params)))], TitledLines(w.preview, preview),
     if names == [] then [] else [WarningLine(w, names)], [DecideLine(w, c), RequestLine(w, c)]]
  }

  lemma ToldInOrder(c: Card, summary: Option<Text>, preview: Option<Text>)
    ensures CardLines(c, summary, preview, Told(c, summary, preview))
  {
    WarnsExactlyWhen(c.params);
    WarningIsTold(MixedNames(c.params));
  }

  lemma ToldIsPrinted(c: Card, summary: Option<Text>, preview: Option<Text>)
    ensures var s := Told(c, summary, preview);
            CardText(WORDING, c, summary, preview) == Join(s[0] + s[1] + s[2] + s[3] + (s[4] + s[5]))
  {
    var w, s := WORDING, Told(c, summary, preview);
    PrintedParts(Opening(w, c), Titled(w.summary, summary), ParamParts(w, c.params), Titled(w.preview, preview),
                 Closing(w, c));
    ClosingPrinted(c);
    assert PrintAll(Opening(w, c)) == s[0] && PrintAll(Titled(w.summary, summary)) == s[1];
    assert PrintAll(ParamParts(w, c.params)) == s[2] && PrintAll(Titled(w.preview, preview)) == s[3];
  }

  lemma CardIsTold(c: Card, summary: Option<Text>, preview: Option<Text>)
    ensures exists s: seq<seq<Text>> ::
              && CardLines(c, summary, preview, s)
              && CardText(WORDING, c, summary, preview) == Join(s[0] + s[1] + s[2] + s[3] + (s[4] + s[5]))
  {
    ToldInOrder(c, summary, preview);
    ToldIsPrinted(c, summary, preview);
  }
}
