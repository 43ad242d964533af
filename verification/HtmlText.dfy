/** HTML mail to plain text: a stack machine with a drop counter, proved against a meaning that looks at the
    ancestors of each piece of text. Tokens, and whether an element is hidden, are given. */
module HtmlText {
  import opened Wrappers
  import opened CodeUnits

  /** A piece of decoded text, a tag, or a comment and the like. `hidden` is the verdict on the tag's attributes. */
  datatype Token =
    | Chars(text: Text)
    | Open(name: string, hidden: bool, link: Option<Text>, slash: bool)
    | Close(name: string)
    | Other

  datatype Element = Element(name: string, drops: bool, href: Option<Text>)

  const MAX_HTML_DEPTH := 256

  const DROPPED: set<string> := {
    "script", "style", "head", "title", "template", "iframe", "frame", "frameset", "object", "embed", "applet", "svg",
    "math", "noscript", "form", "select", "textarea", "button", "audio", "video", "canvas"}

  const VOID: set<string> := {
    "area", "base", "br", "col", "hr", "img", "input", "link", "meta", "param", "source", "track", "wbr"}

  const BLOCK: set<string> := {
    "address", "article", "aside", "blockquote", "div", "dl", "dt", "dd", "footer", "h1", "h2", "h3", "h4", "h5", "h6",
    "header", "hr", "li", "main", "nav", "ol", "p", "pre", "section", "table", "tr", "ul"}

  const NEWLINE: Text := [0x0a]
  const DASH: Text := Units("- ")
  const SPACE: Text := [0x20]

  function LinkText(href: Text): Text { Units(" <") + href + Units(">") }

  // ----- The meaning: every piece of text with the elements open around it

  /** Text at a place, given by the elements open there. */
  datatype Piece = Piece(text: Text, ancestors: seq<Element>)

  /** The last open element with one of `names`, or -1. */
  function LastOpen(stack: seq<Element>, names: set<string>): (k: int)
    ensures -1 <= k < |stack|
    ensures k >= 0 ==> stack[k].name in names
    ensures forall i | k < i < |stack| :: stack[i].name !in names
  {
    if stack == [] then -1
    else if stack[|stack| - 1].name in names then |stack| - 1 else LastOpen(stack[..|stack| - 1], names)
  }

  /** What closing one element writes, among the elements below it. */
  function ClosingOne(e: Element, below: seq<Element>): seq<Piece> {
    (if e.href.Some? then [Piece(LinkText(e.href.value), below)] else [])
      + (if e.name in BLOCK then [Piece(NEWLINE, below)] else [])
  }

  /** What closing the elements from the top down to `index` writes. */
  function Closing(stack: seq<Element>, index: nat): seq<Piece> {
    if |stack| <= index then [] else
      var below := stack[..|stack| - 1];
      ClosingOne(stack[|stack| - 1], below) + Closing(below, index)
  }

  /** Implied end tags, first part: a block closes an open paragraph. */
  function AfterParagraph(stack: seq<Element>, name: string): seq<Element> {
    var p := LastOpen(stack, {"p"});
    if name in BLOCK && p >= 0 then stack[..p] else stack
  }

  /** Second part: a list item closes the previous item of its list. */
  function AfterItem(stack: seq<Element>, name: string): seq<Element> {
    var item := LastOpen(stack, {"li"});
    if name == "li" && item > LastOpen(stack, {"ul", "ol"}) then stack[..item] else stack
  }

  /** The elements open around a tag, once its implied end tags are applied. */
  function Around(stack: seq<Element>, name: string): seq<Element> {
    AfterItem(AfterParagraph(stack, name), name)
  }

  /** The marks of an opening tag: a new line, a list dash, a cell's space. */
  function Marks(s: seq<Element>, name: string): seq<Piece> {
    (if name in BLOCK then [Piece(NEWLINE, s)] else [])
      + (if name == "li" then [Piece(DASH, s)] else [])
      + (if name == "td" || name == "th" then [Piece(SPACE, s)] else [])
  }

  function Before(stack: seq<Element>, name: string): seq<Piece> {
    Closing(stack, |Around(stack, name)|) + Marks(Around(stack, name), name)
  }

  predicate SelfClosing(t: Token)
    requires t.Open?
  {
    t.name in VOID || t.slash
  }

  function Opened(t: Token): Element
    requires t.Open?
  {
    var drops := t.name in DROPPED || t.hidden;
    Element(t.name, drops, if t.name == "a" && !drops then t.link else None)
  }

  predicate Drops(stack: seq<Element>) { exists e <- stack :: e.drops }

  /** Where reading stands: the open elements, everything written so far, whether a visible place hid something,
      and whether the nesting grew too deep. */
  datatype Reading = Reading(stack: seq<Element>, pieces: seq<Piece>, hidden: bool, truncated: bool)

  function Read(r: Reading, t: Token): Reading {
    if r.truncated then r else
      match t
      case Other => r
      case Chars(text) => r.(pieces := r.pieces + [Piece(text, r.stack)])
      case Close(name) =>
        var k := LastOpen(r.stack, {name});
        if k >= 0 then r.(stack := r.stack[..k], pieces := r.pieces + Closing(r.stack, k))
        else if name in BLOCK then r.(pieces := r.pieces + [Piece(NEWLINE, r.stack)])
        else r
      case Open(name, hidden, _, _) =>
        if name == "br" then r.(pieces := r.pieces + [Piece(NEWLINE, r.stack)]) else
          var s := Around(r.stack, name);
          var q := Reading(s, r.pieces + Before(r.stack, name), r.hidden || (hidden && !Drops(s)), false);
          if SelfClosing(t) then q
          else if |s| >= MAX_HTML_DEPTH then q.(truncated := true)
          else q.(stack := s + [Opened(t)])
  }

  function ReadAll(tokens: seq<Token>): Reading {
    if tokens == [] then Reading([], [], false, false) else Read(ReadAll(tokens[..|tokens| - 1]), tokens[|tokens| - 1])
  }

  /** Everything the mail writes, visible or not; open elements are closed at its end. */
  function AllPieces(tokens: seq<Token>): seq<Piece> {
    var r := ReadAll(tokens);
    r.pieces + Closing(r.stack, 0)
  }

  /** The text a reader sees: the pieces with no dropping element around them. */
  function Visible(pieces: seq<Piece>): Text {
    if pieces == [] then [] else Visible(pieces[..|pieces| - 1]) + Seen(pieces[|pieces| - 1])
  }

  function Seen(p: Piece): Text { if Drops(p.ancestors) then [] else p.text }

  // ----- The machine

  function CountDrops(stack: seq<Element>): nat {
    if stack == [] then 0 else CountDrops(stack[..|stack| - 1]) + if stack[|stack| - 1].drops then 1 else 0
  }

  lemma {:induction false} CountMeaning(stack: seq<Element>)
    ensures CountDrops(stack) == 0 <==> !Drops(stack)
  {
    if stack != [] {
      CountMeaning(stack[..|stack| - 1]);
      assert stack == stack[..|stack| - 1] + [stack[|stack| - 1]];
    }
  }

  lemma AssociateText(x: Text, y: Text, z: Text)
    ensures (x + y) + z == x + (y + z)
  {
  }

  lemma {:induction false} VisibleConcat(a: seq<Piece>, b: seq<Piece>)
    ensures Visible(a + b) == Visible(a) + Visible(b)
  {
    if b == [] {
      assert a + b == a;
    } else {
      var n := |b| - 1;
      VisibleConcat(a, b[..n]);
      assert (a + b)[..|a + b| - 1] == a + b[..n] && (a + b)[|a + b| - 1] == b[n];
      AssociateText(Visible(a), Visible(b[..n]), Seen(b[n]));
    }
  }

  /** Writing is governed by the counter alone. */
  method Emit(out: Text, dropDepth: nat, text: Text, ghost stack: seq<Element>) returns (out': Text)
    requires dropDepth == CountDrops(stack)
    ensures out' == out + Visible([Piece(text, stack)])
  {
    CountMeaning(stack);
    assert [Piece(text, stack)][..0] == [];
    out' := if dropDepth == 0 then out + text else out;
  }

  method CloseOne(e: Element, dropDepth: nat, out: Text, ghost below: seq<Element>) returns (out': Text)
    requires dropDepth == CountDrops(below)
    ensures out' == out + Visible(ClosingOne(e, below))
  {
    out' := out;
    ghost var link: seq<Piece> := [];
    if e.href.Some? {
      out' := Emit(out', dropDepth, LinkText(e.href.value), below);
      link := [Piece(LinkText(e.href.value), below)];
    }
    ghost var line: seq<Piece> := [];
    if e.name in BLOCK {
      out' := Emit(out', dropDepth, NEWLINE, below);
      line := [Piece(NEWLINE, below)];
    }
    VisibleConcat(link, line);
    assert out + (Visible(link) + Visible(line)) == (out + Visible(link)) + Visible(line);
  }

  /** Closes the elements from the top down to `index`, counting each dropping one off before what follows it. */
  method CloseTo(stack: seq<Element>, index: nat, dropDepth: nat, out: Text)
      returns (stack': seq<Element>, dropDepth': nat, out': Text)
    requires index <= |stack| && dropDepth == CountDrops(stack)
    ensures stack' == stack[..index] && dropDepth' == CountDrops(stack')
    ensures out' == out + Visible(Closing(stack, index))
  {
    stack', dropDepth', out' := stack, dropDepth, out;
    while |stack'| > index
      invariant index <= |stack'| <= |stack| && stack' == stack[..|stack'|] && dropDepth' == CountDrops(stack')
      invariant out' + Visible(Closing(stack', index)) == out + Visible(Closing(stack, index))
      decreases |stack'|
    {
      ClosingStep(out', stack', index);
      var e := stack'[|stack'| - 1];
      stack' := stack'[..|stack'| - 1];
      if e.drops { dropDepth' := dropDepth' - 1; }
      out' := CloseOne(e, dropDepth', out', stack');
    }
    assert Visible(Closing(stack', index)) == [];
  }

  /** What closing the top element writes, and then the rest. */
  lemma ClosingStep(out: Text, stack: seq<Element>, index: nat)
    requires index < |stack|
    ensures var below := stack[..|stack| - 1];
            (out + Visible(ClosingOne(stack[|stack| - 1], below))) + Visible(Closing(below, index))
              == out + Visible(Closing(stack, index))
  {
    var below := stack[..|stack| - 1];
    VisibleParts(out, ClosingOne(stack[|stack| - 1], below), Closing(below, index));
  }

  /** Closing down to `mid` and then to `index` writes what closing to `index` at once does. */
  lemma ClosingTwice(out: Text, stack: seq<Element>, mid: nat, index: nat)
    requires index <= mid <= |stack|
    ensures (out + Visible(Closing(stack, mid))) + Visible(Closing(stack[..mid], index)) == out
              + Visible(Closing(stack, index))
  {
    ClosingSplit(stack, mid, index);
    VisibleParts(out, Closing(stack, mid), Closing(stack[..mid], index));
  }

  method ImpliedEnds(stack: seq<Element>, name: string, dropDepth: nat, out: Text)
      returns (stack': seq<Element>, dropDepth': nat, out': Text)
    requires dropDepth == CountDrops(stack)
    ensures stack' == Around(stack, name) && dropDepth' == CountDrops(stack')
    ensures out' == out + Visible(Closing(stack, |stack'|))
  {
    stack', dropDepth', out' := EndParagraph(stack, name, dropDepth, out);
    ghost var s1 := stack';
    if name == "li" {
      var list := LastOpen(stack', {"ul", "ol"});
      var item := LastOpen(stack', {"li"});
      if item > list {
        stack', dropDepth', out' := CloseTo(stack', item, dropDepth', out');
        ClosingTwice(out, stack, |s1|, item);
      }
    }
  }

  method EndParagraph(stack: seq<Element>, name: string, dropDepth: nat, out: Text)
      returns (stack': seq<Element>, dropDepth': nat, out': Text)
    requires dropDepth == CountDrops(stack)
    ensures stack' == AfterParagraph(stack, name) && |stack'| <= |stack| && stack' == stack[..|stack'|]
    ensures dropDepth' == CountDrops(stack') && out' == out + Visible(Closing(stack, |stack'|))
  {
    stack', dropDepth', out' := stack, dropDepth, out;
    if name in BLOCK {
      var paragraph := LastOpen(stack', {"p"});
      if paragraph >= 0 { stack', dropDepth', out' := CloseTo(stack', paragraph, dropDepth', out'); }
    }
  }

  method WriteMarks(name: string, dropDepth: nat, out: Text, ghost s: seq<Element>) returns (out': Text)
    requires dropDepth == CountDrops(s)
    ensures out' == out + Visible(Marks(s, name))
  {
    out' := out;
    ghost var marks: seq<Piece> := [];
    if name in BLOCK {
      out' := Emit(out', dropDepth, NEWLINE, s);
      marks := [Piece(NEWLINE, s)];
    }
    if name == "li" {
      VisibleConcat(marks, [Piece(DASH, s)]);
      out' := Emit(out', dropDepth, DASH, s);
      marks := marks + [Piece(DASH, s)];
      assert out' == out + Visible(marks);
    }
    if name == "td" || name == "th" {
      VisibleConcat(marks, [Piece(SPACE, s)]);
      out' := Emit(out', dropDepth, SPACE, s);
      marks := marks + [Piece(SPACE, s)];
      assert out' == out + Visible(marks);
    }
    assert marks == Marks(s, name);
  }

  /** Everything an opening tag writes before its element: implied end tags, then its own marks. */
  method BeforeOpen(stack: seq<Element>, name: string, dropDepth: nat, out: Text)
      returns (stack': seq<Element>, dropDepth': nat, out': Text)
    requires dropDepth == CountDrops(stack)
    ensures stack' == Around(stack, name) && dropDepth' == CountDrops(stack')
    ensures out' == out + Visible(Before(stack, name))
  {
    stack', dropDepth', out' := ImpliedEnds(stack, name, dropDepth, out);
    VisibleParts(out, Closing(stack, |stack'|), Marks(stack', name));
    out' := WriteMarks(name, dropDepth', out', stack');
  }

  lemma VisibleParts(out: Text, a: seq<Piece>, b: seq<Piece>)
    ensures (out + Visible(a)) + Visible(b) == out + Visible(a + b)
  {
    VisibleConcat(a, b);
    assert (out + Visible(a)) + Visible(b) == out + (Visible(a) + Visible(b));
  }

  lemma Associate(x: seq<Piece>, y: seq<Piece>, z: seq<Piece>)
    ensures x + (y + z) == (x + y) + z
  {
  }

  lemma {:induction false} ClosingSplit(stack: seq<Element>, mid: nat, index: nat)
    requires index <= mid <= |stack|
    ensures Closing(stack, index) == Closing(stack, mid) + Closing(stack[..mid], index)
  {
    if mid == |stack| {
      assert stack[..mid] == stack;
    } else {
      var below := stack[..|stack| - 1];
      ClosingSplit(below, mid, index);
      assert below[..mid] == stack[..mid];
      Associate(ClosingOne(stack[|stack| - 1], below), Closing(below, mid), Closing(stack[..mid], index));
    }
  }

  /** Converts the tokens: a stack, a counter and an output, updated in place. */
  method HtmlToText(tokens: seq<Token>) returns (out: Text, hiddenRemoved: bool, truncated: bool)
    ensures out == Visible(AllPieces(tokens))
    ensures hiddenRemoved == ReadAll(tokens).hidden && truncated == ReadAll(tokens).truncated
  {
    var stack: seq<Element>, dropDepth: nat := [], 0;
    out, hiddenRemoved, truncated := [], false, false;
    var i := 0;
    while i < |tokens| && !truncated
      invariant i <= |tokens|
      invariant var r := ReadAll(tokens[..i]);
                r.stack == stack && r.hidden == hiddenRemoved && r.truncated == truncated && out == Visible(r.pieces)
      invariant dropDepth == CountDrops(stack)
    {
      ghost var r := ReadAll(tokens[..i]);
      assert tokens[..i + 1][..i] == tokens[..i];
      stack, dropDepth, out, hiddenRemoved, truncated := ReadToken(tokens[i], stack, dropDepth, out, hiddenRemoved, r);
      i := i + 1;
    }
    Frozen(tokens, i);
    ghost var r := ReadAll(tokens);
    VisibleConcat(r.pieces, Closing(r.stack, 0));
    stack, dropDepth, out := CloseTo(stack, 0, dropDepth, out);
  }

  lemma ReadLast(tokens: seq<Token>)
    requires tokens != []
    ensures ReadAll(tokens) == Read(ReadAll(tokens[..|tokens| - 1]), tokens[|tokens| - 1])
    ensures ReadAll(tokens[..|tokens| - 1]).truncated ==> ReadAll(tokens) == ReadAll(tokens[..|tokens| - 1])
  {
  }

  /** Nothing is read after the nesting grew too deep. */
  lemma {:induction false} Frozen(tokens: seq<Token>, i: nat)
    requires i <= |tokens| && (i == |tokens| || ReadAll(tokens[..i]).truncated)
    ensures ReadAll(tokens) == ReadAll(tokens[..i])
    decreases |tokens|
  {
    if i == |tokens| {
      assert tokens[..i] == tokens;
    } else {
      var n := |tokens| - 1;
      assert tokens[..n][..i] == tokens[..i];
      Frozen(tokens[..n], i);
      ReadLast(tokens);
    }
  }

  /** An opening tag: implied end tags and marks, then its element unless it closes itself or lies too deep. */
  method ReadOpen(t: Token, stack: seq<Element>, dropDepth: nat, out: Text, hidden: bool, ghost r: Reading)
      returns (stack': seq<Element>, dropDepth': nat, out': Text, hidden': bool, truncated': bool)
    requires t.Open? && t.name != "br"
    requires r.stack == stack && r.hidden == hidden && !r.truncated && out == Visible(r.pieces)
    requires dropDepth == CountDrops(stack)
    ensures var q := Read(r, t);
            q.stack == stack' && q.hidden == hidden' && q.truncated == truncated' && out' == Visible(q.pieces)
    ensures dropDepth' == CountDrops(stack')
  {
    hidden', truncated' := hidden, false;
    VisibleConcat(r.pieces, Before(stack, t.name));
    stack', dropDepth', out' := BeforeOpen(stack, t.name, dropDepth, out);
    CountMeaning(stack');
    if t.hidden && dropDepth' == 0 { hidden' := true; }
    if SelfClosing(t) { return; }
    if |stack'| >= MAX_HTML_DEPTH {
      truncated' := true;
      return;
    }
    var e := Opened(t);
    ghost var below := stack';
    stack' := stack' + [e];
    assert stack'[..|stack'| - 1] == below;
    if e.drops { dropDepth' := dropDepth' + 1; }
  }

  method ReadToken(t: Token, stack: seq<Element>, dropDepth: nat, out: Text, hidden: bool, ghost r: Reading)
      returns (stack': seq<Element>, dropDepth': nat, out': Text, hidden': bool, truncated': bool)
    requires r.stack == stack && r.hidden == hidden && !r.truncated && out == Visible(r.pieces)
    requires dropDepth == CountDrops(stack)
    ensures var q := Read(r, t);
            q.stack == stack' && q.hidden == hidden' && q.truncated == truncated' && out' == Visible(q.pieces)
    ensures dropDepth' == CountDrops(stack')
  {
    stack', dropDepth', out', hidden', truncated' := stack, dropDepth, out, hidden, false;
    match t {
      case Other =>
      case Chars(text) =>
        VisibleConcat(r.pieces, [Piece(text, stack)]);
        out' := Emit(out, dropDepth, text, stack);
      case Close(name) =>
        var index := LastOpen(stack, {name});
        if index >= 0 {
          VisibleConcat(r.pieces, Closing(stack, index));
          stack', dropDepth', out' := CloseTo(stack, index, dropDepth, out);
        } else if name in BLOCK {
          VisibleConcat(r.pieces, [Piece(NEWLINE, stack)]);
          out' := Emit(out, dropDepth, NEWLINE, stack);
        }
      case Open(name, _, _, _) =>
        if name == "br" {
          VisibleConcat(r.pieces, [Piece(NEWLINE, stack)]);
          out' := Emit(out, dropDepth, NEWLINE, stack);
        } else {
          stack', dropDepth', out', hidden', truncated' := ReadOpen(t, stack, dropDepth, out, hidden, r);
        }
    }
  }

  // ----- What holds for every mail

  ghost predicate ListBetween(stack: seq<Element>, i: int, j: int) {
    exists k | 0 <= k < |stack| && i < k < j :: stack[k].name == "ul" || stack[k].name == "ol"
  }

  /** Nesting is bounded; no block sits above an open paragraph; two open items have a list between them. */
  ghost predicate WellNested(stack: seq<Element>) {
    && |stack| <= MAX_HTML_DEPTH
    && (forall i, j | 0 <= i < j < |stack| && stack[i].name == "p" :: stack[j].name !in BLOCK)
    && (forall i, j | 0 <= i < j < |stack| && stack[i].name == "li" && stack[j].name == "li" ::
         ListBetween(stack, i, j))
  }

  lemma PrefixNested(stack: seq<Element>, k: nat)
    requires WellNested(stack) && k <= |stack|
    ensures WellNested(stack[..k])
  {
    forall i, j | 0 <= i < j < k && stack[..k][i].name == "li" && stack[..k][j].name == "li"
      ensures ListBetween(stack[..k], i, j)
    {
      assert ListBetween(stack, i, j);
      var l :| 0 <= l < |stack| && i < l < j && (stack[l].name == "ul" || stack[l].name == "ol");
      assert stack[..k][l] == stack[l];
    }
  }

  /** After the implied end tags of a block, no paragraph is open. */
  lemma NoParagraph(stack: seq<Element>, name: string)
    requires WellNested(stack) && name in BLOCK
    ensures forall i | 0 <= i < |Around(stack, name)| :: Around(stack, name)[i].name != "p"
  {
    assert "p" in BLOCK;
  }

  lemma AroundNested(stack: seq<Element>, name: string)
    requires WellNested(stack)
    ensures WellNested(Around(stack, name)) && Around(stack, name) <= stack
  {
    var p := LastOpen(stack, {"p"});
    if name in BLOCK && p >= 0 { PrefixNested(stack, p); }
    var s1 := AfterParagraph(stack, name);
    var item := LastOpen(s1, {"li"});
    if name == "li" && item > LastOpen(s1, {"ul", "ol"}) { PrefixNested(s1, item); }
  }

  /** A new item finds a list above every item still open. */
  lemma ItemsSeparated(stack: seq<Element>, i: nat)
    requires WellNested(stack) && i < |Around(stack, "li")| && Around(stack, "li")[i].name == "li"
    ensures ListBetween(Around(stack, "li"), i, |Around(stack, "li")|)
  {
    AroundNested(stack, "li");
    var s1 := AfterParagraph(stack, "li");
    var s := Around(stack, "li");
    var list, item := LastOpen(s1, {"ul", "ol"}), LastOpen(s1, {"li"});
    var p := LastOpen(stack, {"p"});
    if p >= 0 { PrefixNested(stack, p); }
    if item > list {
      assert s == s1[..item] && s1[i].name == "li" && s1[item].name == "li";
      assert ListBetween(s1, i, item);
      var l :| 0 <= l < |s1| && i < l < item && (s1[l].name == "ul" || s1[l].name == "ol");
      assert s[l] == s1[l];
    } else {
      assert s == s1 && i <= item < list;
      assert s[list].name == "ul" || s[list].name == "ol";
    }
  }

  lemma PushNested(stack: seq<Element>, e: Element)
    requires WellNested(stack) && |Around(stack, e.name)| < MAX_HTML_DEPTH
    ensures WellNested(Around(stack, e.name) + [e])
  {
    var s := Around(stack, e.name);
    var t := s + [e];
    AroundNested(stack, e.name);
    forall i, j | 0 <= i < j < |t| && t[i].name == "p" ensures t[j].name !in BLOCK {
      if j == |s| && e.name in BLOCK { NoParagraph(stack, e.name); }
    }
    forall i, j | 0 <= i < j < |t| && t[i].name == "li" && t[j].name == "li" ensures ListBetween(t, i, j) {
      if j == |s| { ItemsSeparated(stack, i); }
      assert ListBetween(s, i, j);
      var l :| 0 <= l < |s| && i < l < j && (s[l].name == "ul" || s[l].name == "ol");
      assert t[l] == s[l];
    }
  }

  lemma {:induction false} StackIsWellNested(tokens: seq<Token>)
    ensures WellNested(ReadAll(tokens).stack)
  {
    if tokens != [] {
      var r, t := ReadAll(tokens[..|tokens| - 1]), tokens[|tokens| - 1];
      StackIsWellNested(tokens[..|tokens| - 1]);
      if t.Close? {
        var k := LastOpen(r.stack, {t.name});
        if k >= 0 { PrefixNested(r.stack, k); }
      } else if t.Open? {
        AroundNested(r.stack, t.name);
        if |Around(r.stack, t.name)| < MAX_HTML_DEPTH { PushNested(r.stack, Opened(t)); }
      }
    }
  }

  /** The tokens differ at most in texts that stand under a dropping element. */
  ghost predicate DifferOnlyWhereDropped(a: seq<Token>, b: seq<Token>) {
    |a| == |b| &&
    forall i | 0 <= i < |a| :: a[i] == b[i] || (a[i].Chars? && b[i].Chars? && Drops(ReadAll(a[..i]).stack))
  }

  /** What a token writes, by the open elements alone. */
  function Added(stack: seq<Element>, t: Token): seq<Piece> {
    match t
    case Other => []
    case Chars(text) => [Piece(text, stack)]
    case Close(name) =>
      var k := LastOpen(stack, {name});
      if k >= 0 then Closing(stack, k) else if name in BLOCK then [Piece(NEWLINE, stack)] else []
    case Open(name, _, _, _) => if name == "br" then [Piece(NEWLINE, stack)] else Before(stack, name)
  }

  lemma ReadAdds(r: Reading, t: Token)
    requires !r.truncated
    ensures Read(r, t).pieces == r.pieces + Added(r.stack, t)
  {
    if Added(r.stack, t) == [] { assert r.pieces + [] == r.pieces; }
  }

  predicate SamePlace(r: Reading, q: Reading) {
    r.stack == q.stack && r.hidden == q.hidden && r.truncated == q.truncated
  }

  lemma ReadMoves(r: Reading, q: Reading, s: Token, t: Token)
    requires SamePlace(r, q) && (s == t || (s.Chars? && t.Chars?))
    ensures SamePlace(Read(r, s), Read(q, t))
  {
  }

  lemma SameStep(r: Reading, q: Reading, s: Token, t: Token)
    requires SamePlace(r, q) && Visible(r.pieces) == Visible(q.pieces)
    requires s == t || (s.Chars? && t.Chars? && Drops(r.stack))
    ensures Visible(Read(r, s).pieces) == Visible(Read(q, t).pieces)
  {
    if !r.truncated {
      ReadAdds(r, s);
      ReadAdds(q, t);
      if s == t { SameMore(r.pieces, q.pieces, Added(r.stack, t)); }
      else { SameUnseen(r.pieces, q.pieces, s.text, t.text, r.stack); }
    }
  }

  lemma {:induction false} SameReading(a: seq<Token>, b: seq<Token>)
    requires DifferOnlyWhereDropped(a, b)
    ensures SamePlace(ReadAll(a), ReadAll(b)) && Visible(ReadAll(a).pieces) == Visible(ReadAll(b).pieces)
  {
    if a != [] {
      var n := |a| - 1;
      assert forall i | 0 <= i < n :: a[..n][..i] == a[..i];
      SameReading(a[..n], b[..n]);
      ReadMoves(ReadAll(a[..n]), ReadAll(b[..n]), a[n], b[n]);
      SameStep(ReadAll(a[..n]), ReadAll(b[..n]), a[n], b[n]);
    }
  }

  lemma SameMore(a: seq<Piece>, b: seq<Piece>, more: seq<Piece>)
    requires Visible(a) == Visible(b)
    ensures Visible(a + more) == Visible(b + more)
  {
    VisibleConcat(a, more);
    VisibleConcat(b, more);
  }

  lemma SameUnseen(a: seq<Piece>, b: seq<Piece>, x: Text, y: Text, stack: seq<Element>)
    requires Visible(a) == Visible(b) && Drops(stack)
    ensures Visible(a + [Piece(x, stack)]) == Visible(b + [Piece(y, stack)])
  {
    assert (a + [Piece(x, stack)])[..|a|] == a && (b + [Piece(y, stack)])[..|b|] == b;
  }

  /** No text under a dropping element, however it reads, changes the output. */
  lemma DroppedTextIsInvisible(a: seq<Token>, b: seq<Token>)
    requires DifferOnlyWhereDropped(a, b)
    ensures Visible(AllPieces(a)) == Visible(AllPieces(b))
    ensures ReadAll(a).hidden == ReadAll(b).hidden && ReadAll(a).truncated == ReadAll(b).truncated
  {
    SameReading(a, b);
    var r, q := ReadAll(a), ReadAll(b);
    VisibleConcat(r.pieces, Closing(r.stack, 0));
    VisibleConcat(q.pieces, Closing(q.stack, 0));
  }
}
