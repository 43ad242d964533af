/** The conversion of HTML mail told by its tags: which tags are open where, which of them hide, and what a reader
    therefore sees. */
module HtmlTags {
  import opened Wrappers
  import opened CodeUnits
  import opened HtmlText

  // ----- The open tags, by their place among the tokens

  /** The last of the open tags with one of `names`, or -1. */
  function LastTag(tokens: seq<Token>, at: seq<nat>, names: set<string>): (k: int)
    ensures -1 <= k < |at|
  {
    if at == [] then -1 else
      var n := |at| - 1;
      if at[n] < |tokens| && tokens[at[n]].Open? && tokens[at[n]].name in names then n
      else LastTag(tokens, at[..n], names)
  }

  /** A block ends an open paragraph. */
  function WithoutParagraph(tokens: seq<Token>, at: seq<nat>, name: string): seq<nat> {
    var p := LastTag(tokens, at, {"p"});
    if name in BLOCK && p >= 0 then at[..p] else at
  }

  /** An item ends the previous item of its list. */
  function WithoutItem(tokens: seq<Token>, at: seq<nat>, name: string): seq<nat> {
    var item := LastTag(tokens, at, {"li"});
    if name == "li" && item > LastTag(tokens, at, {"ul", "ol"}) then at[..item] else at
  }

  /** What stays open around a tag. */
  function Enclosing(tokens: seq<Token>, at: seq<nat>, name: string): seq<nat> {
    WithoutItem(tokens, WithoutParagraph(tokens, at, name), name)
  }

  /** The tags open after the first `n` tokens. */
  function OpenTags(tokens: seq<Token>, n: nat): seq<nat>
    requires n <= |tokens|
  {
    if n == 0 then [] else
      var at := OpenTags(tokens, n - 1);
      match tokens[n - 1]
      case Close(name) => var k := LastTag(tokens, at, {name}); if k >= 0 then at[..k] else at
      case Open(name, _, _, slash) =>
        if name == "br" then at else
          var s := Enclosing(tokens, at, name);
          if name in VOID || slash then s else s + [n - 1]
      case _ => at
  }

  /** The tag's element hides what it encloses. */
  predicate Hides(t: Token) { t.Open? && (t.hidden || t.name in DROPPED) }

  /** Some tag of these hides. */
  predicate Hidden(tokens: seq<Token>, at: seq<nat>) { exists k <- at :: k < |tokens| && Hides(tokens[k]) }

  /** The element a tag opens: it drops exactly when the tag hides, and only a link that does not keeps its address. */
  predicate IsElementOf(e: Element, t: Token) {
    && t.Open? && e.name == t.name && e.drops == (t.hidden || t.name in DROPPED)
    && e.href == (if t.name == "a" && !t.hidden && t.name !in DROPPED then t.link else None)
  }

  /** The elements are those of the tags, one by one. */
  ghost predicate ElementsOf(tokens: seq<Token>, stack: seq<Element>, at: seq<nat>) {
    && |stack| == |at|
    && (forall i | 0 <= i < |at| :: at[i] < |tokens| && IsElementOf(stack[i], tokens[at[i]]))
  }

  lemma {:induction false} SameLast(tokens: seq<Token>, stack: seq<Element>, at: seq<nat>, names: set<string>)
    requires ElementsOf(tokens, stack, at)
    ensures LastTag(tokens, at, names) == LastOpen(stack, names)
  {
    if at != [] { SameLast(tokens, stack[..|at| - 1], at[..|at| - 1], names); }
  }

  lemma SameEnclosing(tokens: seq<Token>, stack: seq<Element>, at: seq<nat>, name: string)
    requires ElementsOf(tokens, stack, at)
    ensures ElementsOf(tokens, Around(stack, name), Enclosing(tokens, at, name))
  {
    SameParagraph(tokens, stack, at, name);
    SameItem(tokens, AfterParagraph(stack, name), WithoutParagraph(tokens, at, name), name);
  }

  lemma SameParagraph(tokens: seq<Token>, stack: seq<Element>, at: seq<nat>, name: string)
    requires ElementsOf(tokens, stack, at)
    ensures ElementsOf(tokens, AfterParagraph(stack, name), WithoutParagraph(tokens, at, name))
  {
    SameLast(tokens, stack, at, {"p"});
  }

  lemma SameItem(tokens: seq<Token>, stack: seq<Element>, at: seq<nat>, name: string)
    requires ElementsOf(tokens, stack, at)
    ensures ElementsOf(tokens, AfterItem(stack, name), WithoutItem(tokens, at, name))
  {
    SameLast(tokens, stack, at, {"li"});
    SameLast(tokens, stack, at, {"ul", "ol"});
  }

  lemma PushedElement(tokens: seq<Token>, stack: seq<Element>, at: seq<nat>, n: nat)
    requires ElementsOf(tokens, stack, at) && n < |tokens| && tokens[n].Open?
    ensures ElementsOf(tokens, stack + [Opened(tokens[n])], at + [n])
  {
  }

  lemma ReadTags(tokens: seq<Token>, n: nat, r: Reading)
    requires n < |tokens| && ElementsOf(tokens, r.stack, OpenTags(tokens, n)) && !r.truncated
    ensures var q := Read(r, tokens[n]); !q.truncated ==> ElementsOf(tokens, q.stack, OpenTags(tokens, n + 1))
  {
    var at := OpenTags(tokens, n);
    match tokens[n]
    case Close(name) => SameLast(tokens, r.stack, at, {name});
    case Open(name, _, _, _) =>
      SameEnclosing(tokens, r.stack, at, name);
      PushedElement(tokens, Around(r.stack, name), Enclosing(tokens, at, name), n);
    case _ =>
  }

  /** As long as the nesting has not grown too deep, the stack holds exactly the elements of the open tags: each drops
      exactly when its tag was found hidden or is of a dropped kind, and keeps its tag's address exactly when it is a
      link that does not drop. */
  lemma {:induction false} StackIsOpenTags(tokens: seq<Token>, n: nat)
    requires n <= |tokens| && !ReadAll(tokens[..n]).truncated
    ensures ElementsOf(tokens, ReadAll(tokens[..n]).stack, OpenTags(tokens, n))
  {
    if n > 0 {
      assert tokens[..n][..n - 1] == tokens[..n - 1];
      StackIsOpenTags(tokens, n - 1);
      ReadTags(tokens, n - 1, ReadAll(tokens[..n - 1]));
    }
  }

  lemma EnclosingMembers(tokens: seq<Token>, at: seq<nat>, name: string)
    ensures Enclosing(tokens, at, name) <= at
  {
  }

  /** An open tag is one that was read, and neither void nor closed by its own slash. */
  lemma {:induction false} OpenTagsAreTags(tokens: seq<Token>, n: nat, k: nat)
    requires n <= |tokens| && k in OpenTags(tokens, n)
    ensures k < n && tokens[k].Open? && tokens[k].name !in VOID && !tokens[k].slash
  {
    if n > 0 {
      var at := OpenTags(tokens, n - 1);
      if tokens[n - 1].Open? { EnclosingMembers(tokens, at, tokens[n - 1].name); }
      if k in at { OpenTagsAreTags(tokens, n - 1, k); } else { assert tokens[n - 1].Open? && k == n - 1; }
    }
  }

  lemma HiddenIsDrops(tokens: seq<Token>, stack: seq<Element>, at: seq<nat>)
    requires ElementsOf(tokens, stack, at)
    ensures Drops(stack) <==> Hidden(tokens, at)
  {
    if Drops(stack) {
      var i :| 0 <= i < |stack| && stack[i].drops;
      assert at[i] in at && Hides(tokens[at[i]]);
    }
    if Hidden(tokens, at) {
      var i :| 0 <= i < |at| && at[i] < |tokens| && Hides(tokens[at[i]]);
      assert stack[i].drops;
    }
  }

  // ----- What is seen of a text

  function Output(tokens: seq<Token>): Text { Visible(AllPieces(tokens)) }

  /** The texts that stand inside a hiding tag. */
  ghost predicate DifferOnlyInHidden(a: seq<Token>, b: seq<Token>) {
    |a| == |b| &&
    forall i | 0 <= i < |a| :: a[i] == b[i] || (a[i].Chars? && b[i].Chars? && Hidden(a, OpenTags(a, i)))
  }

  /** No text inside a hiding tag, however it reads, changes the output. */
  lemma HiddenTextIsInvisible(a: seq<Token>, b: seq<Token>)
    requires DifferOnlyInHidden(a, b)
    ensures Output(a) == Output(b)
  {
    HiddenReading(a, b, |a|);
    assert a[..|a|] == a && b[..|b|] == b;
    var r, q := ReadAll(a), ReadAll(b);
    VisibleConcat(r.pieces, Closing(r.stack, 0));
    VisibleConcat(q.pieces, Closing(q.stack, 0));
  }

  lemma {:induction false} HiddenReading(a: seq<Token>, b: seq<Token>, n: nat)
    requires DifferOnlyInHidden(a, b) && n <= |a|
    ensures var r, q := ReadAll(a[..n]), ReadAll(b[..n]); SamePlace(r, q) && Visible(r.pieces) == Visible(q.pieces)
  {
    if n > 0 {
      HiddenReading(a, b, n - 1);
      assert a[..n][..n - 1] == a[..n - 1] && b[..n][..n - 1] == b[..n - 1];
      var r, q := ReadAll(a[..n - 1]), ReadAll(b[..n - 1]);
      if !r.truncated {
        StackIsOpenTags(a, n - 1);
        HiddenIsDrops(a, r.stack, OpenTags(a, n - 1));
        ReadMoves(r, q, a[n - 1], b[n - 1]);
        SameStep(r, q, a[n - 1], b[n - 1]);
      }
    }
  }

  /** `x` and `y` are what the output has before and after the text at `i`, whatever that text is. */
  ghost predicate Frames(tokens: seq<Token>, i: nat, x: Text, y: Text)
    requires i < |tokens|
  {
    forall text: Text :: Output(tokens[i := Chars(text)]) == x + text + y
  }

  /** What the tokens from `i` on write after a text that stands there. */
  function Rest(r: Reading, tokens: seq<Token>): Reading {
    if tokens == [] then r else Read(Rest(r, tokens[..|tokens| - 1]), tokens[|tokens| - 1])
  }

  lemma {:induction false} RestOf(tokens: seq<Token>, more: seq<Token>)
    ensures ReadAll(tokens + more) == Rest(ReadAll(tokens), more)
  {
    if more == [] {
      assert tokens + more == tokens;
    } else {
      var n := |more| - 1;
      RestOf(tokens, more[..n]);
      assert (tokens + more)[..|tokens + more| - 1] == tokens + more[..n];
    }
  }

  lemma AddTogether(a: seq<Piece>, b: seq<Piece>, c: seq<Piece>)
    ensures a + (b + c) == (a + b) + c
  {
  }

  /** What more tokens add depends on the place alone. */
  lemma {:induction false} RestAdds(r: Reading, tokens: seq<Token>, a: seq<Piece>)
    ensures var q := Rest(r.(pieces := []), tokens); Rest(r.(pieces := a), tokens) == q.(pieces := a + q.pieces)
  {
    if tokens == [] {
      assert a == a + [];
    } else {
      var n := |tokens| - 1;
      RestAdds(r, tokens[..n], a);
      var q, p := Rest(r.(pieces := []), tokens[..n]), Rest(r.(pieces := a), tokens[..n]);
      ReadMoves(q, p, tokens[n], tokens[n]);
      if !q.truncated {
        ReadAdds(q, tokens[n]);
        ReadAdds(p, tokens[n]);
        AddTogether(a, q.pieces, Added(q.stack, tokens[n]));
      }
    }
  }

  lemma VisibleOne(p: Piece)
    ensures Visible([p]) == Seen(p)
  {
    assert [p][..0] == [];
  }

  lemma VisibleThree(a: seq<Piece>, p: Piece, b: seq<Piece>)
    ensures Visible((a + [p]) + b) == Visible(a) + Seen(p) + Visible(b)
  {
    VisibleConcat(a + [p], b);
    VisibleConcat(a, [p]);
    VisibleOne(p);
  }

  /** The output with `text` at place `i`. */
  lemma OutputAround(tokens: seq<Token>, i: nat, text: Text)
    requires i < |tokens| && !ReadAll(tokens[..i]).truncated
    ensures var r := ReadAll(tokens[..i]); var q := Rest(r.(pieces := []), tokens[i + 1..]);
            Output(tokens[i := Chars(text)])
              == Visible(r.pieces) + Seen(Piece(text, r.stack)) + Visible(q.pieces + Closing(q.stack, 0))
  {
    var r, more := ReadAll(tokens[..i]), tokens[i + 1..];
    var front, p := tokens[..i] + [Chars(text)], Piece(text, r.stack);
    assert front[..|front| - 1] == tokens[..i];
    assert tokens[i := Chars(text)] == front + more;
    RestOf(front, more);
    RestAdds(r, more, r.pieces + [p]);
    var q := Rest(r.(pieces := []), more);
    AddTogether(r.pieces + [p], q.pieces, Closing(q.stack, 0));
    VisibleThree(r.pieces, p, q.pieces + Closing(q.stack, 0));
  }

  /** A text that stands in no hiding tag is in the output as it is, in its place. */
  lemma OpenTextIsShown(tokens: seq<Token>, i: nat)
    requires i < |tokens| && !ReadAll(tokens[..i]).truncated && !Hidden(tokens, OpenTags(tokens, i))
    ensures exists x, y :: Frames(tokens, i, x, y)
  {
    var r := ReadAll(tokens[..i]);
    var q := Rest(r.(pieces := []), tokens[i + 1..]);
    StackIsOpenTags(tokens, i);
    HiddenIsDrops(tokens, r.stack, OpenTags(tokens, i));
    var x, y := Visible(r.pieces), Visible(q.pieces + Closing(q.stack, 0));
    forall text: Text ensures Output(tokens[i := Chars(text)]) == x + text + y { OutputAround(tokens, i, text); }
    assert Frames(tokens, i, x, y);
  }

  // ----- Inside one hiding tag

  /** Nothing between the tag and `i` can end its element: texts, comments, and opening tags of no block. */
  ghost predicate NothingEnds(tokens: seq<Token>, j: nat, i: nat)
    requires i <= |tokens|
  {
    forall m | j < m < i :: !tokens[m].Close? && (tokens[m].Open? ==> tokens[m].name !in BLOCK)
  }

  lemma {:induction false} StaysOpen(tokens: seq<Token>, j: nat, i: nat)
    requires j < i <= |tokens| && NothingEnds(tokens, j, i)
    requires tokens[j].Open? && tokens[j].name != "br" && tokens[j].name !in VOID && !tokens[j].slash
    ensures j in OpenTags(tokens, i)
  {
    if i == j + 1 {
      var s := Enclosing(tokens, OpenTags(tokens, j), tokens[j].name);
      assert (s + [j])[|s|] == j;
    } else {
      StaysOpen(tokens, j, i - 1);
      assert "li" in BLOCK;
    }
  }

  /** A text behind a hidden tag that nothing has ended is not in the output, whatever it says. */
  lemma HiddenUntilEnded(tokens: seq<Token>, j: nat, i: nat, text: Text)
    requires j < i < |tokens| && NothingEnds(tokens, j, i) && tokens[i].Chars?
    requires tokens[j].Open? && tokens[j].hidden && !tokens[j].slash && tokens[j].name !in VOID
    ensures Output(tokens[i := Chars(text)]) == Output(tokens)
  {
    assert "br" in VOID;
    StaysOpen(tokens, j, i);
    HiddenTextIsInvisible(tokens, tokens[i := Chars(text)]);
  }

  // ----- What was removed, and where reading stopped

  /** Tag `j` is found hidden where nothing else hides. */
  ghost predicate RemovedAt(tokens: seq<Token>, j: nat) {
    && j < |tokens| && tokens[j].Open? && tokens[j].hidden && tokens[j].name != "br"
    && !ReadAll(tokens[..j]).truncated && !Hidden(tokens, Enclosing(tokens, OpenTags(tokens, j), tokens[j].name))
  }

  /** The element of tag `n` would be nested more than 256 deep. */
  ghost predicate TooDeepAt(tokens: seq<Token>, n: nat) {
    && n < |tokens| && tokens[n].Open? && tokens[n].name !in VOID && !tokens[n].slash
    && |Enclosing(tokens, OpenTags(tokens, n), tokens[n].name)| >= 256
  }

  lemma OpenFlags(tokens: seq<Token>, n: nat, r: Reading)
    requires n < |tokens| && tokens[n].Open? && tokens[n].name != "br"
    requires !r.truncated && r == ReadAll(tokens[..n]) && ElementsOf(tokens, r.stack, OpenTags(tokens, n))
    ensures var q := Read(r, tokens[n]);
            (q.truncated <==> TooDeepAt(tokens, n)) && (q.hidden <==> r.hidden || RemovedAt(tokens, n))
  {
    var s := Around(r.stack, tokens[n].name);
    SameEnclosing(tokens, r.stack, OpenTags(tokens, n), tokens[n].name);
    HiddenIsDrops(tokens, s, Enclosing(tokens, OpenTags(tokens, n), tokens[n].name));
  }

  lemma ReadFlags(tokens: seq<Token>, n: nat)
    requires n < |tokens|
    ensures var r, q := ReadAll(tokens[..n]), ReadAll(tokens[..n + 1]);
            if r.truncated then q == r
            else (q.truncated <==> TooDeepAt(tokens, n)) && (q.hidden <==> r.hidden || RemovedAt(tokens, n))
  {
    var r := ReadAll(tokens[..n]);
    assert tokens[..n + 1][..n] == tokens[..n] && "br" in VOID;
    if !r.truncated && tokens[n].Open? && tokens[n].name != "br" {
      StackIsOpenTags(tokens, n);
      OpenFlags(tokens, n, r);
    }
  }

  ghost predicate TooDeepBefore(tokens: seq<Token>, n: nat) { exists j: nat :: j < n && TooDeepAt(tokens, j) }

  ghost predicate RemovedBefore(tokens: seq<Token>, n: nat) { exists j: nat :: j < n && RemovedAt(tokens, j) }

  lemma BeforeNext(tokens: seq<Token>, n: nat)
    ensures TooDeepBefore(tokens, n + 1) <==> TooDeepBefore(tokens, n) || TooDeepAt(tokens, n)
    ensures RemovedBefore(tokens, n + 1) <==> RemovedBefore(tokens, n) || RemovedAt(tokens, n)
  {
  }

  lemma NothingRemovedHere(tokens: seq<Token>, n: nat)
    requires n < |tokens| && ReadAll(tokens[..n]).truncated
    ensures !RemovedAt(tokens, n)
  {
  }

  lemma {:induction false} FlagsUpTo(tokens: seq<Token>, n: nat)
    requires n <= |tokens|
    ensures ReadAll(tokens[..n]).truncated <==> TooDeepBefore(tokens, n)
    ensures ReadAll(tokens[..n]).hidden <==> RemovedBefore(tokens, n)
  {
    if n > 0 {
      var m := n - 1;
      FlagsUpTo(tokens, m);
      ReadFlags(tokens, m);
      BeforeNext(tokens, m);
      if ReadAll(tokens[..m]).truncated { NothingRemovedHere(tokens, m); }
    }
  }

  /** The two verdicts: something was removed exactly when some tag is hidden where nothing else hides, and the end was
      not read exactly when some element would be nested too deep. */
  lemma VerdictsMeaning(tokens: seq<Token>)
    ensures ReadAll(tokens).truncated <==> exists j: nat :: TooDeepAt(tokens, j)
    ensures ReadAll(tokens).hidden <==> exists j: nat :: RemovedAt(tokens, j)
  {
    FlagsUpTo(tokens, |tokens|);
    assert tokens[..|tokens|] == tokens;
  }

  // ----- What tags write

  lemma VisibleIf(b: bool, text: Text, s: seq<Element>)
    ensures Visible(if b then [Piece(text, s)] else []) == if b && !Drops(s) then text else []
  {
    if b { VisibleOne(Piece(text, s)); }
  }

  /** Where nothing drops, an opening tag writes a new line if it is a block, then a dash if it is an item, and a space
      if it is a cell. */
  lemma MarksMeaning(s: seq<Element>, name: string)
    ensures Visible(Marks(s, name)) == if Drops(s) then [] else
              (if name in BLOCK then Units("\n") else []) + (if name == "li" then Units("- ") else [])
                + (if name == "td" || name == "th" then Units(" ") else [])
  {
    assert Units("\n") == [0x0a] && Units(" ") == [0x20];
    var a := if name in BLOCK then [Piece(NEWLINE, s)] else [];
    var b := if name == "li" then [Piece(DASH, s)] else [];
    var c := if name == "td" || name == "th" then [Piece(SPACE, s)] else [];
    VisibleConcat(a + b, c);
    VisibleConcat(a, b);
    VisibleIf(name in BLOCK, NEWLINE, s);
    VisibleIf(name == "li", DASH, s);
    VisibleIf(name == "td" || name == "th", SPACE, s);
  }

  /** Closing an element writes the address of a link in angle brackets, and then a new line if it is a block. */
  lemma ClosingMeaning(e: Element, below: seq<Element>)
    ensures Visible(ClosingOne(e, below)) == if Drops(below) then [] else
              (if e.href.Some? then Units(" <") + e.href.value + Units(">") else [])
                + (if e.name in BLOCK then Units("\n") else [])
  {
    assert Units("\n") == [0x0a];
    var a := if e.href.Some? then [Piece(LinkText(e.href.value), below)] else [];
    var b := if e.name in BLOCK then [Piece(NEWLINE, below)] else [];
    VisibleConcat(a, b);
    if e.href.Some? { VisibleOne(Piece(LinkText(e.href.value), below)); }
    VisibleIf(e.name in BLOCK, NEWLINE, below);
  }

  /** A link as a mail writes it. */
  function Link(address: Text, text: Text): seq<Token> {
    [Open("a", false, Some(address), false), Chars(text), Close("a")]
  }

  lemma RestOfThree(r: Reading, a: Token, b: Token, c: Token)
    ensures Rest(r, [a, b, c]) == Read(Read(Read(r, a), b), c)
  {
    assert [a, b, c][..2] == [a, b] && [a, b][..1] == [a] && [a][..0] == [];
    assert Rest(r, [a]) == Read(r, a);
    assert Rest(r, [a, b]) == Read(Rest(r, [a]), b);
  }

  lemma OpenLink(r: Reading, address: Text)
    requires !r.truncated && |r.stack| < 256
    ensures Read(r, Open("a", false, Some(address), false))
         == r.(stack := r.stack + [Element("a", false, Some(address))])
  {
    assert "a" !in BLOCK && "a" !in VOID && "a" !in DROPPED;
    assert r.pieces + ([] + []) == r.pieces;
  }

  lemma CloseLink(r: Reading, below: seq<Element>, address: Text)
    requires !r.truncated && r.stack == below + [Element("a", false, Some(address))]
    ensures Read(r, Close("a")) == r.(stack := below, pieces := r.pieces + [Piece(LinkText(address), below)])
  {
    assert "a" !in BLOCK && r.stack[..|below|] == below;
    assert LastOpen(r.stack, {"a"}) == |below|;
    assert Closing(r.stack, |below|) == [Piece(LinkText(address), below)] + [] + [];
  }

  lemma LinkRead(r: Reading, address: Text, text: Text)
    requires !r.truncated && |r.stack| < 256
    ensures var e := Element("a", false, Some(address));
            Rest(r, Link(address, text)) ==
            r.(pieces := r.pieces + [Piece(text, r.stack + [e])] + [Piece(LinkText(address), r.stack)])
  {
    var e := Element("a", false, Some(address));
    RestOfThree(r, Open("a", false, Some(address), false), Chars(text), Close("a"));
    OpenLink(r, address);
    CloseLink(r.(stack := r.stack + [e], pieces := r.pieces + [Piece(text, r.stack + [e])]), r.stack, address);
  }

  /** What tokens put in between write, when they leave the place as it was. */
  lemma OutputWith(tokens: seq<Token>, i: nat, more: seq<Token>, added: seq<Piece>)
    requires i <= |tokens|
    requires var r := ReadAll(tokens[..i]); Rest(r, more) == r.(pieces := r.pieces + added)
    ensures var r := ReadAll(tokens[..i]); var q := Rest(r.(pieces := []), tokens[i..]);
            Output(tokens[..i] + more + tokens[i..])
              == Visible(r.pieces) + Visible(added) + Visible(q.pieces + Closing(q.stack, 0))
  {
    var r, behind := ReadAll(tokens[..i]), tokens[i..];
    RestOf(tokens[..i], more);
    RestOf(tokens[..i] + more, behind);
    RestAdds(r, behind, r.pieces + added);
    var q := Rest(r.(pieces := []), behind);
    AddTogether(r.pieces + added, q.pieces, Closing(q.stack, 0));
    VisibleConcat(r.pieces + added, q.pieces + Closing(q.stack, 0));
    VisibleConcat(r.pieces, added);
  }

  lemma VisibleLink(stack: seq<Element>, address: Text, text: Text)
    requires !Drops(stack)
    ensures var e := Element("a", false, Some(address));
            Visible([Piece(text, stack + [e])] + [Piece(LinkText(address), stack)])
              == text + (Units(" <") + address + Units(">"))
  {
    var e := Element("a", false, Some(address));
    VisibleConcat([Piece(text, stack + [e])], [Piece(LinkText(address), stack)]);
    VisibleOne(Piece(text, stack + [e]));
    VisibleOne(Piece(LinkText(address), stack));
  }

  /** `x` and `y` are the output before and behind place `i`; a link put there adds its text and its address between. */
  ghost predicate ShowsLinks(tokens: seq<Token>, i: nat, x: Text, y: Text)
    requires i <= |tokens|
  {
    && Output(tokens) == x + y
    && forall address: Text, text: Text ::
         Output(tokens[..i] + Link(address, text) + tokens[i..])
           == x + (text + (Units(" <") + address + Units(">"))) + y
  }

  /** The output behind place `i`, as far as it depends on what stands there. */
  function Behind(tokens: seq<Token>, i: nat): Text
    requires i <= |tokens|
  {
    var q := Rest(ReadAll(tokens[..i]).(pieces := []), tokens[i..]);
    Visible(q.pieces + Closing(q.stack, 0))
  }

  lemma OutputParts(tokens: seq<Token>, i: nat)
    requires i <= |tokens|
    ensures Output(tokens) == Visible(ReadAll(tokens[..i]).pieces) + Behind(tokens, i)
  {
    var r := ReadAll(tokens[..i]);
    assert r.pieces + [] == r.pieces && tokens[..i] + [] + tokens[i..] == tokens;
    OutputWith(tokens, i, [], []);
    assert Visible(r.pieces) + [] == Visible(r.pieces);
  }

  lemma LinkOutput(tokens: seq<Token>, i: nat, address: Text, text: Text)
    requires i <= |tokens| && !ReadAll(tokens[..i]).truncated
    requires !Drops(ReadAll(tokens[..i]).stack) && |ReadAll(tokens[..i]).stack| < 256
    ensures Output(tokens[..i] + Link(address, text) + tokens[i..])
         == Visible(ReadAll(tokens[..i]).pieces) + (text + (Units(" <") + address + Units(">"))) + Behind(tokens, i)
  {
    var r := ReadAll(tokens[..i]);
    var a, b := [Piece(text, r.stack + [Element("a", false, Some(address))])], [Piece(LinkText(address), r.stack)];
    LinkRead(r, address, text);
    AddTogether(r.pieces, a, b);
    OutputWith(tokens, i, Link(address, text), a + b);
    VisibleLink(r.stack, address, text);
  }

  /** Wherever nothing hides and the nesting leaves room, a link shows its text and its address. */
  lemma LinkIsShown(tokens: seq<Token>, i: nat)
    requires i <= |tokens| && !ReadAll(tokens[..i]).truncated
    requires !Hidden(tokens, OpenTags(tokens, i)) && |OpenTags(tokens, i)| < 256
    ensures exists x, y :: ShowsLinks(tokens, i, x, y)
  {
    var r := ReadAll(tokens[..i]);
    StackIsOpenTags(tokens, i);
    HiddenIsDrops(tokens, r.stack, OpenTags(tokens, i));
    var x, y := Visible(r.pieces), Behind(tokens, i);
    OutputParts(tokens, i);
    forall address: Text, text: Text
      ensures Output(tokens[..i] + Link(address, text) + tokens[i..])
                == x + (text + (Units(" <") + address + Units(">"))) + y
    {
      LinkOutput(tokens, i, address, text);
    }
    assert ShowsLinks(tokens, i, x, y);
  }
}
