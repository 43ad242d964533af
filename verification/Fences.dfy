/** Fenced code blocks: printed with a fence no text can break out of, and read as section 4.5 of
    CommonMark 0.31.2 reads them. */
module Fences {
  import opened Wrappers
  import opened CodeUnits
  import opened TextLines

  const BACKTICK: CodeUnit := 0x60
  const TILDE: CodeUnit := 0x7e
  const SPACE: CodeUnit := 0x20
  const TAB: CodeUnit := 0x09
  const RETURN: CodeUnit := 0x0d

  // ----- Printing

  /** How many of `c` a text starts with. */
  function Leading(c: CodeUnit, t: Text): (n: nat)
    ensures n <= |t| && (forall i | 0 <= i < n :: t[i] == c) && (n < |t| ==> t[n] != c)
  {
    if t == [] || t[0] != c then 0 else 1 + Leading(c, t[1..])
  }

  /** The lengths of the maximal backtick runs, in order. */
  function Runs(t: Text): seq<nat>
    decreases |t|
  {
    if t == [] then []
    else if t[0] == BACKTICK then [Leading(BACKTICK, t)] + Runs(t[Leading(BACKTICK, t)..])
    else Runs(t[1..])
  }

  function Largest(ns: seq<nat>): (m: nat)
    ensures forall i | 0 <= i < |ns| :: ns[i] <= m
    ensures m == 0 || m in ns
  {
    if ns == [] then 0 else
      var rest := Largest(ns[1..]);
      if ns[0] > rest then ns[0] else rest
  }

  function FenceLength(t: Text): (n: nat)
    ensures n >= 3
  {
    var n := 1 + Largest(Runs(t));
    if n < 3 then 3 else n
  }

  function Fence(n: nat): Text { seq(n, _ => BACKTICK) }

  function CodeBlock(t: Text): (r: Text)
    ensures |r| == |t| + 2 * FenceLength(t) + 2
  {
    Fence(FenceLength(t)) + [NEWLINE] + t + [NEWLINE] + Fence(FenceLength(t))
  }

  /** The fence is longer than any stretch of backticks in the text. */
  lemma {:induction false} FenceIsLonger(t: Text, i: nat)
    requires i <= |t|
    ensures Leading(BACKTICK, t[i..]) <= Largest(Runs(t)) < FenceLength(t)
    decreases |t|
  {
    if i < |t| {
      if t[0] == BACKTICK {
        var n := Leading(BACKTICK, t);
        if i >= n {
          FenceIsLonger(t[n..], i - n);
          assert t[n..][i - n..] == t[i..];
        } else {
          assert Leading(BACKTICK, t[i..]) <= n by { LeadingOfSuffix(BACKTICK, t, i); }
        }
        assert Runs(t)[1..] == Runs(t[n..]);
      } else if i > 0 {
        FenceIsLonger(t[1..], i - 1);
        assert t[1..][i - 1..] == t[i..];
      }
    } else {
      assert t[i..] == [];
    }
  }

  lemma {:induction false} LeadingOfSuffix(c: CodeUnit, t: Text, i: nat)
    requires i <= Leading(c, t)
    ensures Leading(c, t[i..]) == Leading(c, t) - i
  {
    if i > 0 {
      LeadingOfSuffix(c, t[1..], i - 1);
      assert t[1..][i - 1..] == t[i..];
    }
  }

  /** The longest stretch of backticks stands somewhere. */
  lemma {:induction false} LongestRun(t: Text) returns (i: nat)
    ensures i <= |t| && Leading(BACKTICK, t[i..]) == Largest(Runs(t))
    decreases |t|
  {
    i := 0;
    if t == [] {
      assert t[0..] == [];
    } else if t[0] == BACKTICK {
      var n := Leading(BACKTICK, t);
      assert Runs(t)[0] == n && Runs(t)[1..] == Runs(t[n..]);
      assert t[0..] == t;
      if Largest(Runs(t)) != n {
        var j := LongestRun(t[n..]);
        i := n + j;
        assert t[n..][j..] == t[i..];
      }
    } else {
      var j := LongestRun(t[1..]);
      i := j + 1;
      assert t[1..][j..] == t[i..];
    }
  }

  /** What a text starts with after `i` is no shorter in a text it is the beginning of, but for a last other unit. */
  lemma {:induction false} LeadingOfBeginning(t: Text, more: Text, tail: Text)
    requires tail == [] || tail[0] != BACKTICK
    ensures Leading(BACKTICK, t + tail) <= Leading(BACKTICK, t + more)
  {
    if t == [] {
      assert t + tail == tail && t + more == more;
    } else {
      assert (t + tail)[0] == t[0] == (t + more)[0];
      assert (t + tail)[1..] == t[1..] + tail && (t + more)[1..] == t[1..] + more;
      LeadingOfBeginning(t[1..], more, tail);
    }
  }

  /** Cutting a text and marking the cut never takes a longer fence. */
  lemma FenceOfBeginning(t: Text, k: nat, mark: Text)
    requires k <= |t| && |mark| <= 1 && BACKTICK !in mark
    ensures FenceLength(t[..k] + mark) <= FenceLength(t)
  {
    var s := t[..k] + mark;
    var i := LongestRun(s);
    if i <= k {
      assert s[i..] == t[i..k] + mark && t[i..] == t[i..k] + t[k..];
      LeadingOfBeginning(t[i..k], t[k..], mark);
      FenceIsLonger(t, i);
    } else {
      assert s[i..] == [];
    }
  }

  // ----- Reading

  predicate EndsLine(u: CodeUnit) { u == NEWLINE || u == RETURN }

  /** The length of the first line with its ending: a line feed, a carriage return, or both. */
  function LineLength(s: Text): (n: nat)
    ensures n <= |s| && (s != [] ==> n > 0)
  {
    if s == [] then 0
    else if s[0] == NEWLINE then 1
    else if s[0] == RETURN then if |s| > 1 && s[1] == NEWLINE then 2 else 1
    else 1 + LineLength(s[1..])
  }

  /** At most three spaces. */
  function Indent(s: Text): (n: nat)
    ensures n <= |s| && forall i | 0 <= i < n :: s[i] == SPACE
  {
    var n := Leading(SPACE, s);
    if n > 3 then 3 else n
  }

  predicate OnlyBlanks(s: Text) {
    s == [] || EndsLine(s[0]) || ((s[0] == SPACE || s[0] == TAB) && OnlyBlanks(s[1..]))
  }

  /** A line that closes a block of `n` times `c`: at least as many, and nothing but blanks after them. */
  predicate Closes(s: Text, c: CodeUnit, n: nat) {
    var run := Leading(c, s[Indent(s)..]);
    run >= n && OnlyBlanks(s[Indent(s) + run..])
  }

  /** An info string after a backtick fence has no backtick. */
  predicate InfoString(s: Text) {
    s == [] || EndsLine(s[0]) || (s[0] != BACKTICK && InfoString(s[1..]))
  }

  /** The fence that opens at the line start, if one does; printed fences are not indented. */
  function Opens(s: Text): Option<(CodeUnit, nat)> {
    var ticks, tildes := Leading(BACKTICK, s), Leading(TILDE, s);
    if ticks >= 3 && InfoString(s[ticks..]) then Some((BACKTICK, ticks))
    else if tildes >= 3 then Some((TILDE, tildes))
    else None
  }

  /** The lines up to the closing fence, with their endings, and what follows the closing line. */
  function Body(s: Text, c: CodeUnit, n: nat): Option<(Text, Text)>
    decreases |s|
  {
    if s == [] then None
    else if Closes(s, c, n) then Some(([], s[LineLength(s)..]))
    else
      var k := LineLength(s);
      match Body(s[k..], c, n)
      case None => None
      case Some((content, rest)) => Some((s[..k] + content, rest))
  }

  lemma {:induction false} BodyShrinks(s: Text, c: CodeUnit, n: nat)
    requires Body(s, c, n).Some?
    ensures |Body(s, c, n).value.1| < |s|
    decreases |s|
  {
    if !Closes(s, c, n) { BodyShrinks(s[LineLength(s)..], c, n); }
  }

  /** The contents of all fenced blocks of a document, in order; a block left open runs to the end. */
  function Blocks(s: Text): seq<Text>
    decreases |s|
  {
    if s == [] then [] else
      var after := s[LineLength(s)..];
      match Opens(s)
      case None => Blocks(after)
      case Some((c, n)) =>
        match Body(after, c, n)
        case None => [after]
        case Some((content, rest)) => BodyShrinks(after, c, n); [content] + Blocks(rest)
  }

  // ----- The printed block read back

  lemma {:induction false} LineWithin(t: Text, u: Text)
    ensures 0 < LineLength(t + [NEWLINE] + u) <= |t| + 1
  {
    var s := t + [NEWLINE] + u;
    if t == [] {
      assert s[0] == NEWLINE;
    } else {
      assert s[0] == t[0] && s[1..] == t[1..] + [NEWLINE] + u;
      LineWithin(t[1..], u);
    }
  }

  lemma {:induction false} LeadingWithin(c: CodeUnit, t: Text, u: Text)
    requires c != NEWLINE
    ensures Leading(c, t + [NEWLINE] + u) == Leading(c, t)
  {
    var s := t + [NEWLINE] + u;
    if t == [] {
      assert s[0] == NEWLINE;
    } else {
      assert s[0] == t[0] && s[1..] == t[1..] + [NEWLINE] + u;
      LeadingWithin(c, t[1..], u);
    }
  }

  /** Nowhere as many as `n` backticks in a row. */
  ghost predicate Fewer(t: Text, n: nat) { forall i | 0 <= i <= |t| :: Leading(BACKTICK, t[i..]) < n }

  /** No line of the text closes the block: its backticks are too few. */
  lemma NoEarlyClose(t: Text, u: Text, n: nat)
    requires Fewer(t, n)
    ensures !Closes(t + [NEWLINE] + u, BACKTICK, n)
  {
    var s := t + [NEWLINE] + u;
    LeadingWithin(SPACE, t, u);
    var i := Indent(s);
    assert i <= |t| && s[i..] == t[i..] + [NEWLINE] + u;
    LeadingWithin(BACKTICK, t[i..], u);
  }

  lemma LeadingFence(n: nat, u: Text)
    requires u == [] || u[0] != BACKTICK
    ensures Leading(BACKTICK, Fence(n) + u) == n && Leading(TILDE, Fence(n) + u) <= |u|
    decreases n
  {
    var s := Fence(n) + u;
    if n > 0 {
      assert s[0] == BACKTICK && s[1..] == Fence(n - 1) + u;
      LeadingFence(n - 1, u);
    } else {
      assert s == u;
    }
  }

  lemma {:induction false} FenceLine(n: nat, u: Text)
    requires u == [] || u[0] == NEWLINE
    ensures LineLength(Fence(n) + u) == if u == [] then n else n + 1
    decreases n
  {
    var s := Fence(n) + u;
    if n > 0 {
      assert s[0] == BACKTICK && s[1..] == Fence(n - 1) + u;
      FenceLine(n - 1, u);
    } else {
      assert s == u;
    }
  }

  lemma FenceCloses(n: nat, u: Text)
    requires n > 0 && (u == [] || u[0] == NEWLINE)
    ensures Closes(Fence(n) + u, BACKTICK, n)
  {
    var s := Fence(n) + u;
    assert s[0] == BACKTICK;
    assert Indent(s) == 0 && s[0..] == s;
    LeadingFence(n, u);
    assert s[n..] == u;
  }

  lemma BodyNext(s: Text, c: CodeUnit, n: nat, k: nat, content: Text, rest: Text)
    requires s != [] && !Closes(s, c, n) && k == LineLength(s) && Body(s[k..], c, n) == Some((content, rest))
    ensures Body(s, c, n) == Some((s[..k] + content, rest))
  {
  }

  lemma BodyEnds(n: nat, u: Text)
    requires n > 0 && (u == [] || u[0] == NEWLINE)
    ensures Body(Fence(n) + u, BACKTICK, n) == Some(([], if u == [] then [] else u[1..]))
  {
    var s := Fence(n) + u;
    FenceCloses(n, u);
    FenceLine(n, u);
    assert s[LineLength(s)..] == if u == [] then [] else u[1..];
  }

  /** From any line start inside the text on, the rest of it is content and the printed fence closes. */
  lemma {:induction false} BodyOfPrinted(t: Text, n: nat, end: Text, rest: Text)
    requires Fewer(t, n) && Body(end, BACKTICK, n) == Some(([], rest))
    ensures Body(t + [NEWLINE] + end, BACKTICK, n) == Some((t + [NEWLINE], rest))
    decreases |t|
  {
    var s := t + [NEWLINE] + end;
    NoEarlyClose(t, end, n);
    LineWithin(t, end);
    var k := LineLength(s);
    if k == |t| + 1 {
      assert s[k..] == end && s[..k] + [] == t + [NEWLINE];
      BodyNext(s, BACKTICK, n, k, [], rest);
    } else {
      LinesSplit(t, end, k);
      FewerAfter(t, n, k);
      BodyOfPrinted(t[k..], n, end, rest);
      BodyNext(s, BACKTICK, n, k, t[k..] + [NEWLINE], rest);
    }
  }

  lemma FewerAfter(t: Text, n: nat, k: nat)
    requires Fewer(t, n) && k <= |t|
    ensures Fewer(t[k..], n)
  {
    assert forall i | 0 <= i <= |t[k..]| :: t[k..][i..] == t[k + i..];
  }

  lemma LinesSplit(t: Text, end: Text, k: nat)
    requires k <= |t|
    ensures (t + [NEWLINE] + end)[k..] == t[k..] + [NEWLINE] + end
    ensures (t + [NEWLINE] + end)[..k] + (t[k..] + [NEWLINE]) == t + [NEWLINE]
  {
    assert t == t[..k] + t[k..];
  }

  lemma OpensPrinted(n: nat, u: Text)
    requires n >= 3 && u != [] && u[0] == NEWLINE
    ensures Opens(Fence(n) + u) == Some((BACKTICK, n)) && (Fence(n) + u)[LineLength(Fence(n) + u)..] == u[1..]
  {
    var s := Fence(n) + u;
    LeadingFence(n, u);
    FenceLine(n, u);
    assert s[n..] == u && s[n + 1..] == u[1..];
  }

  lemma BlocksNext(s: Text, c: CodeUnit, n: nat, content: Text, rest: Text)
    requires s != [] && Opens(s) == Some((c, n)) && Body(s[LineLength(s)..], c, n) == Some((content, rest))
    ensures Blocks(s) == [content] + Blocks(rest)
  {
  }

  lemma FenceSuffices(t: Text)
    ensures Fewer(t, FenceLength(t))
  {
    forall i | 0 <= i <= |t| ensures Leading(BACKTICK, t[i..]) < FenceLength(t) { FenceIsLonger(t, i); }
  }

  lemma PrintedReadsBack(t: Text, n: nat, u: Text, rest: Text)
    requires n >= 3 && Fewer(t, n) && Body(Fence(n) + u, BACKTICK, n) == Some(([], rest))
    ensures Blocks(Fence(n) + ([NEWLINE] + (t + [NEWLINE] + (Fence(n) + u)))) == [t + [NEWLINE]] + Blocks(rest)
  {
    var after := t + [NEWLINE] + (Fence(n) + u);
    OpensPrinted(n, [NEWLINE] + after);
    assert ([NEWLINE] + after)[1..] == after;
    BodyOfPrinted(t, n, Fence(n) + u, rest);
    BlocksNext(Fence(n) + ([NEWLINE] + after), BACKTICK, n, t + [NEWLINE], rest);
  }

  lemma Reassociate(fence: Text, t: Text, u: Text)
    ensures fence + [NEWLINE] + t + [NEWLINE] + fence + u == fence + ([NEWLINE] + (t + [NEWLINE] + (fence + u)))
  {
  }

  /** A printed block, followed by nothing or by more lines, reads back as its text, and reading goes on after it. */
  lemma BlockReadsBack(t: Text, u: Text)
    requires u == [] || u[0] == NEWLINE
    ensures Blocks(CodeBlock(t) + u) == [t + [NEWLINE]] + Blocks(if u == [] then [] else u[1..])
  {
    var n := FenceLength(t);
    FenceSuffices(t);
    BodyEnds(n, u);
    PrintedReadsBack(t, n, u, if u == [] then [] else u[1..]);
    Reassociate(Fence(n), t, u);
  }

  // ----- Documents of lines and blocks

  datatype Part = Line(text: Text) | Block(text: Text)

  predicate OneLine(t: Text) { forall u <- t :: !EndsLine(u) }

  /** A line that opens no block. */
  predicate Plain(p: Part) {
    p.Line? ==> p.text != [] && OneLine(p.text) && p.text[0] != BACKTICK && p.text[0] != TILDE && p.text[0] != SPACE
  }

  function Print(p: Part): Text { match p case Line(t) => t case Block(t) => CodeBlock(t) }

  function PrintAll(parts: seq<Part>): seq<Text> { seq(|parts|, i requires 0 <= i < |parts| => Print(parts[i])) }

  function PartContent(p: Part): seq<Text> { if p.Line? then [] else [p.text + [NEWLINE]] }

  function Contents(parts: seq<Part>): seq<Text> {
    if parts == [] then [] else PartContent(parts[0]) + Contents(parts[1..])
  }

  lemma {:induction false} PlainLineLength(t: Text, u: Text)
    requires OneLine(t) && (u == [] || u[0] == NEWLINE)
    ensures LineLength(t + u) == if u == [] then |t| else |t| + 1
  {
    if t == [] {
      assert t + u == u;
    } else {
      assert (t + u)[0] == t[0] && t[0] in t && (t + u)[1..] == t[1..] + u;
      assert forall x <- t[1..] :: x in t;
      PlainLineLength(t[1..], u);
    }
  }

  lemma LineIsSkipped(t: Text, u: Text)
    requires Plain(Line(t)) && (u == [] || u[0] == NEWLINE)
    ensures Blocks(t + u) == Blocks(if u == [] then [] else u[1..])
  {
    var s := t + u;
    assert s[0] == t[0];
    PlainLineLength(t, u);
    assert Opens(s).None?;
    assert s[LineLength(s)..] == if u == [] then [] else u[1..];
  }

  lemma PartReadsBack(p: Part, u: Text)
    requires Plain(p) && (u == [] || u[0] == NEWLINE)
    ensures Blocks(Print(p) + u) == PartContent(p) + Blocks(if u == [] then [] else u[1..])
  {
    match p
    case Line(t) => LineIsSkipped(t, u);
    case Block(t) => BlockReadsBack(t, u);
  }

  /** What follows the first part. */
  function After(parts: seq<Part>): Text
    requires parts != []
  {
    if |parts| == 1 then [] else [NEWLINE] + Join(PrintAll(parts[1..]))
  }

  lemma JoinFirst(parts: seq<Part>)
    requires parts != []
    ensures Join(PrintAll(parts)) == Print(parts[0]) + After(parts)
    ensures (if After(parts) == [] then [] else After(parts)[1..]) == Join(PrintAll(parts[1..]))
  {
    assert PrintAll(parts)[1..] == PrintAll(parts[1..]);
  }

  /** A document of plain lines and printed blocks has those blocks and no others, whatever their texts. */
  lemma {:induction false} DocumentReadsBack(parts: seq<Part>)
    requires forall p <- parts :: Plain(p)
    ensures Blocks(Join(PrintAll(parts))) == Contents(parts)
  {
    if parts != [] {
      DocumentReadsBack(parts[1..]);
      JoinFirst(parts);
      assert Plain(parts[0]);
      PartReadsBack(parts[0], After(parts));
    }
  }
}
