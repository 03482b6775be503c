/** How a source is cut into segments, and which tokens the segments have: indentation, line breaks, comments
    and brackets. Where an ordinary token ends is a parameter. */
module Lines {

  datatype Kind = Indent | Dedent | Newline | Comment | Plain | Eof

  datatype Tok = Tok(kind: Kind, start: nat, end: nat)

  /** A token up to `end`, with the column after it; or text that yields no token; or an error. */
  datatype Piece = Bad | Token(end: nat, column: nat) | Skipped(end: nat, column: nat)

  /** The characters, what begins at each of them, and which of them names are made of. */
  datatype Text = Text(s: seq<char>, scan: nat -> Piece, isName: char -> bool)

  // ----- the stack of columns -----

  predicate Increasing(stack: seq<nat>) {
    forall i, j :: 0 <= i < j < |stack| ==> stack[i] < stack[j]
  }

  /** The levels that are left when everything deeper than `target` is closed. */
  function Closed(stack: seq<nat>, target: nat): seq<nat> {
    if stack == [] || stack[|stack| - 1] <= target then stack else Closed(stack[..|stack| - 1], target)
  }

  lemma {:induction false} ClosedMeans(stack: seq<nat>, target: nat)
    requires Increasing(stack) && stack != [] && stack[0] <= target
    ensures var c := Closed(stack, target);
            && c != [] && c <= stack && Increasing(c) && c[|c| - 1] <= target
            && (c[|c| - 1] == target <==> target in stack)
            && (forall k :: |c| <= k < |stack| ==> stack[k] > target)
  {
    hide Increasing;
    var rest, top := stack[..|stack| - 1], stack[|stack| - 1];
    assert stack == rest + [top];
    TopIsGreatest(stack);
    if top > target {
      ClosedMeans(rest, target);
    }
  }

  lemma TopIsGreatest(stack: seq<nat>)
    requires Increasing(stack) && stack != []
    ensures var rest := stack[..|stack| - 1];
            Increasing(rest) && (forall c :: c in rest ==> c < stack[|stack| - 1])
  {
  }

  function Top(stack: seq<nat>): nat
    requires stack != []
  {
    stack[|stack| - 1]
  }

  /** The levels after a line that stands at `column`: a deeper one is opened, others are closed. */
  function Levels(stack: seq<nat>, column: nat): seq<nat>
    requires stack != []
  {
    if column > Top(stack) then stack + [column] else Closed(stack, column)
  }

  /** A line may stand at an open level, or deeper than all. */
  predicate Fits(stack: seq<nat>, column: nat)
    requires stack != []
  {
    column > Top(stack) || column in stack
  }

  /** The columns of the open levels, the outermost one first. */
  predicate IsStack(stack: seq<nat>) {
    stack != [] && stack[0] == 1 && Increasing(stack)
  }

  lemma LevelsMeans(stack: seq<nat>, column: nat)
    requires IsStack(stack) && column >= 1
    ensures var r := Levels(stack, column);
            && IsStack(r) && (Fits(stack, column) <==> Top(r) == column) && Top(r) <= column
            && (column == Top(stack) ==> r == stack)
            && (column <= Top(stack) ==> r == Closed(stack, column) && r <= stack)
  {
    if column <= Top(stack) {
      ClosedMeans(stack, column);
    }
  }

  // ----- comments -----

  predicate PairAt(s: seq<char>, p: nat, a: char, b: char) {
    p + 1 < |s| && s[p] == a && s[p + 1] == b
  }

  /** Scanned from `from`, an opening or closing mark of a comment begins at `p`: marks do not overlap. */
  predicate MarkAt(s: seq<char>, from: nat, p: nat)
    requires from <= p
  {
    (PairAt(s, p, '#', '*') || PairAt(s, p, '*', '#')) && !(p > from && MarkAt(s, from, p - 1))
  }

  /** The opening marks less the closing ones between `from` and `p`. */
  function Nest(s: seq<char>, from: nat, p: nat): int
    requires from <= p <= |s|
  {
    if p < from + 2 then 0
    else Nest(s, from, p - 1) + if MarkAt(s, from, p - 2) then (if s[p - 2] == '#' then 1 else -1) else 0
  }

  /** A comment goes on to the first place where it has as many closing as opening marks. */
  ghost predicate Encloses(s: seq<char>, p: nat, e: nat) {
    && PairAt(s, p, '#', '*') && p + 2 <= e <= |s| && Nest(s, p, e) == 0
    && forall q :: p + 2 <= q < e ==> Nest(s, p, q) > 0
  }

  /** There is no such place. */
  ghost predicate Unending(s: seq<char>, p: nat) {
    PairAt(s, p, '#', '*') && forall q :: p + 2 <= q <= |s| ==> Nest(s, p, q) > 0
  }

  lemma EnclosesOnce(s: seq<char>, p: nat, e: nat, e': nat)
    requires Encloses(s, p, e)
    ensures Encloses(s, p, e') ==> e == e'
    ensures !Unending(s, p)
  {
    assert p + 2 <= e <= |s| && Nest(s, p, e) == 0;
  }

  /** The column after the characters from `p` to `e`. */
  function After(s: seq<char>, p: nat, e: nat, column: nat): (r: nat)
    requires p <= e <= |s|
    ensures column >= 1 ==> r >= 1
  {
    if p == e then column else if s[e - 1] == '\n' then 1 else After(s, p, e - 1, column) + 1
  }

  // ----- segments -----

  /** Single blanks; line breaks; a carriage return alone; comments to the end of the line, enclosed ones, and one
      that is not closed; single brackets; a directive; what the scanner finds, with a token or without. */
  datatype Part = Space | Break | Return | LineComment | BlockComment | Unclosed | Opening | Closing | Slash | Lexeme | Gap

  datatype Seg = Seg(part: Part, start: nat, end: nat)

  predicate Content(p: Part) {
    p in {Opening, Closing, Slash, Lexeme, Gap}
  }

  function EndOf(segs: seq<Seg>): nat {
    if segs == [] then 0 else segs[|segs| - 1].end
  }

  /** How many brackets are open; a closing one too many does not count. */
  function Depth(segs: seq<Seg>): nat {
    if segs == [] then 0
    else
      var d := Depth(segs[..|segs| - 1]);
      match segs[|segs| - 1].part
      case Opening => d + 1
      case Closing => if d > 0 then d - 1 else 0
      case _ => d
  }

  /** No content since the last line break outside brackets: a logical line begins. */
  predicate Fresh(segs: seq<Seg>) {
    segs == [] ||
    match segs[|segs| - 1].part
    case Break => Depth(segs[..|segs| - 1]) == 0
    case Space => Fresh(segs[..|segs| - 1])
    case LineComment => Fresh(segs[..|segs| - 1])
    case BlockComment => Fresh(segs[..|segs| - 1])
    case Unclosed => Fresh(segs[..|segs| - 1])
    case _ => false
  }

  /** The column where a logical line begins: a tab counts for four. */
  function Column(s: seq<char>, segs: seq<Seg>): (r: nat)
    ensures r >= 1
  {
    if segs == [] then 1
    else
      var before, g := segs[..|segs| - 1], segs[|segs| - 1];
      match g.part
      case Space => Column(s, before) + if g.start < |s| && s[g.start] == '\t' then 4 else 1
      case LineComment => if g.start <= g.end <= |s| then After(s, g.start, g.end, Column(s, before)) else 1
      case BlockComment => if g.start <= g.end <= |s| then After(s, g.start, g.end, Column(s, before)) else 1
      case Unclosed => if g.start <= g.end <= |s| then After(s, g.start, g.end, Column(s, before)) else 1
      case _ => 1
  }

  /** The open levels: the first content of a logical line moves them to its column. */
  function LevelsOf(s: seq<char>, segs: seq<Seg>): (r: seq<nat>)
    ensures IsStack(r)
  {
    if segs == [] then [1]
    else
      var before := segs[..|segs| - 1];
      var levels, column := LevelsOf(s, before), Column(s, before);
      if Begins(before, segs[|segs| - 1]) then
        LevelsMeans(levels, column);
        Levels(levels, column)
      else levels
  }

  /** The segment is the first content of a logical line. */
  predicate Begins(before: seq<Seg>, g: Seg) {
    Content(g.part) && Fresh(before)
  }

  predicate IsBreak(c: char) {
    c == '\n' || c == '\r'
  }

  predicate IsBlank(c: char) {
    c == ' ' || c == '\t'
  }

  predicate IsOpening(c: char) {
    c in {'(', '[', '{'}
  }

  predicate IsClosing(c: char) {
    c in {')', ']', '}'}
  }

  /** The scanner decides on what begins at `p`. */
  predicate Ordinary(t: Text, first: bool, p: nat)
    requires p < |t.s|
  {
    var c := t.s[p];
    && !IsBlank(c) && !IsBreak(c) && !IsOpening(c) && !IsClosing(c) && !PairAt(t.s, p, '#', '*')
    && !(first && (c == '#' || c == '/'))
  }

  /** What a segment of each kind looks like. */
  ghost predicate Shaped(t: Text, first: bool, g: Seg) {
    var s, p, e := t.s, g.start, g.end;
    && p < e <= |s|
    && match g.part
       case Space => IsBlank(s[p]) && e == p + 1
       case Break =>
         || (s[p] == '\n' && e == p + 1) || (PairAt(s, p, '\r', '\n') && e == p + 2)
         || (first && s[p] == '\r' && !PairAt(s, p, '\r', '\n') && e == p + 1)
       case Return => !first && s[p] == '\r' && !PairAt(s, p, '\r', '\n') && e == p + 1
       case LineComment =>
         && first && s[p] == '#' && !PairAt(s, p, '#', '*')
         && (forall k :: p <= k < e ==> !IsBreak(s[k])) && (e < |s| ==> IsBreak(s[e]))
       case BlockComment => Encloses(s, p, e)
       case Unclosed => first && Unending(s, p) && e == |s|
       case Opening => IsOpening(s[p]) && e == p + 1
       case Closing => IsClosing(s[p]) && e == p + 1
       case Slash =>
         && first && s[p] == '/'
         && if PairAt(s, p, '/', '=') then e == p + 2
            else (forall k :: p < k < e ==> t.isName(s[k])) && (e < |s| ==> !t.isName(s[e]))
       case Lexeme => Ordinary(t, first, p) && t.scan(p).Token? && t.scan(p).end == e
       case Gap => Ordinary(t, first, p) && t.scan(p).Skipped? && t.scan(p).end == e
  }

  /** The segment may follow: it begins where the last one ends, and a logical line stands at a column that fits
      the open levels. */
  ghost predicate Legal(t: Text, before: seq<Seg>, g: Seg) {
    && g.start == EndOf(before) && Shaped(t, Fresh(before), g)
    && (Begins(before, g) ==> Fits(LevelsOf(t.s, before), Column(t.s, before)))
  }

  /** The source is cut into the segments, from its start. */
  ghost predicate Cut(t: Text, segs: seq<Seg>) {
    forall k :: 0 <= k < |segs| ==> Legal(t, segs[..k], segs[k])
  }

  lemma ShapedOnce(t: Text, first: bool, g: Seg, h: Seg)
    requires Shaped(t, first, g) && Shaped(t, first, h) && g.start == h.start
    ensures g == h
  {
    if g.part.BlockComment? {
      EnclosesOnce(t.s, g.start, g.end, h.end);
    }
    if h.part.BlockComment? {
      EnclosesOnce(t.s, h.start, h.end, g.end);
    }
  }

  /** There is at most one way to go on. */
  lemma LegalOnce(t: Text, before: seq<Seg>, g: Seg, h: Seg)
    requires Legal(t, before, g) && Legal(t, before, h)
    ensures g == h
  {
    hide Shaped;
    ShapedOnce(t, Fresh(before), g, h);
  }

  /** Of two ways to cut the source one begins with the other. */
  lemma {:induction false} CutOnce(t: Text, a: seq<Seg>, b: seq<Seg>)
    requires Cut(t, a) && Cut(t, b) && |a| <= |b|
    ensures a == b[..|a|]
    decreases |a|
  {
    hide Legal;
    if a != [] {
      var n := |a| - 1;
      CutFront(t, a, n);
      CutOnce(t, a[..n], b);
      assert Legal(t, a[..n], a[n]) && Legal(t, b[..n], b[n]);
      LegalOnce(t, a[..n], a[n], b[n]);
    }
  }

  lemma CutFront(t: Text, segs: seq<Seg>, n: nat)
    requires Cut(t, segs) && n <= |segs|
    ensures Cut(t, segs[..n])
  {
    hide Legal;
    assert forall k :: 0 <= k < n ==> segs[..n][..k] == segs[..k];
  }

  // ----- tokens -----

  /** The token of a segment, if it has one. */
  function Own(before: seq<Seg>, g: Seg): seq<Tok> {
    match g.part
    case Break => if !Fresh(before) && Depth(before) == 0 then [Tok(Newline, g.start, g.end)] else []
    case BlockComment => [Tok(Comment, g.start, g.end)]
    case Opening => [Tok(Plain, g.start, g.end)]
    case Closing => [Tok(Plain, g.start, g.end)]
    case Slash => [Tok(Plain, g.start, g.end)]
    case Lexeme => [Tok(Plain, g.start, g.end)]
    case _ => []
  }

  function Dedents(n: nat, p: nat): seq<Tok> {
    seq(n, _ => Tok(Dedent, p, p))
  }

  /** The indent or the dedents that take the levels to a column. */
  function Moves(levels: seq<nat>, column: nat, p: nat): seq<Tok>
    requires IsStack(levels) && column >= 1
  {
    LevelsMeans(levels, column);
    if column > Top(levels) then [Tok(Indent, p, p)] else Dedents(|levels| - |Closed(levels, column)|, p)
  }

  function MovesAt(s: seq<char>, before: seq<Seg>, p: nat): seq<Tok> {
    Moves(LevelsOf(s, before), Column(s, before), p)
  }

  function TokensOf(s: seq<char>, segs: seq<Seg>): seq<Tok> {
    if segs == [] then []
    else
      var before, g := segs[..|segs| - 1], segs[|segs| - 1];
      TokensOf(s, before) + (if Begins(before, g) then MovesAt(s, before, g.start) else []) + Own(before, g)
  }

  /** The tokens of a source: at its end the open levels are closed and the last line is ended. */
  function AllTokens(s: seq<char>, segs: seq<Seg>): seq<Tok> {
    TokensOf(s, segs) + Dedents(|LevelsOf(s, segs)| - 1, |s|)
    + (if Fresh(segs) then [] else [Tok(Newline, |s|, |s|)]) + [Tok(Eof, |s|, |s|)]
  }

  /** One more segment. */
  lemma Added(t: Text, before: seq<Seg>, g: Seg)
    ensures var segs := before + [g];
            && EndOf(segs) == g.end && (Cut(t, before) && Legal(t, before, g) ==> Cut(t, segs))
            && (Fresh(segs) <==> if g.part.Break? then Depth(before) == 0
                                 else g.part in {Space, LineComment, BlockComment, Unclosed} && Fresh(before))
            && Depth(segs) == (if g.part.Opening? then Depth(before) + 1
                               else if g.part.Closing? && Depth(before) > 0 then Depth(before) - 1 else Depth(before))
            && TokensOf(t.s, segs) == TokensOf(t.s, before) + (if Begins(before, g) then MovesAt(t.s, before, g.start) else []) + Own(before, g)
            && LevelsOf(t.s, segs) == if Begins(before, g) then Levels(LevelsOf(t.s, before), Column(t.s, before)) else LevelsOf(t.s, before)
  {
    hide Legal, Own, Moves, Levels;
    var segs := before + [g];
    assert segs[..|segs| - 1] == before;
    if Cut(t, before) && Legal(t, before, g) {
      assert forall k :: 0 <= k < |before| ==> segs[..k] == before[..k];
      assert segs[..|before|] == before;
    }
  }

  lemma ColumnAdded(s: seq<char>, before: seq<Seg>, g: Seg)
    requires g.start <= g.end <= |s|
    ensures Column(s, before + [g])
         == match g.part
            case Space => Column(s, before) + (if g.start < |s| && s[g.start] == '\t' then 4 else 1)
            case LineComment => After(s, g.start, g.end, Column(s, before))
            case BlockComment => After(s, g.start, g.end, Column(s, before))
            case Unclosed => After(s, g.start, g.end, Column(s, before))
            case _ => 1
  {
    hide After;
    assert (before + [g])[..|before + [g]| - 1] == before;
  }

  lemma {:induction false} FreshOutside(segs: seq<Seg>)
    requires Fresh(segs)
    ensures Depth(segs) == 0
  {
    if segs != [] && !segs[|segs| - 1].part.Break? {
      FreshOutside(segs[..|segs| - 1]);
    }
  }

  // ----- what the tokens are -----

  predicate Layout(k: Kind) {
    k.Indent? || k.Dedent?
  }

  lemma {:induction false} TokensPrefix(s: seq<char>, segs: seq<Seg>, k: nat)
    requires k <= |segs|
    ensures TokensOf(s, segs[..k]) <= TokensOf(s, segs)
    decreases |segs|
  {
    if k < |segs| {
      TokensPrefix(s, segs[..|segs| - 1], k);
      assert segs[..|segs| - 1][..k] == segs[..k];
    } else {
      assert segs[..k] == segs;
    }
  }

  lemma MovesLayout(levels: seq<nat>, column: nat, p: nat)
    requires IsStack(levels) && column >= 1
    ensures forall x :: x in Moves(levels, column, p) ==> Layout(x.kind) && x.start == x.end == p
  {
    LevelsMeans(levels, column);
    var moves := Moves(levels, column, p);
    forall k | 0 <= k < |moves| ensures Layout(moves[k].kind) && moves[k].start == moves[k].end == p {
    }
  }

  /** Segments that have a token whatever is around them. */
  predicate HasPlain(p: Part) {
    p.Opening? || p.Closing? || p.Slash? || p.Lexeme?
  }

  /** Segments that never have one. */
  predicate Quiet(p: Part) {
    p.Space? || p.Return? || p.LineComment? || p.Unclosed? || p.Gap?
  }

  lemma OwnMeans(before: seq<Seg>, g: Seg)
    ensures var own := Own(before, g);
            if Quiet(g.part) || (g.part.Break? && (Depth(before) > 0 || Fresh(before))) then own == []
            else own == [Tok(if g.part.Break? then Newline else if g.part.BlockComment? then Comment else Plain, g.start, g.end)]
    ensures forall x :: x in Own(before, g) ==> !Layout(x.kind)
  {
  }

  lemma LegalSpan(t: Text, segs: seq<Seg>, k: nat)
    requires Cut(t, segs) && k < |segs|
    ensures segs[k].start < segs[k].end <= |t.s| && segs[k].start == EndOf(segs[..k])
  {
    assert Legal(t, segs[..k], segs[k]);
  }

  lemma TokensStep(s: seq<char>, segs: seq<Seg>, x: Tok)
    requires segs != [] && !Layout(x.kind)
    ensures var n := |segs| - 1; x in TokensOf(s, segs) <==> x in TokensOf(s, segs[..n]) || x in Own(segs[..n], segs[n])
  {
    hide Own, Moves, Fresh, LevelsOf, Column;
    var n := |segs| - 1;
    MovesLayout(LevelsOf(s, segs[..n]), Column(s, segs[..n]), segs[n].start);
  }

  predicate Owns(segs: seq<Seg>, k: nat, x: Tok) {
    k < |segs| && x in Own(segs[..k], segs[k])
  }

  lemma OwnsFront(segs: seq<Seg>, n: nat, k: nat, x: Tok)
    requires k < n <= |segs|
    ensures Owns(segs[..n], k, x) <==> Owns(segs, k, x)
  {
    hide Own;
    assert segs[..n][..k] == segs[..k];
  }

  /** Apart from indents and dedents, the tokens are those of the segments. */
  lemma {:induction false} TokensExact(s: seq<char>, segs: seq<Seg>, x: Tok)
    requires !Layout(x.kind)
    ensures x in TokensOf(s, segs) <==> exists k :: Owns(segs, k, x)
  {
    if segs != [] {
      hide Own, TokensOf;
      var n := |segs| - 1;
      TokensStep(s, segs, x);
      TokensExact(s, segs[..n], x);
      forall k: nat | k < n ensures Owns(segs[..n], k, x) <==> Owns(segs, k, x) {
        OwnsFront(segs, n, k, x);
      }
      if x in Own(segs[..n], segs[n]) {
        assert Owns(segs, n, x);
      }
    }
  }

  /** A line break is a token exactly if it is one outside brackets and comments that ends a logical line. */
  lemma NewlineExact(t: Text, segs: seq<Seg>, p: nat, e: nat)
    requires Cut(t, segs)
    ensures Tok(Newline, p, e) in TokensOf(t.s, segs)
       <==> exists k :: 0 <= k < |segs| && segs[k] == Seg(Break, p, e) && Depth(segs[..k]) == 0 && !Fresh(segs[..k])
  {
    hide Own, Fresh, Depth, TokensOf, Cut;
    var x := Tok(Newline, p, e);
    TokensExact(t.s, segs, x);
    forall k: nat | k < |segs|
      ensures Owns(segs, k, x) <==> segs[k] == Seg(Break, p, e) && Depth(segs[..k]) == 0 && !Fresh(segs[..k])
    {
      OwnMeans(segs[..k], segs[k]);
    }
  }

  /** A comment is a token exactly if it is enclosed: it goes on to the first place where its marks are balanced. */
  lemma CommentExact(t: Text, segs: seq<Seg>, p: nat, e: nat)
    requires Cut(t, segs)
    ensures Tok(Comment, p, e) in TokensOf(t.s, segs) <==> exists k :: 0 <= k < |segs| && segs[k] == Seg(BlockComment, p, e)
    ensures Tok(Comment, p, e) in TokensOf(t.s, segs) ==> Encloses(t.s, p, e)
  {
    hide Own, Fresh, Depth, TokensOf, Cut, Encloses;
    var x := Tok(Comment, p, e);
    TokensExact(t.s, segs, x);
    forall k: nat | k < |segs| ensures Owns(segs, k, x) <==> segs[k] == Seg(BlockComment, p, e) {
      OwnMeans(segs[..k], segs[k]);
    }
    if k :| 0 <= k < |segs| && segs[k] == Seg(BlockComment, p, e) {
      LegalShape(t, segs, k);
    }
  }

  lemma LegalShape(t: Text, segs: seq<Seg>, k: nat)
    requires Cut(t, segs) && k < |segs|
    ensures Shaped(t, Fresh(segs[..k]), segs[k])
  {
    assert Legal(t, segs[..k], segs[k]);
  }

  /** All brackets, all directives at the start of a line and all tokens the scanner finds are tokens. */
  lemma PlainExact(t: Text, segs: seq<Seg>, p: nat, e: nat)
    requires Cut(t, segs)
    ensures Tok(Plain, p, e) in TokensOf(t.s, segs)
       <==> exists k :: 0 <= k < |segs| && HasPlain(segs[k].part) && segs[k].start == p && segs[k].end == e
  {
    hide Own, Fresh, Depth, TokensOf, Cut;
    var x := Tok(Plain, p, e);
    TokensExact(t.s, segs, x);
    forall k: nat | k < |segs| ensures Owns(segs, k, x) <==> HasPlain(segs[k].part) && segs[k].start == p && segs[k].end == e {
      OwnMeans(segs[..k], segs[k]);
    }
  }

  // ----- indents and dedents -----

  /** What indents and dedents do to the levels. */
  function Replay(levels: seq<nat>, toks: seq<Tok>, column: nat): seq<nat> {
    if toks == [] then levels
    else
      var r := Replay(levels, toks[..|toks| - 1], column);
      match toks[|toks| - 1].kind
      case Indent => r + [column]
      case Dedent => if r != [] then r[..|r| - 1] else r
      case _ => r
  }

  lemma {:induction false} DedentsReplay(levels: seq<nat>, n: nat, p: nat, column: nat)
    requires n <= |levels|
    ensures Replay(levels, Dedents(n, p), column) == levels[..|levels| - n]
    decreases n
  {
    if n > 0 {
      DedentsReplay(levels, n - 1, p, column);
      assert Dedents(n, p)[..n - 1] == Dedents(n - 1, p);
      assert levels[..|levels| - (n - 1)][..|levels| - n] == levels[..|levels| - n];
    } else {
      assert levels[..|levels|] == levels;
    }
  }

  lemma MovesReplay(levels: seq<nat>, column: nat, p: nat)
    requires IsStack(levels) && column >= 1
    ensures Replay(levels, Moves(levels, column, p), column) == Levels(levels, column)
  {
    LevelsMeans(levels, column);
    if column > Top(levels) {
      assert [Tok(Indent, p, p)][..0] == [];
      assert Replay(levels, [], column) == levels;
    } else {
      DedentsReplay(levels, |levels| - |Closed(levels, column)|, p, column);
    }
  }

  /** Before the first content of each logical line, and only there, come the indent or the dedents that take the
      levels to its column; the innermost level is then that column. */
  lemma LayoutExact(t: Text, segs: seq<Seg>, k: nat)
    requires Cut(t, segs) && k < |segs|
    ensures var before, g := segs[..k], segs[k];
            var moves := if Begins(before, g) then MovesAt(t.s, before, g.start) else [];
            && TokensOf(t.s, before) + moves + Own(before, g) <= TokensOf(t.s, segs)
            && (forall x :: x in moves ==> Layout(x.kind)) && (forall x :: x in Own(before, g) ==> !Layout(x.kind))
            && Replay(LevelsOf(t.s, before), moves, Column(t.s, before)) == LevelsOf(t.s, segs[..k + 1])
            && (Begins(before, g) ==> Top(LevelsOf(t.s, segs[..k + 1])) == Column(t.s, before))
  {
    hide Moves, Levels, Shaped, Fits, Own, TokensOf, LevelsOf, Column, Fresh, Depth, Replay;
    var before, g := segs[..k], segs[k];
    assert segs[..k + 1] == before + [g];
    Added(t, before, g);
    TokensPrefix(t.s, segs, k + 1);
    assert Legal(t, before, g);
    LevelsMeans(LevelsOf(t.s, before), Column(t.s, before));
    MovesReplay(LevelsOf(t.s, before), Column(t.s, before), g.start);
    MovesLayout(LevelsOf(t.s, before), Column(t.s, before), g.start);
    OwnMeans(before, g);
    ReplayNothing(LevelsOf(t.s, before), Column(t.s, before));
  }

  lemma ReplayNothing(levels: seq<nat>, column: nat)
    ensures Replay(levels, [], column) == levels
  {
  }

  // ----- order and balance -----

  function Weight(k: Kind): int {
    match k
    case Indent => 1
    case Dedent => -1
    case _ => 0
  }

  /** Indents minus dedents. */
  function Balance(toks: seq<Tok>): int {
    if toks == [] then 0 else Balance(toks[..|toks| - 1]) + Weight(toks[|toks| - 1].kind)
  }

  /** No dedent comes before its indent. */
  ghost predicate Nested(toks: seq<Tok>) {
    forall k :: 0 <= k <= |toks| ==> Balance(toks[..k]) >= 0
  }

  /** Tokens follow one another without overlapping, and none reaches past `pos`. */
  ghost predicate Ordered(toks: seq<Tok>, pos: nat) {
    && (forall i :: 0 <= i < |toks| ==> toks[i].start <= toks[i].end <= pos)
    && (forall i, j :: 0 <= i < j < |toks| ==> toks[i].end <= toks[j].start)
  }

  /** Tokens in order, with as many indents open as `n`. */
  ghost predicate Sound(toks: seq<Tok>, pos: nat, n: int) {
    Nested(toks) && Ordered(toks, pos) && Balance(toks) == n
  }

  lemma TokAdded(toks: seq<Tok>, x: Tok, pos: nat, n: int)
    requires Sound(toks, pos, n) && n + Weight(x.kind) >= 0 && pos <= x.start <= x.end
    ensures Sound(toks + [x], x.end, n + Weight(x.kind))
  {
    assert (toks + [x])[..|toks|] == toks;
    forall k | 0 <= k <= |toks + [x]| ensures Balance((toks + [x])[..k]) >= 0 {
      if k <= |toks| {
        assert (toks + [x])[..k] == toks[..k];
      } else {
        assert (toks + [x])[..k] == toks + [x];
      }
    }
  }

  lemma {:induction false} DedentsAdded(toks: seq<Tok>, pos: nat, n: int, d: nat, p: nat)
    requires Sound(toks, pos, n) && d <= n && pos <= p
    ensures Sound(toks + Dedents(d, p), p, n - d)
    decreases d
  {
    hide Nested, Balance;
    if d > 0 {
      DedentsAdded(toks, pos, n, d - 1, p);
      TokAdded(toks + Dedents(d - 1, p), Tok(Dedent, p, p), p, n - (d - 1));
      assert toks + Dedents(d - 1, p) + [Tok(Dedent, p, p)] == toks + Dedents(d, p);
    } else {
      assert toks + Dedents(d, p) == toks;
    }
  }

  lemma MovesAdded(toks: seq<Tok>, pos: nat, levels: seq<nat>, column: nat, p: nat)
    requires IsStack(levels) && column >= 1 && Sound(toks, pos, |levels| - 1) && pos <= p
    ensures Sound(toks + Moves(levels, column, p), p, |Levels(levels, column)| - 1)
  {
    hide Nested, Balance, Ordered;
    LevelsMeans(levels, column);
    if column > Top(levels) {
      TokAdded(toks, Tok(Indent, p, p), pos, |levels| - 1);
    } else {
      DedentsAdded(toks, pos, |levels| - 1, |levels| - |Closed(levels, column)|, p);
    }
  }

  lemma Later(toks: seq<Tok>, pos: nat, n: int, pos': nat)
    requires Sound(toks, pos, n) && pos <= pos'
    ensures Sound(toks, pos', n)
  {
  }

  /** The tokens of segments are in order, and the open indents are the levels above the first. */
  lemma {:induction false} TokensSound(t: Text, segs: seq<Seg>)
    requires Cut(t, segs)
    ensures Sound(TokensOf(t.s, segs), EndOf(segs), |LevelsOf(t.s, segs)| - 1)
  {
    hide Nested, Balance, Ordered, Fits, Moves, Levels, Shaped, Own;
    if segs == [] {
      assert Sound([], 0, 0) by { NoTokens(); }
    } else {
      var n := |segs| - 1;
      var before, g := segs[..n], segs[n];
      CutFront(t, segs, n);
      TokensSound(t, before);
      assert segs == before + [g] && Legal(t, before, g);
      Added(t, before, g);
      var toks, moves := TokensOf(t.s, before), [];
      var levels, column := LevelsOf(t.s, before), Column(t.s, before);
      if Begins(before, g) {
        moves := Moves(levels, column, g.start);
        MovesAdded(toks, g.start, levels, column, g.start);
      } else {
        assert toks + moves == toks;
      }
      LegalSpan(t, segs, n);
      OwnAdded(toks + moves, before, g, |LevelsOf(t.s, segs)| - 1);
    }
  }

  lemma NoTokens()
    ensures Sound([], 0, 0)
  {
  }

  lemma OwnAdded(toks: seq<Tok>, before: seq<Seg>, g: Seg, n: nat)
    requires Sound(toks, g.start, n) && g.start <= g.end
    ensures Sound(toks + Own(before, g), g.end, n)
  {
    hide Nested, Balance, Ordered, Fresh, Depth;
    if Own(before, g) == [] {
      Later(toks, g.start, n, g.end);
      assert toks + Own(before, g) == toks;
    } else {
      TokAdded(toks, Own(before, g)[0], g.start, n);
      assert Own(before, g) == [Own(before, g)[0]];
    }
  }

  /** The tokens of a whole source are in order, every dedent has its indent before it and every indent its
      dedent, and the last one is the end. */
  lemma AllTokensSound(t: Text, segs: seq<Seg>)
    requires Cut(t, segs) && EndOf(segs) == |t.s|
    ensures Sound(AllTokens(t.s, segs), |t.s|, 0) && AllTokens(t.s, segs)[|AllTokens(t.s, segs)| - 1] == Tok(Eof, |t.s|, |t.s|)
  {
    hide Nested, Balance, Ordered, Cut, TokensOf, LevelsOf;
    TokensSound(t, segs);
    var n := |LevelsOf(t.s, segs)| - 1;
    var end := |t.s|;
    DedentsAdded(TokensOf(t.s, segs), end, n, n, end);
    var toks := TokensOf(t.s, segs) + Dedents(n, end);
    var last := if Fresh(segs) then [] else [Tok(Newline, end, end)];
    if last != [] {
      TokAdded(toks, Tok(Newline, end, end), end, 0);
    } else {
      assert toks + last == toks;
    }
    TokAdded(toks + last, Tok(Eof, end, end), end, 0);
  }

  // ----- every place of the source -----

  predicate Covers(g: Seg, q: nat) {
    g.start <= q < g.end
  }

  lemma {:induction false} Covering(t: Text, segs: seq<Seg>, q: nat) returns (k: nat)
    requires Cut(t, segs) && q < EndOf(segs)
    ensures k < |segs| && Covers(segs[k], q)
  {
    hide Legal;
    var n := |segs| - 1;
    LegalSpan(t, segs, n);
    if q >= segs[n].start {
      k := n;
    } else {
      CutFront(t, segs, n);
      k := Covering(t, segs[..n], q);
    }
  }

  lemma {:induction false} Apart(t: Text, segs: seq<Seg>, i: nat, k: nat)
    requires Cut(t, segs) && i < k < |segs|
    ensures segs[i].end <= segs[k].start
    decreases k
  {
    hide Legal;
    LegalSpan(t, segs, k);
    assert EndOf(segs[..k]) == segs[k - 1].end;
    if i < k - 1 {
      Apart(t, segs, i, k - 1);
      LegalSpan(t, segs, k - 1);
    }
  }

  /** The segment has no token: a blank, a comment to the end of the line, what the scanner skips, or a line break
      inside brackets or on a line without content. */
  predicate Silent(segs: seq<Seg>, k: nat)
    requires k < |segs|
  {
    Quiet(segs[k].part) || (segs[k].part.Break? && (Depth(segs[..k]) > 0 || Fresh(segs[..k])))
  }

  /** Every place is in one segment, and in a token exactly if that segment is not silent; so between two tokens
      that follow one another there are silent segments alone. */
  lemma PlaceExact(t: Text, segs: seq<Seg>, q: nat)
    requires Cut(t, segs) && q < EndOf(segs)
    ensures exists k :: 0 <= k < |segs| && Covers(segs[k], q)
    ensures forall k :: 0 <= k < |segs| && Covers(segs[k], q) ==>
              (Silent(segs, k) <==> forall x :: x in TokensOf(t.s, segs) ==> !(x.start <= q < x.end))
  {
    hide Cut, TokensOf, Own, Quiet, Fresh, Depth;
    var j := Covering(t, segs, q);
    forall k: nat | k < |segs| && Covers(segs[k], q)
      ensures Silent(segs, k) <==> forall x :: x in TokensOf(t.s, segs) ==> !(x.start <= q < x.end)
    {
      OwnMeans(segs[..k], segs[k]);
      if Silent(segs, k) {
        forall x | x in TokensOf(t.s, segs) ensures !(x.start <= q < x.end) {
          NotCovered(t, segs, k, q, x);
        }
      } else {
        var x := Own(segs[..k], segs[k])[0];
        assert Owns(segs, k, x);
        TokensExact(t.s, segs, x);
      }
    }
  }

  lemma NotCovered(t: Text, segs: seq<Seg>, k: nat, q: nat, x: Tok)
    requires Cut(t, segs) && k < |segs| && Covers(segs[k], q) && Own(segs[..k], segs[k]) == [] && x in TokensOf(t.s, segs)
    ensures !(x.start <= q < x.end)
  {
    hide Cut, TokensOf, Own;
    if Layout(x.kind) {
      LayoutEmpty(t.s, segs, x);
    } else {
      TokensExact(t.s, segs, x);
      var i: nat :| Owns(segs, i, x);
      OwnMeans(segs[..i], segs[i]);
      if i < k {
        Apart(t, segs, i, k);
      } else if k < i {
        Apart(t, segs, k, i);
      }
    }
  }

  lemma {:induction false} LayoutEmpty(s: seq<char>, segs: seq<Seg>, x: Tok)
    requires x in TokensOf(s, segs) && Layout(x.kind)
    ensures x.start == x.end
  {
    hide Own;
    var n := |segs| - 1;
    var before := segs[..n];
    OwnMeans(before, segs[n]);
    MovesLayout(LevelsOf(s, before), Column(s, before), segs[n].start);
    if x in TokensOf(s, before) {
      LayoutEmpty(s, before, x);
    }
  }
}
