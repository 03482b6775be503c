/** The lexer: it cuts a source into segments, from left to right, and makes their tokens, with the indents and
    dedents of the lines. Scanning an ordinary token is a parameter: it says where the token ends, or that there
    is none. */
module Lexer {
  import opened Lines

  // ----- the start of a line -----

  /** The first place from `p` on that holds no blank. */
  function Lead(s: seq<char>, p: nat): (r: nat)
    requires p <= |s|
    ensures p <= r <= |s| && (r < |s| ==> !IsBlank(s[r])) && forall k :: p <= k < r ==> IsBlank(s[k])
    decreases |s| - p
  {
    if p < |s| && IsBlank(s[p]) then Lead(s, p + 1) else p
  }

  /** Its column: a tab counts for four. */
  function ColumnAt(s: seq<char>, p: nat, column: nat): nat
    requires p <= |s|
    decreases |s| - p
  {
    if p < |s| && IsBlank(s[p]) then ColumnAt(s, p + 1, column + if s[p] == '\t' then 4 else 1) else column
  }

  /** The segment has been taken: what was made for it before is what its tokens and levels begin with. */
  lemma Taken(t: Text, segs: seq<Seg>, begun: bool, g: Seg)
    requires Cut(t, segs) && Legal(t, segs, g) && (begun <==> Begins(segs, g))
    ensures var next := segs + [g];
            && Cut(t, next) && EndOf(next) == g.end && g.end <= |t.s|
            && TokensOf(t.s, next) == TokensOf(t.s, segs) + (if begun then MovesAt(t.s, segs, g.start) else []) + Own(segs, g)
            && LevelsOf(t.s, next) == (if begun then Levels(LevelsOf(t.s, segs), Column(t.s, segs)) else LevelsOf(t.s, segs))
            && (Fresh(next) <==> if g.part.Break? then Depth(segs) == 0
                                 else g.part in {Space, LineComment, BlockComment, Unclosed} && Fresh(segs))
            && Depth(next) == (if g.part.Opening? then Depth(segs) + 1
                               else if g.part.Closing? && Depth(segs) > 0 then Depth(segs) - 1 else Depth(segs))
  {
    hide Moves, Levels, Own;
    Added(t, segs, g);
  }

  /** No segment may follow. */
  ghost predicate Stuck(t: Text, segs: seq<Seg>) {
    forall g :: !Legal(t, segs, g)
  }

  lemma AtContent(t: Text, segs: seq<Seg>)
    requires EndOf(segs) < |t.s| && Fresh(segs)
    requires var c := t.s[EndOf(segs)]; !IsBlank(c) && !IsBreak(c) && c != '#'
    ensures !Fits(LevelsOf(t.s, segs), Column(t.s, segs)) ==> Stuck(t, segs)
  {
    hide Fits;
    forall g | Legal(t, segs, g) ensures Begins(segs, g) {
    }
  }

  lemma AtNothing(t: Text, segs: seq<Seg>)
    requires EndOf(segs) < |t.s| && Ordinary(t, Fresh(segs), EndOf(segs)) && t.scan(EndOf(segs)).Bad?
    ensures Stuck(t, segs)
  {
    hide Fits, LevelsOf, Column;
  }

  lemma AtUnending(t: Text, segs: seq<Seg>)
    requires EndOf(segs) < |t.s| && !Fresh(segs) && Unending(t.s, EndOf(segs))
    ensures Stuck(t, segs)
  {
    hide Fits, LevelsOf, Column, Nest;
    forall g ensures !Legal(t, segs, g) {
      if Encloses(t.s, g.start, g.end) {
        EnclosesOnce(t.s, g.start, g.end, g.end);
      }
    }
  }

  /** A source that is stuck somewhere cannot be cut. */
  lemma StuckMeans(t: Text, segs: seq<Seg>, all: seq<Seg>)
    requires Cut(t, segs) && Stuck(t, segs) && EndOf(segs) < |t.s| && Cut(t, all)
    ensures EndOf(all) < |t.s|
  {
    hide Legal;
    if |all| > |segs| {
      CutAt(t, all, |segs|);
      CutOnce(t, segs, all);
    } else {
      CutOnce(t, all, segs);
      EndsLater(t, segs, |all|);
    }
  }

  lemma CutAt(t: Text, all: seq<Seg>, k: nat)
    requires Cut(t, all) && k < |all|
    ensures Legal(t, all[..k], all[k])
  {
    hide Legal;
  }

  lemma {:induction false} EndsLater(t: Text, segs: seq<Seg>, n: nat)
    requires Cut(t, segs) && n <= |segs|
    ensures EndOf(segs[..n]) <= EndOf(segs)
    decreases |segs|
  {
    hide Legal;
    if n == |segs| {
      assert segs[..n] == segs;
    } else {
      var k := |segs| - 1;
      LegalSpan(t, segs, k);
      CutFront(t, segs, k);
      EndsLater(t, segs[..k], n);
      assert segs[..k][..n] == segs[..n];
    }
  }

  // ----- the lexer -----

  class Lexer {
    const source: seq<char>
    const scan: nat -> Piece
    const isName: char -> bool
    var pos: nat
    var column: nat
    var indents: seq<nat>
    var tokens: seq<Tok>
    var atLineStart: bool
    var parens: nat
    /** The segments so far, and whether the indents and dedents of a line have been made before its content. */
    ghost var segs: seq<Seg>
    ghost var begun: bool

    ghost function Source(): Text {
      Text(source, scan, isName)
    }

    /** The scanner moves forwards and stays inside the source. */
    ghost predicate Scans() {
      forall p: nat :: p < |source| && !scan(p).Bad? ==> p < scan(p).end <= |source| && scan(p).column >= 1
    }

    constructor (text: seq<char>, scanner: nat -> Piece, names: char -> bool)
      ensures source == text && scan == scanner && isName == names && Valid() && segs == []
    {
      source, scan, isName := text, scanner, names;
      pos, column, indents, tokens, atLineStart, parens := 0, 1, [1], [], true, 0;
      segs, begun := [], false;
    }

    /** The tokens and the levels are those of the segments so far. */
    ghost predicate Kept()
      reads this
    {
      && Cut(Source(), segs) && EndOf(segs) <= |source| && parens == Depth(segs)
      && (atLineStart || begun <==> Fresh(segs))
      && indents == (if begun then Levels(LevelsOf(source, segs), Column(source, segs)) else LevelsOf(source, segs))
      && tokens == TokensOf(source, segs) + if begun then MovesAt(source, segs, EndOf(segs)) else []
    }

    /** Everything up to `pos` is in the segments; when the indents and dedents of a line have been made, its
        content follows. */
    ghost predicate Valid()
      reads this
    {
      && Kept() && pos == EndOf(segs) && pos <= |source|
      && (atLineStart ==> !begun && column == Column(source, segs))
      && (begun ==> pos < |source| && BeginsLine(source[pos]) && Fits(LevelsOf(source, segs), Column(source, segs)))
    }

    predicate BeginsLine(c: char) {
      !IsBlank(c) && !IsBreak(c) && c != '#' && c != '/'
    }

    function Current(): char
      reads this
    {
      if pos < |source| then source[pos] else '\0'
    }

    function Peek(): char
      reads this
    {
      if pos + 1 < |source| then source[pos + 1] else '\0'
    }

    method Advance()
      modifies this`pos, this`column
      ensures pos == if old(pos) < |source| then old(pos) + 1 else old(pos)
      ensures column == if old(pos) < |source| && source[old(pos)] != '\n' then old(column) + 1 else old(column)
    {
      if pos < |source| {
        if source[pos] != '\n' {
          column := column + 1;
        }
        pos := pos + 1;
      }
    }

    method AddToken(kind: Kind, start: nat)
      modifies this`tokens
      ensures tokens == old(tokens) + [Tok(kind, start, pos)]
    {
      tokens := tokens + [Tok(kind, start, pos)];
    }

    // ----- indentation -----

    /** Closes levels down to `target`; it must be one of them. */
    method GenerateDedents(target: nat) returns (ok: bool)
      requires IsStack(indents) && target >= 1
      modifies this`indents, this`tokens
      ensures indents == Closed(old(indents), target) && IsStack(indents) && |indents| <= |old(indents)|
      ensures tokens == old(tokens) + Dedents(|old(indents)| - |indents|, pos)
      ensures ok <==> target in old(indents)
    {
      ClosedMeans(indents, target);
      while indents[|indents| - 1] > target
        invariant IsStack(indents) && |indents| <= |old(indents)| && Closed(indents, target) == Closed(old(indents), target)
        invariant tokens == old(tokens) + Dedents(|old(indents)| - |indents|, pos)
        decreases |indents|
      {
        indents := indents[..|indents| - 1];
        tokens := tokens + [Tok(Dedent, pos, pos)];
      }
      ok := indents[|indents| - 1] == target;
    }

    /** A deeper line opens a level; another line must stand at an open one. */
    method GenerateIndents(column': nat) returns (ok: bool)
      requires IsStack(indents) && column' >= 1
      modifies this`indents, this`tokens
      ensures indents == Levels(old(indents), column') && tokens == old(tokens) + Moves(old(indents), column', pos)
      ensures ok <==> column' > old(indents)[|old(indents)| - 1] || column' in old(indents)
    {
      ok := true;
      var current := indents[|indents| - 1];
      LevelsMeans(indents, column');
      if column' > current {
        indents := indents + [column'];
        tokens := tokens + [Tok(Indent, pos, pos)];
      } else if column' < current {
        ok := GenerateDedents(column');
      }
    }

    // ----- the start of a line -----

    method SkipBlank()
      requires Valid() && atLineStart && pos < |source| && IsBlank(source[pos])
      modifies this`pos, this`column, this`segs
      ensures Valid() && segs == old(segs) + [Seg(Space, old(pos), pos)] && pos == old(pos) + 1
      ensures column == old(column) + if source[old(pos)] == '\t' then 4 else 1
    {
      hide Cut, Legal, Fits, Levels, LevelsOf, TokensOf, Column, Fresh, Depth, Moves, MovesAt, Own, Begins;
      SpaceTaken(Source(), segs, pos);
      ghost var g := Seg(Space, pos, pos + 1);
      var tab := source[pos] == '\t';
      Advance();
      if tab {
        column := column + 3;
      }
      segs := segs + [g];
    }

    method SkipBlanks()
      requires Valid() && atLineStart
      modifies this`pos, this`column, this`segs
      ensures Valid() && old(segs) <= segs && (pos < |source| ==> !IsBlank(source[pos]))
      ensures pos == Lead(source, old(pos)) && column == ColumnAt(source, old(pos), old(column))
    {
      hide Kept, LevelsOf, Column, Fits, Lead, ColumnAt;
      while pos < |source| && (source[pos] == ' ' || source[pos] == '\t')
        invariant Valid() && atLineStart && old(segs) <= segs && Lead(source, pos) == Lead(source, old(pos))
        invariant ColumnAt(source, pos, column) == ColumnAt(source, old(pos), old(column))
        decreases |source| - pos
      {
        LeadStops(source, pos, column);
        SkipBlank();
      }
      LeadStops(source, pos, column);
    }

    /** A line that is blank or holds a comment leaves the levels alone, whatever its column; any other
        must stand at an open level or open a new one, and the innermost level is then its column. */
    method ScanLineStart() returns (ok: bool)
      requires Valid() && atLineStart && pos < |source|
      modifies this`pos, this`column, this`indents, this`tokens, this`atLineStart, this`segs, this`begun
      ensures Kept() && old(segs) <= segs && (if ok then Valid() else EndOf(segs) < |source| && Stuck(Source(), segs))
      ensures old(pos) <= pos && (ok ==> old(pos) < pos || !atLineStart)
      ensures var q, w := Lead(source, old(pos)), ColumnAt(source, old(pos), old(column));
              if q == |source| || source[q] in {'\n', '\r', '#'} then
                && ok && atLineStart && indents == old(indents)
                && (q == |source| || source[q] != '#' ==> tokens == old(tokens))
                && (q < |source| && source[q] != '#' ==> column == 1)
              else
                && (ok <==> w > old(indents)[|old(indents)| - 1] || w in old(indents))
                && indents == Levels(old(indents), w) && (ok ==> !atLineStart)
    {
      hide Kept, LevelsOf, Column, Fits, Lead, ColumnAt, Levels, Stuck;
      ok := true;
      SkipBlanks();
      if pos >= |source| {
        return;
      }
      var ch := source[pos];
      if ch == '\n' || ch == '\r' {
        ScanBlankLine();
      } else if ch == '#' {
        if Peek() == '*' {
          DropComment();
        } else {
          ScanCommentLine();
        }
      } else {
        ok := OpenLine();
      }
    }

    /** A line break: it has no token here. */
    method ScanBlankLine()
      requires Valid() && atLineStart && pos < |source| && IsBreak(source[pos])
      modifies this`pos, this`column, this`segs
      ensures Valid() && old(segs) <= segs && old(pos) < pos && column == 1
    {
      hide Cut, Levels, LevelsOf, TokensOf, Column, Fresh, Depth, Moves, MovesAt, Own, Fits;
      ghost var start := pos;
      BreakTaken(Source(), segs, pos, if PairAt(source, pos, '\r', '\n') then pos + 2 else pos + 1);
      var return' := source[pos] == '\r';
      Advance();
      if return' && Current() == '\n' {
        Advance();
      }
      column := 1;
      segs := segs + [Seg(Break, start, pos)];
    }

    /** A comment at the start of a line; one that is not closed is dropped, and its error too. */
    method DropComment()
      requires Valid() && atLineStart && pos < |source| && PairAt(source, pos, '#', '*')
      modifies this`pos, this`column, this`tokens, this`segs
      ensures Valid() && old(segs) <= segs && old(pos) < pos
    {
      hide Cut, Levels, LevelsOf, TokensOf, Column, Fresh, Depth, Moves, MovesAt, Own, Fits, After, Encloses, Unending;
      ghost var start := pos;
      var closed := ScanMultilineComment();
      if !closed {
        UnclosedTaken(Source(), segs, start);
        segs := segs + [Seg(Unclosed, start, pos)];
      }
    }

    /** A line with content: its indents and dedents, and a directive if it begins with one. */
    method OpenLine() returns (ok: bool)
      requires Valid() && atLineStart && pos < |source|
      requires !IsBlank(source[pos]) && !IsBreak(source[pos]) && source[pos] != '#'
      modifies this`pos, this`column, this`indents, this`tokens, this`atLineStart, this`segs, this`begun
      ensures Kept() && old(segs) <= segs && old(pos) <= pos
      ensures if ok then Valid() && !atLineStart else EndOf(segs) < |source| && Stuck(Source(), segs)
      ensures indents == Levels(old(indents), old(column))
      ensures ok <==> old(column) > old(indents)[|old(indents)| - 1] || old(column) in old(indents)
    {
      hide Cut, Levels, LevelsOf, TokensOf, Column, Fresh, Depth, Moves, Stuck;
      AtContent(Source(), segs);
      var ch := source[pos];
      ok := GenerateIndents(column);
      begun := true;
      if !ok {
        return;
      }
      if ch == '/' {
        ScanSlash();
      }
      atLineStart := false;
    }

    method SkipName()
      requires pos <= |source|
      modifies this`pos, this`column
      ensures old(pos) <= pos <= |source| && (pos < |source| ==> !isName(source[pos]))
      ensures forall k :: old(pos) <= k < pos ==> isName(source[k])
    {
      while pos < |source| && isName(source[pos])
        invariant old(pos) <= pos <= |source| && forall k :: old(pos) <= k < pos ==> isName(source[k])
        decreases |source| - pos
      {
        Advance();
      }
    }

    /** `/=`, or the name of a directive or scope. */
    method ScanSlash()
      requires Kept() && begun && pos == EndOf(segs) < |source| && source[pos] == '/' && Fits(LevelsOf(source, segs), Column(source, segs))
      modifies this`pos, this`column, this`tokens, this`segs, this`begun
      ensures pos == EndOf(segs) && old(pos) < pos && !begun && old(segs) <= segs && !Fresh(segs)
      ensures Cut(Source(), segs) && pos <= |source| && parens == Depth(segs)
      ensures indents == LevelsOf(source, segs) && tokens == TokensOf(source, segs)
    {
      hide Cut, Legal, Levels, LevelsOf, TokensOf, Column, Fresh, Depth, Moves, Own, Fits;
      var start := pos;
      var table := Peek() == '=';
      Advance();
      if table {
        Advance();
      } else {
        SkipName();
      }
      ghost var g := Seg(Slash, start, pos);
      ContentTaken(Source(), segs, g);
      AddToken(Plain, start);
      segs, begun := segs + [g], false;
    }

    method SkipLine()
      requires pos <= |source|
      modifies this`pos, this`column
      ensures old(pos) <= pos <= |source| && (pos < |source| ==> IsBreak(source[pos]))
      ensures (forall k :: old(pos) <= k < pos ==> !IsBreak(source[k])) && column == After(source, old(pos), pos, old(column))
    {
      hide After;
      ghost var start, c0 := pos, column;
      AfterStep(source, start, pos, c0);
      while pos < |source| && source[pos] != '\n' && source[pos] != '\r'
        invariant start <= pos <= |source| && column == After(source, start, pos, c0)
        invariant forall k :: start <= k < pos ==> !IsBreak(source[k])
        decreases |source| - pos
      {
        AfterStep(source, start, pos, c0);
        Advance();
      }
    }

    /** Up to the end of the line, which is left for the line break. */
    method ScanCommentLine()
      requires Valid() && atLineStart && pos < |source| && source[pos] == '#' && !PairAt(source, pos, '#', '*')
      modifies this`pos, this`column, this`segs
      ensures Valid() && old(pos) < pos && segs == old(segs) + [Seg(LineComment, old(pos), pos)]
    {
      hide Cut, Legal, Levels, LevelsOf, TokensOf, Column, Fresh, Depth, Moves, MovesAt, Own, Fits, After;
      ghost var start, c0 := pos, column;
      AfterStep(source, start, pos, c0);
      Advance();
      if Current() == '#' {
        AfterStep(source, start, pos, c0);
        Advance();
      }
      AfterAfter(source, start, pos, c0);
      SkipLine();
      ghost var g := Seg(LineComment, start, pos);
      CommentTaken(Source(), segs, g);
      segs := segs + [g];
    }

    /** Past the opening mark: on to the first place where the marks are balanced, or to the end. */
    method SkipComment(ghost start: nat) returns (closed: bool)
      requires PairAt(source, start, '#', '*') && pos == start + 2
      modifies this`pos, this`column
      ensures start < pos && old(pos) <= pos <= |source| && column == After(source, old(pos), pos, old(column))
      ensures if closed then Encloses(source, start, pos) else pos == |source| && Unending(source, start)
    {
      hide After, Nest, MarkAt;
      var depth := 1;
      ghost var first, c0 := pos, column;
      AfterStep(source, first, pos, c0);
      NestStart(source, start);
      while true
        invariant first <= pos <= |source| && depth >= 1 && depth == Nest(source, start, pos) && !MarkAt(source, start, pos - 1)
        invariant forall q :: first <= q <= pos ==> Nest(source, start, q) > 0
        invariant column == After(source, first, pos, c0)
        decreases |source| - pos
      {
        if pos >= |source| {
          return false;
        }
        NestStep(source, start, pos);
        AfterStep(source, first, pos, c0);
        if source[pos] == '#' && Peek() == '*' {
          Advance();
          AfterStep(source, first, pos, c0);
          Advance();
          depth := depth + 1;
        } else if source[pos] == '*' && Peek() == '#' {
          Advance();
          AfterStep(source, first, pos, c0);
          Advance();
          depth := depth - 1;
          if depth == 0 {
            break;
          }
        } else {
          var line := source[pos] == '\n';
          Advance();
          if line {
            column := 1;
          }
        }
      }
      closed := true;
    }

    /** A comment goes on to the first place where it has as many closing as opening marks; without such a place
        it runs to the end of the source. */
    method ScanMultilineComment() returns (closed: bool)
      requires Valid() && !begun && pos < |source| && PairAt(source, pos, '#', '*')
      modifies this`pos, this`column, this`tokens, this`segs
      ensures old(pos) < pos <= |source| && column == After(source, old(pos), pos, old(column))
      ensures closed <==> exists e: nat :: Encloses(source, old(pos), e)
      ensures closed ==> Valid() && segs == old(segs) + [Seg(BlockComment, old(pos), pos)] && Encloses(source, old(pos), pos)
      ensures closed ==> tokens == old(tokens) + [Tok(Comment, old(pos), pos)]
      ensures !closed ==> Kept() && tokens == old(tokens) && segs == old(segs) && pos == |source| && Unending(source, old(pos))
    {
      hide Cut, Legal, Levels, LevelsOf, TokensOf, Column, Fresh, Depth, Moves, MovesAt, Own, Fits, After, Encloses, Unending;
      var start := pos;
      ghost var c0 := column;
      AfterStep(source, start, pos, c0);
      Advance();
      AfterStep(source, start, pos, c0);
      Advance();
      AfterAfter(source, start, pos, c0);
      closed := SkipComment(start);
      if closed {
        CommentTaken(Source(), segs, Seg(BlockComment, start, pos));
        AddToken(Comment, start);
        segs := segs + [Seg(BlockComment, start, pos)];
      } else {
        NeverEncloses(source, start);
      }
    }

    // ----- the whole source -----

    /** A line break: a token outside brackets, white space inside them. */
    method LineBreak(start: nat)
      requires Kept() && !atLineStart && !begun && start == EndOf(segs)
      requires (start == pos < |source| && source[pos] == '\n') || (start + 1 == pos && PairAt(source, start, '\r', '\n'))
      modifies this`pos, this`column, this`tokens, this`atLineStart, this`segs
      ensures Valid() && pos == old(pos) + 1 && column == 1 && segs == old(segs) + [Seg(Break, start, pos)]
      ensures tokens == if parens == 0 then old(tokens) + [Tok(Newline, start, pos)] else old(tokens)
      ensures atLineStart == (parens == 0)
    {
      hide Cut, Levels, LevelsOf, TokensOf, Column, Fresh, Depth, Moves, MovesAt, Fits, Own;
      BreakInside(Source(), segs, start, pos + 1);
      Advance();
      if parens == 0 {
        AddToken(Newline, start);
        atLineStart := true;
      }
      column := 1;
      segs := segs + [Seg(Break, start, pos)];
    }

    method ScanBracket()
      requires Valid() && !atLineStart && pos < |source| && (IsOpening(source[pos]) || IsClosing(source[pos]))
      modifies this
      ensures Valid() && !atLineStart && old(segs) <= segs && old(pos) < pos
    {
      hide Cut, Levels, LevelsOf, TokensOf, Column, Fresh, Depth, Moves, Fits, Own;
      var start := pos;
      ghost var g := Seg(if IsOpening(source[pos]) then Opening else Closing, pos, pos + 1);
      ContentTaken(Source(), segs, g);
      if source[pos] in {'(', '[', '{'} {
        parens := parens + 1;
      } else if parens > 0 {
        parens := parens - 1;
      }
      Advance();
      AddToken(Plain, start);
      segs, begun := segs + [g], false;
    }

    /** A carriage return: part of a line break, or nothing. */
    method ScanReturn()
      requires Valid() && !atLineStart && !begun && pos < |source| && source[pos] == '\r'
      modifies this`pos, this`column, this`tokens, this`atLineStart, this`segs
      ensures Valid() && old(segs) <= segs && old(pos) < pos
    {
      hide Cut, Levels, LevelsOf, TokensOf, Column, Fresh, Depth, Moves, MovesAt, Fits, Own;
      var start := pos;
      if !PairAt(source, pos, '\r', '\n') {
        SilentTaken(Source(), segs, Seg(Return, pos, pos + 1));
      }
      Advance();
      if Current() == '\n' {
        LineBreak(start);
      } else {
        segs := segs + [Seg(Return, start, pos)];
      }
    }

    method ScanPiece() returns (ok: bool)
      requires Valid() && Scans() && !atLineStart && pos < |source| && Ordinary(Source(), Fresh(segs), pos)
      modifies this`pos, this`column, this`tokens, this`segs, this`begun
      ensures Kept() && !atLineStart && old(segs) <= segs
      ensures if ok then Valid() && old(pos) < pos else EndOf(segs) < |source| && Stuck(Source(), segs)
    {
      hide Cut, Levels, LevelsOf, TokensOf, Column, Fresh, Depth, Moves, Fits, Own, Ordinary, Stuck;
      var piece := scan(pos);
      if piece.Bad? {
        AtNothing(Source(), segs);
        return false;
      }
      var start := pos;
      ghost var g := Seg(if piece.Token? then Lexeme else Gap, pos, piece.end);
      ContentTaken(Source(), segs, g);
      pos, column := piece.end, piece.column;
      if piece.Token? {
        AddToken(Plain, start);
      }
      segs, begun := segs + [g], false;
      ok := true;
    }

    method ScanRest() returns (ok: bool)
      requires Valid() && Scans() && !atLineStart && pos < |source|
      modifies this
      ensures Kept() && old(segs) <= segs
      ensures if ok then Valid() && old(pos) < pos else EndOf(segs) < |source| && Stuck(Source(), segs)
    {
      hide Cut, Levels, LevelsOf, TokensOf, Column, Fresh, Depth, Moves, MovesAt, Fits, Own, Stuck, Unending;
      ok := true;
      var ch := source[pos];
      if ch == ' ' || ch == '\t' {
        SilentTaken(Source(), segs, Seg(Space, pos, pos + 1));
        Advance();
        segs := segs + [Seg(Space, pos - 1, pos)];
      } else if ch == '\n' {
        LineBreak(pos);
      } else if ch == '\r' {
        ScanReturn();
      } else if ch in {'(', '[', '{', ')', ']', '}'} {
        ScanBracket();
      } else if ch == '#' && Peek() == '*' {
        ok := ScanMultilineComment();
        if !ok {
          AtUnending(Source(), segs);
        }
      } else {
        ok := ScanPiece();
      }
    }

    /** A source is accepted exactly if it can be cut into segments, and its tokens are theirs. Whatever happens,
        the tokens are in order, no dedent comes before its indent, and the open indents are the levels above the
        first. */
    method Tokenize() returns (ok: bool)
      requires Valid() && Scans()
      modifies this
      ensures Cut(Source(), segs) && Sound(tokens, |source|, |indents| - 1)
      ensures ok ==> EndOf(segs) == |source| && tokens == AllTokens(source, segs) && indents == [1]
      ensures ok <==> exists all :: Cut(Source(), all) && EndOf(all) == |source|
    {
      hide Cut, Stuck, TokensOf, LevelsOf, Fresh, Depth, Column, Moves, Levels, Fits, Sound;
      while pos < |source|
        invariant Valid()
        decreases |source| - pos, atLineStart
      {
        if atLineStart {
          ok := ScanLineStart();
        } else {
          ok := ScanRest();
        }
        if !ok {
          forall all | Cut(Source(), all) ensures EndOf(all) < |source| {
            StuckMeans(Source(), segs, all);
          }
          KeptSound(Source(), segs, begun);
          return;
        }
      }
      ok := Finish();
    }

    /** Closes what is open, which cannot fail, and ends the last line. */
    method Finish() returns (ok: bool)
      requires Valid() && pos == |source|
      modifies this`indents, this`tokens
      ensures ok && indents == [1] && tokens == AllTokens(source, segs) && Sound(tokens, |source|, 0)
    {
      hide Cut, TokensOf, LevelsOf, Fresh, Depth, Column, Moves, Levels, Fits, Sound;
      AllTokensSound(Source(), segs);
      ClosedMeans(indents, 1);
      Single(Closed(indents, 1));
      ok := GenerateDedents(1);
      if !ok {
        return;
      }
      if !atLineStart {
        AddToken(Newline, pos);
      }
      AddToken(Eof, pos);
    }
  }

  /** The final dedents cannot fail: column one is always an open level. */
  lemma BaseIsOpen(s: seq<char>, segs: seq<Seg>)
    ensures 1 in LevelsOf(s, segs) && Closed(LevelsOf(s, segs), 1) == [1]
  {
    hide LevelsOf;
    var levels := LevelsOf(s, segs);
    ClosedMeans(levels, 1);
    Single(Closed(levels, 1));
  }

  lemma Single(c: seq<nat>)
    requires Increasing(c) && c != [] && c[0] == 1 && c[|c| - 1] <= 1
    ensures c == [1]
  {
  }

  lemma KeptSound(t: Text, segs: seq<Seg>, begun: bool)
    requires Cut(t, segs) && EndOf(segs) <= |t.s|
    ensures var levels, column := LevelsOf(t.s, segs), Column(t.s, segs);
            Sound(TokensOf(t.s, segs) + (if begun then MovesAt(t.s, segs, EndOf(segs)) else []), |t.s|,
                  |if begun then Levels(levels, column) else levels| - 1)
  {
    hide Cut, TokensOf, LevelsOf, Column, Moves, Levels, Sound;
    TokensSound(t, segs);
    var levels, column, p := LevelsOf(t.s, segs), Column(t.s, segs), EndOf(segs);
    if begun {
      MovesAdded(TokensOf(t.s, segs), p, levels, column, p);
      Later(TokensOf(t.s, segs) + MovesAt(t.s, segs, p), p, |Levels(levels, column)| - 1, |t.s|);
    } else {
      Later(TokensOf(t.s, segs), p, |levels| - 1, |t.s|);
      assert TokensOf(t.s, segs) + [] == TokensOf(t.s, segs);
    }
  }

  /** Inside a line, or inside brackets. */
  lemma BreakInside(t: Text, segs: seq<Seg>, p: nat, e: nat)
    requires Cut(t, segs) && !Fresh(segs) && p == EndOf(segs)
    requires (e == p + 1 && p < |t.s| && t.s[p] == '\n') || (e == p + 2 && PairAt(t.s, p, '\r', '\n'))
    ensures var next := segs + [Seg(Break, p, e)];
            && Cut(t, next) && EndOf(next) == e && e <= |t.s| && (Fresh(next) <==> Depth(segs) == 0) && Depth(next) == Depth(segs)
            && TokensOf(t.s, next) == TokensOf(t.s, segs) + (if Depth(segs) == 0 then [Tok(Newline, p, e)] else [])
            && LevelsOf(t.s, next) == LevelsOf(t.s, segs) && Column(t.s, next) == 1
  {
    hide Cut, LevelsOf, TokensOf, Column, Depth, Moves;
    var g := Seg(Break, p, e);
    Taken(t, segs, false, g);
    ColumnAdded(t.s, segs, g);
  }

  /** A blank or a carriage return inside a line. */
  lemma SilentTaken(t: Text, segs: seq<Seg>, g: Seg)
    requires Cut(t, segs) && !Fresh(segs) && g.start == EndOf(segs) && Shaped(t, false, g) && (g.part.Space? || g.part.Return?)
    ensures var next := segs + [g];
            && Cut(t, next) && EndOf(next) == g.end && g.end <= |t.s| && !Fresh(next) && Depth(next) == Depth(segs)
            && TokensOf(t.s, next) == TokensOf(t.s, segs) && LevelsOf(t.s, next) == LevelsOf(t.s, segs)
  {
    hide Cut, LevelsOf, TokensOf, Column, Depth, Moves;
    Taken(t, segs, false, g);
  }

  lemma SpaceTaken(t: Text, segs: seq<Seg>, p: nat)
    requires Cut(t, segs) && Fresh(segs) && p == EndOf(segs) < |t.s| && IsBlank(t.s[p])
    ensures var next := segs + [Seg(Space, p, p + 1)];
            && Cut(t, next) && EndOf(next) == p + 1 && Fresh(next) && Depth(next) == Depth(segs)
            && TokensOf(t.s, next) == TokensOf(t.s, segs) && LevelsOf(t.s, next) == LevelsOf(t.s, segs)
            && Column(t.s, next) == Column(t.s, segs) + if t.s[p] == '\t' then 4 else 1
  {
    hide Cut, LevelsOf, TokensOf, Column, Depth, Moves;
    var g := Seg(Space, p, p + 1);
    Taken(t, segs, false, g);
    ColumnAdded(t.s, segs, g);
  }

  lemma LeadStops(s: seq<char>, p: nat, column: nat)
    requires p <= |s|
    ensures if p < |s| && IsBlank(s[p]) then
              Lead(s, p) == Lead(s, p + 1) && ColumnAt(s, p, column) == ColumnAt(s, p + 1, column + if s[p] == '\t' then 4 else 1)
            else Lead(s, p) == p && ColumnAt(s, p, column) == column
  {
  }

  lemma BreakTaken(t: Text, segs: seq<Seg>, p: nat, e: nat)
    requires Cut(t, segs) && Fresh(segs) && p == EndOf(segs) < |t.s| && IsBreak(t.s[p])
    requires e == if PairAt(t.s, p, '\r', '\n') then p + 2 else p + 1
    ensures var next := segs + [Seg(Break, p, e)];
            && Cut(t, next) && EndOf(next) == e && e <= |t.s| && Fresh(next) && Depth(next) == Depth(segs)
            && TokensOf(t.s, next) == TokensOf(t.s, segs) && LevelsOf(t.s, next) == LevelsOf(t.s, segs)
            && Column(t.s, next) == 1
  {
    hide Cut, LevelsOf, TokensOf, Column, Depth, Moves;
    var g := Seg(Break, p, e);
    FreshOutside(segs);
    Taken(t, segs, false, g);
    ColumnAdded(t.s, segs, g);
  }

  lemma UnclosedTaken(t: Text, segs: seq<Seg>, p: nat)
    requires Cut(t, segs) && Fresh(segs) && p == EndOf(segs) < |t.s| && Unending(t.s, p)
    ensures var next := segs + [Seg(Unclosed, p, |t.s|)];
            && Cut(t, next) && EndOf(next) == |t.s| && Fresh(next) && Depth(next) == Depth(segs)
            && TokensOf(t.s, next) == TokensOf(t.s, segs) && LevelsOf(t.s, next) == LevelsOf(t.s, segs)
            && Column(t.s, next) == After(t.s, p, |t.s|, Column(t.s, segs))
  {
    hide Cut, LevelsOf, TokensOf, Column, Depth, Moves, Nest, After;
    var g := Seg(Unclosed, p, |t.s|);
    Taken(t, segs, false, g);
    ColumnAdded(t.s, segs, g);
  }

  /** A comment, wherever it stands. */
  lemma CommentTaken(t: Text, segs: seq<Seg>, g: Seg)
    requires Cut(t, segs) && g.start == EndOf(segs) && Shaped(t, Fresh(segs), g) && (g.part.LineComment? || g.part.BlockComment?)
    ensures var next := segs + [g];
            && Cut(t, next) && EndOf(next) == g.end && g.end <= |t.s| && (Fresh(next) <==> Fresh(segs)) && Depth(next) == Depth(segs)
            && TokensOf(t.s, next) == TokensOf(t.s, segs) + (if g.part.BlockComment? then [Tok(Comment, g.start, g.end)] else [])
            && LevelsOf(t.s, next) == LevelsOf(t.s, segs)
            && Column(t.s, next) == After(t.s, g.start, g.end, Column(t.s, segs))
  {
    hide Cut, LevelsOf, TokensOf, Column, Depth, Moves, Encloses, After;
    Taken(t, segs, false, g);
    ColumnAdded(t.s, segs, g);
  }

  /** The content of a line: the first if the indents and dedents have been made, or some other. */
  lemma ContentTaken(t: Text, segs: seq<Seg>, g: Seg)
    requires Cut(t, segs) && g.start == EndOf(segs) && Shaped(t, Fresh(segs), g) && Content(g.part)
    requires Fresh(segs) ==> Fits(LevelsOf(t.s, segs), Column(t.s, segs))
    ensures var next := segs + [g];
            && Cut(t, next) && EndOf(next) == g.end && g.end <= |t.s| && !Fresh(next)
            && Depth(next) == (if g.part.Opening? then Depth(segs) + 1
                               else if g.part.Closing? && Depth(segs) > 0 then Depth(segs) - 1 else Depth(segs))
            && TokensOf(t.s, next) == TokensOf(t.s, segs) + (if Fresh(segs) then MovesAt(t.s, segs, g.start) else [])
                                      + (if g.part.Gap? then [] else [Tok(Plain, g.start, g.end)])
            && LevelsOf(t.s, next) == (if Fresh(segs) then Levels(LevelsOf(t.s, segs), Column(t.s, segs)) else LevelsOf(t.s, segs))
  {
    hide Cut, LevelsOf, TokensOf, Column, Depth, Moves, Encloses, Fits, Shaped, Fresh;
    ContentLegal(t, segs, g);
    Taken(t, segs, Fresh(segs), g);
  }

  lemma ContentLegal(t: Text, segs: seq<Seg>, g: Seg)
    requires g.start == EndOf(segs) && Shaped(t, Fresh(segs), g) && Content(g.part)
    requires Fresh(segs) ==> Fits(LevelsOf(t.s, segs), Column(t.s, segs))
    ensures Legal(t, segs, g) && (Begins(segs, g) <==> Fresh(segs))
  {
    hide Shaped, Fresh, LevelsOf, Column, Fits;
  }

  lemma AfterStep(s: seq<char>, p: nat, e: nat, column: nat)
    requires p <= e <= |s|
    ensures e < |s| ==> After(s, p, e + 1, column) == if s[e] == '\n' then 1 else After(s, p, e, column) + 1
    ensures After(s, p, p, column) == column
  {
  }

  lemma {:induction false} AfterAfter(s: seq<char>, p: nat, q: nat, column: nat)
    requires p <= q <= |s|
    ensures forall e :: q <= e <= |s| ==> After(s, p, e, column) == After(s, q, e, After(s, p, q, column))
  {
    forall e | q <= e <= |s| ensures After(s, p, e, column) == After(s, q, e, After(s, p, q, column)) {
      AfterTo(s, p, q, e, column);
    }
  }

  lemma {:induction false} AfterTo(s: seq<char>, p: nat, q: nat, e: nat, column: nat)
    requires p <= q <= e <= |s|
    ensures After(s, p, e, column) == After(s, q, e, After(s, p, q, column))
    decreases e
  {
    if e > q {
      AfterTo(s, p, q, e - 1, column);
    }
  }

  lemma NeverEncloses(s: seq<char>, p: nat)
    requires Unending(s, p)
    ensures forall e: nat :: !Encloses(s, p, e)
  {
    hide Nest;
  }

  lemma NestStart(s: seq<char>, p: nat)
    requires PairAt(s, p, '#', '*')
    ensures Nest(s, p, p + 2) == 1 && !MarkAt(s, p, p + 1)
  {
    assert MarkAt(s, p, p);
    assert Nest(s, p, p + 1) == 0;
  }

  /** The marks, one place on or two. */
  lemma NestStep(s: seq<char>, from: nat, p: nat)
    requires from + 2 <= p < |s| && !MarkAt(s, from, p - 1)
    ensures Nest(s, from, p + 1) == Nest(s, from, p)
    ensures if PairAt(s, p, '#', '*') then Nest(s, from, p + 2) == Nest(s, from, p) + 1 && !MarkAt(s, from, p + 1)
            else if PairAt(s, p, '*', '#') then Nest(s, from, p + 2) == Nest(s, from, p) - 1 && !MarkAt(s, from, p + 1)
            else !MarkAt(s, from, p)
  {
    if PairAt(s, p, '#', '*') || PairAt(s, p, '*', '#') {
      assert MarkAt(s, from, p);
    }
  }
}
