/** Whole lowered programs: labels are distinct, and the register machine prints what the source
    prints, returns exactly when the source ends, and is stopped exactly when a division fails. */
module LoweringPrograms {
  import opened Values
  import opened Ast
  import opened Source
  import opened Words
  import opened StaticIr
  import opened Lowering
  import opened LoweringExprs
  import opened LoweringStmts
  import opened LoweringRuns
  import opened Exits

  // ----- labels -----

  /** Each label of the range is defined at most once, and no other label is. */
  ghost predicate LabelsIn(code: seq<Insn>, lo: nat, hi: nat) {
    lo <= hi && forall l: nat :: Count(code, l) <= if lo <= l < hi then 1 else 0
  }

  predicate NoLabel(code: seq<Insn>) {
    forall k :: 0 <= k < |code| ==> !code[k].Label?
  }

  lemma {:induction false} CountNone(code: seq<Insn>, l: nat)
    requires NoLabel(code)
    ensures Count(code, l) == 0
  {
    if code != [] {
      CountNone(code[1..], l);
    }
  }

  lemma LabelsNone(code: seq<Insn>, k: nat)
    requires NoLabel(code)
    ensures LabelsIn(code, k, k)
  {
    forall l: nat ensures Count(code, l) == 0 {
      CountNone(code, l);
    }
  }

  lemma LabelsAppend(a: seq<Insn>, b: seq<Insn>, lo: nat, mid: nat, hi: nat)
    requires LabelsIn(a, lo, mid) && LabelsIn(b, mid, hi)
    ensures LabelsIn(a + b, lo, hi)
  {
    forall l: nat ensures Count(a + b, l) == Count(a, l) + Count(b, l) {
      CountAppend(a, b, l);
    }
  }

  function One(i: Insn, l: nat): nat {
    if i == Label(l) then 1 else 0
  }

  lemma CountCons(i: Insn, code: seq<Insn>, l: nat)
    ensures Count([i] + code, l) == One(i, l) + Count(code, l)
  {
    assert ([i] + code)[1..] == code;
  }

  lemma LogicLabels(isAnd: bool, x: Operand, y: Operand, s: Low)
    ensures LabelsIn(Logic(isAnd, x, y, s).code, s.nextLabel, Logic(isAnd, x, y, s).s.nextLabel)
  {
    hide Arith, Count;
    var code := Logic(isAnd, x, y, s).code;
    if code == [] {
      LabelsNone(code, s.nextLabel);
    } else {
      var c := [Label(s.nextLabel + 1), code[4], Label(s.nextLabel)];
      forall l: nat ensures Count(code, l) == One(Label(s.nextLabel + 1), l) + One(Label(s.nextLabel), l) {
        assert code == code[..3] + c;
        CountAppend(code[..3], c, l);
        CountNone(code[..3], l);
        CountTwo(s.nextLabel + 1, [code[4]], s.nextLabel, l);
        assert [Label(s.nextLabel + 1)] + [code[4]] + [Label(s.nextLabel)] == c;
      }
    }
  }

  lemma CountTwo(a: nat, mid: seq<Insn>, b: nat, l: nat)
    requires NoLabel(mid)
    ensures Count([Label(a)] + mid + [Label(b)], l) == One(Label(a), l) + One(Label(b), l)
  {
    CountAppend([Label(a)] + mid, [Label(b)], l);
    CountCons(Label(a), mid, l);
    CountNone(mid, l);
    CountCons(Label(b), [], l);
    assert [Label(b)] + [] == [Label(b)];
  }

  lemma ChoiceLabels(c: seq<Insn>, a: seq<Insn>, x: Operand, b: seq<Insn>, y: Operand, dst: nat, k: nat, m1: nat,
        m2: nat, hi: nat)
    requires LabelsIn(c, k + 2, m1) && LabelsIn(a, m1, m2) && LabelsIn(b, m2, hi)
    ensures LabelsIn(ChoiceCode(c, a, x, b, y, dst, k, k + 1), k, hi)
  {
    hide Count;
    var mid, tail := [Mov(dst, x), Jump(k + 1)], [Mov(dst, y)];
    var code := ChoiceCode(c, a, x, b, y, dst, k, k + 1);
    assert code == c + a + mid + [Label(k)] + b + tail + [Label(k + 1)];
    forall l: nat ensures Count(code, l) == Count(c, l) + Count(a, l) + Count(b, l) + One(Label(k), l) + One(Label(k + 1), l) {
      CountAppend(c + a + mid + [Label(k)] + b + tail, [Label(k + 1)], l);
      CountAppend(c + a + mid + [Label(k)] + b, tail, l);
      CountAppend(c + a + mid + [Label(k)], b, l);
      CountAppend(c + a + mid, [Label(k)], l);
      CountAppend(c + a, mid, l);
      CountAppend(c, a, l);
      CountNone(mid, l);
      CountNone(tail, l);
      CountCons(Label(k), [], l);
      CountCons(Label(k + 1), [], l);
      assert [Label(k)] + [] == [Label(k)] && [Label(k + 1)] + [] == [Label(k + 1)];
      CountNone([], l);
    }
  }

  lemma PairLabels(e: Expr, x: Operand, y: Operand, s: Low)
    requires e.Binary? || e.And? || e.Or?
    ensures LabelsIn(PairOn(e, x, y, s).code, s.nextLabel, PairOn(e, x, y, s).s.nextLabel)
  {
    hide LabelsIn, Fold;
    if e.Binary? {
      LabelsNone(Combine(e.op, x, y, s).code, s.nextLabel);
    } else {
      LogicLabels(e.And?, x, y, s);
    }
  }

  lemma {:induction false} ExprLabels(e: Expr, s: Low)
    requires StaticExpr(e)
    ensures LabelsIn(LowerExpr(e, s).code, s.nextLabel, LowerExpr(e, s).s.nextLabel)
    decreases e, 0
  {
    hide LowerExpr, LowerCond, StaticExpr, PairOn, LabelsIn, ChoiceCode;
    if e.Binary? || e.And? || e.Or? {
      PairCode(e, s);
      var a := LowerExpr(e.left, s);
      var b := LowerExpr(e.right, a.s);
      ExprLabels(e.left, s);
      ExprLabels(e.right, a.s);
      var d := PairOn(e, a.value, b.value, b.s);
      PairLabels(e, a.value, b.value, b.s);
      LabelsAppend(a.code, b.code, s.nextLabel, a.s.nextLabel, b.s.nextLabel);
      LabelsAppend(a.code + b.code, d.code, s.nextLabel, b.s.nextLabel, d.s.nextLabel);
    } else if e.Unary? {
      StaticOperand(e);
      UnaryCode(e.uop, e.operand, s);
      var a := LowerExpr(e.operand, s);
      ExprLabels(e.operand, s);
      var d := if e.uop == UnOp.Neg then Negated(a.value, a.s) else Inverted(a.value, a.s);
      LabelsNone(d.code, a.s.nextLabel);
      LabelsAppend(a.code, d.code, s.nextLabel, a.s.nextLabel, a.s.nextLabel);
    } else if e.Ternary? {
      ChoiceParts(e, s);
      var s0 := FreshLabels(s, 2);
      var cc := LowerCond(e.cond, s.nextLabel, s0);
      var a := LowerExpr(e.yes, cc.s);
      var b := LowerExpr(e.no, FreshReg(a.s));
      CondLabels(e.cond, s.nextLabel, s0);
      ExprLabels(e.yes, cc.s);
      ExprLabels(e.no, FreshReg(a.s));
      ChoiceLabels(cc.code, a.code, a.value, b.code, b.value, a.s.nextReg, s.nextLabel, cc.s.nextLabel, a.s.nextLabel, b.s.nextLabel);
    } else {
      LeafLabels(e, s);
    }
  }

  lemma LeafLabels(e: Expr, s: Low)
    requires StaticExpr(e) && !e.Binary? && !e.And? && !e.Or? && !e.Unary? && !e.Ternary?
    ensures LabelsIn(LowerExpr(e, s).code, s.nextLabel, LowerExpr(e, s).s.nextLabel)
  {
    hide LabelsIn;
    LabelsNone(LowerExpr(e, s).code, s.nextLabel);
  }

  lemma {:induction false} CondLabels(e: Expr, target: nat, s: Low)
    requires StaticExpr(e)
    ensures LabelsIn(LowerCond(e, target, s).code, s.nextLabel, LowerCond(e, target, s).s.nextLabel)
    decreases e, 1
  {
    hide LowerExpr, StaticExpr, LabelsIn;
    if e.Binary? && IsComparison(e.op) {
      ComparisonCode(e, target, s);
      var a := LowerExpr(e.left, s);
      var b := LowerExpr(e.right, a.s);
      var i := [Branch(Negate(CondOf(e.op)), a.value, b.value, target)];
      ExprLabels(e.left, s);
      ExprLabels(e.right, a.s);
      LabelsNone(i, b.s.nextLabel);
      LabelsAppend(a.code, b.code, s.nextLabel, a.s.nextLabel, b.s.nextLabel);
      LabelsAppend(a.code + b.code, i, s.nextLabel, b.s.nextLabel, b.s.nextLabel);
    } else {
      var a := LowerExpr(e, s);
      var i := [Branch(CondEq, a.value, ImmBool(false), target)];
      ExprLabels(e, s);
      LabelsNone(i, a.s.nextLabel);
      LabelsAppend(a.code, i, s.nextLabel, a.s.nextLabel, a.s.nextLabel);
    }
  }

  lemma WhileLabels(cc: seq<Insn>, cb: seq<Insn>, k: nat, mid: nat, hi: nat)
    requires LabelsIn(cc, k + 3, mid) && LabelsIn(cb, mid, hi)
    ensures LabelsIn(WhileCode(k + 2, k, k + 1, cc, cb), k, hi)
  {
    hide Count;
    var tail := [Label(k)] + [Jump(k + 2)] + [Label(k + 1)];
    var code := WhileCode(k + 2, k, k + 1, cc, cb);
    assert code == [Label(k + 2)] + (cc + cb) + tail;
    forall l: nat ensures Count(code, l)
                          == Count(cc, l) + Count(cb, l) + One(Label(k + 2), l) + One(Label(k), l) + One(Label(k + 1), l) {
      CountAppend([Label(k + 2)] + (cc + cb), tail, l);
      CountCons(Label(k + 2), cc + cb, l);
      CountAppend(cc, cb, l);
      CountTwo(k, [Jump(k + 2)], k + 1, l);
    }
  }

  lemma BranchLabels(cc: seq<Insn>, cb: seq<Insn>, r: seq<Insn>, other: nat, end: nat, lo: nat, m1: nat, m2: nat,
        hi: nat)
    requires LabelsIn(cc, lo, m1) && LabelsIn(cb, m1, m2) && LabelsIn(r, m2, hi)
    requires other < lo
    ensures forall l: nat :: Count(BranchCode(cc, cb, other, end) + r, l)
                             <= (if lo <= l < hi then 1 else 0) + One(Label(other), l)
  {
    hide Count;
    forall l: nat ensures Count(BranchCode(cc, cb, other, end) + r, l)
                          == Count(cc, l) + Count(cb, l) + Count(r, l) + One(Label(other), l) {
      var tail := [Jump(end)] + [Label(other)];
      assert BranchCode(cc, cb, other, end) == cc + cb + tail;
      CountAppend(cc + cb + tail, r, l);
      CountAppend(cc + cb, tail, l);
      CountAppend(cc, cb, l);
      CountAppend([Jump(end)], [Label(other)], l);
      CountCons(Label(other), [], l);
      CountNone([Jump(end)], l);
      assert [Label(other)] + [] == [Label(other)];
      CountNone([], l);
    }
  }

  lemma RangeLabels(a: seq<Insn>, b: seq<Insn>, c: seq<Insn>, d: seq<Insn>, r: nat, h: Hint, from: Operand, to: Operand,
                    next: nat, step: Operand, k: nat, m1: nat, m2: nat, m3: nat, hi: nat)
    requires LabelsIn(a, k + 4, m1) && LabelsIn(b, m1, m2) && LabelsIn(c, m2, m3) && LabelsIn(d, m3, hi)
    ensures LabelsIn(a + b + c + RangeHead(r, h, from, to, k + 2, k + 3) + d
                     + RangeTail(r, h, next, step, k + 2, k, k + 3, k + 1), k, hi)
  {
    hide Count;
    var head, tail := RangeHead(r, h, from, to, k + 2, k + 3), RangeTail(r, h, next, step, k + 2, k, k + 3, k + 1);
    LabelsAppend(a, b, k + 4, m1, m2);
    LabelsAppend(a + b, c, k + 4, m2, m3);
    forall l: nat ensures Count(a + b + c + head + d + tail, l)
      == Count(a + b + c, l) + Count(d, l) + One(Label(k + 2), l) + One(Label(k), l) + One(Label(k + 3), l) + One(Label(k + 1), l) {
      CountAppend(a + b + c + head + d, tail, l);
      CountAppend(a + b + c + head, d, l);
      CountAppend(a + b + c, head, l);
      HeadLabels(r, h, from, to, k, l);
      TailLabels(r, h, next, step, k, l);
    }
  }

  lemma HeadLabels(r: nat, h: Hint, from: Operand, to: Operand, k: nat, l: nat)
    ensures Count(RangeHead(r, h, from, to, k + 2, k + 3), l) == One(Label(k + 2), l)
  {
    hide Count;
    var head := RangeHead(r, h, from, to, k + 2, k + 3);
    assert head == head[..1] + ([Label(k + 2)] + head[2..]);
    CountAppend(head[..1], [Label(k + 2)] + head[2..], l);
    CountCons(Label(k + 2), head[2..], l);
    CountNone(head[..1], l);
    CountNone(head[2..], l);
  }

  lemma TailLabels(r: nat, h: Hint, next: nat, step: Operand, k: nat, l: nat)
    ensures Count(RangeTail(r, h, next, step, k + 2, k, k + 3, k + 1), l)
         == One(Label(k), l) + One(Label(k + 3), l) + One(Label(k + 1), l)
  {
    hide Count;
    var tail := RangeTail(r, h, next, step, k + 2, k, k + 3, k + 1);
    assert tail == [Label(k)] + (tail[1..4] + ([Label(k + 3)] + [] + [Label(k + 1)]));
    CountCons(Label(k), tail[1..4] + ([Label(k + 3)] + [] + [Label(k + 1)]), l);
    CountAppend(tail[1..4], [Label(k + 3)] + [] + [Label(k + 1)], l);
    CountNone(tail[1..4], l);
    CountTwo(k + 3, [], k + 1, l);
  }

  lemma {:induction false} PrintLabels(es: Vec<Expr>, s: Low)
    requires StaticExprs(es)
    ensures LabelsIn(LowerPrint(es, s).code, s.nextLabel, LowerPrint(es, s).s.nextLabel)
    decreases es
  {
    hide LowerExpr, StaticExpr, LabelsIn;
    match es
    case Nil => LabelsNone([], s.nextLabel);
    case Cons(e, rest) =>
      var a := LowerExpr(e, s);
      var i := [Call(None, if rest.Nil? then PrintlnValue else PrintValue, [a.value])];
      var b := LowerPrint(rest, a.s);
      ExprLabels(e, s);
      LabelsNone(i, a.s.nextLabel);
      PrintLabels(rest, a.s);
      LabelsAppend(a.code, i, s.nextLabel, a.s.nextLabel, a.s.nextLabel);
      LabelsAppend(a.code + i, b.code, s.nextLabel, a.s.nextLabel, b.s.nextLabel);
  }

  lemma {:induction false} StmtLabels(t: Stmt, lp: Loops, s: Low)
    requires StaticStmt(t)
    ensures LabelsIn(LowerStmt(t, lp, s).code, s.nextLabel, LowerStmt(t, lp, s).s.nextLabel)
    decreases t, 1
  {
    hide LowerStmt, LabelsIn;
    match t
    case If(_, _, _) => IfLabels(t, lp, s);
    case While(_, _) => LoopLabels(t, lp, s);
    case Loop(_) => LoopLabels(t, lp, s);
    case ForRange(_, _, _, _, _) => RangeStmtLabels(t, lp, s);
    case Scope(_) => ScopeLabels(t, lp, s);
    case _ => SimpleLabels(t, lp, s);
  }

  lemma SimpleLabels(t: Stmt, lp: Loops, s: Low)
    requires StaticStmt(t) && !t.If? && !t.While? && !t.Loop? && !t.ForRange? && !t.Scope?
    ensures LabelsIn(LowerStmt(t, lp, s).code, s.nextLabel, LowerStmt(t, lp, s).s.nextLabel)
  {
    hide LowerExpr, LowerPrint, StaticExpr, StaticExprs, LabelsIn, StoreTo, Update;
    match t
    case Assign(x, e) =>
      var a := LowerExpr(e, s);
      ExprLabels(e, s);
      StoreLabels(a, s.nextLabel, x);
    case Compound(x, op, e) =>
      var a := LowerExpr(e, s);
      ExprLabels(e, s);
      UpdateLabels(a, s.nextLabel, x, op, OldValue(x, s));
    case ExprStmt(e) => ExprLabels(e, s);
    case Println(es) =>
      LabelsNone([Call(None, PrintlnValue, [])], s.nextLabel);
      PrintLabels(es, s);
    case Break => LabelsNone(LowerStmt(t, lp, s).code, s.nextLabel);
    case Continue => LabelsNone(LowerStmt(t, lp, s).code, s.nextLabel);
  }

  lemma StoreLabels(a: LowExpr, k: nat, x: string)
    requires LabelsIn(a.code, k, a.s.nextLabel)
    ensures var b := StoreTo(x, a.value, a.s); LabelsIn(a.code + b.code, k, b.s.nextLabel)
  {
    hide LabelsIn;
    var b := StoreTo(x, a.value, a.s);
    LabelsNone(b.code, a.s.nextLabel);
    LabelsAppend(a.code, b.code, k, a.s.nextLabel, a.s.nextLabel);
  }

  lemma UpdateLabels(a: LowExpr, k: nat, x: string, op: BinOp, o: Operand)
    requires LabelsIn(a.code, k, a.s.nextLabel)
    ensures var b := Update(x, op, a.value, o, a.s); LabelsIn(a.code + b.code, k, b.s.nextLabel)
  {
    hide LabelsIn;
    var b := Update(x, op, a.value, o, a.s);
    LabelsNone(b.code, a.s.nextLabel);
    LabelsAppend(a.code, b.code, k, a.s.nextLabel, a.s.nextLabel);
  }

  lemma {:induction false} ScopeLabels(t: Stmt, lp: Loops, s: Low)
    requires t.Scope? && StaticStmt(t)
    ensures LabelsIn(LowerStmt(t, lp, s).code, s.nextLabel, LowerStmt(t, lp, s).s.nextLabel)
    decreases t, 0
  {
    hide LowerBlock, StaticBlock, LabelsIn;
    var b := LowerBlock(t.body, lp, s);
    BlockLabels(t.body, lp, s);
    LabelsNone([Comment], s.nextLabel);
    LabelsAppend([Comment], b.code, s.nextLabel, s.nextLabel, b.s.nextLabel);
  }

  lemma {:induction false} LoopLabels(t: Stmt, lp: Loops, s: Low)
    requires (t.While? || t.Loop?) && StaticStmt(t)
    ensures LabelsIn(LowerStmt(t, lp, s).code, s.nextLabel, LowerStmt(t, lp, s).s.nextLabel)
    decreases t, 0
  {
    hide LowerExpr, LowerCond, LowerBlock, StaticExpr, StaticBlock, LabelsIn, WhileCode, LowerStmt;
    var s0 := FreshLabels(s, 3);
    var lp1 := InLoop(s.nextLabel, s.nextLabel + 1);
    var cc := LoopCond(t, s);
    if t.While? {
      CondLabels(t.cond, s.nextLabel + 1, s0);
    } else {
      LabelsNone([], s0.nextLabel);
    }
    BlockLabels(t.body, lp1, cc.s);
    var b := LowerBlock(t.body, lp1, cc.s);
    WhileLabels(cc.code, b.code, s.nextLabel, cc.s.nextLabel, b.s.nextLabel);
    LoopCode(t, lp, s);
  }

  lemma LoopCode(t: Stmt, lp: Loops, s: Low)
    requires (t.While? || t.Loop?) && StaticStmt(t)
    ensures StaticBlock(t.body)
    ensures var b := LowerBlock(t.body, InLoop(s.nextLabel, s.nextLabel + 1), LoopCond(t, s).s);
            LowerStmt(t, lp, s) == LowCode(WhileCode(s.nextLabel + 2, s.nextLabel, s.nextLabel + 1, LoopCond(t, s).code, b.code), b.s)
  {
    hide LowerBlock, LowerCond, StaticBlock, StaticExpr, WhileCode;
  }

  lemma {:induction false} IfLabels(t: Stmt, lp: Loops, s: Low)
    requires t.If? && StaticStmt(t)
    ensures LabelsIn(LowerStmt(t, lp, s).code, s.nextLabel, LowerStmt(t, lp, s).s.nextLabel)
    decreases t, 0
  {
    hide LowerExpr, LowerCond, LowerBlock, LowerRest, StaticExpr, StaticBlock, StaticRest, BranchCode, Count;
    var k := s.nextLabel;
    var cc := LowerCond(t.cond, k, FreshLabels(s, 2));
    var b := LowerBlock(t.yes, lp, cc.s);
    var r := LowerRest(t.rest, k + 1, lp, b.s);
    CondLabels(t.cond, k, FreshLabels(s, 2));
    BlockLabels(t.yes, lp, cc.s);
    RestLabels(t.rest, k + 1, lp, b.s);
    BranchLabels(cc.code, b.code, r.code, k, k + 1, k + 2, cc.s.nextLabel, b.s.nextLabel, r.s.nextLabel);
    var head := BranchCode(cc.code, b.code, k, k + 1) + r.code;
    var code := LowerStmt(t, lp, s).code;
    assert code == head + [Label(k + 1)];
    forall l: nat ensures Count(code, l) == Count(head, l) + One(Label(k + 1), l) {
      CountAppend(head, [Label(k + 1)], l);
      CountCons(Label(k + 1), [], l);
      CountNone([], l);
      assert [Label(k + 1)] + [] == [Label(k + 1)];
    }
  }

  lemma {:induction false} RangeStmtLabels(t: Stmt, lp: Loops, s: Low)
    requires t.ForRange? && StaticStmt(t)
    ensures LabelsIn(LowerStmt(t, lp, s).code, s.nextLabel, LowerStmt(t, lp, s).s.nextLabel)
    decreases t, 0
  {
    hide LowerExpr, LowerBlock, StaticExpr, StaticBlock, RangeHead, RangeTail, LabelsIn;
    var k := s.nextLabel;
    var a := LowerExpr(t.from, FreshLabels(s, 4));
    var b := LowerExpr(t.to, a.s);
    var c := StepOperand(t.step, b.s);
    var s1 := RangeBodyState(t, s);
    var lp1 := InLoop(k, k + 1);
    var d := LowerBlock(t.body, lp1, s1);
    ExprLabels(t.from, FreshLabels(s, 4));
    ExprLabels(t.to, a.s);
    if t.step.Some? {
      ExprLabels(t.step.value, b.s);
    } else {
      LabelsNone([], b.s.nextLabel);
    }
    BlockLabels(t.body, lp1, s1);
    var h := if HintOf(a.value).I64? && HintOf(b.value).I64? then I64 else Dynamic;
    RangeLabels(a.code, b.code, c.code, d.code, s1.locals[t.name].reg, h, a.value, b.value, d.s.nextReg, c.value, k,
                a.s.nextLabel, b.s.nextLabel, c.s.nextLabel, d.s.nextLabel);
  }

  lemma {:induction false} BlockLabels(b: Block, lp: Loops, s: Low)
    requires StaticBlock(b)
    ensures LabelsIn(LowerBlock(b, lp, s).code, s.nextLabel, LowerBlock(b, lp, s).s.nextLabel)
    decreases b, 1
  {
    hide LowerStmt, StaticStmt, LabelsIn;
    match b
    case Nil => LabelsNone([], s.nextLabel);
    case Cons(t, rest) =>
      var a := LowerStmt(t, lp, s);
      var c := LowerBlock(rest, lp, a.s);
      StmtLabels(t, lp, s);
      BlockLabels(rest, lp, a.s);
      LabelsAppend(a.code, c.code, s.nextLabel, a.s.nextLabel, c.s.nextLabel);
  }

  lemma {:induction false} RestLabels(r: Rest, end: nat, lp: Loops, s: Low)
    requires StaticRest(r)
    ensures LabelsIn(LowerRest(r, end, lp, s).code, s.nextLabel, LowerRest(r, end, lp, s).s.nextLabel)
    decreases r, 1
  {
    hide LowerCond, LowerBlock, StaticExpr, StaticBlock, Count, BranchCode;
    match r
    case NoElse => LabelsNone([], s.nextLabel);
    case Else(body) => BlockLabels(body, lp, s);
    case Elif(c, body, rest) =>
      var k := s.nextLabel;
      var cc := LowerCond(c, k, FreshLabels(s, 1));
      var b := LowerBlock(body, lp, cc.s);
      var d := LowerRest(rest, end, lp, b.s);
      CondLabels(c, k, FreshLabels(s, 1));
      BlockLabels(body, lp, cc.s);
      RestLabels(rest, end, lp, b.s);
      BranchLabels(cc.code, b.code, d.code, k, end, k + 1, cc.s.nextLabel, b.s.nextLabel, d.s.nextLabel);
  }

  /** No two instructions of a lowered program define the same label. */
  lemma ProgramLabels(p: Block)
    requires StaticBlock(p)
    ensures Distinct(LowerProgram(p))
  {
    hide LowerBlock, StaticBlock, Count;
    var b := LowerBlock(p, NoLoop, NEW);
    BlockLabels(p, NoLoop, NEW);
    var hi := b.s.nextLabel;
    LabelsNone([Comment], 0);
    LabelsNone([Ret(ImmI64(0))], hi);
    LabelsAppend([Comment], b.code, 0, 0, hi);
    LabelsAppend([Comment] + b.code, [Ret(ImmI64(0))], 0, hi, hi);
  }

  // ----- whole programs -----

  /** The programs of the fragment whose variables have the types `g`. */
  predicate InFragment(g: Env, p: Block)
    ensures InFragment(g, p) ==> StaticBlock(p)
  {
    FlowBlock(g, map[], p).Some? && ClosedBlock(p)
  }

  /** The register machine's status matches the outcome of the program. */
  ghost predicate Matches(r: ExecResult, s: IrStatus) {
    match r
    case Done(_, st, _) => s == Returned(0, st.out)
    case Failed(_, out) => s == Trapped(out)
    case OutOfFuel(out) => s.Going? && s.c.out == out
  }

  lemma LoweredRuns(g: Env, p: Block, fuel: nat, regs: map<nat, i64>) returns (n: nat)
    requires InFragment(g, p)
    ensures Matches(ExecBlock(Lowered, p, EMPTY, fuel), Run(LowerProgram(p), Going(IrConfig(0, regs, "")), n))
    ensures ExecBlock(Lowered, p, EMPTY, fuel).OutOfFuel? ==> n >= fuel
  {
    hide Run, ExecBlock, LowerBlock, FlowBlock, StaticBlock, ClosedBlock, Distinct, Find, Written, WrittenBlock,
      Has, Reaches;
    var body := LowerProgram(p);
    var b := LowerBlock(p, NoLoop, NEW);
    ProgramLabels(p);
    HasWhole(body);
    HasSplit(body, 0, [Comment] + b.code, [Ret(ImmI64(0))]);
    HasSplit(body, 0, [Comment], b.code);
    HasAt(body, 0, [Comment], 0);
    var c0 := IrConfig(0, regs, "");
    Start(body, c0);
    var c1, c2, m;
    n, c1 := Hop(body, c0, 0, c0, Comment);
    m, c2 := BlockLowered(g, map[], p, NoLoop, NEW, EMPTY, fuel, body, c1);
    Follow2(body, c0, n, c1, m, c2, ExecBlock(Lowered, p, EMPTY, fuel), BlockFrame(g, map[], p, NoLoop, NEW, c1.pc), fuel);
    n := n + m;
    var r := ExecBlock(Lowered, p, EMPTY, fuel);
    if !r.Failed? {
      ReachesRun(body, c0, n, c2);
    }
    ClosedBlockExits(Lowered, p, EMPTY, fuel);
    if r.Done? {
      HasAt(body, 1 + |b.code|, [Ret(ImmI64(0))], 0);
      Returns(body, c0, n, c2);
      n := n + 1;
    }
  }

  lemma Returns(body: seq<Insn>, c: IrConfig, n: nat, c': IrConfig)
    requires Run(body, Going(c), n) == Going(c') && c'.pc < |body| && body[c'.pc] == Ret(ImmI64(0))
    ensures Run(body, Going(c), n + 1) == Returned(0, c'.out)
  {
    hide Run;
    RunAdd(body, Going(c), n, 1);
    OneStep(body, Going(c'));
  }

  lemma OneStep(body: seq<Insn>, s: IrStatus)
    ensures Run(body, s, 1) == Step(body, s)
  {
    assert Run(body, s, 1) == Run(body, Step(body, s), 0);
  }

  lemma HasWhole(body: seq<Insn>)
    ensures Has(body, 0, body)
  {
  }

  lemma ReachesRun(body: seq<Insn>, c: IrConfig, n: nat, c': IrConfig)
    requires Reaches(body, c, n, c')
    ensures Run(body, Going(c), n) == Going(c')
  {
  }

  lemma StoppedOnce(body: seq<Insn>, s: IrStatus, n: nat, m: nat)
    requires !Run(body, s, n).Going?
    ensures m >= n ==> Run(body, s, m) == Run(body, s, n)
    ensures !Run(body, s, m).Going? ==> Run(body, s, m) == Run(body, s, n)
  {
    if m >= n {
      RunAdd(body, s, n, m - n);
      RunStopped(body, Run(body, s, n), m - n);
    } else if !Run(body, s, m).Going? {
      RunAdd(body, s, m, n - m);
      RunStopped(body, Run(body, s, m), n - m);
    }
  }

  ghost predicate IrStops(body: seq<Insn>, regs: map<nat, i64>) {
    exists n :: !Run(body, Going(IrConfig(0, regs, "")), n).Going?
  }

  /** The lowered program stops exactly when the source does, whatever the registers held before, and has
      then printed the same: it returns zero if the source ends, and traps if a division of the source fails. */
  lemma LoweringKept(g: Env, p: Block, regs: map<nat, i64>)
    requires InFragment(g, p)
    ensures IrStops(LowerProgram(p), regs) <==> ProgramStops(Lowered, p)
    ensures forall n, fuel ::
      !Run(LowerProgram(p), Going(IrConfig(0, regs, "")), n).Going? && !ExecBlock(Lowered, p, EMPTY, fuel).OutOfFuel?
      ==> Matches(ExecBlock(Lowered, p, EMPTY, fuel), Run(LowerProgram(p), Going(IrConfig(0, regs, "")), n))
  {
    hide Run, ExecBlock, LowerProgram, InFragment, Matches;
    var body := LowerProgram(p);
    var c0 := Going(IrConfig(0, regs, ""));
    forall n, fuel | !Run(body, c0, n).Going? && !ExecBlock(Lowered, p, EMPTY, fuel).OutOfFuel?
      ensures Matches(ExecBlock(Lowered, p, EMPTY, fuel), Run(body, c0, n))
    {
      var m := LoweredRuns(g, p, fuel, regs);
      MatchesStops(ExecBlock(Lowered, p, EMPTY, fuel), Run(body, c0, m));
      StoppedOnce(body, c0, n, m);
    }
    if n :| !Run(body, c0, n).Going? {
      var m := LoweredRuns(g, p, n, regs);
      MatchesStops(ExecBlock(Lowered, p, EMPTY, n), Run(body, c0, m));
      StoppedOnce(body, c0, n, m);
      assert !ExecBlock(Lowered, p, EMPTY, n).OutOfFuel?;
    }
    if fuel :| !ExecBlock(Lowered, p, EMPTY, fuel).OutOfFuel? {
      var m := LoweredRuns(g, p, fuel, regs);
      MatchesStops(ExecBlock(Lowered, p, EMPTY, fuel), Run(body, c0, m));
      assert !Run(body, c0, m).Going?;
    }
  }

  lemma MatchesStops(r: ExecResult, s: IrStatus)
    requires Matches(r, s)
    ensures r.OutOfFuel? <==> s.Going?
  {
  }
}
