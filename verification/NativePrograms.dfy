/** From the source to the processor: a program of the fragment, lowered and emitted, prints what it
    means, and the two compilers agree down to the machine code. */
module NativePrograms {
  import opened Values
  import opened Ast
  import opened Source
  import opened Exits
  import opened Words
  import opened StaticIr
  import opened Lowering
  import opened LoweringExprs
  import opened LoweringStmts
  import opened LoweringRuns
  import opened LoweringPrograms
  import opened X86
  import opened Emission
  import opened Simulation
  import opened Frames
  import opened Emitted
  import opened SteadyRanges
  import Bytecode
  import Layout
  import BytecodePrograms
  import Agreement

  // ----- lowering never writes an arithmetic result over its right operand -----

  predicate FreshDst(i: Insn) {
    i.Bin? && i.rhs.Reg? && i.rhs.n == i.dst ==> IsDivision(i.op) || (i.lhs.Reg? && i.lhs.n == i.dst)
  }

  predicate NoPrintResult(i: Insn) {
    i.Call? && i.result.Some? ==> !Prints(i.f)
  }

  predicate Tidy(code: seq<Insn>) {
    forall k :: 0 <= k < |code| ==> FreshDst(code[k]) && NoPrintResult(code[k])
  }

  lemma TidyAppend(a: seq<Insn>, b: seq<Insn>)
    requires Tidy(a) && Tidy(b)
    ensures Tidy(a + b)
  {
  }

  lemma PairTidy(e: Expr, x: Operand, y: Operand, s: Low)
    requires (e.Binary? || e.And? || e.Or?) && OperandBelow(y, s.nextReg)
    ensures Tidy(PairOn(e, x, y, s).code)
  {
    hide Fold, Arith;
  }

  lemma UnaryTidy(x: Operand, s: Low)
    requires OperandBelow(x, s.nextReg)
    ensures Tidy(Negated(x, s).code) && Tidy(Inverted(x, s).code)
  {
  }

  lemma ChoiceTidy(c: seq<Insn>, a: seq<Insn>, x: Operand, b: seq<Insn>, y: Operand, dst: nat, other: nat, end: nat)
    requires Tidy(c) && Tidy(a) && Tidy(b)
    ensures Tidy(ChoiceCode(c, a, x, b, y, dst, other, end))
  {
  }

  lemma {:induction false} ExprTidy(e: Expr, s: Low)
    requires StaticExpr(e) && LowOk(s)
    ensures Tidy(LowerExpr(e, s).code)
    decreases e, 0
  {
    hide LowerExpr, LowerCond, StaticExpr, PairOn, Tidy, ChoiceCode, Negated, Inverted;
    if e.Binary? || e.And? || e.Or? {
      PairCode(e, s);
      var a := LowerExpr(e.left, s);
      var b := LowerExpr(e.right, a.s);
      ExprState(e.left, s);
      ExprState(e.right, a.s);
      ExprTidy(e.left, s);
      ExprTidy(e.right, a.s);
      PairTidy(e, a.value, b.value, b.s);
      TidyAppend(a.code, b.code);
      TidyAppend(a.code + b.code, PairOn(e, a.value, b.value, b.s).code);
    } else if e.Unary? {
      StaticOperand(e);
      UnaryCode(e.uop, e.operand, s);
      var a := LowerExpr(e.operand, s);
      ExprState(e.operand, s);
      ExprTidy(e.operand, s);
      UnaryTidy(a.value, a.s);
      TidyAppend(a.code, if e.uop == UnOp.Neg then Negated(a.value, a.s).code else Inverted(a.value, a.s).code);
    } else if e.Ternary? {
      ChoiceParts(e, s);
      var s0 := FreshLabels(s, 2);
      var cc := LowerCond(e.cond, s.nextLabel, s0);
      var a := LowerExpr(e.yes, cc.s);
      var b := LowerExpr(e.no, FreshReg(a.s));
      CondState(e.cond, s.nextLabel, s0);
      ExprState(e.yes, cc.s);
      CondTidy(e.cond, s.nextLabel, s0);
      ExprTidy(e.yes, cc.s);
      ExprTidy(e.no, FreshReg(a.s));
      ChoiceTidy(cc.code, a.code, a.value, b.code, b.value, a.s.nextReg, s.nextLabel, s.nextLabel + 1);
    } else {
      LeafTidy(e, s);
    }
  }

  lemma LeafTidy(e: Expr, s: Low)
    requires StaticExpr(e) && !e.Binary? && !e.And? && !e.Or? && !e.Unary? && !e.Ternary?
    ensures Tidy(LowerExpr(e, s).code)
  {
  }

  lemma {:induction false} CondTidy(e: Expr, target: nat, s: Low)
    requires StaticExpr(e) && LowOk(s)
    ensures Tidy(LowerCond(e, target, s).code)
    decreases e, 1
  {
    hide LowerExpr, StaticExpr, LowOk;
    if e.Binary? && IsComparison(e.op) {
      ComparisonCode(e, target, s);
      ExprState(e.left, s);
      ExprTidy(e.left, s);
      assert LowOk(LowerExpr(e.left, s).s) by { ExtendsOk(s, LowerExpr(e.left, s).s); }
      ExprTidy(e.right, LowerExpr(e.left, s).s);
    } else {
      ExprTidy(e, s);
    }
  }

  lemma ExtendsOk(s: Low, s': Low)
    requires LowOk(s) && Extends(s, s')
    ensures LowOk(s')
  {
  }

  lemma StoreTidy(x: string, v: Operand, s: Low)
    ensures Tidy(StoreTo(x, v, s).code)
  {
  }

  lemma UpdateTidy(x: string, op: BinOp, v: Operand, old': Operand, s: Low)
    requires OperandBelow(v, s.nextReg)
    ensures Tidy(Update(x, op, v, old', s).code)
  {
  }

  lemma {:induction false} PrintTidy(g: Env, env: Env, es: Vec<Expr>, s: Low)
    requires AllTyped(env, es) && StateOk(g, s)
    ensures Tidy(LowerPrint(es, s).code)
    decreases es
  {
    hide LowerExpr, StaticExpr, TypeOf, Tidy;
    match es
    case Nil => assert Tidy([]) by { NothingTidy(); }
    case Cons(e, rest) =>
      var a := LowerExpr(e, s);
      var i := Call(None, if rest.Nil? then PrintlnValue else PrintValue, [a.value]);
      StateLow(g, s);
      ExprTidy(e, s);
      ExprGrows(g, e, s);
      PrintTidy(g, env, rest, a.s);
      CallTidy(i);
      TidyAppend(a.code, [i]);
      TidyAppend(a.code + [i], LowerPrint(rest, a.s).code);
  }

  lemma NothingTidy()
    ensures Tidy([])
  {
  }

  lemma CallTidy(i: Insn)
    requires i.Call? && i.result.None?
    ensures Tidy([i])
  {
  }

  lemma StateLow(g: Env, s: Low)
    requires StateOk(g, s)
    ensures LowOk(s)
  {
  }

  lemma WhileTidy(head: nat, cont: nat, brk: nat, c: seq<Insn>, b: seq<Insn>)
    requires Tidy(c) && Tidy(b)
    ensures Tidy(WhileCode(head, cont, brk, c, b))
  {
  }

  lemma BranchTidy(c: seq<Insn>, b: seq<Insn>, other: nat, end: nat)
    requires Tidy(c) && Tidy(b)
    ensures Tidy(BranchCode(c, b, other, end))
  {
  }

  lemma {:induction false} StmtTidy(g: Env, env: Env, t: Stmt, lp: Loops, s: Low)
    requires StmtReady(g, env, t, s)
    ensures Tidy(LowerStmt(t, lp, s).code)
    decreases t, 1
  {
    hide LowerStmt, Tidy, StateOk, FlowBlock, FlowRest, TypeOf;
    match t
    case If(_, _, _) => IfTidy(g, env, t, lp, s);
    case While(_, _) => LoopTidy(g, env, t, lp, s);
    case Loop(_) => LoopTidy(g, env, t, lp, s);
    case ForRange(_, _, _, _, _) => RangeTidy(g, env, t, lp, s);
    case Scope(_) => ScopeTidy(g, env, t, lp, s);
    case Delete(_) => NotInFragment(g, env, t);
    case IndexAssign(_, _, _) => NotInFragment(g, env, t);
    case Paste(_) => NotInFragment(g, env, t);
    case ForIn(_, _, _) => NotInFragment(g, env, t);
    case _ => SimpleTidy(g, env, t, lp, s);
  }

  lemma NotInFragment(g: Env, env: Env, t: Stmt)
    requires Flow(g, env, t).Some?
    ensures !t.Delete? && !t.IndexAssign? && !t.Paste? && !t.ForIn?
  {
  }

  lemma SimpleTidy(g: Env, env: Env, t: Stmt, lp: Loops, s: Low)
    requires t.Assign? || t.Compound? || t.ExprStmt? || t.Println? || t.Break? || t.Continue?
    requires StmtReady(g, env, t, s)
    ensures Tidy(LowerStmt(t, lp, s).code)
  {
    hide LowerExpr, LowerPrint, StaticExpr, StaticExprs, Tidy, StoreTo, Update, StateOk, TypeOf, AllTyped;
    StateLow(g, s);
    match t
    case Assign(x, e) =>
      var a := LowerExpr(e, s);
      ExprTidy(e, s);
      StoreTidy(x, a.value, a.s);
      TidyAppend(a.code, StoreTo(x, a.value, a.s).code);
    case Compound(x, op, e) =>
      var a := LowerExpr(e, s);
      ExprTidy(e, s);
      ExprGrows(g, e, s);
      UpdateTidy(x, op, a.value, OldValue(x, s), a.s);
      TidyAppend(a.code, Update(x, op, a.value, OldValue(x, s), a.s).code);
    case ExprStmt(e) => ExprTidy(e, s);
    case Println(es) => PrintTidy(g, env, es, s);
    case Break => JumpTidy(t, lp, s);
    case Continue => JumpTidy(t, lp, s);
  }

  lemma JumpTidy(t: Stmt, lp: Loops, s: Low)
    requires t.Break? || t.Continue?
    ensures Tidy(LowerStmt(t, lp, s).code)
  {
  }

  lemma {:induction false} ScopeTidy(g: Env, env: Env, t: Stmt, lp: Loops, s: Low)
    requires t.Scope? && StmtReady(g, env, t, s)
    ensures Tidy(LowerStmt(t, lp, s).code)
    decreases t, 0
  {
    hide LowerBlock, StaticBlock, FlowBlock, StateOk;
    BlockTidy(g, env, t.body, lp, s);
  }

  lemma {:induction false} IfTidy(g: Env, env: Env, t: Stmt, lp: Loops, s: Low)
    requires t.If? && StmtReady(g, env, t, s)
    ensures Tidy(LowerStmt(t, lp, s).code)
    decreases t, 0
  {
    hide LowerCond, LowerBlock, LowerRest, StaticExpr, StaticBlock, StaticRest, Tidy, BranchCode, StateOk,
      FlowBlock, FlowRest, TypeOf, Grows;
    var other, end := s.nextLabel, s.nextLabel + 1;
    var cc := LowerCond(t.cond, other, FreshLabels(s, 2));
    FreshState(g, s, 2);
    StateLow(g, FreshLabels(s, 2));
    CondTidy(t.cond, other, FreshLabels(s, 2));
    CondGrows(g, t.cond, other, s, 2);
    BlockTidy(g, env, t.yes, lp, cc.s);
    BlockState(g, env, t.yes, lp, cc.s);
    var b := LowerBlock(t.yes, lp, cc.s);
    CoversAll(env, s, cc.s);
    CoversAll(env, cc.s, b.s);
    RestTidy(g, env, t.rest, end, lp, b.s);
    var r := LowerRest(t.rest, end, lp, b.s);
    BranchTidy(cc.code, b.code, other, end);
    TidyAppend(BranchCode(cc.code, b.code, other, end), r.code);
    assert Tidy([Label(end)]) by { LabelTidy(end); }
    TidyAppend(BranchCode(cc.code, b.code, other, end) + r.code, [Label(end)]);
  }

  lemma LabelTidy(l: nat)
    ensures Tidy([Label(l)]) && Tidy([Comment])
  {
  }

  lemma CoversAll(env: Env, s: Low, s1: Low)
    requires Covers(env, s) && Grows(s, s1)
    ensures Covers(env, s1)
  {
  }

  lemma {:induction false} RestTidy(g: Env, env: Env, r: Rest, end: nat, lp: Loops, s: Low)
    requires RestReady(g, env, r, s)
    ensures Tidy(LowerRest(r, end, lp, s).code)
    decreases r, 1
  {
    hide LowerCond, LowerBlock, StaticExpr, StaticBlock, Tidy, BranchCode, StateOk, FlowBlock, TypeOf, Grows;
    match r
    case NoElse => NothingTidy();
    case Else(b) => BlockTidy(g, env, b, lp, s);
    case Elif(c, yes, rest) =>
      var other := s.nextLabel;
      var cc := LowerCond(c, other, FreshLabels(s, 1));
      FreshState(g, s, 1);
      StateLow(g, FreshLabels(s, 1));
      CondTidy(c, other, FreshLabels(s, 1));
      CondGrows(g, c, other, s, 1);
      CoversAll(env, s, cc.s);
      BlockTidy(g, env, yes, lp, cc.s);
      BlockState(g, env, yes, lp, cc.s);
      var b := LowerBlock(yes, lp, cc.s);
      CoversAll(env, cc.s, b.s);
      RestTidy(g, env, rest, end, lp, b.s);
      BranchTidy(cc.code, b.code, other, end);
      TidyAppend(BranchCode(cc.code, b.code, other, end), LowerRest(rest, end, lp, b.s).code);
  }

  lemma {:induction false} LoopTidy(g: Env, env: Env, t: Stmt, lp: Loops, s: Low)
    requires (t.While? || t.Loop?) && StmtReady(g, env, t, s)
    ensures Tidy(LowerStmt(t, lp, s).code)
    decreases t, 0
  {
    hide LowerStmt, LowerCond, LowerBlock, StaticExpr, StaticBlock, Tidy, WhileCode, StateOk, FlowBlock, TypeOf, Grows;
    WhileParts(g, env, t, lp, s);
    var cc := LoopCond(t, s);
    FreshState(g, s, 3);
    StateLow(g, FreshLabels(s, 3));
    if t.While? {
      CondTidy(t.cond, s.nextLabel + 1, FreshLabels(s, 3));
    } else {
      NothingTidy();
    }
    BlockTidy(g, env, t.body, InLoop(s.nextLabel, s.nextLabel + 1), cc.s);
    WhileTidy(s.nextLabel + 2, s.nextLabel, s.nextLabel + 1, cc.code,
              LowerBlock(t.body, InLoop(s.nextLabel, s.nextLabel + 1), cc.s).code);
  }

  lemma RangeHeadTidy(q: Range, from: Operand)
    requires OperandBelow(q.step, q.next)
    ensures Tidy(RangeHead(q.r, q.h, from, q.to, q.head, q.end)) && Tidy(TailOf(q))
  {
  }

  lemma StepBelow(g: Env, env: Env, t: Stmt, s: Low)
    requires t.ForRange? && StmtReady(g, env, t, s)
    ensures OperandBelow(RangeOf(t, s).step, RangeOf(t, s).next)
  {
    hide LowerExpr, LowerBlock, LowerStmt, StaticExpr, StaticBlock, FlowBlock, TypeOf, RangeBodyState, RangeOf, Flow, HintsOk;
    RangeTyped(g, env, t, s);
    RangeCode(t, NoLoop, s);
    RangeBodyReady(g, env, t, s);
    BoundsFollow(g, env, t, s);
    BlockState(g, env[t.name := g[t.name]], t.body, InLoop(s.nextLabel, s.nextLabel + 1), RangeBodyState(t, s));
  }

  lemma {:induction false} RangeTidy(g: Env, env: Env, t: Stmt, lp: Loops, s: Low)
    requires t.ForRange? && StmtReady(g, env, t, s)
    ensures Tidy(LowerStmt(t, lp, s).code)
    decreases t, 0
  {
    hide LowerStmt, LowerExpr, LowerBlock, StaticExpr, StaticBlock, Tidy, StateOk, FlowBlock, TypeOf, Grows,
      RangeBodyState, RangeOf, RangeHead, TailOf, Flow, StaticStmt, LowOk, HintOf;
    RangeTyped(g, env, t, s);
    RangeCode(t, lp, s);
    RangeBodyReady(g, env, t, s);
    var q := RangeOf(t, s);
    var s0 := FreshLabels(s, 4);
    FreshState(g, s, 4);
    StateLow(g, s0);
    ExprTidy(t.from, s0);
    ExprGrows(g, t.from, s0);
    var a := LowerExpr(t.from, s0);
    StateLow(g, a.s);
    ExprTidy(t.to, a.s);
    var b := LowerExpr(t.to, a.s);
    ExprGrows(g, t.to, a.s);
    StateLow(g, b.s);
    ExprTidy(StepExpr(t.step), b.s);
    var e := LowerExpr(StepExpr(t.step), b.s);
    var d := LowerBlock(t.body, InLoop(s.nextLabel, s.nextLabel + 1), RangeBodyState(t, s));
    BlockTidy(g, env[t.name := g[t.name]], t.body, InLoop(s.nextLabel, s.nextLabel + 1), RangeBodyState(t, s));
    StepBelow(g, env, t, s);
    RangeHeadTidy(q, a.value);
    var head, tail := RangeHead(q.r, q.h, a.value, q.to, q.head, q.end), TailOf(q);
    TidyAppend(a.code, b.code);
    TidyAppend(a.code + b.code, e.code);
    TidyAppend(a.code + b.code + e.code, head);
    TidyAppend(a.code + b.code + e.code + head, d.code);
    TidyAppend(a.code + b.code + e.code + head + d.code, tail);
  }

  lemma {:induction false} BlockTidy(g: Env, env: Env, b: Block, lp: Loops, s: Low)
    requires BlockReady(g, env, b, s)
    ensures Tidy(LowerBlock(b, lp, s).code)
    decreases b, 1
  {
    hide LowerStmt, StaticStmt, Flow, StateOk, Tidy, Grows;
    match b
    case Nil => NothingTidy();
    case Cons(t, rest) =>
      var a := LowerStmt(t, lp, s);
      StmtTidy(g, env, t, lp, s);
      FlowGrows(g, env, t);
      StmtState(g, env, t, lp, s);
      BlockTidy(g, Flow(g, env, t).value, rest, lp, a.s);
      TidyAppend(a.code, LowerBlock(rest, lp, a.s).code);
  }

  lemma ProgramTidy(g: Env, p: Block)
    requires InFragment(g, p)
    ensures Tidy(LowerProgram(p))
  {
    hide LowerBlock, FlowBlock, StaticBlock, Tidy;
    BlockTidy(g, map[], p, NoLoop, NEW);
    var b := LowerBlock(p, NoLoop, NEW);
    LabelTidy(0);
    assert Tidy([Ret(ImmI64(0))]) by { RetTidy(); }
    TidyAppend([Comment], b.code);
    TidyAppend([Comment] + b.code, [Ret(ImmI64(0))]);
  }

  lemma RetTidy()
    ensures Tidy([Ret(ImmI64(0))])
  {
  }

  // ----- the emitted program -----

  /** The constants that are encoded into instructions fit into thirty-two bits. */
  predicate ImmediateFits(i: Insn) {
    match i
    case Bin(op, _, _, rhs) => rhs.ImmI64? && IsAlu(op) ==> Fits32(rhs.i)
    case Cmp(_, _, _, rhs) => rhs.ImmI64? ==> Fits32(rhs.i)
    case Branch(_, _, rhs, _) => rhs.ImmI64? ==> Fits32(rhs.i)
    case _ => true
  }

  predicate ImmediatesFit(body: seq<Insn>) {
    forall k :: 0 <= k < |body| ==> ImmediateFits(body[k])
  }

  lemma InsnFits(i: Insn, n: nat)
    requires InsnMax(i) < n && ImmediateFits(i) && FreshDst(i) && NoPrintResult(i)
    ensures InsnOk(i, n)
  {
    hide Fits32;
    if i.Call? {
      ArgsBelow(i.args, n);
    }
  }

  function MainFn(body: seq<Insn>, e: Entry): Fn {
    var max := BodyMax(body);
    Fn(AllocOf(Order([], max + 1)), FrameOf([], max), max + 1, e)
  }

  /** The machine code of `main`. */
  function NativeCode(body: seq<Insn>): seq<XInsn> {
    FunctionCode(AllocOf(Order([], BodyMax(body) + 1)), FrameOf([], BodyMax(body)), body)
  }

  ghost predicate NativeStops(code: seq<XInsn>, x: Cpu) {
    exists n :: !RunX(code, XGoing(x), n).XGoing?
  }

  /** The processor is back in the caller with zero in `rax`, everything the caller owns as it was,
      and the output of the program. */
  ghost predicate NativeDone(x: Cpu, out: string, t: XStatus) {
    && t.XReturned? && t.x.out == out && Rax in t.x.regs && t.x.regs[Rax] == 0
    && t.x.rsp == x.rsp + 8 && t.x.rbp == x.rbp
    && (forall i :: 0 <= i < |CALLEE| && CALLEE[i] in x.regs ==> CALLEE[i] in t.x.regs && t.x.regs[CALLEE[i]] == x.regs[CALLEE[i]])
  }

  /** As `NativeDone`, or a fault where the program fails. */
  ghost predicate NativeMatches(x: Cpu, r: ExecResult, t: XStatus) {
    match r
    case Done(_, st, _) => NativeDone(x, st.out, t)
    case Failed(_, out) => t == XFault(out)
    case OutOfFuel(_) => t.XGoing?
  }

  ghost predicate Launch(p: Block, x: Cpu)
    requires StaticBlock(p)
  {
    Called(x, BodyMax(LowerProgram(p)) + 1) && x.pc == 0 && x.out == ""
  }

  lemma BodyFits(g: Env, p: Block, e: Entry)
    requires InFragment(g, p) && ImmediatesFit(LowerProgram(p))
    ensures BodyOk(MainFn(LowerProgram(p), e), LowerProgram(p)) && FnOk(MainFn(LowerProgram(p), e))
  {
    hide LowerProgram, InsnOk, InsnMax, FreshDst, NoPrintResult, ImmediateFits, Distinct;
    var body := LowerProgram(p);
    ProgramTidy(g, p);
    ProgramLabels(p);
    BodyMaxBounds(body);
    forall k | 0 <= k < |body| ensures InsnOk(body[k], BodyMax(body) + 1) {
      InsnFits(body[k], BodyMax(body) + 1);
    }
    SavedOk(BodyMax(body));
  }

  lemma SavedOk(max: nat)
    ensures var fr := FrameOf([], max);
            && (forall r :: r in fr.saved ==> r !in CALLER_SAVED && r in CALLEE)
            && (forall a, b :: 0 <= a < b < |fr.saved| ==> fr.saved[a] != fr.saved[b])
  {
  }

  /** The prologue, and then the body from its first instruction. */
  lemma Launched(g: Env, p: Block, x: Cpu) returns (m: nat, y: Cpu, regs: map<nat, i64>)
    requires InFragment(g, p) && ImmediatesFit(LowerProgram(p)) && Launch(p, x)
    ensures var f := MainFn(LowerProgram(p), EntryOf(x));
            Stands(f, LowerProgram(p), IrConfig(0, regs, ""), y) && ReachesX(NativeCode(LowerProgram(p)), x, m, XGoing(y))
  {
    hide LowerProgram, EffectsOf, RunX, Prologue, Epilogue, CodeUpTo, Inv, Order, AllocOf, FrameOf;
    var body := LowerProgram(p);
    var f := MainFn(body, EntryOf(x));
    var code := NativeCode(body);
    MainRoomy(BodyMax(body), EntryOf(x));
    SavedOk(BodyMax(body));
    var y0 := PrologueRuns(f, x);
    FrameDull(f.fr);
    HasXMiddle([], Prologue(f.fr), code[|Prologue(f.fr)|..]);
    assert code == [] + Prologue(f.fr) + code[|Prologue(f.fr)|..];
    PlainRuns(code, Prologue(f.fr), x);
    m := |Prologue(f.fr)|;
    y := y0.(pc := m);
    regs := InitialRegs(f, y0);
    InvMoved(f, regs, y0, y);
    NoCodeYet(f, body);
  }

  lemma NoCodeYet(f: Fn, body: seq<Insn>)
    ensures CodeUpTo(f.al, f.fr, body, 0) == []
  {
  }

  lemma StoppedOnceX(code: seq<XInsn>, s: XStatus, n: nat, m: nat)
    requires !RunX(code, s, n).XGoing?
    ensures m >= n ==> RunX(code, s, m) == RunX(code, s, n)
    ensures !RunX(code, s, m).XGoing? ==> RunX(code, s, m) == RunX(code, s, n)
  {
    if m >= n {
      RunXAdd(code, s, n, m - n);
      RunXStopped(code, RunX(code, s, n), m - n);
    } else if !RunX(code, s, m).XGoing? {
      RunXAdd(code, s, m, n - m);
      RunXStopped(code, RunX(code, s, m), n - m);
    }
  }

  /** If the program ends, the processor returns with its output; if a division fails, it faults there. */
  lemma NativeEnds(g: Env, p: Block, x: Cpu, fuel: nat) returns (n: nat)
    requires InFragment(g, p) && ImmediatesFit(LowerProgram(p)) && Launch(p, x)
    requires !ExecBlock(Lowered, p, EMPTY, fuel).OutOfFuel?
    ensures NativeMatches(x, ExecBlock(Lowered, p, EMPTY, fuel), RunX(NativeCode(LowerProgram(p)), XGoing(x), n))
  {
    hide LowerProgram, RunX, Run, ExecBlock, InFragment, ImmediatesFit, Launch, BodyOk, FnOk, Stands, NativeCode,
      CodeOf;
    var body := LowerProgram(p);
    var f := MainFn(body, EntryOf(x));
    var k, y, regs := Launched(g, p, x);
    BodyFits(g, p, EntryOf(x));
    var m := LoweredRuns(g, p, fuel, regs);
    var l, t := RunMatched(f, body, IrConfig(0, regs, ""), y, m);
    SameCode(body, EntryOf(x));
    FollowX(NativeCode(body), x, k, y, l, t);
    n := k + l;
    if ExecBlock(Lowered, p, EMPTY, fuel).Done? {
      CalleeRestored(x, t.x);
    }
  }

  lemma SameCode(body: seq<Insn>, e: Entry)
    ensures CodeOf(MainFn(body, e), body) == NativeCode(body)
  {
  }

  lemma CalleeRestored(x: Cpu, y: Cpu)
    requires Restored(EntryOf(x), y.(rsp := y.rsp - 8))
    ensures y.rsp == x.rsp + 8 && y.rbp == x.rbp
    ensures forall i :: 0 <= i < |CALLEE| && CALLEE[i] in x.regs ==> CALLEE[i] in y.regs && y.regs[CALLEE[i]] == x.regs[CALLEE[i]]
  {
  }

  /** If the program does not end, the processor is still going after any number of steps. */
  lemma NativeGoesOn(g: Env, p: Block, x: Cpu, n: nat)
    requires InFragment(g, p) && ImmediatesFit(LowerProgram(p)) && Launch(p, x) && !ProgramStops(Lowered, p)
    ensures RunX(NativeCode(LowerProgram(p)), XGoing(x), n).XGoing?
  {
    hide LowerProgram, RunX, Run, ExecBlock, InFragment, ImmediatesFit, Launch, BodyOk, FnOk, NativeCode, CodeOf,
      Inv, PosOf;
    var body := LowerProgram(p);
    var f := MainFn(body, EntryOf(x));
    var code := NativeCode(body);
    var k, y, regs := Launched(g, p, x);
    BodyFits(g, p, EntryOf(x));
    var b := |body| + 1;
    var far := n * b + |body|;
    LoweringKept(g, p, regs);
    assert Run(body, Going(IrConfig(0, regs, "")), far).Going?;
    var m, t := RunMatched(f, body, IrConfig(0, regs, ""), y, far);
    SameCode(body, EntryOf(x));
    FollowX(code, x, k, y, m, t);
    FarEnough(n, m, b);
    if !RunX(code, XGoing(x), n).XGoing? {
      StoppedOnceX(code, XGoing(x), n, k + m);
    }
  }

  lemma FarEnough(n: nat, m: nat, b: nat)
    requires b > 0 && n * b <= m * b
    ensures n <= m
  {
    if m < n {
      MulLess(m, n, b);
    }
  }

  lemma {:induction false} MulLess(m: nat, n: nat, b: nat)
    requires m < n && b > 0
    ensures m * b < n * b
    decreases n
  {
    assert n * b == (n - 1) * b + b;
    if m < n - 1 {
      MulLess(m, n - 1, b);
    }
  }

  /** The emitted program stops exactly when the source does, with the source's output: it returns, with
      everything restored that the ABI entrusts to it, or faults where a division of the source fails. */
  lemma NativeKept(g: Env, p: Block, x: Cpu)
    requires InFragment(g, p) && ImmediatesFit(LowerProgram(p)) && Launch(p, x)
    ensures NativeStops(NativeCode(LowerProgram(p)), x) <==> ProgramStops(Lowered, p)
    ensures forall n, fuel ::
      !RunX(NativeCode(LowerProgram(p)), XGoing(x), n).XGoing? && !ExecBlock(Lowered, p, EMPTY, fuel).OutOfFuel?
      ==> NativeMatches(x, ExecBlock(Lowered, p, EMPTY, fuel), RunX(NativeCode(LowerProgram(p)), XGoing(x), n))
  {
    hide LowerProgram, RunX, ExecBlock, InFragment, ImmediatesFit, Launch, NativeCode;
    var code := NativeCode(LowerProgram(p));
    forall n, fuel | !RunX(code, XGoing(x), n).XGoing? && !ExecBlock(Lowered, p, EMPTY, fuel).OutOfFuel?
      ensures NativeMatches(x, ExecBlock(Lowered, p, EMPTY, fuel), RunX(code, XGoing(x), n))
    {
      var m := NativeEnds(g, p, x, fuel);
      StoppedOnceX(code, XGoing(x), n, m);
    }
    if NativeStops(code, x) && !ProgramStops(Lowered, p) {
      var n :| !RunX(code, XGoing(x), n).XGoing?;
      NativeGoesOn(g, p, x, n);
      assert false;
    }
    if fuel :| !ExecBlock(Lowered, p, EMPTY, fuel).OutOfFuel? {
      var m := NativeEnds(g, p, x, fuel);
      assert !RunX(code, XGoing(x), m).XGoing?;
    }
  }

  /** If the program is steady, that is what is documented. */
  lemma SteadyNative(g: Env, p: Block, x: Cpu)
    requires InFragment(g, p) && ImmediatesFit(LowerProgram(p)) && Launch(p, x) && SettledProgram(g, p)
    ensures NativeStops(NativeCode(LowerProgram(p)), x) <==> ProgramStops(Documented, p)
    ensures forall n, fuel ::
      !RunX(NativeCode(LowerProgram(p)), XGoing(x), n).XGoing? && !ExecBlock(Documented, p, EMPTY, fuel).OutOfFuel?
      ==> ExecBlock(Documented, p, EMPTY, fuel).Done?
          && NativeDone(x, ExecBlock(Documented, p, EMPTY, fuel).st.out, RunX(NativeCode(LowerProgram(p)), XGoing(x), n))
  {
    hide LowerProgram, RunX, ExecBlock, InFragment, ImmediatesFit, Launch, NativeCode, SettledProgram, NativeDone;
    NativeKept(g, p, x);
    forall fuel: nat ensures var d, l := ExecBlock(Documented, p, EMPTY, fuel), ExecBlock(Lowered, p, EMPTY, fuel);
                             if d.Done? then l.Done? && l.st.out == d.st.out else d.OutOfFuel? && l.OutOfFuel?
    {
      ProgramsSame(g, p, fuel);
    }
    if fuel :| !ExecBlock(Documented, p, EMPTY, fuel).OutOfFuel? {
      assert !ExecBlock(Lowered, p, EMPTY, fuel).OutOfFuel?;
    }
    if fuel :| !ExecBlock(Lowered, p, EMPTY, fuel).OutOfFuel? {
      assert !ExecBlock(Documented, p, EMPTY, fuel).OutOfFuel?;
    }
  }

  /** Both have stopped with the same output. */
  ghost predicate SameEnd(x: Cpu, b: Bytecode.Status, t: XStatus) {
    match b
    case Halted(c) => NativeDone(x, c.out, t)
    case Failed(_, out) => t == XFault(out)
    case Running(_) => false
  }

  /** The stack machine and the processor stop together and print the same. */
  ghost predicate StopTogether(p: Block, x: Cpu)
    requires StaticBlock(p)
  {
    && (BytecodePrograms.MachineStops(p) <==> NativeStops(NativeCode(LowerProgram(p)), x))
    && forall n, m ::
         var b := Bytecode.Run(Layout.ProgramCode(p), Bytecode.Running(BytecodePrograms.START), n);
         var t := RunX(NativeCode(LowerProgram(p)), XGoing(x), m);
         !b.Running? && !t.XGoing? ==> SameEnd(x, b, t)
  }

  /** They do exactly when the readings of the two compilers agree on the program. */
  lemma BytecodeAgreesWithNative(g: Env, p: Block, x: Cpu)
    requires InFragment(g, p) && ImmediatesFit(LowerProgram(p)) && Launch(p, x)
    ensures StopTogether(p, x) <==> Agreement.ReadingsAgree(p)
  {
    hide LowerProgram, RunX, ExecBlock, Bytecode.Run, Layout.ProgramCode, ImmediatesFit, Launch, NativeCode;
    BytecodePrograms.ProgramKept(p);
    NativeKept(g, p, x);
    if Agreement.ReadingsAgree(p) {
      forall n, m ensures
        var b := Bytecode.Run(Layout.ProgramCode(p), Bytecode.Running(BytecodePrograms.START), n);
        var t := RunX(NativeCode(LowerProgram(p)), XGoing(x), m);
        !b.Running? && !t.XGoing? ==> SameEnd(x, b, t)
      {
        if !Bytecode.Run(Layout.ProgramCode(p), Bytecode.Running(BytecodePrograms.START), n).Running?
           && !RunX(NativeCode(LowerProgram(p)), XGoing(x), m).XGoing? {
          var j, k := Agreement.BothStop(p);
          assert BytecodePrograms.Matches(Compiled, ExecBlock(Compiled, p, EMPTY, j),
                                          Bytecode.Run(Layout.ProgramCode(p), Bytecode.Running(BytecodePrograms.START), n));
        }
      }
    }
    if StopTogether(p, x) {
      forall j, k | !ExecBlock(Compiled, p, EMPTY, j).OutOfFuel? && !ExecBlock(Lowered, p, EMPTY, k).OutOfFuel?
        ensures Agreement.SamePrint(ExecBlock(Compiled, p, EMPTY, j), ExecBlock(Lowered, p, EMPTY, k))
      {
        var n :| !Bytecode.Run(Layout.ProgramCode(p), Bytecode.Running(BytecodePrograms.START), n).Running?;
        var m :| !RunX(NativeCode(LowerProgram(p)), XGoing(x), m).XGoing?;
        assert BytecodePrograms.Matches(Compiled, ExecBlock(Compiled, p, EMPTY, j),
                                        Bytecode.Run(Layout.ProgramCode(p), Bytecode.Running(BytecodePrograms.START), n));
      }
    }
  }
}
