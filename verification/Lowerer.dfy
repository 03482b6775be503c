/** The lowering as the compiler runs it: instructions are pushed to a buffer while the counters,
    the variable table and the loop stack are updated. It computes what `Lowering` defines. */
module Lowerer {
  import opened Values
  import opened Ast
  import opened Words
  import opened StaticIr
  import opened Lowering
  import opened LoweringExprs

  class Lowerer {
    var body: seq<Insn>
    var regCounter: nat
    var labelCounter: nat
    var locals: map<string, Local>
    var loopStack: seq<Loops>

    constructor ()
      ensures body == [] && State() == NEW && loopStack == []
    {
      body, regCounter, labelCounter, locals, loopStack := [], 0, 0, map[], [];
    }

    function State(): Low
      reads this
    {
      Low(regCounter, labelCounter, locals)
    }

    function Innermost(): Loops
      reads this
    {
      if loopStack == [] then NoLoop else loopStack[|loopStack| - 1]
    }

    /** The buffer has grown by `r`'s code, the state is `r`'s, and the loops are as before. */
    twostate predicate Did(r: LowCode)
      reads this
    {
      body == old(body) + r.code && State() == r.s && loopStack == old(loopStack)
    }

    method FreshRegister() returns (r: nat)
      modifies this`regCounter
      ensures r == old(regCounter) && State() == FreshReg(old(State()))
    {
      r := regCounter;
      regCounter := regCounter + 1;
    }

    method FreshLabel() returns (l: nat)
      modifies this`labelCounter
      ensures l == old(labelCounter) && State() == FreshLabels(old(State()), 1)
    {
      l := labelCounter;
      labelCounter := labelCounter + 1;
    }

    method Emit(i: Insn)
      modifies this`body
      ensures body == old(body) + [i]
    {
      body := body + [i];
    }

    // ----- expressions -----

    method LowerExpression(e: Expr) returns (v: Operand)
      requires StaticExpr(e)
      modifies this`body, this`regCounter, this`labelCounter
      ensures var r := LowerExpr(e, old(State())); v == r.value && body == old(body) + r.code && State() == r.s
      decreases e, 2
    {
      hide LowerExpr, LowerCond, Combine, Logic, Negated, Inverted, ChoiceCode, StaticExpr;
      match e
      case IntLit(i) =>
        v := ImmI64(i);
        Leaf(e, State());
      case BoolLit(b) =>
        v := ImmBool(b);
        Leaf(e, State());
      case Var(x) =>
        Leaf(e, State());
        v := LoadVariable(x);
      case Binary(_, _, _) => v := LowerPair(e);
      case And(_, _) => v := LowerPair(e);
      case Or(_, _) => v := LowerPair(e);
      case Unary(_, _) => v := LowerUnary(e);
      case Ternary(_, _, _) => v := LowerTernary(e);
      case _ =>
        NotStatic(e);
        v := NullImm;
    }

    method LoadVariable(x: string) returns (v: Operand)
      modifies this`body, this`regCounter
      ensures var r := LowerVar(x, old(State())); v == r.value && body == old(body) + r.code && State() == r.s
    {
      if x in locals {
        v := Reg(locals[x].reg, locals[x].hint);
      } else {
        var dst := FreshRegister();
        Emit(Call(Some(dst), LoadGlobalValue(x), []));
        v := Reg(dst, Dynamic);
      }
    }

    method LowerPair(e: Expr) returns (v: Operand)
      requires (e.Binary? || e.And? || e.Or?) && StaticExpr(e)
      modifies this`body, this`regCounter, this`labelCounter
      ensures var r := LowerExpr(e, old(State())); v == r.value && body == old(body) + r.code && State() == r.s
      decreases e, 1
    {
      hide LowerExpr, Combine, Logic, StaticExpr;
      PairCode(e, State());
      ghost var o := body;
      var x := LowerExpression(e.left);
      var y := LowerExpression(e.right);
      ghost var s, at := State(), body;
      if e.Binary? {
        v := EmitOperator(e.op, x, y);
        assert body == at + Combine(e.op, x, y, s).code;
      } else {
        v := EmitLogic(e.And?, x, y);
        assert body == at + Logic(e.And?, x, y, s).code;
      }
    }

    /** Literal operands are folded; otherwise a static or a dynamic instruction is emitted. */
    method EmitOperator(op: BinOp, x: Operand, y: Operand) returns (v: Operand)
      modifies this`body, this`regCounter
      ensures var r := Combine(op, x, y, old(State())); v == r.value && body == old(body) + r.code && State() == r.s
    {
      if x.ImmI64? && y.ImmI64? {
        var folded := Fold(op, x.i, y.i);
        if folded.Some? {
          return ImmI64(folded.value);
        }
      }
      var same := SameStatic(x, y);
      var dst := FreshRegister();
      if IsComparison(op) {
        if same {
          Emit(Cmp(dst, CondOf(op), x, y));
          v := Reg(dst, Boolean);
        } else {
          Emit(Call(Some(dst), ValueCmp(CondOf(op)), [x, y]));
          v := Reg(dst, Dynamic);
        }
      } else if same {
        Emit(Bin(ArithOf(op), dst, x, y));
        v := Reg(dst, HintOf(x));
      } else {
        Emit(DynBin(ArithOf(op), dst, x, y));
        v := Reg(dst, Dynamic);
      }
    }

    method EmitLogic(isAnd: bool, x: Operand, y: Operand) returns (v: Operand)
      modifies this`body, this`regCounter, this`labelCounter
      ensures var r := Logic(isAnd, x, y, old(State())); v == r.value && body == old(body) + r.code && State() == r.s
    {
      hide Arith;
      if x.ImmI64? && y.ImmI64? {
        return ImmI64(Arith(if isAnd then OpAnd else OpOr, x.i, y.i));
      }
      var end := FreshLabel();
      var other := FreshLabel();
      Emit(Branch(if isAnd then CondEq else CondNe, x, ImmBool(false), other));
      var dst := FreshRegister();
      Emit(Mov(dst, y));
      Emit(Jump(end));
      Emit(Label(other));
      Emit(Mov(dst, ImmBool(!isAnd)));
      Emit(Label(end));
      v := Reg(dst, Boolean);
    }

    method LowerUnary(e: Expr) returns (v: Operand)
      requires e.Unary? && StaticExpr(e)
      modifies this`body, this`regCounter, this`labelCounter
      ensures var r := LowerExpr(e, old(State())); v == r.value && body == old(body) + r.code && State() == r.s
      decreases e, 1
    {
      hide LowerExpr, StaticExpr;
      StaticOperand(e);
      UnaryCode(e.uop, e.operand, State());
      var x := LowerExpression(e.operand);
      var h := HintOf(x);
      var dst := FreshRegister();
      if e.uop == UnOp.Neg {
        Emit(if IsDynamic(h) then DynBin(OpSub, dst, ImmI64(0), x) else Bin(OpSub, dst, ImmI64(0), x));
        v := Reg(dst, h);
      } else {
        Emit(if IsStatic(h) then Insn.Not(dst, x) else Call(Some(dst), ValueNot, [x]));
        v := Reg(dst, Boolean);
      }
    }

    method LowerTernary(e: Expr) returns (v: Operand)
      requires e.Ternary? && StaticExpr(e)
      modifies this`body, this`regCounter, this`labelCounter
      ensures var r := LowerExpr(e, old(State())); v == r.value && body == old(body) + r.code && State() == r.s
      decreases e, 1
    {
      hide LowerExpr, LowerCond, StaticExpr, ChoiceCode;
      ghost var o, s := body, State();
      ChoiceParts(e, s);
      var other := FreshLabel();
      var end := FreshLabel();
      LowerCondition(e.cond, other);
      var x := LowerExpression(e.yes);
      var dst := FreshRegister();
      Emit(Mov(dst, x));
      Emit(Jump(end));
      Emit(Label(other));
      var y := LowerExpression(e.no);
      Emit(Mov(dst, y));
      Emit(Label(end));
      v := Reg(dst, Mixed);
      ghost var cc := LowerCond(e.cond, other, FreshLabels(s, 2));
      ghost var a := LowerExpr(e.yes, cc.s);
      ghost var b := LowerExpr(e.no, FreshReg(a.s));
      ChoiceAssembled(o, cc.code, a.code, x, b.code, y, dst, other, end);
    }

    /** Emits a branch to `target` for when the condition is false. */
    method LowerCondition(e: Expr, target: nat)
      requires StaticExpr(e)
      modifies this`body, this`regCounter, this`labelCounter
      ensures var r := LowerCond(e, target, old(State())); body == old(body) + r.code && State() == r.s
      decreases e, 3
    {
      hide LowerExpr, StaticExpr;
      if e.Binary? && IsComparison(e.op) {
        Operands(e);
        var x := LowerExpression(e.left);
        var y := LowerExpression(e.right);
        Emit(Branch(Negate(CondOf(e.op)), x, y, target));
      } else {
        var x := LowerExpression(e);
        Emit(Branch(CondEq, x, ImmBool(false), target));
      }
    }

    // ----- variables -----

    method DeclareLocal(x: string, h: Hint)
      modifies this`regCounter, this`locals
      ensures State() == Declare(x, h, old(State())) && x in locals
    {
      if x in locals {
        locals := locals[x := Local(locals[x].reg, h)];
      } else {
        var r := FreshRegister();
        locals := locals[x := Local(r, h)];
      }
    }

    method StoreVariable(x: string, v: Operand)
      modifies this`body, this`regCounter, this`locals
      ensures var r := StoreTo(x, v, old(State())); body == old(body) + r.code && State() == r.s
    {
      var h := HintOf(v);
      if x !in locals {
        DeclareLocal(x, h);
      }
      var Local(r, rh) := locals[x];
      if rh != h && IsStatic(h) && IsDynamic(rh) {
        Emit(Box(r, v, h));
      } else if rh != h && IsDynamic(h) && IsStatic(rh) {
        Emit(Unbox(r, v, rh));
      } else {
        Emit(Mov(r, v));
      }
    }

    method UpdateVariable(x: string, op: BinOp, v: Operand, old': Operand)
      modifies this`body, this`regCounter, this`locals
      ensures var r := Update(x, op, v, old', old(State())); body == old(body) + r.code && State() == r.s
    {
      var h := if IsStatic(HintOf(old')) && IsStatic(HintOf(v)) then HintOf(old') else Dynamic;
      var dst := FreshRegister();
      Emit(if IsStatic(h) then Bin(ArithOf(op), dst, old', v) else DynBin(ArithOf(op), dst, old', v));
      DeclareLocal(x, h);
      Emit(Mov(locals[x].reg, Reg(dst, h)));
    }

    // ----- statements -----

    method LowerStatement(t: Stmt)
      requires StaticStmt(t)
      modifies this
      ensures Did(LowerStmt(t, old(Innermost()), old(State())))
      decreases t, 1
    {
      hide LowerStmt, StaticBlock, StaticRest, StaticExpr, StaticExprs;
      match t
      case Assign(_, _) => LowerSimple(t);
      case Compound(_, _, _) => LowerSimple(t);
      case ExprStmt(_) => LowerSimple(t);
      case Println(_) => LowerSimple(t);
      case If(_, _, _) => LowerIf(t);
      case While(_, _) => LowerWhile(t);
      case Loop(_) => LowerWhile(t);
      case ForRange(_, _, _, _, _) => LowerForRange(t);
      case Break => LowerSimple(t);
      case Continue => LowerSimple(t);
      case Scope(_) => LowerSimple(t);
    }

    method LowerSimple(t: Stmt)
      requires StaticStmt(t) && !t.If? && !t.While? && !t.Loop? && !t.ForRange?
      modifies this
      ensures Did(LowerStmt(t, old(Innermost()), old(State())))
      decreases t, 0
    {
      hide StaticBlock, StaticRest, StaticExpr, StaticExprs, LowerExpr, LowerBlock, LowerPrint, StoreTo, Update;
      match t
      case Assign(x, e) =>
        var v := LowerExpression(e);
        StoreVariable(x, v);
      case Compound(x, op, e) =>
        var old' := if x in locals then Reg(locals[x].reg, locals[x].hint) else NullImm;
        var v := LowerExpression(e);
        UpdateVariable(x, op, v, old');
      case ExprStmt(e) =>
        var _ := LowerExpression(e);
      case Println(es) =>
        if es.Nil? {
          Emit(Call(None, PrintlnValue, []));
        } else {
          LowerPrintln(es);
        }
      case Break =>
        if loopStack != [] {
          var lp := loopStack[|loopStack| - 1];
          if lp.InLoop? {
            Emit(Jump(lp.brk));
          }
        }
      case Continue =>
        if loopStack != [] {
          var lp := loopStack[|loopStack| - 1];
          if lp.InLoop? {
            Emit(Jump(lp.cont));
          }
        }
      case Scope(b) =>
        Emit(Comment);
        LowerStatements(b);
    }

    method LowerPrintln(es: Vec<Expr>)
      requires StaticExprs(es)
      modifies this`body, this`regCounter, this`labelCounter
      ensures var r := LowerPrint(es, old(State())); body == old(body) + r.code && State() == r.s
      decreases es
    {
      hide StaticExpr, LowerExpr;
      if es.Cons? {
        var v := LowerExpression(es.head);
        Emit(Call(None, if es.tail.Nil? then PrintlnValue else PrintValue, [v]));
        LowerPrintln(es.tail);
      }
    }

    method LowerStatements(b: Block)
      requires StaticBlock(b)
      modifies this
      ensures Did(LowerBlock(b, old(Innermost()), old(State())))
      decreases b, 1
    {
      hide StaticStmt, LowerStmt;
      if b.Cons? {
        LowerStatement(b.head);
        LowerStatements(b.tail);
      }
    }

    method LowerIf(t: Stmt)
      requires t.If? && StaticStmt(t)
      modifies this
      ensures Did(LowerStmt(t, old(Innermost()), old(State())))
      decreases t, 0
    {
      hide StaticBlock, StaticRest, StaticExpr, LowerCond, LowerBlock, LowerRest, BranchCode;
      ghost var o, s, lp := body, State(), Innermost();
      var other := FreshLabel();
      var end := FreshLabel();
      LowerCondition(t.cond, other);
      LowerStatements(t.yes);
      Emit(Jump(end));
      Emit(Label(other));
      ghost var cc := LowerCond(t.cond, other, FreshLabels(s, 2));
      ghost var b := LowerBlock(t.yes, lp, cc.s);
      BranchAssembled(o, cc.code, b.code, other, end);
      LowerBranches(t.rest, end);
      Emit(Label(end));
    }

    method LowerBranches(r: Rest, end: nat)
      requires StaticRest(r)
      modifies this
      ensures Did(LowerRest(r, end, old(Innermost()), old(State())))
      decreases r, 1
    {
      hide StaticBlock, StaticExpr, LowerCond, LowerBlock, BranchCode;
      match r
      case NoElse =>
      case Else(b) => LowerStatements(b);
      case Elif(c, yes, rest) =>
        ghost var o, s, lp := body, State(), Innermost();
        var other := FreshLabel();
        LowerCondition(c, other);
        LowerStatements(yes);
        Emit(Jump(end));
        Emit(Label(other));
        ghost var cc := LowerCond(c, other, FreshLabels(s, 1));
        ghost var b := LowerBlock(yes, lp, cc.s);
        BranchAssembled(o, cc.code, b.code, other, end);
        LowerBranches(rest, end);
    }

    method LowerWhile(t: Stmt)
      requires (t.While? || t.Loop?) && StaticStmt(t)
      modifies this
      ensures Did(LowerStmt(t, old(Innermost()), old(State())))
      decreases t, 0
    {
      hide StaticBlock, StaticExpr, LowerCond, LowerBlock, WhileCode;
      ghost var o, s := body, State();
      var cont := FreshLabel();
      var brk := FreshLabel();
      var head := FreshLabel();
      Emit(Label(head));
      ghost var cc := if t.While? then LowerCond(t.cond, brk, FreshLabels(s, 3)) else LowCode([], FreshLabels(s, 3));
      if t.While? {
        LowerCondition(t.cond, brk);
      }
      assert body == o + [Label(head)] + cc.code && State() == cc.s;
      LowerLoopBody(t.body, InLoop(cont, brk));
      ghost var b := LowerBlock(t.body, InLoop(cont, brk), cc.s);
      Emit(Label(cont));
      Emit(Jump(head));
      Emit(Label(brk));
      WhileAssembled(o, cc.code, b.code, head, cont, brk);
    }

    method LowerLoopBody(b: Block, lp: Loops)
      requires StaticBlock(b) && lp.InLoop?
      modifies this
      ensures Did(LowerBlock(b, lp, old(State())))
      decreases b, 2
    {
      hide LowerBlock, StaticBlock;
      loopStack := loopStack + [lp];
      LowerStatements(b);
      loopStack := loopStack[..|loopStack| - 1];
    }

    method LowerForRange(t: Stmt)
      requires t.ForRange? && StaticStmt(t)
      modifies this
      ensures Did(LowerStmt(t, old(Innermost()), old(State())))
      decreases t, 0
    {
      hide StaticBlock, StaticExpr, LowerExpr, LowerBlock, RangeHead, RangeTail, LowerStmt, StepOperand, Declare;
      ghost var o, s := body, State();
      RangeUnfold(t, Innermost(), s);
      var cont := FreshLabel();
      var brk := FreshLabel();
      var head := FreshLabel();
      var end := FreshLabel();
      var from, to, step := LowerBounds(t);
      ghost var abc := body[|o|..];
      assert body == o + abc;
      var h := if HintOf(from).I64? && HintOf(to).I64? then I64 else Dynamic;
      DeclareLocal(t.name, h);
      var r := locals[t.name].reg;
      EmitRangeHead(r, h, from, to, head, end);
      ghost var s1 := State();
      LowerLoopBody(t.body, InLoop(cont, brk));
      ghost var d := LowerBlock(t.body, InLoop(cont, brk), s1);
      ghost var tail := RangeTail(r, h, regCounter, step, head, cont, end, brk);
      EmitRangeTail(r, h, step, head, cont, end, brk);
      Regroup(o, abc, RangeHead(r, h, from, to, head, end), d.code, tail);
    }

    method LowerBounds(t: Stmt) returns (from: Operand, to: Operand, step: Operand)
      requires t.ForRange? && StaticExpr(t.from) && StaticExpr(t.to) && (t.step.Some? ==> StaticExpr(t.step.value))
      modifies this`body, this`regCounter, this`labelCounter
      ensures var a := LowerExpr(t.from, old(State()));
              var b := LowerExpr(t.to, a.s);
              var c := StepOperand(t.step, b.s);
              && from == a.value && to == b.value && step == c.value
              && body == old(body) + (a.code + b.code + c.code) && State() == c.s
    {
      hide StaticExpr, LowerExpr;
      from := LowerExpression(t.from);
      to := LowerExpression(t.to);
      step := ImmI64(1);
      if t.step.Some? {
        step := LowerExpression(t.step.value);
      }
    }

    method EmitRangeHead(r: nat, h: Hint, from: Operand, to: Operand, head: nat, end: nat)
      modifies this`body
      ensures body == old(body) + RangeHead(r, h, from, to, head, end)
    {
      Emit(Mov(r, from));
      Emit(Label(head));
      Emit(Branch(CondGe, Reg(r, h), to, end));
    }

    method EmitRangeTail(r: nat, h: Hint, step: Operand, head: nat, cont: nat, end: nat, brk: nat)
      modifies this`body, this`regCounter
      ensures body == old(body) + RangeTail(r, h, old(regCounter), step, head, cont, end, brk)
      ensures State() == FreshReg(old(State()))
    {
      Emit(Label(cont));
      var next := FreshRegister();
      Emit(if IsStatic(h) then Bin(OpAdd, next, Reg(r, h), step) else DynBin(OpAdd, next, Reg(r, h), step));
      Emit(Mov(r, Reg(next, h)));
      Emit(Jump(head));
      Emit(Label(end));
      Emit(Label(brk));
    }
  }

  /** The body of `main`. */
  method LowerMain(p: Block) returns (body: seq<Insn>)
    requires StaticBlock(p)
    ensures body == LowerProgram(p)
  {
    hide LowerBlock, StaticBlock;
    var lowerer := new Lowerer();
    lowerer.Emit(Comment);
    lowerer.LowerStatements(p);
    lowerer.Emit(Ret(ImmI64(0)));
    body := lowerer.body;
  }

  // ----- one level of the definitions -----

  lemma ChoiceAssembled(o: seq<Insn>, c: seq<Insn>, a: seq<Insn>, x: Operand, b: seq<Insn>, y: Operand, dst: nat,
        other: nat, end: nat)
    ensures o + c + a + [Mov(dst, x)] + [Jump(end)] + [Label(other)] + b + [Mov(dst, y)] + [Label(end)]
         == o + ChoiceCode(c, a, x, b, y, dst, other, end)
  {
  }

  lemma BranchAssembled(o: seq<Insn>, c: seq<Insn>, b: seq<Insn>, other: nat, end: nat)
    ensures o + c + b + [Jump(end)] + [Label(other)] == o + BranchCode(c, b, other, end)
  {
  }

  lemma WhileAssembled(o: seq<Insn>, c: seq<Insn>, b: seq<Insn>, head: nat, cont: nat, brk: nat)
    ensures o + [Label(head)] + c + b + [Label(cont)] + [Jump(head)] + [Label(brk)] == o + WhileCode(head, cont, brk, c, b)
  {
  }

  lemma Regroup(o: seq<Insn>, a: seq<Insn>, b: seq<Insn>, c: seq<Insn>, d: seq<Insn>)
    ensures o + a + b + c + d == o + (a + b + c + d)
  {
  }

  lemma RangeUnfold(t: Stmt, lp: Loops, s: Low)
    requires t.ForRange? && StaticStmt(t)
    ensures StaticExpr(t.from) && StaticExpr(t.to) && (t.step.Some? ==> StaticExpr(t.step.value)) && StaticBlock(t.body)
    ensures var cont, brk, head, end := s.nextLabel, s.nextLabel + 1, s.nextLabel + 2, s.nextLabel + 3;
            var a := LowerExpr(t.from, FreshLabels(s, 4));
            var b := LowerExpr(t.to, a.s);
            var c := StepOperand(t.step, b.s);
            var h := if HintOf(a.value).I64? && HintOf(b.value).I64? then I64 else Dynamic;
            var s1 := Declare(t.name, h, c.s);
            && t.name in s1.locals
            && var r := s1.locals[t.name].reg;
               var d := LowerBlock(t.body, InLoop(cont, brk), s1);
               LowerStmt(t, lp, s)
               == LowCode(a.code + b.code + c.code + RangeHead(r, h, a.value, b.value, head, end) + d.code
                          + RangeTail(r, h, d.s.nextReg, c.value, head, cont, end, brk), FreshReg(d.s))
  {
    hide StaticBlock, StaticExpr, LowerExpr, LowerBlock, RangeHead, RangeTail, StepOperand;
  }

  lemma Leaf(e: Expr, s: Low)
    requires e.IntLit? || e.BoolLit? || e.Var?
    ensures e.IntLit? ==> LowerExpr(e, s) == LowExpr([], ImmI64(e.i), s)
    ensures e.BoolLit? ==> LowerExpr(e, s) == LowExpr([], ImmBool(e.b), s)
    ensures e.Var? ==> LowerExpr(e, s) == LowerVar(e.name, s)
  {
  }

  lemma NotStatic(e: Expr)
    requires StaticExpr(e)
    ensures e.IntLit? || e.BoolLit? || e.Var? || e.Binary? || e.And? || e.Or? || e.Unary? || e.Ternary?
  {
  }

  lemma Operands(e: Expr)
    requires e.Binary? && StaticExpr(e)
    ensures StaticExpr(e.left) && StaticExpr(e.right)
  {
  }
}
