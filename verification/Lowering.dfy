/** From the abstract syntax to the register machine, as functions of the compiler's state:
    the next free register and label, and the registers of the variables. */
module Lowering {
  import opened Values
  import opened Ast
  import opened Words
  import opened StaticIr

  datatype Local = Local(reg: nat, hint: Hint)

  datatype Low = Low(nextReg: nat, nextLabel: nat, locals: map<string, Local>)

  /** Code, the operand that holds the value afterwards, and the state after it. */
  datatype LowExpr = LowExpr(code: seq<Insn>, value: Operand, s: Low)

  datatype LowCode = LowCode(code: seq<Insn>, s: Low)

  /** The labels of the innermost loop. */
  datatype Loops = NoLoop | InLoop(cont: nat, brk: nat)

  /** The expressions that are lowered without calls into container or string code. */
  predicate StaticExpr(e: Expr) {
    match e
    case IntLit(_) => true
    case BoolLit(_) => true
    case Var(_) => true
    case Binary(_, l, r) => StaticExpr(l) && StaticExpr(r)
    case And(l, r) => StaticExpr(l) && StaticExpr(r)
    case Or(l, r) => StaticExpr(l) && StaticExpr(r)
    case Unary(_, x) => StaticExpr(x)
    case Ternary(c, a, b) => StaticExpr(c) && StaticExpr(a) && StaticExpr(b)
    case _ => false
  }

  predicate StaticExprs(es: Vec<Expr>) {
    match es
    case Nil => true
    case Cons(e, rest) => StaticExpr(e) && StaticExprs(rest)
  }

  predicate StaticStmt(s: Stmt) {
    match s
    case Assign(_, e) => StaticExpr(e)
    case Compound(_, _, e) => StaticExpr(e)
    case ExprStmt(e) => StaticExpr(e)
    case Println(es) => StaticExprs(es)
    case If(c, yes, rest) => StaticExpr(c) && StaticBlock(yes) && StaticRest(rest)
    case While(c, body) => StaticExpr(c) && StaticBlock(body)
    case Loop(body) => StaticBlock(body)
    case ForRange(_, a, b, step, body) =>
      StaticExpr(a) && StaticExpr(b) && (step.Some? ==> StaticExpr(step.value)) && StaticBlock(body)
    case Break => true
    case Continue => true
    case Scope(body) => StaticBlock(body)
    case _ => false
  }

  predicate StaticBlock(b: Block) {
    match b
    case Nil => true
    case Cons(s, rest) => StaticStmt(s) && StaticBlock(rest)
  }

  predicate StaticRest(r: Rest) {
    match r
    case NoElse => true
    case Else(body) => StaticBlock(body)
    case Elif(c, body, rest) => StaticExpr(c) && StaticBlock(body) && StaticRest(rest)
  }

  // ----- operators -----

  predicate IsDynamic(h: Hint) {
    h.Dynamic? || h.Mixed?
  }

  function Negate(c: Cond): Cond {
    match c
    case CondEq => CondNe
    case CondNe => CondEq
    case CondLt => CondGe
    case CondLe => CondGt
    case CondGt => CondLe
    case CondGe => CondLt
  }

  // ----- expressions -----

  function FreshReg(s: Low): Low {
    s.(nextReg := s.nextReg + 1)
  }

  function FreshLabels(s: Low, n: nat): Low {
    s.(nextLabel := s.nextLabel + n)
  }

  predicate SameStatic(x: Operand, y: Operand) {
    IsStatic(HintOf(x)) && IsStatic(HintOf(y)) && HintOf(x) == HintOf(y)
  }

  /** A comparison or an arithmetic operation on two operands. */
  function Combine(op: BinOp, x: Operand, y: Operand, s: Low): LowExpr {
    if x.ImmI64? && y.ImmI64? && Fold(op, x.i, y.i).Some? then LowExpr([], ImmI64(Fold(op, x.i, y.i).value), s)
    else
      var dst, s1 := s.nextReg, FreshReg(s);
      if IsComparison(op) then
        if SameStatic(x, y) then LowExpr([Cmp(dst, CondOf(op), x, y)], Reg(dst, Boolean), s1)
        else LowExpr([Call(Some(dst), ValueCmp(CondOf(op)), [x, y])], Reg(dst, Dynamic), s1)
      else if SameStatic(x, y) then LowExpr([Bin(ArithOf(op), dst, x, y)], Reg(dst, HintOf(x)), s1)
      else LowExpr([DynBin(ArithOf(op), dst, x, y)], Reg(dst, Dynamic), s1)
  }

  /** `and` and `or`: both operands are already evaluated. */
  function Logic(isAnd: bool, x: Operand, y: Operand, s: Low): LowExpr {
    if x.ImmI64? && y.ImmI64? then LowExpr([], ImmI64(Arith(if isAnd then OpAnd else OpOr, x.i, y.i)), s)
    else
      var end, other, dst := s.nextLabel, s.nextLabel + 1, s.nextReg;
      LowExpr(
        [Branch(if isAnd then CondEq else CondNe, x, ImmBool(false), other), Mov(dst, y), Jump(end),
         Label(other), Mov(dst, ImmBool(!isAnd)), Label(end)],
        Reg(dst, Boolean), FreshReg(FreshLabels(s, 2)))
  }

  function Negated(x: Operand, s: Low): LowExpr {
    var dst, h := s.nextReg, HintOf(x);
    LowExpr([if IsDynamic(h) then DynBin(OpSub, dst, ImmI64(0), x) else Bin(OpSub, dst, ImmI64(0), x)],
            Reg(dst, h), FreshReg(s))
  }

  function Inverted(x: Operand, s: Low): LowExpr {
    var dst := s.nextReg;
    LowExpr([if IsStatic(HintOf(x)) then Insn.Not(dst, x) else Call(Some(dst), ValueNot, [x])], Reg(dst, Boolean), FreshReg(s))
  }

  function LowerVar(x: string, s: Low): LowExpr {
    if x in s.locals then LowExpr([], Reg(s.locals[x].reg, s.locals[x].hint), s)
    else LowExpr([Call(Some(s.nextReg), LoadGlobalValue(x), [])], Reg(s.nextReg, Dynamic), FreshReg(s))
  }

  /** Both branches leave their value in `dst`. */
  function ChoiceCode(c: seq<Insn>, a: seq<Insn>, x: Operand, b: seq<Insn>, y: Operand, dst: nat, other: nat,
        end: nat): seq<Insn> {
    c + a + [Mov(dst, x), Jump(end), Label(other)] + b + [Mov(dst, y), Label(end)]
  }

  function LowerExpr(e: Expr, s: Low): LowExpr
    requires StaticExpr(e)
    decreases e, 0
  {
    match e
    case IntLit(i) => LowExpr([], ImmI64(i), s)
    case BoolLit(b) => LowExpr([], ImmBool(b), s)
    case Var(x) => LowerVar(x, s)
    case Binary(op, l, r) =>
      var a := LowerExpr(l, s);
      var b := LowerExpr(r, a.s);
      var c := Combine(op, a.value, b.value, b.s);
      LowExpr(a.code + b.code + c.code, c.value, c.s)
    case And(l, r) =>
      var a := LowerExpr(l, s);
      var b := LowerExpr(r, a.s);
      var c := Logic(true, a.value, b.value, b.s);
      LowExpr(a.code + b.code + c.code, c.value, c.s)
    case Or(l, r) =>
      var a := LowerExpr(l, s);
      var b := LowerExpr(r, a.s);
      var c := Logic(false, a.value, b.value, b.s);
      LowExpr(a.code + b.code + c.code, c.value, c.s)
    case Unary(op, x) =>
      var a := LowerExpr(x, s);
      var c := if op == UnOp.Neg then Negated(a.value, a.s) else Inverted(a.value, a.s);
      LowExpr(a.code + c.code, c.value, c.s)
    case Ternary(c, yes, no) =>
      var other, end := s.nextLabel, s.nextLabel + 1;
      var cc := LowerCond(c, other, FreshLabels(s, 2));
      var a := LowerExpr(yes, cc.s);
      var dst := a.s.nextReg;
      var b := LowerExpr(no, FreshReg(a.s));
      LowExpr(ChoiceCode(cc.code, a.code, a.value, b.code, b.value, dst, other, end), Reg(dst, Mixed), b.s)
  }

  /** Jumps to `target` when the condition is false. */
  function LowerCond(e: Expr, target: nat, s: Low): LowCode
    requires StaticExpr(e)
    decreases e, 1
  {
    if e.Binary? && IsComparison(e.op) then
      var a := LowerExpr(e.left, s);
      var b := LowerExpr(e.right, a.s);
      LowCode(a.code + b.code + [Branch(Negate(CondOf(e.op)), a.value, b.value, target)], b.s)
    else
      var a := LowerExpr(e, s);
      LowCode(a.code + [Branch(CondEq, a.value, ImmBool(false), target)], a.s)
  }

  // ----- variables -----

  function Declare(x: string, h: Hint, s: Low): Low {
    if x in s.locals then s.(locals := s.locals[x := Local(s.locals[x].reg, h)])
    else FreshReg(s).(locals := s.locals[x := Local(s.nextReg, h)])
  }

  /** Store an operand into a variable, boxing or unboxing where the kinds differ. */
  function StoreTo(x: string, v: Operand, s: Low): LowCode {
    var h := HintOf(v);
    var s1 := if x in s.locals then s else Declare(x, h, s);
    var Local(r, rh) := s1.locals[x];
    LowCode([if IsStatic(h) && IsDynamic(rh) then Box(r, v, h)
             else if IsDynamic(h) && IsStatic(rh) then Unbox(r, v, rh)
             else Mov(r, v)], s1)
  }

  function Update(x: string, op: BinOp, v: Operand, old': Operand, s: Low): LowCode {
    var h := if IsStatic(HintOf(old')) && IsStatic(HintOf(v)) then HintOf(old') else Dynamic;
    var dst := s.nextReg;
    var s1 := Declare(x, h, FreshReg(s));
    LowCode([if IsStatic(h) then Bin(ArithOf(op), dst, old', v) else DynBin(ArithOf(op), dst, old', v),
             Mov(s1.locals[x].reg, Reg(dst, h))], s1)
  }

  function OldValue(x: string, s: Low): Operand {
    if x in s.locals then Reg(s.locals[x].reg, s.locals[x].hint) else NullImm
  }

  // ----- statements -----

  function LowerPrint(es: Vec<Expr>, s: Low): LowCode
    requires StaticExprs(es)
    decreases es
  {
    match es
    case Nil => LowCode([], s)
    case Cons(e, rest) =>
      var a := LowerExpr(e, s);
      var b := LowerPrint(rest, a.s);
      LowCode(a.code + [Call(None, if rest.Nil? then PrintlnValue else PrintValue, [a.value])] + b.code, b.s)
  }

  function WhileCode(head: nat, cont: nat, brk: nat, c: seq<Insn>, body: seq<Insn>): seq<Insn> {
    [Label(head)] + c + body + [Label(cont), Jump(head), Label(brk)]
  }

  function RangeHead(r: nat, h: Hint, from: Operand, to: Operand, head: nat, end: nat): seq<Insn> {
    [Mov(r, from), Label(head), Branch(CondGe, Reg(r, h), to, end)]
  }

  function RangeTail(r: nat, h: Hint, next: nat, step: Operand, head: nat, cont: nat, end: nat, brk: nat): seq<Insn> {
    [Label(cont), if IsStatic(h) then Bin(OpAdd, next, Reg(r, h), step) else DynBin(OpAdd, next, Reg(r, h), step),
     Mov(r, Reg(next, h)), Jump(head), Label(end), Label(brk)]
  }

  function StepOperand(step: Option<Expr>, s: Low): LowExpr
    requires step.Some? ==> StaticExpr(step.value)
  {
    if step.Some? then LowerExpr(step.value, s) else LowExpr([], ImmI64(1), s)
  }

  function BranchCode(c: seq<Insn>, body: seq<Insn>, other: nat, end: nat): seq<Insn> {
    c + body + [Jump(end), Label(other)]
  }

  function LowerStmt(t: Stmt, lp: Loops, s: Low): LowCode
    requires StaticStmt(t)
    decreases t, 0
  {
    match t
    case Assign(x, e) =>
      var a := LowerExpr(e, s);
      var b := StoreTo(x, a.value, a.s);
      LowCode(a.code + b.code, b.s)
    case Compound(x, op, e) =>
      var a := LowerExpr(e, s);
      var b := Update(x, op, a.value, OldValue(x, s), a.s);
      LowCode(a.code + b.code, b.s)
    case ExprStmt(e) =>
      var a := LowerExpr(e, s);
      LowCode(a.code, a.s)
    case Println(es) => if es.Nil? then LowCode([Call(None, PrintlnValue, [])], s) else LowerPrint(es, s)
    case If(c, yes, rest) =>
      var other, end := s.nextLabel, s.nextLabel + 1;
      var cc := LowerCond(c, other, FreshLabels(s, 2));
      var b := LowerBlock(yes, lp, cc.s);
      var r := LowerRest(rest, end, lp, b.s);
      LowCode(BranchCode(cc.code, b.code, other, end) + r.code + [Label(end)], r.s)
    case While(c, body) =>
      var cont, brk, head := s.nextLabel, s.nextLabel + 1, s.nextLabel + 2;
      var cc := LowerCond(c, brk, FreshLabels(s, 3));
      var b := LowerBlock(body, InLoop(cont, brk), cc.s);
      LowCode(WhileCode(head, cont, brk, cc.code, b.code), b.s)
    case Loop(body) =>
      var cont, brk, head := s.nextLabel, s.nextLabel + 1, s.nextLabel + 2;
      var b := LowerBlock(body, InLoop(cont, brk), FreshLabels(s, 3));
      LowCode(WhileCode(head, cont, brk, [], b.code), b.s)
    case ForRange(x, from, to, step, body) =>
      var cont, brk, head, end := s.nextLabel, s.nextLabel + 1, s.nextLabel + 2, s.nextLabel + 3;
      var a := LowerExpr(from, FreshLabels(s, 4));
      var b := LowerExpr(to, a.s);
      var c := StepOperand(step, b.s);
      var h := if HintOf(a.value).I64? && HintOf(b.value).I64? then I64 else Dynamic;
      var s1 := Declare(x, h, c.s);
      var r := s1.locals[x].reg;
      var d := LowerBlock(body, InLoop(cont, brk), s1);
      LowCode(a.code + b.code + c.code + RangeHead(r, h, a.value, b.value, head, end) + d.code
              + RangeTail(r, h, d.s.nextReg, c.value, head, cont, end, brk), FreshReg(d.s))
    case Break => LowCode(if lp.InLoop? then [Jump(lp.brk)] else [], s)
    case Continue => LowCode(if lp.InLoop? then [Jump(lp.cont)] else [], s)
    case Scope(body) =>
      var b := LowerBlock(body, lp, s);
      LowCode([Comment] + b.code, b.s)
  }

  function LowerBlock(b: Block, lp: Loops, s: Low): LowCode
    requires StaticBlock(b)
    decreases b, 0
  {
    match b
    case Nil => LowCode([], s)
    case Cons(t, rest) =>
      var a := LowerStmt(t, lp, s);
      var c := LowerBlock(rest, lp, a.s);
      LowCode(a.code + c.code, c.s)
  }

  function LowerRest(r: Rest, end: nat, lp: Loops, s: Low): LowCode
    requires StaticRest(r)
    decreases r, 0
  {
    match r
    case NoElse => LowCode([], s)
    case Else(body) => LowerBlock(body, lp, s)
    case Elif(c, body, rest) =>
      var other := s.nextLabel;
      var cc := LowerCond(c, other, FreshLabels(s, 1));
      var b := LowerBlock(body, lp, cc.s);
      var d := LowerRest(rest, end, lp, b.s);
      LowCode(BranchCode(cc.code, b.code, other, end) + d.code, d.s)
  }

  const NEW: Low := Low(0, 0, map[])

  /** The body of `main`. */
  function LowerProgram(p: Block): seq<Insn>
    requires StaticBlock(p)
  {
    [Comment] + LowerBlock(p, NoLoop, NEW).code + [Ret(ImmI64(0))]
  }
}
