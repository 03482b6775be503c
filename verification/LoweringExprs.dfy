/** Lowered expressions compute what the source means, on integers and booleans. The code of an
    expression leaves every register below the next free one alone, and the operand it returns
    then holds the value. */
module LoweringExprs {
  import opened Values
  import opened Ast
  import opened Source
  import opened Words
  import opened StaticIr
  import opened Lowering

  // ----- the typed fragment -----

  /** Numbers the compiler knows to be unboxed, numbers of either kind, truth values, and the numbers that
      `and`, `or` and `not` make of numbers, which stand for truth values. */
  datatype Ty = TInt | TAny | TBool | TTruth

  /** The variables that are certainly assigned, with the types of their values. */
  type Env = map<string, Ty>

  predicate IsNumber(t: Ty) {
    t == TInt || t == TAny
  }

  function Arithmetic(a: Ty, b: Ty): Option<Ty> {
    if a == TInt && b == TInt then Some(TInt)
    else if IsNumber(a) && IsNumber(b) then Some(TAny)
    else None
  }

  /** A divisor that may be zero needs operands that are known: boxed numbers yield zero then, others trap. */
  predicate Divisible(a: Ty, b: Ty, divisor: Expr) {
    (a == TInt && b == TInt) || (Literal(divisor).Some? && Literal(divisor).value != 0)
  }

  function TypeOf(env: Env, e: Expr): (r: Option<Ty>)
    ensures r.Some? ==> StaticExpr(e)
  {
    match e
    case IntLit(_) => Some(TInt)
    case BoolLit(_) => Some(TBool)
    case Var(x) => if x in env then Some(env[x]) else None
    case Binary(op, l, r) =>
      var a, b := TypeOf(env, l), TypeOf(env, r);
      if a.None? || b.None? then None else BinaryType(op, a.value, b.value, r)
    case And(l, r) =>
      var a, b := TypeOf(env, l), TypeOf(env, r);
      if a.None? || b.None? then None else Some(LogicType(Folded(e), a.value, b.value))
    case Or(l, r) =>
      var a, b := TypeOf(env, l), TypeOf(env, r);
      if a.None? || b.None? then None else Some(LogicType(Folded(e), a.value, b.value))
    case Unary(op, x) =>
      var a := TypeOf(env, x);
      if a.None? then None
      else if op == UnOp.Neg then (if IsNumber(a.value) then a else None)
      else if a.value == TAny then None
      else Some(if a.value == TBool then TBool else TTruth)
    case Ternary(c, yes, no) =>
      var a, b := TypeOf(env, yes), TypeOf(env, no);
      if TypeOf(env, c).None? || a.None? || b.None? then None
      else if IsNumber(a.value) && IsNumber(b.value) then Some(TAny)
      else if a.value == TBool && b.value == TBool then Some(TBool)
      else None
    case _ => None
  }

  function BinaryType(op: BinOp, a: Ty, b: Ty, divisor: Expr): Option<Ty> {
    if op in {Add, Sub, Mul} then Arithmetic(a, b)
    else if op in {FloorDiv, BinOp.Mod} then (if Divisible(a, b, divisor) then Arithmetic(a, b) else None)
    else if (IsNumber(a) && IsNumber(b)) || (op in {Eq, Ne} && a == TBool && b == TBool) then Some(TBool)
    else None
  }

  function LogicType(folded: bool, a: Ty, b: Ty): Ty {
    if a == TBool && b == TBool then TBool else if folded then TInt else TTruth
  }

  predicate HasTy(v: Value, t: Ty) {
    if t == TBool then v.Bool? else v.Int? && -TWO63 <= v.i < TWO63
  }

  predicate StoreOk(env: Env, st: Store) {
    forall x :: x in env ==> x in st && HasTy(st[x], env[x])
  }

  lemma BinaryTyped(op: BinOp, folded: bool, a: Value, b: Value, s: Ty, t: Ty, divisor: Expr)
    requires BinaryType(op, s, t, divisor).Some? && HasTy(a, s) && HasTy(b, t)
    ensures var r := Operated(Lowered, op, folded, a, b);
            (r.Ok? ==> HasTy(r.value, BinaryType(op, s, t, divisor).value)) && (r.Err? ==> r.error == Trap)
  {
    hide Wrap, Display, StrLess, TruncDiv, TruncMod;
  }

  lemma LogicTyped(isAnd: bool, folded: bool, a: Value, b: Value, s: Ty, t: Ty)
    requires HasTy(a, s) && HasTy(b, t)
    ensures HasTy(Joined(isAnd, folded, a, b), LogicType(folded, s, t))
  {
    hide Wrap, Bitwise;
  }

  /** A typed expression changes nothing, and fails only where the processor refuses a division. */
  lemma {:induction false} TypedEval(env: Env, e: Expr, st: Store)
    requires TypeOf(env, e).Some? && StoreOk(env, st)
    ensures var r := Eval(Lowered, e, st);
            (r.Val? ==> r.st == st && HasTy(r.value, TypeOf(env, e).value)) && (r.Fail? ==> r.error == Trap)
    decreases e, 1
  {
    hide BinaryType, LogicType, Operated, Joined, Wrap, Bitwise, Literal, StoreOk;
    match e
    case Var(x) => VarTyped(env, x, st);
    case Binary(op, l, r) =>
      TypedEval(env, l, st);
      TypedEval(env, r, st);
      var a, b := Eval(Lowered, l, st), Eval(Lowered, r, st);
      if a.Val? && b.Val? {
        BinaryTyped(op, Folded(e), a.value, b.value, TypeOf(env, l).value, TypeOf(env, r).value, r);
      }
    case And(l, r) => LogicEval(env, e, st);
    case Or(l, r) => LogicEval(env, e, st);
    case Unary(_, x) => TypedEval(env, x, st);
    case Ternary(c, yes, no) =>
      TypedEval(env, c, st);
      TypedEval(env, yes, st);
      TypedEval(env, no, st);
    case _ =>
  }

  lemma VarTyped(env: Env, x: string, st: Store)
    requires x in env && StoreOk(env, st)
    ensures HasTy(Get(st, x), env[x])
  {
  }

  lemma {:induction false} LogicEval(env: Env, e: Expr, st: Store)
    requires (e.And? || e.Or?) && TypeOf(env, e).Some? && StoreOk(env, st)
    ensures var r := Eval(Lowered, e, st);
            (r.Val? ==> r.st == st && HasTy(r.value, TypeOf(env, e).value)) && (r.Fail? ==> r.error == Trap)
    decreases e, 0
  {
    hide LogicType, Joined, Literal, StoreOk;
    var l, r := e.left, e.right;
    TypedEval(env, l, st);
    TypedEval(env, r, st);
    var a, b := Eval(Lowered, l, st), Eval(Lowered, r, st);
    if a.Val? && b.Val? {
      LogicTyped(e.And?, Folded(e), a.value, b.value, TypeOf(env, l).value, TypeOf(env, r).value);
    }
  }

  // ----- the compiler's state -----

  ghost predicate LowOk(s: Low) {
    && (forall x :: x in s.locals ==> s.locals[x].reg < s.nextReg)
    && (forall x, y :: x in s.locals && y in s.locals && x != y ==> s.locals[x].reg != s.locals[y].reg)
  }

  /** What the compiler knows of a variable fits its type. */
  predicate HintFits(h: Hint, t: Ty) {
    match t
    case TInt => h == I64
    case TAny => h != Boolean
    case TTruth => IsStatic(h)
    case TBool => true
  }

  ghost predicate HintsFit(env: Env, s: Low) {
    forall x :: x in env && x in s.locals ==> HintFits(s.locals[x].hint, env[x])
  }

  /** Lowering an expression takes registers and labels, and touches no variable. */
  ghost predicate Extends(s: Low, s': Low) {
    s'.locals == s.locals && s.nextReg <= s'.nextReg && s.nextLabel <= s'.nextLabel
  }

  lemma {:induction false} ExprState(e: Expr, s: Low)
    requires StaticExpr(e) && LowOk(s)
    ensures var r := LowerExpr(e, s); Extends(s, r.s) && OperandBelow(r.value, r.s.nextReg)
    decreases e, 0
  {
    hide LowerExpr, LowerCond, StaticExpr, PairOn, Negated, Inverted;
    if e.Binary? || e.And? || e.Or? {
      PairCode(e, s);
      var a := LowerExpr(e.left, s);
      ExprState(e.left, s);
      ExprState(e.right, a.s);
      var b := LowerExpr(e.right, a.s);
      PairState(e, a.value, b.value, b.s);
    } else if e.Unary? {
      assert StaticExpr(e.operand) by { StaticOperand(e); }
      UnaryCode(e.uop, e.operand, s);
      ExprState(e.operand, s);
      var a := LowerExpr(e.operand, s);
      UnaryState(a.value, a.s);
    } else if e.Ternary? {
      ChoiceParts(e, s);
      var s0 := FreshLabels(s, 2);
      CondState(e.cond, s.nextLabel, s0);
      var cc := LowerCond(e.cond, s.nextLabel, s0);
      ExprState(e.yes, cc.s);
      ExprState(e.no, FreshReg(LowerExpr(e.yes, cc.s).s));
    } else {
      LeafState(e, s);
    }
  }

  lemma StaticOperand(e: Expr)
    requires e.Unary? && StaticExpr(e)
    ensures StaticExpr(e.operand)
  {
  }

  lemma LeafState(e: Expr, s: Low)
    requires StaticExpr(e) && LowOk(s) && !e.Binary? && !e.And? && !e.Or? && !e.Unary? && !e.Ternary?
    ensures var r := LowerExpr(e, s); Extends(s, r.s) && OperandBelow(r.value, r.s.nextReg)
  {
  }

  lemma PairState(e: Expr, x: Operand, y: Operand, s: Low)
    requires e.Binary? || e.And? || e.Or?
    ensures var r := PairOn(e, x, y, s); Extends(s, r.s) && OperandBelow(r.value, r.s.nextReg)
  {
    hide Fold, Arith;
  }

  lemma UnaryState(x: Operand, s: Low)
    ensures var r := Negated(x, s); Extends(s, r.s) && OperandBelow(r.value, r.s.nextReg)
    ensures var r := Inverted(x, s); Extends(s, r.s) && OperandBelow(r.value, r.s.nextReg)
  {
  }

  lemma {:induction false} CondState(e: Expr, target: nat, s: Low)
    requires StaticExpr(e) && LowOk(s)
    ensures Extends(s, LowerCond(e, target, s).s)
    decreases e, 1
  {
    hide LowerExpr, StaticExpr;
    if e.Binary? && IsComparison(e.op) {
      ComparisonCode(e, target, s);
      ExprState(e.left, s);
      ExprState(e.right, LowerExpr(e.left, s).s);
    } else {
      ExprState(e, s);
    }
  }

  // ----- what is known of operands -----

  /** The operand of a literal is a literal, and no other is. */
  lemma {:induction false} LiteralOperand(e: Expr, s: Low)
    requires StaticExpr(e)
    ensures var o := LowerExpr(e, s).value;
            (o.ImmI64? <==> Literal(e).Some?) && (o.ImmI64? ==> o.i == Literal(e).value)
    decreases e
  {
    hide LowerExpr, LowerCond, StaticExpr, PairOn, Negated, Inverted, Fold, Arith, ChoiceCode;
    if e.Binary? || e.And? || e.Or? {
      PairCode(e, s);
      var a := LowerExpr(e.left, s);
      var b := LowerExpr(e.right, a.s);
      LiteralOperand(e.left, s);
      LiteralOperand(e.right, a.s);
      PairLiteral(e, a.value, b.value, b.s);
    } else if e.Unary? {
      assert StaticExpr(e.operand) by { StaticOperand(e); }
      UnaryCode(e.uop, e.operand, s);
      UnaryLiteral(LowerExpr(e.operand, s).value, LowerExpr(e.operand, s).s);
    } else if e.Ternary? {
      ChoiceParts(e, s);
    } else {
      LeafLiteral(e, s);
    }
  }

  lemma PairLiteral(e: Expr, x: Operand, y: Operand, s: Low)
    requires e.Binary? || e.And? || e.Or?
    requires (x.ImmI64? <==> Literal(e.left).Some?) && (x.ImmI64? ==> x.i == Literal(e.left).value)
    requires (y.ImmI64? <==> Literal(e.right).Some?) && (y.ImmI64? ==> y.i == Literal(e.right).value)
    ensures var o := PairOn(e, x, y, s).value; (o.ImmI64? <==> Literal(e).Some?) && (o.ImmI64? ==> o.i == Literal(e).value)
    ensures Folded(e) <==> x.ImmI64? && y.ImmI64?
  {
    hide Fold, Arith;
  }

  lemma UnaryLiteral(x: Operand, s: Low)
    ensures !Negated(x, s).value.ImmI64? && !Inverted(x, s).value.ImmI64?
    ensures HintOf(Negated(x, s).value) == HintOf(x) && HintOf(Inverted(x, s).value) == Boolean
  {
  }

  lemma LeafLiteral(e: Expr, s: Low)
    requires StaticExpr(e) && !e.Binary? && !e.And? && !e.Or? && !e.Unary? && !e.Ternary?
    ensures var o := LowerExpr(e, s).value; (o.ImmI64? <==> Literal(e).Some?) && (o.ImmI64? ==> o.i == Literal(e).value)
  {
  }

  /** What the compiler knows of an operand fits the type of the expression. */
  lemma {:induction false} ExprHint(env: Env, e: Expr, s: Low)
    requires TypeOf(env, e).Some? && LowOk(s) && HintsFit(env, s) && forall x :: x in env ==> x in s.locals
    ensures HintFits(HintOf(LowerExpr(e, s).value), TypeOf(env, e).value)
    decreases e
  {
    hide LowerExpr, LowerCond, StaticExpr, PairOn, Negated, Inverted, ChoiceCode, BinaryType, LogicType, HintFits;
    if e.Binary? || e.And? || e.Or? {
      PairCode(e, s);
      var a := LowerExpr(e.left, s);
      ExprHint(env, e.left, s);
      ExprState(e.left, s);
      ExprHint(env, e.right, a.s);
      var b := LowerExpr(e.right, a.s);
      LiteralOperand(e.left, s);
      LiteralOperand(e.right, a.s);
      PairLiteral(e, a.value, b.value, b.s);
      if e.Binary? {
        BinaryHint(e.op, a.value, b.value, b.s, TypeOf(env, e.left).value, TypeOf(env, e.right).value, e.right);
      } else {
        LogicHint(e.And?, a.value, b.value, b.s, TypeOf(env, e.left).value, TypeOf(env, e.right).value);
      }
      assert PairOn(e, a.value, b.value, b.s) == if e.Binary? then Combine(e.op, a.value, b.value, b.s) else Logic(e.And?, a.value, b.value, b.s) by {
        PairIs(e, a.value, b.value, b.s);
      }
    } else if e.Unary? {
      UnaryCode(e.uop, e.operand, s);
      ExprHint(env, e.operand, s);
      UnaryLiteral(LowerExpr(e.operand, s).value, LowerExpr(e.operand, s).s);
      UnaryHint(e, env, HintOf(LowerExpr(e.operand, s).value));
    } else if e.Ternary? {
      ChoiceParts(e, s);
      ChoiceHint(e, env);
    } else {
      LeafHint(env, e, s);
    }
  }

  lemma PairIs(e: Expr, x: Operand, y: Operand, s: Low)
    requires e.Binary? || e.And? || e.Or?
    ensures PairOn(e, x, y, s) == if e.Binary? then Combine(e.op, x, y, s) else Logic(e.And?, x, y, s)
  {
    hide Combine, Logic;
  }

  lemma BinaryHint(op: BinOp, x: Operand, y: Operand, s: Low, a: Ty, b: Ty, divisor: Expr)
    requires HintFits(HintOf(x), a) && HintFits(HintOf(y), b) && BinaryType(op, a, b, divisor).Some?
    ensures HintFits(HintOf(Combine(op, x, y, s).value), BinaryType(op, a, b, divisor).value)
  {
    hide Fold, Literal;
  }

  lemma LogicHint(isAnd: bool, x: Operand, y: Operand, s: Low, a: Ty, b: Ty)
    ensures HintFits(HintOf(Logic(isAnd, x, y, s).value), LogicType(x.ImmI64? && y.ImmI64?, a, b))
  {
    hide Arith;
  }

  lemma UnaryHint(e: Expr, env: Env, h: Hint)
    requires e.Unary? && TypeOf(env, e).Some? && TypeOf(env, e.operand).Some? && HintFits(h, TypeOf(env, e.operand).value)
    ensures HintFits(if e.uop == UnOp.Neg then h else Boolean, TypeOf(env, e).value)
  {
  }

  lemma ChoiceHint(e: Expr, env: Env)
    requires e.Ternary? && TypeOf(env, e).Some?
    ensures HintFits(Mixed, TypeOf(env, e).value)
  {
  }

  lemma LeafHint(env: Env, e: Expr, s: Low)
    requires TypeOf(env, e).Some? && HintsFit(env, s) && forall x :: x in env ==> x in s.locals
    requires !e.Binary? && !e.And? && !e.Or? && !e.Unary? && !e.Ternary?
    ensures HintFits(HintOf(LowerExpr(e, s).value), TypeOf(env, e).value)
  {
  }

  // ----- runs -----

  predicate Has(body: seq<Insn>, at: nat, frag: seq<Insn>) {
    at + |frag| <= |body| && body[at..at + |frag|] == frag
  }

  lemma HasSplit(body: seq<Insn>, at: nat, a: seq<Insn>, b: seq<Insn>)
    requires Has(body, at, a + b)
    ensures Has(body, at, a) && Has(body, at + |a|, b)
  {
    assert (a + b)[..|a|] == a && (a + b)[|a|..] == b;
    assert body[at..at + |a|] == body[at..at + |a + b|][..|a|];
    assert body[at + |a|..at + |a| + |b|] == body[at..at + |a + b|][|a|..];
  }

  lemma HasAt(body: seq<Insn>, at: nat, frag: seq<Insn>, k: nat)
    requires Has(body, at, frag) && k < |frag|
    ensures at + k < |body| && body[at + k] == frag[k]
  {
    assert body[at..at + |frag|][k] == body[at + k];
  }

  /** `n` steps lead from `c` to `c'`. */
  ghost predicate Reaches(body: seq<Insn>, c: IrConfig, n: nat, c': IrConfig) {
    Run(body, Going(c), n) == Going(c')
  }

  lemma Start(body: seq<Insn>, c: IrConfig)
    ensures Reaches(body, c, 0, c)
  {
  }

  lemma Follow(body: seq<Insn>, c: IrConfig, n: nat, c1: IrConfig, m: nat, c2: IrConfig)
    requires Reaches(body, c, n, c1) && Reaches(body, c1, m, c2)
    ensures Reaches(body, c, n + m, c2)
  {
    RunAdd(body, Going(c), n, m);
  }

  lemma Then(body: seq<Insn>, c: IrConfig, n: nat, c1: IrConfig, m: nat)
    requires Reaches(body, c, n, c1)
    ensures Run(body, Going(c), n + m) == Run(body, Going(c1), m)
  {
    RunAdd(body, Going(c), n, m);
  }

  lemma One(body: seq<Insn>, c: IrConfig, i: Insn) returns (c': IrConfig)
    requires c.pc < |body| && body[c.pc] == i && StepInsn(body, i, c).Going?
    ensures c' == StepInsn(body, i, c).c && Reaches(body, c, 1, c')
  {
    c' := StepInsn(body, i, c).c;
    assert Run(body, Going(c), 1) == Run(body, Step(body, Going(c)), 0);
  }

  /** As `One`, after a run. */
  lemma Hop(body: seq<Insn>, c: IrConfig, n: nat, c1: IrConfig, i: Insn) returns (m: nat, c2: IrConfig)
    requires Reaches(body, c, n, c1)
    requires c1.pc < |body| && body[c1.pc] == i && StepInsn(body, i, c1).Going?
    ensures m == n + 1 && c2 == StepInsn(body, i, c1).c && Reaches(body, c, m, c2)
  {
    hide Run;
    c2 := One(body, c1, i);
    m := n + 1;
    Follow(body, c, n, c1, 1, c2);
  }

  /** The next instruction stops the machine. */
  lemma LastHop(body: seq<Insn>, c: IrConfig, n: nat, c1: IrConfig, i: Insn)
    requires Reaches(body, c, n, c1)
    requires c1.pc < |body| && body[c1.pc] == i && !StepInsn(body, i, c1).Going?
    ensures Run(body, Going(c), n + 1) == StepInsn(body, i, c1)
  {
    Then(body, c, n, c1, 1);
    assert Run(body, Going(c1), 1) == Run(body, Step(body, Going(c1)), 0);
  }

  ghost predicate Kept(r: map<nat, i64>, r': map<nat, i64>, k: nat) {
    forall i: nat :: i < k ==> RegValue(r', i) == RegValue(r, i)
  }

  lemma KeptTrans(r: map<nat, i64>, r1: map<nat, i64>, r2: map<nat, i64>, j: nat, k: nat)
    requires Kept(r, r1, j) && Kept(r1, r2, k) && j <= k
    ensures Kept(r, r2, j)
  {
  }

  lemma OperandKept(o: Operand, r: map<nat, i64>, r': map<nat, i64>, k: nat)
    requires OperandBelow(o, k) && Kept(r, r', k)
    ensures OpValue(o, r') == OpValue(o, r)
  {
  }

  /** The registers hold the variables. */
  ghost predicate Holds(env: Env, st: Store, s: Low, regs: map<nat, i64>) {
    && StoreOk(env, st)
    && (forall x :: x in env ==> x in s.locals && RegValue(regs, s.locals[x].reg) == Enc(st[x]))
  }

  lemma HoldsKept(env: Env, st: Store, s: Low, s': Low, regs: map<nat, i64>, regs': map<nat, i64>)
    requires LowOk(s) && Holds(env, st, s, regs) && Kept(regs, regs', s.nextReg) && Extends(s, s')
    ensures Holds(env, st, s', regs') && LowOk(s')
  {
  }

  /** Code of length `len` has run, left the registers below `k` alone, and `o` is worth `v`. */
  ghost predicate Yields(body: seq<Insn>, c: IrConfig, len: nat, o: Operand, k: nat, v: int, n: nat, c': IrConfig) {
    && Reaches(body, c, n, c') && c'.pc == c.pc + len && c'.out == c.out
    && Kept(c.regs, c'.regs, k) && OpValue(o, c'.regs) == v
  }

  /** As `Yields`, for code that may be stopped: by a division, with the same output. */
  ghost predicate Evaluates(body: seq<Insn>, c: IrConfig, len: int, o: Operand, k: nat, r: EvalResult<Value>, n: nat,
        c': IrConfig) {
    match r
    case Val(v, _) => len >= 0 && Yields(body, c, len, o, k, Enc(v), n, c')
    case Fail(_) => Run(body, Going(c), n) == Trapped(c.out)
  }

  /** A run before. */
  lemma Later(body: seq<Insn>, c: IrConfig, n: nat, c1: IrConfig, len1: nat, len: int, o: Operand, j: nat, k: nat,
        r: EvalResult<Value>, m: nat, c2: IrConfig)
    requires Reaches(body, c, n, c1) && c1.pc == c.pc + len1 && c1.out == c.out && Kept(c.regs, c1.regs, j) && j <= k
    requires Evaluates(body, c1, len, o, k, r, m, c2)
    ensures Evaluates(body, c, len1 + len, o, j, r, n + m, c2)
  {
    hide Run;
    Then(body, c, n, c1, m);
    if r.Val? {
      KeptTrans(c.regs, c1.regs, c2.regs, j, k);
    }
  }

  // ----- operators -----

  /** The operands of a typed operation are numbers or truth values; a divisor is not zero, or what the
      compiler knows of the operands is the same. */
  predicate OperandsFit(op: BinOp, x: Operand, y: Operand, a: Value, b: Value) {
    if op in {Eq, Ne} then (a.Int? <==> b.Int?) && (a.Bool? <==> b.Bool?) && (a.Int? || a.Bool?)
                           && -TWO63 <= Enc(a) < TWO63 && -TWO63 <= Enc(b) < TWO63
    else
      && HasTy(a, TInt) && HasTy(b, TInt)
      && (op in {FloorDiv, BinOp.Mod} ==> b.i != 0 || (HintOf(x) == I64 && HintOf(y) == I64))
  }

  lemma CombineRuns(op: BinOp, x: Operand, y: Operand, s: Low, a: Value, b: Value, st: Store, body: seq<Insn>, c: IrConfig)
    returns (n: nat, c': IrConfig)
    requires OperandsFit(op, x, y, a, b) && OpValue(x, c.regs) == Enc(a) && OpValue(y, c.regs) == Enc(b)
    requires Has(body, c.pc, Combine(op, x, y, s).code)
    ensures Evaluates(body, c, |Combine(op, x, y, s).code|, Combine(op, x, y, s).value, s.nextReg,
                      Checked(Operated(Lowered, op, x.ImmI64? && y.ImmI64?, a, b), st), n, c')
  {
    hide Run, Has, Operated, Combine, OpValue, Enc, OperandsFit;
    var r := Combine(op, x, y, s);
    var v := Operated(Lowered, op, x.ImmI64? && y.ImmI64?, a, b);
    CombineStep(op, x, y, s, a, b, body, c);
    Start(body, c);
    n, c' := 0, c;
    if r.code != [] {
      HasAt(body, c.pc, r.code, 0);
      if v.Ok? {
        n, c' := Hop(body, c, 0, c, r.code[0]);
        PutBack(r.value, c.regs, Enc(v.value), s.nextReg);
      } else {
        LastHop(body, c, 0, c, r.code[0]);
        n := 1;
      }
    }
  }

  lemma PutBack(o: Operand, regs: map<nat, i64>, v: i64, k: nat)
    requires o.Reg? && k <= o.n
    ensures OpValue(o, regs[o.n := v]) == v && Kept(regs, regs[o.n := v], k)
  {
  }

  /** One instruction computes the operation or is refused, or there is none and the operand is the result. */
  lemma CombineStep(op: BinOp, x: Operand, y: Operand, s: Low, a: Value, b: Value, body: seq<Insn>, c: IrConfig)
    requires OperandsFit(op, x, y, a, b) && OpValue(x, c.regs) == Enc(a) && OpValue(y, c.regs) == Enc(b)
    ensures var r := Combine(op, x, y, s);
            var v := Operated(Lowered, op, x.ImmI64? && y.ImmI64?, a, b);
            && (v.Ok? ==> -TWO63 <= Enc(v.value) < TWO63)
            && if r.code == [] then v.Ok? && OpValue(r.value, c.regs) == Enc(v.value)
               else
                 && |r.code| == 1 && r.value.Reg? && r.value.n == s.nextReg
                 && StepInsn(body, r.code[0], c)
                    == if v.Ok? then Going(c.(pc := c.pc + 1, regs := c.regs[s.nextReg := Enc(v.value)])) else Trapped(c.out)
  {
    hide Operated, Arith, Traps, CondHolds, Goto, Fold, OpValue;
    OperationMeans(op, x, y, a, b);
    var r := Combine(op, x, y, s);
    ImmIs(x, c.regs);
    ImmIs(y, c.regs);
    if r.code == [] {
      ImmIs(r.value, c.regs);
    } else if r.code[0].Call? {
      assert OpValues([x, y], c.regs) == [OpValue(x, c.regs), OpValue(y, c.regs)];
    }
  }

  lemma ImmIs(o: Operand, regs: map<nat, i64>)
    ensures o.ImmI64? ==> OpValue(o, regs) == o.i
  {
  }

  /** What an operation on encoded values must yield. */
  lemma OperationMeans(op: BinOp, x: Operand, y: Operand, a: Value, b: Value)
    requires OperandsFit(op, x, y, a, b)
    ensures var i, j, folded := Enc(a), Enc(b), x.ImmI64? && y.ImmI64?;
            var v := Operated(Lowered, op, folded, a, b);
            && -TWO63 <= i < TWO63 && -TWO63 <= j < TWO63
            && (v.Ok? ==> -TWO63 <= Enc(v.value) < TWO63)
            && (if folded && Fold(op, i, j).Some? then v.Ok? && Enc(v.value) == Fold(op, i, j).value
                else if IsComparison(op) then v.Ok? && Enc(v.value) == Truth(CondHolds(CondOf(op), i, j))
                else if Traps(ArithOf(op), i, j) then v.Err?
                else v.Ok? && Enc(v.value) == Arith(ArithOf(op), i, j))
            && (!IsComparison(op) && (ArithOf(op).OpDiv? || ArithOf(op).OpMod?) && j == 0 ==> SameStatic(x, y))
  {
    hide Wrap, Display, StrLess, TruncDiv, TruncMod, Bitwise, ShiftLeft, ShiftRight;
  }

  lemma LabelFound(body: seq<Insn>, at: nat, frag: seq<Insn>, k: nat, l: nat)
    requires Distinct(body) && Has(body, at, frag) && k < |frag| && frag[k] == Label(l)
    ensures Find(body, l) == Some(at + k)
  {
    hide Count, Find;
    HasAt(body, at, frag, k);
    FindAt(body, at + k, l);
  }

  lemma {:induction false} BitwiseZero(op: ArithOp, n: nat)
    ensures Bitwise(op, 0, 0, n) == 0
  {
    if n > 0 {
      BitwiseZero(op, n - 1);
    }
  }

  lemma OneBit(op: ArithOp, a: nat, b: nat, n: nat)
    requires a <= 1 && b <= 1 && n >= 1
    ensures Bitwise(op, a, b, n) == Bit(op, a, b)
  {
    BitwiseZero(op, n - 1);
    assert a / 2 == 0 && b / 2 == 0 && a % 2 == a && b % 2 == b;
  }

  lemma LogicFold(isAnd: bool, a: bool, b: bool)
    ensures Arith(if isAnd then OpAnd else OpOr, Truth(a), Truth(b)) == Truth(if isAnd then a && b else a || b)
  {
    hide Bitwise;
    OneBit(if isAnd then OpAnd else OpOr, Truth(a), Truth(b), 64);
  }

  function LogicCode(isAnd: bool, x: Operand, y: Operand, dst: nat, other: nat, end: nat): seq<Insn> {
    [Branch(if isAnd then CondEq else CondNe, x, ImmBool(false), other), Mov(dst, y), Jump(end),
     Label(other), Mov(dst, ImmBool(!isAnd)), Label(end)]
  }

  /** What is left of two operands: two literals are combined bit by bit, of others the second is passed on
      if the first does not decide. */
  function LogicResult(isAnd: bool, x: Operand, y: Operand, a: i64, b: i64): i64 {
    if x.ImmI64? && y.ImmI64? then Arith(if isAnd then OpAnd else OpOr, a, b)
    else if (a != 0) == isAnd then b
    else Truth(!isAnd)
  }

  lemma LogicTruths(isAnd: bool, x: Operand, y: Operand, a: bool, b: bool)
    ensures LogicResult(isAnd, x, y, Truth(a), Truth(b)) == Truth(if isAnd then a && b else a || b)
  {
    hide Arith;
    LogicFold(isAnd, a, b);
  }

  lemma LogicRuns(isAnd: bool, x: Operand, y: Operand, s: Low, a: i64, b: i64, body: seq<Insn>, c: IrConfig)
    returns (n: nat, c': IrConfig)
    requires OpValue(x, c.regs) == a && OpValue(y, c.regs) == b && Distinct(body)
    requires Has(body, c.pc, Logic(isAnd, x, y, s).code)
    ensures Yields(body, c, |Logic(isAnd, x, y, s).code|, Logic(isAnd, x, y, s).value, s.nextReg,
                   LogicResult(isAnd, x, y, a, b), n, c')
  {
    hide Run, Distinct, Has, Arith, Reaches;
    Start(body, c);
    n, c' := 0, c;
    if !x.ImmI64? || !y.ImmI64? {
      assert Logic(isAnd, x, y, s).code == LogicCode(isAnd, x, y, s.nextReg, s.nextLabel + 1, s.nextLabel);
      n, c' := LogicBranches(isAnd, x, y, s.nextReg, s.nextLabel + 1, s.nextLabel, a, b, body, c);
    }
  }

  lemma LogicBranches(isAnd: bool, x: Operand, y: Operand, dst: nat, other: nat, end: nat, a: i64, b: i64,
                      body: seq<Insn>, c: IrConfig)
    returns (n: nat, c': IrConfig)
    requires OpValue(x, c.regs) == a && OpValue(y, c.regs) == b && Distinct(body)
    requires Has(body, c.pc, LogicCode(isAnd, x, y, dst, other, end))
    ensures Reaches(body, c, n, c')
    ensures c' == IrConfig(c.pc + 6, c.regs[dst := if (a != 0) == isAnd then b else Truth(!isAnd)], c.out)
  {
    hide Run, Distinct, Has, Find, Arith, Reaches;
    var code := LogicCode(isAnd, x, y, dst, other, end);
    LabelFound(body, c.pc, code, 3, other);
    LabelFound(body, c.pc, code, 5, end);
    Start(body, c);
    HasAt(body, c.pc, code, 0);
    n, c' := Hop(body, c, 0, c, code[0]);
    if (a != 0) == isAnd {
      HasAt(body, c.pc, code, 1);
      HasAt(body, c.pc, code, 2);
      n, c' := Hop(body, c, n, c', code[1]);
      n, c' := Hop(body, c, n, c', code[2]);
    } else {
      HasAt(body, c.pc, code, 3);
      HasAt(body, c.pc, code, 4);
      n, c' := Hop(body, c, n, c', code[3]);
      n, c' := Hop(body, c, n, c', code[4]);
    }
    HasAt(body, c.pc, code, 5);
    n, c' := Hop(body, c, n, c', code[5]);
  }

  lemma JoinedWord(isAnd: bool, x: Operand, y: Operand, a: Value, b: Value)
    requires (a.Bool? || HasTy(a, TInt)) && (b.Bool? || HasTy(b, TInt))
    ensures -TWO63 <= Enc(a) < TWO63 && -TWO63 <= Enc(b) < TWO63
    ensures LogicResult(isAnd, x, y, Enc(a), Enc(b)) == Enc(Joined(isAnd, x.ImmI64? && y.ImmI64?, a, b))
  {
    hide Bitwise;
    if a.Bool? && b.Bool? {
      LogicTruths(isAnd, x, y, a.b, b.b);
    }
  }

  lemma NotFits(i: i64)
    requires i == 0 || i == 1
    ensures Arith(OpXor, i, 1) == Truth(i == 0)
  {
    hide Bitwise;
    OneBit(OpXor, i, 1, 64);
  }

  function Inverts(op: UnOp, v: Value): Value {
    if op == UnOp.Not && v.Int? then Flipped(v.i) else UnaryValue(op, v)
  }

  lemma UnaryRuns(op: UnOp, x: Operand, s: Low, v: Value, body: seq<Insn>, c: IrConfig)
    returns (n: nat, c': IrConfig)
    requires HasTy(v, TInt) || (v.Bool? && op == UnOp.Not)
    requires op == UnOp.Not && v.Int? ==> IsStatic(HintOf(x))
    requires OpValue(x, c.regs) == Enc(v)
    requires Has(body, c.pc, (if op == UnOp.Neg then Negated(x, s) else Inverted(x, s)).code)
    ensures var r := if op == UnOp.Neg then Negated(x, s) else Inverted(x, s);
            Yields(body, c, |r.code|, r.value, s.nextReg, Enc(Inverts(op, v)), n, c')
  {
    hide Run, Has, StepInsn, Inverts, OpValue, Enc;
    var r := if op == UnOp.Neg then Negated(x, s) else Inverted(x, s);
    Start(body, c);
    UnaryStep(op, x, s, v, body, c);
    HasAt(body, c.pc, r.code, 0);
    n, c' := Hop(body, c, 0, c, r.code[0]);
    PutBack(r.value, c.regs, Enc(Inverts(op, v)), s.nextReg);
  }

  lemma UnaryWord(op: UnOp, v: Value)
    requires HasTy(v, TInt) || (v.Bool? && op == UnOp.Not)
    ensures var w := Enc(Inverts(op, v));
            && -TWO63 <= w < TWO63 && -TWO63 <= Enc(v) < TWO63
            && (op == UnOp.Neg ==> w == Arith(OpSub, 0, Enc(v)))
            && (op == UnOp.Not ==> w == Arith(OpXor, Enc(v), 1) && (v.Bool? ==> w == Truth(Enc(v) == 0)))
  {
    hide Wrap, Bitwise;
    if v.Bool? {
      NotFits(Enc(v));
    }
  }

  lemma UnaryStep(op: UnOp, x: Operand, s: Low, v: Value, body: seq<Insn>, c: IrConfig)
    requires HasTy(v, TInt) || (v.Bool? && op == UnOp.Not)
    requires op == UnOp.Not && v.Int? ==> IsStatic(HintOf(x))
    requires OpValue(x, c.regs) == Enc(v)
    ensures var r := if op == UnOp.Neg then Negated(x, s) else Inverted(x, s);
            && |r.code| == 1 && r.value.Reg? && r.value.n == s.nextReg && -TWO63 <= Enc(Inverts(op, v)) < TWO63
            && StepInsn(body, r.code[0], c)
               == Going(c.(pc := c.pc + 1, regs := c.regs[s.nextReg := Enc(Inverts(op, v))]))
  {
    hide Arith, OpValue, Inverts, Enc, HintOf;
    UnaryWord(op, v);
    var r := if op == UnOp.Neg then Negated(x, s) else Inverted(x, s);
    ImmIs(ImmI64(0), c.regs);
    if r.code[0].Call? {
      assert OpValues([x], c.regs) == [OpValue(x, c.regs)];
    }
  }

  // ----- expressions -----

  ghost predicate ExprReady(e: Expr, s: Low, env: Env, st: Store, body: seq<Insn>, c: IrConfig) {
    && TypeOf(env, e).Some? && LowOk(s) && HintsFit(env, s) && Holds(env, st, s, c.regs) && Distinct(body)
    && Has(body, c.pc, LowerExpr(e, s).code)
  }

  ghost predicate ExprDone(e: Expr, s: Low, st: Store, body: seq<Insn>, c: IrConfig, n: nat, c': IrConfig)
    requires StaticExpr(e)
  {
    var r := LowerExpr(e, s);
    Evaluates(body, c, |r.code|, r.value, s.nextReg, Eval(Lowered, e, st), n, c')
  }

  lemma {:induction false} ExprLowered(e: Expr, s: Low, env: Env, st: Store, body: seq<Insn>, c: IrConfig)
    returns (n: nat, c': IrConfig)
    requires ExprReady(e, s, env, st, body, c)
    ensures ExprDone(e, s, st, body, c, n, c')
    decreases e, 2
  {
    hide *;
    match e
    case Binary(_, _, _) => n, c' := PairLowered(e, s, env, st, body, c);
    case And(_, _) => n, c' := PairLowered(e, s, env, st, body, c);
    case Or(_, _) => n, c' := PairLowered(e, s, env, st, body, c);
    case Unary(_, _) => n, c' := UnaryLowered(e, s, env, st, body, c);
    case Ternary(_, _, _) => n, c' := ChoiceLowered(e, s, env, st, body, c);
    case _ => n, c' := LeafLowered(e, s, env, st, body, c);
  }

  lemma LeafLowered(e: Expr, s: Low, env: Env, st: Store, body: seq<Insn>, c: IrConfig)
    returns (n: nat, c': IrConfig)
    requires !e.Binary? && !e.And? && !e.Or? && !e.Unary? && !e.Ternary?
    requires ExprReady(e, s, env, st, body, c)
    ensures ExprDone(e, s, st, body, c, n, c')
  {
    hide Run, Has, Distinct;
    Start(body, c);
    n, c' := 0, c;
  }

  function PairOn(e: Expr, x: Operand, y: Operand, s: Low): LowExpr
    requires e.Binary? || e.And? || e.Or?
  {
    if e.Binary? then Combine(e.op, x, y, s) else Logic(e.And?, x, y, s)
  }

  function PairResult(e: Expr, folded: bool, a: Value, b: Value, st: Store): EvalResult<Value>
    requires e.Binary? || e.And? || e.Or?
  {
    if e.Binary? then Checked(Operated(Lowered, e.op, folded, a, b), st) else Val(Joined(e.And?, folded, a, b), st)
  }

  ghost predicate PairFits(e: Expr, x: Operand, y: Operand, a: Value, b: Value)
    requires e.Binary? || e.And? || e.Or?
  {
    if e.Binary? then OperandsFit(e.op, x, y, a, b) else (a.Bool? || HasTy(a, TInt)) && (b.Bool? || HasTy(b, TInt))
  }

  /** Both operands are evaluated, the left one first. */
  lemma {:induction false} PairEval(e: Expr, env: Env, st: Store)
    requires (e.Binary? || e.And? || e.Or?) && TypeOf(env, e).Some? && StoreOk(env, st)
    ensures TypeOf(env, e.left).Some? && TypeOf(env, e.right).Some?
    ensures var a, b := Eval(Lowered, e.left, st), Eval(Lowered, e.right, st);
            && (a.Val? ==> a.st == st) && (b.Val? ==> b.st == st)
            && Eval(Lowered, e, st) == if a.Fail? then a else if b.Fail? then b else PairResult(e, Folded(e), a.value, b.value, st)
  {
    hide StoreOk, Operated, Joined, Literal;
    TypedEval(env, e.left, st);
    TypedEval(env, e.right, st);
  }

  /** The values of typed operands fit the operation. */
  lemma PairTyped(e: Expr, env: Env, st: Store, x: Operand, y: Operand)
    requires (e.Binary? || e.And? || e.Or?) && TypeOf(env, e).Some? && StoreOk(env, st)
    requires Eval(Lowered, e.left, st).Val? && Eval(Lowered, e.right, st).Val?
    requires TypeOf(env, e.left).Some? && HintFits(HintOf(x), TypeOf(env, e.left).value)
    requires TypeOf(env, e.right).Some? && HintFits(HintOf(y), TypeOf(env, e.right).value)
    ensures PairFits(e, x, y, Eval(Lowered, e.left, st).value, Eval(Lowered, e.right, st).value)
  {
    hide StoreOk, Eval, Literal;
    TypedEval(env, e.left, st);
    TypedEval(env, e.right, st);
    if e.Binary? && Literal(e.right).Some? {
      LiteralEval(e.right, env, st);
    }
  }

  /** A literal is worth what the compiler takes it to be. */
  lemma {:induction false} LiteralEval(e: Expr, env: Env, st: Store)
    requires TypeOf(env, e).Some? && StoreOk(env, st) && Literal(e).Some?
    ensures var r := Eval(Lowered, e, st); r.Val? && Enc(r.value) == Literal(e).value
    decreases e
  {
    hide StoreOk, Fold, Arith, Operated, Joined;
    if e.Binary? || e.And? || e.Or? {
      PairEval(e, env, st);
      LiteralEval(e.left, env, st);
      LiteralEval(e.right, env, st);
      TypedEval(env, e.left, st);
      TypedEval(env, e.right, st);
      var i, j := ImmI64(Literal(e.left).value), ImmI64(Literal(e.right).value);
      var a, b := Eval(Lowered, e.left, st).value, Eval(Lowered, e.right, st).value;
      if e.Binary? {
        LiteralFits(e, env, a, b, i, j);
        OperationMeans(e.op, i, j, a, b);
      } else {
        JoinedWord(e.And?, i, j, a, b);
      }
    }
  }

  lemma LiteralFits(e: Expr, env: Env, a: Value, b: Value, x: Operand, y: Operand)
    requires e.Binary? && TypeOf(env, e).Some? && TypeOf(env, e.left).Some? && TypeOf(env, e.right).Some?
    requires HasTy(a, TypeOf(env, e.left).value) && HasTy(b, TypeOf(env, e.right).value) && x.ImmI64? && y.ImmI64?
    ensures OperandsFit(e.op, x, y, a, b)
  {
    hide Literal;
  }

  lemma {:induction false} PairCode(e: Expr, s: Low)
    requires (e.Binary? || e.And? || e.Or?) && StaticExpr(e)
    ensures StaticExpr(e.left) && StaticExpr(e.right)
    ensures var a := LowerExpr(e.left, s);
            var b := LowerExpr(e.right, a.s);
            var d := PairOn(e, a.value, b.value, b.s);
            LowerExpr(e, s) == LowExpr(a.code + b.code + d.code, d.value, d.s)
  {
    hide Combine, Logic;
  }

  lemma PairRuns(e: Expr, x: Operand, y: Operand, s: Low, a: Value, b: Value, st: Store, body: seq<Insn>, c: IrConfig)
    returns (n: nat, c': IrConfig)
    requires (e.Binary? || e.And? || e.Or?) && PairFits(e, x, y, a, b) && Distinct(body)
    requires OpValue(x, c.regs) == Enc(a) && OpValue(y, c.regs) == Enc(b)
    requires Has(body, c.pc, PairOn(e, x, y, s).code)
    ensures Evaluates(body, c, |PairOn(e, x, y, s).code|, PairOn(e, x, y, s).value, s.nextReg,
                      PairResult(e, x.ImmI64? && y.ImmI64?, a, b, st), n, c')
  {
    hide Run, Has, Distinct, Combine, Logic, Operated, Joined, OperandsFit, Yields;
    PairIs(e, x, y, s);
    if e.Binary? {
      n, c' := CombineRuns(e.op, x, y, s, a, b, st, body, c);
    } else {
      JoinedWord(e.And?, x, y, a, b);
      n, c' := LogicRuns(e.And?, x, y, s, Enc(a), Enc(b), body, c);
    }
  }

  /** Two operands one after the other, then code that takes both. */
  lemma {:induction false} PairLowered(e: Expr, s: Low, env: Env, st: Store, body: seq<Insn>, c: IrConfig)
    returns (n: nat, c': IrConfig)
    requires e.Binary? || e.And? || e.Or?
    requires ExprReady(e, s, env, st, body, c)
    ensures ExprDone(e, s, st, body, c, n, c')
    decreases e, 1
  {
    hide Run, Has, Distinct, LowerExpr, TypeOf, StaticExpr, Eval, PairOn, Kept, LowOk, HasTy, Enc, PairFits, PairResult,
      Literal, HintFits;
    var l, r := e.left, e.right;
    assert StoreOk(env, st);
    PairEval(e, env, st);
    PairCode(e, s);
    var a := LowerExpr(l, s);
    var b := LowerExpr(r, a.s);
    var d := PairOn(e, a.value, b.value, b.s);
    HasSplit(body, c.pc, a.code + b.code, d.code);
    HasSplit(body, c.pc, a.code, b.code);
    ExprState(l, s);
    n, c' := ExprLowered(l, s, env, st, body, c);
    if Eval(Lowered, l, st).Val? {
      var c1 := c';
      HoldsKept(env, st, s, a.s, c.regs, c1.regs);
      ExprState(r, a.s);
      var m, c2 := ExprLowered(r, a.s, env, st, body, c1);
      Later(body, c, n, c1, |a.code|, |b.code|, b.value, s.nextReg, a.s.nextReg, Eval(Lowered, r, st), m, c2);
      n, c' := n + m, c2;
      if Eval(Lowered, r, st).Val? {
        OperandKept(a.value, c1.regs, c2.regs, a.s.nextReg);
        PairKnown(e, s, env, st);
        var va, vb := Eval(Lowered, l, st).value, Eval(Lowered, r, st).value;
        var k, c3 := PairRuns(e, a.value, b.value, b.s, va, vb, st, body, c2);
        Later(body, c, n, c2, |a.code| + |b.code|, |d.code|, d.value, s.nextReg, b.s.nextReg, Eval(Lowered, e, st), k, c3);
        n, c' := n + k, c3;
      }
    }
  }

  /** What is known of the operands when both have values. */
  lemma PairKnown(e: Expr, s: Low, env: Env, st: Store)
    requires (e.Binary? || e.And? || e.Or?) && TypeOf(env, e).Some? && TypeOf(env, e.left).Some? && TypeOf(env, e.right).Some?
    requires LowOk(s) && HintsFit(env, s) && StoreOk(env, st) && forall x :: x in env ==> x in s.locals
    requires Eval(Lowered, e.left, st).Val? && Eval(Lowered, e.right, st).Val?
    ensures var a := LowerExpr(e.left, s);
            var b := LowerExpr(e.right, a.s);
            && (Folded(e) <==> a.value.ImmI64? && b.value.ImmI64?)
            && PairFits(e, a.value, b.value, Eval(Lowered, e.left, st).value, Eval(Lowered, e.right, st).value)
  {
    hide LowerExpr, StaticExpr, Eval, TypeOf, PairFits, HintFits;
    ExprState(e.left, s);
    var a := LowerExpr(e.left, s);
    var b := LowerExpr(e.right, a.s);
    ExprHint(env, e.left, s);
    ExprHint(env, e.right, a.s);
    LiteralOperand(e.left, s);
    LiteralOperand(e.right, a.s);
    PairLiteral(e, a.value, b.value, b.s);
    PairTyped(e, env, st, a.value, b.value);
  }

  lemma Seq(body: seq<Insn>, c: IrConfig, n: nat, c1: IrConfig, m: nat, c2: IrConfig, j: nat, k: nat) returns (t: nat)
    requires Reaches(body, c, n, c1) && Reaches(body, c1, m, c2)
    requires Kept(c.regs, c1.regs, j) && Kept(c1.regs, c2.regs, k) && j <= k
    ensures t == n + m && Reaches(body, c, t, c2) && Kept(c.regs, c2.regs, j)
  {
    t := n + m;
    Follow(body, c, n, c1, m, c2);
    KeptTrans(c.regs, c1.regs, c2.regs, j, k);
  }

  lemma {:induction false} UnaryCode(op: UnOp, x: Expr, s: Low)
    requires StaticExpr(x)
    ensures var a := LowerExpr(x, s);
            var d := if op == UnOp.Neg then Negated(a.value, a.s) else Inverted(a.value, a.s);
            LowerExpr(Unary(op, x), s) == LowExpr(a.code + d.code, d.value, d.s)
  {
    hide Negated, Inverted;
  }

  lemma {:induction false} UnaryEval(op: UnOp, x: Expr, env: Env, st: Store)
    requires TypeOf(env, Unary(op, x)).Some? && StoreOk(env, st)
    ensures TypeOf(env, x).Some?
    ensures var a := Eval(Lowered, x, st);
            && (a.Val? ==> a.st == st && (HasTy(a.value, TInt) || (a.value.Bool? && op == UnOp.Not)))
            && Eval(Lowered, Unary(op, x), st) == if a.Fail? then a else Val(Inverts(op, a.value), st)
  {
    hide StoreOk, UnaryValue, Flipped;
    TypedEval(env, x, st);
  }

  /** `not` of a number is lowered for operands that are known not to be boxed. */
  lemma NotKnown(op: UnOp, x: Expr, env: Env, st: Store, h: Hint)
    requires TypeOf(env, Unary(op, x)).Some? && StoreOk(env, st) && TypeOf(env, x).Some? && HintFits(h, TypeOf(env, x).value)
    ensures var a := Eval(Lowered, x, st); a.Val? && op == UnOp.Not && a.value.Int? ==> IsStatic(h)
  {
    hide StoreOk, Eval;
    TypedEval(env, x, st);
  }

  lemma {:induction false} UnaryLowered(e: Expr, s: Low, env: Env, st: Store, body: seq<Insn>, c: IrConfig)
    returns (n: nat, c': IrConfig)
    requires e.Unary?
    requires ExprReady(e, s, env, st, body, c)
    ensures ExprDone(e, s, st, body, c, n, c')
    decreases e, 1
  {
    hide Run, Has, Distinct, LowerExpr, TypeOf, StaticExpr, Eval, Kept, LowOk, HasTy, Enc, Inverts,
      Negated, Inverted, HintFits;
    var op, x := e.uop, e.operand;
    assert StoreOk(env, st);
    UnaryEval(op, x, env, st);
    UnaryCode(op, x, s);
    var a := LowerExpr(x, s);
    var d := if op == UnOp.Neg then Negated(a.value, a.s) else Inverted(a.value, a.s);
    HasSplit(body, c.pc, a.code, d.code);
    ExprState(x, s);
    n, c' := ExprLowered(x, s, env, st, body, c);
    var v := Eval(Lowered, x, st);
    if v.Val? {
      ExprHint(env, x, s);
      NotKnown(op, x, env, st, HintOf(a.value));
      var c1 := c';
      var m, c2 := UnaryRuns(op, a.value, a.s, v.value, body, c1);
      Later(body, c, n, c1, |a.code|, |d.code|, d.value, s.nextReg, a.s.nextReg, Eval(Lowered, e, st), m, c2);
      n, c' := n + m, c2;
    }
  }

  // ----- conditions -----

  ghost predicate CondReady(e: Expr, target: nat, s: Low, env: Env, st: Store, body: seq<Insn>, c: IrConfig) {
    && TypeOf(env, e).Some? && LowOk(s) && HintsFit(env, s) && Holds(env, st, s, c.regs) && Distinct(body)
    && Has(body, c.pc, LowerCond(e, target, s).code) && Find(body, target).Some?
  }

  /** The branch is taken exactly when the condition is false, if it has a value. */
  ghost predicate CondDone(e: Expr, target: nat, s: Low, st: Store, body: seq<Insn>, c: IrConfig, n: nat, c': IrConfig)
    requires StaticExpr(e) && Find(body, target).Some?
  {
    match Eval(Lowered, e, st)
    case Val(v, _) =>
      && Reaches(body, c, n, c') && c'.out == c.out && Kept(c.regs, c'.regs, s.nextReg)
      && c'.pc == if Truthy(v) then c.pc + |LowerCond(e, target, s).code| else Find(body, target).value
    case Fail(_) => Run(body, Going(c), n) == Trapped(c.out)
  }

  lemma NegateFlips(c: Cond, a: int, b: int)
    ensures CondHolds(Negate(c), a, b) == !CondHolds(c, a, b)
  {
  }

  lemma EncTruthy(v: Value)
    requires v.Int? || v.Bool?
    ensures Truthy(v) <==> Enc(v) != 0
  {
  }

  lemma {:induction false} CondLowered(e: Expr, target: nat, s: Low, env: Env, st: Store, body: seq<Insn>, c: IrConfig)
    returns (n: nat, c': IrConfig)
    requires CondReady(e, target, s, env, st, body, c)
    ensures CondDone(e, target, s, st, body, c, n, c')
    decreases e, 3
  {
    hide Run, Has, Distinct, LowerExpr, TypeOf, StaticExpr, Eval, Kept, LowOk, Enc, Find, Holds, Truthy,
      CondHolds;
    if e.Binary? && IsComparison(e.op) {
      n, c' := ComparisonLowered(e, target, s, env, st, body, c);
    } else {
      var a := LowerExpr(e, s);
      var i := Branch(CondEq, a.value, ImmBool(false), target);
      HasSplit(body, c.pc, a.code, [i]);
      n, c' := ExprLowered(e, s, env, st, body, c);
      HasAt(body, c.pc + |a.code|, [i], 0);
      var v := Eval(Lowered, e, st);
      if v.Val? {
        ValueTyped(e, env, st, s, c.regs);
        EncTruthy(v.value);
        var c1 := c';
        BranchOnZero(a.value, target, body, c1);
        n, c' := Hop(body, c, n, c1, i);
      }
    }
  }

  lemma BranchOnZero(x: Operand, target: nat, body: seq<Insn>, c: IrConfig)
    requires Find(body, target).Some?
    ensures StepInsn(body, Branch(CondEq, x, ImmBool(false), target), c)
         == Going(c.(pc := if OpValue(x, c.regs) == 0 then Find(body, target).value else c.pc + 1))
  {
  }

  lemma BranchOn(k: Cond, x: Operand, y: Operand, target: nat, body: seq<Insn>, c: IrConfig)
    requires Find(body, target).Some?
    ensures StepInsn(body, Branch(k, x, y, target), c)
         == Going(c.(pc := if CondHolds(k, OpValue(x, c.regs), OpValue(y, c.regs)) then Find(body, target).value else c.pc + 1))
  {
  }

  lemma ValueTyped(e: Expr, env: Env, st: Store, s: Low, regs: map<nat, i64>)
    requires TypeOf(env, e).Some? && Holds(env, st, s, regs)
    ensures var r := Eval(Lowered, e, st); r.Val? ==> r.st == st && (HasTy(r.value, TInt) || r.value.Bool?)
  {
    hide Eval;
    TypedEval(env, e, st);
  }

  lemma {:induction false} ComparisonCode(e: Expr, target: nat, s: Low)
    requires e.Binary? && IsComparison(e.op) && StaticExpr(e)
    ensures StaticExpr(e.left) && StaticExpr(e.right)
    ensures var a := LowerExpr(e.left, s);
            var b := LowerExpr(e.right, a.s);
            LowerCond(e, target, s) == LowCode(a.code + b.code + [Branch(Negate(CondOf(e.op)), a.value, b.value, target)], b.s)
  {
    hide LowerExpr;
  }

  lemma {:induction false} ComparisonEval(e: Expr, env: Env, st: Store)
    requires e.Binary? && IsComparison(e.op) && TypeOf(env, e).Some? && StoreOk(env, st)
    ensures TypeOf(env, e.left).Some? && TypeOf(env, e.right).Some?
    ensures var a, b, r := Eval(Lowered, e.left, st), Eval(Lowered, e.right, st), Eval(Lowered, e, st);
            if a.Fail? then r == a
            else if b.Fail? then r == b
            else r.Val? && Truthy(r.value) == CondHolds(CondOf(e.op), Enc(a.value), Enc(b.value))
  {
    hide StoreOk, Display, StrLess, Operated, Literal, Eval;
    PairEval(e, env, st);
    TypedEval(env, e.left, st);
    TypedEval(env, e.right, st);
    var a, b := Eval(Lowered, e.left, st), Eval(Lowered, e.right, st);
    if a.Val? && b.Val? {
      ComparisonMeans(e.op, Folded(e), a.value, b.value);
    }
  }

  lemma ComparisonMeans(op: BinOp, folded: bool, a: Value, b: Value)
    requires IsComparison(op) && (a.Int? <==> b.Int?) && (a.Bool? <==> b.Bool?) && (a.Int? || a.Bool?)
    requires a.Bool? ==> op in {Eq, Ne}
    ensures var r := Operated(Lowered, op, folded, a, b); r.Ok? && Truthy(r.value) == CondHolds(CondOf(op), Enc(a), Enc(b))
  {
    hide Display, StrLess;
  }

  lemma {:induction false} ComparisonLowered(e: Expr, target: nat, s: Low, env: Env, st: Store, body: seq<Insn>,
        c: IrConfig)
    returns (n: nat, c': IrConfig)
    requires e.Binary? && IsComparison(e.op)
    requires CondReady(e, target, s, env, st, body, c)
    ensures CondDone(e, target, s, st, body, c, n, c')
    decreases e, 1
  {
    hide Run, Has, Distinct, LowerExpr, LowerCond, TypeOf, StaticExpr, Eval, Kept, LowOk, Enc, Find,
      Truthy, CondHolds, HasTy;
    var l, r := e.left, e.right;
    assert StoreOk(env, st);
    ComparisonEval(e, env, st);
    ComparisonCode(e, target, s);
    var a := LowerExpr(l, s);
    var b := LowerExpr(r, a.s);
    var i := Branch(Negate(CondOf(e.op)), a.value, b.value, target);
    HasSplit(body, c.pc, a.code + b.code, [i]);
    HasSplit(body, c.pc, a.code, b.code);
    ExprState(l, s);
    n, c' := ExprLowered(l, s, env, st, body, c);
    if Eval(Lowered, l, st).Val? {
      var c1 := c';
      HoldsKept(env, st, s, a.s, c.regs, c1.regs);
      ExprState(r, a.s);
      var m, c2 := ExprLowered(r, a.s, env, st, body, c1);
      Later(body, c, n, c1, |a.code|, |b.code|, b.value, s.nextReg, a.s.nextReg, Eval(Lowered, r, st), m, c2);
      n, c' := n + m, c2;
      if Eval(Lowered, r, st).Val? {
        OperandKept(a.value, c1.regs, c2.regs, a.s.nextReg);
        HasAt(body, c2.pc, [i], 0);
        BranchOn(Negate(CondOf(e.op)), a.value, b.value, target, body, c2);
        NegateFlips(CondOf(e.op), OpValue(a.value, c2.regs), OpValue(b.value, c2.regs));
        n, c' := Hop(body, c, n, c2, i);
      }
    }
  }

  // ----- conditional expressions -----

  lemma {:induction false} ChoiceParts(e: Expr, s: Low)
    requires e.Ternary? && StaticExpr(e)
    ensures StaticExpr(e.cond) && StaticExpr(e.yes) && StaticExpr(e.no)
    ensures var other, end := s.nextLabel, s.nextLabel + 1;
            var cc := LowerCond(e.cond, other, FreshLabels(s, 2));
            var a := LowerExpr(e.yes, cc.s);
            var b := LowerExpr(e.no, FreshReg(a.s));
            LowerExpr(e, s) == LowExpr(ChoiceCode(cc.code, a.code, a.value, b.code, b.value, a.s.nextReg, other, end),
                                       Reg(a.s.nextReg, Mixed), b.s)
  {
    hide LowerCond, ChoiceCode;
  }

  lemma {:induction false} ChoiceEval(e: Expr, env: Env, st: Store)
    requires e.Ternary? && TypeOf(env, e).Some? && StoreOk(env, st)
    ensures TypeOf(env, e.cond).Some? && TypeOf(env, e.yes).Some? && TypeOf(env, e.no).Some?
    ensures var c := Eval(Lowered, e.cond, st);
            Eval(Lowered, e, st)
            == if c.Fail? then c else if Truthy(c.value) then Eval(Lowered, e.yes, st) else Eval(Lowered, e.no, st)
  {
    hide StoreOk, Truthy;
    TypedEval(env, e.cond, st);
  }

  lemma ChoiceSplit(body: seq<Insn>, at: nat, c: seq<Insn>, a: seq<Insn>, x: Operand, b: seq<Insn>, y: Operand,
                    dst: nat, other: nat, end: nat)
    requires Has(body, at, ChoiceCode(c, a, x, b, y, dst, other, end)) && Distinct(body)
    ensures var p := at + |c|;
            var q := p + |a| + 3;
            && Has(body, at, c) && Has(body, p, a) && Has(body, p + |a|, [Mov(dst, x), Jump(end), Label(other)])
            && Has(body, q, b) && Has(body, q + |b|, [Mov(dst, y), Label(end)])
            && Find(body, other) == Some(q - 1) && Find(body, end) == Some(q + |b| + 1)
            && |ChoiceCode(c, a, x, b, y, dst, other, end)| == |c| + |a| + 3 + |b| + 2
  {
    hide Has, Distinct, Find;
    var mid, tail := [Mov(dst, x), Jump(end), Label(other)], [Mov(dst, y), Label(end)];
    HasSplit(body, at, c + a + mid + b, tail);
    HasSplit(body, at, c + a + mid, b);
    HasSplit(body, at, c + a, mid);
    HasSplit(body, at, c, a);
    LabelFound(body, at + |c| + |a|, mid, 2, other);
    LabelFound(body, at + |c| + |a| + 3 + |b|, tail, 1, end);
  }

  lemma {:induction false} ChoiceLowered(e: Expr, s: Low, env: Env, st: Store, body: seq<Insn>, c: IrConfig)
    returns (n: nat, c': IrConfig)
    requires e.Ternary?
    requires ExprReady(e, s, env, st, body, c)
    ensures ExprDone(e, s, st, body, c, n, c')
    decreases e, 1
  {
    hide Run, Has, Distinct, LowerExpr, LowerCond, TypeOf, StaticExpr, Eval, Kept, LowOk, Enc, Find,
      Truthy, HasTy, ChoiceCode, Holds, StoreOk;
    assert StoreOk(env, st) by { HoldsMeans(env, st, s, c.regs); }
    ChoiceEval(e, env, st);
    ChoiceParts(e, s);
    var other, end := s.nextLabel, s.nextLabel + 1;
    var s0 := FreshLabels(s, 2);
    var cc := LowerCond(e.cond, other, s0);
    var a := LowerExpr(e.yes, cc.s);
    var dst := a.s.nextReg;
    var b := LowerExpr(e.no, FreshReg(a.s));
    ChoiceSplit(body, c.pc, cc.code, a.code, a.value, b.code, b.value, dst, other, end);
    StateOf(s, s0, env, st, c.regs);
    CondState(e.cond, other, s0);
    var c1;
    n, c1 := CondLowered(e.cond, other, s0, env, st, body, c);
    c' := c1;
    var v := Eval(Lowered, e.cond, st);
    if v.Val? {
      HoldsKept(env, st, s0, cc.s, c.regs, c1.regs);
      ExprState(e.yes, cc.s);
      if Truthy(v.value) {
        n, c' := YesTaken(e.yes, cc.s, env, st, body, c, n, c1, s.nextReg, dst, end, other);
      } else {
        HasAt(body, c.pc + |cc.code| + |a.code|, [Mov(dst, a.value), Jump(end), Label(other)], 2);
        n, c' := NoTaken(e.no, cc.s, FreshReg(a.s), env, st, body, c, n, c1, s.nextReg, dst, end, other);
      }
      if Eval(Lowered, e, st).Val? {
        HasAt(body, c.pc + |cc.code| + |a.code| + 3 + |b.code|, [Mov(dst, b.value), Label(end)], 1);
        n, c' := Hop(body, c, n, c', Label(end));
      }
    }
  }

  lemma HoldsMeans(env: Env, st: Store, s: Low, regs: map<nat, i64>)
    requires Holds(env, st, s, regs)
    ensures StoreOk(env, st)
  {
  }

  /** A branch has left its value in `dst` and stands at `pc`, or it was stopped. */
  ghost predicate Branched(body: seq<Insn>, c: IrConfig, r: EvalResult<Value>, pc: nat, dst: nat, k: nat, n: nat, c': IrConfig) {
    match r
    case Val(v, _) =>
      && Reaches(body, c, n, c') && c'.out == c.out && Kept(c.regs, c'.regs, k)
      && c'.pc == pc && RegValue(c'.regs, dst) == Enc(v)
    case Fail(_) => Run(body, Going(c), n) == Trapped(c.out)
  }

  lemma {:induction false} YesTaken(e: Expr, s: Low, env: Env, st: Store, body: seq<Insn>, c: IrConfig, n: nat,
        c1: IrConfig, k: nat, dst: nat, end: nat, other: nat)
    returns (n': nat, c': IrConfig)
    requires Reaches(body, c, n, c1) && c1.out == c.out && Kept(c.regs, c1.regs, k) && k <= s.nextReg && k <= dst
    requires ExprReady(e, s, env, st, body, c1) && Find(body, end).Some?
    requires var a := LowerExpr(e, s); Has(body, c1.pc + |a.code|, [Mov(dst, a.value), Jump(end), Label(other)])
    ensures Branched(body, c, Eval(Lowered, e, st), Find(body, end).value, dst, k, n', c')
    decreases e, 4
  {
    hide Run, Has, Distinct, LowerExpr, TypeOf, StaticExpr, Eval, Kept, LowOk, Enc, Find, Holds;
    var a := LowerExpr(e, s);
    var tail := [Mov(dst, a.value), Jump(end), Label(other)];
    HasAt(body, c1.pc + |a.code|, tail, 0);
    HasAt(body, c1.pc + |a.code|, tail, 1);
    n', c' := TakeBranch(e, s, env, st, body, c, n, c1, k, dst);
    if Eval(Lowered, e, st).Val? {
      n', c' := Hop(body, c, n', c', Jump(end));
    }
  }

  lemma {:induction false} NoTaken(e: Expr, s: Low, s1: Low, env: Env, st: Store, body: seq<Insn>, c: IrConfig,
        n: nat, c1: IrConfig, k: nat, dst: nat, end: nat, other: nat)
    returns (n': nat, c': IrConfig)
    requires Reaches(body, c, n, c1) && c1.out == c.out && Kept(c.regs, c1.regs, k) && k <= s1.nextReg && k <= dst
    requires TypeOf(env, e).Some? && LowOk(s) && HintsFit(env, s) && Extends(s, s1) && Holds(env, st, s, c1.regs) && Distinct(body)
    requires Find(body, other) == Some(c1.pc) && c1.pc < |body| && body[c1.pc] == Label(other)
    requires Has(body, c1.pc + 1, LowerExpr(e, s1).code)
    requires var a := LowerExpr(e, s1); Has(body, c1.pc + 1 + |a.code|, [Mov(dst, a.value), Label(end)])
    ensures Branched(body, c, Eval(Lowered, e, st), c1.pc + 1 + |LowerExpr(e, s1).code| + 1, dst, k, n', c')
    decreases e, 4
  {
    hide Run, Has, Distinct, LowerExpr, TypeOf, StaticExpr, Eval, LowOk, Enc, Find, Holds, Kept;
    var a := LowerExpr(e, s1);
    var c2;
    n', c2 := Hop(body, c, n, c1, Label(other));
    StateOf(s, s1, env, st, c2.regs);
    HasAt(body, c2.pc + |a.code|, [Mov(dst, a.value), Label(end)], 0);
    n', c' := TakeBranch(e, s1, env, st, body, c, n', c2, k, dst);
  }

  lemma StateOf(s: Low, s': Low, env: Env, st: Store, regs: map<nat, i64>)
    requires LowOk(s) && Extends(s, s') && Holds(env, st, s, regs)
    ensures LowOk(s') && Holds(env, st, s', regs)
  {
  }

  /** One branch: its value goes to `dst`. */
  lemma {:induction false} TakeBranch(e: Expr, s: Low, env: Env, st: Store, body: seq<Insn>, c: IrConfig, n: nat,
        c1: IrConfig, k: nat, dst: nat)
    returns (n': nat, c': IrConfig)
    requires Reaches(body, c, n, c1) && c1.out == c.out && Kept(c.regs, c1.regs, k) && k <= s.nextReg && k <= dst
    requires ExprReady(e, s, env, st, body, c1)
    requires var a := LowerExpr(e, s);
             c1.pc + |a.code| < |body| && body[c1.pc + |a.code|] == Mov(dst, a.value)
    ensures Branched(body, c, Eval(Lowered, e, st), c1.pc + |LowerExpr(e, s).code| + 1, dst, k, n', c')
    decreases e, 3
  {
    hide Run, Has, Distinct, LowerExpr, TypeOf, StaticExpr, Eval, LowOk, Enc, Holds;
    var a := LowerExpr(e, s);
    var m, c2 := ExprLowered(e, s, env, st, body, c1);
    Then(body, c, n, c1, m);
    n', c' := n + m, c2;
    if Eval(Lowered, e, st).Val? {
      n' := Seq(body, c, n, c1, m, c2, k, s.nextReg);
      n', c' := Hop(body, c, n', c2, Mov(dst, a.value));
    }
  }
}
