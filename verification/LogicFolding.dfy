/** `and`, `or` and `not` of integers: what the lowered code makes of them, taken as a truth value. */
module LogicFolding {
  import opened Values
  import opened Ast
  import opened Source
  import opened Words
  import opened StaticIr
  import opened Lowering
  import opened LoweringExprs
  import opened SteadyRanges

  predicate BitOf(a: nat, k: nat) {
    if k == 0 then a % 2 == 1 else BitOf(a / 2, k - 1)
  }

  /** The bits that the operation leaves set. */
  predicate LeftSet(isAnd: bool, a: nat, b: nat, k: nat) {
    if isAnd then BitOf(a, k) && BitOf(b, k) else BitOf(a, k) || BitOf(b, k)
  }

  lemma {:induction false} BitwiseBits(isAnd: bool, a: nat, b: nat, n: nat)
    ensures Bitwise(if isAnd then OpAnd else OpOr, a, b, n) != 0 <==> exists k :: 0 <= k < n && LeftSet(isAnd, a, b, k)
    ensures Bitwise(if isAnd then OpAnd else OpOr, a, b, n) < Pow2(n)
    decreases n
  {
    if n > 0 {
      BitwiseBits(isAnd, a / 2, b / 2, n - 1);
      if k :| 0 <= k < n - 1 && LeftSet(isAnd, a / 2, b / 2, k) {
        assert LeftSet(isAnd, a, b, k + 1);
      }
      if k :| 0 <= k < n && LeftSet(isAnd, a, b, k) {
        assert k > 0 ==> LeftSet(isAnd, a / 2, b / 2, k - 1);
      }
      assert LeftSet(isAnd, a, b, 0) <==> Bit(if isAnd then OpAnd else OpOr, a % 2, b % 2) == 1;
    }
  }

  /** The operation on each bit. */
  lemma {:induction false} BitwiseExact(op: ArithOp, a: nat, b: nat, n: nat, k: nat)
    requires k < n && (op.OpAnd? || op.OpOr? || op.OpXor?)
    ensures BitOf(Bitwise(op, a, b, n), k)
       <==> if op.OpAnd? then BitOf(a, k) && BitOf(b, k) else if op.OpOr? then BitOf(a, k) || BitOf(b, k) else BitOf(a, k) != BitOf(b, k)
    decreases n
  {
    var low := Bit(op, a % 2, b % 2);
    var rest := Bitwise(op, a / 2, b / 2, n - 1);
    assert Bitwise(op, a, b, n) == low + 2 * rest && low <= 1;
    assert (low + 2 * rest) / 2 == rest && (low + 2 * rest) % 2 == low;
    if k > 0 {
      BitwiseExact(op, a / 2, b / 2, n - 1, k - 1);
    }
  }

  lemma {:induction false} SomeBit(a: nat, n: nat) returns (k: nat)
    requires 0 < a < Pow2(n)
    ensures k < n && BitOf(a, k)
    decreases n
  {
    if a % 2 == 1 {
      k := 0;
    } else {
      k := SomeBit(a / 2, n - 1);
      k := k + 1;
    }
  }

  lemma {:induction false} NoBit(k: nat)
    ensures !BitOf(0, k)
  {
    if k > 0 {
      NoBit(k - 1);
    }
  }

  lemma {:induction false} Pow2Sum(j: nat, k: nat)
    ensures Pow2(j + k) == Pow2(j) * Pow2(k)
  {
    if j > 0 {
      Pow2Sum(j - 1, k);
    }
  }

  lemma SixtyFour()
    ensures Pow2(64) == TWO64
  {
    assert Pow2(4) == 16;
    Pow2Sum(4, 4);
    Pow2Sum(8, 8);
    Pow2Sum(16, 16);
    Pow2Sum(32, 32);
  }

  /** The operands have a bit in common. */
  ghost predicate ShareBit(a: i64, b: i64) {
    exists k :: 0 <= k < 64 && LeftSet(true, a % TWO64, b % TWO64, k)
  }

  /** Two integer literals are combined bit by bit. Taken as a truth value, `or` is always right;
      `and` is right exactly when one operand is zero or the operands have a bit in common. */
  lemma LogicFoldExact(isAnd: bool, a: i64, b: i64, s: Low)
    ensures Logic(isAnd, ImmI64(a), ImmI64(b), s).value.ImmI64?
    ensures var folded := Logic(isAnd, ImmI64(a), ImmI64(b), s).value.i;
            ((folded != 0) == if isAnd then a != 0 && b != 0 else a != 0 || b != 0)
            <==> (isAnd ==> a == 0 || b == 0 || ShareBit(a, b))
  {
    hide Bitwise, Pow2, BitOf;
    var ua, ub := a % TWO64, b % TWO64;
    SixtyFour();
    BitwiseBits(isAnd, ua, ub, 64);
    var bits := Bitwise(if isAnd then OpAnd else OpOr, ua, ub, 64);
    WrapZero(bits);
    EitherBit(ua, ub);
    assert ua == 0 <==> a == 0;
    assert ub == 0 <==> b == 0;
  }

  lemma WrapZero(x: int)
    requires 0 <= x < TWO64
    ensures Wrap(x) == 0 <==> x == 0
  {
  }

  lemma EitherBit(a: nat, b: nat)
    requires a < Pow2(64) && b < Pow2(64)
    ensures (exists k :: 0 <= k < 64 && LeftSet(false, a, b, k)) <==> a != 0 || b != 0
    ensures (exists k :: 0 <= k < 64 && LeftSet(true, a, b, k)) ==> a != 0 && b != 0
  {
    hide BitOf, Pow2;
    if a != 0 {
      var k := SomeBit(a, 64);
      assert LeftSet(false, a, b, k);
    }
    if b != 0 {
      var k := SomeBit(b, 64);
      assert LeftSet(false, a, b, k);
    }
    forall k: nat ensures !BitOf(0, k) {
      NoBit(k);
    }
  }

  /** `2 and 1` is true, and is folded to zero. */
  lemma LogicFoldDiffers(st: Store, s: Low)
    ensures Eval(Documented, And(IntLit(2), IntLit(1)), st) == Val(Bool(true), st)
    ensures LowerExpr(And(IntLit(2), IntLit(1)), s) == LowExpr([], ImmI64(0), s)
  {
    hide Bitwise, Arith;
    TwoAndOne();
    assert Eval(Documented, IntLit(2), st) == Val(Int(2), st) && Eval(Documented, IntLit(1), st) == Val(Int(1), st);
    assert LowerExpr(IntLit(2), s) == LowExpr([], ImmI64(2), s) && LowerExpr(IntLit(1), s) == LowExpr([], ImmI64(1), s);
  }

  lemma TwoAndOne()
    ensures Arith(OpAnd, 2, 1) == 0
  {
    BitsApart(62);
    HighBits(0, 0, 62, 1, 0);
    HighBits(1, 0, 63, 0, 1);
    assert Arith(OpAnd, 2, 1) == Wrap(Bitwise(OpAnd, 2 % TWO64, 1 % TWO64, 64)) by {
      hide Bitwise;
    }
  }

  lemma HighBits(a: nat, b: nat, n: nat, i: nat, j: nat)
    requires i < 2 && j < 2
    ensures Bitwise(OpAnd, 2 * a + i, 2 * b + j, n + 1) == Bit(OpAnd, i, j) + 2 * Bitwise(OpAnd, a, b, n)
  {
  }

  lemma {:induction false} BitsApart(n: nat)
    ensures Bitwise(OpAnd, 0, 0, n) == 0
  {
    if n > 0 {
      BitsApart(n - 1);
    }
  }

  // ----- expressions -----

  ghost predicate OperandsReady(e: Expr, s: Low, env: Env, st: Store, body: seq<Insn>, c: IrConfig)
    requires StaticExpr(e)
  {
    LowOk(s) && HintsFit(env, s) && Holds(env, st, s, c.regs) && Distinct(body) && Has(body, c.pc, LowerExpr(e, s).code)
  }

  /** The code has run, has left older registers alone, and its operand is as true as what is documented
      exactly if `right`. */
  ghost predicate TrueIff(e: Expr, s: Low, st: Store, body: seq<Insn>, c: IrConfig, n: nat, c': IrConfig, right: bool)
    requires StaticExpr(e)
  {
    var r := LowerExpr(e, s);
    && Reaches(body, c, n, c') && c'.pc == c.pc + |r.code| && c'.out == c.out && LoweringExprs.Kept(c.regs, c'.regs, s.nextReg)
    && Eval(Documented, e, st).Val? && ((OpValue(r.value, c'.regs) != 0) == Truthy(Eval(Documented, e, st).value) <==> right)
  }

  lemma LogicValue(isAnd: bool, x: Operand, y: Operand, a: i64, b: i64, s: Low)
    requires x.ImmI64? ==> x.i == a
    requires y.ImmI64? ==> y.i == b
    ensures ((LogicResult(isAnd, x, y, a, b) != 0) == if isAnd then a != 0 && b != 0 else a != 0 || b != 0)
       <==> (isAnd && x.ImmI64? && y.ImmI64? ==> a == 0 || b == 0 || ShareBit(a, b))
  {
    hide Arith;
    if x.ImmI64? && y.ImmI64? {
      LogicFoldExact(isAnd, a, b, s);
    }
  }

  ghost predicate BitsMeet(e: Expr)
    requires (e.And? || e.Or?) && Folded(e)
  {
    Literal(e.left).value == 0 || Literal(e.right).value == 0 || ShareBit(Literal(e.left).value, Literal(e.right).value)
  }

  /** The number that `and` or `or` makes of two words, and the truth value it stands for. */
  lemma JoinedTruth(isAnd: bool, folded: bool, a: Value, b: Value)
    requires (a.Bool? || HasTy(a, TInt)) && (b.Bool? || HasTy(b, TInt))
    ensures -TWO63 <= Enc(a) < TWO63 && -TWO63 <= Enc(b) < TWO63
    ensures ((Enc(Joined(isAnd, folded, a, b)) != 0) == if isAnd then Truthy(a) && Truthy(b) else Truthy(a) || Truthy(b))
       <==> (isAnd && folded ==> Enc(a) == 0 || Enc(b) == 0 || ShareBit(Enc(a), Enc(b)))
  {
    hide Joined, ShareBit, LogicResult;
    EncTruthy(a);
    EncTruthy(b);
    var x := if folded then ImmI64(Enc(a)) else Reg(0, I64);
    var y := if folded then ImmI64(Enc(b)) else Reg(0, I64);
    JoinedWord(isAnd, x, y, a, b);
    LogicValue(isAnd, x, y, Enc(a), Enc(b), NEW);
  }

  /** `and` and `or`, of operands that mean what is documented, are lowered right, as truth values, unless
      they are folded; then `or` is right as well, and `and` if an operand is zero or they have a bit in common. */
  lemma LogicExact(e: Expr, s: Low, env: Env, st: Store, body: seq<Insn>, c: IrConfig) returns (n: nat, c': IrConfig)
    requires (e.And? || e.Or?) && CalmType(env, e.left).Some? && CalmType(env, e.right).Some?
    requires OperandsReady(e, s, env, st, body, c)
    ensures TrueIff(e, s, st, body, c, n, c', e.And? && Folded(e) ==> BitsMeet(e))
  {
    hide Run, Has, Distinct, LowerExpr, Calm, StaticExpr, LoweringExprs.Kept, LowOk, HintsFit, Enc, Reaches,
      Truthy, ShareBit, StoreOk, Joined, Literal, HasTy, Eval, TypeOf;
    assert TypeOf(env, e).Some? by { BothTyped(env, e); }
    n, c' := ExprLowered(e, s, env, st, body, c);
    HoldsMeans(env, st, s, c.regs);
    LogicMeans(e, env, st);
    EncTruthy(Eval(Lowered, e, st).value);
  }

  lemma LogicMeans(e: Expr, env: Env, st: Store)
    requires (e.And? || e.Or?) && CalmType(env, e.left).Some? && CalmType(env, e.right).Some? && StoreOk(env, st)
    ensures var d, l := Eval(Documented, e, st), Eval(Lowered, e, st);
            && d.Val? && l.Val? && (l.value.Int? || l.value.Bool?)
            && ((Enc(l.value) != 0) == Truthy(d.value) <==> (e.And? && Folded(e) ==> BitsMeet(e)))
  {
    hide Calm, Enc, Truthy, ShareBit, StoreOk, Joined, Literal, HasTy, TypeOf;
    AlikeSelf(env, st);
    assert TypeOf(env, e).Some? by { BothTyped(env, e); }
    PairEval(e, env, st);
    SameValue(env, e.left, st, st);
    SameValue(env, e.right, st, st);
    TypedEval(env, e, st);
    var a, b := Eval(Lowered, e.left, st).value, Eval(Lowered, e.right, st).value;
    TruthKinds(TypeOf(env, e.left).value, Eval(Documented, e.left, st).value, a);
    TruthKinds(TypeOf(env, e.right).value, Eval(Documented, e.right, st).value, b);
    TruthKinds(TypeOf(env, e).value, Eval(Lowered, e, st).value, Eval(Lowered, e, st).value);
    if Folded(e) {
      LiteralEval(e.left, env, st);
      LiteralEval(e.right, env, st);
    }
    JoinedTruth(e.And?, Folded(e), a, b);
    TruthOfBool(false);
    TruthOfBool(true);
  }

  lemma TruthKinds(t: Ty, v: Value, w: Value)
    requires HasTy(w, t) && (AsTrue(t, v, w) || v == w)
    ensures Truthy(v) == Truthy(w) && (w.Bool? || HasTy(w, TInt)) && (w.Int? || w.Bool?)
  {
  }

  lemma TruthOfBool(b: bool)
    ensures Truthy(Bool(b)) == b
  {
  }

  lemma AlikeSelf(env: Env, st: Store)
    requires StoreOk(env, st)
    ensures Alike(env, st, st)
  {
  }

  lemma BothTyped(env: Env, e: Expr)
    requires (e.And? || e.Or?) && CalmType(env, e.left).Some? && CalmType(env, e.right).Some?
    ensures TypeOf(env, e).Some?
  {
    hide Calm;
  }

  // ----- not -----

  lemma {:induction false} XorZero(a: nat, n: nat)
    requires a < Pow2(n)
    ensures Bitwise(OpXor, a, 0, n) == a
    decreases n
  {
    if n > 0 {
      XorZero(a / 2, n - 1);
    }
  }

  lemma XorOne(a: nat, n: nat)
    requires n > 0 && a < Pow2(n)
    ensures Bitwise(OpXor, a, 1, n) == 0 <==> a == 1
  {
    XorZero(a / 2, n - 1);
  }

  /** Flipping the lowest bit leaves nothing of one alone. */
  lemma FlipExact(v: i64)
    ensures Arith(OpXor, v, 1) == 0 <==> v == 1
  {
    hide Bitwise, Pow2;
    var u := v % TWO64;
    SixtyFour();
    XorOne(u, 64);
    BelowPower(u, 1, 64);
    WrapZero(Bitwise(OpXor, u, 1, 64));
  }

  lemma {:induction false} BelowPower(a: nat, b: nat, n: nat)
    ensures Bitwise(OpXor, a, b, n) < Pow2(n)
    decreases n
  {
    if n > 0 {
      BelowPower(a / 2, b / 2, n - 1);
    }
  }

  lemma InvertRuns(x: Operand, s: Low, v: i64, body: seq<Insn>, c: IrConfig) returns (n: nat, c': IrConfig)
    requires OpValue(x, c.regs) == v && Has(body, c.pc, Inverted(x, s).code)
    ensures Yields(body, c, 1, Inverted(x, s).value, s.nextReg,
                   if IsStatic(HintOf(x)) then Arith(OpXor, v, 1) else Truth(v == 0), n, c')
  {
    hide Run, Has, Wrap, Bitwise, TruncDiv, TruncMod, ShiftLeft, ShiftRight;
    var r := Inverted(x, s);
    Start(body, c);
    HasAt(body, c.pc, r.code, 0);
    if r.code[0].Call? {
      assert OpValues([x], c.regs) == [OpValue(x, c.regs)];
    }
    n, c' := Hop(body, c, 0, c, r.code[0]);
  }

  lemma NotMeans(env: Env, e: Expr, st: Store)
    requires e.Unary? && e.uop == UnOp.Not && CalmType(env, e.operand).Some? && StoreOk(env, st)
    ensures var d, l := Eval(Documented, e, st), Eval(Lowered, e.operand, st);
            && d.Val? && l.Val? && -TWO63 <= Enc(l.value) < TWO63 && Truthy(d.value) == (Enc(l.value) == 0)
  {
    hide StoreOk, TypeOf, Calm, Truthy;
    AlikeSelf(env, st);
    SameValue(env, e.operand, st, st);
    var v, w := Eval(Documented, e.operand, st).value, Eval(Lowered, e.operand, st).value;
    TruthKinds(TypeOf(env, e.operand).value, v, w);
    EncTruthy(w);
    TruthOfBool(!Truthy(v));
  }

  /** `not` of an operand that means what is documented is right, as a truth value, if the operand is not
      known to be unboxed, or is zero or one. */
  lemma NotExact(e: Expr, s: Low, env: Env, st: Store, body: seq<Insn>, c: IrConfig) returns (n: nat, c': IrConfig)
    requires e.Unary? && e.uop == UnOp.Not && CalmType(env, e.operand).Some?
    requires OperandsReady(e, s, env, st, body, c)
    ensures var v := Eval(Lowered, e.operand, st);
            && v.Val?
            && TrueIff(e, s, st, body, c, n, c',
                       IsStatic(HintOf(LowerExpr(e.operand, s).value)) ==> Enc(v.value) == 0 || Enc(v.value) == 1)
  {
    hide Run, Has, Distinct, LowerExpr, Calm, TypeOf, StaticExpr, LoweringExprs.Kept, LowOk, HintsFit, Enc, Eval, Reaches,
      Truthy, Inverted, StoreOk, Arith, HintOf;
    HoldsMeans(env, st, s, c.regs);
    NotMeans(env, e, st);
    UnaryCode(UnOp.Not, e.operand, s);
    var x := LowerExpr(e.operand, s);
    var d := Inverted(x.value, x.s);
    HasSplit(body, c.pc, x.code, d.code);
    ExprState(e.operand, s);
    var c1, m;
    n, c1 := ExprLowered(e.operand, s, env, st, body, c);
    var v := Enc(Eval(Lowered, e.operand, st).value);
    m, c' := InvertRuns(x.value, x.s, v, body, c1);
    n := Seq(body, c, n, c1, m, c', s.nextReg, x.s.nextReg);
    FlipExact(v);
    OneInsn(x.value, x.s);
  }

  lemma OneInsn(x: Operand, s: Low)
    ensures |Inverted(x, s).code| == 1
  {
  }

  /** `not 2` is false, and lowered to three. */
  lemma NotTwoDiffers(st: Store, s: Low, body: seq<Insn>, c: IrConfig)
    requires LowOk(s) && Distinct(body) && Has(body, c.pc, LowerExpr(Unary(UnOp.Not, IntLit(2)), s).code)
    ensures Eval(Documented, Unary(UnOp.Not, IntLit(2)), st) == Val(Bool(false), st)
    ensures exists n, c' :: Reaches(body, c, n, c') && OpValue(LowerExpr(Unary(UnOp.Not, IntLit(2)), s).value, c'.regs) != 0
  {
    hide Run, Has, Distinct, Reaches, Arith, LowOk;
    var e := Unary(UnOp.Not, IntLit(2));
    assert Eval(Lowered, IntLit(2), st) == Val(Int(2), st);
    assert Eval(Documented, IntLit(2), st) == Val(Int(2), st);
    assert LowerExpr(IntLit(2), s) == LowExpr([], ImmI64(2), s);
    var n, c' := NotExact(e, s, map[], st, body, c);
  }
}
