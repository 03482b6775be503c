/** Small programs that are not lowered to what is documented: they print truth values or quotients of
    negative numbers, or divide where the left operand of `and` should have kept them from it. */
module LoweredPrints {
  import opened Values
  import opened Words
  import opened Ast
  import opened Source
  import opened Exits
  import opened StaticIr
  import opened Lowering
  import opened LoweringExprs
  import opened LoweringStmts
  import opened LoweringPrograms
  import opened SteadyRanges
  import opened RangeQuirks
  import Folding
  import Texts
  import LogicFolding

  // ----- decimals -----

  /** Different numbers are printed differently. */
  lemma DecimalDiffers(a: int, b: int)
    requires Decimal(a) == Decimal(b)
    ensures a == b
  {
    hide Decimal;
    Texts.DecimalMeans(a);
    Texts.DecimalMeans(b);
  }

  /** No truth value is printed like a number. */
  lemma TruthIsNoNumber(b: bool, i: int)
    ensures Display(Bool(b)) != Decimal(i)
  {
    hide Decimal;
    Texts.DecimalMeans(i);
  }

  lemma LineDiffers(a: string, b: string)
    requires a != b
    ensures "" + a + "\n" != "" + b + "\n"
  {
    assert ("" + a + "\n")[..|a|] == a && ("" + b + "\n")[..|b|] == b;
  }

  // ----- truth values -----

  // println, e
  function Showing(e: Expr): Block {
    Cons(Println(Cons(e, Nil)), Nil)
  }

  lemma ShowingMeans(rd: Reading, e: Expr, st: State, fuel: nat)
    ensures ExecBlock(rd, Showing(e), st, fuel)
         == match Eval(rd, e, st.vars)
            case Val(v, vars) => Done(Normal, State(vars, st.out + Shown(rd, v) + "\n"), [])
            case Fail(err) => Failed(err, st.out)
  {
    hide Eval, Shown;
    AloneMeans(rd, Println(Cons(e, Nil)), st, fuel);
    var r := Eval(rd, e, st.vars);
    if r.Val? {
      var st1 := State(r.st, st.out + Shown(rd, r.value));
      assert Print(rd, Nil, st1) == Done(Normal, st1, []);
    }
  }

  lemma ShowingInFragment(g: Env, env: Env, e: Expr)
    requires TypeOf(env, e).Some?
    ensures FlowBlock(g, env, Showing(e)) == Some(env) && ClosedBlock(Showing(e))
  {
    hide TypeOf;
    assert AllTyped(env, Nil) && AllTyped(env, Cons(e, Nil));
    assert Flow(g, env, Println(Cons(e, Nil))) == Some(env);
    assert FlowBlock(g, env, Nil) == Some(env);
    assert ClosedBlock(Nil);
  }

  /** Documented, a number that stands for a truth value is a truth value. */
  lemma {:induction false} TruthOf(e: Expr, st: Store)
    requires CalmType(map[], e) == Some(TTruth) && Eval(Documented, e, st).Val?
    ensures Eval(Documented, e, st).value.Bool?
  {
    hide Literal, Truthy;
    TruthIsLogic(e);
  }

  lemma TruthIsLogic(e: Expr)
    requires CalmType(map[], e) == Some(TTruth)
    ensures e.And? || e.Or?
  {
  }

  /** Printing an expression without variables is lowered right exactly when the expression is a number: a
      truth value is printed as a number. */
  lemma TruthsPrinted(e: Expr, regs: map<nat, i64>)
    requires CalmType(map[], e).Some?
    ensures StaticBlock(Showing(e))
    ensures LoweredRight(Showing(e), regs) <==> IsNumber(TypeOf(map[], e).value)
  {
    hide Eval, ExecBlock, LoweredRight, Calm, TypeOf, Shown, LowerProgram;
    var t := TypeOf(map[], e).value;
    ShowingInFragment(map[], map[], e);
    assert InFragment(map[], Showing(e));
    SameValue(map[], e, EMPTY.vars, EMPTY.vars);
    var v, w := Eval(Documented, e, EMPTY.vars).value, Eval(Lowered, e, EMPTY.vars).value;
    forall fuel: nat
      ensures ExecBlock(Documented, Showing(e), EMPTY, fuel) == Done(Normal, State(EMPTY.vars, "" + Shown(Documented, v) + "\n"), [])
      ensures ExecBlock(Lowered, Showing(e), EMPTY, fuel) == Done(Normal, State(EMPTY.vars, "" + Shown(Lowered, w) + "\n"), [])
    {
      ShowingMeans(Documented, e, EMPTY, fuel);
      ShowingMeans(Lowered, e, EMPTY, fuel);
    }
    if IsNumber(t) {
      NumberShown(w, t);
      SameIsRight(map[], Showing(e), regs);
    } else {
      if t == TTruth {
        TruthOf(e, EMPTY.vars);
      }
      TruthShown(t, v, w);
      LineDiffers(Shown(Documented, v), Shown(Lowered, w));
      OtherIsWrong(map[], Showing(e), regs, 0);
    }
  }

  lemma TruthShown(t: Ty, v: Value, w: Value)
    requires !IsNumber(t) && HasTy(w, t) && AsTrue(t, v, w) && (t == TTruth ==> v.Bool?)
    ensures Shown(Documented, v) != Shown(Lowered, w)
  {
    hide Decimal;
    if w.Int? {
      TruthIsNoNumber(v.b, w.i);
    }
  }

  // ----- quotients and remainders -----

  // x = i   y = j   println, x op y
  function Dividing(op: BinOp, i: i64, j: i64): Block {
    Cons(Assign("x", IntLit(i)), Cons(Assign("y", IntLit(j)), Showing(Binary(op, Var("x"), Var("y")))))
  }

  const XY: Env := map["x" := TInt, "y" := TInt]

  lemma DividingInFragment(op: BinOp, i: i64, j: i64)
    requires op in {FloorDiv, BinOp.Mod}
    ensures InFragment(XY, Dividing(op, i, j))
  {
    var e := Binary(op, Var("x"), Var("y"));
    var env: Env := map["x" := TInt];
    assert TypeOf(XY, Var("x")) == Some(TInt) && TypeOf(XY, Var("y")) == Some(TInt);
    assert TypeOf(XY, e) == Some(TInt);
    ShowingInFragment(XY, XY, e);
    assert TypeOf(map[], IntLit(i)) == Some(TInt) && TypeOf(env, IntLit(j)) == Some(TInt);
    assert map["x" := TInt] == env && env["y" := TInt] == XY;
    var p := Dividing(op, i, j);
    assert Flow(XY, map[], p.head) == Some(env) && Flow(XY, env, p.tail.head) == Some(XY);
    assert FlowBlock(XY, env, p.tail) == Some(XY);
    assert ClosedBlock(p.tail);
  }

  lemma DividingMeans(rd: Reading, op: BinOp, i: i64, j: i64, fuel: nat)
    ensures var r := ExecBlock(rd, Dividing(op, i, j), EMPTY, fuel);
            match Operated(rd, op, false, Int(i), Int(j))
            case Ok(v) => r.Done? && r.st.out == "" + Shown(rd, v) + "\n"
            case Err(err) => r == Failed(err, "")
  {
    hide ExecBlock, Operated, Shown;
    var e := Binary(op, Var("x"), Var("y"));
    var p := Dividing(op, i, j);
    var st1 := State(EMPTY.vars["x" := Int(i)], "");
    var st2 := State(st1.vars["y" := Int(j)], "");
    assert Eval(rd, IntLit(i), EMPTY.vars) == Val(Int(i), EMPTY.vars) && Eval(rd, IntLit(j), st1.vars) == Val(Int(j), st1.vars);
    ConsMeans(rd, p.head, p.tail, EMPTY, fuel);
    ConsMeans(rd, p.tail.head, p.tail.tail, st1, fuel);
    assert Eval(rd, Var("x"), st2.vars) == Val(Int(i), st2.vars) && Eval(rd, Var("y"), st2.vars) == Val(Int(j), st2.vars);
    assert Literal(Var("x")) == None;
    assert Eval(rd, e, st2.vars) == Checked(Operated(rd, op, false, Int(i), Int(j)), st2.vars);
    ShowingMeans(rd, e, st2, fuel);
  }

  /** Dividing two variables is lowered right exactly when both machines stop at it, the dividend is not
      negative, or nothing is left over. */
  lemma DividingExact(op: BinOp, i: i64, j: i64, regs: map<nat, i64>)
    requires op in {FloorDiv, BinOp.Mod}
    ensures StaticBlock(Dividing(op, i, j))
    ensures LoweredRight(Dividing(op, i, j), regs) <==> Traps(ArithOf(op), i, j) || i >= 0 || i % j == 0
  {
    hide ExecBlock, LoweredRight, Operated, Shown, Decimal, InFragment;
    var p := Dividing(op, i, j);
    DividingInFragment(op, i, j);
    var d, l := Operated(Documented, op, false, Int(i), Int(j)), Operated(Lowered, op, false, Int(i), Int(j));
    forall fuel: nat
      ensures var r := ExecBlock(Documented, p, EMPTY, fuel);
              if d.Ok? then r.Done? && r.st.out == "" + Shown(Documented, d.value) + "\n" else r == Failed(d.error, "")
      ensures var r := ExecBlock(Lowered, p, EMPTY, fuel);
              if l.Ok? then r.Done? && r.st.out == "" + Shown(Lowered, l.value) + "\n" else r == Failed(l.error, "")
    {
      DividingMeans(Documented, op, i, j, fuel);
      DividingMeans(Lowered, op, i, j, fuel);
    }
    Quotients(op, i, j);
    if d.Ok? && d != l {
      NumbersShown(d.value.i, l.value.i);
      LineDiffers(Shown(Documented, d.value), Shown(Lowered, l.value));
      OtherIsWrong(XY, p, regs, 0);
    } else {
      if d.Ok? {
        NumbersShown(d.value.i, d.value.i);
      }
      SameIsRight(XY, p, regs);
    }
  }

  lemma Quotients(op: BinOp, i: i64, j: i64)
    requires op in {FloorDiv, BinOp.Mod}
    ensures var d, l := Operated(Documented, op, false, Int(i), Int(j)), Operated(Lowered, op, false, Int(i), Int(j));
            if Traps(ArithOf(op), i, j) then d.Err? && l.Err?
            else d.Ok? && d.value.Int? && l.Ok? && l.value.Int? && (d == l <==> i >= 0 || i % j == 0)
  {
    hide TruncDiv, TruncMod, Wrap;
    if !Traps(ArithOf(op), i, j) {
      Folding.TruncIsEuclid(i, j);
      Folding.TruncFits(i, j);
      assert Wrap(TruncDiv(i, j)) == TruncDiv(i, j) && Wrap(TruncMod(i, j)) == TruncMod(i, j);
    }
  }

  lemma NumbersShown(a: int, b: int)
    ensures Shown(Documented, Int(a)) == Shown(Lowered, Int(b)) <==> a == b
  {
    hide Decimal;
    if Decimal(a) == Decimal(b) {
      DecimalDiffers(a, b);
    }
  }

  // ----- the right operand of `and` and `or` -----

  /** `and` and `or` evaluate both operands before they look at either: they fail just where they should exactly
      if the left operand lets the right one be evaluated, or that does not fail. */
  lemma EagerExact(env: Env, e: Expr, st: Store)
    requires (e.And? || e.Or?) && CalmType(env, e.left).Some? && TypeOf(env, e.right).Some? && StoreOk(env, st)
    requires Eval(Documented, e.right, st).Fail? <==> Eval(Lowered, e.right, st).Fail?
    ensures var l := Eval(Documented, e.left, st);
            && l.Val?
            && ((Eval(Documented, e, st).Fail? <==> Eval(Lowered, e, st).Fail?)
                <==> Truthy(l.value) == e.And? || Eval(Lowered, e.right, st).Val?)
  {
    hide Calm, TypeOf, StoreOk, HasTy, AsTrue, Truthy, Joined, Literal;
    LogicFolding.AlikeSelf(env, st);
    SameValue(env, e.left, st, st);
    TypedEval(env, e.right, st);
  }

  // y != 0 and x % y == 0
  const DIVIDES: Expr := And(Binary(Ne, Var("y"), IntLit(0)), Binary(Eq, Binary(BinOp.Mod, Var("x"), Var("y")), IntLit(0)))

  // x = i   y = j   if y != 0 and x % y == 0 { println, x }
  function Guarding(i: i64, j: i64): Block {
    Cons(Assign("x", IntLit(i)), Cons(Assign("y", IntLit(j)), Cons(If(DIVIDES, Showing(Var("x")), NoElse), Nil)))
  }

  lemma GuardingInFragment(i: i64, j: i64)
    ensures InFragment(XY, Guarding(i, j))
  {
    var env: Env := map["x" := TInt];
    var p := Guarding(i, j);
    var t := p.tail.tail.head;
    GuardTyped();
    ShowingInFragment(XY, XY, Var("x"));
    assert TypeOf(map[], IntLit(i)) == Some(TInt) && TypeOf(env, IntLit(j)) == Some(TInt);
    assert map["x" := TInt] == env && env["y" := TInt] == XY;
    hide TypeOf;
    assert Flow(XY, map[], p.head) == Some(env) && Flow(XY, env, p.tail.head) == Some(XY);
    assert FlowRest(XY, XY, NoElse) == Some(XY);
    assert Join(XY, XY) == XY;
    assert Flow(XY, XY, t) == Some(XY);
    assert FlowBlock(XY, XY, Nil) == Some(XY);
    assert FlowBlock(XY, XY, p.tail.tail) == Some(XY);
    assert FlowBlock(XY, env, p.tail) == Some(XY);
    assert FlowBlock(XY, map[], p) == Some(XY);
    assert ClosedBlock(Nil) && ClosedRest(NoElse);
    assert Closed(t);
    assert ClosedBlock(p.tail.tail);
    assert ClosedBlock(p.tail);
    assert ClosedBlock(p);
  }

  lemma GuardTyped()
    ensures TypeOf(XY, DIVIDES) == Some(TBool) && TypeOf(XY, Var("x")) == Some(TInt)
  {
    assert TypeOf(XY, Var("x")) == Some(TInt) && TypeOf(XY, Var("y")) == Some(TInt) && TypeOf(XY, IntLit(0)) == Some(TInt);
    assert TypeOf(XY, Binary(BinOp.Mod, Var("x"), Var("y"))) == Some(TInt);
    assert TypeOf(XY, DIVIDES.left) == Some(TBool) && TypeOf(XY, DIVIDES.right) == Some(TBool);
  }

  /** The outcome of the test. */
  function Tested(rd: Reading, i: i64, j: i64): Option<bool> {
    if rd.Documented? && j == 0 then Some(false) else if Traps(OpMod, i, j) then None else Some(i % j == 0)
  }

  lemma GuardValue(rd: Reading, i: i64, j: i64, st: Store)
    requires !rd.Compiled? && Get(st, "x") == Int(i) && Get(st, "y") == Int(j)
    ensures var r := Eval(rd, DIVIDES, st);
            match Tested(rd, i, j)
            case Some(b) => r == Val(Bool(b), st)
            case None => r.Fail?
  {
    hide Get, Operated, Literal;
    assert Eval(rd, Var("y"), st) == Val(Int(j), st) && Eval(rd, IntLit(0), st) == Val(Int(0), st);
    assert Eval(rd, DIVIDES.left, st) == Val(Bool(j != 0), st) by { Differs(rd, j); }
    RestValue(rd, i, j, st);
  }

  lemma Differs(rd: Reading, j: int)
    ensures Operated(rd, Ne, Folded(DIVIDES.left), Int(j), Int(0)) == Ok(Bool(j != 0))
  {
    hide Literal;
  }

  lemma RestValue(rd: Reading, i: i64, j: i64, st: Store)
    requires !rd.Compiled? && Get(st, "x") == Int(i) && Get(st, "y") == Int(j)
    ensures var r := Eval(rd, DIVIDES.right, st);
            if Traps(OpMod, i, j) then r.Fail? else r == Val(Bool(i % j == 0), st)
  {
    hide Get, Operated, Literal, Traps;
    var rest := Binary(BinOp.Mod, Var("x"), Var("y"));
    assert Eval(rd, Var("x"), st) == Val(Int(i), st) && Eval(rd, Var("y"), st) == Val(Int(j), st);
    assert Eval(rd, IntLit(0), st) == Val(Int(0), st);
    NotFolded();
    assert Eval(rd, rest, st) == Checked(Operated(rd, BinOp.Mod, false, Int(i), Int(j)), st);
    RestOperated(rd, i, j);
  }

  lemma NotFolded()
    ensures !Folded(Binary(BinOp.Mod, Var("x"), Var("y")))
  {
  }

  lemma RestOperated(rd: Reading, i: i64, j: i64)
    requires !rd.Compiled?
    ensures var r := Operated(rd, BinOp.Mod, false, Int(i), Int(j));
            if Traps(OpMod, i, j) then r.Err?
            else r.Ok? && Operated(rd, Eq, Folded(DIVIDES.right), r.value, Int(0)) == Ok(Bool(i % j == 0))
  {
    hide Wrap, TruncDiv, TruncMod, Literal;
    if !Traps(OpMod, i, j) {
      RestAlike(i, j);
    }
  }

  lemma RestAlike(i: i64, j: i64)
    requires !Traps(OpMod, i, j)
    ensures Wrap(TruncMod(i, j)) == 0 <==> i % j == 0
  {
    hide TruncMod, Wrap;
    Folding.TruncFits(i, j);
    Folding.RemainderOf(i, j);
    Folding.Negated(i, j);
    assert Wrap(TruncMod(i, j)) == TruncMod(i, j);
  }

  lemma GuardingMeans(rd: Reading, i: i64, j: i64, fuel: nat)
    requires !rd.Compiled?
    ensures var r := ExecBlock(rd, Guarding(i, j), EMPTY, fuel);
            match Tested(rd, i, j)
            case Some(b) => r.Done? && r.st.out == if b then "" + Shown(rd, Int(i)) + "\n" else ""
            case None => r.Failed? && r.out == ""
  {
    hide ExecBlock, Tested, Shown, Traps;
    var p := Guarding(i, j);
    var t := p.tail.tail.head;
    var st1 := State(EMPTY.vars["x" := Int(i)], "");
    var st2 := State(st1.vars["y" := Int(j)], "");
    assert Eval(rd, IntLit(i), EMPTY.vars) == Val(Int(i), EMPTY.vars) && Eval(rd, IntLit(j), st1.vars) == Val(Int(j), st1.vars);
    ConsMeans(rd, p.head, p.tail, EMPTY, fuel);
    ConsMeans(rd, p.tail.head, p.tail.tail, st1, fuel);
    GuardValue(rd, i, j, st2.vars);
    AloneMeans(rd, t, st2, fuel);
    ShowingMeans(rd, Var("x"), st2, fuel);
    assert Eval(rd, Var("x"), st2.vars) == Val(Int(i), st2.vars);
    hide Eval;
    TestMeans(rd, t, st2, fuel);
  }

  lemma TestMeans(rd: Reading, t: Stmt, st: State, fuel: nat)
    requires t.If? && t.rest.NoElse?
    ensures var r := Eval(rd, t.cond, st.vars);
            Exec(rd, t, st, fuel)
            == if r.Fail? then Failed(r.error, st.out)
               else if Truthy(r.value) then ExecBlock(rd, t.yes, State(r.st, st.out), fuel)
               else Done(Normal, State(r.st, st.out), [])
  {
    hide ExecBlock, Eval;
  }

  /** A division guarded by its divisor is lowered right exactly if the guard lets it through: otherwise the
      processor stops at it. */
  lemma GuardingExact(i: i64, j: i64, regs: map<nat, i64>)
    ensures StaticBlock(Guarding(i, j)) && (LoweredRight(Guarding(i, j), regs) <==> j != 0)
  {
    hide ExecBlock, LoweredRight, Shown, Decimal, InFragment;
    var p := Guarding(i, j);
    GuardingInFragment(i, j);
    NumbersShown(i, i);
    forall fuel: nat
      ensures SameOutcome(ExecBlock(Documented, p, EMPTY, fuel), ExecBlock(Lowered, p, EMPTY, fuel)) <==> j != 0
      ensures !ExecBlock(Documented, p, EMPTY, fuel).OutOfFuel? && (j == 0 ==> ExecBlock(Documented, p, EMPTY, fuel).Done?)
      ensures j == 0 ==> ExecBlock(Lowered, p, EMPTY, fuel).Failed?
    {
      GuardingMeans(Documented, i, j, fuel);
      GuardingMeans(Lowered, i, j, fuel);
    }
    if j != 0 {
      SameIsRight(XY, p, regs);
    } else {
      OtherIsWrong(XY, p, regs, 0);
    }
  }
}
