/** Lowered statements do what the lowered reading of the source says: the same output, the same exit,
    and registers that hold the same variables, for runs that end and for runs that do not. */
module LoweringRuns {
  import opened Values
  import opened Ast
  import opened Source
  import opened Exits
  import opened Words
  import opened StaticIr
  import opened Lowering
  import opened LoweringExprs
  import opened LoweringStmts

  /** The register holds no variable of `w`. */
  ghost predicate Free(i: nat, s: Low, w: set<string>) {
    forall x :: x in w && x in s.locals ==> s.locals[x].reg != i
  }

  /** Only the registers of the variables `w`, and registers not yet taken, have changed. */
  ghost predicate Spares(r: map<nat, i64>, r': map<nat, i64>, s: Low, w: set<string>) {
    forall i: nat :: i < s.nextReg && Free(i, s, w) ==> RegValue(r', i) == RegValue(r, i)
  }

  lemma SparesTrans(r: map<nat, i64>, r1: map<nat, i64>, r2: map<nat, i64>, s: Low, s1: Low, w: set<string>,
        w1: set<string>)
    requires Spares(r, r1, s, w) && Spares(r1, r2, s1, w1) && Grows(s, s1)
    ensures Spares(r, r2, s, w + w1)
  {
    forall i: nat | i < s.nextReg && Free(i, s, w + w1) ensures RegValue(r2, i) == RegValue(r, i) {
      assert Free(i, s, w) && Free(i, s1, w1);
    }
  }

  lemma KeptSpares(r: map<nat, i64>, r': map<nat, i64>, s: Low)
    requires Kept(r, r', s.nextReg)
    ensures Spares(r, r', s, {})
  {
  }

  lemma SparesMore(r: map<nat, i64>, r': map<nat, i64>, s: Low, w: set<string>, w': set<string>)
    requires Spares(r, r', s, w) && w <= w'
    ensures Spares(r, r', s, w')
  {
    forall i: nat | i < s.nextReg && Free(i, s, w') ensures RegValue(r', i) == RegValue(r, i) {
      assert Free(i, s, w);
    }
  }

  /** What is known before and after a statement: the assigned variables, the compiler's states,
      the variables it may change, where it ends, and the loop around it. */
  datatype Frame = Frame(env: Env, env': Env, s: Low, s': Low, w: set<string>, end: nat, lp: Loops)

  function PcOf(body: seq<Insn>, l: nat): nat {
    match Find(body, l)
    case Some(k) => k
    case None => 0
  }

  function ExitPc(exit: Exit, f: Frame, body: seq<Insn>): nat {
    match exit
    case Normal => f.end
    case Broke => if f.lp.InLoop? then PcOf(body, f.lp.brk) else 0
    case Continued => if f.lp.InLoop? then PcOf(body, f.lp.cont) else 0
  }

  /** A run that fails is stopped at a division, with the output so far. */
  ghost predicate Executes(body: seq<Insn>, c: IrConfig, r: ExecResult, f: Frame, fuel: nat, n: nat, c': IrConfig) {
    match r
    case Done(exit, st, _) =>
      && Reaches(body, c, n, c') && c'.pc == ExitPc(exit, f, body) && c'.out == st.out
      && Holds(if exit.Normal? then f.env' else f.env, st.vars, f.s', c'.regs)
      && Spares(c.regs, c'.regs, f.s, f.w)
    case Failed(_, out) => Run(body, Going(c), n) == Trapped(out)
    case OutOfFuel(out) => Reaches(body, c, n, c') && c'.out == out && n >= fuel
  }

  lemma Stops(body: seq<Insn>, c: IrConfig, r: ExecResult, f: Frame, fuel: nat, n: nat, c': IrConfig)
    requires r.Failed? && Run(body, Going(c), n) == Trapped(r.out)
    ensures Executes(body, c, r, f, fuel, n, c')
  {
  }

  lemma HoldsGrow(env: Env, st: Store, s: Low, s': Low, regs: map<nat, i64>)
    requires Holds(env, st, s, regs) && Grows(s, s')
    ensures Holds(env, st, s', regs)
  {
  }

  lemma HoldsBack(env: Env, st: Store, s: Low, s': Low, regs: map<nat, i64>)
    requires Holds(env, st, s', regs) && Grows(s, s') && Covers(env, s)
    ensures Holds(env, st, s, regs)
  {
  }

  lemma HoldsLess(env: Env, env': Env, st: Store, s: Low, regs: map<nat, i64>)
    requires Holds(env', st, s, regs) && Within(env, env')
    ensures Holds(env, st, s, regs)
  {
  }

  /** A run before, and a looser frame around. */
  lemma Wrapped(body: seq<Insn>, c: IrConfig, n: nat, c1: IrConfig, r: ExecResult, f1: Frame, fuel1: nat, m: nat,
        c2: IrConfig,
                f: Frame, w0: set<string>, fuel: nat)
    returns (k: nat)
    requires Reaches(body, c, n, c1) && Spares(c.regs, c1.regs, f.s, w0)
    requires Executes(body, c1, r, f1, fuel1, m, c2) && fuel <= n + fuel1
    requires Grows(f.s, f1.s) && Grows(f1.s', f.s') && w0 + f1.w <= f.w && f.lp == f1.lp
    requires Within(f.env, f1.env)
    requires r.Done? && r.exit.Normal? ==> f.end == f1.end && Within(f.env', f1.env')
    ensures k == n + m && Executes(body, c, r, f, fuel, k, c2)
  {
    hide Run, Reaches, Spares, Holds, Grows, Within;
    k := n + m;
    Follow2(body, c, n, c1, m, c2, r, f1, fuel1);
    if r.Done? {
      SparesTrans(c.regs, c1.regs, c2.regs, f.s, f1.s, w0, f1.w);
      SparesMore(c.regs, c2.regs, f.s, w0 + f1.w, f.w);
      var e, e1 := if r.exit.Normal? then f.env' else f.env, if r.exit.Normal? then f1.env' else f1.env;
      HoldsGrow(e1, r.st.vars, f1.s', f.s', c2.regs);
      HoldsLess(e, e1, r.st.vars, f.s', c2.regs);
    }
  }

  /** One more step after a normal end, changing no register. */
  lemma OneMore(body: seq<Insn>, c: IrConfig, r: ExecResult, f: Frame, fuel: nat, n: nat, c1: IrConfig, i: Insn,
        end': nat)
    returns (m: nat, c2: IrConfig)
    requires Executes(body, c, r, f, fuel, n, c1)
    requires f.end < |body| && body[f.end] == i
    requires (i.Label? && end' == f.end + 1) || (i.Jump? && Find(body, i.target) == Some(end'))
    ensures Executes(body, c, r, f.(end := end'), fuel, m, c2)
  {
    hide Reaches, Spares, Holds, Find, Run;
    m, c2 := n, c1;
    if r.Done? && r.exit.Normal? {
      m, c2 := Hop(body, c, n, c1, i);
    }
  }

  ghost predicate LoopOk(lp: Loops, body: seq<Insn>) {
    lp.InLoop? ==> Find(body, lp.cont).Some? && Find(body, lp.brk).Some?
  }

  ghost predicate Matched(env: Env, s: Low, st: State, body: seq<Insn>, c: IrConfig, lp: Loops) {
    Holds(env, st.vars, s, c.regs) && c.out == st.out && Distinct(body) && LoopOk(lp, body)
  }

  ghost predicate StmtStarts(g: Env, env: Env, t: Stmt, lp: Loops, s: Low, st: State, body: seq<Insn>, c: IrConfig) {
    && StmtReady(g, env, t, s) && Matched(env, s, st, body, c, lp)
    && Has(body, c.pc, LowerStmt(t, lp, s).code) && (lp.NoLoop? ==> Closed(t))
  }

  function StmtFrame(g: Env, env: Env, t: Stmt, lp: Loops, s: Low, at: nat): Frame
    requires Flow(g, env, t).Some?
  {
    var r := LowerStmt(t, lp, s);
    Frame(env, Flow(g, env, t).value, s, r.s, Written(t), at + |r.code|, lp)
  }

  ghost predicate BlockStarts(g: Env, env: Env, b: Block, lp: Loops, s: Low, st: State, body: seq<Insn>, c: IrConfig) {
    && BlockReady(g, env, b, s) && Matched(env, s, st, body, c, lp)
    && Has(body, c.pc, LowerBlock(b, lp, s).code) && (lp.NoLoop? ==> ClosedBlock(b))
  }

  function BlockFrame(g: Env, env: Env, b: Block, lp: Loops, s: Low, at: nat): Frame
    requires FlowBlock(g, env, b).Some?
  {
    var r := LowerBlock(b, lp, s);
    Frame(env, FlowBlock(g, env, b).value, s, r.s, WrittenBlock(b), at + |r.code|, lp)
  }

  ghost predicate RestStarts(g: Env, env: Env, r: Rest, end: nat, lp: Loops, s: Low, st: State, body: seq<Insn>,
        c: IrConfig) {
    && RestReady(g, env, r, s) && Matched(env, s, st, body, c, lp)
    && Has(body, c.pc, LowerRest(r, end, lp, s).code) && (lp.NoLoop? ==> ClosedRest(r))
    && Find(body, end) == Some(c.pc + |LowerRest(r, end, lp, s).code|)
  }

  function RestFrame(g: Env, env: Env, r: Rest, end: nat, lp: Loops, s: Low, at: nat): Frame
    requires FlowRest(g, env, r).Some?
  {
    var x := LowerRest(r, end, lp, s);
    Frame(env, FlowRest(g, env, r).value, s, x.s, WrittenRest(r), at + |x.code|, lp)
  }

  lemma {:induction false} StmtLowered(g: Env, env: Env, t: Stmt, lp: Loops, s: Low, st: State, fuel: nat,
        body: seq<Insn>, c: IrConfig)
    returns (n: nat, c': IrConfig)
    requires StmtStarts(g, env, t, lp, s, st, body, c)
    ensures Executes(body, c, Exec(Lowered, t, st, fuel), StmtFrame(g, env, t, lp, s, c.pc), fuel, n, c')
    decreases fuel, t, 3, 0
  {
    hide *;
    assert Flow(g, env, t).Some? by { StartsFlow(g, env, t, lp, s, st, body, c); }
    match t
    case Assign(_, _) => n, c' := AssignLowered(g, env, t, lp, s, st, fuel, body, c);
    case Compound(_, _, _) => n, c' := CompoundLowered(g, env, t, lp, s, st, fuel, body, c);
    case ExprStmt(_) => n, c' := ExprStmtLowered(g, env, t, lp, s, st, fuel, body, c);
    case Println(_) => n, c' := PrintlnLowered(g, env, t, lp, s, st, fuel, body, c);
    case If(_, _, _) => n, c' := IfLowered(g, env, t, lp, s, st, fuel, body, c);
    case While(_, _) => n, c' := WhileLowered(g, env, t, lp, s, st, fuel, body, c);
    case Loop(_) => n, c' := WhileLowered(g, env, t, lp, s, st, fuel, body, c);
    case ForRange(_, _, _, _, _) => n, c' := RangeLowered(g, env, t, lp, s, st, fuel, body, c);
    case Break => n, c' := ExitLowered(g, env, t, lp, s, st, fuel, body, c);
    case Continue => n, c' := ExitLowered(g, env, t, lp, s, st, fuel, body, c);
    case Scope(_) => n, c' := ScopeLowered(g, env, t, lp, s, st, fuel, body, c);
    case _ => NotInFragment(g, env, t);
  }

  lemma StartsFlow(g: Env, env: Env, t: Stmt, lp: Loops, s: Low, st: State, body: seq<Insn>, c: IrConfig)
    requires StmtStarts(g, env, t, lp, s, st, body, c)
    ensures Flow(g, env, t).Some?
  {
  }

  lemma NotInFragment(g: Env, env: Env, t: Stmt)
    requires t.Delete? || t.IndexAssign? || t.Paste? || t.ForIn?
    ensures Flow(g, env, t).None?
  {
  }

  /** A typed expression yields a value of its type or fails, and changes nothing. */
  lemma TypedValue(g: Env, env: Env, e: Expr, s: Low, st: Store, regs: map<nat, i64>)
    requires TypeOf(env, e).Some? && Holds(env, st, s, regs) && Within(env, g) && StateOk(g, s)
    ensures var r := Eval(Lowered, e, st); r.Val? ==> r.st == st && HasTy(r.value, TypeOf(env, e).value)
    ensures LowOk(s) && Grows(s, s) && HintsFit(env, s) && Covers(env, s) && StoreOk(env, st)
  {
    hide Eval, TypeOf, HintFits;
    TypedEval(env, e, st);
    HintsWithin(g, env, s);
  }

  // ----- assignments -----

  lemma StoreStep(g: Env, x: string, o: Operand, s: Low, v: Value, body: seq<Insn>, c: IrConfig)
    requires StateOk(g, s) && x in g && HasTy(v, g[x]) && OpValue(o, c.regs) == Enc(v) && HintFits(HintOf(o), g[x])
    ensures var r := StoreTo(x, o, s);
            && |r.code| == 1 && x in r.s.locals
            && StepInsn(body, r.code[0], c) == Going(c.(pc := c.pc + 1, regs := c.regs[r.s.locals[x].reg := Enc(v)]))
  {
    hide OpValue;
  }

  lemma AssignHolds(g: Env, env: Env, st: Store, s: Low, s1: Low, regs: map<nat, i64>, x: string, ty: Ty, v: Value)
    requires Holds(env, st, s, regs) && Grows(s, s1) && StateOk(g, s1) && x in s1.locals && HasTy(v, ty)
    ensures Holds(env[x := ty], st[x := v], s1, regs[s1.locals[x].reg := Enc(v)])
    ensures Spares(regs, regs[s1.locals[x].reg := Enc(v)], s, {x})
  {
    assert x in {x};
  }

  lemma AssignLowered(g: Env, env: Env, t: Stmt, lp: Loops, s: Low, st: State, fuel: nat, body: seq<Insn>, c: IrConfig)
    returns (n: nat, c': IrConfig)
    requires t.Assign? && StmtStarts(g, env, t, lp, s, st, body, c)
    ensures Executes(body, c, Exec(Lowered, t, st, fuel), StmtFrame(g, env, t, lp, s, c.pc), fuel, n, c')
  {
    hide Run, Has, Distinct, LowerExpr, TypeOf, StaticExpr, Eval, Kept, Enc, Find, HasTy, StoreTo,
      StateOk, Grows, Spares, StoreOk, HintFits, HintOf, HintsFit, Storable;
    var x, e := t.name, t.e;
    var a := LowerExpr(e, s);
    var b := StoreTo(x, a.value, a.s);
    HasSplit(body, c.pc, a.code, b.code);
    TypedValue(g, env, e, s, st.vars, c.regs);
    n, c' := ExprLowered(e, s, env, st.vars, body, c);
    var r := Eval(Lowered, e, st.vars);
    if r.Val? {
      ExprGrows(g, e, s);
      StoreFits(g, env, x, e, s, r.value);
      StoreState(g, env, x, e, s);
      var c1 := c';
      HoldsKept(env, st.vars, s, a.s, c.regs, c1.regs);
      var m, c2 := StoreRuns(g, env, x, a.value, a.s, r.value, st.vars, body, c1);
      Follow(body, c, n, c1, m, c2);
      n, c' := n + m, c2;
      KeptSpares(c.regs, c1.regs, s);
      SparesTrans(c.regs, c1.regs, c2.regs, s, a.s, {}, {x});
      assert {} + {x} == {x};
    }
  }

  /** What is stored fits the type of the variable. */
  lemma StoreFits(g: Env, env: Env, x: string, e: Expr, s: Low, v: Value)
    requires TypeOf(env, e).Some? && Within(env, g) && StateOk(g, s) && Covers(env, s) && x in g
    requires Storable(TypeOf(env, e).value, g[x]) && HasTy(v, TypeOf(env, e).value)
    ensures g[x] != TTruth && HasTy(v, g[x]) && HintFits(HintOf(LowerExpr(e, s).value), g[x])
  {
    hide LowerExpr, TypeOf, HintFits;
    OperandHint(g, env, e, s);
    StoredHint(HintOf(LowerExpr(e, s).value), TypeOf(env, e).value, g[x]);
  }

  lemma StoreRuns(g: Env, env: Env, x: string, o: Operand, s: Low, v: Value, st: Store, body: seq<Insn>, c: IrConfig)
    returns (n: nat, c': IrConfig)
    requires StateOk(g, s) && x in g && g[x] != TTruth && HasTy(v, g[x]) && OpValue(o, c.regs) == Enc(v)
    requires HintFits(HintOf(o), g[x]) && Holds(env, st, s, c.regs) && Has(body, c.pc, StoreTo(x, o, s).code)
    ensures var b := StoreTo(x, o, s);
            && Reaches(body, c, n, c') && c'.pc == c.pc + |b.code| && c'.out == c.out
            && Holds(env[x := g[x]], st[x := v], b.s, c'.regs) && Spares(c.regs, c'.regs, s, {x})
  {
    hide Run, Has, Enc, HasTy, StoreTo, StateOk, Grows, Spares, OpValue, Reaches, StepInsn, Holds, HintFits, HintOf;
    var b := StoreTo(x, o, s);
    StoredState(g, x, o, s);
    StoreStep(g, x, o, s, v, body, c);
    AssignHolds(g, env, st, s, b.s, c.regs, x, g[x], v);
    HasAt(body, c.pc, b.code, 0);
    Start(body, c);
    n, c' := Hop(body, c, 0, c, b.code[0]);
  }

  lemma StoredState(g: Env, x: string, o: Operand, s: Low)
    requires StateOk(g, s) && x in g && g[x] != TTruth && HintFits(HintOf(o), g[x])
    ensures var b := StoreTo(x, o, s); Grows(s, b.s) && StateOk(g, b.s) && x in b.s.locals
  {
    hide HintOf, HintFits;
  }

  lemma StateParts(g: Env, s: Low)
    requires StateOk(g, s)
    ensures LowOk(s) && Grows(s, s)
  {
  }

  lemma GrowsSelf(s: Low)
    ensures Grows(s, s)
  {
  }

  /** The operands of an update: numbers, and a divisor that is not zero or a variable that is known. */
  ghost predicate UpdateFits(op: BinOp, old': Operand, o: Operand, u: Value, v: Value) {
    op in {Add, Sub, Mul, FloorDiv, BinOp.Mod} && OperandsFit(op, old', o, u, v) && HintOf(old') != Boolean && HintOf(o) != Boolean
  }

  lemma UpdateKnown(g: Env, env: Env, x: string, op: BinOp, e: Expr, s: Low, st: Store)
    requires Updates(env, x, op, e) && Within(env, g) && StateOk(g, s) && Covers(env, s) && StoreOk(env, st)
    requires Eval(Lowered, e, st).Val?
    ensures UpdateFits(op, OldValue(x, s), LowerExpr(e, s).value, Get(st, x), Eval(Lowered, e, st).value)
  {
    hide LowerExpr, TypeOf, Eval, Literal;
    TypedEval(env, e, st);
    OperandHint(g, env, e, s);
    if Literal(e).Some? {
      LiteralEval(e, env, st);
    }
  }

  lemma UpdateRuns(x: string, op: BinOp, o: Operand, s: Low, u: Value, v: Value, body: seq<Insn>, c: IrConfig)
    returns (n: nat, c': IrConfig)
    requires x in s.locals && UpdateFits(op, OldValue(x, s), o, u, v)
    requires OpValue(OldValue(x, s), c.regs) == Enc(u) && OpValue(o, c.regs) == Enc(v)
    requires Has(body, c.pc, Update(x, op, o, OldValue(x, s), s).code)
    ensures match Operated(Lowered, op, false, u, v)
            case Ok(w) =>
              && HasTy(w, TInt) && Reaches(body, c, n, c')
              && c' == IrConfig(c.pc + 2, c.regs[s.nextReg := Enc(w)][s.locals[x].reg := Enc(w)], c.out)
            case Err(_) => Run(body, Going(c), n) == Trapped(c.out)
  {
    hide Run, Has, Operated, Reaches, OldValue, OpValue, Enc, HasTy, Update, StepInsn, UpdateFits;
    var code := Update(x, op, o, OldValue(x, s), s).code;
    UpdateSteps(x, op, o, s, u, v, body, c);
    HasAt(body, c.pc, code, 0);
    HasAt(body, c.pc, code, 1);
    Start(body, c);
    n, c' := 1, c;
    if Operated(Lowered, op, false, u, v).Ok? {
      n, c' := Hop(body, c, 0, c, code[0]);
      n, c' := Hop(body, c, n, c', code[1]);
    } else {
      LastHop(body, c, 0, c, code[0]);
    }
  }

  /** The operation leaves its result in a new register, and the result is moved to the variable's. */
  ghost predicate UpdateStepped(body: seq<Insn>, code: seq<Insn>, c: IrConfig, dst: nat, reg: nat, r: Result<Value>) {
    && |code| == 2
    && match r
       case Ok(w) =>
         && HasTy(w, TInt)
         && var regs := c.regs[dst := Enc(w)];
            && StepInsn(body, code[0], c) == Going(IrConfig(c.pc + 1, regs, c.out))
            && StepInsn(body, code[1], IrConfig(c.pc + 1, regs, c.out)) == Going(IrConfig(c.pc + 2, regs[reg := Enc(w)], c.out))
       case Err(_) => StepInsn(body, code[0], c) == Trapped(c.out)
  }

  lemma UpdateSteps(x: string, op: BinOp, o: Operand, s: Low, u: Value, v: Value, body: seq<Insn>, c: IrConfig)
    requires x in s.locals && UpdateFits(op, OldValue(x, s), o, u, v)
    requires OpValue(OldValue(x, s), c.regs) == Enc(u) && OpValue(o, c.regs) == Enc(v)
    ensures UpdateStepped(body, Update(x, op, o, OldValue(x, s), s).code, c, s.nextReg, s.locals[x].reg,
                          Operated(Lowered, op, false, u, v))
  {
    hide Arith, Traps, Operated, OpValue, OperandsFit, Fold;
    OperationMeans(op, OldValue(x, s), o, u, v);
    OperatedInt(op, OldValue(x, s), o, u, v);
    var code := Update(x, op, o, OldValue(x, s), s).code;
    if Operated(Lowered, op, false, u, v).Ok? {
      ReadBack(code[1].src, c.regs[s.nextReg := Enc(Operated(Lowered, op, false, u, v).value)]);
    }
  }

  lemma OperatedInt(op: BinOp, x: Operand, y: Operand, u: Value, v: Value)
    requires UpdateFits(op, x, y, u, v)
    ensures var r := Operated(Lowered, op, false, u, v); r.Ok? ==> HasTy(r.value, TInt)
  {
    hide Wrap, TruncDiv, TruncMod;
  }

  lemma ReadBack(o: Operand, regs: map<nat, i64>)
    requires o.Reg?
    ensures OpValue(o, regs) == RegValue(regs, o.n)
  {
  }

  lemma CompoundLowered(g: Env, env: Env, t: Stmt, lp: Loops, s: Low, st: State, fuel: nat, body: seq<Insn>,
        c: IrConfig)
    returns (n: nat, c': IrConfig)
    requires t.Compound? && StmtStarts(g, env, t, lp, s, st, body, c)
    ensures Executes(body, c, Exec(Lowered, t, st, fuel), StmtFrame(g, env, t, lp, s, c.pc), fuel, n, c')
  {
    hide Run, Has, Distinct, LowerExpr, TypeOf, StaticExpr, Eval, Kept, Enc, Find, HasTy, Update, StateOk,
      Grows, Spares, StoreOk, Operated, Reaches, OldValue, HintsFit, Holds, Updates, UpdateFits;
    var x, e, op := t.name, t.e, t.op;
    var a := LowerExpr(e, s);
    UpdatesTyped(env, x, op, e);
    TypedValue(g, env, e, s, st.vars, c.regs);
    HasSplit(body, c.pc, a.code, Update(x, op, a.value, OldValue(x, s), a.s).code);
    n, c' := ExprLowered(e, s, env, st.vars, body, c);
    if Eval(Lowered, e, st.vars).Val? {
      n, c' := UpdateLowered(g, env, t, lp, s, st, fuel, body, c, n, c');
    }
  }

  lemma UpdatesTyped(env: Env, x: string, op: BinOp, e: Expr)
    requires Updates(env, x, op, e)
    ensures x in env && TypeOf(env, e).Some? && IsNumber(env[x])
  {
    hide TypeOf, Literal;
  }

  /** After the operand. */
  lemma UpdateLowered(g: Env, env: Env, t: Stmt, lp: Loops, s: Low, st: State, fuel: nat, body: seq<Insn>,
        c: IrConfig, n: nat, c1: IrConfig)
    returns (k: nat, c': IrConfig)
    requires t.Compound? && StmtStarts(g, env, t, lp, s, st, body, c) && Eval(Lowered, t.e, st.vars).Val?
    requires TypeOf(env, t.e).Some? && ExprDone(t.e, s, st.vars, body, c, n, c1)
    requires var a := LowerExpr(t.e, s); Has(body, c1.pc, Update(t.name, t.op, a.value, OldValue(t.name, s), a.s).code)
    ensures Executes(body, c, Exec(Lowered, t, st, fuel), StmtFrame(g, env, t, lp, s, c.pc), fuel, k, c')
  {
    hide Run, Has, Distinct, LowerExpr, TypeOf, StaticExpr, Eval, Kept, Enc, Find, HasTy, Update, StateOk,
      Grows, Spares, StoreOk, Operated, Reaches, OldValue, HintsFit, Holds, Updates, UpdateFits;
    var x, e, op := t.name, t.e, t.op;
    var a := LowerExpr(e, s);
    UpdatesTyped(env, x, op, e);
    TypedValue(g, env, e, s, st.vars, c.regs);
    ExprGrows(g, e, s);
    SameOld(x, s, a.s);
    var b := Update(x, op, a.value, OldValue(x, a.s), a.s);
    var u, v := Get(st.vars, x), Eval(Lowered, e, st.vars).value;
    UpdateState(g, env, x, op, e, s);
    UpdateKnown(g, env, x, op, e, s, st.vars);
    KeptSpares(c.regs, c1.regs, s);
    HoldsKept(env, st.vars, s, a.s, c.regs, c1.regs);
    OldHolds(env, st.vars, a.s, c1.regs, x);
    k, c' := UpdateRuns(x, op, a.value, a.s, u, v, body, c1);
    Then(body, c, n, c1, k);
    var r := Operated(Lowered, op, false, u, v);
    if r.Ok? {
      Follow(body, c, n, c1, k, c');
      IntRange(r.value);
      UpdateLocal(x, op, a.value, a.s);
      Updated(g, env, st.vars, s, a.s, b.s, c.regs, c1.regs, x, r.value);
    }
    k := n + k;
  }

  lemma SameOld(x: string, s: Low, s': Low)
    requires Extends(s, s')
    ensures OldValue(x, s') == OldValue(x, s)
  {
  }

  lemma OldHolds(env: Env, st: Store, s: Low, regs: map<nat, i64>, x: string)
    requires Holds(env, st, s, regs) && x in env
    ensures OpValue(OldValue(x, s), regs) == Enc(Get(st, x)) && x in s.locals && x in st
  {
  }

  /** The result is in the variable's register, and in one that is nobody's. */
  lemma Updated(g: Env, env: Env, st: Store, s: Low, s1: Low, s2: Low, r: map<nat, i64>, r1: map<nat, i64>, x: string,
                w: Value)
    requires Holds(env, st, s1, r1) && Kept(r, r1, s.nextReg) && Grows(s, s1) && Grows(s, s2) && StateOk(g, s) && StateOk(g, s2)
    requires x in env && IsNumber(env[x]) && HasTy(w, TInt) && x in s.locals && Covers(env, s)
    ensures x in s2.locals && Holds(env, st[x := w], s2, r1[s1.nextReg := Enc(w)][s2.locals[x].reg := Enc(w)])
    ensures Spares(r, r1[s1.nextReg := Enc(w)][s2.locals[x].reg := Enc(w)], s, {x})
  {
    hide Kept, Grows, StateOk, Spares, Enc, HasTy, Covers;
    IntRange(w);
    var regs := r1[s1.nextReg := Enc(w)];
    assert Grows(s, s1) && s.nextReg <= s1.nextReg by { NextAbove(s, s1); }
    assert Kept(r1, regs, s.nextReg) by { KeptPut(r1, s1.nextReg, Enc(w)); KeptFewer(r1, regs, s1.nextReg, s.nextReg); }
    StateParts(g, s);
    HoldsBack(env, st, s, s1, r1);
    SameExtends(s);
    HoldsKept(env, st, s, s, r1, regs);
    LocalStays(s, s2, x);
    AnyNumber(w, env[x]);
    AssignHolds(g, env, st, s, s2, regs, x, env[x], w);
    assert env[x := env[x]] == env;
    KeptTrans(r, r1, regs, s.nextReg, s.nextReg);
    KeptSpares(r, regs, s);
    SparesTrans(r, regs, regs[s2.locals[x].reg := Enc(w)], s, s, {}, {x});
    assert {} + {x} == {x};
  }

  lemma KeptFewer(r: map<nat, i64>, r': map<nat, i64>, k: nat, j: nat)
    requires Kept(r, r', k) && j <= k
    ensures Kept(r, r', j)
  {
  }

  lemma LocalStays(s: Low, s': Low, x: string)
    requires Grows(s, s') && x in s.locals
    ensures x in s'.locals
  {
  }

  lemma AnyNumber(v: Value, t: Ty)
    requires HasTy(v, TInt) && IsNumber(t)
    ensures HasTy(v, t)
  {
  }

  lemma UpdateLocal(x: string, op: BinOp, v: Operand, s: Low)
    requires x in s.locals
    ensures var b := Update(x, op, v, OldValue(x, s), s); x in b.s.locals && b.s.locals[x].reg == s.locals[x].reg && |b.code| == 2
  {
  }

  lemma KeptPut(regs: map<nat, i64>, r: nat, v: i64)
    ensures Kept(regs, regs[r := v], r)
  {
  }

  lemma ExprStmtLowered(g: Env, env: Env, t: Stmt, lp: Loops, s: Low, st: State, fuel: nat, body: seq<Insn>,
        c: IrConfig)
    returns (n: nat, c': IrConfig)
    requires t.ExprStmt? && StmtStarts(g, env, t, lp, s, st, body, c)
    ensures Executes(body, c, Exec(Lowered, t, st, fuel), StmtFrame(g, env, t, lp, s, c.pc), fuel, n, c')
  {
    hide Run, Has, Distinct, LowerExpr, TypeOf, StaticExpr, Eval, Kept, Enc, Find, HasTy, StateOk, Grows,
      Spares, StoreOk, HintsFit;
    TypedValue(g, env, t.e, s, st.vars, c.regs);
    n, c' := ExprLowered(t.e, s, env, st.vars, body, c);
    if Eval(Lowered, t.e, st.vars).Val? {
      ExprGrows(g, t.e, s);
      KeptSpares(c.regs, c'.regs, s);
      HoldsKept(env, st.vars, s, LowerExpr(t.e, s).s, c.regs, c'.regs);
    }
  }

  // ----- printing -----

  /** What has been printed when all is printed or when an argument fails. */
  ghost predicate Printed(body: seq<Insn>, c: IrConfig, r: ExecResult, st: State, len: nat, k: nat, n: nat, c': IrConfig) {
    match r
    case Done(exit, st1, leaks) =>
      && exit == Normal && leaks == [] && st1.vars == st.vars && Reaches(body, c, n, c') && c'.pc == c.pc + len
      && c'.out == st1.out + "\n" && Kept(c.regs, c'.regs, k)
    case Failed(_, out) => Run(body, Going(c), n) == Trapped(out)
    case OutOfFuel(_) => false
  }

  lemma {:induction false} PrintLowered(g: Env, env: Env, es: Vec<Expr>, s: Low, st: State, body: seq<Insn>,
        c: IrConfig)
    returns (n: nat, c': IrConfig)
    requires es.Cons? && AllTyped(env, es) && Within(env, g) && StateOk(g, s) && Holds(env, st.vars, s, c.regs) && c.out == st.out
    requires Distinct(body) && Has(body, c.pc, LowerPrint(es, s).code)
    ensures Printed(body, c, Print(Lowered, es, st), st, |LowerPrint(es, s).code|, s.nextReg, n, c')
    decreases es
  {
    hide Run, Has, Distinct, LowerExpr, TypeOf, StaticExpr, Eval, Kept, Enc, Find, HasTy, StateOk, Grows,
      StoreOk, Reaches, HintsFit;
    var e := es.head;
    var a := LowerExpr(e, s);
    var i := Call(None, if es.tail.Nil? then PrintlnValue else PrintValue, [a.value]);
    var b := LowerPrint(es.tail, a.s);
    HasSplit(body, c.pc, a.code + [i], b.code);
    HasSplit(body, c.pc, a.code, [i]);
    TypedValue(g, env, e, s, st.vars, c.regs);
    n, c' := ExprLowered(e, s, env, st.vars, body, c);
    var r := Eval(Lowered, e, st.vars);
    if r.Val? {
      ExprGrows(g, e, s);
      var v, c1 := r.value, c';
      HoldsKept(env, st.vars, s, a.s, c.regs, c1.regs);
      HasAt(body, c1.pc, [i], 0);
      IntOrBool(v, TypeOf(env, e).value);
      PrintStep(a.value, v, es.tail.Nil?, body, c1);
      n, c' := Hop(body, c, n, c1, i);
      if es.tail.Cons? {
        var c2, st1 := c', State(st.vars, st.out + Shown(Lowered, v));
        var m, c3 := PrintLowered(g, env, es.tail, a.s, st1, body, c2);
        Then(body, c, n, c2, m);
        if Print(Lowered, es.tail, st1).Done? {
          n := Seq(body, c, n, c2, m, c3, s.nextReg, a.s.nextReg);
        } else {
          n := n + m;
        }
        c' := c3;
      } else {
        assert b.code == [];
      }
    }
  }

  lemma IntOrBool(v: Value, t: Ty)
    requires HasTy(v, t)
    ensures v.Int? || v.Bool?
  {
  }

  lemma PrintStep(o: Operand, v: Value, last: bool, body: seq<Insn>, c: IrConfig)
    requires OpValue(o, c.regs) == Enc(v) && (v.Int? || v.Bool?)
    ensures StepInsn(body, Call(None, if last then PrintlnValue else PrintValue, [o]), c)
         == Going(c.(pc := c.pc + 1, out := c.out + Shown(Lowered, v) + if last then "\n" else ""))
  {
    hide OpValue, Decimal;
    assert OpValues([o], c.regs) == [OpValue(o, c.regs)];
    ShownDecimal(v);
    assert c.out + (Shown(Lowered, v) + "\n") == c.out + Shown(Lowered, v) + "\n";
    assert c.out + Shown(Lowered, v) + "" == c.out + Shown(Lowered, v);
  }

  /** What is printed is the number in the register. */
  lemma ShownDecimal(v: Value)
    requires v.Int? || v.Bool?
    ensures Shown(Lowered, v) == Decimal(Enc(v))
  {
  }

  lemma PrintlnLowered(g: Env, env: Env, t: Stmt, lp: Loops, s: Low, st: State, fuel: nat, body: seq<Insn>, c: IrConfig)
    returns (n: nat, c': IrConfig)
    requires t.Println? && StmtStarts(g, env, t, lp, s, st, body, c)
    ensures Executes(body, c, Exec(Lowered, t, st, fuel), StmtFrame(g, env, t, lp, s, c.pc), fuel, n, c')
  {
    hide Run, Has, Distinct, LowerPrint, Kept, Find, StateOk, Spares, StoreOk, Print, AllTyped, Reaches, StaticExprs;
    n, c' := PrintLowered(g, env, t.args, s, st, body, c);
    if Print(Lowered, t.args, st).Done? {
      PrintState(g, env, t.args, s);
      KeptSpares(c.regs, c'.regs, s);
      StateParts(g, s);
      HoldsKept(env, st.vars, s, s, c.regs, c'.regs);
      HoldsGrow(env, st.vars, s, LowerPrint(t.args, s).s, c'.regs);
    }
  }

  // ----- exits and sequences -----

  lemma ExitLowered(g: Env, env: Env, t: Stmt, lp: Loops, s: Low, st: State, fuel: nat, body: seq<Insn>, c: IrConfig)
    returns (n: nat, c': IrConfig)
    requires (t.Break? || t.Continue?) && StmtStarts(g, env, t, lp, s, st, body, c)
    ensures Executes(body, c, Exec(Lowered, t, st, fuel), StmtFrame(g, env, t, lp, s, c.pc), fuel, n, c')
  {
    hide Run, Has, Distinct, Find, Holds, Reaches;
    var i := Jump(if t.Break? then lp.brk else lp.cont);
    HasAt(body, c.pc, [i], 0);
    Start(body, c);
    n, c' := Hop(body, c, 0, c, i);
  }

  lemma {:induction false} ScopeLowered(g: Env, env: Env, t: Stmt, lp: Loops, s: Low, st: State, fuel: nat,
        body: seq<Insn>, c: IrConfig)
    returns (n: nat, c': IrConfig)
    requires t.Scope? && StmtStarts(g, env, t, lp, s, st, body, c)
    ensures Executes(body, c, Exec(Lowered, t, st, fuel), StmtFrame(g, env, t, lp, s, c.pc), fuel, n, c')
    decreases fuel, t, 2, 0
  {
    hide Run, Has, Distinct, LowerBlock, FlowBlock, StaticBlock, WrittenBlock, StateOk, Grows, Spares, Executes,
      Reaches, Find;
    var b := LowerBlock(t.body, lp, s);
    HasSplit(body, c.pc, [Comment], b.code);
    HasAt(body, c.pc, [Comment], 0);
    Start(body, c);
    var c1;
    n, c1 := Hop(body, c, 0, c, Comment);
    var m, c2 := BlockLowered(g, env, t.body, lp, s, st, fuel, body, c1);
    var f1 := BlockFrame(g, env, t.body, lp, s, c1.pc);
    assert Spares(c.regs, c1.regs, s, {}) by { KeptSpares(c.regs, c1.regs, s); }
    GrowsSelf(s);
    GrowsSelf(b.s);
    assert {} + f1.w == f1.w;
    n := Wrapped(body, c, n, c1, ExecBlock(Lowered, t.body, st, fuel), f1, fuel, m, c2,
                 StmtFrame(g, env, t, lp, s, c.pc), {}, fuel);
    c' := c2;
  }

  lemma {:induction false} BlockLowered(g: Env, env: Env, b: Block, lp: Loops, s: Low, st: State, fuel: nat,
        body: seq<Insn>, c: IrConfig)
    returns (n: nat, c': IrConfig)
    requires BlockStarts(g, env, b, lp, s, st, body, c)
    ensures Executes(body, c, ExecBlock(Lowered, b, st, fuel), BlockFrame(g, env, b, lp, s, c.pc), fuel, n, c')
    decreases fuel, b, 3, 0
  {
    if b.Nil? {
      hide Run, Has, Distinct, Holds, StateOk;
      n, c' := 0, c;
      Start(body, c);
      assert Spares(c.regs, c.regs, s, {}) by { KeptSpares(c.regs, c.regs, s); }
    } else {
      hide *;
      n, c' := ConsLowered(g, env, b, lp, s, st, fuel, body, c);
    }
  }

  lemma {:induction false} ConsParts(g: Env, env: Env, b: Block, lp: Loops, s: Low, st: State, body: seq<Insn>,
        c: IrConfig)
    requires b.Cons? && BlockStarts(g, env, b, lp, s, st, body, c)
    ensures StmtStarts(g, env, b.head, lp, s, st, body, c)
    ensures var env1 := Flow(g, env, b.head).value;
            var a := LowerStmt(b.head, lp, s);
            var r := LowerBlock(b.tail, lp, a.s);
            && Within(env, env1) && BlockReady(g, env1, b.tail, a.s) && Grows(s, a.s) && Grows(a.s, r.s)
            && Has(body, c.pc + |a.code|, r.code) && (lp.NoLoop? ==> ClosedBlock(b.tail))
            && LowerBlock(b, lp, s) == LowCode(a.code + r.code, r.s)
            && FlowBlock(g, env, b) == FlowBlock(g, env1, b.tail)
  {
    hide Has, Flow, LowerStmt, StaticStmt, Matched, StateOk, Grows, Closed;
    var a := LowerStmt(b.head, lp, s);
    var r := LowerBlock(b.tail, lp, a.s);
    HasSplit(body, c.pc, a.code, r.code);
    FlowGrows(g, env, b.head);
    StmtState(g, env, b.head, lp, s);
    BlockState(g, Flow(g, env, b.head).value, b.tail, lp, a.s);
  }

  lemma ExecCons(b: Block, st: State, fuel: nat)
    requires b.Cons?
    ensures var r := Exec(Lowered, b.head, st, fuel);
            ExecBlock(Lowered, b, st, fuel)
            == if r.Done? && r.exit.Normal? then AddLeaks(r.leaks, ExecBlock(Lowered, b.tail, r.st, fuel)) else r
  {
    hide Exec;
  }

  lemma LeaksIgnored(body: seq<Insn>, c: IrConfig, r: ExecResult, ls: seq<seq<Value>>, f: Frame,
        fuel: nat, n: nat, c': IrConfig)
    requires Executes(body, c, r, f, fuel, n, c')
    ensures Executes(body, c, AddLeaks(ls, r), f, fuel, n, c')
  {
    hide Reaches, Holds, Spares, ExitPc;
  }

  lemma {:induction false} ConsLowered(g: Env, env: Env, b: Block, lp: Loops, s: Low, st: State, fuel: nat,
        body: seq<Insn>, c: IrConfig)
    returns (n: nat, c': IrConfig)
    requires b.Cons? && BlockStarts(g, env, b, lp, s, st, body, c)
    ensures Executes(body, c, ExecBlock(Lowered, b, st, fuel), BlockFrame(g, env, b, lp, s, c.pc), fuel, n, c')
    decreases fuel, b, 2, 0
  {
    hide Run, Has, Distinct, LowerBlock, LowerStmt, Flow, FlowBlock, StaticBlock, StaticStmt, WrittenBlock,
      Written, StateOk, Grows, Spares,
      Reaches, Find, Exec, ExecBlock, Closed, ClosedBlock, Holds;
    ConsParts(g, env, b, lp, s, st, body, c);
    ExecCons(b, st, fuel);
    var a := LowerStmt(b.head, lp, s);
    var env1 := Flow(g, env, b.head).value;
    var r := Exec(Lowered, b.head, st, fuel);
    n, c' := StmtLowered(g, env, b.head, lp, s, st, fuel, body, c);
    var f1 := StmtFrame(g, env, b.head, lp, s, c.pc);
    var f := BlockFrame(g, env, b, lp, s, c.pc);
    WrittenCons(b);
    if r.Done? && r.exit.Normal? {
      var m, c2 := BlockLowered(g, env1, b.tail, lp, a.s, r.st, fuel, body, c');
      var f2 := BlockFrame(g, env1, b.tail, lp, a.s, c'.pc);
      GrowsSelf(f.s');
      WithinSelf(f.env');
      n := Wrapped(body, c, n, c', ExecBlock(Lowered, b.tail, r.st, fuel), f2, fuel, m, c2, f, Written(b.head), fuel);
      c' := c2;
      LeaksIgnored(body, c, ExecBlock(Lowered, b.tail, r.st, fuel), r.leaks, f, fuel, n, c');
    } else {
      var k, m, c1 := 0, n, c';
      Start(body, c);
      assert Spares(c.regs, c.regs, s, {}) by { KeptSpares(c.regs, c.regs, s); }
      GrowsSelf(s);
      WithinSelf(env);
      n := Wrapped(body, c, 0, c, r, f1, fuel, m, c1, f, {}, fuel);
    }
  }

  lemma WrittenCons(b: Block)
    requires b.Cons?
    ensures Written(b.head) + WrittenBlock(b.tail) == WrittenBlock(b)
  {
  }

  lemma WithinSelf(env: Env)
    ensures Within(env, env)
  {
  }

  lemma IntRange(v: Value)
    requires HasTy(v, TInt)
    ensures -TWO63 <= Enc(v) < TWO63
  {
  }

  // ----- conditionals -----

  lemma BranchParts(body: seq<Insn>, at: nat, cc: seq<Insn>, cb: seq<Insn>, other: nat, end: nat)
    requires Has(body, at, BranchCode(cc, cb, other, end)) && Distinct(body)
    ensures var p := at + |cc| + |cb|;
            && Has(body, at, cc) && Has(body, at + |cc|, cb)
            && p + 1 < |body| && body[p] == Jump(end) && body[p + 1] == Label(other) && Find(body, other) == Some(p + 1)
            && |BranchCode(cc, cb, other, end)| == |cc| + |cb| + 2
  {
    hide Has, Distinct, Find;
    var tail := [Jump(end), Label(other)];
    HasSplit(body, at, cc + cb, tail);
    HasSplit(body, at, cc, cb);
    HasAt(body, at + |cc| + |cb|, tail, 0);
    HasAt(body, at + |cc| + |cb|, tail, 1);
    LabelFound(body, at + |cc| + |cb|, tail, 1, other);
  }

  /** A condition and the branch it guards: either the branch runs and jumps to `end`, or control
      arrives just past the branch. */
  lemma {:induction false} Fork(g: Env, env: Env, cond: Expr, yes: Block, lp: Loops, s: Low, k: nat, other: nat,
        end: nat,
                                st: State, fuel: nat, body: seq<Insn>, c: IrConfig)
    returns (n: nat, c': IrConfig)
    requires TypeOf(env, cond).Some? && FlowBlock(g, env, yes).Some? && Within(env, g) && StateOk(g, s) && Covers(env, s)
    requires Matched(env, s, st, body, c, lp) && (lp.NoLoop? ==> ClosedBlock(yes)) && Find(body, end).Some?
    requires var cc := LowerCond(cond, other, FreshLabels(s, k));
             Has(body, c.pc, BranchCode(cc.code, LowerBlock(yes, lp, cc.s).code, other, end))
    ensures var v := Eval(Lowered, cond, st.vars);
            var cc := LowerCond(cond, other, FreshLabels(s, k));
            var b := LowerBlock(yes, lp, cc.s);
            if v.Fail? then Run(body, Going(c), n) == Trapped(c.out)
            else if Truthy(v.value) then
              Executes(body, c, ExecBlock(Lowered, yes, st, fuel),
                       Frame(env, FlowBlock(g, env, yes).value, s, b.s, WrittenBlock(yes), PcOf(body, end), lp), fuel, n, c')
            else
              && Reaches(body, c, n, c') && c'.out == c.out && Kept(c.regs, c'.regs, s.nextReg)
              && c'.pc == c.pc + |BranchCode(cc.code, b.code, other, end)|
    decreases fuel, yes, 4, 0
  {
    hide Run, Has, Distinct, LowerBlock, LowerCond, FlowBlock, StaticBlock, StaticExpr, WrittenBlock, StateOk,
      Grows, Spares, Kept,
      Reaches, Find, ExecBlock, ClosedBlock, Holds, TypeOf, Truthy, Eval, LowOk, Executes, BranchCode, HintsFit, StoreOk;
    var cc := LowerCond(cond, other, FreshLabels(s, k));
    var b := LowerBlock(yes, lp, cc.s);
    BranchParts(body, c.pc, cc.code, b.code, other, end);
    var c1;
    n, c1 := CondRuns(g, env, cond, other, s, k, st.vars, body, c);
    c' := c1;
    var v := Eval(Lowered, cond, st.vars);
    if v.Val? {
      if Truthy(v.value) {
        n, c' := GuardedBlock(g, env, yes, lp, s, cc.s, end, st, fuel, body, c, n, c1);
      } else {
        n, c' := Hop(body, c, n, c1, Label(other));
      }
    }
  }

  /** A condition has been evaluated: the branch to `target` is taken exactly if it is false. */
  lemma CondRuns(g: Env, env: Env, cond: Expr, target: nat, s: Low, k: nat, st: Store, body: seq<Insn>, c: IrConfig)
    returns (n: nat, c': IrConfig)
    requires TypeOf(env, cond).Some? && Within(env, g) && StateOk(g, s) && Holds(env, st, s, c.regs) && Distinct(body)
    requires Has(body, c.pc, LowerCond(cond, target, FreshLabels(s, k)).code) && Find(body, target).Some?
    ensures var cc := LowerCond(cond, target, FreshLabels(s, k));
            && StateOk(g, cc.s) && Grows(s, cc.s)
            && match Eval(Lowered, cond, st)
               case Val(v, _) =>
                 && Reaches(body, c, n, c') && c'.out == c.out && Kept(c.regs, c'.regs, s.nextReg) && Spares(c.regs, c'.regs, s, {})
                 && Holds(env, st, cc.s, c'.regs)
                 && c'.pc == if Truthy(v) then c.pc + |cc.code| else Find(body, target).value
               case Fail(_) => Run(body, Going(c), n) == Trapped(c.out)
  {
    hide Run, Has, Distinct, LowerCond, StaticExpr, StateOk, Grows, Spares, Kept, Reaches, Find, Holds, TypeOf, Truthy,
      Eval, LowOk, HintsFit, StoreOk;
    var s0 := FreshLabels(s, k);
    TypedValue(g, env, cond, s, st, c.regs);
    StateOf(s, s0, env, st, c.regs);
    FreshHints(env, s, k);
    n, c' := CondLowered(cond, target, s0, env, st, body, c);
    CondGrows(g, cond, target, s, k);
    if Eval(Lowered, cond, st).Val? {
      HoldsKept(env, st, s, LowerCond(cond, target, s0).s, c.regs, c'.regs);
      KeptSpares(c.regs, c'.regs, s);
    }
  }

  lemma FreshHints(env: Env, s: Low, k: nat)
    requires HintsFit(env, s)
    ensures HintsFit(env, FreshLabels(s, k))
  {
  }

  lemma {:induction false} GuardedBlock(g: Env, env: Env, yes: Block, lp: Loops, s: Low, s1: Low, end: nat,
                                        st: State, fuel: nat, body: seq<Insn>, c: IrConfig, n: nat, c1: IrConfig)
    returns (k: nat, c': IrConfig)
    requires FlowBlock(g, env, yes).Some? && Within(env, g) && StateOk(g, s1) && Covers(env, s) && Grows(s, s1)
    requires Reaches(body, c, n, c1) && Spares(c.regs, c1.regs, s, {})
    requires Matched(env, s1, st, body, c1, lp) && (lp.NoLoop? ==> ClosedBlock(yes)) && Find(body, end).Some?
    requires Has(body, c1.pc, LowerBlock(yes, lp, s1).code)
    requires var p := c1.pc + |LowerBlock(yes, lp, s1).code|; p < |body| && body[p] == Jump(end)
    ensures Executes(body, c, ExecBlock(Lowered, yes, st, fuel),
                     Frame(env, FlowBlock(g, env, yes).value, s, LowerBlock(yes, lp, s1).s, WrittenBlock(yes), PcOf(body, end), lp), fuel, k, c')
    decreases fuel, yes, 3, 1
  {
    hide Run, Has, Distinct, LowerBlock, FlowBlock, StaticBlock, WrittenBlock, StateOk, Grows, Spares,
      Reaches, Find, ExecBlock, ClosedBlock, Holds, Executes;
    CoversGrow(env, s, s1);
    var m, c2 := BlockLowered(g, env, yes, lp, s1, st, fuel, body, c1);
    var f1 := BlockFrame(g, env, yes, lp, s1, c1.pc);
    m, c2 := OneMore(body, c1, ExecBlock(Lowered, yes, st, fuel), f1, fuel, m, c2, Jump(end), PcOf(body, end));
    var f2 := f1.(end := PcOf(body, end));
    GrowsSelf(f1.s');
    WithinSelf(env);
    WithinSelf(f1.env');
    assert {} + f2.w == f2.w;
    k := Wrapped(body, c, n, c1, ExecBlock(Lowered, yes, st, fuel), f2, fuel, m, c2, f2.(s := s), {}, fuel);
    c' := c2;
  }

  lemma CoversGrow(env: Env, s: Low, s1: Low)
    requires Covers(env, s) && Grows(s, s1)
    ensures Covers(env, s1)
  {
  }

  lemma {:induction false} IfParts(g: Env, env: Env, t: Stmt, lp: Loops, s: Low, st: State, body: seq<Insn>,
        c: IrConfig)
    requires t.If? && StmtStarts(g, env, t, lp, s, st, body, c)
    ensures TypeOf(env, t.cond).Some? && FlowBlock(g, env, t.yes).Some? && Covers(env, s)
    ensures var other, end := s.nextLabel, s.nextLabel + 1;
            var cc := LowerCond(t.cond, other, FreshLabels(s, 2));
            var b := LowerBlock(t.yes, lp, cc.s);
            var r := LowerRest(t.rest, end, lp, b.s);
            var head := BranchCode(cc.code, b.code, other, end);
            && LowerStmt(t, lp, s) == LowCode(head + r.code + [Label(end)], r.s)
            && Has(body, c.pc, head) && Has(body, c.pc + |head|, r.code)
            && Find(body, end) == Some(c.pc + |head| + |r.code|)
            && c.pc + |head| + |r.code| < |body| && body[c.pc + |head| + |r.code|] == Label(end)
            && RestReady(g, env, t.rest, b.s) && Grows(s, b.s) && Grows(b.s, r.s)
            && Flow(g, env, t) == Some(Join(FlowBlock(g, env, t.yes).value, FlowRest(g, env, t.rest).value))
            && (lp.NoLoop? ==> ClosedBlock(t.yes) && ClosedRest(t.rest))
  {
    hide Has, Distinct, LowerBlock, LowerRest, LowerCond, FlowBlock, FlowRest, TypeOf, StaticBlock, StaticRest,
      StaticExpr, Matched,
      StateOk, Grows, BranchCode, Find, Join;
    var other, end := s.nextLabel, s.nextLabel + 1;
    var cc := LowerCond(t.cond, other, FreshLabels(s, 2));
    var b := LowerBlock(t.yes, lp, cc.s);
    var r := LowerRest(t.rest, end, lp, b.s);
    var head := BranchCode(cc.code, b.code, other, end);
    HasSplit(body, c.pc, head + r.code, [Label(end)]);
    HasSplit(body, c.pc, head, r.code);
    HasAt(body, c.pc + |head| + |r.code|, [Label(end)], 0);
    assert Distinct(body) by { MatchedParts(env, s, st, body, c, lp); }
    LabelFound(body, c.pc + |head| + |r.code|, [Label(end)], 0, end);
    CondGrows(g, t.cond, other, s, 2);
    CoversGrow(env, s, cc.s);
    BlockState(g, env, t.yes, lp, cc.s);
    GrowsTrans(s, cc.s, b.s);
    CoversGrow(env, s, b.s);
    RestState(g, env, t.rest, end, lp, b.s);
  }

  lemma MatchedParts(env: Env, s: Low, st: State, body: seq<Insn>, c: IrConfig, lp: Loops)
    requires Matched(env, s, st, body, c, lp)
    ensures Distinct(body) && Holds(env, st.vars, s, c.regs)
  {
  }

  lemma ExecIf(env: Env, t: Stmt, st: State, fuel: nat)
    requires t.If? && TypeOf(env, t.cond).Some? && StoreOk(env, st.vars)
    ensures Exec(Lowered, t, st, fuel)
         == match Eval(Lowered, t.cond, st.vars)
            case Fail(err) => Failed(err, st.out)
            case Val(v, _) =>
              if Truthy(v) then ExecBlock(Lowered, t.yes, st, fuel) else ExecRest(Lowered, t.rest, false, st, fuel)
  {
    hide Eval, TypeOf, StoreOk, Truthy, ExecBlock, ExecRest, HasTy;
    TypedEval(env, t.cond, st.vars);
  }

  lemma JoinWithin(env: Env, a: Env, b: Env)
    requires Within(env, a) && Within(env, b)
    ensures Within(Join(a, b), a) && Within(Join(a, b), b) && Within(env, Join(a, b))
  {
  }

  lemma {:induction false} IfLowered(g: Env, env: Env, t: Stmt, lp: Loops, s: Low, st: State, fuel: nat,
        body: seq<Insn>, c: IrConfig)
    returns (n: nat, c': IrConfig)
    requires t.If? && StmtStarts(g, env, t, lp, s, st, body, c)
    ensures Executes(body, c, Exec(Lowered, t, st, fuel), StmtFrame(g, env, t, lp, s, c.pc), fuel, n, c')
    decreases fuel, t, 2, 0
  {
    hide Run, Has, Distinct, LowerStmt, LowerBlock, LowerRest, LowerCond, Flow, FlowBlock, FlowRest, StaticStmt,
      StaticBlock, StaticRest, StaticExpr,
      WrittenBlock, WrittenRest, StateOk, Grows, Spares, Kept, Reaches, Find, Exec, ExecBlock, ExecRest, Closed, ClosedBlock, ClosedRest,
      Holds, TypeOf, Truthy, Eval, Executes, BranchCode, Join;
    IfParts(g, env, t, lp, s, st, body, c);
    HoldsStore(env, st.vars, s, c.regs);
    ExecIf(env, t, st, fuel);
    var other, end := s.nextLabel, s.nextLabel + 1;
    var cc := LowerCond(t.cond, other, FreshLabels(s, 2));
    var b := LowerBlock(t.yes, lp, cc.s);
    var r := LowerRest(t.rest, end, lp, b.s);
    FlowBlockGrows(g, env, t.yes);
    FlowRestGrows(g, env, t.rest);
    JoinWithin(env, FlowBlock(g, env, t.yes).value, FlowRest(g, env, t.rest).value);
    var f := StmtFrame(g, env, t, lp, s, c.pc);
    n, c' := Fork(g, env, t.cond, t.yes, lp, s, 2, other, end, st, fuel, body, c);
    StateParts(g, s);
    WithinSelf(env);
    GrowsSelf(r.s);
    var v := Eval(Lowered, t.cond, st.vars);
    if v.Fail? {
      Stops(body, c, Exec(Lowered, t, st, fuel), f, fuel, n, c');
    } else if Truthy(v.value) {
      var x := ExecBlock(Lowered, t.yes, st, fuel);
      var f1 := Frame(env, FlowBlock(g, env, t.yes).value, s, b.s, WrittenBlock(t.yes), PcOf(body, end), lp);
      n, c' := OneMore(body, c, x, f1, fuel, n, c', Label(end), f.end);
      Start(body, c);
      assert Spares(c.regs, c.regs, s, {}) by { KeptSelf(c.regs, s); }
      n := Wrapped(body, c, 0, c, x, f1.(end := f.end), fuel, n, c', f, {}, fuel);
    } else {
      var x := ExecRest(Lowered, t.rest, false, st, fuel);
      KeptSpares(c.regs, c'.regs, s);
      HoldsKept(env, st.vars, s, s, c.regs, c'.regs);
      HoldsGrow(env, st.vars, s, b.s, c'.regs);
      var m, c2 := RestLowered(g, env, t.rest, end, lp, b.s, st, fuel, body, c');
      var f1 := RestFrame(g, env, t.rest, end, lp, b.s, c'.pc);
      m, c2 := OneMore(body, c', x, f1, fuel, m, c2, Label(end), f.end);
      n := Wrapped(body, c, n, c', x, f1.(end := f.end), fuel, m, c2, f, {}, fuel);
      c' := c2;
    }
  }

  lemma KeptSelf(regs: map<nat, i64>, s: Low)
    ensures Spares(regs, regs, s, {})
  {
  }

  lemma HoldsStore(env: Env, st: Store, s: Low, regs: map<nat, i64>)
    requires Holds(env, st, s, regs)
    ensures StoreOk(env, st)
  {
  }

  lemma {:induction false} RestLowered(g: Env, env: Env, r: Rest, end: nat, lp: Loops, s: Low, st: State,
        fuel: nat, body: seq<Insn>, c: IrConfig)
    returns (n: nat, c': IrConfig)
    requires RestStarts(g, env, r, end, lp, s, st, body, c)
    ensures Executes(body, c, ExecRest(Lowered, r, false, st, fuel), RestFrame(g, env, r, end, lp, s, c.pc), fuel, n, c')
    decreases fuel, r, 3, 0
  {
    match r
    case NoElse =>
      hide Run, Has, Distinct, Holds, StateOk, Spares, Reaches;
      n, c' := 0, c;
      Start(body, c);
      KeptSelf(c.regs, s);
    case Else(b) =>
      hide Executes, LowerBlock, StateOk, Matched, Has, ExecBlock;
      n, c' := BlockLowered(g, env, b, lp, s, st, fuel, body, c);
    case Elif(_, _, _) =>
      hide *;
      n, c' := ElifLowered(g, env, r, end, lp, s, st, fuel, body, c);
  }

  lemma {:induction false} ElifParts(g: Env, env: Env, r: Rest, end: nat, lp: Loops, s: Low, st: State,
        body: seq<Insn>, c: IrConfig)
    requires r.Elif? && RestStarts(g, env, r, end, lp, s, st, body, c)
    ensures TypeOf(env, r.cond).Some? && FlowBlock(g, env, r.body).Some? && Covers(env, s)
    ensures var other := s.nextLabel;
            var cc := LowerCond(r.cond, other, FreshLabels(s, 1));
            var b := LowerBlock(r.body, lp, cc.s);
            var d := LowerRest(r.rest, end, lp, b.s);
            var head := BranchCode(cc.code, b.code, other, end);
            && LowerRest(r, end, lp, s) == LowCode(head + d.code, d.s)
            && Has(body, c.pc, head) && Has(body, c.pc + |head|, d.code)
            && Find(body, end) == Some(c.pc + |head| + |d.code|)
            && RestReady(g, env, r.rest, b.s) && Grows(s, b.s) && Grows(b.s, d.s)
            && FlowRest(g, env, r) == Some(Join(FlowBlock(g, env, r.body).value, FlowRest(g, env, r.rest).value))
            && (lp.NoLoop? ==> ClosedBlock(r.body) && ClosedRest(r.rest))
  {
    hide Has, Distinct, LowerBlock, LowerCond, FlowBlock, TypeOf, StaticBlock, StaticExpr, Matched,
      StateOk, Grows, BranchCode, Find, Join;
    var other := s.nextLabel;
    var cc := LowerCond(r.cond, other, FreshLabels(s, 1));
    var b := LowerBlock(r.body, lp, cc.s);
    var d := LowerRest(r.rest, end, lp, b.s);
    HasSplit(body, c.pc, BranchCode(cc.code, b.code, other, end), d.code);
    CondGrows(g, r.cond, other, s, 1);
    CoversGrow(env, s, cc.s);
    BlockState(g, env, r.body, lp, cc.s);
    GrowsTrans(s, cc.s, b.s);
    CoversGrow(env, s, b.s);
    RestState(g, env, r.rest, end, lp, b.s);
  }

  lemma ExecElif(env: Env, r: Rest, st: State, fuel: nat)
    requires r.Elif? && TypeOf(env, r.cond).Some? && StoreOk(env, st.vars)
    ensures ExecRest(Lowered, r, false, st, fuel)
         == match Eval(Lowered, r.cond, st.vars)
            case Fail(err) => Failed(err, st.out)
            case Val(v, _) =>
              if Truthy(v) then ExecBlock(Lowered, r.body, st, fuel) else ExecRest(Lowered, r.rest, false, st, fuel)
  {
    hide Eval, TypeOf, StoreOk, Truthy, ExecBlock, HasTy;
    TypedEval(env, r.cond, st.vars);
  }

  lemma {:induction false} ElifLowered(g: Env, env: Env, r: Rest, end: nat, lp: Loops, s: Low, st: State,
        fuel: nat, body: seq<Insn>, c: IrConfig)
    returns (n: nat, c': IrConfig)
    requires r.Elif? && RestStarts(g, env, r, end, lp, s, st, body, c)
    ensures Executes(body, c, ExecRest(Lowered, r, false, st, fuel), RestFrame(g, env, r, end, lp, s, c.pc), fuel, n, c')
    decreases fuel, r, 2, 0
  {
    hide Run, Has, Distinct, LowerBlock, LowerRest, LowerCond, FlowBlock, FlowRest, StaticBlock, StaticRest, StaticExpr,
      WrittenBlock, StateOk, Grows, Spares, Kept, Reaches, Find, ExecBlock, ExecRest, ClosedBlock, ClosedRest,
      Holds, TypeOf, Truthy, Eval, Executes, BranchCode, Join;
    ElifParts(g, env, r, end, lp, s, st, body, c);
    HoldsStore(env, st.vars, s, c.regs);
    ExecElif(env, r, st, fuel);
    var other := s.nextLabel;
    var cc := LowerCond(r.cond, other, FreshLabels(s, 1));
    var b := LowerBlock(r.body, lp, cc.s);
    var d := LowerRest(r.rest, end, lp, b.s);
    FlowBlockGrows(g, env, r.body);
    FlowRestGrows(g, env, r.rest);
    JoinWithin(env, FlowBlock(g, env, r.body).value, FlowRest(g, env, r.rest).value);
    var f := RestFrame(g, env, r, end, lp, s, c.pc);
    n, c' := Fork(g, env, r.cond, r.body, lp, s, 1, other, end, st, fuel, body, c);
    StateParts(g, s);
    WithinSelf(env);
    GrowsSelf(d.s);
    var v := Eval(Lowered, r.cond, st.vars);
    if v.Fail? {
      Stops(body, c, ExecRest(Lowered, r, false, st, fuel), f, fuel, n, c');
    } else if Truthy(v.value) {
      var x := ExecBlock(Lowered, r.body, st, fuel);
      var f1 := Frame(env, FlowBlock(g, env, r.body).value, s, b.s, WrittenBlock(r.body), PcOf(body, end), lp);
      Start(body, c);
      assert Spares(c.regs, c.regs, s, {}) by { KeptSelf(c.regs, s); }
      n := Wrapped(body, c, 0, c, x, f1, fuel, n, c', f, {}, fuel);
    } else {
      var x := ExecRest(Lowered, r.rest, false, st, fuel);
      KeptSpares(c.regs, c'.regs, s);
      HoldsKept(env, st.vars, s, s, c.regs, c'.regs);
      HoldsGrow(env, st.vars, s, b.s, c'.regs);
      var m, c2 := RestLowered(g, env, r.rest, end, lp, b.s, st, fuel, body, c');
      var f1 := RestFrame(g, env, r.rest, end, lp, b.s, c'.pc);
      n := Wrapped(body, c, n, c', x, f1, fuel, m, c2, f, {}, fuel);
      c' := c2;
    }
  }

  // ----- loops -----

  function LoopCond(t: Stmt, s: Low): LowCode
    requires (t.While? || t.Loop?) && StaticStmt(t)
  {
    if t.While? then LowerCond(t.cond, s.nextLabel + 1, FreshLabels(s, 3)) else LowCode([], FreshLabels(s, 3))
  }

  lemma WhileSplit(body: seq<Insn>, at: nat, head: nat, cont: nat, brk: nat, cc: seq<Insn>, cb: seq<Insn>)
    requires Has(body, at, WhileCode(head, cont, brk, cc, cb))
    ensures Has(body, at, [Label(head)]) && Has(body, at + 1, cc) && Has(body, at + 1 + |cc|, cb)
    ensures Has(body, at + 1 + |cc| + |cb|, [Label(cont), Jump(head), Label(brk)])
    ensures |WhileCode(head, cont, brk, cc, cb)| == |cc| + |cb| + 4
  {
    hide Has;
    HasSplit(body, at, [Label(head)] + cc + cb, [Label(cont), Jump(head), Label(brk)]);
    HasSplit(body, at, [Label(head)] + cc, cb);
    HasSplit(body, at, [Label(head)], cc);
  }

  lemma TailShape(body: seq<Insn>, p: nat, head: nat, cont: nat, brk: nat)
    requires Has(body, p, [Label(cont), Jump(head), Label(brk)]) && Distinct(body)
    ensures p + 2 < |body| && body[p] == Label(cont) && body[p + 1] == Jump(head) && body[p + 2] == Label(brk)
    ensures Find(body, cont) == Some(p) && Find(body, brk) == Some(p + 2)
  {
    hide Has, Distinct, Find;
    var tail := [Label(cont), Jump(head), Label(brk)];
    HasAt(body, p, tail, 0);
    HasAt(body, p, tail, 1);
    HasAt(body, p, tail, 2);
    LabelFound(body, p, tail, 0, cont);
    LabelFound(body, p, tail, 2, brk);
  }

  lemma WhileShape(body: seq<Insn>, at: nat, head: nat, cont: nat, brk: nat, cc: seq<Insn>, cb: seq<Insn>)
    requires Has(body, at, WhileCode(head, cont, brk, cc, cb)) && Distinct(body)
    ensures var p := at + 1 + |cc| + |cb|;
            && Has(body, at + 1, cc) && Has(body, at + 1 + |cc|, cb) && at + |WhileCode(head, cont, brk, cc, cb)| == p + 3
            && p + 2 < |body| && body[at] == Label(head) && body[p] == Label(cont) && body[p + 1] == Jump(head)
            && body[p + 2] == Label(brk)
            && Find(body, head) == Some(at) && Find(body, cont) == Some(p) && Find(body, brk) == Some(p + 2)
  {
    hide Has, Distinct, Find, WhileCode;
    WhileSplit(body, at, head, cont, brk, cc, cb);
    TailShape(body, at + 1 + |cc| + |cb|, head, cont, brk);
    HasAt(body, at, [Label(head)], 0);
    LabelFound(body, at, [Label(head)], 0, head);
  }

  lemma {:induction false} WhileParts(g: Env, env: Env, t: Stmt, lp: Loops, s: Low)
    requires (t.While? || t.Loop?) && StmtReady(g, env, t, s)
    ensures (t.While? ==> TypeOf(env, t.cond).Some?) && Covers(env, s) && Flow(g, env, t) == Some(env)
    ensures var cc := LoopCond(t, s);
            var b := LowerBlock(t.body, InLoop(s.nextLabel, s.nextLabel + 1), cc.s);
            && LowerStmt(t, lp, s) == LowCode(WhileCode(s.nextLabel + 2, s.nextLabel, s.nextLabel + 1, cc.code, b.code), b.s)
            && BlockReady(g, env, t.body, cc.s) && Extends(s, cc.s) && Grows(s, cc.s) && Grows(cc.s, b.s) && Grows(s, b.s)
            && Written(t) == WrittenBlock(t.body)
  {
    hide LowerBlock, LowerCond, FlowBlock, TypeOf, StaticBlock, StaticExpr, StateOk, Grows, WhileCode;
    if t.While? {
      CondGrows(g, t.cond, s.nextLabel + 1, s, 3);
    } else {
      FreshState(g, s, 3);
    }
    var cc := LoopCond(t, s);
    CoversGrow(env, s, cc.s);
    var lp1 := InLoop(s.nextLabel, s.nextLabel + 1);
    BlockState(g, env, t.body, lp1, cc.s);
    GrowsTrans(s, cc.s, LowerBlock(t.body, lp1, cc.s).s);
  }

  lemma ExecWhile(env: Env, t: Stmt, st: State, fuel: nat)
    requires (t.While? || t.Loop?) && (t.While? ==> TypeOf(env, t.cond).Some?) && StoreOk(env, st.vars)
    ensures Exec(Lowered, t, st, fuel)
         == if fuel == 0 then OutOfFuel(st.out)
            else match LoopValue(t, st.vars)
                 case Fail(err) => Failed(err, st.out)
                 case Val(v, _) => if Truthy(v) then Again(Lowered, t, t.body, st, fuel) else Done(Normal, st, [])
  {
    hide Eval, TypeOf, StoreOk, Again, HasTy;
    if t.While? {
      TypedEval(env, t.cond, st.vars);
    }
  }

  function LoopValue(t: Stmt, st: Store): EvalResult<Value>
    requires t.While? || t.Loop?
  {
    if t.While? then Eval(Lowered, t.cond, st) else Val(Bool(true), st)
  }

  lemma ExecAgain(t: Stmt, st: State, fuel: nat)
    requires (t.While? || t.Loop?) && fuel > 0
    ensures var r := ExecBlock(Lowered, t.body, st, fuel);
            Again(Lowered, t, t.body, st, fuel)
            == if r.Done? then (if r.exit == Broke then Done(Normal, r.st, r.leaks) else AddLeaks(r.leaks, Exec(Lowered, t, r.st, fuel - 1)))
               else r
  {
    hide ExecBlock, Exec;
  }

  /** Runs the loop's condition. */
  lemma {:induction false} LoopTest(g: Env, env: Env, t: Stmt, lp: Loops, s: Low, st: State, body: seq<Insn>,
        c: IrConfig)
    returns (n: nat, c': IrConfig)
    requires (t.While? || t.Loop?) && StmtStarts(g, env, t, lp, s, st, body, c)
    ensures match LoopValue(t, st.vars)
            case Val(v, _) =>
              && Reaches(body, c, n, c') && n > 0 && c'.out == c.out && Kept(c.regs, c'.regs, s.nextReg)
              && c'.pc == (if Truthy(v) then c.pc + 1 + |LoopCond(t, s).code| else PcOf(body, s.nextLabel + 1))
            case Fail(_) => Run(body, Going(c), n) == Trapped(c.out)
  {
    hide Run, Has, Distinct, LowerBlock, LowerCond, LowerStmt, FlowBlock, Flow, TypeOf, StaticBlock, StaticExpr,
      StaticStmt, StateOk, Grows, WhileCode, Find, Holds, HintsFit, Eval,
      Reaches, LowOk, StoreOk;
    WhileParts(g, env, t, lp, s);
    var cc := LoopCond(t, s);
    var b := LowerBlock(t.body, InLoop(s.nextLabel, s.nextLabel + 1), cc.s);
    assert Distinct(body) by { MatchedParts(env, s, st, body, c, lp); }
    WhileShape(body, c.pc, s.nextLabel + 2, s.nextLabel, s.nextLabel + 1, cc.code, b.code);
    Start(body, c);
    n, c' := Hop(body, c, 0, c, Label(s.nextLabel + 2));
    if t.While? {
      var c1 := c';
      var m, c2 := CondRuns(g, env, t.cond, s.nextLabel + 1, s, 3, st.vars, body, c1);
      Then(body, c, n, c1, m);
      if LoopValue(t, st.vars).Val? {
        Follow(body, c, n, c1, m, c2);
      }
      n, c' := n + m, c2;
    }
  }

  lemma {:induction false} WhileLowered(g: Env, env: Env, t: Stmt, lp: Loops, s: Low, st: State, fuel: nat,
        body: seq<Insn>, c: IrConfig)
    returns (n: nat, c': IrConfig)
    requires (t.While? || t.Loop?) && StmtStarts(g, env, t, lp, s, st, body, c)
    ensures Executes(body, c, Exec(Lowered, t, st, fuel), StmtFrame(g, env, t, lp, s, c.pc), fuel, n, c')
    decreases fuel, t, 2, 0
  {
    hide Run, Has, Distinct, LowerBlock, LowerCond, LowerStmt, FlowBlock, Flow, TypeOf, StaticBlock, StaticExpr,
      StaticStmt, StateOk, Grows, WhileCode, Find, Holds,
      LoopValue, Truthy, Reaches, LowOk, StoreOk, Exec, Again, ExecBlock, Written, WrittenBlock, Spares, Kept, Closed;
    WhileParts(g, env, t, lp, s);
    HoldsStore(env, st.vars, s, c.regs);
    ExecWhile(env, t, st, fuel);
    if fuel == 0 {
      Start(body, c);
      n, c' := 0, c;
    } else {
      var cc := LoopCond(t, s);
      var b := LowerBlock(t.body, InLoop(s.nextLabel, s.nextLabel + 1), cc.s);
      WhileShape(body, c.pc, s.nextLabel + 2, s.nextLabel, s.nextLabel + 1, cc.code, b.code);
      n, c' := LoopTest(g, env, t, lp, s, st, body, c);
      var v := LoopValue(t, st.vars);
      if v.Val? {
        StateParts(g, s);
        HoldsKept(env, st.vars, s, cc.s, c.regs, c'.regs);
        KeptSpares(c.regs, c'.regs, s);
        if Truthy(v.value) {
          ExecAgain(t, st, fuel);
          n, c' := LoopBody(g, env, t, lp, s, st, fuel, body, c, n, c');
        } else {
          HoldsGrow(env, st.vars, cc.s, b.s, c'.regs);
          SparesMore(c.regs, c'.regs, s, {}, Written(t));
          n, c' := Hop(body, c, n, c', Label(s.nextLabel + 1));
        }
      }
    }
  }

  /** The loop body, and then either the way out or the next round. */
  lemma {:induction false} LoopBody(g: Env, env: Env, t: Stmt, lp: Loops, s: Low, st: State, fuel: nat,
        body: seq<Insn>, c: IrConfig,
                                    n: nat, c1: IrConfig)
    returns (k: nat, c': IrConfig)
    requires (t.While? || t.Loop?) && StmtStarts(g, env, t, lp, s, st, body, c) && fuel > 0
    requires Reaches(body, c, n, c1) && n > 0 && c1.out == st.out && Spares(c.regs, c1.regs, s, {})
    requires c1.pc == c.pc + 1 + |LoopCond(t, s).code| && Holds(env, st.vars, LoopCond(t, s).s, c1.regs)
    ensures Executes(body, c, Again(Lowered, t, t.body, st, fuel), StmtFrame(g, env, t, lp, s, c.pc), fuel, k, c')
    decreases fuel, t, 1, 0
  {
    hide Run, Has, Distinct, LowerBlock, LowerCond, LowerStmt, FlowBlock, Flow, TypeOf, StaticBlock, StaticExpr,
      StaticStmt, StateOk, Grows, WhileCode, Find, Holds,
      Reaches, LowOk, StoreOk, Exec, Again, ExecBlock, Written, WrittenBlock, Spares, Closed, LoopCond;
    WhileParts(g, env, t, lp, s);
    ExecAgain(t, st, fuel);
    var cc := LoopCond(t, s);
    var lp1 := InLoop(s.nextLabel, s.nextLabel + 1);
    var b := LowerBlock(t.body, lp1, cc.s);
    WhileShape(body, c.pc, s.nextLabel + 2, s.nextLabel, s.nextLabel + 1, cc.code, b.code);
    var r := ExecBlock(Lowered, t.body, st, fuel);
    var m, c2 := BlockLowered(g, env, t.body, lp1, cc.s, st, fuel, body, c1);
    FlowBlockGrows(g, env, t.body);
    Follow2(body, c, n, c1, m, c2, r, BlockFrame(g, env, t.body, lp1, cc.s, c1.pc), fuel);
    k, c' := n + m, c2;
    if r.Done? {
      SparesTrans(c.regs, c1.regs, c2.regs, s, cc.s, {}, WrittenBlock(t.body));
      assert {} + WrittenBlock(t.body) == WrittenBlock(t.body);
      HoldsLess(env, if r.exit.Normal? then FlowBlock(g, env, t.body).value else env, r.st.vars, b.s, c2.regs);
      if r.exit == Broke {
        k, c' := Hop(body, c, k, c2, Label(s.nextLabel + 1));
      } else {
        k, c2 := Hop(body, c, k, c2, Label(s.nextLabel));
        k, c2 := Hop(body, c, k, c2, Jump(s.nextLabel + 2));
        HoldsBack(env, r.st.vars, s, b.s, c2.regs);
        var l, c3 := WhileLowered(g, env, t, lp, s, r.st, fuel - 1, body, c2);
        var f := StmtFrame(g, env, t, lp, s, c.pc);
        GrowsSelf(s);
        GrowsSelf(b.s);
        WithinSelf(env);
        var x := Exec(Lowered, t, r.st, fuel - 1);
        k := Wrapped(body, c, k, c2, x, f, fuel - 1, l, c3, f, WrittenBlock(t.body), fuel);
        c' := c3;
        LeaksIgnored(body, c, x, r.leaks, f, fuel, k, c');
      }
    }
  }

  lemma Follow2(body: seq<Insn>, c: IrConfig, n: nat, c1: IrConfig, m: nat, c2: IrConfig, r: ExecResult, f: Frame,
        fuel: nat)
    requires Reaches(body, c, n, c1) && Executes(body, c1, r, f, fuel, m, c2)
    ensures if r.Failed? then Run(body, Going(c), n + m) == Trapped(r.out) else Reaches(body, c, n + m, c2)
  {
    hide Run, Holds, Spares;
    Then(body, c, n, c1, m);
  }

  // ----- ranges -----

  lemma {:induction false} FreshOperand(e: Expr, s: Low)
    requires StaticExpr(e) && LowOk(s) && !e.Var?
    ensures var r := LowerExpr(e, s); r.value.Reg? ==> s.nextReg <= r.value.n < r.s.nextReg
  {
    hide LowerExpr, LowerCond, StaticExpr;
    ExprState(e, s);
    if e.Binary? || e.And? || e.Or? {
      PairCode(e, s);
      ExprState(e.left, s);
      ExprState(e.right, LowerExpr(e.left, s).s);
      hide Fold, Arith;
    } else if e.Unary? {
      StaticOperand(e);
      UnaryCode(e.uop, e.operand, s);
      ExprState(e.operand, s);
    } else if e.Ternary? {
      ChoiceParts(e, s);
      var s0 := FreshLabels(s, 2);
      CondState(e.cond, s.nextLabel, s0);
      var cc := LowerCond(e.cond, s.nextLabel, s0);
      ExprState(e.yes, cc.s);
    } else {
      LeafOperand(e, s);
    }
  }

  lemma LeafOperand(e: Expr, s: Low)
    requires StaticExpr(e) && !e.Binary? && !e.And? && !e.Or? && !e.Unary? && !e.Ternary? && !e.Var?
    ensures !LowerExpr(e, s).value.Reg?
  {
  }

  /** How a range loop is laid out from its first `Mov`. */
  datatype Range = Range(r: nat, h: Hint, to: Operand, step: Operand, next: nat, head: nat, cont: nat, end: nat, brk: nat)

  function RangeOf(t: Stmt, s: Low): Range
    requires t.ForRange? && StaticStmt(t)
  {
    var a := LowerExpr(t.from, FreshLabels(s, 4));
    var b := LowerExpr(t.to, a.s);
    var s1 := RangeBodyState(t, s);
    var d := LowerBlock(t.body, InLoop(s.nextLabel, s.nextLabel + 1), s1);
    Range(s1.locals[t.name].reg, if HintOf(a.value).I64? && HintOf(b.value).I64? then I64 else Dynamic,
          b.value, StepOperand(t.step, b.s).value, d.s.nextReg, s.nextLabel + 2, s.nextLabel, s.nextLabel + 3, s.nextLabel + 1)
  }

  function TailOf(q: Range): seq<Insn> {
    RangeTail(q.r, q.h, q.next, q.step, q.head, q.cont, q.end, q.brk)
  }

  lemma {:induction false} RangeCode(t: Stmt, lp: Loops, s: Low)
    requires t.ForRange? && StaticStmt(t)
    ensures StaticExpr(t.from) && StaticExpr(t.to) && StaticExpr(StepExpr(t.step)) && StaticBlock(t.body)
    ensures var a := LowerExpr(t.from, FreshLabels(s, 4));
            var b := LowerExpr(t.to, a.s);
            var c := LowerExpr(StepExpr(t.step), b.s);
            var s1 := RangeBodyState(t, s);
            var d := LowerBlock(t.body, InLoop(s.nextLabel, s.nextLabel + 1), s1);
            var q := RangeOf(t, s);
            && LowerStmt(t, lp, s)
               == LowCode(a.code + b.code + c.code + RangeHead(q.r, q.h, a.value, q.to, q.head, q.end) + d.code + TailOf(q),
                          FreshReg(d.s))
            && q.to == b.value && q.step == c.value && s1 == Declare(t.name, q.h, c.s)
            && q.cont == s.nextLabel && q.brk == s.nextLabel + 1 && q.next == d.s.nextReg
            && t.name in s1.locals && q.r == s1.locals[t.name].reg
  {
    hide LowerExpr, LowerBlock, StaticBlock, RangeHead, RangeTail, HintOf;
    var a := LowerExpr(t.from, FreshLabels(s, 4));
    var b := LowerExpr(t.to, a.s);
    assert StaticExpr(IntLit(1));
    StepLowered(t.step, b.s);
  }

  /** The loop from the label of its head. */
  ghost predicate RangeAt(body: seq<Insn>, p: nat, q: Range, db: seq<Insn>) {
    var e := p + 3 + |db|;
    && e + 5 < |body| && p + 2 < |body| && Has(body, p + 3, db)
    && body[p + 1] == Label(q.head) && body[p + 2] == Branch(CondGe, Reg(q.r, q.h), q.to, q.end)
    && body[e] == Label(q.cont)
    && body[e + 1] == (if IsStatic(q.h) then Bin(OpAdd, q.next, Reg(q.r, q.h), q.step) else DynBin(OpAdd, q.next, Reg(q.r, q.h), q.step))
    && body[e + 2] == Mov(q.r, Reg(q.next, q.h)) && body[e + 3] == Jump(q.head)
    && body[e + 4] == Label(q.end) && body[e + 5] == Label(q.brk)
    && Find(body, q.head) == Some(p + 1) && Find(body, q.cont) == Some(e)
    && Find(body, q.end) == Some(e + 4) && Find(body, q.brk) == Some(e + 5)
  }

  lemma RangeShape(body: seq<Insn>, p: nat, q: Range, from: Operand, db: seq<Insn>)
    requires Distinct(body)
    requires Has(body, p, RangeHead(q.r, q.h, from, q.to, q.head, q.end)) && Has(body, p + 3, db)
    requires Has(body, p + 3 + |db|, TailOf(q))
    ensures RangeAt(body, p, q, db) && body[p] == Mov(q.r, from)
  {
    hide Has, Distinct, Find;
    var head, tail := RangeHead(q.r, q.h, from, q.to, q.head, q.end), TailOf(q);
    var e := p + 3 + |db|;
    HasAt(body, p, head, 0);
    HasAt(body, p, head, 1);
    HasAt(body, p, head, 2);
    HasAt(body, e, tail, 0);
    HasAt(body, e, tail, 1);
    HasAt(body, e, tail, 2);
    HasAt(body, e, tail, 3);
    HasAt(body, e, tail, 4);
    HasAt(body, e, tail, 5);
    LabelFound(body, p, head, 1, q.head);
    LabelFound(body, e, tail, 0, q.cont);
    LabelFound(body, e, tail, 4, q.end);
    LabelFound(body, e, tail, 5, q.brk);
  }

  /** From the `cont` label round to the head. */
  lemma RangeAdvance(body: seq<Insn>, p: nat, q: Range, db: seq<Insn>, i: int, k: int, c: IrConfig)
    returns (n: nat, c': IrConfig)
    requires RangeAt(body, p, q, db) && c.pc == p + 3 + |db| && RegValue(c.regs, q.r) == i && OpValue(q.step, c.regs) == k
    ensures Reaches(body, c, n, c') && n > 0
    ensures c' == IrConfig(p + 1, c.regs[q.next := Wrap(i + k)][q.r := Wrap(i + k)], c.out)
  {
    hide Run, Has, Find, Reaches, Wrap;
    Start(body, c);
    n, c' := Hop(body, c, 0, c, Label(q.cont));
    n, c' := Hop(body, c, n, c', body[p + 4 + |db|]);
    n, c' := Hop(body, c, n, c', Mov(q.r, Reg(q.next, q.h)));
    n, c' := Hop(body, c, n, c', Jump(q.head));
  }

  /** The test at the head: on to the body, or past the loop. */
  lemma RangeTest(body: seq<Insn>, p: nat, q: Range, db: seq<Insn>, i: int, m: int, c: IrConfig)
    returns (n: nat, c': IrConfig)
    requires RangeAt(body, p, q, db) && c.pc == p + 1 && RegValue(c.regs, q.r) == i && OpValue(q.to, c.regs) == m
    ensures Reaches(body, c, n, c') && c' == c.(pc := if i < m then p + 3 else p + 3 + |db| + 6)
  {
    hide Run, Has, Find, Reaches;
    Start(body, c);
    n, c' := Hop(body, c, 0, c, Label(q.head));
    n, c' := Hop(body, c, n, c', body[p + 2]);
    if i >= m {
      n, c' := Hop(body, c, n, c', Label(q.end));
      n, c' := Hop(body, c, n, c', Label(q.brk));
    }
  }

  /** The register of no variable, or no register at all. */
  ghost predicate Private(o: Operand, s: Low) {
    o.Reg? ==> o.n < s.nextReg && forall y :: y in s.locals ==> s.locals[y].reg != o.n
  }

  /** The operand of a variable is the register of the variable; that of another expression is nobody's. */
  ghost predicate Follows(o: Operand, e: Expr, env: Env, s: Low) {
    if e.Var? then
      e.name in env && IsNumber(env[e.name]) && e.name in s.locals && o.Reg? && o.n == s.locals[e.name].reg
    else Private(o, s)
  }

  ghost predicate Preset(o: Operand, e: Expr, v: Value, regs: map<nat, i64>) {
    HasTy(v, TInt) && (e.Var? || OpValue(o, regs) == Enc(v))
  }

  lemma SeenNow(o: Operand, e: Expr, v: Value, env: Env, st: Store, s: Low, regs: map<nat, i64>)
    requires Follows(o, e, env, s) && Preset(o, e, v, regs) && Holds(env, st, s, regs)
    ensures OpValue(o, regs) == IntOf(Seen(e, v, st))
  {
  }

  lemma CounterNow(x: string, env: Env, st: Store, s: Low, regs: map<nat, i64>)
    requires Holds(env, st, s, regs) && x in env && IsNumber(env[x]) && x in s.locals
    ensures RegValue(regs, s.locals[x].reg) == IntOf(Get(st, x))
  {
  }

  lemma PresetKept(o: Operand, e: Expr, v: Value, env: Env, s: Low, w: set<string>, r: map<nat, i64>, r': map<nat, i64>)
    requires Follows(o, e, env, s) && Preset(o, e, v, r) && Spares(r, r', s, w)
    ensures Preset(o, e, v, r')
  {
    if o.Reg? && !e.Var? {
      assert Free(o.n, s, w);
    }
  }

  ghost predicate RangeReady(g: Env, env: Env, t: Stmt, s1: Low, q: Range, body: seq<Insn>, p: nat) {
    t.ForRange? &&
    var lp1 := InLoop(q.cont, q.brk);
    && BlockReady(g, env, t.body, s1) && Distinct(body) && RangeAt(body, p, q, LowerBlock(t.body, lp1, s1).code)
    && t.name in env && IsNumber(env[t.name]) && t.name in s1.locals && q.r == s1.locals[t.name].reg
    && q.next == LowerBlock(t.body, lp1, s1).s.nextReg
    && Follows(q.to, t.to, env, s1) && Follows(q.step, StepExpr(t.step), env, s1)
  }

  ghost predicate RangeSet(t: Stmt, q: Range, b: Bounds, regs: map<nat, i64>)
    requires t.ForRange?
  {
    Preset(q.to, t.to, b.to, regs) && Preset(q.step, StepExpr(t.step), b.step, regs)
  }

  lemma RangeSetKept(g: Env, env: Env, t: Stmt, s1: Low, q: Range, body: seq<Insn>, p: nat, b: Bounds, w: set<string>,
        r: map<nat, i64>, r': map<nat, i64>)
    requires RangeReady(g, env, t, s1, q, body, p) && RangeSet(t, q, b, r) && Spares(r, r', s1, w)
    ensures RangeSet(t, q, b, r')
  {
    hide Preset, Follows, Spares, BlockReady, RangeAt, LowerBlock;
    PresetKept(q.to, t.to, b.to, env, s1, w, r, r');
    PresetKept(q.step, StepExpr(t.step), b.step, env, s1, w, r, r');
  }

  function RangeFrame(env: Env, t: Stmt, s1: Low, q: Range, p: nat, lp: Loops): Frame
    requires t.ForRange? && StaticBlock(t.body)
  {
    var d := LowerBlock(t.body, InLoop(q.cont, q.brk), s1);
    Frame(env, env, s1, FreshReg(d.s), Written(t), p + 3 + |d.code| + 6, lp)
  }

  lemma RangeFrameGrows(g: Env, env: Env, b: Block, lp1: Loops, s1: Low)
    requires BlockReady(g, env, b, s1)
    ensures var d := LowerBlock(b, lp1, s1); Grows(s1, d.s) && Grows(d.s, FreshReg(d.s)) && Grows(s1, FreshReg(d.s)) && Grows(s1, s1)
    ensures StateOk(g, s1) && Covers(env, s1)
  {
    hide LowerBlock, FlowBlock, StaticBlock;
    BlockState(g, env, b, lp1, s1);
  }

  lemma {:induction false} RangeLoop(g: Env, env: Env, t: Stmt, lp: Loops, s1: Low, q: Range, p: nat, b: Bounds,
                                     st: State, fuel: nat, body: seq<Insn>, c: IrConfig)
    returns (n: nat, c': IrConfig)
    requires RangeReady(g, env, t, s1, q, body, p) && RangeSet(t, q, b, c.regs)
    requires Holds(env, st.vars, s1, c.regs) && c.out == st.out && c.pc == p + 1
    ensures Executes(body, c, ExecCounted(t, b, st, fuel), RangeFrame(env, t, s1, q, p, lp), fuel, n, c')
    decreases fuel, t, 2, 0
  {
    hide Run, Has, Distinct, LowerBlock, FlowBlock, StaticBlock, StateOk, Grows, Find, Holds, Reaches, ExecBlock,
      WrittenBlock, Spares, OpValue, Preset, Follows, Seen, Get, RangeAt, Advanced;
    var d := LowerBlock(t.body, InLoop(q.cont, q.brk), s1);
    SeenNow(q.to, t.to, b.to, env, st.vars, s1, c.regs);
    CounterNow(t.name, env, st.vars, s1, c.regs);
    var c1;
    n, c1 := RangeTest(body, p, q, d.code, IntOf(Get(st.vars, t.name)), IntOf(Seen(t.to, b.to, st.vars)), c);
    RangeFrameGrows(g, env, t.body, InLoop(q.cont, q.brk), s1);
    c' := c1;
    if !GoesOn(t, b, st.vars) {
      KeptSelf(c.regs, s1);
      SparesMore(c.regs, c.regs, s1, {}, Written(t));
      HoldsGrow(env, st.vars, s1, FreshReg(d.s), c.regs);
    } else if fuel > 0 {
      n, c' := RangeRound(g, env, t, lp, s1, q, p, b, st, fuel, body, c, n, c1);
    }
  }

  lemma {:induction false} RangeRound(g: Env, env: Env, t: Stmt, lp: Loops, s1: Low, q: Range, p: nat, b: Bounds,
                                      st: State, fuel: nat, body: seq<Insn>, c: IrConfig, n: nat, c1: IrConfig)
    returns (k: nat, c': IrConfig)
    requires RangeReady(g, env, t, s1, q, body, p) && RangeSet(t, q, b, c.regs)
    requires Holds(env, st.vars, s1, c.regs) && c.out == st.out && GoesOn(t, b, st.vars) && fuel > 0
    requires Reaches(body, c, n, c1) && c1 == c.(pc := p + 3)
    ensures Executes(body, c, ExecCounted(t, b, st, fuel), RangeFrame(env, t, s1, q, p, lp), fuel, k, c')
    decreases fuel, t, 1, 0
  {
    hide Run, Has, Distinct, LowerBlock, FlowBlock, StaticBlock, StateOk, Grows, Find, Holds,
      Reaches, ExecBlock, WrittenBlock, Spares, OpValue, RangeSet, Follows, Covers, GoesOn, Advanced;
    var lp1 := InLoop(q.cont, q.brk);
    var d := LowerBlock(t.body, lp1, s1);
    RangeFrameGrows(g, env, t.body, lp1, s1);
    var r := ExecBlock(Lowered, t.body, st, fuel);
    var l, c2 := BlockLowered(g, env, t.body, lp1, s1, st, fuel, body, c1);
    Follow2(body, c, n, c1, l, c2, r, BlockFrame(g, env, t.body, lp1, s1, c1.pc), fuel);
    k, c' := n + l, c2;
    if r.Done? {
      FlowBlockGrows(g, env, t.body);
      HoldsLess(env, if r.exit.Normal? then FlowBlock(g, env, t.body).value else env, r.st.vars, d.s, c2.regs);
      SparesMore(c1.regs, c2.regs, s1, WrittenBlock(t.body), Written(t));
      if r.exit == Broke {
        HoldsGrow(env, r.st.vars, d.s, FreshReg(d.s), c2.regs);
        k, c' := Hop(body, c, k, c2, Label(q.brk));
      } else {
        HoldsBack(env, r.st.vars, s1, d.s, c2.regs);
        RangeSetKept(g, env, t, s1, q, body, p, b, Written(t), c1.regs, c2.regs);
        k, c' := RangeNext(g, env, t, lp, s1, q, p, b, r.st, fuel, body, c, k, c2);
      }
    }
  }

  lemma {:induction false} RangeNext(g: Env, env: Env, t: Stmt, lp: Loops, s1: Low, q: Range, p: nat, b: Bounds,
                                     st: State, fuel: nat, body: seq<Insn>, c: IrConfig, n: nat, c1: IrConfig)
    returns (k: nat, c': IrConfig)
    requires RangeReady(g, env, t, s1, q, body, p) && RangeSet(t, q, b, c1.regs) && fuel > 0
    requires Holds(env, st.vars, s1, c1.regs) && c1.out == st.out && Spares(c.regs, c1.regs, s1, Written(t))
    requires Reaches(body, c, n, c1) && c1.pc == p + 3 + |LowerBlock(t.body, InLoop(q.cont, q.brk), s1).code|
    ensures Executes(body, c, ExecCounted(t, b, Advanced(t, b, st), fuel - 1), RangeFrame(env, t, s1, q, p, lp), fuel, k, c')
    decreases fuel, t, 0, 0
  {
    hide Run, Has, Distinct, LowerBlock, FlowBlock, StaticBlock, Grows, Find, Holds, Reaches, ExecCounted, Written,
      Spares, OpValue, LowOk, HintsOk, RangeAt, Wrap, Preset, Follows, Seen, Get;
    var lp1 := InLoop(q.cont, q.brk);
    var d := LowerBlock(t.body, lp1, s1);
    RangeFrameGrows(g, env, t.body, lp1, s1);
    SeenNow(q.step, StepExpr(t.step), b.step, env, st.vars, s1, c1.regs);
    CounterNow(t.name, env, st.vars, s1, c1.regs);
    var i, k1 := IntOf(Get(st.vars, t.name)), IntOf(Seen(StepExpr(t.step), b.step, st.vars));
    var l, c2 := RangeAdvance(body, p, q, d.code, i, k1, c1);
    Follow(body, c, n, c1, l, c2);
    var w := {t.name};
    NextAbove(s1, d.s);
    CounterStored(g, env, st.vars, s1, c1.regs, t.name, q.next, Wrap(i + k1));
    RangeSetKept(g, env, t, s1, q, body, p, b, w, c1.regs, c2.regs);
    SparesTrans(c.regs, c1.regs, c2.regs, s1, s1, Written(t), w);
    CounterWritten(t);
    var st1 := Advanced(t, b, st);
    var j, c3 := RangeLoop(g, env, t, lp, s1, q, p, b, st1, fuel - 1, body, c2);
    var f := RangeFrame(env, t, s1, q, p, lp);
    GrowsSelf(f.s');
    WithinSelf(env);
    k := Wrapped(body, c, n + l, c2, ExecCounted(t, b, st1, fuel - 1), f, fuel - 1, j, c3, f, Written(t), fuel);
    c' := c3;
  }

  lemma NextAbove(s: Low, s': Low)
    requires Grows(s, s')
    ensures s.nextReg <= s'.nextReg
  {
  }

  lemma CounterWritten(t: Stmt)
    requires t.ForRange?
    ensures Written(t) + {t.name} == Written(t) && Written(t) + Written(t) == Written(t)
  {
  }

  lemma CounterStored(g: Env, env: Env, st: Store, s1: Low, regs: map<nat, i64>, x: string, next: nat, v: i64)
    requires Holds(env, st, s1, regs) && x in s1.locals && x in env && IsNumber(env[x]) && StateOk(g, s1) && next >= s1.nextReg
    ensures Holds(env, st[x := Int(v)], s1, regs[next := v][s1.locals[x].reg := v])
    ensures Spares(regs, regs[next := v][s1.locals[x].reg := v], s1, {x})
  {
    assert x in {x};
  }

  lemma BoundFollows(env: Env, x: string, e: Expr, s: Low, s1: Low, ty: Ty)
    requires IsNumber(ty) && IsInt(env, e) && LowOk(s) && Covers(env, s) && LowOk(s1) && x in s1.locals
    requires var r := LowerExpr(e, s);
             && r.s.nextReg <= s1.nextReg && (forall y :: y in s1.locals <==> y in s.locals || y == x)
             && (forall y :: y in s.locals ==> s1.locals[y].reg == s.locals[y].reg)
             && (x !in s.locals ==> s1.locals[x].reg >= r.s.nextReg)
    ensures Follows(LowerExpr(e, s).value, e, env[x := ty], s1)
  {
    hide LowerExpr;
    if e.Var? {
      VarOperand(e, s);
    } else {
      FreshOperand(e, s);
    }
  }

  lemma VarOperand(e: Expr, s: Low)
    requires e.Var? && e.name in s.locals
    ensures LowerExpr(e, s) == LowExpr([], Reg(s.locals[e.name].reg, s.locals[e.name].hint), s)
  {
  }

  lemma {:induction false} BoundsFollow(g: Env, env: Env, t: Stmt, s: Low)
    requires t.ForRange? && StmtReady(g, env, t, s)
    ensures t.name in g
    ensures var q, s1, env1 := RangeOf(t, s), RangeBodyState(t, s), env[t.name := g[t.name]];
            Follows(q.to, t.to, env1, s1) && Follows(q.step, StepExpr(t.step), env1, s1)
  {
    hide LowerExpr, LowerBlock, LowerStmt, FlowBlock, TypeOf, StaticBlock, StaticExpr, Follows, RangeOf, RangeBodyState, HintOf;
    RangeCode(t, NoLoop, s);
    RangeBodyReady(g, env, t, s);
    RangeTyped(g, env, t, s);
    var s0 := FreshLabels(s, 4);
    FreshState(g, s, 4);
    ExprGrows(g, t.from, s0);
    var a := LowerExpr(t.from, s0);
    ExprGrows(g, t.to, a.s);
    var b := LowerExpr(t.to, a.s);
    ExprGrows(g, StepExpr(t.step), b.s);
    BoundFollows(env, t.name, t.to, a.s, RangeBodyState(t, s), g[t.name]);
    BoundFollows(env, t.name, StepExpr(t.step), b.s, RangeBodyState(t, s), g[t.name]);
  }

  lemma RangeTyped(g: Env, env: Env, t: Stmt, s: Low)
    requires t.ForRange? && StmtReady(g, env, t, s)
    ensures IntBounds(env, t) && StaticBlock(t.body) && StaticStmt(t) && Within(env, g) && StateOk(g, s) && Covers(env, s)
    ensures t.name in g && IsNumber(g[t.name]) && t.name in Written(t)
    ensures Flow(g, env, t) == Some(env[t.name := g[t.name]]) && Within(env, env[t.name := g[t.name]])
  {
    hide TypeOf, FlowBlock, IntBounds, StaticExpr;
  }

  lemma {:induction false} RangeStatic(g: Env, env: Env, t: Stmt, lp: Loops, s: Low, st: State, body: seq<Insn>,
        c: IrConfig)
    returns (p: nat)
    requires t.ForRange? && StmtStarts(g, env, t, lp, s, st, body, c)
    ensures IntBounds(env, t) && StaticStmt(t) && StaticBlock(t.body) && t.name in g
    ensures var q := RangeOf(t, s);
            var a := LowerExpr(t.from, FreshLabels(s, 4));
            var b := LowerExpr(t.to, a.s);
            var d := LowerExpr(StepExpr(t.step), b.s);
            var s1 := RangeBodyState(t, s);
            && RangeReady(g, env[t.name := g[t.name]], t, s1, q, body, p)
            && p == c.pc + |a.code| + |b.code| + |d.code| && Has(body, c.pc, a.code) && Has(body, c.pc + |a.code|, b.code)
            && Has(body, c.pc + |a.code| + |b.code|, d.code)
            && p < |body| && body[p] == Mov(q.r, a.value)
            && StmtFrame(g, env, t, lp, s, c.pc) == RangeFrame(env[t.name := g[t.name]], t, s1, q, p, lp).(env := env, s := s)
            && Grows(s, s1)
  {
    hide Run, Has, Distinct, LowerBlock, LowerStmt, LowerExpr, FlowBlock, Flow, StaticBlock, StaticStmt, StateOk,
      Grows, Find, Holds, TypeOf, WrittenBlock, Written, OpValue, Follows, RangeOf, RangeBodyState, StoreOk, RangeAt,
      StaticExpr, Within, RangeHead, TailOf, IntBounds, Covers;
    RangeTyped(g, env, t, s);
    RangeCode(t, lp, s);
    RangeBodyReady(g, env, t, s);
    BoundsFollow(g, env, t, s);
    var q := RangeOf(t, s);
    var s1 := RangeBodyState(t, s);
    var a := LowerExpr(t.from, FreshLabels(s, 4));
    var b := LowerExpr(t.to, a.s);
    var e := LowerExpr(StepExpr(t.step), b.s);
    var d := LowerBlock(t.body, InLoop(q.cont, q.brk), s1);
    var head, tail := RangeHead(q.r, q.h, a.value, q.to, q.head, q.end), TailOf(q);
    HeadLen(q, a.value);
    p := c.pc + |a.code| + |b.code| + |e.code|;
    HasSplit(body, c.pc, a.code + b.code + e.code + head + d.code, tail);
    HasSplit(body, c.pc, a.code + b.code + e.code + head, d.code);
    HasSplit(body, c.pc, a.code + b.code + e.code, head);
    HasSplit(body, c.pc, a.code + b.code, e.code);
    HasSplit(body, c.pc, a.code, b.code);
    RangeShape(body, p, q, a.value, d.code);
  }

  lemma HeadLen(q: Range, from: Operand)
    ensures |RangeHead(q.r, q.h, from, q.to, q.head, q.end)| == 3 && |TailOf(q)| == 6
  {
  }

  lemma IntValue(env: Env, e: Expr, st: Store)
    requires IsInt(env, e) && StoreOk(env, st)
    ensures var r := Eval(Lowered, e, st); r.Val? ==> r.st == st && HasTy(r.value, TInt)
  {
    TypedEval(env, e, st);
  }

  /** The bounds and the step have been evaluated. */
  ghost predicate BoundsKnown(t: Stmt, st: Store, b: Bounds)
    requires t.ForRange?
  {
    RangeBounds(Lowered, t, st) == Val(b, st) && HasTy(b.from, TInt) && HasTy(b.to, TInt) && HasTy(b.step, TInt)
  }

  lemma ExecRange(env: Env, t: Stmt, st: State, fuel: nat)
    requires t.ForRange? && IntBounds(env, t) && StoreOk(env, st.vars)
    ensures match RangeBounds(Lowered, t, st.vars)
            case Val(b, _) =>
              && BoundsKnown(t, st.vars, b)
              && Exec(Lowered, t, st, fuel) == ExecCounted(t, b, State(st.vars[t.name := b.from], st.out), fuel)
            case Fail(err) => Exec(Lowered, t, st, fuel) == Failed(err, st.out)
  {
    hide IsInt, StoreOk, HasTy, ExecCounted, Eval;
    IntValue(env, t.from, st.vars);
    IntValue(env, t.to, st.vars);
    IntValue(env, StepExpr(t.step), st.vars);
  }

  /** A bound is evaluated. */
  lemma {:induction false} BoundLowered(g: Env, env: Env, e: Expr, s: Low, st: Store, body: seq<Insn>, c: IrConfig)
    returns (n: nat, c': IrConfig)
    requires IsInt(env, e) && StateOk(g, s) && Within(env, g) && Holds(env, st, s, c.regs) && Has(body, c.pc, LowerExpr(e, s).code)
    requires Distinct(body)
    ensures var a := LowerExpr(e, s);
            && Evaluates(body, c, |a.code|, a.value, s.nextReg, Eval(Lowered, e, st), n, c')
            && OperandBelow(a.value, a.s.nextReg) && s.nextReg <= a.s.nextReg && StateOk(g, a.s)
            && (Eval(Lowered, e, st).Val? ==> Holds(env, st, a.s, c'.regs) && Eval(Lowered, e, st).st == st)
  {
    hide Run, Has, Distinct, LowerExpr, Holds, StaticExpr, StoreOk, Reaches, LowOk, HintsOk, Eval, Enc, OpValue, Kept, Grows,
      TypeOf, HintsFit;
    TypedValue(g, env, e, s, st, c.regs);
    ExprGrows(g, e, s);
    n, c' := ExprLowered(e, s, env, st, body, c);
    if Eval(Lowered, e, st).Val? {
      HoldsKept(env, st, s, LowerExpr(e, s).s, c.regs, c'.regs);
    }
  }

  /** The bounds and the step are evaluated, each once. */
  lemma {:induction false} BoundsRun(g: Env, env: Env, t: Stmt, s: Low, st: Store, body: seq<Insn>, c: IrConfig)
    returns (n: nat, c': IrConfig)
    requires t.ForRange? && IntBounds(env, t) && StateOk(g, s) && Within(env, g) && Holds(env, st, s, c.regs) && Distinct(body)
    requires var a := LowerExpr(t.from, s);
             var b := LowerExpr(t.to, a.s);
             && Has(body, c.pc, a.code) && Has(body, c.pc + |a.code|, b.code)
             && Has(body, c.pc + |a.code| + |b.code|, LowerExpr(StepExpr(t.step), b.s).code)
    ensures var a := LowerExpr(t.from, s);
            var b := LowerExpr(t.to, a.s);
            var e := LowerExpr(StepExpr(t.step), b.s);
            match RangeBounds(Lowered, t, st)
            case Val(v, _) =>
              && Reaches(body, c, n, c') && c'.pc == c.pc + |a.code| + |b.code| + |e.code| && c'.out == c.out
              && OpValue(a.value, c'.regs) == Enc(v.from) && OpValue(b.value, c'.regs) == Enc(v.to)
              && OpValue(e.value, c'.regs) == Enc(v.step) && Kept(c.regs, c'.regs, s.nextReg)
            case Fail(_) => Run(body, Going(c), n) == Trapped(c.out)
  {
    hide Run, Has, Distinct, LowerExpr, Holds, StaticExpr, IsInt, Reaches, Eval, Enc, OpValue, Kept, StateOk;
    var a := LowerExpr(t.from, s);
    var b := LowerExpr(t.to, a.s);
    n, c' := BoundLowered(g, env, t.from, s, st, body, c);
    if Eval(Lowered, t.from, st).Val? {
      var c1 := c';
      var m, c2 := BoundLowered(g, env, t.to, a.s, st, body, c1);
      Later(body, c, n, c1, |a.code|, |b.code|, b.value, s.nextReg, a.s.nextReg, Eval(Lowered, t.to, st), m, c2);
      n, c' := n + m, c2;
      if Eval(Lowered, t.to, st).Val? {
        OperandKept(a.value, c1.regs, c2.regs, a.s.nextReg);
        n, c' := StepRuns(g, env, t, s, a, b, st, body, c, n, c2);
      }
    }
  }

  lemma {:induction false} StepRuns(g: Env, env: Env, t: Stmt, s: Low, a: LowExpr, b: LowExpr, st: Store, body: seq<Insn>,
        c: IrConfig, n: nat, c1: IrConfig)
    returns (k: nat, c': IrConfig)
    requires t.ForRange? && IsInt(env, StepExpr(t.step)) && StateOk(g, b.s) && Within(env, g) && Distinct(body)
    requires Reaches(body, c, n, c1) && c1.pc == c.pc + |a.code| + |b.code| && c1.out == c.out && Kept(c.regs, c1.regs, s.nextReg)
    requires Holds(env, st, b.s, c1.regs) && s.nextReg <= b.s.nextReg
    requires OperandBelow(a.value, b.s.nextReg) && OperandBelow(b.value, b.s.nextReg)
    requires Has(body, c1.pc, LowerExpr(StepExpr(t.step), b.s).code)
    ensures var e := LowerExpr(StepExpr(t.step), b.s);
            match Eval(Lowered, StepExpr(t.step), st)
            case Val(v, _) =>
              && Reaches(body, c, k, c') && c'.pc == c.pc + |a.code| + |b.code| + |e.code| && c'.out == c.out
              && OpValue(a.value, c'.regs) == OpValue(a.value, c1.regs) && OpValue(b.value, c'.regs) == OpValue(b.value, c1.regs)
              && OpValue(e.value, c'.regs) == Enc(v) && Kept(c.regs, c'.regs, s.nextReg)
            case Fail(_) => Run(body, Going(c), k) == Trapped(c.out)
  {
    hide Run, Has, Distinct, LowerExpr, Holds, StaticExpr, IsInt, Reaches, Eval, Enc, OpValue, Kept, StateOk;
    var m, c2 := BoundLowered(g, env, StepExpr(t.step), b.s, st, body, c1);
    var e := LowerExpr(StepExpr(t.step), b.s);
    Later(body, c, n, c1, |a.code| + |b.code|, |e.code|, e.value, s.nextReg, b.s.nextReg, Eval(Lowered, StepExpr(t.step), st), m, c2);
    k, c' := n + m, c2;
    if Eval(Lowered, StepExpr(t.step), st).Val? {
      OperandKept(a.value, c1.regs, c2.regs, b.s.nextReg);
      OperandKept(b.value, c1.regs, c2.regs, b.s.nextReg);
    }
  }

  lemma PresetSet(o: Operand, e: Expr, v: Value, env: Env, s: Low, x: string, regs: map<nat, i64>, w: i64)
    requires Follows(o, e, env, s) && HasTy(v, TInt) && OpValue(o, regs) == Enc(v) && x in s.locals
    ensures Preset(o, e, v, regs[s.locals[x].reg := w])
  {
  }

  /** The bounds and the step are evaluated and the counter set. */
  lemma {:induction false} RangeStart(g: Env, env: Env, t: Stmt, lp: Loops, s: Low, st: State, body: seq<Insn>,
        c: IrConfig)
    returns (n: nat, c': IrConfig, p: nat)
    requires t.ForRange? && StmtStarts(g, env, t, lp, s, st, body, c)
    ensures IntBounds(env, t) && StaticBlock(t.body) && StaticStmt(t) && StoreOk(env, st.vars) && t.name in g
    ensures var q := RangeOf(t, s);
            var s1 := RangeBodyState(t, s);
            var env1 := env[t.name := g[t.name]];
            match RangeBounds(Lowered, t, st.vars)
            case Val(b, _) =>
              && RangeReady(g, env1, t, s1, q, body, p) && RangeSet(t, q, b, c'.regs)
              && Reaches(body, c, n, c') && c'.pc == p + 1 && c'.out == c.out
              && Holds(env1, st.vars[t.name := b.from], s1, c'.regs) && Spares(c.regs, c'.regs, s, {t.name})
              && StmtFrame(g, env, t, lp, s, c.pc) == RangeFrame(env1, t, s1, q, p, lp).(env := env, s := s)
              && Grows(s, s1)
            case Fail(_) => Run(body, Going(c), n) == Trapped(c.out)
  {
    hide Run, Has, Distinct, LowerBlock, LowerStmt, LowerExpr, FlowBlock, Flow, StaticBlock, StaticStmt, StateOk,
      Grows, Find, Holds, IsInt, Written, OpValue, RangeOf, RangeBodyState, StoreOk, RangeReady, HasTy, Follows,
      StaticExpr, Within, Kept, Reaches, LowOk, RangeBounds, Spares, StmtFrame, RangeFrame, Enc, Preset, HintOf, Extends;
    RangeTyped(g, env, t, s);
    p := RangeStatic(g, env, t, lp, s, st, body, c);
    RangeCode(t, lp, s);
    assert StoreOk(env, st.vars) by { HoldsStore(env, st.vars, s, c.regs); }
    ExecRange(env, t, st, 0);
    FreshState(g, s, 4);
    HoldsGrow(env, st.vars, s, FreshLabels(s, 4), c.regs);
    n, c' := BoundsRun(g, env, t, FreshLabels(s, 4), st.vars, body, c);
    if RangeBounds(Lowered, t, st.vars).Val? {
      var c1 := c';
      n, c' := CounterSet(g, env, t, s, p, RangeBounds(Lowered, t, st.vars).value, st.vars, body, c, n, c1);
    }
  }

  /** The counter gets its first value. */
  lemma {:induction false} CounterSet(g: Env, env: Env, t: Stmt, s: Low, p: nat, b: Bounds, st: Store, body: seq<Insn>,
        c: IrConfig, n: nat, c1: IrConfig)
    returns (k: nat, c': IrConfig)
    requires t.ForRange? && StmtReady(g, env, t, s) && t.name in g && StaticStmt(t) && Holds(env, st, s, c.regs)
    requires HasTy(b.from, TInt) && HasTy(b.to, TInt) && HasTy(b.step, TInt)
    requires Reaches(body, c, n, c1) && Kept(c.regs, c1.regs, s.nextReg) && c1.pc == p
    requires RangeCodeKnown(t, s)
    requires var q := RangeOf(t, s);
             var a := LowerExpr(t.from, FreshLabels(s, 4)).value;
             && p < |body| && body[p] == Mov(q.r, a) && OpValue(a, c1.regs) == Enc(b.from)
             && OpValue(q.to, c1.regs) == Enc(b.to) && OpValue(q.step, c1.regs) == Enc(b.step)
    ensures var q, s1 := RangeOf(t, s), RangeBodyState(t, s);
            && RangeSet(t, q, b, c'.regs) && Reaches(body, c, k, c') && c'.pc == p + 1 && c'.out == c1.out
            && Holds(env[t.name := g[t.name]], st[t.name := b.from], s1, c'.regs) && Spares(c.regs, c'.regs, s, {t.name})
  {
    hide Run, LowerExpr, FlowBlock, Flow, StateOk, StaticStmt, StaticExpr, TypeOf,
      Grows, Holds, IsInt, OpValue, RangeOf, RangeBodyState, StoreOk, HasTy, Follows,
      Within, Kept, Reaches, LowOk, Spares, Enc, Preset, HintOf, Extends;
    RangeTyped(g, env, t, s);
    var q, s1 := RangeOf(t, s), RangeBodyState(t, s);
    StateParts(g, s);
    SameExtends(s);
    HoldsKept(env, st, s, s, c.regs, c1.regs);
    BodyStateOk(g, env, t, s);
    var env1 := env[t.name := g[t.name]];
    IntRange(b.from);
    AnyNumber(b.from, g[t.name]);
    AssignHolds(g, env, st, s, s1, c1.regs, t.name, g[t.name], b.from);
    BoundsFollow(g, env, t, s);
    PresetSet(q.to, t.to, b.to, env1, s1, t.name, c1.regs, Enc(b.from));
    PresetSet(q.step, StepExpr(t.step), b.step, env1, s1, t.name, c1.regs, Enc(b.from));
    k, c' := Hop(body, c, n, c1, body[p]);
    KeptSpares(c.regs, c1.regs, s);
    GrowsSelf(s);
    SparesTrans(c.regs, c1.regs, c'.regs, s, s, {}, {t.name});
    assert {} + {t.name} == {t.name};
  }

  /** The counter's register. */
  ghost predicate RangeCodeKnown(t: Stmt, s: Low)
    requires t.ForRange? && StaticStmt(t)
  {
    StaticExpr(t.from) && t.name in RangeBodyState(t, s).locals && RangeOf(t, s).r == RangeBodyState(t, s).locals[t.name].reg
  }

  lemma SameExtends(s: Low)
    ensures Extends(s, s)
  {
  }

  lemma BodyStateOk(g: Env, env: Env, t: Stmt, s: Low)
    requires t.ForRange? && StmtReady(g, env, t, s)
    ensures StateOk(g, RangeBodyState(t, s)) && Grows(s, RangeBodyState(t, s)) && t.name in RangeBodyState(t, s).locals
  {
    hide *;
    RangeBodyReady(g, env, t, s);
  }

  lemma {:induction false} RangeLowered(g: Env, env: Env, t: Stmt, lp: Loops, s: Low, st: State, fuel: nat,
        body: seq<Insn>, c: IrConfig)
    returns (n: nat, c': IrConfig)
    requires t.ForRange? && StmtStarts(g, env, t, lp, s, st, body, c)
    ensures Executes(body, c, Exec(Lowered, t, st, fuel), StmtFrame(g, env, t, lp, s, c.pc), fuel, n, c')
    decreases fuel, t, 2, 1
  {
    hide Run, Has, Distinct, LowerBlock, LowerStmt, LowerExpr, FlowBlock, Flow, StaticBlock, StaticStmt, StateOk,
      Grows, Find, Holds, IsInt, Reaches, ExecCounted, Exec, Written, Spares, OpValue, RangeBounds, RangeReady,
      RangeOf, RangeBodyState, StoreOk, RangeSet;
    var p, c1;
    n, c1, p := RangeStart(g, env, t, lp, s, st, body, c);
    c' := c1;
    ExecRange(env, t, st, fuel);
    if RangeBounds(Lowered, t, st.vars).Val? {
      var b := RangeBounds(Lowered, t, st.vars).value;
      var st1 := State(st.vars[t.name := b.from], st.out);
      var s1, q, env1 := RangeBodyState(t, s), RangeOf(t, s), env[t.name := g[t.name]];
      var l, c2 := RangeLoop(g, env1, t, lp, s1, q, p, b, st1, fuel, body, c1);
      var f1, f := RangeFrame(env1, t, s1, q, p, lp), StmtFrame(g, env, t, lp, s, c.pc);
      var r := ExecCounted(t, b, st1, fuel);
      RangeTyped(g, env, t, s);
      GrowsSelf(f.s');
      WithinSelf(env1);
      CounterWritten(t);
      n := Wrapped(body, c, n, c1, r, f1, fuel, l, c2, f, {t.name}, fuel);
      c' := c2;
    }
  }
}
