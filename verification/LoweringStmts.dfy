/** The typed fragment of statements, and what lowering a statement does to the compiler's state. */
module LoweringStmts {
  import opened Values
  import opened Ast
  import opened Source
  import opened Words
  import opened StaticIr
  import opened Lowering
  import opened LoweringExprs

  // ----- the typed fragment -----

  function Join(a: Env, b: Env): Env {
    map x | x in a && x in b && a[x] == b[x] :: a[x]
  }

  function OrElse(a: Option<Env>, b: Option<Env>): Option<Env> {
    if a.Some? && b.Some? then Some(Join(a.value, b.value)) else None
  }

  /** The variables a statement may assign. */
  function Written(t: Stmt): set<string> {
    match t
    case Assign(x, _) => {x}
    case Compound(x, _, _) => {x}
    case If(_, yes, rest) => WrittenBlock(yes) + WrittenRest(rest)
    case While(_, body) => WrittenBlock(body)
    case Loop(body) => WrittenBlock(body)
    case ForRange(x, _, _, _, body) => {x} + WrittenBlock(body)
    case Scope(body) => WrittenBlock(body)
    case _ => {}
  }

  function WrittenBlock(b: Block): set<string> {
    match b
    case Nil => {}
    case Cons(t, rest) => Written(t) + WrittenBlock(rest)
  }

  function WrittenRest(r: Rest): set<string> {
    match r
    case NoElse => {}
    case Else(body) => WrittenBlock(body)
    case Elif(_, body, rest) => WrittenBlock(body) + WrittenRest(rest)
  }

  predicate IsInt(env: Env, e: Expr)
    ensures IsInt(env, e) ==> StaticExpr(e)
  {
    TypeOf(env, e).Some? && IsNumber(TypeOf(env, e).value)
  }

  predicate IntBounds(env: Env, t: Stmt)
    requires t.ForRange?
    ensures IntBounds(env, t) ==> StaticExpr(t.from) && StaticExpr(t.to) && StaticExpr(StepExpr(t.step))
  {
    IsInt(env, t.from) && IsInt(env, t.to) && IsInt(env, StepExpr(t.step))
  }

  /** What may be stored in a variable of the type; the numbers that stand for truth values may not. */
  predicate Storable(value: Ty, variable: Ty) {
    value != TTruth && (value == variable || (value == TInt && variable == TAny))
  }

  /** What may be combined with the variable `x` and stored in it again. */
  predicate Updates(env: Env, x: string, op: BinOp, e: Expr)
    ensures Updates(env, x, op, e) ==> StaticExpr(e)
  {
    && x in env && TypeOf(env, e).Some? && op in {Add, Sub, Mul, FloorDiv, BinOp.Mod}
    && BinaryType(op, env[x], TypeOf(env, e).value, e) == Some(env[x])
  }

  /** The counter of a range is known if both bounds are. */
  predicate Counts(env: Env, t: Stmt, x: Ty)
    requires t.ForRange?
  {
    x == TAny || (x == TInt && TypeOf(env, t.from) == Some(TInt) && TypeOf(env, t.to) == Some(TInt))
  }

  /** Which variables are certainly assigned after the statement; `None` for a statement outside
      the fragment. */
  function Flow(g: Env, env: Env, t: Stmt): (r: Option<Env>)
    ensures r.Some? ==> StaticStmt(t)
    decreases t
  {
    match t
    case Assign(x, e) =>
      var a := TypeOf(env, e);
      if a.Some? && x in g && Storable(a.value, g[x]) then Some(env[x := g[x]]) else None
    case Compound(x, op, e) => if Updates(env, x, op, e) then Some(env) else None
    case ExprStmt(e) => if TypeOf(env, e).Some? then Some(env) else None
    case Println(es) => if es.Cons? && AllTyped(env, es) then Some(env) else None
    case If(c, yes, rest) =>
      if TypeOf(env, c).Some? then OrElse(FlowBlock(g, env, yes), FlowRest(g, env, rest)) else None
    case While(c, body) => if TypeOf(env, c).Some? && FlowBlock(g, env, body).Some? then Some(env) else None
    case Loop(body) => if FlowBlock(g, env, body).Some? then Some(env) else None
    case ForRange(x, _, _, step, body) =>
      if x in g && Counts(env, t, g[x]) && IntBounds(env, t) && FlowBlock(g, env[x := g[x]], body).Some?
      then Some(env[x := g[x]]) else None
    case Break => Some(env)
    case Continue => Some(env)
    case Scope(body) => FlowBlock(g, env, body)
    case _ => None
  }

  predicate AllTyped(env: Env, es: Vec<Expr>)
    ensures AllTyped(env, es) ==> StaticExprs(es)
  {
    match es
    case Nil => true
    case Cons(e, rest) => TypeOf(env, e).Some? && AllTyped(env, rest)
  }

  function FlowBlock(g: Env, env: Env, b: Block): (r: Option<Env>)
    ensures r.Some? ==> StaticBlock(b)
    decreases b
  {
    match b
    case Nil => Some(env)
    case Cons(t, rest) =>
      match Flow(g, env, t)
      case Some(env') => FlowBlock(g, env', rest)
      case None => None
  }

  function FlowRest(g: Env, env: Env, r: Rest): (x: Option<Env>)
    ensures x.Some? ==> StaticRest(r)
    decreases r
  {
    match r
    case NoElse => Some(env)
    case Else(body) => FlowBlock(g, env, body)
    case Elif(c, body, rest) =>
      if TypeOf(env, c).Some? then OrElse(FlowBlock(g, env, body), FlowRest(g, env, rest)) else None
  }

  ghost predicate Within(a: Env, b: Env) {
    forall x :: x in a ==> x in b && b[x] == a[x]
  }

  lemma {:induction false} FlowGrows(g: Env, env: Env, t: Stmt)
    requires Flow(g, env, t).Some? && Within(env, g)
    ensures Within(env, Flow(g, env, t).value) && Within(Flow(g, env, t).value, g)
    decreases t
  {
    hide TypeOf, AllTyped, IntBounds, Updates, Counts;
    match t
    case If(_, yes, rest) =>
      FlowBlockGrows(g, env, yes);
      FlowRestGrows(g, env, rest);
    case Scope(body) => FlowBlockGrows(g, env, body);
    case _ =>
  }

  lemma {:induction false} FlowBlockGrows(g: Env, env: Env, b: Block)
    requires FlowBlock(g, env, b).Some? && Within(env, g)
    ensures Within(env, FlowBlock(g, env, b).value) && Within(FlowBlock(g, env, b).value, g)
    decreases b
  {
    hide Flow;
    if b.Cons? {
      FlowGrows(g, env, b.head);
      FlowBlockGrows(g, Flow(g, env, b.head).value, b.tail);
    }
  }

  lemma {:induction false} FlowRestGrows(g: Env, env: Env, r: Rest)
    requires FlowRest(g, env, r).Some? && Within(env, g)
    ensures Within(env, FlowRest(g, env, r).value) && Within(FlowRest(g, env, r).value, g)
    decreases r
  {
    hide TypeOf;
    match r
    case NoElse =>
    case Else(body) => FlowBlockGrows(g, env, body);
    case Elif(_, body, rest) =>
      FlowBlockGrows(g, env, body);
      FlowRestGrows(g, env, rest);
  }

  // ----- the compiler's state -----

  /** What the compiler knows of a variable fits its type. */
  ghost predicate HintsOk(g: Env, s: Low) {
    forall x :: x in s.locals ==> x in g && g[x] != TTruth && HintFits(s.locals[x].hint, g[x])
  }

  lemma HintsWithin(g: Env, env: Env, s: Low)
    requires HintsOk(g, s) && Within(env, g)
    ensures HintsFit(env, s)
  {
  }

  /** Variables keep their registers; new ones take new registers. */
  ghost predicate Grows(s: Low, s': Low) {
    && s.nextReg <= s'.nextReg && s.nextLabel <= s'.nextLabel
    && (forall x :: x in s.locals ==> x in s'.locals && s'.locals[x].reg == s.locals[x].reg)
    && (forall x :: x in s'.locals && x !in s.locals ==> s'.locals[x].reg >= s.nextReg)
  }

  ghost predicate StateOk(g: Env, s: Low) {
    LowOk(s) && HintsOk(g, s)
  }

  lemma GrowsTrans(a: Low, b: Low, c: Low)
    requires Grows(a, b) && Grows(b, c)
    ensures Grows(a, c)
  {
  }

  lemma ExtendsGrows(g: Env, s: Low, s': Low)
    requires Extends(s, s') && StateOk(g, s)
    ensures Grows(s, s') && StateOk(g, s')
  {
  }

  /** What is known of the operand of a typed expression. */
  lemma OperandHint(g: Env, env: Env, e: Expr, s: Low)
    requires TypeOf(env, e).Some? && Within(env, g) && StateOk(g, s) && Covers(env, s)
    ensures HintFits(HintOf(LowerExpr(e, s).value), TypeOf(env, e).value)
  {
    hide LowerExpr, TypeOf, HintFits;
    HintsWithin(g, env, s);
    ExprHint(env, e, s);
  }

  lemma DeclareState(g: Env, x: string, h: Hint, s: Low)
    requires StateOk(g, s) && x in g && g[x] != TTruth && HintFits(h, g[x])
    ensures Grows(s, Declare(x, h, s)) && StateOk(g, Declare(x, h, s)) && x in Declare(x, h, s).locals
  {
    hide HintFits;
  }

  lemma ExprGrows(g: Env, e: Expr, s: Low)
    requires StaticExpr(e) && StateOk(g, s)
    ensures var r := LowerExpr(e, s); Grows(s, r.s) && StateOk(g, r.s) && Extends(s, r.s) && OperandBelow(r.value, r.s.nextReg)
  {
    hide LowerExpr, StaticExpr;
    ExprState(e, s);
    ExtendsGrows(g, s, LowerExpr(e, s).s);
  }

  lemma CondGrows(g: Env, e: Expr, target: nat, s: Low, k: nat)
    requires StaticExpr(e) && StateOk(g, s)
    ensures var r := LowerCond(e, target, FreshLabels(s, k)); Grows(s, r.s) && StateOk(g, r.s) && Extends(s, r.s)
  {
    hide LowerCond, StaticExpr;
    CondState(e, target, FreshLabels(s, k));
    ExtendsGrows(g, s, LowerCond(e, target, FreshLabels(s, k)).s);
  }

  lemma StoreState(g: Env, env: Env, x: string, e: Expr, s: Low)
    requires TypeOf(env, e).Some? && Within(env, g) && x in g && g[x] != TTruth && Storable(TypeOf(env, e).value, g[x])
    requires StateOk(g, s) && Covers(env, s)
    ensures var a := LowerExpr(e, s); var b := StoreTo(x, a.value, a.s); Grows(s, b.s) && StateOk(g, b.s) && x in b.s.locals
  {
    hide LowerExpr, StaticExpr, TypeOf;
    ExprGrows(g, e, s);
    OperandHint(g, env, e, s);
    var a := LowerExpr(e, s);
    StoredHint(HintOf(a.value), TypeOf(env, e).value, g[x]);
    DeclareState(g, x, HintOf(a.value), a.s);
    GrowsTrans(s, a.s, StoreTo(x, a.value, a.s).s);
  }

  lemma StoredHint(h: Hint, value: Ty, variable: Ty)
    requires HintFits(h, value) && Storable(value, variable)
    ensures HintFits(h, variable)
  {
  }

  lemma UpdateState(g: Env, env: Env, x: string, op: BinOp, e: Expr, s: Low)
    requires Updates(env, x, op, e) && Within(env, g) && StateOk(g, s) && Covers(env, s)
    ensures var a := LowerExpr(e, s); var b := Update(x, op, a.value, OldValue(x, s), a.s);
            Grows(s, b.s) && StateOk(g, b.s) && x in b.s.locals
  {
    hide LowerExpr, StaticExpr, TypeOf, BinaryType;
    ExprGrows(g, e, s);
    OperandHint(g, env, e, s);
    var a := LowerExpr(e, s);
    var v := OldValue(x, s);
    var h := if IsStatic(HintOf(v)) && IsStatic(HintOf(a.value)) then HintOf(v) else Dynamic;
    UpdatedHint(op, HintOf(v), HintOf(a.value), env[x], TypeOf(env, e).value, e);
    var s1 := FreshReg(a.s);
    assert Grows(a.s, s1) && StateOk(g, s1);
    DeclareState(g, x, h, s1);
    GrowsTrans(s, a.s, s1);
    GrowsTrans(s, s1, Declare(x, h, s1));
  }

  lemma UpdatedHint(op: BinOp, h: Hint, k: Hint, x: Ty, v: Ty, e: Expr)
    requires op in {Add, Sub, Mul, FloorDiv, BinOp.Mod} && BinaryType(op, x, v, e) == Some(x) && HintFits(h, x) && HintFits(k, v)
    ensures HintFits(if IsStatic(h) && IsStatic(k) then h else Dynamic, x)
  {
    hide Literal;
  }

  lemma {:induction false} PrintState(g: Env, env: Env, es: Vec<Expr>, s: Low)
    requires AllTyped(env, es) && StateOk(g, s)
    ensures Grows(s, LowerPrint(es, s).s) && StateOk(g, LowerPrint(es, s).s)
    decreases es
  {
    hide LowerExpr, StaticExpr, TypeOf;
    if es.Cons? {
      ExprGrows(g, es.head, s);
      var a := LowerExpr(es.head, s);
      PrintState(g, env, es.tail, a.s);
      GrowsTrans(s, a.s, LowerPrint(es.tail, a.s).s);
    }
  }

  ghost predicate StmtReady(g: Env, env: Env, t: Stmt, s: Low) {
    Flow(g, env, t).Some? && Within(env, g) && StateOk(g, s) && (forall x :: x in env ==> x in s.locals)
  }

  ghost predicate BlockReady(g: Env, env: Env, b: Block, s: Low) {
    FlowBlock(g, env, b).Some? && Within(env, g) && StateOk(g, s) && (forall x :: x in env ==> x in s.locals)
  }

  ghost predicate RestReady(g: Env, env: Env, r: Rest, s: Low) {
    FlowRest(g, env, r).Some? && Within(env, g) && StateOk(g, s) && (forall x :: x in env ==> x in s.locals)
  }

  ghost predicate Covers(env: Env, s: Low) {
    forall x :: x in env ==> x in s.locals
  }

  lemma {:induction false} StmtState(g: Env, env: Env, t: Stmt, lp: Loops, s: Low)
    requires StmtReady(g, env, t, s)
    ensures var r := LowerStmt(t, lp, s); Grows(s, r.s) && StateOk(g, r.s) && Covers(Flow(g, env, t).value, r.s)
    decreases t, 1
  {
    hide LowerExpr, LowerCond, StaticExpr, TypeOf, IntBounds, Updates, Counts, StoreTo, Update, OldValue, StateOk;
    match t
    case Assign(x, e) => StoreState(g, env, x, e, s);
    case Compound(x, op, e) => UpdateState(g, env, x, op, e, s);
    case ExprStmt(e) => ExprGrows(g, e, s);
    case Println(es) => PrintState(g, env, es, s);
    case If(_, _, _) => IfState(g, env, t, lp, s);
    case While(c, body) => WhileState(g, env, t, s);
    case Loop(body) => WhileState(g, env, t, s);
    case ForRange(_, _, _, _, _) => RangeState(g, env, t, lp, s);
    case Scope(body) => BlockState(g, env, body, lp, s);
    case _ =>
  }

  lemma FreshState(g: Env, s: Low, k: nat)
    requires StateOk(g, s)
    ensures Grows(s, FreshLabels(s, k)) && StateOk(g, FreshLabels(s, k)) && Grows(s, FreshReg(s)) && StateOk(g, FreshReg(s))
  {
  }

  lemma {:induction false} IfState(g: Env, env: Env, t: Stmt, lp: Loops, s: Low)
    requires t.If? && StmtReady(g, env, t, s)
    ensures var r := LowerStmt(t, lp, s); Grows(s, r.s) && StateOk(g, r.s) && Covers(Flow(g, env, t).value, r.s)
    decreases t, 0
  {
    hide LowerExpr, LowerCond, StaticExpr, TypeOf, StateOk, LowerBlock, LowerRest, FlowBlock, FlowRest;
    var cc := LowerCond(t.cond, s.nextLabel, FreshLabels(s, 2));
    CondGrows(g, t.cond, s.nextLabel, s, 2);
    BlockState(g, env, t.yes, lp, cc.s);
    var b := LowerBlock(t.yes, lp, cc.s);
    GrowsTrans(s, cc.s, b.s);
    RestState(g, env, t.rest, s.nextLabel + 1, lp, b.s);
    GrowsTrans(s, b.s, LowerRest(t.rest, s.nextLabel + 1, lp, b.s).s);
  }

  lemma {:induction false} WhileState(g: Env, env: Env, t: Stmt, s: Low)
    requires (t.While? || t.Loop?) && StmtReady(g, env, t, s)
    ensures var r := LowerStmt(t, NoLoop, s); Grows(s, r.s) && StateOk(g, r.s)
    ensures forall lp :: LowerStmt(t, lp, s) == LowerStmt(t, NoLoop, s)
    decreases t, 0
  {
    hide LowerExpr, LowerCond, StaticExpr, TypeOf, StateOk, LowerBlock, FlowBlock;
    var lp := InLoop(s.nextLabel, s.nextLabel + 1);
    var s1 := if t.While? then LowerCond(t.cond, s.nextLabel + 1, FreshLabels(s, 3)).s else FreshLabels(s, 3);
    if t.While? {
      CondGrows(g, t.cond, s.nextLabel + 1, s, 3);
    } else {
      FreshState(g, s, 3);
    }
    BlockState(g, env, t.body, lp, s1);
    GrowsTrans(s, s1, LowerBlock(t.body, lp, s1).s);
  }

  /** The compiler's state at the body of a range loop. */
  function RangeBodyState(t: Stmt, s: Low): Low
    requires t.ForRange? && StaticStmt(t)
  {
    var a := LowerExpr(t.from, FreshLabels(s, 4));
    var b := LowerExpr(t.to, a.s);
    var c := StepOperand(t.step, b.s);
    Declare(t.name, if HintOf(a.value).I64? && HintOf(b.value).I64? then I64 else Dynamic, c.s)
  }

  lemma StepLowered(step: Option<Expr>, s: Low)
    requires StaticExpr(StepExpr(step))
    ensures StepOperand(step, s) == LowerExpr(StepExpr(step), s)
  {
  }

  /** What is known of the counter. */
  lemma CounterHint(g: Env, env: Env, t: Stmt, s: Low)
    requires t.ForRange? && StmtReady(g, env, t, s)
    ensures t.name in g && g[t.name] != TTruth
    ensures var a := LowerExpr(t.from, FreshLabels(s, 4));
            var b := LowerExpr(t.to, a.s);
            HintFits(if HintOf(a.value).I64? && HintOf(b.value).I64? then I64 else Dynamic, g[t.name])
  {
    hide LowerExpr, TypeOf, StaticExpr, FlowBlock, LowOk, HintsOk;
    var s0 := FreshLabels(s, 4);
    FreshState(g, s, 4);
    if g[t.name] == TInt {
      OperandHint(g, env, t.from, s0);
      ExprGrows(g, t.from, s0);
      OperandHint(g, env, t.to, LowerExpr(t.from, s0).s);
    }
  }

  lemma {:induction false} RangeBodyReady(g: Env, env: Env, t: Stmt, s: Low)
    requires t.ForRange? && StmtReady(g, env, t, s)
    ensures t.name in g
    ensures var s1 := RangeBodyState(t, s);
            && Grows(s, s1) && StateOk(g, s1) && t.name in s1.locals
            && BlockReady(g, env[t.name := g[t.name]], t.body, s1)
  {
    hide LowerExpr, LowerCond, StaticExpr, TypeOf, LowerBlock, FlowBlock, LowOk, HintsOk;
    var s0 := FreshLabels(s, 4);
    FreshState(g, s, 4);
    ExprGrows(g, t.from, s0);
    var a := LowerExpr(t.from, s0);
    GrowsTrans(s, s0, a.s);
    ExprGrows(g, t.to, a.s);
    var b := LowerExpr(t.to, a.s);
    GrowsTrans(s, a.s, b.s);
    StepLowered(t.step, b.s);
    ExprGrows(g, StepExpr(t.step), b.s);
    var c := LowerExpr(StepExpr(t.step), b.s);
    GrowsTrans(s, b.s, c.s);
    CounterHint(g, env, t, s);
    DeclareState(g, t.name, if HintOf(a.value).I64? && HintOf(b.value).I64? then I64 else Dynamic, c.s);
    GrowsTrans(s, c.s, RangeBodyState(t, s));
  }

  /** The state after a range loop. */
  lemma {:induction false} RangeAfter(t: Stmt, lp: Loops, s: Low)
    requires t.ForRange? && StaticStmt(t)
    ensures StaticBlock(t.body)
    ensures LowerStmt(t, lp, s).s
         == FreshReg(LowerBlock(t.body, InLoop(s.nextLabel, s.nextLabel + 1), RangeBodyState(t, s)).s)
  {
    hide LowerExpr, StaticExpr, LowerBlock, RangeHead, RangeTail, StepOperand, Declare;
  }

  lemma {:induction false} RangeState(g: Env, env: Env, t: Stmt, lp: Loops, s: Low)
    requires t.ForRange? && StmtReady(g, env, t, s)
    ensures var r := LowerStmt(t, lp, s); Grows(s, r.s) && StateOk(g, r.s) && Covers(Flow(g, env, t).value, r.s)
    decreases t, 0
  {
    hide LowerStmt, LowerBlock, RangeBodyState, StaticStmt, StateOk, FlowBlock;
    RangeBodyReady(g, env, t, s);
    RangeAfter(t, lp, s);
    var s1 := RangeBodyState(t, s);
    var inner := InLoop(s.nextLabel, s.nextLabel + 1);
    BlockState(g, env[t.name := g[t.name]], t.body, inner, s1);
    var d := LowerBlock(t.body, inner, s1);
    FreshState(g, d.s, 0);
    GrowsTrans(s, s1, d.s);
    GrowsTrans(s, d.s, FreshReg(d.s));
  }

  lemma {:induction false} BlockState(g: Env, env: Env, b: Block, lp: Loops, s: Low)
    requires BlockReady(g, env, b, s)
    ensures var r := LowerBlock(b, lp, s); Grows(s, r.s) && StateOk(g, r.s) && Covers(FlowBlock(g, env, b).value, r.s)
    decreases b, 1
  {
    hide LowerStmt, StaticStmt, Flow, StateOk;
    if b.Cons? {
      FlowGrows(g, env, b.head);
      StmtState(g, env, b.head, lp, s);
      var a := LowerStmt(b.head, lp, s);
      BlockState(g, Flow(g, env, b.head).value, b.tail, lp, a.s);
      GrowsTrans(s, a.s, LowerBlock(b.tail, lp, a.s).s);
    }
  }

  lemma {:induction false} RestState(g: Env, env: Env, r: Rest, end: nat, lp: Loops, s: Low)
    requires RestReady(g, env, r, s)
    ensures var x := LowerRest(r, end, lp, s); Grows(s, x.s) && StateOk(g, x.s) && Covers(FlowRest(g, env, r).value, x.s)
    decreases r, 1
  {
    hide LowerCond, StaticExpr, TypeOf, StateOk, LowerBlock, FlowBlock;
    match r
    case NoElse =>
    case Else(body) => BlockState(g, env, body, lp, s);
    case Elif(c, body, rest) =>
      var cc := LowerCond(c, s.nextLabel, FreshLabels(s, 1));
      CondGrows(g, c, s.nextLabel, s, 1);
      BlockState(g, env, body, lp, cc.s);
      var b := LowerBlock(body, lp, cc.s);
      GrowsTrans(s, cc.s, b.s);
      RestState(g, env, rest, end, lp, b.s);
      GrowsTrans(s, b.s, LowerRest(rest, end, lp, b.s).s);
  }
}
