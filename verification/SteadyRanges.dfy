/** Steady programs, which mean the same documented and lowered: in range loops the bounds are steady and
    the step is a positive literal, nobody reads a counter after its loop, no number that may be negative is
    divided, and no truth value is printed or made of bits. */
module SteadyRanges {
  import opened Arithmetic
  import opened Values
  import opened Ast
  import opened Source
  import opened Exits
  import opened Words
  import opened Lowering
  import opened LoweringExprs
  import opened LoweringStmts

  // ----- what a statement leaves alone -----

  lemma {:induction false} StaticEval(e: Expr, st: Store)
    requires StaticExpr(e)
    ensures var r := Eval(Lowered, e, st); r.Val? ==> r.st == st
  {
    match e
    case Binary(_, l, r) =>
      StaticEval(l, st);
      StaticEval(r, st);
    case And(l, r) =>
      StaticEval(l, st);
      StaticEval(r, st);
    case Or(l, r) =>
      StaticEval(l, st);
      StaticEval(r, st);
    case Unary(_, x) => StaticEval(x, st);
    case Ternary(c, yes, no) =>
      StaticEval(c, st);
      StaticEval(yes, st);
      StaticEval(no, st);
    case _ =>
  }

  /** The variable holds what it held. */
  ghost predicate Untouched(y: string, st: State, r: ExecResult) {
    r.Done? ==> Get(r.st.vars, y) == Get(st.vars, y)
  }

  lemma {:induction false} PrintUntouched(es: Vec<Expr>, st: State, y: string)
    requires StaticExprs(es)
    ensures Untouched(y, st, Print(Lowered, es, st))
    decreases es
  {
    hide Eval, StaticExpr;
    if es.Cons? {
      StaticEval(es.head, st.vars);
      var r := Eval(Lowered, es.head, st.vars);
      if r.Val? {
        PrintUntouched(es.tail, State(r.st, st.out + Shown(Lowered, r.value)), y);
      }
    }
  }

  lemma {:induction false} StmtUntouched(t: Stmt, st: State, fuel: nat, y: string)
    requires StaticStmt(t) && y !in Written(t)
    ensures Untouched(y, st, Exec(Lowered, t, st, fuel))
    decreases fuel, t, 1, 0
  {
    hide Eval, StaticExpr, Print, Operated;
    match t
    case Assign(_, e) => StaticEval(e, st.vars);
    case Compound(_, _, e) => StaticEval(e, st.vars);
    case ExprStmt(e) => StaticEval(e, st.vars);
    case Println(es) => PrintUntouched(es, st, y);
    case If(c, yes, rest) =>
      StaticEval(c, st.vars);
      BlockUntouched(yes, st, fuel, y);
      RestUntouched(rest, st, fuel, y);
      assert State(st.vars, st.out) == st;
    case While(c, body) =>
      StaticEval(c, st.vars);
      assert State(st.vars, st.out) == st;
      if fuel > 0 {
        AgainUntouched(t, st, fuel, y);
      }
    case Loop(body) =>
      if fuel > 0 {
        AgainUntouched(t, st, fuel, y);
      }
    case ForRange(x, from, to, step, body) =>
      StaticEval(from, st.vars);
      StaticEval(to, st.vars);
      if step.Some? {
        StaticEval(step.value, st.vars);
      } else {
        UnitStep(Lowered, st.vars);
      }
      var b := RangeBounds(Lowered, t, st.vars);
      if b.Val? {
        CountedUntouched(t, b.value, State(st.vars[x := b.value.from], st.out), fuel, y);
      }
    case Scope(body) => BlockUntouched(body, st, fuel, y);
    case _ =>
  }

  lemma {:induction false} AgainUntouched(t: Stmt, st: State, fuel: nat, y: string)
    requires (t.While? || t.Loop?) && StaticStmt(t) && y !in Written(t) && fuel > 0
    ensures Untouched(y, st, Again(Lowered, t, t.body, st, fuel))
    decreases fuel, t, 0, 0
  {
    BlockUntouched(t.body, st, fuel, y);
    var r := ExecBlock(Lowered, t.body, st, fuel);
    if r.Done? && r.exit != Broke {
      StmtUntouched(t, r.st, fuel - 1, y);
    }
  }

  lemma {:induction false} CountedUntouched(t: Stmt, b: Bounds, st: State, fuel: nat, y: string)
    requires t.ForRange? && StaticStmt(t) && y !in Written(t)
    ensures Untouched(y, st, ExecCounted(t, b, st, fuel))
    decreases fuel, t, 0, 0
  {
    hide GoesOn, Seen;
    if GoesOn(t, b, st.vars) && fuel > 0 {
      BlockUntouched(t.body, st, fuel, y);
      var r := ExecBlock(Lowered, t.body, st, fuel);
      if r.Done? && r.exit != Broke {
        CountedUntouched(t, b, Advanced(t, b, r.st), fuel - 1, y);
      }
    }
  }

  lemma {:induction false} BlockUntouched(b: Block, st: State, fuel: nat, y: string)
    requires StaticBlock(b) && y !in WrittenBlock(b)
    ensures Untouched(y, st, ExecBlock(Lowered, b, st, fuel))
    decreases fuel, b, 1, 0
  {
    if b.Cons? {
      StmtUntouched(b.head, st, fuel, y);
      var r := Exec(Lowered, b.head, st, fuel);
      if r.Done? && r.exit == Normal {
        BlockUntouched(b.tail, r.st, fuel, y);
      }
    }
  }

  lemma {:induction false} RestUntouched(r: Rest, st: State, fuel: nat, y: string)
    requires StaticRest(r) && y !in WrittenRest(r)
    ensures Untouched(y, st, ExecRest(Lowered, r, false, st, fuel))
    decreases fuel, r, 1, 0
  {
    hide Eval, StaticExpr;
    match r
    case NoElse =>
    case Else(body) => BlockUntouched(body, st, fuel, y);
    case Elif(c, body, rest) =>
      StaticEval(c, st.vars);
      assert State(st.vars, st.out) == st;
      BlockUntouched(body, st, fuel, y);
      RestUntouched(rest, st, fuel, y);
  }

  // ----- steady programs -----

  /** Both readings give the expression the same value, or one that is as true: it divides nothing but
      literals, the dividend not negative, folds no `and` or `or`, and has `not` of truth values alone. */
  predicate Calm(env: Env, e: Expr) {
    match e
    case Binary(op, l, r) =>
      Calm(env, l) && Calm(env, r) && (op in {FloorDiv, BinOp.Mod} ==> Folded(e) && Literal(l).value >= 0 && Literal(r).value != 0)
    case And(l, r) => Calm(env, l) && Calm(env, r) && !Folded(e)
    case Or(l, r) => Calm(env, l) && Calm(env, r) && !Folded(e)
    case Unary(op, x) => Calm(env, x) && (op == UnOp.Not ==> TypeOf(env, x) == Some(TBool))
    case Ternary(c, yes, no) => Calm(env, c) && Calm(env, yes) && Calm(env, no)
    case _ => true
  }

  function CalmType(env: Env, e: Expr): (r: Option<Ty>)
    ensures r.Some? ==> StaticExpr(e)
  {
    if Calm(env, e) then TypeOf(env, e) else None
  }

  predicate CalmInt(env: Env, e: Expr)
    ensures CalmInt(env, e) ==> StaticExpr(e)
  {
    CalmType(env, e).Some? && IsNumber(CalmType(env, e).value)
  }

  predicate CalmBounds(env: Env, t: Stmt)
    requires t.ForRange?
    ensures CalmBounds(env, t) ==> StaticExpr(t.from) && StaticExpr(t.to) && StaticExpr(StepExpr(t.step))
  {
    CalmInt(env, t.from) && CalmInt(env, t.to) && CalmInt(env, StepExpr(t.step))
  }

  /** The counters of the range loops in a statement. */
  function Counters(t: Stmt): set<string> {
    match t
    case If(_, yes, rest) => CountersBlock(yes) + CountersRest(rest)
    case While(_, body) => CountersBlock(body)
    case Loop(body) => CountersBlock(body)
    case ForRange(x, _, _, _, body) => {x} + CountersBlock(body)
    case Scope(body) => CountersBlock(body)
    case _ => {}
  }

  function CountersBlock(b: Block): set<string> {
    match b
    case Nil => {}
    case Cons(t, rest) => Counters(t) + CountersBlock(rest)
  }

  function CountersRest(r: Rest): set<string> {
    match r
    case NoElse => {}
    case Else(body) => CountersBlock(body)
    case Elif(_, body, rest) => CountersBlock(body) + CountersRest(rest)
  }

  /** The loop counts upwards and comes to an end: the counter cannot pass the end of the integers, or the
      bounds are literals and the range between them is a list. */
  predicate Countable(from: Expr, to: Expr, step: Expr) {
    && step.IntLit? && step.i > 0
    && (|| step.i == 1 || (to.IntLit? && to.i + step.i <= TWO63)
        || (from.IntLit? && to.IntLit? && RangeItems(from.i, to.i, step.i).Ok?))
  }

  /** The body changes neither the counter nor the bound. */
  predicate SteadyBound(x: string, to: Expr, body: Block) {
    x !in WrittenBlock(body) && (to.Var? ==> to.name != x && to.name !in WrittenBlock(body))
  }

  predicate AllInts(env: Env, es: Vec<Expr>)
    ensures AllInts(env, es) ==> StaticExprs(es)
  {
    match es
    case Nil => true
    case Cons(e, rest) => CalmInt(env, e) && AllInts(env, rest)
  }

  /** Which variables certainly hold the same in both readings after the statement; a counter
      does not after its loop. */
  function Settled(g: Env, env: Env, t: Stmt): (r: Option<Env>)
    ensures r.Some? ==> StaticStmt(t)
    decreases t
  {
    match t
    case Assign(x, e) =>
      var a := CalmType(env, e);
      if a.Some? && x in g && Storable(a.value, g[x]) then Some(env[x := g[x]]) else None
    case Compound(x, op, e) => if Updates(env, x, op, e) && op in {Add, Sub, Mul} && Calm(env, e) then Some(env) else None
    case ExprStmt(e) => if CalmType(env, e).Some? then Some(env) else None
    case Println(es) => if es.Cons? && AllInts(env, es) then Some(env) else None
    case If(c, yes, rest) =>
      if CalmType(env, c).Some? then OrElse(SettledBlock(g, env, yes), SettledRest(g, env, rest)) else None
    case While(c, body) =>
      var e0 := env - CountersBlock(body);
      if CalmType(e0, c).Some? && SettledBlock(g, e0, body).Some? then Some(e0) else None
    case Loop(body) =>
      var e0 := env - CountersBlock(body);
      if SettledBlock(g, e0, body).Some? then Some(e0) else None
    case ForRange(x, from, to, step, body) =>
      var e0 := env - ({x} + CountersBlock(body));
      if && x in g && Counts(env, t, g[x]) && CalmBounds(env, t)
         && Countable(from, to, StepExpr(step)) && SteadyBound(x, to, body) && SettledBlock(g, e0[x := g[x]], body).Some?
      then Some(e0) else None
    case Break => Some(env)
    case Continue => Some(env)
    case Scope(body) => SettledBlock(g, env, body)
    case _ => None
  }

  function SettledBlock(g: Env, env: Env, b: Block): (r: Option<Env>)
    ensures r.Some? ==> StaticBlock(b)
    decreases b
  {
    match b
    case Nil => Some(env)
    case Cons(t, rest) =>
      match Settled(g, env, t)
      case Some(env') => SettledBlock(g, env', rest)
      case None => None
  }

  function SettledRest(g: Env, env: Env, r: Rest): (x: Option<Env>)
    ensures x.Some? ==> StaticRest(r)
    decreases r
  {
    match r
    case NoElse => Some(env)
    case Else(body) => SettledBlock(g, env, body)
    case Elif(c, body, rest) =>
      if CalmType(env, c).Some? then OrElse(SettledBlock(g, env, body), SettledRest(g, env, rest)) else None
  }

  lemma {:induction false} SettledGrows(g: Env, env: Env, t: Stmt)
    requires Settled(g, env, t).Some? && Within(env, g)
    ensures Within(env - Counters(t), Settled(g, env, t).value) && Within(Settled(g, env, t).value, g)
    decreases t
  {
    hide CalmType, Calm, AllInts, CalmBounds, Countable, SteadyBound, Updates, Counts;
    match t
    case If(_, yes, rest) =>
      SettledBlockGrows(g, env, yes);
      SettledRestGrows(g, env, rest);
    case Scope(body) => SettledBlockGrows(g, env, body);
    case _ =>
  }

  lemma {:induction false} SettledBlockGrows(g: Env, env: Env, b: Block)
    requires SettledBlock(g, env, b).Some? && Within(env, g)
    ensures Within(env - CountersBlock(b), SettledBlock(g, env, b).value) && Within(SettledBlock(g, env, b).value, g)
    decreases b
  {
    hide Settled;
    if b.Cons? {
      SettledGrows(g, env, b.head);
      SettledBlockGrows(g, Settled(g, env, b.head).value, b.tail);
    }
  }

  lemma {:induction false} SettledRestGrows(g: Env, env: Env, r: Rest)
    requires SettledRest(g, env, r).Some? && Within(env, g)
    ensures Within(env - CountersRest(r), SettledRest(g, env, r).value) && Within(SettledRest(g, env, r).value, g)
    decreases r
  {
    hide CalmType;
    match r
    case NoElse =>
    case Else(body) => SettledBlockGrows(g, env, body);
    case Elif(_, body, rest) =>
      SettledBlockGrows(g, env, body);
      SettledRestGrows(g, env, rest);
  }

  // ----- the two readings side by side -----

  ghost predicate Alike(env: Env, a: Store, b: Store) {
    forall x :: x in env ==> x in a && x in b && a[x] == b[x] && HasTy(a[x], env[x])
  }

  lemma AlikeLess(env: Env, env': Env, a: Store, b: Store)
    requires Alike(env', a, b) && Within(env, env')
    ensures Alike(env, a, b)
  {
  }

  lemma AlikeHas(env: Env, a: Store, b: Store, x: string)
    requires Alike(env, a, b) && x in env
    ensures Get(a, x) == Get(b, x) && HasTy(Get(a, x), env[x])
  {
  }

  lemma AlikeSet(env: Env, a: Store, b: Store, x: string, ty: Ty, v: Value)
    requires Alike(env, a, b) && HasTy(v, ty)
    ensures Alike(env[x := ty], a[x := v], b[x := v])
  {
  }

  /** The same value, or for the numbers that stand for truth values, one that is as true. */
  predicate AsTrue(t: Ty, v: Value, w: Value) {
    if t == TTruth then Truthy(v) == Truthy(w) else v == w
  }

  lemma CondAlike(env: Env, e: Expr, a: Store, b: Store) returns (v: Value, w: Value)
    requires CalmType(env, e).Some? && Alike(env, a, b)
    ensures Eval(Documented, e, a) == Val(v, a) && Eval(Lowered, e, b) == Val(w, b) && Truthy(v) == Truthy(w)
  {
    hide Eval, Calm, TypeOf, Alike;
    SameValue(env, e, a, b);
    v, w := Eval(Documented, e, a).value, Eval(Lowered, e, b).value;
  }

  lemma EvalAlike(env: Env, e: Expr, a: Store, b: Store) returns (v: Value)
    requires CalmType(env, e).Some? && CalmType(env, e).value != TTruth && Alike(env, a, b)
    ensures Eval(Documented, e, a) == Val(v, a) && Eval(Lowered, e, b) == Val(v, b) && HasTy(v, TypeOf(env, e).value)
  {
    hide Eval, Calm, TypeOf, Alike, HasTy;
    SameValue(env, e, a, b);
    v := Eval(Documented, e, a).value;
  }

  lemma AlikeStore(env: Env, a: Store, b: Store)
    requires Alike(env, a, b)
    ensures StoreOk(env, b)
  {
  }

  lemma {:induction false} SameValue(env: Env, e: Expr, a: Store, b: Store)
    requires Calm(env, e) && TypeOf(env, e).Some? && Alike(env, a, b)
    ensures var d, l, t := Eval(Documented, e, a), Eval(Lowered, e, b), TypeOf(env, e).value;
            d.Val? && l.Val? && d.st == a && l.st == b && HasTy(l.value, t) && AsTrue(t, d.value, l.value)
    decreases e, 1
  {
    hide HasTy, Operated, Joined, Alike, Literal, BinaryType, LogicType, UnaryValue, Flipped, AsTrue, Truthy;
    match e
    case Var(x) => AlikeHas(env, a, b, x); SameAsTrue(env[x], Get(a, x));
    case Binary(_, _, _) => BinarySame(env, e, a, b);
    case And(l, r) => LogicSame(env, e, a, b);
    case Or(l, r) => LogicSame(env, e, a, b);
    case Unary(op, x) =>
      SameValue(env, x, a, b);
      NumbersSame(op, TypeOf(env, x).value, Eval(Documented, x, a).value, Eval(Lowered, x, b).value);
    case Ternary(c, yes, no) =>
      SameValue(env, c, a, b);
      SameValue(env, yes, a, b);
      SameValue(env, no, a, b);
      ChosenSame(TypeOf(env, c).value, Eval(Documented, c, a).value, Eval(Lowered, c, b).value,
                 TypeOf(env, yes).value, TypeOf(env, no).value, TypeOf(env, e).value);
    case IntLit(i) => SameAsTrue(TInt, Int(i)); LeafTyped(env, e, b);
    case BoolLit(v) => SameAsTrue(TBool, Bool(v)); LeafTyped(env, e, b);
    case _ =>
  }

  lemma SameAsTrue(t: Ty, v: Value)
    ensures AsTrue(t, v, v)
  {
  }

  lemma LeafTyped(env: Env, e: Expr, st: Store)
    requires (e.IntLit? || e.BoolLit?) && TypeOf(env, e).Some?
    ensures HasTy(Eval(Lowered, e, st).value, TypeOf(env, e).value)
  {
  }

  /** `-` of numbers and `not` of truth values. */
  lemma NumbersSame(op: UnOp, t: Ty, v: Value, w: Value)
    requires HasTy(w, t) && AsTrue(t, v, w) && (if op == UnOp.Neg then IsNumber(t) else t == TBool)
    ensures v == w && !(op == UnOp.Not && w.Int?) && HasTy(UnaryValue(op, w), t) && AsTrue(t, UnaryValue(op, v), UnaryValue(op, w))
  {
  }

  /** The same branch is chosen, and the types of the branches are those of values. */
  lemma ChosenSame(t: Ty, v: Value, w: Value, yes: Ty, no: Ty, all: Ty)
    requires AsTrue(t, v, w) && (if all == TBool then yes == TBool && no == TBool else IsNumber(yes) && IsNumber(no) && IsNumber(all))
    ensures Truthy(v) == Truthy(w)
    ensures forall x, y {:trigger AsTrue(yes, x, y)} :: AsTrue(yes, x, y) ==> AsTrue(all, x, y)
    ensures forall x, y {:trigger AsTrue(no, x, y)} :: AsTrue(no, x, y) ==> AsTrue(all, x, y)
    ensures forall x {:trigger HasTy(x, yes)} :: HasTy(x, yes) ==> HasTy(x, all)
    ensures forall x {:trigger HasTy(x, no)} :: HasTy(x, no) ==> HasTy(x, all)
  {
  }

  lemma {:induction false} BinarySame(env: Env, e: Expr, a: Store, b: Store)
    requires e.Binary? && Calm(env, e) && TypeOf(env, e).Some? && Alike(env, a, b)
    ensures var d, l, t := Eval(Documented, e, a), Eval(Lowered, e, b), TypeOf(env, e).value;
            d.Val? && l.Val? && d.st == a && l.st == b && HasTy(l.value, t) && AsTrue(t, d.value, l.value)
    decreases e, 0
  {
    hide HasTy, Operated, Alike, Literal, BinaryType, AsTrue;
    SameValue(env, e.left, a, b);
    SameValue(env, e.right, a, b);
    var s, t := TypeOf(env, e.left).value, TypeOf(env, e.right).value;
    var u, v := Eval(Lowered, e.left, b).value, Eval(Lowered, e.right, b).value;
    if e.op in {FloorDiv, BinOp.Mod} {
      AlikeStore(env, a, b);
      LiteralEval(e.left, env, b);
      LiteralEval(e.right, env, b);
    }
    OperatedSame(e.op, Folded(e), Eval(Documented, e.left, a).value, Eval(Documented, e.right, a).value, u, v, s, t, e.right);
  }

  lemma OperatedSame(op: BinOp, folded: bool, u: Value, v: Value, u': Value, v': Value, s: Ty, t: Ty, divisor: Expr)
    requires BinaryType(op, s, t, divisor).Some? && HasTy(u', s) && HasTy(v', t) && AsTrue(s, u, u') && AsTrue(t, v, v')
    requires op in {FloorDiv, BinOp.Mod} ==> Enc(u') >= 0 && Enc(v') != 0
    ensures var d, l, ty := Operated(Documented, op, folded, u, v), Operated(Lowered, op, folded, u', v'), BinaryType(op, s, t, divisor).value;
            d.Ok? && l.Ok? && HasTy(l.value, ty) && AsTrue(ty, d.value, l.value)
  {
    hide Wrap, Display, StrLess, TruncDiv, TruncMod;
    BinaryTyped(op, folded, u', v', s, t, divisor);
    if op in {FloorDiv, BinOp.Mod} {
      Upward(u'.i, v'.i);
    }
  }

  /** A dividend that is not negative has the same quotient and remainder in both readings. */
  lemma Upward(a: int, b: int)
    requires 0 <= a < TWO63 && -TWO63 <= b < TWO63 && b != 0
    ensures Wrap(TruncDiv(a, b)) == a / b && Wrap(TruncMod(a, b)) == a % b
  {
    hide Wrap;
    QuotientBound(a, b);
    assert a == b * (a / b) + a % b;
    assert TruncMod(a, b) == a % b;
  }

  lemma {:induction false} LogicSame(env: Env, e: Expr, a: Store, b: Store)
    requires (e.And? || e.Or?) && Calm(env, e) && TypeOf(env, e).Some? && Alike(env, a, b)
    ensures var d, l, t := Eval(Documented, e, a), Eval(Lowered, e, b), TypeOf(env, e).value;
            d.Val? && l.Val? && d.st == a && l.st == b && HasTy(l.value, t) && AsTrue(t, d.value, l.value)
    decreases e, 0
  {
    hide HasTy, Joined, Alike, Literal, LogicType, AsTrue, Truthy;
    SameValue(env, e.left, a, b);
    SameValue(env, e.right, a, b);
    JoinedSame(e.And?, Eval(Documented, e.left, a).value, Eval(Documented, e.right, a).value,
               Eval(Lowered, e.left, b).value, Eval(Lowered, e.right, b).value, TypeOf(env, e.left).value, TypeOf(env, e.right).value);
  }

  lemma JoinedSame(isAnd: bool, u: Value, v: Value, u': Value, v': Value, s: Ty, t: Ty)
    requires HasTy(u', s) && HasTy(v', t) && AsTrue(s, u, u') && AsTrue(t, v, v')
    ensures var w, ty := Joined(isAnd, false, u', v'), LogicType(false, s, t);
            HasTy(w, ty) && AsTrue(ty, Bool(if isAnd then Truthy(u) && Truthy(v) else Truthy(u) || Truthy(v)), w)
  {
    LogicTyped(isAnd, false, u', v', s, t);
  }

  /** Both readings end alike: the same exit, the same output, and the same values in `env'` after
      a normal end and in `env` after another. */
  ghost predicate SameRun(env: Env, env': Env, d: ExecResult, l: ExecResult) {
    match d
    case Done(exit, st, leaks) =>
      && l.Done? && l.exit == exit && l.st.out == st.out && leaks == [] && l.leaks == []
      && Alike(if exit == Normal then env' else env, st.vars, l.st.vars)
    case Failed(_, _) => false
    case OutOfFuel(out) => l == d
  }

  lemma SameLess(env: Env, env': Env, env1: Env, env1': Env, d: ExecResult, l: ExecResult)
    requires SameRun(env1, env1', d, l) && Within(env, env1) && (d.Done? && d.exit == Normal ==> Within(env', env1'))
    ensures SameRun(env, env', d, l)
  {
  }

  lemma {:induction false} PrintSame(env: Env, es: Vec<Expr>, a: State, b: State)
    requires AllInts(env, es) && Alike(env, a.vars, b.vars) && a.out == b.out
    ensures SameRun(env, env, Print(Documented, es, a), Print(Lowered, es, b)) && Print(Documented, es, a).Done?
    decreases es
  {
    hide Eval, CalmType, TypeOf, Calm, Alike, HasTy;
    if es.Cons? {
      PrintedInt(env, es.head);
      var v := EvalAlike(env, es.head, a.vars, b.vars);
      NumberShown(v, TypeOf(env, es.head).value);
      PrintSame(env, es.tail, State(a.vars, a.out + Display(v)), State(b.vars, b.out + Display(v)));
    }
  }

  lemma NumberShown(v: Value, t: Ty)
    requires HasTy(v, t) && IsNumber(t)
    ensures Shown(Lowered, v) == Display(v) && Shown(Documented, v) == Display(v)
  {
  }

  lemma PrintedInt(env: Env, e: Expr)
    requires CalmInt(env, e)
    ensures CalmType(env, e).Some? && CalmType(env, e).value != TTruth && CalmType(env, e) == TypeOf(env, e)
    ensures IsNumber(TypeOf(env, e).value)
  {
  }

  ghost predicate Before(g: Env, env: Env, a: State, b: State) {
    Within(env, g) && Alike(env, a.vars, b.vars) && a.out == b.out
  }

  lemma {:induction false} StmtSame(g: Env, env: Env, t: Stmt, a: State, b: State, fuel: nat)
    requires Settled(g, env, t).Some? && Before(g, env, a, b)
    ensures SameRun(env - Counters(t), Settled(g, env, t).value, Exec(Documented, t, a, fuel), Exec(Lowered, t, b, fuel))
    decreases fuel, t, 3, 0
  {
    hide *;
    match t
    case If(_, _, _) => IfSame(g, env, t, a, b, fuel);
    case While(_, _) => WhileSame(g, env, t, a, b, fuel);
    case Loop(_) => WhileSame(g, env, t, a, b, fuel);
    case ForRange(_, _, _, _, _) => RangeSame(g, env, t, a, b, fuel);
    case Scope(body) => ScopeSame(g, env, t, a, b, fuel);
    case _ => SimpleSame(g, env, t, a, b, fuel);
  }

  lemma SimpleSame(g: Env, env: Env, t: Stmt, a: State, b: State, fuel: nat)
    requires Settled(g, env, t).Some? && Before(g, env, a, b)
    requires !t.If? && !t.While? && !t.Loop? && !t.ForRange? && !t.Scope?
    ensures SameRun(env - Counters(t), Settled(g, env, t).value, Exec(Documented, t, a, fuel), Exec(Lowered, t, b, fuel))
  {
    hide Eval, TypeOf, Calm, Alike, HasTy, Print, Operated, AllInts, Updates;
    assert env - {} == env;
    assert State(a.vars, a.out) == a && State(b.vars, b.out) == b;
    match t
    case Assign(x, e) =>
      var v := EvalAlike(env, e, a.vars, b.vars);
      StoredTyped(v, TypeOf(env, e).value, g[x]);
      AlikeSet(env, a.vars, b.vars, x, g[x], v);
    case Compound(x, op, e) => CompoundSame(g, env, t, a, b, fuel);
    case ExprStmt(e) => var v, w := CondAlike(env, e, a.vars, b.vars);
    case Println(es) => PrintSame(env, es, a, b);
    case _ =>
  }

  lemma StoredTyped(v: Value, t: Ty, x: Ty)
    requires HasTy(v, t) && Storable(t, x)
    ensures HasTy(v, x)
  {
  }

  lemma CompoundSame(g: Env, env: Env, t: Stmt, a: State, b: State, fuel: nat)
    requires t.Compound? && Settled(g, env, t).Some? && Before(g, env, a, b)
    ensures SameRun(env, env, Exec(Documented, t, a, fuel), Exec(Lowered, t, b, fuel))
  {
    hide Eval, TypeOf, Calm, Alike, Operated, HasTy, Updates;
    UpdatesNumbers(env, t.name, t.op, t.e);
    var v := EvalAlike(env, t.e, a.vars, b.vars);
    var u := Get(a.vars, t.name);
    AlikeHas(env, a.vars, b.vars, t.name);
    SumsSame(t.op, u, v, env[t.name], TypeOf(env, t.e).value);
    AlikeSet(env, a.vars, b.vars, t.name, env[t.name], Operated(Lowered, t.op, false, u, v).value);
    assert env[t.name := env[t.name]] == env;
  }

  lemma UpdatesNumbers(env: Env, x: string, op: BinOp, e: Expr)
    requires Updates(env, x, op, e)
    ensures x in env && TypeOf(env, e).Some? && IsNumber(env[x]) && IsNumber(TypeOf(env, e).value)
  {
    hide TypeOf, Literal;
  }

  lemma SumsSame(op: BinOp, u: Value, v: Value, s: Ty, t: Ty)
    requires op in {Add, Sub, Mul} && HasTy(u, s) && HasTy(v, t) && IsNumber(s) && IsNumber(t)
    ensures var r := Operated(Lowered, op, false, u, v); r.Ok? && HasTy(r.value, s) && Operated(Documented, op, false, u, v) == r
  {
    hide Wrap;
  }

  lemma {:induction false} ScopeSame(g: Env, env: Env, t: Stmt, a: State, b: State, fuel: nat)
    requires t.Scope? && Settled(g, env, t).Some? && Before(g, env, a, b)
    ensures SameRun(env - Counters(t), Settled(g, env, t).value, Exec(Documented, t, a, fuel), Exec(Lowered, t, b, fuel))
    decreases fuel, t, 2, 0
  {
    hide Before, SameRun, SettledBlock, ExecBlock;
    BlockSame(g, env, t.body, a, b, fuel);
  }

  lemma {:induction false} BlockSame(g: Env, env: Env, p: Block, a: State, b: State, fuel: nat)
    requires SettledBlock(g, env, p).Some? && Before(g, env, a, b)
    ensures SameRun(env - CountersBlock(p), SettledBlock(g, env, p).value,
                    ExecBlock(Documented, p, a, fuel), ExecBlock(Lowered, p, b, fuel))
    decreases fuel, p, 1, 0
  {
    hide Settled, Exec, Alike, Counters;
    if p.Cons? {
      StmtSame(g, env, p.head, a, b, fuel);
      SettledGrows(g, env, p.head);
      var env1 := Settled(g, env, p.head).value;
      var d, l := Exec(Documented, p.head, a, fuel), Exec(Lowered, p.head, b, fuel);
      if d.Done? && d.exit == Normal {
        BlockSame(g, env1, p.tail, d.st, l.st, fuel);
        SettledBlockGrows(g, env1, p.tail);
        SameLess(env - CountersBlock(p), SettledBlock(g, env, p).value, env1 - CountersBlock(p.tail), SettledBlock(g, env, p).value,
                 ExecBlock(Documented, p.tail, d.st, fuel), ExecBlock(Lowered, p.tail, l.st, fuel));
      } else {
        SameLess(env - CountersBlock(p), map[], env - Counters(p.head), env1, d, l);
      }
    } else {
      assert env - {} == env;
    }
  }

  lemma {:induction false} RestSame(g: Env, env: Env, r: Rest, a: State, b: State, fuel: nat)
    requires SettledRest(g, env, r).Some? && Before(g, env, a, b)
    ensures SameRun(env - CountersRest(r), SettledRest(g, env, r).value,
                    ExecRest(Documented, r, false, a, fuel), ExecRest(Lowered, r, false, b, fuel))
    decreases fuel, r, 1, 0
  {
    hide Eval, CalmType, Alike, HasTy, SettledBlock, ExecBlock, CountersBlock;
    match r
    case NoElse => assert env - {} == env;
    case Else(body) => BlockSame(g, env, body, a, b, fuel);
    case Elif(c, body, rest) =>
      var v, w := CondAlike(env, c, a.vars, b.vars);
      assert State(a.vars, a.out) == a && State(b.vars, b.out) == b;
      var env' := SettledRest(g, env, r).value;
      if Truthy(v) {
        BlockSame(g, env, body, a, b, fuel);
        SameLess(env - CountersRest(r), env', env - CountersBlock(body), SettledBlock(g, env, body).value,
                 ExecBlock(Documented, body, a, fuel), ExecBlock(Lowered, body, b, fuel));
      } else {
        RestSame(g, env, rest, a, b, fuel);
        SameLess(env - CountersRest(r), env', env - CountersRest(rest), SettledRest(g, env, rest).value,
                 ExecRest(Documented, rest, false, a, fuel), ExecRest(Lowered, rest, false, b, fuel));
      }
  }

  lemma {:induction false} IfSame(g: Env, env: Env, t: Stmt, a: State, b: State, fuel: nat)
    requires t.If? && Settled(g, env, t).Some? && Before(g, env, a, b)
    ensures SameRun(env - Counters(t), Settled(g, env, t).value, Exec(Documented, t, a, fuel), Exec(Lowered, t, b, fuel))
    decreases fuel, t, 2, 0
  {
    hide Eval, CalmType, Alike, HasTy, SettledBlock, SettledRest, ExecBlock, ExecRest, CountersBlock, CountersRest;
    var v, w := CondAlike(env, t.cond, a.vars, b.vars);
    assert State(a.vars, a.out) == a && State(b.vars, b.out) == b;
    var env' := Settled(g, env, t).value;
    if Truthy(v) {
      BlockSame(g, env, t.yes, a, b, fuel);
      SameLess(env - Counters(t), env', env - CountersBlock(t.yes), SettledBlock(g, env, t.yes).value,
               ExecBlock(Documented, t.yes, a, fuel), ExecBlock(Lowered, t.yes, b, fuel));
    } else {
      RestSame(g, env, t.rest, a, b, fuel);
      SameLess(env - Counters(t), env', env - CountersRest(t.rest), SettledRest(g, env, t.rest).value,
               ExecRest(Documented, t.rest, false, a, fuel), ExecRest(Lowered, t.rest, false, b, fuel));
    }
  }

  lemma LessWithin(env: Env, xs: set<string>, g: Env)
    requires Within(env, g)
    ensures Within(env - xs, g) && Within(env - xs, env) && (env - xs) - xs == env - xs
  {
  }

  lemma {:induction false} WhileSame(g: Env, env: Env, t: Stmt, a: State, b: State, fuel: nat)
    requires (t.While? || t.Loop?) && Settled(g, env, t).Some? && Before(g, env, a, b)
    ensures SameRun(env - Counters(t), Settled(g, env, t).value, Exec(Documented, t, a, fuel), Exec(Lowered, t, b, fuel))
    decreases fuel, t, 2, 0
  {
    hide Eval, CalmType, Alike, HasTy, SettledBlock, Again, CountersBlock;
    var env0 := env - CountersBlock(t.body);
    LessWithin(env, CountersBlock(t.body), g);
    AlikeLess(env0, env, a.vars, b.vars);
    assert State(a.vars, a.out) == a && State(b.vars, b.out) == b;
    if fuel > 0 {
      if t.While? {
        var v, w := CondAlike(env0, t.cond, a.vars, b.vars);
        if Truthy(v) {
          AgainSame(g, env0, t, a, b, fuel);
        }
      } else {
        AgainSame(g, env0, t, a, b, fuel);
      }
    }
  }

  lemma {:induction false} AgainSame(g: Env, env: Env, t: Stmt, a: State, b: State, fuel: nat)
    requires (t.While? || t.Loop?) && Settled(g, env, t) == Some(env) && env - CountersBlock(t.body) == env && fuel > 0
    requires Before(g, env, a, b)
    ensures SameRun(env, env, Again(Documented, t, t.body, a, fuel), Again(Lowered, t, t.body, b, fuel))
    decreases fuel, t, 1, 0
  {
    hide Eval, CalmType, Alike, HasTy, SettledBlock, ExecBlock, Exec, CountersBlock;
    BlockSame(g, env, t.body, a, b, fuel);
    SettledBlockGrows(g, env, t.body);
    var d, l := ExecBlock(Documented, t.body, a, fuel), ExecBlock(Lowered, t.body, b, fuel);
    SameLess(env, env, env, SettledBlock(g, env, t.body).value, d, l);
    if d.Done? && d.exit != Broke {
      WhileSame(g, env, t, d.st, l.st, fuel - 1);
    }
  }

  // ----- range loops -----

  /** Away from the end of the integers a range is a list. */
  lemma {:induction false} NoWrap(i: int, n: int, k: int, room: nat)
    requires k > 0 && n + k <= TWO63 && -TWO63 <= i < TWO63 && n - i <= room
    ensures RangeFrom(i, n, k, room).Ok?
    decreases room
  {
    if i < n {
      NoWrap(Wrap(i + k), n, k, room - 1);
    }
  }

  lemma FarFromEnd(i: int, n: int, k: int)
    requires k > 0 && n + k <= TWO63 && -TWO63 <= i < TWO63
    ensures RangeItems(i, n, k).Ok?
  {
    hide RangeFrom;
    NoWrap(i, n, k, TWO64);
  }

  lemma {:induction false} MoreRoom(i: int, n: int, k: int, room: nat, more: nat)
    requires RangeFrom(i, n, k, room).Ok? && room <= more
    ensures RangeFrom(i, n, k, more) == RangeFrom(i, n, k, room)
    decreases room
  {
    if !(if k > 0 then i >= n else i <= n) {
      MoreRoom(Wrap(i + k), n, k, room - 1, more - 1);
    }
  }

  /** A range is empty, or its first item and the range from there. */
  lemma RangeStep(i: int, n: int, k: int)
    requires k != 0 && RangeItems(i, n, k).Ok?
    ensures if (if k > 0 then i >= n else i <= n) then RangeItems(i, n, k).value == []
            else && RangeItems(Wrap(i + k), n, k).Ok?
                 && RangeItems(i, n, k).value == [Int(i)] + RangeItems(Wrap(i + k), n, k).value
  {
    hide Wrap;
    if !(if k > 0 then i >= n else i <= n) {
      var first := RangeFrom(i, n, k, TWO64);
      assert RangeFrom(Wrap(i + k), n, k, TWO64 - 1).Ok?;
      MoreRoom(Wrap(i + k), n, k, TWO64 - 1, TWO64);
    }
  }

  lemma UpStep(i: int, n: int, k: int)
    requires k > 0 && RangeItems(i, n, k).Ok?
    ensures if i >= n then RangeItems(i, n, k).value == []
            else && RangeItems(Wrap(i + k), n, k).Ok?
                 && RangeItems(i, n, k).value == [Int(i)] + RangeItems(Wrap(i + k), n, k).value
  {
    hide RangeItems, Wrap;
    RangeStep(i, n, k);
  }

  /** The counter is at `i`, and the step is still `k`. */
  ghost predicate At(t: Stmt, c: Bounds, i: int, k: int, b: State)
    requires t.ForRange?
  {
    && Get(b.vars, t.name) == Int(i) && Seen(StepExpr(t.step), c.step, b.vars) == Int(k)
    && SteadyBound(t.name, StepExpr(t.step), t.body)
  }

  /** The bound is still `m`. */
  ghost predicate BoundAt(t: Stmt, c: Bounds, m: int, b: State)
    requires t.ForRange?
  {
    Seen(t.to, c.to, b.vars) == Int(m) && SteadyBound(t.name, t.to, t.body)
  }

  lemma {:induction false} RangeSame(g: Env, env: Env, t: Stmt, a: State, b: State, fuel: nat)
    requires t.ForRange? && Settled(g, env, t).Some? && Before(g, env, a, b)
    ensures SameRun(env - Counters(t), Settled(g, env, t).value, Exec(Documented, t, a, fuel), Exec(Lowered, t, b, fuel))
    decreases fuel, t, 2, 0
  {
    hide Eval, TypeOf, CalmBounds, Countable, Alike, HasTy, SettledBlock, ExecFor, ExecCounted, CountersBlock, RangeItems, SteadyBound;
    var i, m, k := RangeStart(g, env, t, a, b, fuel);
    var c := Bounds(Int(i), Int(m), Int(k));
    var b1 := State(b.vars[t.name := Int(i)], b.out);
    LessWithin(env, Counters(t), g);
    AlikeLess(env - Counters(t), env, a.vars, b.vars);
    AlikeApart(env - Counters(t), a.vars, b.vars, t.name, Int(i));
    RoundsSame(g, env - Counters(t), t, c, i, m, k, a, b1, fuel);
  }

  lemma AlikeApart(env: Env, a: Store, b: Store, x: string, v: Value)
    requires Alike(env, a, b) && x !in env
    ensures Alike(env, a, b[x := v])
  {
  }

  lemma {:induction false} RangeStart(g: Env, env: Env, t: Stmt, a: State, b: State, fuel: nat) returns (i: int, m: int, k: int)
    requires t.ForRange? && Settled(g, env, t).Some? && Before(g, env, a, b)
    ensures var b1 := State(b.vars[t.name := Int(i)], b.out);
            && At(t, Bounds(Int(i), Int(m), Int(k)), i, k, b1) && BoundAt(t, Bounds(Int(i), Int(m), Int(k)), m, b1)
            && -TWO63 <= i < TWO63 && k > 0 && RangeItems(i, m, k).Ok?
            && Exec(Documented, t, a, fuel) == ExecFor(Documented, t.name, t.body, [RangeItems(i, m, k).value], a, fuel)
            && Exec(Lowered, t, b, fuel) == ExecCounted(t, Bounds(Int(i), Int(m), Int(k)), b1, fuel)
  {
    hide TypeOf, Calm, Alike, SettledBlock, ExecFor, ExecCounted, RangeItems, Eval, Counts;
    var u := EvalAlike(env, t.from, a.vars, b.vars);
    var v := EvalAlike(env, t.to, a.vars, b.vars);
    var w := EvalAlike(env, StepExpr(t.step), a.vars, b.vars);
    i, m, k := u.i, v.i, StepExpr(t.step).i;
    LiteralMeans(StepExpr(t.step), b.vars);
    LiteralBounds(t, b.vars);
    if m + k <= TWO63 {
      FarFromEnd(i, m, k);
    }
    assert State(a.vars, a.out) == a;
    assert RangeBounds(Documented, t, a.vars) == Val(Bounds(u, v, w), a.vars);
    assert RangeBounds(Lowered, t, b.vars) == Val(Bounds(u, v, w), b.vars);
    SeenFirst(t, t.to, v, b.vars, Int(i));
  }

  lemma LiteralBounds(t: Stmt, st: Store)
    requires t.ForRange?
    ensures t.from.IntLit? ==> Eval(Lowered, t.from, st) == Val(Int(t.from.i), st)
    ensures t.to.IntLit? ==> Eval(Lowered, t.to, st) == Val(Int(t.to.i), st)
  {
  }

  lemma LiteralMeans(e: Expr, st: Store)
    requires e.IntLit?
    ensures Eval(Lowered, e, st) == Val(Int(e.i), st)
  {
  }

  lemma SeenFirst(t: Stmt, e: Expr, v: Value, st: Store, i: Value)
    requires t.ForRange? && SteadyBound(t.name, e, t.body) && Eval(Lowered, e, st) == Val(v, st)
    ensures Seen(e, v, st[t.name := i]) == v
  {
  }

  lemma {:induction false} RoundsSame(g: Env, env: Env, t: Stmt, c: Bounds, i: int, m: int, k: int, a: State, b: State, fuel: nat)
    requires t.ForRange? && t.name in g && IsNumber(g[t.name]) && SettledBlock(g, env[t.name := g[t.name]], t.body).Some? && t.name !in env && Within(env, g)
    requires env - CountersBlock(t.body) == env && Before(g, env, a, b) && At(t, c, i, k, b) && BoundAt(t, c, m, b)
    requires -TWO63 <= i < TWO63 && k > 0 && RangeItems(i, m, k).Ok?
    ensures SameRun(env, env, ExecFor(Documented, t.name, t.body, [RangeItems(i, m, k).value], a, fuel), ExecCounted(t, c, b, fuel))
    decreases fuel, t, 1, 0
  {
    hide Alike, SettledBlock, ExecBlock, CountersBlock, RangeItems, SteadyBound, ExecFor, WrittenBlock, Advanced;
    ForStep(t.name, t.body, i, m, k, a, fuel);
    if i < m && fuel > 0 {
      var env1 := env[t.name := g[t.name]];
      var a1 := State(a.vars[t.name := Int(i)], a.out);
      EnterAlike(env, a.vars, b.vars, t.name, i, g[t.name]);
      BlockSame(g, env1, t.body, a1, b, fuel);
      SettledBlockGrows(g, env1, t.body);
      EnterLess(env, t, g[t.name]);
      var d, l := ExecBlock(Documented, t.body, a1, fuel), ExecBlock(Lowered, t.body, b, fuel);
      SameLess(env, env, env1 - CountersBlock(t.body), SettledBlock(g, env1, t.body).value, d, l);
      if d.Done? && d.exit != Broke {
        UpStep(i, m, k);
        NextAt(t, c, i, k, b, fuel);
        BoundKept(t, c, m, Wrap(i + k), b, fuel);
        AlikeApart(env, d.st.vars, l.st.vars, t.name, Int(Wrap(i + k)));
        RoundsSame(g, env, t, c, Wrap(i + k), m, k, d.st, Advanced(t, c, l.st), fuel - 1);
      }
    }
  }

  lemma EnterLess(env: Env, t: Stmt, ty: Ty)
    requires t.ForRange? && env - CountersBlock(t.body) == env && t.name !in env
    ensures Within(env, env[t.name := ty] - CountersBlock(t.body))
  {
    forall x | x in env ensures x !in CountersBlock(t.body) {
      assert x in env - CountersBlock(t.body);
    }
  }

  lemma EnterAlike(env: Env, a: Store, b: Store, x: string, i: int, ty: Ty)
    requires IsNumber(ty) && Alike(env, a, b) && x !in env && Get(b, x) == Int(i) && -TWO63 <= i < TWO63
    ensures Alike(env[x := ty], a[x := Int(i)], b)
  {
  }

  /** After a round the counter is one step on and the step is still the same. */
  lemma NextAt(t: Stmt, c: Bounds, i: int, k: int, b: State, fuel: nat)
    requires t.ForRange? && StaticBlock(t.body) && At(t, c, i, k, b) && ExecBlock(Lowered, t.body, b, fuel).Done?
    ensures var st := ExecBlock(Lowered, t.body, b, fuel).st;
            && Advanced(t, c, st) == State(st.vars[t.name := Int(Wrap(i + k))], st.out)
            && At(t, c, Wrap(i + k), k, Advanced(t, c, st))
  {
    hide ExecBlock, WrittenBlock, StaticBlock;
    BlockUntouched(t.body, b, fuel, t.name);
    if StepExpr(t.step).Var? {
      BlockUntouched(t.body, b, fuel, StepExpr(t.step).name);
    }
  }

  lemma BoundKept(t: Stmt, c: Bounds, m: int, j: int, b: State, fuel: nat)
    requires t.ForRange? && StaticBlock(t.body) && BoundAt(t, c, m, b) && ExecBlock(Lowered, t.body, b, fuel).Done?
    ensures var st := ExecBlock(Lowered, t.body, b, fuel).st; BoundAt(t, c, m, State(st.vars[t.name := Int(j)], st.out))
  {
    hide ExecBlock, WrittenBlock, StaticBlock;
    if t.to.Var? {
      BlockUntouched(t.body, b, fuel, t.to.name);
    }
  }

  lemma ForStep(x: string, b: Block, i: int, m: int, k: int, st: State, fuel: nat)
    requires k > 0 && RangeItems(i, m, k).Ok?
    ensures ExecFor(Documented, x, b, [RangeItems(i, m, k).value], st, fuel)
         == if i >= m then Done(Normal, st, [])
            else if fuel == 0 then OutOfFuel(st.out)
            else
              var r := ExecBlock(Documented, b, State(st.vars[x := Int(i)], st.out), fuel);
              if !r.Done? then r
              else if r.exit == Broke then Done(Normal, r.st, [])
              else if RangeItems(Wrap(i + k), m, k).Ok? then
                ExecFor(Documented, x, b, [RangeItems(Wrap(i + k), m, k).value], r.st, fuel - 1)
              else r
  {
    hide ExecBlock, RangeItems;
    UpStep(i, m, k);
    var items := RangeItems(i, m, k).value;
    var its: seq<seq<Value>> := [items];
    assert its[..0] == [];
    if i < m && fuel > 0 {
      assert items[1..] == RangeItems(Wrap(i + k), m, k).value;
      BlockExitFacts(Documented, b, State(st.vars[x := Int(i)], st.out), fuel);
      assert [] + [items[1..]] + [] == [items[1..]];
    }
  }

  // ----- whole programs -----

  predicate SettledProgram(g: Env, p: Block) {
    SettledBlock(g, map[], p).Some?
  }

  /** A steady program means the same in both readings. */
  lemma ProgramsSame(g: Env, p: Block, fuel: nat)
    requires SettledProgram(g, p)
    ensures var d, l := ExecBlock(Documented, p, EMPTY, fuel), ExecBlock(Lowered, p, EMPTY, fuel);
            if d.Done? then l.Done? && l.exit == d.exit && l.st.out == d.st.out else d.OutOfFuel? && l == d
  {
    hide ExecBlock, SettledBlock;
    BlockSame(g, map[], p, EMPTY, EMPTY, fuel);
  }
}
