/** Where the compiled reading of a program departs from the documented one, and where it does not. */
module Readings {
  import opened Values
  import opened Ast
  import opened Source
  import opened Exits

  // ----- programs both readings agree on -----

  /** No `??` in the expression, and a comprehension neither holds another one nor looks at the variable
      that comprehensions collect in. */
  predicate PlainExpr(e: Expr)
    decreases e, 1
  {
    match e
    case Coalesce(_, _) => false
    case Binary(_, l, r) => PlainExpr(l) && PlainExpr(r)
    case And(l, r) => PlainExpr(l) && PlainExpr(r)
    case Or(l, r) => PlainExpr(l) && PlainExpr(r)
    case Unary(_, x) => PlainExpr(x)
    case Ternary(c, a, b) => PlainExpr(c) && PlainExpr(a) && PlainExpr(b)
    case ListLit(es) => PlainExprs(es)
    case TupleLit(es) => PlainExprs(es)
    case SpreadLit(ps) => PlainParts(ps)
    case Index(t, i) => PlainExpr(t) && PlainExpr(i)
    case Comprehension(_, _, it, _) => PlainExpr(it) && Detached(it) && PlainRound(e)
    case _ => true
  }

  predicate PlainRound(e: Expr)
    requires e.Comprehension?
    decreases e, 0
  {
    && e.name != TEMP && PlainExpr(e.result) && Detached(e.result)
    && PlainOpt(e.filter) && (e.filter.Some? ==> Detached(e.filter.value))
  }

  predicate PlainOpt(f: Option<Expr>) {
    f.Some? ==> PlainExpr(f.value)
  }

  predicate PlainExprs(es: Vec<Expr>) {
    match es
    case Nil => true
    case Cons(e, rest) => PlainExpr(e) && PlainExprs(rest)
  }

  predicate PlainParts(ps: Vec<Part>) {
    match ps
    case Nil => true
    case Cons(p, rest) => PlainExpr(p.e) && PlainParts(rest)
  }

  /** No comprehension, and no mention of the variable that comprehensions collect in. */
  predicate Detached(e: Expr) {
    match e
    case Var(x) => x != TEMP
    case Comprehension(_, _, _, _) => false
    case Binary(_, l, r) => Detached(l) && Detached(r)
    case And(l, r) => Detached(l) && Detached(r)
    case Or(l, r) => Detached(l) && Detached(r)
    case Unary(_, x) => Detached(x)
    case Ternary(c, a, b) => Detached(c) && Detached(a) && Detached(b)
    case Coalesce(l, r) => Detached(l) && Detached(r)
    case ListLit(es) => DetachedAll(es)
    case TupleLit(es) => DetachedAll(es)
    case SpreadLit(ps) => DetachedParts(ps)
    case Index(t, i) => Detached(t) && Detached(i)
    case _ => true
  }

  predicate DetachedAll(es: Vec<Expr>) {
    match es
    case Nil => true
    case Cons(e, rest) => Detached(e) && DetachedAll(rest)
  }

  predicate DetachedParts(ps: Vec<Part>) {
    match ps
    case Nil => true
    case Cons(p, rest) => Detached(p.e) && DetachedParts(rest)
  }

  /** Plain expressions, no `if` with both an `elif` and an `else`, and no `for` loop left by `break` inside
      another `for` loop. */
  predicate Plain(s: Stmt) {
    match s
    case Assign(_, e) => PlainExpr(e)
    case Compound(_, _, e) => PlainExpr(e)
    case IndexAssign(_, i, e) => PlainExpr(i) && PlainExpr(e)
    case ExprStmt(e) => PlainExpr(e)
    case Println(es) => PlainExprs(es)
    case Paste(es) => PlainExprs(es)
    case If(c, yes, rest) => PlainExpr(c) && PlainBlock(yes) && PlainRest(rest) && (rest.Elif? ==> !EndsInElse(rest))
    case While(c, body) => PlainExpr(c) && PlainBlock(body)
    case Loop(body) => PlainBlock(body)
    case ForIn(_, it, body) => PlainExpr(it) && PlainBlock(body) && NoForBreakBlock(body)
    case ForRange(_, a, b, step, body) =>
      PlainExpr(a) && PlainExpr(b) && PlainOpt(step) && PlainBlock(body) && NoForBreakBlock(body)
    case Scope(body) => PlainBlock(body)
    case _ => true
  }

  predicate PlainBlock(b: Block) {
    match b
    case Nil => true
    case Cons(s, rest) => Plain(s) && PlainBlock(rest)
  }

  predicate PlainRest(r: Rest) {
    match r
    case NoElse => true
    case Else(body) => PlainBlock(body)
    case Elif(c, body, rest) => PlainExpr(c) && PlainBlock(body) && PlainRest(rest)
  }

  predicate EndsInElse(r: Rest) {
    match r
    case NoElse => false
    case Else(_) => true
    case Elif(_, _, rest) => EndsInElse(rest)
  }

  lemma {:induction false} ExprAgrees(e: Expr, st: Store)
    requires PlainExpr(e)
    ensures Eval(Compiled, e, st) == Eval(Documented, e, st)
    decreases e, 1, 0
  {
    hide BinaryValues, IndexValue, UnaryValue, Items, Truthy;
    match e
    case Binary(_, _, _) => PairAgrees(e, st);
    case And(_, _) => PairAgrees(e, st);
    case Or(_, _) => PairAgrees(e, st);
    case Index(_, _) => PairAgrees(e, st);
    case Unary(_, x) => ExprAgrees(x, st);
    case Ternary(c, a, b) =>
      ExprAgrees(c, st);
      var v := Eval(Compiled, c, st);
      if v.Val? {
        ExprAgrees(a, v.st);
        ExprAgrees(b, v.st);
      }
    case ListLit(es) => ExprsAgree(es, st);
    case TupleLit(es) => ExprsAgree(es, st);
    case SpreadLit(ps) => PartsAgree(ps, st);
    case Comprehension(_, _, _, _) => WholeAgrees(e, st);
    case _ =>
  }

  lemma {:induction false} PairAgrees(e: Expr, st: Store)
    requires (e.Binary? || e.And? || e.Or? || e.Index?) && PlainExpr(e)
    ensures Eval(Compiled, e, st) == Eval(Documented, e, st)
    decreases e, 0, 0
  {
    hide BinaryValues, IndexValue, Truthy;
    var l, r := if e.Index? then e.target else e.left, if e.Index? then e.index else e.right;
    ExprAgrees(l, st);
    var v := Eval(Compiled, l, st);
    if v.Val? {
      ExprAgrees(r, v.st);
    }
  }

  // ----- comprehensions -----

  /** The outcome with another list in the variable that comprehensions collect in. */
  function Onto<T>(r: EvalResult<T>, list: Value): EvalResult<T> {
    match r
    case Fail(err) => Fail(err)
    case Val(v, st) => Val(v, st[TEMP := list])
  }

  /** The same outcome, which leaves the store alone, whatever is in that variable. */
  ghost predicate Indifferent<T(!new)>(compiled: EvalResult<T>, documented: EvalResult<T>, st: Store, list: Value) {
    compiled == Onto(documented, list) && (documented.Val? ==> documented.st == st)
  }

  lemma {:induction false} DetachedAgrees(e: Expr, st: Store, list: Value)
    requires PlainExpr(e) && Detached(e)
    ensures Indifferent(Eval(Compiled, e, st[TEMP := list]), Eval(Documented, e, st), st, list)
    decreases e, 1
  {
    hide BinaryValues, IndexValue, UnaryValue, Items, Truthy;
    match e
    case Binary(_, _, _) => DetachedPair(e, st, list);
    case Index(_, _) => DetachedPair(e, st, list);
    case And(_, _) => DetachedChoice(e, st, list);
    case Or(_, _) => DetachedChoice(e, st, list);
    case Ternary(_, _, _) => DetachedChoice(e, st, list);
    case Unary(_, x) => DetachedAgrees(x, st, list);
    case ListLit(es) => DetachedAllAgree(es, st, list);
    case TupleLit(es) => DetachedAllAgree(es, st, list);
    case SpreadLit(ps) => DetachedPartsAgree(ps, st, list);
    case _ =>
  }

  lemma {:induction false} DetachedPair(e: Expr, st: Store, list: Value)
    requires (e.Binary? || e.Index?) && PlainExpr(e) && Detached(e)
    ensures Indifferent(Eval(Compiled, e, st[TEMP := list]), Eval(Documented, e, st), st, list)
    decreases e, 0
  {
    hide BinaryValues, IndexValue;
    DetachedAgrees(if e.Binary? then e.left else e.target, st, list);
    DetachedAgrees(if e.Binary? then e.right else e.index, st, list);
  }

  lemma {:induction false} DetachedChoice(e: Expr, st: Store, list: Value)
    requires (e.And? || e.Or? || e.Ternary?) && PlainExpr(e) && Detached(e)
    ensures Indifferent(Eval(Compiled, e, st[TEMP := list]), Eval(Documented, e, st), st, list)
    decreases e, 0
  {
    hide Truthy;
    if e.Ternary? {
      DetachedAgrees(e.cond, st, list);
      DetachedAgrees(e.yes, st, list);
      DetachedAgrees(e.no, st, list);
    } else {
      DetachedAgrees(e.left, st, list);
      DetachedAgrees(e.right, st, list);
    }
  }

  lemma {:induction false} DetachedAllAgree(es: Vec<Expr>, st: Store, list: Value)
    requires PlainExprs(es) && DetachedAll(es)
    ensures Indifferent(EvalAll(Compiled, es, st[TEMP := list]), EvalAll(Documented, es, st), st, list)
    decreases es, 0
  {
    if es.Cons? {
      DetachedAgrees(es.head, st, list);
      DetachedAllAgree(es.tail, st, list);
    }
  }

  lemma {:induction false} DetachedPartsAgree(ps: Vec<Part>, st: Store, list: Value)
    requires PlainParts(ps) && DetachedParts(ps)
    ensures Indifferent(EvalParts(Compiled, ps, st[TEMP := list]), EvalParts(Documented, ps, st), st, list)
    decreases ps, 0
  {
    if ps.Cons? {
      DetachedAgrees(ps.head.e, st, list);
      DetachedPartsAgree(ps.tail, st, list);
    }
  }

  /** A comprehension that holds no other one: the variable ends with the list of the results. */
  lemma {:induction false} WholeAgrees(e: Expr, st: Store)
    requires e.Comprehension? && PlainExpr(e)
    ensures Eval(Compiled, e, st) == Eval(Documented, e, st)
  {
    hide EvalComp, Items;
    DetachedAgrees(e.iterable, st, List([]));
    var v := Eval(Documented, e.iterable, st);
    if v.Val? {
      CompAgrees(e, Items(v.value), st, []);
      var r := EvalComp(Documented, e, Items(v.value), st);
      if r.Val? {
        assert [] + r.value == r.value;
        assert Get(r.st[TEMP := List(r.value)], TEMP) == List(r.value);
      }
    }
  }

  function Collected(r: EvalResult<seq<Value>>, acc: seq<Value>): EvalResult<seq<Value>> {
    match r
    case Fail(err) => Fail(err)
    case Val(vs, st) => Val(vs, st[TEMP := List(acc + vs)])
  }

  lemma {:induction false} CompAgrees(e: Expr, items: seq<Value>, st: Store, acc: seq<Value>)
    requires e.Comprehension? && PlainRound(e)
    ensures EvalComp(Compiled, e, items, st[TEMP := List(acc)]) == Collected(EvalComp(Documented, e, items, st), acc)
    decreases |items|
  {
    hide CompItem, PlainRound;
    if items == [] {
      assert acc + [] == acc;
    } else {
      ItemAgrees(e, items[0], st, acc);
      var r := CompItem(Documented, e, items[0], st);
      if r.Val? {
        CompAgrees(e, items[1..], r.st, acc + r.value);
        var rest := EvalComp(Documented, e, items[1..], r.st);
        if rest.Val? {
          assert acc + r.value + rest.value == acc + (r.value + rest.value);
        }
      }
    }
  }

  lemma {:induction false} ItemAgrees(e: Expr, item: Value, st: Store, acc: seq<Value>)
    requires e.Comprehension? && PlainRound(e)
    ensures CompItem(Compiled, e, item, st[TEMP := List(acc)]) == Collected(CompItem(Documented, e, item, st), acc)
  {
    hide Eval;
    var st0, list := st[e.name := item], List(acc);
    assert st[TEMP := list][e.name := item] == st0[TEMP := list];
    FilterAgrees(e.filter, st0, list);
    assert acc + [] == acc;
    var f := FilterItem(Documented, e.filter, st0);
    if f.Val? && Truthy(f.value) {
      DetachedAgrees(e.result, st0, list);
      var v := Eval(Documented, e.result, st0);
      if v.Val? {
        assert st0[TEMP := list][TEMP := List(acc + [v.value])] == st0[TEMP := List(acc + [v.value])];
      }
    }
  }

  lemma {:induction false} FilterAgrees(f: Option<Expr>, st: Store, list: Value)
    requires PlainOpt(f) && (f.Some? ==> Detached(f.value))
    ensures Indifferent(FilterItem(Compiled, f, st[TEMP := list]), FilterItem(Documented, f, st), st, list)
  {
    hide Eval;
    if f.Some? {
      DetachedAgrees(f.value, st, list);
    }
  }

  // ----- lists -----

  lemma {:induction false} ExprsAgree(es: Vec<Expr>, st: Store)
    requires PlainExprs(es)
    ensures EvalAll(Compiled, es, st) == EvalAll(Documented, es, st)
    decreases es, 1, 0
  {
    if es.Cons? {
      ExprAgrees(es.head, st);
      var v := Eval(Compiled, es.head, st);
      if v.Val? { ExprsAgree(es.tail, v.st); }
    }
  }

  lemma {:induction false} PartsAgree(ps: Vec<Part>, st: Store)
    requires PlainParts(ps)
    ensures EvalParts(Compiled, ps, st) == EvalParts(Documented, ps, st)
    decreases ps, 1, 0
  {
    if ps.Cons? {
      ExprAgrees(ps.head.e, st);
      var v := Eval(Compiled, ps.head.e, st);
      if v.Val? { PartsAgree(ps.tail, v.st); }
    }
  }

  // ----- up to the iterators left behind -----

  function Erased(r: ExecResult): ExecResult {
    if r.Done? then r.(leaks := []) else r
  }

  lemma {:induction false} PrintAgrees(args: Vec<Expr>, st: State)
    requires PlainExprs(args)
    ensures Print(Compiled, args, st) == Print(Documented, args, st)
    decreases args
  {
    hide Eval;
    if args.Cons? {
      ExprAgrees(args.head, st.vars);
      var v := Eval(Compiled, args.head, st.vars);
      if v.Val? { PrintAgrees(args.tail, State(v.st, st.out + Display(v.value))); }
    }
  }

  lemma SourceAgrees(s: Stmt, st: Store)
    requires (s.ForIn? && PlainExpr(s.iterable)) || (s.ForRange? && PlainExpr(s.from) && PlainExpr(s.to) && PlainOpt(s.step))
    ensures ForSource(Compiled, s, st) == ForSource(Documented, s, st)
  {
    hide Eval, Range3Values;
    if s.ForIn? {
      ExprAgrees(s.iterable, st);
    } else {
      ExprAgrees(s.from, st);
      var a := Eval(Compiled, s.from, st);
      if a.Val? {
        ExprAgrees(s.to, a.st);
        var b := Eval(Compiled, s.to, a.st);
        if b.Val? {
          ExprAgrees(StepExpr(s.step), b.st);
        }
      }
    }
  }

  lemma {:induction false} StmtAgrees(s: Stmt, st: State, fuel: nat)
    requires Plain(s)
    ensures Erased(Exec(Compiled, s, st, fuel)) == Exec(Documented, s, st, fuel)
    decreases fuel, s, 1, 0
  {
    hide Eval, BinaryValues, IndexUpdate, ForSource, Items, Display;
    match s
    case Assign(_, e) => ExprAgrees(e, st.vars);
    case Compound(_, _, e) => ExprAgrees(e, st.vars);
    case IndexAssign(_, i, e) =>
      ExprAgrees(i, st.vars);
      var v := Eval(Compiled, i, st.vars);
      if v.Val? { ExprAgrees(e, v.st); }
    case ExprStmt(e) => ExprAgrees(e, st.vars);
    case Println(args) => PrintAgrees(args, st);
    case Paste(args) =>
      PrintAgrees(args, st);
      PrintExits(Compiled, args, st);
    case If(c, yes, rest) =>
      ExprAgrees(c, st.vars);
      var v := Eval(Compiled, c, st.vars);
      if v.Val? {
        BlockAgrees(yes, State(v.st, st.out), fuel);
        RestAgrees(rest, rest.Elif?, State(v.st, st.out), fuel);
      }
    case While(c, body) =>
      ExprAgrees(c, st.vars);
      var v := Eval(Compiled, c, st.vars);
      if fuel > 0 && v.Val? { AgainAgrees(s, State(v.st, st.out), fuel); }
    case Loop(body) =>
      if fuel > 0 { AgainAgrees(s, st, fuel); }
    case ForIn(x, _, body) =>
      SourceAgrees(s, st.vars);
      var v := ForSource(Compiled, s, st.vars);
      if v.Val? { ForAgrees(x, body, Items(v.value), State(v.st, st.out), fuel); }
    case ForRange(x, _, _, _, body) =>
      SourceAgrees(s, st.vars);
      var v := ForSource(Compiled, s, st.vars);
      if v.Val? { ForAgrees(x, body, Items(v.value), State(v.st, st.out), fuel); }
    case Scope(body) => BlockAgrees(body, st, fuel);
    case _ =>
  }

  lemma {:induction false} AgainAgrees(s: Stmt, st: State, fuel: nat)
    requires (s.While? || s.Loop?) && Plain(s) && fuel > 0
    ensures Erased(Again(Compiled, s, s.body, st, fuel)) == Again(Documented, s, s.body, st, fuel)
    decreases fuel, s, 0, 0
  {
    BlockAgrees(s.body, st, fuel);
    var r := ExecBlock(Compiled, s.body, st, fuel);
    if r.Done? { StmtAgrees(s, r.st, fuel - 1); }
  }

  lemma {:induction false} BlockAgrees(b: Block, st: State, fuel: nat)
    requires PlainBlock(b)
    ensures Erased(ExecBlock(Compiled, b, st, fuel)) == ExecBlock(Documented, b, st, fuel)
    decreases fuel, b, 1, 0
  {
    if b.Cons? {
      StmtAgrees(b.head, st, fuel);
      var r := Exec(Compiled, b.head, st, fuel);
      if r.Done? { BlockAgrees(b.tail, r.st, fuel); }
    }
  }

  lemma {:induction false} RestAgrees(r: Rest, skip: bool, st: State, fuel: nat)
    requires PlainRest(r) && (skip ==> !EndsInElse(r))
    ensures Erased(ExecRest(Compiled, r, skip, st, fuel)) == ExecRest(Documented, r, false, st, fuel)
    decreases fuel, r, 1, 0
  {
    hide Eval;
    match r
    case NoElse =>
    case Else(body) => BlockAgrees(body, st, fuel);
    case Elif(c, body, rest) =>
      ExprAgrees(c, st.vars);
      var v := Eval(Compiled, c, st.vars);
      if v.Val? {
        BlockAgrees(body, State(v.st, st.out), fuel);
        RestAgrees(rest, skip, State(v.st, st.out), fuel);
      }
  }

  lemma {:induction false} ForAgrees(x: string, body: Block, items: seq<Value>, st: State, fuel: nat)
    requires PlainBlock(body) && NoForBreakBlock(body)
    ensures Erased(ExecFor(Compiled, x, body, [items], st, fuel)) == ExecFor(Documented, x, body, [items], st, fuel)
    decreases fuel, body, 2, 0
  {
    hide ExecBlock;
    if items != [] && fuel > 0 {
      var st0 := State(st.vars[x := items[0]], st.out);
      BlockAgrees(body, st0, fuel);
      BlockExitFacts(Compiled, body, st0, fuel);
      var r := ExecBlock(Compiled, body, st0, fuel);
      if r.Done? {
        assert [items][..0] + [items[1..]] + [] == [items[1..]];
        ForAgrees(x, body, items[1..], r.st, fuel - 1);
      }
    }
  }

  // ----- exactly when the departures show -----

  /** `a ?? b`, with no other `??` inside, means what is documented exactly when the left value is
      true or null, or the right operand yields the left value again and changes nothing. */
  lemma {:induction false} CoalesceExact(l: Expr, r: Expr, st: Store)
    requires PlainExpr(l) && PlainExpr(r)
    ensures Eval(Compiled, Coalesce(l, r), st) == Eval(Documented, Coalesce(l, r), st)
       <==> var v := Eval(Documented, l, st);
            v.Val? ==> Truthy(v.value) || v.value == Null || Eval(Documented, r, v.st) == v
  {
    hide Eval, PlainExpr;
    CoalesceMeans(Compiled, l, r, st);
    CoalesceMeans(Documented, l, r, st);
    ExprAgrees(l, st);
    var v := Eval(Compiled, l, st);
    if v.Val? {
      ExprAgrees(r, v.st);
    }
  }

  lemma {:induction false} CoalesceMeans(rd: Reading, l: Expr, r: Expr, st: Store)
    ensures var v := Eval(rd, l, st);
            Eval(rd, Coalesce(l, r), st) == if v.Val? && !KeepsLeft(rd, v.value) then Eval(rd, r, v.st) else v
  {
  }

  /** A false left value that is not null: `0 ?? 1` is 0 as documented, and 1 as compiled. */
  lemma CoalesceDiffers(st: Store)
    ensures Eval(Documented, Coalesce(IntLit(0), IntLit(1)), st) == Val(Int(0), st)
    ensures Eval(Compiled, Coalesce(IntLit(0), IntLit(1)), st) == Val(Int(1), st)
  {
  }

  datatype Reached = ElseReached(body: Block, st: State) | ElseMissed

  /** Evaluates the conditions in order: is the `else` entered, and in which state? */
  function ReachElse(r: Rest, st: State): Reached {
    match r
    case NoElse => ElseMissed
    case Else(body) => ElseReached(body, st)
    case Elif(c, _, rest) =>
      match Eval(Documented, c, st.vars)
      case Fail(_) => ElseMissed
      case Val(v, st1) => if Truthy(v) then ElseMissed else ReachElse(rest, State(st1, st.out))
  }

  lemma {:induction false} RestExact(r: Rest, st: State, fuel: nat)
    requires PlainRest(r)
    ensures Erased(ExecRest(Compiled, r, true, st, fuel)) == ExecRest(Documented, r, false, st, fuel)
       <==> var x := ReachElse(r, st);
            x.ElseReached? ==> ExecBlock(Documented, x.body, x.st, fuel) == Done(Normal, x.st, [])
    decreases r
  {
    hide Eval;
    match r
    case NoElse =>
    case Else(body) => BlockAgrees(body, st, fuel);
    case Elif(c, body, rest) =>
      ExprAgrees(c, st.vars);
      var v := Eval(Compiled, c, st.vars);
      if v.Val? {
        BlockAgrees(body, State(v.st, st.out), fuel);
        RestExact(rest, State(v.st, st.out), fuel);
      }
  }

  /** An `if` with an `elif`, whose parts are plain, means what is documented exactly when every
      condition being false either leads to no `else` or to one that does nothing. */
  lemma ElifElseExact(c: Expr, yes: Block, rest: Rest, st: State, fuel: nat)
    requires PlainExpr(c) && PlainBlock(yes) && PlainRest(rest) && rest.Elif?
    ensures Erased(Exec(Compiled, If(c, yes, rest), st, fuel)) == Exec(Documented, If(c, yes, rest), st, fuel)
       <==> var v := Eval(Documented, c, st.vars);
            v.Val? && !Truthy(v.value) ==>
              var x := ReachElse(rest, State(v.st, st.out));
              x.ElseReached? ==> ExecBlock(Documented, x.body, x.st, fuel) == Done(Normal, x.st, [])
  {
    hide Eval, ExecRest, ExecBlock, ReachElse;
    ExprAgrees(c, st.vars);
    var v := Eval(Compiled, c, st.vars);
    if v.Val? {
      BlockAgrees(yes, State(v.st, st.out), fuel);
      RestExact(rest, State(v.st, st.out), fuel);
    }
  }
}
