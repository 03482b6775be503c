/** What a program means. Loops take fuel, so that runs that never end are described too.

    The reference meaning is the `Documented` reading. The `Compiled` reading differs in the
    four places where the bytecode compiler departs from it: `a ?? b` tests truth instead of
    null; the `else` of an `if` that also has an `elif` is never entered; a `for` loop left by
    `break` leaves its iterator behind, which the loop around takes for its own; and all
    comprehensions collect their list in one variable. The `Lowered` reading is that of the
    register code: a range loop there counts in its own variable, looks at a variable in its bound
    or step again in every round, and goes on while the counter is below the bound, whatever the
    sign of the step; division truncates, and a zero divisor stops the processor; both operands of
    `and` and `or` are evaluated, and these and `not` work on numbers as on words; and truth values
    are printed as numbers. */
module Source {
  import opened Values
  import opened Words
  import opened Ast

  datatype Reading = Documented | Compiled | Lowered

  type Store = map<string, Value>

  function Get(st: Store, x: string): Value {
    if x in st then st[x] else Null
  }

  datatype EvalResult<+T> = Val(value: T, st: Store) | Fail(error: Error)

  // ----- words -----

  /** The register contents that stand for a value. */
  function Enc(v: Value): int {
    match v
    case Int(i) => i
    case Bool(b) => if b then 1 else 0
    case _ => 0
  }

  /** The native compiler computes with literals itself, comparisons and bits included. */
  function Literal(e: Expr): Option<i64>
    decreases e, 1
  {
    match e
    case IntLit(i) => Some(i)
    case Binary(op, l, r) => if Folded(e) then Fold(op, Literal(l).value, Literal(r).value) else None
    case And(l, r) => if Folded(e) then Some(Arith(OpAnd, Literal(l).value, Literal(r).value)) else None
    case Or(l, r) => if Folded(e) then Some(Arith(OpOr, Literal(l).value, Literal(r).value)) else None
    case _ => None
  }

  predicate Folded(e: Expr)
    requires e.Binary? || e.And? || e.Or?
    decreases e, 0
  {
    Literal(e.left).Some? && Literal(e.right).Some?
  }

  /** Division truncates. At run time the processor refuses a zero divisor, and an overflow. */
  function Divided(op: BinOp, folded: bool, a: int, b: int): Result<Value> {
    if b == 0 || (!folded && a == -TWO63 && b == -1) then Err(Trap)
    else Ok(Int(Wrap(if op == FloorDiv then TruncDiv(a, b) else TruncMod(a, b))))
  }

  function Operated(rd: Reading, op: BinOp, folded: bool, a: Value, b: Value): Result<Value> {
    if rd.Lowered? && (op == FloorDiv || op == BinOp.Mod) && a.Int? && b.Int? then Divided(op, folded, a.i, b.i)
    else BinaryValues(op, a, b)
  }

  /** `and` and `or` on numbers: literals are combined bit by bit; otherwise the second number is passed on
      if the first does not decide. */
  function Joined(isAnd: bool, folded: bool, a: Value, b: Value): Value {
    if a.Bool? && b.Bool? then Bool(if isAnd then a.b && b.b else a.b || b.b)
    else if folded then Int(Wrap(Bitwise(if isAnd then OpAnd else OpOr, Enc(a) % TWO64, Enc(b) % TWO64, 64)))
    else if (Enc(a) != 0) == isAnd then Int(Enc(b))
    else Int(Truth(!isAnd))
  }

  function Flipped(i: int): Value {
    Int(Wrap(Bitwise(OpXor, i % TWO64, 1, 64)))
  }

  /** `a ?? b` keeps its left value. */
  predicate KeepsLeft(rd: Reading, v: Value) {
    if rd.Compiled? then Truthy(v) else v != Null
  }

  function Eval(rd: Reading, e: Expr, st: Store): EvalResult<Value>
    decreases e, 1, 0
  {
    match e
    case IntLit(i) => Val(Int(i), st)
    case BoolLit(b) => Val(Bool(b), st)
    case NullLit => Val(Null, st)
    case StrLit(s) => Val(Str(s), st)
    case Var(x) => Val(Get(st, x), st)
    case Binary(op, l, r) =>
      (match Eval(rd, l, st)
       case Fail(err) => Fail(err)
       case Val(a, st1) =>
         match Eval(rd, r, st1)
         case Fail(err) => Fail(err)
         case Val(b, st2) =>
           match Operated(rd, op, Folded(e), a, b)
           case Ok(v) => Val(v, st2)
           case Err(err) => Fail(err))
    case And(l, r) =>
      (match Eval(rd, l, st)
       case Fail(err) => Fail(err)
       case Val(a, st1) =>
         if !rd.Lowered? && !Truthy(a) then Val(Bool(false), st1)
         else
           match Eval(rd, r, st1)
           case Fail(err) => Fail(err)
           case Val(b, st2) => Val(if rd.Lowered? then Joined(true, Folded(e), a, b) else Bool(Truthy(b)), st2))
    case Or(l, r) =>
      (match Eval(rd, l, st)
       case Fail(err) => Fail(err)
       case Val(a, st1) =>
         if !rd.Lowered? && Truthy(a) then Val(Bool(true), st1)
         else
           match Eval(rd, r, st1)
           case Fail(err) => Fail(err)
           case Val(b, st2) => Val(if rd.Lowered? then Joined(false, Folded(e), a, b) else Bool(Truthy(b)), st2))
    case Unary(op, x) =>
      (match Eval(rd, x, st)
       case Fail(err) => Fail(err)
       case Val(a, st1) => Val(if rd.Lowered? && op == UnOp.Not && a.Int? then Flipped(a.i) else UnaryValue(op, a), st1))
    case Ternary(c, a, b) =>
      (match Eval(rd, c, st)
       case Fail(err) => Fail(err)
       case Val(v, st1) => if Truthy(v) then Eval(rd, a, st1) else Eval(rd, b, st1))
    case Coalesce(l, r) =>
      (match Eval(rd, l, st)
       case Fail(err) => Fail(err)
       case Val(a, st1) => if KeepsLeft(rd, a) then Val(a, st1) else Eval(rd, r, st1))
    case ListLit(es) =>
      (match EvalAll(rd, es, st)
       case Fail(err) => Fail(err)
       case Val(vs, st1) => Val(List(vs), st1))
    case TupleLit(es) =>
      (match EvalAll(rd, es, st)
       case Fail(err) => Fail(err)
       case Val(vs, st1) => Val(Tuple(vs), st1))
    case SpreadLit(ps) =>
      (match EvalParts(rd, ps, st)
       case Fail(err) => Fail(err)
       case Val(vs, st1) => Val(List(vs), st1))
    case Index(t, i) =>
      (match Eval(rd, t, st)
       case Fail(err) => Fail(err)
       case Val(a, st1) =>
         match Eval(rd, i, st1)
         case Fail(err) => Fail(err)
         case Val(b, st2) =>
           match IndexValue(a, b)
           case Ok(v) => Val(v, st2)
           case Err(err) => Fail(err))
    case Comprehension(_, _, it, _) =>
      (match Eval(rd, it, if rd.Compiled? then st[TEMP := List([])] else st)
       case Fail(err) => Fail(err)
       case Val(v, st1) =>
         match EvalComp(rd, e, Items(v), st1)
         case Fail(err) => Fail(err)
         case Val(vs, st2) => if rd.Compiled? then Val(Get(st2, TEMP), st2) else Val(List(vs), st2[TEMP := List(vs)]))
  }

  /** All the values, left to right. */
  function EvalAll(rd: Reading, es: Vec<Expr>, st: Store): EvalResult<seq<Value>>
    decreases es, 1, 0
  {
    match es
    case Nil => Val([], st)
    case Cons(e, rest) =>
      match Eval(rd, e, st)
      case Fail(err) => Fail(err)
      case Val(v, st1) =>
        match EvalAll(rd, rest, st1)
        case Fail(err) => Fail(err)
        case Val(vs, st2) => Val([v] + vs, st2)
  }

  /** The concatenation of the pieces. */
  function EvalParts(rd: Reading, ps: Vec<Part>, st: Store): EvalResult<seq<Value>>
    decreases ps, 1, 0
  {
    match ps
    case Nil => Val([], st)
    case Cons(p, rest) =>
      match Eval(rd, p.e, st)
      case Fail(err) => Fail(err)
      case Val(v, st1) =>
        match EvalParts(rd, rest, st1)
        case Fail(err) => Fail(err)
        case Val(vs, st2) => Val((if p.Plain? then [v] else Items(v)) + vs, st2)
  }

  /** What one item contributes to a comprehension. The loop variable stays assigned. */
  function CompItem(rd: Reading, e: Expr, item: Value, st: Store): EvalResult<seq<Value>>
    requires e.Comprehension?
    decreases e, 0, 0
  {
    match FilterItem(rd, e.filter, st[e.name := item])
    case Fail(err) => Fail(err)
    case Val(keep, st1) =>
      if !Truthy(keep) then Val([], st1)
      else
        match Eval(rd, e.result, st1)
        case Fail(err) => Fail(err)
        case Val(v, st2) => Val([v], if rd.Compiled? then st2[TEMP := Grown(Get(st2, TEMP), v)] else st2)
  }

  function FilterItem(rd: Reading, f: Option<Expr>, st: Store): EvalResult<Value>
    decreases f, 2, 0
  {
    if f.Some? then Eval(rd, f.value, st) else Val(Bool(true), st)
  }

  /** Filter, then map, over the items in order. */
  function EvalComp(rd: Reading, e: Expr, items: seq<Value>, st: Store): EvalResult<seq<Value>>
    requires e.Comprehension?
    decreases e, 0, |items|
  {
    if items == [] then Val([], st)
    else
      match CompItem(rd, e, items[0], st)
      case Fail(err) => Fail(err)
      case Val(ws, st1) =>
        match EvalComp(rd, e, items[1..], st1)
        case Fail(err) => Fail(err)
        case Val(vs, st2) => Val(ws + vs, st2)
  }

  // ----- statements -----

  datatype State = State(vars: Store, out: string)

  datatype Exit = Normal | Broke | Continued

  /** `leaks` are the iterators that were left behind, the last one last: the items each still has. */
  datatype ExecResult =
    | Done(exit: Exit, st: State, leaks: seq<seq<Value>>)
    | Failed(error: Error, out: string)
    | OutOfFuel(out: string)

  function AddLeaks(ls: seq<seq<Value>>, r: ExecResult): ExecResult {
    if r.Done? then r.(leaks := ls + r.leaks) else r
  }

  function Assigned(x: string, r: EvalResult<Value>, out: string): ExecResult {
    match r
    case Fail(err) => Failed(err, out)
    case Val(v, st) => Done(Normal, State(st[x := v], out), [])
  }

  function Checked(r: Result<Value>, st: Store): EvalResult<Value> {
    match r
    case Ok(v) => Val(v, st)
    case Err(err) => Fail(err)
  }

  /** How a value is printed. */
  function Shown(rd: Reading, v: Value): string {
    if rd.Lowered? && v.Bool? then (if v.b then "1" else "0") else Display(v)
  }

  function Print(rd: Reading, args: Vec<Expr>, st: State): ExecResult {
    match args
    case Nil => Done(Normal, st, [])
    case Cons(e, rest) =>
      match Eval(rd, e, st.vars)
      case Fail(err) => Failed(err, st.out)
      case Val(v, st1) => Print(rd, rest, State(st1, st.out + Shown(rd, v)))
  }

  datatype Bounds = Bounds(from: Value, to: Value, step: Value)

  /** The bounds and the step of a range, each evaluated once. */
  function RangeBounds(rd: Reading, s: Stmt, st: Store): EvalResult<Bounds>
    requires s.ForRange?
  {
    match Eval(rd, s.from, st)
    case Fail(err) => Fail(err)
    case Val(a, st1) =>
      match Eval(rd, s.to, st1)
      case Fail(err) => Fail(err)
      case Val(b, st2) =>
        match Eval(rd, StepExpr(s.step), st2)
        case Fail(err) => Fail(err)
        case Val(c, st3) => Val(Bounds(a, b, c), st3)
  }

  lemma UnitStep(rd: Reading, st: Store)
    ensures Eval(rd, StepExpr(None), st) == Val(Int(1), st)
  {
  }

  /** The value a `for` statement iterates over. */
  function ForSource(rd: Reading, s: Stmt, st: Store): EvalResult<Value>
    requires s.ForIn? || s.ForRange?
  {
    if s.ForIn? then Eval(rd, s.iterable, st)
    else
      match RangeBounds(rd, s, st)
      case Fail(err) => Fail(err)
      case Val(b, st1) => Checked(Range3Values(b.from, b.to, b.step), st1)
  }

  function IntOf(v: Value): int {
    if v.Int? then v.i else 0
  }

  /** What a lowered loop sees of an expression whose value was `v` before the loop. */
  function Seen(e: Expr, v: Value, st: Store): Value {
    if e.Var? then Get(st, e.name) else v
  }

  /** The lowered loop goes into another round. */
  predicate GoesOn(s: Stmt, b: Bounds, st: Store)
    requires s.ForRange?
  {
    IntOf(Get(st, s.name)) < IntOf(Seen(s.to, b.to, st))
  }

  /** The counter after a round. */
  function Advanced(s: Stmt, b: Bounds, st: State): State
    requires s.ForRange?
  {
    var next := IntOf(Get(st.vars, s.name)) + IntOf(Seen(StepExpr(s.step), b.step, st.vars));
    State(st.vars[s.name := Int(Wrap(next))], st.out)
  }

  function Exec(rd: Reading, s: Stmt, st: State, fuel: nat): ExecResult
    decreases fuel, s, 1, 0
  {
    match s
    case Assign(x, e) => Assigned(x, Eval(rd, e, st.vars), st.out)
    case Compound(x, op, e) =>
      (match Eval(rd, e, st.vars)
       case Fail(err) => Failed(err, st.out)
       case Val(b, st1) => Assigned(x, Checked(Operated(rd, op, false, Get(st.vars, x), b), st1), st.out))
    case Delete(x) => Done(Normal, State(st.vars[x := Null], st.out), [])
    case IndexAssign(x, i, e) =>
      (match Eval(rd, i, st.vars)
       case Fail(err) => Failed(err, st.out)
       case Val(k, st1) =>
         match Eval(rd, e, st1)
         case Fail(err) => Failed(err, st.out)
         case Val(v, st2) => Assigned(x, Checked(IndexUpdate(Get(st.vars, x), k, v), st2), st.out))
    case ExprStmt(e) =>
      (match Eval(rd, e, st.vars)
       case Fail(err) => Failed(err, st.out)
       case Val(_, st1) => Done(Normal, State(st1, st.out), []))
    case Println(args) =>
      (match Print(rd, args, st)
       case Done(x, st1, n) => Done(Normal, State(st1.vars, st1.out + "\n"), [])
       case r => r)
    case Paste(args) => Print(rd, args, st)
    case If(c, yes, rest) =>
      (match Eval(rd, c, st.vars)
       case Fail(err) => Failed(err, st.out)
       case Val(v, st1) =>
         if Truthy(v) then ExecBlock(rd, yes, State(st1, st.out), fuel)
         else ExecRest(rd, rest, rd.Compiled? && rest.Elif?, State(st1, st.out), fuel))
    case While(c, body) =>
      if fuel == 0 then OutOfFuel(st.out)
      else
        (match Eval(rd, c, st.vars)
         case Fail(err) => Failed(err, st.out)
         case Val(v, st1) =>
           if Truthy(v) then Again(rd, s, body, State(st1, st.out), fuel)
           else Done(Normal, State(st1, st.out), []))
    case Loop(body) => if fuel == 0 then OutOfFuel(st.out) else Again(rd, s, body, st, fuel)
    case ForIn(_, _, body) =>
      (match ForSource(rd, s, st.vars)
       case Fail(err) => Failed(err, st.out)
       case Val(v, st1) => ExecFor(rd, s.name, body, [Items(v)], State(st1, st.out), fuel))
    case ForRange(_, _, _, _, body) =>
      if rd.Lowered? then
        (match RangeBounds(rd, s, st.vars)
         case Fail(err) => Failed(err, st.out)
         case Val(b, st1) => ExecCounted(s, b, State(st1[s.name := b.from], st.out), fuel))
      else
        (match ForSource(rd, s, st.vars)
         case Fail(err) => Failed(err, st.out)
         case Val(v, st1) => ExecFor(rd, s.name, body, [Items(v)], State(st1, st.out), fuel))
    case Break => Done(Broke, st, [])
    case Continue => Done(Continued, st, [])
    case Scope(body) => ExecBlock(rd, body, st, fuel)
  }

  /** One iteration of a `while` or `loop` statement, and the iterations after it. */
  function Again(rd: Reading, s: Stmt, body: Block, st: State, fuel: nat): ExecResult
    requires s.While? || s.Loop?
    requires body == s.body && fuel > 0
    decreases fuel, s, 0, 0
  {
    match ExecBlock(rd, body, st, fuel)
    case Done(exit, st1, n) =>
      if exit == Broke then Done(Normal, st1, n) else AddLeaks(n, Exec(rd, s, st1, fuel - 1))
    case r => r
  }

  function ExecBlock(rd: Reading, b: Block, st: State, fuel: nat): ExecResult
    decreases fuel, b, 1, 0
  {
    match b
    case Nil => Done(Normal, st, [])
    case Cons(s, rest) =>
      match Exec(rd, s, st, fuel)
      case Done(Normal, st1, n) => AddLeaks(n, ExecBlock(rd, rest, st1, fuel))
      case r => r
  }

  function ExecRest(rd: Reading, r: Rest, skipElse: bool, st: State, fuel: nat): ExecResult
    decreases fuel, r, 1, 0
  {
    match r
    case NoElse => Done(Normal, st, [])
    case Else(body) => if skipElse then Done(Normal, st, []) else ExecBlock(rd, body, st, fuel)
    case Elif(c, body, rest) =>
      match Eval(rd, c, st.vars)
      case Fail(err) => Failed(err, st.out)
      case Val(v, st1) =>
        if Truthy(v) then ExecBlock(rd, body, State(st1, st.out), fuel)
        else ExecRest(rd, rest, skipElse, State(st1, st.out), fuel)
  }

  /** The rounds of a `for` loop over the iterator on top. What the body leaves behind comes to lie on
      top of it; when the top one has no more items it is dropped and the loop ends. */
  function ExecFor(rd: Reading, x: string, body: Block, its: seq<seq<Value>>, st: State, fuel: nat): ExecResult
    requires its != []
    decreases fuel, body, 2, 0
  {
    var below, top := its[..|its| - 1], its[|its| - 1];
    if top == [] then Done(Normal, st, below)
    else if fuel == 0 then OutOfFuel(st.out)
    else
      match ExecBlock(rd, body, State(st.vars[x := top[0]], st.out), fuel)
      case Done(exit, st1, ls) =>
        var its' := below + [top[1..]] + ls;
        if exit != Broke then ExecFor(rd, x, body, its', st1, fuel - 1)
        else Done(Normal, st1, if rd.Compiled? then its' else [])
      case r => r
  }

  /** Printing a variable. */
  lemma ShowMeans(rd: Reading, item: Value, st: State, fuel: nat)
    requires "x" in st.vars && st.vars["x"] == item && Shown(rd, item) == Display(item)
    ensures Exec(rd, Println(Cons(Var("x"), Nil)), st, fuel) == Done(Normal, State(st.vars, st.out + Display(item) + "\n"), [])
  {
    hide Display;
    var st1 := State(st.vars, st.out + Display(item));
    assert Eval(rd, Var("x"), st.vars) == Val(item, st.vars);
    assert Print(rd, Nil, st1) == Done(Normal, st1, []);
    assert Print(rd, Cons(Var("x"), Nil), st) == Done(Normal, st1, []);
  }

  /** The rounds of a lowered range loop. */
  function ExecCounted(s: Stmt, b: Bounds, st: State, fuel: nat): ExecResult
    requires s.ForRange?
    decreases fuel, s, 0, 0
  {
    if !GoesOn(s, b, st.vars) then Done(Normal, st, [])
    else if fuel == 0 then OutOfFuel(st.out)
    else
      match ExecBlock(Lowered, s.body, st, fuel)
      case Done(exit, st1, _) =>
        if exit == Broke then Done(Normal, st1, []) else ExecCounted(s, b, Advanced(s, b, st1), fuel - 1)
      case r => r
  }
}
