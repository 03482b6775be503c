/** The code of every construct as a function of where it is placed. Jump targets are absolute.
    The compiler, which emits placeholders and patches them later, is proved to produce this code.
    Each construct first gets a shape: its code in terms of the code of its parts. */
module Layout {
  import opened Values
  import opened Ast
  import opened Bytecode

  // ----- shapes of expressions -----

  function AndShape(base: nat, l: seq<Instr>, r: seq<Instr>): seq<Instr> {
    var no := base + |l| + 1 + |r| + 2;
    l + [JumpIfFalse(no)] + r + [CallBuiltin(BoolOf, 1), Jump(no + 1), ConstBool(false)]
  }

  function OrShape(base: nat, l: seq<Instr>, r: seq<Instr>): seq<Instr> {
    var yes := base + |l| + 3 + |r| + 2;
    l + [Dup, JumpIfTrue(yes), Pop] + r + [CallBuiltin(BoolOf, 1), Jump(yes + 2), Pop, ConstBool(true)]
  }

  function TernaryShape(base: nat, c: seq<Instr>, a: seq<Instr>, b: seq<Instr>): seq<Instr> {
    var other := base + |c| + 1 + |a| + 1;
    c + [JumpIfFalse(other)] + a + [Jump(other + |b|)] + b
  }

  function CoalesceShape(base: nat, l: seq<Instr>, r: seq<Instr>): seq<Instr> {
    l + [Dup, JumpIfTrue(base + |l| + 3 + |r|), Pop] + r
  }

  /** Load the list, bring the value above it, append, store the list back. */
  function AppendCode(temp: Name): seq<Instr> {
    [LoadGlobal(temp), Swap, CallBuiltin(ListAppend, 2), StoreGlobal(temp)]
  }

  function SpreadShape(base: nat, e: seq<Instr>, temp: Name): seq<Instr> {
    var start := base + |e| + 1;
    e + [Iter, IterNext(start + 1, start + 6)] + AppendCode(temp) + [Jump(start)]
  }

  function FilterShape(f: Option<seq<Instr>>, skip: nat): seq<Instr> {
    if f.Some? then f.value + [JumpIfFalse(skip)] else []
  }

  function FilterSize(f: Option<seq<Instr>>): nat {
    if f.Some? then |f.value| + 1 else 0
  }

  const COLLECTED: Name := User(TEMP)

  function CompShape(base: nat, it: seq<Instr>, x: Name, f: Option<seq<Instr>>, r: seq<Instr>): seq<Instr> {
    var start := base + 2 + |it| + 1;
    var again := start + 2 + FilterSize(f) + |r| + 4;
    [NewList(0), StoreGlobal(COLLECTED)] + it + [Iter, IterNext(start + 1, again + 1), StoreGlobal(x)]
    + FilterShape(f, again) + r + AppendCode(COLLECTED) + [Jump(start), LoadGlobal(COLLECTED)]
  }

  // ----- expressions -----

  /** How many spread temporaries an expression uses. */
  function Temps(e: Expr): nat {
    match e
    case Binary(_, l, r) => Temps(l) + Temps(r)
    case And(l, r) => Temps(l) + Temps(r)
    case Or(l, r) => Temps(l) + Temps(r)
    case Unary(_, x) => Temps(x)
    case Ternary(c, a, b) => Temps(c) + Temps(a) + Temps(b)
    case Coalesce(l, r) => Temps(l) + Temps(r)
    case ListLit(es) => TempsAll(es)
    case TupleLit(es) => TempsAll(es)
    case SpreadLit(ps) => 1 + TempsParts(ps)
    case Index(t, i) => Temps(t) + Temps(i)
    case Comprehension(r, _, it, f) => Temps(it) + TempsOpt(f) + Temps(r)
    case _ => 0
  }

  function TempsOpt(f: Option<Expr>): nat {
    if f.Some? then Temps(f.value) else 0
  }

  function TempsAll(es: Vec<Expr>): nat {
    match es
    case Nil => 0
    case Cons(e, rest) => Temps(e) + TempsAll(rest)
  }

  function TempsParts(ps: Vec<Part>): nat {
    match ps
    case Nil => 0
    case Cons(p, rest) => Temps(p.e) + TempsParts(rest)
  }

  function ExprCode(e: Expr, base: nat, id: nat): seq<Instr>
    decreases e, 1
  {
    match e
    case IntLit(i) => [ConstInt(i)]
    case BoolLit(b) => [ConstBool(b)]
    case NullLit => [ConstNull]
    case StrLit(s) => [ConstStr(s)]
    case Var(x) => [LoadGlobal(User(x))]
    case Unary(op, x) => ExprCode(x, base, id) + [UnaryOp(op)]
    case Binary(_, _, _) => OperatorCode(e, base, id)
    case Index(_, _) => OperatorCode(e, base, id)
    case ListLit(es) => ExprsCode(es, base, id) + [NewList(Len(es))]
    case TupleLit(es) => ExprsCode(es, base, id) + [NewTuple(Len(es))]
    case SpreadLit(ps) =>
      [NewList(0), StoreGlobal(SpreadTemp(id))] + PartsCode(ps, SpreadTemp(id), base + 2, id + 1)
      + [LoadGlobal(SpreadTemp(id))]
    case _ => JumpingCode(e, base, id)
  }

  function OperatorCode(e: Expr, base: nat, id: nat): seq<Instr>
    requires e.Binary? || e.Index?
    decreases e, 0
  {
    match e
    case Binary(op, l, r) =>
      var cl := ExprCode(l, base, id);
      cl + ExprCode(r, base + |cl|, id + Temps(l)) + [Arith(op)]
    case Index(t, i) =>
      var ct := ExprCode(t, base, id);
      ct + ExprCode(i, base + |ct|, id + Temps(t)) + [IndexGet]
  }

  function JumpingCode(e: Expr, base: nat, id: nat): seq<Instr>
    requires e.And? || e.Or? || e.Ternary? || e.Coalesce? || e.Comprehension?
    decreases e, 0
  {
    match e
    case And(l, r) =>
      var cl := ExprCode(l, base, id);
      AndShape(base, cl, ExprCode(r, base + |cl| + 1, id + Temps(l)))
    case Or(l, r) =>
      var cl := ExprCode(l, base, id);
      OrShape(base, cl, ExprCode(r, base + |cl| + 3, id + Temps(l)))
    case Ternary(c, a, b) =>
      var cc := ExprCode(c, base, id);
      var ca := ExprCode(a, base + |cc| + 1, id + Temps(c));
      TernaryShape(base, cc, ca, ExprCode(b, base + |cc| + 1 + |ca| + 1, id + Temps(c) + Temps(a)))
    case Coalesce(l, r) =>
      var cl := ExprCode(l, base, id);
      CoalesceShape(base, cl, ExprCode(r, base + |cl| + 3, id + Temps(l)))
    case Comprehension(r, x, it, f) =>
      var cit := ExprCode(it, base + 2, id);
      var start := base + 2 + |cit| + 1;
      var cf := OptCode(f, start + 2, id + Temps(it));
      CompShape(base, cit, User(x), cf, ExprCode(r, start + 2 + FilterSize(cf), id + Temps(it) + TempsOpt(f)))
  }

  function OptCode(f: Option<Expr>, base: nat, id: nat): Option<seq<Instr>>
    decreases f
  {
    if f.Some? then Some(ExprCode(f.value, base, id)) else None
  }

  function ExprsCode(es: Vec<Expr>, base: nat, id: nat): seq<Instr>
    decreases es
  {
    match es
    case Nil => []
    case Cons(e, rest) =>
      var c := ExprCode(e, base, id);
      c + ExprsCode(rest, base + |c|, id + Temps(e))
  }

  function PartCode(p: Part, temp: Name, base: nat, id: nat): seq<Instr>
    decreases p
  {
    var c := ExprCode(p.e, base, id);
    if p.Plain? then c + AppendCode(temp) else SpreadShape(base, c, temp)
  }

  function PartsCode(ps: Vec<Part>, temp: Name, base: nat, id: nat): seq<Instr>
    decreases ps
  {
    match ps
    case Nil => []
    case Cons(p, rest) =>
      var c := PartCode(p, temp, base, id);
      c + PartsCode(rest, temp, base + |c|, id + Temps(p.e))
  }

  // ----- one level of the code of an expression -----

  lemma {:induction false} OperatorCase(e: Expr, base: nat, id: nat)
    requires e.Binary? || e.Index?
    ensures ExprCode(e, base, id) == OperatorCode(e, base, id)
  {
    hide OperatorCode;
  }

  lemma {:induction false} JumpingCase(e: Expr, base: nat, id: nat)
    requires e.And? || e.Or? || e.Ternary? || e.Coalesce? || e.Comprehension?
    ensures ExprCode(e, base, id) == JumpingCode(e, base, id)
  {
    hide JumpingCode;
  }

  lemma {:induction false} BinaryCode(op: BinOp, l: Expr, r: Expr, base: nat, id: nat)
    ensures var cl := ExprCode(l, base, id);
            ExprCode(Binary(op, l, r), base, id) == cl + ExprCode(r, base + |cl|, id + Temps(l)) + [Arith(op)]
  {
    hide ExprCode, Temps;
    OperatorCase(Binary(op, l, r), base, id);
  }

  lemma {:induction false} IndexCode(l: Expr, r: Expr, base: nat, id: nat)
    ensures var cl := ExprCode(l, base, id);
            ExprCode(Index(l, r), base, id) == cl + ExprCode(r, base + |cl|, id + Temps(l)) + [IndexGet]
  {
    hide ExprCode, Temps;
    OperatorCase(Index(l, r), base, id);
  }

  lemma {:induction false} AndCode(l: Expr, r: Expr, base: nat, id: nat)
    ensures var cl := ExprCode(l, base, id);
            ExprCode(And(l, r), base, id) == AndShape(base, cl, ExprCode(r, base + |cl| + 1, id + Temps(l)))
  {
    hide ExprCode, AndShape, Temps;
    JumpingCase(And(l, r), base, id);
  }

  lemma {:induction false} OrCode(l: Expr, r: Expr, base: nat, id: nat)
    ensures var cl := ExprCode(l, base, id);
            ExprCode(Or(l, r), base, id) == OrShape(base, cl, ExprCode(r, base + |cl| + 3, id + Temps(l)))
  {
    hide ExprCode, OrShape, Temps;
    JumpingCase(Or(l, r), base, id);
  }

  lemma {:induction false} TernaryCode(c: Expr, a: Expr, b: Expr, base: nat, id: nat)
    ensures var cc := ExprCode(c, base, id);
            var ca := ExprCode(a, base + |cc| + 1, id + Temps(c));
            var cb := ExprCode(b, base + |cc| + 1 + |ca| + 1, id + Temps(c) + Temps(a));
            ExprCode(Ternary(c, a, b), base, id) == TernaryShape(base, cc, ca, cb)
  {
    hide ExprCode, TernaryShape, Temps;
    JumpingCase(Ternary(c, a, b), base, id);
  }

  lemma {:induction false} CoalesceCode(l: Expr, r: Expr, base: nat, id: nat)
    ensures var cl := ExprCode(l, base, id);
            ExprCode(Coalesce(l, r), base, id) == CoalesceShape(base, cl, ExprCode(r, base + |cl| + 3, id + Temps(l)))
  {
    hide ExprCode, CoalesceShape, Temps;
    JumpingCase(Coalesce(l, r), base, id);
  }

  lemma {:induction false} CompCode(r: Expr, x: string, it: Expr, f: Option<Expr>, base: nat, id: nat)
    ensures var cit := ExprCode(it, base + 2, id);
            var start := base + 2 + |cit| + 1;
            var cf := OptCode(f, start + 2, id + Temps(it));
            ExprCode(Comprehension(r, x, it, f), base, id)
            == CompShape(base, cit, User(x), cf, ExprCode(r, start + 2 + FilterSize(cf), id + Temps(it) + TempsOpt(f)))
  {
    hide ExprCode, CompShape, FilterSize, Temps, OptCode, TempsOpt;
    JumpingCase(Comprehension(r, x, it, f), base, id);
  }

  // ----- shapes of statements -----

  function WhileShape(base: nat, c: seq<Instr>, body: seq<Instr>): seq<Instr> {
    c + [JumpIfFalse(base + |c| + 1 + |body| + 1)] + body + [Jump(base)]
  }

  /** `src` leaves the container to iterate over on the stack. */
  function ForShape(base: nat, src: seq<Instr>, x: Name, body: seq<Instr>): seq<Instr> {
    var start := base + |src| + 1;
    src + [Iter, IterNext(start + 1, start + 2 + |body| + 1), StoreGlobal(x)] + body + [Jump(start)]
  }

  // ----- statements -----

  function TempsStmt(s: Stmt): nat {
    match s
    case Assign(_, e) => Temps(e)
    case Compound(_, _, e) => Temps(e)
    case Delete(_) => 0
    case IndexAssign(_, i, e) => Temps(i) + Temps(e)
    case ExprStmt(e) => Temps(e)
    case Println(es) => TempsAll(es)
    case Paste(es) => TempsAll(es)
    case If(c, yes, rest) => Temps(c) + TempsBlock(yes) + TempsRest(rest)
    case While(c, body) => Temps(c) + TempsBlock(body)
    case Loop(body) => TempsBlock(body)
    case ForIn(_, it, body) => Temps(it) + TempsBlock(body)
    case ForRange(_, a, b, step, body) => Temps(a) + Temps(b) + TempsOpt(step) + TempsBlock(body)
    case Break => 0
    case Continue => 0
    case Scope(body) => TempsBlock(body)
  }

  function TempsBlock(b: Block): nat {
    match b
    case Nil => 0
    case Cons(s, rest) => TempsStmt(s) + TempsBlock(rest)
  }

  function TempsRest(r: Rest): nat {
    match r
    case NoElse => 0
    case Else(body) => TempsBlock(body)
    case Elif(c, body, rest) => Temps(c) + TempsBlock(body) + TempsRest(rest)
  }

  function PrintCode(args: Vec<Expr>, base: nat, id: nat): seq<Instr> {
    match args
    case Nil => []
    case Cons(e, rest) =>
      var c := ExprCode(e, base, id);
      c + [PrintTop] + PrintCode(rest, base + |c| + 1, id + Temps(e))
  }

  function StepCode(step: Option<Expr>, base: nat, id: nat): seq<Instr> {
    if step.Some? then ExprCode(step.value, base, id) else [ConstInt(1)]
  }

  /** Pushes what a `for` statement iterates over. */
  function SourceCode(s: Stmt, base: nat, id: nat): seq<Instr>
    requires s.ForIn? || s.ForRange?
  {
    if s.ForIn? then ExprCode(s.iterable, base, id)
    else
      var ca := ExprCode(s.from, base, id);
      var cb := ExprCode(s.to, base + |ca|, id + Temps(s.from));
      ca + cb + StepCode(s.step, base + |ca| + |cb|, id + Temps(s.from) + Temps(s.to)) + [CallBuiltin(Range3, 3)]
  }

  function TempsSource(s: Stmt): nat
    requires s.ForIn? || s.ForRange?
  {
    if s.ForIn? then Temps(s.iterable) else Temps(s.from) + Temps(s.to) + TempsOpt(s.step)
  }

  /** `cont` and `brk` are the targets of `continue` and `break` for the loop around `s`. */
  function StmtCode(s: Stmt, base: nat, id: nat, cont: nat, brk: nat): seq<Instr>
    decreases s, 0
  {
    match s
    case Assign(x, e) => ExprCode(e, base, id) + [StoreGlobal(User(x))]
    case Compound(x, op, e) =>
      [LoadGlobal(User(x))] + ExprCode(e, base + 1, id) + [Arith(op), StoreGlobal(User(x))]
    case Delete(x) => [ConstNull, StoreGlobal(User(x))]
    case IndexAssign(x, i, e) =>
      var ci := ExprCode(i, base + 1, id);
      [LoadGlobal(User(x))] + ci + ExprCode(e, base + 1 + |ci|, id + Temps(i)) + [IndexSet, StoreGlobal(User(x))]
    case ExprStmt(e) => ExprCode(e, base, id) + [Pop]
    case Println(args) => PrintCode(args, base, id) + [Newline]
    case Paste(args) => PrintCode(args, base, id)
    case If(c, yes, rest) =>
      var cc := ExprCode(c, base, id);
      var cy := BlockCode(yes, base + |cc| + 1, id + Temps(c), cont, brk);
      var next := base + |cc| + 1 + |cy| + (if rest.NoElse? then 0 else 1);
      var cr := RestCode(rest, next, id + Temps(c) + TempsBlock(yes), cont, brk, EndOf(rest, next, id + Temps(c) + TempsBlock(yes), cont, brk));
      cc + [JumpIfFalse(next)] + cy + (if rest.NoElse? then [] else [Jump(next + |cr|)]) + cr
    case While(c, body) =>
      var cc := ExprCode(c, base, id);
      WhileShape(base, cc, LoopBody(body, base + |cc| + 1, id + Temps(c), base))
    case Loop(body) => WhileShape(base, [ConstBool(true)], LoopBody(body, base + 2, id, base))
    case ForIn(x, _, body) =>
      var src := SourceCode(s, base, id);
      var start := base + |src| + 1;
      ForShape(base, src, User(x), LoopBody(body, start + 2, id + TempsSource(s), start))
    case ForRange(x, _, _, _, body) =>
      var src := SourceCode(s, base, id);
      var start := base + |src| + 1;
      ForShape(base, src, User(x), LoopBody(body, start + 2, id + TempsSource(s), start))
    case Break => [Jump(brk)]
    case Continue => [Jump(cont)]
    case Scope(body) => BlockCode(body, base, id, cont, brk)
  }

  function BlockCode(b: Block, base: nat, id: nat, cont: nat, brk: nat): seq<Instr>
    decreases b, 0
  {
    match b
    case Nil => []
    case Cons(s, rest) =>
      var c := StmtCode(s, base, id, cont, brk);
      c + BlockCode(rest, base + |c|, id + TempsStmt(s), cont, brk)
  }

  /** A loop body followed by one jump: `break` goes just past that jump. */
  function LoopBody(body: Block, base: nat, id: nat, start: nat): seq<Instr>
    decreases body, 1
  {
    BlockCode(body, base, id, start, base + |BlockCode(body, base, id, start, 0)| + 1)
  }

  /** The `elif` and `else` branches. Every branch but the last ends in a jump to `end`; the last
      `elif` also goes to `end` when its condition is false, even if an `else` follows. */
  function RestCode(r: Rest, base: nat, id: nat, cont: nat, brk: nat, end: nat): seq<Instr>
    decreases r, 0
  {
    match r
    case NoElse => []
    case Else(body) => BlockCode(body, base, id, cont, brk)
    case Elif(c, body, rest) =>
      var cc := ExprCode(c, base, id);
      var cb := BlockCode(body, base + |cc| + 1, id + Temps(c), cont, brk);
      var next := base + |cc| + 1 + |cb| + 1;
      cc + [JumpIfFalse(if rest.Elif? then next else end)] + cb + [Jump(end)]
      + RestCode(rest, next, id + Temps(c) + TempsBlock(body), cont, brk, end)
  }

  function EndOf(r: Rest, base: nat, id: nat, cont: nat, brk: nat): nat
    decreases r, 1
  {
    base + |RestCode(r, base, id, cont, brk, 0)|
  }

  // ----- the length of code does not depend on its outer targets -----

  lemma {:induction false} StmtLen(s: Stmt, base: nat, id: nat, cont: nat, brk: nat, brk': nat)
    ensures |StmtCode(s, base, id, cont, brk)| == |StmtCode(s, base, id, cont, brk')|
    decreases s, 1
  {
    hide ExprCode, Temps, BlockCode, RestCode, LoopBody, SourceCode, PrintCode;
    match s
    case If(c, yes, rest) =>
      var cc := ExprCode(c, base, id);
      BlockLen(yes, base + |cc| + 1, id + Temps(c), cont, brk, brk');
      var cy := BlockCode(yes, base + |cc| + 1, id + Temps(c), cont, brk);
      var next := base + |cc| + 1 + |cy| + (if rest.NoElse? then 0 else 1);
      var id' := id + Temps(c) + TempsBlock(yes);
      RestLen(rest, next, id', cont, brk, brk', EndOf(rest, next, id', cont, brk), EndOf(rest, next, id', cont, brk'));
    case Scope(body) => BlockLen(body, base, id, cont, brk, brk');
    case _ =>
  }

  lemma {:induction false} BlockLen(b: Block, base: nat, id: nat, cont: nat, brk: nat, brk': nat)
    ensures |BlockCode(b, base, id, cont, brk)| == |BlockCode(b, base, id, cont, brk')|
    decreases b, 1
  {
    hide StmtCode, TempsStmt;
    if b.Cons? {
      StmtLen(b.head, base, id, cont, brk, brk');
      BlockLen(b.tail, base + |StmtCode(b.head, base, id, cont, brk)|, id + TempsStmt(b.head), cont, brk, brk');
    }
  }

  lemma {:induction false} RestLen(r: Rest, base: nat, id: nat, cont: nat, brk: nat, brk': nat, end: nat, end': nat)
    ensures |RestCode(r, base, id, cont, brk, end)| == |RestCode(r, base, id, cont, brk', end')|
    decreases r, 1
  {
    hide ExprCode, BlockCode, Temps, TempsBlock;
    match r
    case NoElse =>
    case Else(body) => BlockLen(body, base, id, cont, brk, brk');
    case Elif(c, body, rest) =>
      var cc := ExprCode(c, base, id);
      BlockLen(body, base + |cc| + 1, id + Temps(c), cont, brk, brk');
      var next := base + |cc| + 1 + |BlockCode(body, base + |cc| + 1, id + Temps(c), cont, brk)| + 1;
      RestLen(rest, next, id + Temps(c) + TempsBlock(body), cont, brk, brk', end, end');
  }

  // ----- programs -----

  /** A top-level program: its statements, then `Halt`. */
  function ProgramCode(p: Block): seq<Instr> {
    BlockCode(p, 0, 0, 0, 0) + [Halt]
  }
}
