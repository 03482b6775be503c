/** Expression code computes the value of the expression: it pushes exactly that value on an
    unchanged stack, or stops with the same error, whatever code and stack surround it. */
module BytecodeExprs {
  import opened Values
  import opened Ast
  import opened Source
  import opened Bytecode
  import opened Layout

  /** `frag` lies at `base` inside `code`. */
  predicate Has(code: seq<Instr>, base: nat, frag: seq<Instr>) {
    base + |frag| <= |code| && code[base..base + |frag|] == frag
  }

  lemma HasSplit(code: seq<Instr>, base: nat, a: seq<Instr>, b: seq<Instr>)
    requires Has(code, base, a + b)
    ensures Has(code, base, a) && Has(code, base + |a|, b)
  {
    assert (a + b)[..|a|] == a && (a + b)[|a|..] == b;
    assert code[base..base + |a|] == code[base..base + |a + b|][..|a|];
    assert code[base + |a|..base + |a| + |b|] == code[base..base + |a + b|][|a|..];
  }

  lemma HasHead(code: seq<Instr>, base: nat, i: Instr, b: seq<Instr>)
    requires Has(code, base, [i] + b)
    ensures base < |code| && code[base] == i && Has(code, base + 1, b)
  {
    HasSplit(code, base, [i], b);
    assert code[base..base + 1][0] == code[base];
  }

  lemma HasOne(code: seq<Instr>, base: nat, i: Instr)
    requires Has(code, base, [i])
    ensures base < |code| && code[base] == i
  {
    assert code[base..base + 1][0] == code[base];
  }

  /** The machine's globals hold what the program's variables hold. */
  ghost predicate Agrees(st: Store, g: map<Name, Value>) {
    forall x: string :: Global(g, User(x)) == Get(st, x)
  }

  /** Temporaries outside the range `lo..hi` are unchanged. */
  ghost predicate TempsKept(g: map<Name, Value>, g': map<Name, Value>, lo: nat, hi: nat) {
    forall k: nat :: k < lo || hi <= k ==> Global(g', SpreadTemp(k)) == Global(g, SpreadTemp(k))
  }

  /** After `n` steps the machine stands at `end` with `vs` pushed. */
  ghost predicate Pushes(code: seq<Instr>, c: Config, vs: seq<Value>, st: Store, end: nat,
                         lo: nat, hi: nat, n: nat, c': Config) {
    && Run(code, Running(c), n) == Running(c')
    && c'.pc == end
    && c'.stack == c.stack + vs
    && c'.out == c.out
    && c.iters <= c'.iters
    && Agrees(st, c'.globals)
    && TempsKept(c.globals, c'.globals, lo, hi)
  }

  ghost predicate Computes(code: seq<Instr>, c: Config, r: EvalResult<seq<Value>>, end: nat,
                           lo: nat, hi: nat, n: nat, c': Config) {
    match r
    case Val(vs, st) => Pushes(code, c, vs, st, end, lo, hi, n, c')
    case Fail(err) => Run(code, Running(c), n) == Status.Failed(err, c.out)
  }

  function One(r: EvalResult<Value>): EvalResult<seq<Value>> {
    match r
    case Val(v, st) => Val([v], st)
    case Fail(err) => Fail(err)
  }

  lemma TempsTrans(g: map<Name, Value>, g1: map<Name, Value>, g2: map<Name, Value>,
                   lo: nat, m1: nat, m2: nat, hi: nat)
    requires TempsKept(g, g1, lo, m1) && TempsKept(g1, g2, m2, hi)
    requires lo <= m2 && m1 <= hi
    ensures TempsKept(g, g2, lo, hi)
  {
  }

  lemma TempsWiden(g: map<Name, Value>, g1: map<Name, Value>, lo: nat, hi: nat, lo': nat, hi': nat)
    requires TempsKept(g, g1, lo, hi)
    requires lo' <= lo && hi <= hi'
    ensures TempsKept(g, g1, lo', hi')
  {
  }

  /** One more step. */
  lemma Hop(code: seq<Instr>, c: Config, n: nat, c1: Config, i: Instr) returns (n': nat, s: Status)
    requires Run(code, Running(c), n) == Running(c1)
    requires c1.pc < |code| && code[c1.pc] == i
    ensures n' == n + 1 && s == StepInstr(i, c1)
    ensures Run(code, Running(c), n') == s
  {
    n', s := n + 1, StepInstr(i, c1);
    RunAdd(code, Running(c), n, 1);
    assert Run(code, Running(c1), 1) == Run(code, Step(code, Running(c1)), 0);
  }

  lemma Then(code: seq<Instr>, c: Config, n: nat, c1: Config, m: nat)
    requires Run(code, Running(c), n) == Running(c1)
    ensures Run(code, Running(c), n + m) == Run(code, Running(c1), m)
  {
    RunAdd(code, Running(c), n, m);
  }

  /** The code of `e` is at the program counter, and the machine holds the store `st`. */
  ghost predicate Ready(e: Expr, base: nat, id: nat, code: seq<Instr>, c: Config, st: Store) {
    && Has(code, base, ExprCode(e, base, id)) && c.pc == base
    && Agrees(st, c.globals)
  }

  /** After `n` steps the code has done what the expression means. */
  ghost predicate ExprDone(e: Expr, base: nat, id: nat, code: seq<Instr>, c: Config, st: Store, n: nat, c': Config) {
    Computes(code, c, One(Eval(Compiled, e, st)), base + |ExprCode(e, base, id)|,
             id, id + Temps(e), n, c')
  }

  lemma Landed(e: Expr, base: nat, id: nat, code: seq<Instr>, c: Config, st: Store, n: nat, c': Config)
    requires ExprDone(e, base, id, code, c, st, n, c')
    requires Eval(Compiled, e, st).Val?
    ensures c'.pc == base + |ExprCode(e, base, id)| && Agrees(Eval(Compiled, e, st).st, c'.globals)
    ensures c'.stack == c.stack + [Eval(Compiled, e, st).value]
    ensures TempsKept(c.globals, c'.globals, id, id + Temps(e)) && c.iters <= c'.iters
    ensures c'.out == c.out
  {
    hide Run, ExprCode, Temps;
  }

  lemma {:induction false} ExprRuns(e: Expr, base: nat, id: nat, code: seq<Instr>, c: Config, st: Store)
    returns (n: nat, c': Config)
    requires Ready(e, base, id, code, c, st)
    ensures ExprDone(e, base, id, code, c, st, n, c')
    decreases e, 2, 0
  {
    hide *;
    match e
    case IntLit(_) => n, c' := LeafRuns(e, base, id, code, c, st);
    case BoolLit(_) => n, c' := LeafRuns(e, base, id, code, c, st);
    case NullLit => n, c' := LeafRuns(e, base, id, code, c, st);
    case StrLit(_) => n, c' := LeafRuns(e, base, id, code, c, st);
    case Var(_) => n, c' := LeafRuns(e, base, id, code, c, st);
    case Binary(_, _, _) => n, c' := BinaryRuns(e, base, id, code, c, st);
    case Index(_, _) => n, c' := IndexRuns(e, base, id, code, c, st);
    case Unary(_, _) => n, c' := UnaryRuns(e, base, id, code, c, st);
    case And(_, _) => n, c' := AndRuns(e, base, id, code, c, st);
    case Or(_, _) => n, c' := OrRuns(e, base, id, code, c, st);
    case Ternary(_, _, _) => n, c' := TernaryRuns(e, base, id, code, c, st);
    case Coalesce(_, _) => n, c' := CoalesceRuns(e, base, id, code, c, st);
    case ListLit(_) => n, c' := ListRuns(e, base, id, code, c, st);
    case TupleLit(_) => n, c' := TupleRuns(e, base, id, code, c, st);
    case SpreadLit(_) => n, c' := SpreadLitRuns(e, base, id, code, c, st);
    case Comprehension(_, _, _, _) => n, c' := CompRuns(e, base, id, code, c, st);
  }

  lemma LeafRuns(e: Expr, base: nat, id: nat, code: seq<Instr>, c: Config, st: Store) returns (n: nat, c': Config)
    requires e.IntLit? || e.BoolLit? || e.NullLit? || e.StrLit? || e.Var?
    requires Ready(e, base, id, code, c, st)
    ensures ExprDone(e, base, id, code, c, st, n, c')
  {
    hide Run, Agrees, TempsKept;
    var i := ExprCode(e, base, id)[0];
    assert ExprCode(e, base, id) == [i] + [];
    HasOne(code, base, i);
    RunZero(code, c);
    LeafStep(e, i, c, st);
    var s;
    n, s := Hop(code, c, 0, c, i);
    c' := s.c;
    NothingKept(c.globals, id, id);
  }

  lemma LeafStep(e: Expr, i: Instr, c: Config, st: Store)
    requires (e.IntLit? || e.BoolLit? || e.NullLit? || e.StrLit? || e.Var?) && ExprCode(e, c.pc, 0) == [i]
    requires Agrees(st, c.globals)
    ensures Eval(Compiled, e, st).Val? && Eval(Compiled, e, st).st == st
    ensures StepInstr(i, c) == Running(c.(pc := c.pc + 1, stack := c.stack + [Eval(Compiled, e, st).value]))
  {
    assert Drop(c.stack, 0) == c.stack;
  }

  lemma NothingKept(g: map<Name, Value>, lo: nat, hi: nat)
    ensures TempsKept(g, g, lo, hi)
  {
  }

  // ----- two operands, then an instruction that takes both -----

  function PairResult(i: Instr, ra: EvalResult<Value>, rb: EvalResult<Value>): EvalResult<Value>
    requires i.Arith? || i.IndexGet?
  {
    match ra
    case Fail(err) => Fail(err)
    case Val(a, _) =>
      match rb
      case Fail(err) => Fail(err)
      case Val(b, st) =>
        match if i.Arith? then BinaryValues(i.op, a, b) else IndexValue(a, b)
        case Ok(v) => Val(v, st)
        case Err(err) => Fail(err)
  }

  lemma PairGlue(i: Instr, code: seq<Instr>, base: nat, cl: seq<Instr>, cr: seq<Instr>, c: Config,
                 ra: EvalResult<Value>, n1: nat, c1: Config, rb: EvalResult<Value>, n2: nat, c2: Config,
                 lo: nat, mid: nat, hi: nat)
    returns (n: nat, c': Config)
    requires i.Arith? || i.IndexGet?
    requires Has(code, base, cl + cr + [i]) && lo <= mid <= hi
    requires Computes(code, c, One(ra), base + |cl|, lo, mid, n1, c1)
    requires ra.Val? ==> Computes(code, c1, One(rb), base + |cl| + |cr|, mid, hi, n2, c2)
    ensures Computes(code, c, One(PairResult(i, ra, rb)), base + |cl + cr + [i]|, lo, hi, n, c')
  {
    hide Run, Has, Agrees, TempsKept;
    PairParts(code, base, cl, cr, i);
    HasOne(code, base + |cl| + |cr|, i);
    n, c' := n1, c1;
    if ra.Val? {
      Then(code, c, n1, c1, n2);
      n, c' := n1 + n2, c2;
      if rb.Val? {
        TempsTrans(c.globals, c1.globals, c2.globals, lo, mid, mid, hi);
        var s;
        n, s := Hop(code, c, n, c2, i);
        c' := if s.Running? then s.c else c2;
      }
    }
  }

  lemma PairParts(code: seq<Instr>, base: nat, cl: seq<Instr>, cr: seq<Instr>, i: Instr)
    requires Has(code, base, cl + cr + [i])
    ensures Has(code, base, cl) && Has(code, base + |cl|, cr) && Has(code, base + |cl| + |cr|, [i])
  {
    HasSplit(code, base, cl + cr, [i]);
    HasSplit(code, base, cl, cr);
  }

  lemma {:induction false} BinaryRuns(e: Expr, base: nat, id: nat, code: seq<Instr>, c: Config, st: Store)
    returns (n: nat, c': Config)
    requires e.Binary?
    requires Ready(e, base, id, code, c, st)
    ensures ExprDone(e, base, id, code, c, st, n, c')
    decreases e, 0, 0
  {
    hide Run, Computes, BinaryValues, IndexValue, Has, Agrees, ExprCode;
    BinaryCode(e.op, e.left, e.right, base, id);
    var l, r := e.left, e.right;
    var cl := ExprCode(l, base, id);
    var cr := ExprCode(r, base + |cl|, id + Temps(l));
    PairParts(code, base, cl, cr, Arith(e.op));
    var n1, c1 := ExprRuns(l, base, id, code, c, st);
    var ra := Eval(Compiled, l, st);
    var rb, n2, c2 := ra, 0, c1;
    if ra.Val? {
      Landed(l, base, id, code, c, st, n1, c1);
      rb := Eval(Compiled, r, ra.st);
      n2, c2 := ExprRuns(r, base + |cl|, id + Temps(l), code, c1, ra.st);
    }
    n, c' := PairGlue(Arith(e.op), code, base, cl, cr, c, ra, n1, c1, rb, n2, c2,
                      id, id + Temps(l), id + Temps(e));
  }

  lemma {:induction false} IndexRuns(e: Expr, base: nat, id: nat, code: seq<Instr>, c: Config, st: Store)
    returns (n: nat, c': Config)
    requires e.Index?
    requires Ready(e, base, id, code, c, st)
    ensures ExprDone(e, base, id, code, c, st, n, c')
    decreases e, 0, 0
  {
    hide Run, Computes, BinaryValues, IndexValue, Has, Agrees, ExprCode;
    IndexCode(e.target, e.index, base, id);
    var l, r := e.target, e.index;
    var cl := ExprCode(l, base, id);
    var cr := ExprCode(r, base + |cl|, id + Temps(l));
    PairParts(code, base, cl, cr, IndexGet);
    var n1, c1 := ExprRuns(l, base, id, code, c, st);
    var ra := Eval(Compiled, l, st);
    var rb, n2, c2 := ra, 0, c1;
    if ra.Val? {
      Landed(l, base, id, code, c, st, n1, c1);
      rb := Eval(Compiled, r, ra.st);
      n2, c2 := ExprRuns(r, base + |cl|, id + Temps(l), code, c1, ra.st);
    }
    n, c' := PairGlue(IndexGet, code, base, cl, cr, c, ra, n1, c1, rb, n2, c2,
                      id, id + Temps(l), id + Temps(e));
  }

  // ----- one operand -----

  lemma {:induction false} UnaryRuns(e: Expr, base: nat, id: nat, code: seq<Instr>, c: Config, st: Store)
    returns (n: nat, c': Config)
    requires e.Unary?
    requires Ready(e, base, id, code, c, st)
    ensures ExprDone(e, base, id, code, c, st, n, c')
    decreases e, 0, 0
  {
    hide Run;
    var x := e.operand;
    var cx := ExprCode(x, base, id);
    HasSplit(code, base, cx, [UnaryOp(e.uop)]);
    HasOne(code, base + |cx|, UnaryOp(e.uop));
    n, c' := ExprRuns(x, base, id, code, c, st);
    if Eval(Compiled, x, st).Val? {
      var s;
      n, s := Hop(code, c, n, c', UnaryOp(e.uop));
      c' := s.c;
    }
  }

  // ----- short-circuit operators -----

  /** The machine after a conditional jump that was not taken, or taken, from `c1`. */
  function Resume(c1: Config, pc: nat, stack: seq<Value>): Config {
    c1.(pc := pc, stack := stack)
  }

  /** `Dup; JumpIfTrue; Pop` keeps a true operand at the target, and drops a false one. */
  lemma TestAndKeep(code: seq<Instr>, c: Config, n1: nat, c1: Config, a: Value, target: nat)
    returns (n: nat, c': Config)
    requires Has(code, c1.pc, [Dup, JumpIfTrue(target), Pop])
    requires Run(code, Running(c), n1) == Running(c1) && c1.stack == c.stack + [a]
    ensures Run(code, Running(c), n) == Running(c') && n > n1
    ensures c' == if Truthy(a) then Resume(c1, target, c1.stack) else Resume(c1, c1.pc + 3, c.stack)
  {
    hide Run;
    HasHead(code, c1.pc, Dup, [JumpIfTrue(target), Pop]);
    HasHead(code, c1.pc + 1, JumpIfTrue(target), [Pop]);
    HasOne(code, c1.pc + 2, Pop);
    var s;
    n, s := Hop(code, c, n1, c1, Dup);
    n, s := Hop(code, c, n, s.c, JumpIfTrue(target));
    assert s.c.stack == c1.stack;
    if !Truthy(a) {
      n, s := Hop(code, c, n, s.c, Pop);
      assert s.c.stack == c.stack;
    }
    c' := s.c;
  }

  /** The right operand becomes a boolean, and the rest is jumped over. */
  lemma BoolAndJump(code: seq<Instr>, c: Config, n1: nat, c1: Config, b: Value, target: nat)
    returns (n: nat, c': Config)
    requires Has(code, c1.pc, [CallBuiltin(BoolOf, 1), Jump(target)])
    requires Run(code, Running(c), n1) == Running(c1) && c1.stack == c.stack + [b]
    ensures Run(code, Running(c), n) == Running(c')
    ensures c' == Resume(c1, target, c.stack + [Bool(Truthy(b))])
  {
    hide Run;
    HasHead(code, c1.pc, CallBuiltin(BoolOf, 1), [Jump(target)]);
    HasOne(code, c1.pc + 1, Jump(target));
    var s;
    n, s := Hop(code, c, n1, c1, CallBuiltin(BoolOf, 1));
    assert Drop(c1.stack, 1) == c.stack && Last(c1.stack, 1) == [b];
    n, s := Hop(code, c, n, s.c, Jump(target));
    c' := s.c;
  }

  function ShortResult(ra: EvalResult<Value>, rb: EvalResult<Value>, stop: bool): EvalResult<Value> {
    match ra
    case Fail(err) => Fail(err)
    case Val(a, st) =>
      if Truthy(a) == stop then Val(Bool(stop), st)
      else
        match rb
        case Fail(err) => Fail(err)
        case Val(b, st2) => Val(Bool(Truthy(b)), st2)
  }

  lemma AndGlue(code: seq<Instr>, base: nat, cl: seq<Instr>, cr: seq<Instr>, c: Config,
                ra: EvalResult<Value>, n1: nat, c1: Config, rb: EvalResult<Value>, n2: nat, c2: Config,
                lo: nat, mid: nat, hi: nat)
    returns (n: nat, c': Config)
    requires Has(code, base, AndShape(base, cl, cr)) && lo <= mid <= hi
    requires Computes(code, c, One(ra), base + |cl|, lo, mid, n1, c1)
    requires ra.Val? && Truthy(ra.value) ==>
               Computes(code, Resume(c1, base + |cl| + 1, c.stack), One(rb), base + |cl| + 1 + |cr|, mid, hi, n2, c2)
    ensures Computes(code, c, One(ShortResult(ra, rb, false)), base + |AndShape(base, cl, cr)|, lo, hi, n, c')
  {
    hide Run, Has, Agrees, TempsKept;
    var at := base + |cl|;
    var no := at + 1 + |cr| + 2;
    AndParts(code, base, cl, cr);
    HasOne(code, at, JumpIfFalse(no));
    HasSplit(code, no - 2, [CallBuiltin(BoolOf, 1), Jump(no + 1)], [ConstBool(false)]);
    HasOne(code, no, ConstBool(false));
    n, c' := n1, c1;
    if ra.Val? {
      var s;
      n, s := Hop(code, c, n1, c1, JumpIfFalse(no));
      assert Drop(c1.stack, 1) == c.stack;
      if Truthy(ra.value) {
        assert s.c == Resume(c1, at + 1, c.stack);
        Then(code, c, n, s.c, n2);
        n, c' := n + n2, c2;
        if rb.Val? {
          TempsTrans(c.globals, c1.globals, c2.globals, lo, mid, mid, hi);
          n, c' := BoolAndJump(code, c, n, c2, rb.value, no + 1);
        }
      } else {
        n, s := Hop(code, c, n, s.c, ConstBool(false));
        c' := s.c;
        TempsWiden(c.globals, c1.globals, lo, mid, lo, hi);
      }
    }
  }

  lemma {:induction false} AndRuns(e: Expr, base: nat, id: nat, code: seq<Instr>, c: Config, st: Store)
    returns (n: nat, c': Config)
    requires e.And?
    requires Ready(e, base, id, code, c, st)
    ensures ExprDone(e, base, id, code, c, st, n, c')
    decreases e, 0, 0
  {
    hide Run, Computes, Has, Agrees, ExprCode;
    AndCode(e.left, e.right, base, id);
    var l, r := e.left, e.right;
    var cl := ExprCode(l, base, id);
    var cr := ExprCode(r, base + |cl| + 1, id + Temps(l));
    AndParts(code, base, cl, cr);
    var n1, c1 := ExprRuns(l, base, id, code, c, st);
    var ra := Eval(Compiled, l, st);
    var rb, n2, c2 := ra, 0, c1;
    if ra.Val? && Truthy(ra.value) {
      Landed(l, base, id, code, c, st, n1, c1);
      rb := Eval(Compiled, r, ra.st);
      n2, c2 := ExprRuns(r, base + |cl| + 1, id + Temps(l), code, Resume(c1, base + |cl| + 1, c.stack), ra.st);
    }
    n, c' := AndGlue(code, base, cl, cr, c, ra, n1, c1, rb, n2, c2,
                     id, id + Temps(l), id + Temps(e));
  }

  lemma AndParts(code: seq<Instr>, base: nat, cl: seq<Instr>, cr: seq<Instr>)
    requires Has(code, base, AndShape(base, cl, cr))
    ensures var no := base + |cl| + 1 + |cr| + 2;
            && Has(code, base, cl) && Has(code, base + |cl|, [JumpIfFalse(no)]) && Has(code, base + |cl| + 1, cr)
            && Has(code, no - 2, [CallBuiltin(BoolOf, 1), Jump(no + 1), ConstBool(false)])
  {
    var no := base + |cl| + 1 + |cr| + 2;
    var tail := [CallBuiltin(BoolOf, 1), Jump(no + 1), ConstBool(false)];
    HasSplit(code, base, cl + [JumpIfFalse(no)] + cr, tail);
    HasSplit(code, base, cl + [JumpIfFalse(no)], cr);
    HasSplit(code, base, cl, [JumpIfFalse(no)]);
  }

  lemma OrGlue(code: seq<Instr>, base: nat, cl: seq<Instr>, cr: seq<Instr>, c: Config,
               ra: EvalResult<Value>, n1: nat, c1: Config, rb: EvalResult<Value>, n2: nat, c2: Config,
               lo: nat, mid: nat, hi: nat)
    returns (n: nat, c': Config)
    requires Has(code, base, OrShape(base, cl, cr)) && lo <= mid <= hi
    requires Computes(code, c, One(ra), base + |cl|, lo, mid, n1, c1)
    requires ra.Val? && !Truthy(ra.value) ==>
               Computes(code, Resume(c1, base + |cl| + 3, c.stack), One(rb), base + |cl| + 3 + |cr|, mid, hi, n2, c2)
    ensures Computes(code, c, One(ShortResult(ra, rb, true)), base + |OrShape(base, cl, cr)|, lo, hi, n, c')
  {
    hide Run, Has, Agrees, TempsKept;
    var at := base + |cl|;
    var yes := at + 3 + |cr| + 2;
    OrParts(code, base, cl, cr);
    HasSplit(code, yes - 2, [CallBuiltin(BoolOf, 1), Jump(yes + 2)], [Pop, ConstBool(true)]);
    HasHead(code, yes, Pop, [ConstBool(true)]);
    HasOne(code, yes + 1, ConstBool(true));
    n, c' := n1, c1;
    if ra.Val? {
      n, c' := TestAndKeep(code, c, n1, c1, ra.value, yes);
      if !Truthy(ra.value) {
        Then(code, c, n, c', n2);
        n, c' := n + n2, c2;
        if rb.Val? {
          TempsTrans(c.globals, c1.globals, c2.globals, lo, mid, mid, hi);
          n, c' := BoolAndJump(code, c, n, c2, rb.value, yes + 2);
        }
      } else {
        var s;
        n, s := Hop(code, c, n, c', Pop);
        assert s.c.stack == c.stack;
        n, s := Hop(code, c, n, s.c, ConstBool(true));
        c' := s.c;
        TempsWiden(c.globals, c1.globals, lo, mid, lo, hi);
      }
    }
  }

  lemma OrParts(code: seq<Instr>, base: nat, cl: seq<Instr>, cr: seq<Instr>)
    requires Has(code, base, OrShape(base, cl, cr))
    ensures var yes := base + |cl| + 3 + |cr| + 2;
            && Has(code, base, cl) && Has(code, base + |cl|, [Dup, JumpIfTrue(yes), Pop])
            && Has(code, base + |cl| + 3, cr)
            && Has(code, base + |cl| + 3 + |cr|, [CallBuiltin(BoolOf, 1), Jump(yes + 2), Pop, ConstBool(true)])
  {
    var yes := base + |cl| + 3 + |cr| + 2;
    var mid := [Dup, JumpIfTrue(yes), Pop];
    var tail := [CallBuiltin(BoolOf, 1), Jump(yes + 2), Pop, ConstBool(true)];
    HasSplit(code, base, cl + mid + cr, tail);
    HasSplit(code, base, cl + mid, cr);
    HasSplit(code, base, cl, mid);
  }

  lemma {:induction false} OrRuns(e: Expr, base: nat, id: nat, code: seq<Instr>, c: Config, st: Store)
    returns (n: nat, c': Config)
    requires e.Or?
    requires Ready(e, base, id, code, c, st)
    ensures ExprDone(e, base, id, code, c, st, n, c')
    decreases e, 0, 0
  {
    hide Run, Computes, Has, Agrees, ExprCode;
    OrCode(e.left, e.right, base, id);
    var l, r := e.left, e.right;
    var cl := ExprCode(l, base, id);
    var cr := ExprCode(r, base + |cl| + 3, id + Temps(l));
    OrParts(code, base, cl, cr);
    var n1, c1 := ExprRuns(l, base, id, code, c, st);
    var ra := Eval(Compiled, l, st);
    var rb, n2, c2 := ra, 0, c1;
    if ra.Val? && !Truthy(ra.value) {
      Landed(l, base, id, code, c, st, n1, c1);
      rb := Eval(Compiled, r, ra.st);
      n2, c2 := ExprRuns(r, base + |cl| + 3, id + Temps(l), code, Resume(c1, base + |cl| + 3, c.stack), ra.st);
    }
    n, c' := OrGlue(code, base, cl, cr, c, ra, n1, c1, rb, n2, c2,
                    id, id + Temps(l), id + Temps(e));
  }

  // ----- conditional expressions -----

  function ChoiceResult(rc: EvalResult<Value>, ra: EvalResult<Value>, rb: EvalResult<Value>): EvalResult<Value> {
    match rc
    case Fail(err) => Fail(err)
    case Val(v, _) => if Truthy(v) then ra else rb
  }

  lemma TernaryParts(code: seq<Instr>, base: nat, cc: seq<Instr>, ca: seq<Instr>, cb: seq<Instr>)
    requires Has(code, base, TernaryShape(base, cc, ca, cb))
    ensures var other := base + |cc| + 1 + |ca| + 1;
            && Has(code, base, cc) && Has(code, base + |cc|, [JumpIfFalse(other)]) && Has(code, base + |cc| + 1, ca)
            && Has(code, other - 1, [Jump(other + |cb|)]) && Has(code, other, cb)
  {
    var other := base + |cc| + 1 + |ca| + 1;
    HasSplit(code, base, cc + [JumpIfFalse(other)] + ca + [Jump(other + |cb|)], cb);
    HasSplit(code, base, cc + [JumpIfFalse(other)] + ca, [Jump(other + |cb|)]);
    HasSplit(code, base, cc + [JumpIfFalse(other)], ca);
    HasSplit(code, base, cc, [JumpIfFalse(other)]);
  }

  lemma TernaryGlue(code: seq<Instr>, base: nat, cc: seq<Instr>, ca: seq<Instr>, cb: seq<Instr>, c: Config,
                    rc: EvalResult<Value>, n1: nat, c1: Config, r: EvalResult<Value>, n2: nat, c2: Config,
                    lo: nat, m1: nat, m2: nat, hi: nat)
    returns (n: nat, c': Config)
    requires Has(code, base, TernaryShape(base, cc, ca, cb)) && lo <= m1 <= m2 <= hi
    requires Computes(code, c, One(rc), base + |cc|, lo, m1, n1, c1)
    requires rc.Val? && Truthy(rc.value) ==>
               Computes(code, Resume(c1, base + |cc| + 1, c.stack), One(r), base + |cc| + 1 + |ca|, m1, m2, n2, c2)
    requires rc.Val? && !Truthy(rc.value) ==>
               Computes(code, Resume(c1, base + |cc| + 2 + |ca|, c.stack), One(r), base + |cc| + 2 + |ca| + |cb|, m2, hi, n2, c2)
    ensures Computes(code, c, One(ChoiceResult(rc, r, r)), base + |TernaryShape(base, cc, ca, cb)|, lo, hi, n, c')
  {
    hide Run;
    var other := base + |cc| + 1 + |ca| + 1;
    TernaryParts(code, base, cc, ca, cb);
    HasOne(code, base + |cc|, JumpIfFalse(other));
    HasOne(code, other - 1, Jump(other + |cb|));
    n, c' := n1, c1;
    if rc.Val? {
      var s;
      n, s := Hop(code, c, n1, c1, JumpIfFalse(other));
      assert Drop(c1.stack, 1) == c.stack;
      assert s.c == Resume(c1, if Truthy(rc.value) then base + |cc| + 1 else other, c.stack);
      Then(code, c, n, s.c, n2);
      n, c' := n + n2, c2;
      if Truthy(rc.value) && r.Val? {
        n, s := Hop(code, c, n, c2, Jump(other + |cb|));
        c' := s.c;
      }
    }
  }

  lemma {:induction false} TernaryRuns(e: Expr, base: nat, id: nat, code: seq<Instr>, c: Config, st: Store)
    returns (n: nat, c': Config)
    requires e.Ternary?
    requires Ready(e, base, id, code, c, st)
    ensures ExprDone(e, base, id, code, c, st, n, c')
    decreases e, 0, 0
  {
    hide Run, Computes, Has, Agrees, ExprCode;
    TernaryCode(e.cond, e.yes, e.no, base, id);
    var i1, i2 := id + Temps(e.cond), id + Temps(e.cond) + Temps(e.yes);
    var cc := ExprCode(e.cond, base, id);
    var p := base + |cc| + 1;
    var ca := ExprCode(e.yes, p, i1);
    var q := p + |ca| + 1;
    var cb := ExprCode(e.no, q, i2);
    TernaryParts(code, base, cc, ca, cb);
    var n1, c1 := ExprRuns(e.cond, base, id, code, c, st);
    var rc := Eval(Compiled, e.cond, st);
    var r, n2, c2 := rc, 0, c1;
    if rc.Val? {
      Landed(e.cond, base, id, code, c, st, n1, c1);
      if Truthy(rc.value) {
        r := Eval(Compiled, e.yes, rc.st);
        n2, c2 := ExprRuns(e.yes, p, i1, code, Resume(c1, p, c.stack), rc.st);
      } else {
        r := Eval(Compiled, e.no, rc.st);
        n2, c2 := ExprRuns(e.no, q, i2, code, Resume(c1, q, c.stack), rc.st);
      }
    }
    n, c' := TernaryGlue(code, base, cc, ca, cb, c, rc, n1, c1, r, n2, c2,
                         id, i1, i2, id + Temps(e));
  }

  function CoalesceResult(ra: EvalResult<Value>, rb: EvalResult<Value>): EvalResult<Value> {
    match ra
    case Fail(err) => Fail(err)
    case Val(a, st) => if KeepsLeft(Compiled, a) then ra else rb
  }

  lemma CoalesceParts(code: seq<Instr>, base: nat, cl: seq<Instr>, cr: seq<Instr>)
    requires Has(code, base, CoalesceShape(base, cl, cr))
    ensures Has(code, base, cl) && Has(code, base + |cl|, [Dup, JumpIfTrue(base + |cl| + 3 + |cr|), Pop])
    ensures Has(code, base + |cl| + 3, cr)
  {
    var mid := [Dup, JumpIfTrue(base + |cl| + 3 + |cr|), Pop];
    HasSplit(code, base, cl + mid, cr);
    HasSplit(code, base, cl, mid);
  }

  lemma CoalesceGlue(code: seq<Instr>, base: nat, cl: seq<Instr>, cr: seq<Instr>, c: Config,
                     ra: EvalResult<Value>, n1: nat, c1: Config, rb: EvalResult<Value>, n2: nat, c2: Config,
                     lo: nat, mid: nat, hi: nat)
    returns (n: nat, c': Config)
    requires Has(code, base, CoalesceShape(base, cl, cr)) && lo <= mid <= hi
    requires Computes(code, c, One(ra), base + |cl|, lo, mid, n1, c1)
    requires ra.Val? && !Truthy(ra.value) ==>
               Computes(code, Resume(c1, base + |cl| + 3, c.stack), One(rb), base + |cl| + 3 + |cr|, mid, hi, n2, c2)
    ensures Computes(code, c, One(CoalesceResult(ra, rb)), base + |CoalesceShape(base, cl, cr)|, lo, hi, n, c')
  {
    hide Run;
    var at := base + |cl|;
    var end := at + 3 + |cr|;
    CoalesceParts(code, base, cl, cr);
    n, c' := n1, c1;
    if ra.Val? {
      n, c' := TestAndKeep(code, c, n1, c1, ra.value, end);
      if Truthy(ra.value) {
        TempsWiden(c.globals, c1.globals, lo, mid, lo, hi);
      } else {
        Then(code, c, n, c', n2);
        n, c' := n + n2, c2;
        if rb.Val? {
          TempsTrans(c.globals, c1.globals, c2.globals, lo, mid, mid, hi);
        }
      }
    }
  }

  lemma {:induction false} CoalesceRuns(e: Expr, base: nat, id: nat, code: seq<Instr>, c: Config, st: Store)
    returns (n: nat, c': Config)
    requires e.Coalesce?
    requires Ready(e, base, id, code, c, st)
    ensures ExprDone(e, base, id, code, c, st, n, c')
    decreases e, 0, 0
  {
    hide Run, Computes, Has, Agrees, ExprCode;
    CoalesceCode(e.left, e.right, base, id);
    var l, r := e.left, e.right;
    var cl := ExprCode(l, base, id);
    var cr := ExprCode(r, base + |cl| + 3, id + Temps(l));
    CoalesceParts(code, base, cl, cr);
    var n1, c1 := ExprRuns(l, base, id, code, c, st);
    var ra := Eval(Compiled, l, st);
    var rb, n2, c2 := ra, 0, c1;
    if ra.Val? && !Truthy(ra.value) {
      Landed(l, base, id, code, c, st, n1, c1);
      rb := Eval(Compiled, r, ra.st);
      n2, c2 := ExprRuns(r, base + |cl| + 3, id + Temps(l), code, Resume(c1, base + |cl| + 3, c.stack), ra.st);
    }
    n, c' := CoalesceGlue(code, base, cl, cr, c, ra, n1, c1, rb, n2, c2,
                          id, id + Temps(l), id + Temps(e));
  }

  // ----- list and tuple literals -----

  ghost predicate ReadyAll(es: Vec<Expr>, base: nat, id: nat, code: seq<Instr>, c: Config, st: Store) {
    && Has(code, base, ExprsCode(es, base, id)) && c.pc == base
    && Agrees(st, c.globals)
  }

  lemma EvalAllLen(es: Vec<Expr>, st: Store)
    ensures var r := EvalAll(Compiled, es, st); r.Val? ==> |r.value| == Len(es)
  {
    hide Eval;
    if es.Cons? {
      var r := Eval(Compiled, es.head, st);
      if r.Val? {
        EvalAllLen(es.tail, r.st);
      }
    }
  }

  function ConsResult(ra: EvalResult<Value>, rb: EvalResult<seq<Value>>): EvalResult<seq<Value>> {
    match ra
    case Fail(err) => Fail(err)
    case Val(a, _) =>
      match rb
      case Fail(err) => Fail(err)
      case Val(vs, st) => Val([a] + vs, st)
  }

  lemma ConsGlue(code: seq<Instr>, mid: nat, end: nat, c: Config,
                 ra: EvalResult<Value>, n1: nat, c1: Config, rb: EvalResult<seq<Value>>, n2: nat, c2: Config,
                 lo: nat, m: nat, hi: nat)
    returns (n: nat, c': Config)
    requires lo <= m <= hi
    requires Computes(code, c, One(ra), mid, lo, m, n1, c1)
    requires ra.Val? ==> Computes(code, c1, rb, end, m, hi, n2, c2)
    ensures Computes(code, c, ConsResult(ra, rb), end, lo, hi, n, c')
  {
    hide Run, Agrees, TempsKept;
    n, c' := n1, c1;
    if ra.Val? {
      Then(code, c, n1, c1, n2);
      n, c' := n1 + n2, c2;
      if rb.Val? {
        TempsTrans(c.globals, c1.globals, c2.globals, lo, m, m, hi);
        assert c.stack + [ra.value] + rb.value == c.stack + ([ra.value] + rb.value);
      }
    }
  }

  lemma {:induction false} ExprsRun(es: Vec<Expr>, base: nat, id: nat, code: seq<Instr>, c: Config, st: Store)
    returns (n: nat, c': Config)
    requires ReadyAll(es, base, id, code, c, st)
    ensures Computes(code, c, EvalAll(Compiled, es, st), base + |ExprsCode(es, base, id)|,
                     id, id + TempsAll(es), n, c')
    decreases es, 1, 0
  {
    if es == Nil {
      n, c' := 0, c;
      assert c.stack + [] == c.stack;
    } else {
      hide *;
      n, c' := ExprsCons(es, base, id, code, c, st);
    }
  }

  lemma {:induction false} ExprsCons(es: Vec<Expr>, base: nat, id: nat, code: seq<Instr>, c: Config, st: Store)
    returns (n: nat, c': Config)
    requires es.Cons? && ReadyAll(es, base, id, code, c, st)
    ensures Computes(code, c, EvalAll(Compiled, es, st), base + |ExprsCode(es, base, id)|,
                     id, id + TempsAll(es), n, c')
    decreases es, 0, 0
  {
    hide Run, Computes, Has, Agrees, ExprCode, Eval, Temps;
    var e, rest := es.head, es.tail;
    var ce := ExprCode(e, base, id);
    var cr := ExprsCode(rest, base + |ce|, id + Temps(e));
    HasSplit(code, base, ce, cr);
    var n1, c1 := ExprRuns(e, base, id, code, c, st);
    var ra := Eval(Compiled, e, st);
    var rb: EvalResult<seq<Value>>, n2, c2 := Fail(TypeError), 0, c1;
    if ra.Val? {
      Landed(e, base, id, code, c, st, n1, c1);
      rb := EvalAll(Compiled, rest, ra.st);
      n2, c2 := ExprsRun(rest, base + |ce|, id + Temps(e), code, c1, ra.st);
    }
    n, c' := ConsGlue(code, base + |ce|, base + |ce| + |cr|, c, ra, n1, c1, rb, n2, c2,
                      id, id + Temps(e), id + TempsAll(es));
  }

  function CollectResult(i: Instr, r: EvalResult<seq<Value>>): EvalResult<Value> {
    match r
    case Fail(err) => Fail(err)
    case Val(vs, st) => Val(if i.NewTuple? then Tuple(vs) else List(vs), st)
  }

  lemma CollectGlue(i: Instr, code: seq<Instr>, base: nat, ces: seq<Instr>, c: Config,
                    r: EvalResult<seq<Value>>, n1: nat, c1: Config, lo: nat, hi: nat)
    returns (n: nat, c': Config)
    requires i.NewList? || i.NewTuple?
    requires Has(code, base, ces + [i])
    requires Computes(code, c, r, base + |ces|, lo, hi, n1, c1)
    requires r.Val? ==> |r.value| == i.n
    ensures Computes(code, c, One(CollectResult(i, r)), base + |ces + [i]|, lo, hi, n, c')
  {
    hide Run, Agrees, TempsKept;
    HasSplit(code, base, ces, [i]);
    HasOne(code, base + |ces|, i);
    n, c' := n1, c1;
    if r.Val? {
      var s;
      n, s := Hop(code, c, n1, c1, i);
      assert Drop(c1.stack, i.n) == c.stack && Last(c1.stack, i.n) == r.value;
      c' := s.c;
    }
  }

  lemma {:induction false} ListRuns(e: Expr, base: nat, id: nat, code: seq<Instr>, c: Config, st: Store)
    returns (n: nat, c': Config)
    requires e.ListLit?
    requires Ready(e, base, id, code, c, st)
    ensures ExprDone(e, base, id, code, c, st, n, c')
    decreases e, 0, 0
  {
    hide Run, Computes, Agrees;
    var ces := ExprsCode(e.exprs, base, id);
    var i := NewList(Len(e.exprs));
    HasSplit(code, base, ces, [i]);
    EvalAllLen(e.exprs, st);
    n, c' := ExprsRun(e.exprs, base, id, code, c, st);
    n, c' := CollectGlue(i, code, base, ces, c, EvalAll(Compiled, e.exprs, st), n, c',
                         id, id + Temps(e));
  }

  lemma {:induction false} TupleRuns(e: Expr, base: nat, id: nat, code: seq<Instr>, c: Config, st: Store)
    returns (n: nat, c': Config)
    requires e.TupleLit?
    requires Ready(e, base, id, code, c, st)
    ensures ExprDone(e, base, id, code, c, st, n, c')
    decreases e, 0, 0
  {
    hide Run, Computes, Agrees;
    var ces := ExprsCode(e.exprs, base, id);
    var i := NewTuple(Len(e.exprs));
    HasSplit(code, base, ces, [i]);
    EvalAllLen(e.exprs, st);
    n, c' := ExprsRun(e.exprs, base, id, code, c, st);
    n, c' := CollectGlue(i, code, base, ces, c, EvalAll(Compiled, e.exprs, st), n, c',
                         id, id + Temps(e));
  }

  // ----- growing a list in a variable -----

  ghost predicate OnlyChanged(g: map<Name, Value>, g': map<Name, Value>, temp: Name) {
    forall x: Name :: x != temp ==> Global(g', x) == Global(g, x)
  }

  lemma OnlyChangedTrans(g: map<Name, Value>, g1: map<Name, Value>, g2: map<Name, Value>, temp: Name)
    requires OnlyChanged(g, g1, temp) && OnlyChanged(g1, g2, temp)
    ensures OnlyChanged(g, g2, temp)
  {
  }

  lemma OnlyTemp(st: Store, g: map<Name, Value>, g': map<Name, Value>, k: nat, lo: nat, hi: nat)
    requires OnlyChanged(g, g', SpreadTemp(k)) && lo <= k < hi
    ensures Agrees(st, g) ==> Agrees(st, g')
    ensures TempsKept(g, g', lo, hi)
  {
  }

  lemma LoadSteps(c: Config, x: Name)
    ensures StepInstr(LoadGlobal(x), c) == Running(Next(c, 0, [Global(c.globals, x)]))
  {
  }

  lemma StoreSteps(c: Config, x: Name, stack: seq<Value>, v: Value)
    requires c.stack == stack + [v]
    ensures StepInstr(StoreGlobal(x), c) == Running(c.(pc := c.pc + 1, stack := stack, globals := c.globals[x := v]))
  {
    assert Drop(c.stack, 1) == stack;
  }

  lemma SwapSteps(c: Config, stack: seq<Value>, a: Value, b: Value)
    requires c.stack == stack + [a] + [b]
    ensures StepInstr(Swap, c) == Running(c.(pc := c.pc + 1, stack := stack + [b, a]))
  {
    assert Drop(c.stack, 2) == stack;
  }

  lemma CallSteps(c: Config, f: Builtin, stack: seq<Value>, args: seq<Value>)
    requires c.stack == stack + args && |args| == Arity(f)
    ensures StepInstr(CallBuiltin(f, |args|), c)
         == match CallValues(f, args)
            case Ok(v) => Running(c.(pc := c.pc + 1, stack := stack + [v]))
            case Err(err) => Status.Failed(err, c.out)
  {
    assert Drop(c.stack, |args|) == stack && Last(c.stack, |args|) == args;
  }

  lemma AppendRuns(code: seq<Instr>, c: Config, n1: nat, c1: Config, temp: Name, stack: seq<Value>, v: Value)
    returns (n: nat, c': Config)
    requires Has(code, c1.pc, AppendCode(temp))
    requires Run(code, Running(c), n1) == Running(c1)
    requires c1.stack == stack + [v]
    ensures Run(code, Running(c), n) == Running(c')
    ensures c' == c1.(pc := c1.pc + 4, stack := stack, globals := c1.globals[temp := Grown(Global(c1.globals, temp), v)])
    ensures OnlyChanged(c1.globals, c'.globals, temp)
  {
    hide Run, StepInstr, Grown;
    var list := Global(c1.globals, temp);
    HasHead(code, c1.pc, LoadGlobal(temp), [Swap, CallBuiltin(ListAppend, 2), StoreGlobal(temp)]);
    HasHead(code, c1.pc + 1, Swap, [CallBuiltin(ListAppend, 2), StoreGlobal(temp)]);
    HasHead(code, c1.pc + 2, CallBuiltin(ListAppend, 2), [StoreGlobal(temp)]);
    HasOne(code, c1.pc + 3, StoreGlobal(temp));
    var s;
    n, s := Hop(code, c, n1, c1, LoadGlobal(temp));
    LoadSteps(c1, temp);
    n, s := Hop(code, c, n, s.c, Swap);
    SwapSteps(Next(c1, 0, [list]), stack, v, list);
    var c3 := c1.(pc := c1.pc + 2, stack := stack + [list, v]);
    n, s := Hop(code, c, n, c3, CallBuiltin(ListAppend, 2));
    CallSteps(c3, ListAppend, stack, [list, v]);
    n, s := Hop(code, c, n, s.c, StoreGlobal(temp));
    StoreSteps(c3.(pc := c3.pc + 1, stack := stack + [Grown(list, v)]), temp, stack, Grown(list, v));
    c' := s.c;
  }

  /** Appends what is left of an iterator, then drops its handle. */
  lemma {:induction false} SpreadLoop(code: seq<Instr>, start: nat, temp: Name, c: Config, h: nat, it: Iterator,
                                      acc: seq<Value>, stack: seq<Value>)
    returns (n: nat, c': Config)
    requires Has(code, start, [IterNext(start + 1, start + 6)] + AppendCode(temp) + [Jump(start)])
    requires c.pc == start && c.stack == stack + [Int(h)]
    requires h < |c.iters| && c.iters[h] == it && it.pos <= |Items(it.container)|
    requires Global(c.globals, temp) == List(acc)
    ensures Run(code, Running(c), n) == Running(c') && n > 0
    ensures c'.pc == start + 6 && c'.stack == stack && c'.out == c.out
    ensures |c'.iters| == |c.iters| && c'.iters[..h] == c.iters[..h]
    ensures OnlyChanged(c.globals, c'.globals, temp)
    ensures Global(c'.globals, temp) == List(acc + Items(it.container)[it.pos..])
    decreases |Items(it.container)| - it.pos
  {
    hide Run;
    var items := Items(it.container);
    var next := IterNext(start + 1, start + 6);
    HasSplit(code, start, [next] + AppendCode(temp), [Jump(start)]);
    HasHead(code, start, next, AppendCode(temp));
    HasOne(code, start + 5, Jump(start));
    RunZero(code, c);
    var s;
    n, s := Hop(code, c, 0, c, next);
    assert Drop(c.stack, 1) == stack;
    c' := s.c;
    if it.pos < |items| {
      n, c' := AppendRuns(code, c, n, c', temp, c.stack, items[it.pos]);
      n, s := Hop(code, c, n, c', Jump(start));
      var m, c2 := SpreadLoop(code, start, temp, s.c, h, it.(pos := it.pos + 1), acc + [items[it.pos]], stack);
      Then(code, c, n, s.c, m);
      n := n + m;
      OnlyChangedTrans(c.globals, c'.globals, c2.globals, temp);
      assert acc + [items[it.pos]] + items[it.pos + 1..] == acc + items[it.pos..];
      c' := c2;
    } else {
      assert acc + items[it.pos..] == acc;
    }
  }

  // ----- list literals with spreads -----

  /** As `Computes`, for code that appends the values to a list held in `temp`. */
  ghost predicate Collects(code: seq<Instr>, c: Config, r: EvalResult<seq<Value>>, temp: Name, acc: seq<Value>,
        end: nat,
                           lo: nat, hi: nat, n: nat, c': Config) {
    match r
    case Val(vs, st) =>
      && Pushes(code, c, [], st, end, lo, hi, n, c')
      && Global(c'.globals, temp) == List(acc + vs)
    case Fail(err) => Run(code, Running(c), n) == Status.Failed(err, c.out)
  }

  function PieceResult(p: Part, r: EvalResult<Value>): EvalResult<seq<Value>> {
    match r
    case Val(v, st) => Val(if p.Plain? then [v] else Items(v), st)
    case Fail(err) => Fail(err)
  }

  lemma PlainGlue(k: nat, code: seq<Instr>, base: nat, ce: seq<Instr>, c: Config, acc: seq<Value>,
                  v: Value, n1: nat, c1: Config)
    returns (n: nat, c': Config)
    requires Has(code, base, ce + AppendCode(SpreadTemp(k)))
    requires Run(code, Running(c), n1) == Running(c1) && c1.pc == base + |ce| && c1.stack == c.stack + [v]
    requires Global(c1.globals, SpreadTemp(k)) == List(acc)
    ensures Run(code, Running(c), n) == Running(c')
    ensures c' == c1.(pc := base + |ce| + 4, stack := c.stack, globals := c'.globals)
    ensures OnlyChanged(c1.globals, c'.globals, SpreadTemp(k)) && Global(c'.globals, SpreadTemp(k)) == List(acc + [v])
  {
    hide Run, Has;
    HasSplit(code, base, ce, AppendCode(SpreadTemp(k)));
    n, c' := AppendRuns(code, c, n1, c1, SpreadTemp(k), c.stack, v);
  }

  lemma SpreadGlue(k: nat, code: seq<Instr>, base: nat, ce: seq<Instr>, c: Config, acc: seq<Value>,
                   v: Value, n1: nat, c1: Config)
    returns (n: nat, c': Config)
    requires Has(code, base, SpreadShape(base, ce, SpreadTemp(k)))
    requires Run(code, Running(c), n1) == Running(c1) && c1.pc == base + |ce| && c1.stack == c.stack + [v]
    requires Global(c1.globals, SpreadTemp(k)) == List(acc)
    ensures Run(code, Running(c), n) == Running(c')
    ensures c'.pc == base + |ce| + 7 && c'.stack == c.stack && c'.out == c1.out && c1.iters <= c'.iters
    ensures OnlyChanged(c1.globals, c'.globals, SpreadTemp(k)) && Global(c'.globals, SpreadTemp(k)) == List(acc + Items(v))
  {
    hide Run, Has, Items;
    var temp := SpreadTemp(k);
    var start := base + |ce| + 1;
    var loop := [IterNext(start + 1, start + 6)] + AppendCode(temp) + [Jump(start)];
    assert SpreadShape(base, ce, temp) == ce + ([Iter] + loop);
    HasSplit(code, base, ce, [Iter] + loop);
    HasHead(code, base + |ce|, Iter, loop);
    var s;
    n, s := Hop(code, c, n1, c1, Iter);
    assert Drop(c1.stack, 1) == c.stack;
    var m, c2 := SpreadLoop(code, start, temp, s.c, |c1.iters|, Iterator(v, 0), acc, c.stack);
    Then(code, c, n, s.c, m);
    n, c' := n + m, c2;
    assert c2.iters[..|c1.iters|] == c1.iters;
    assert Items(v)[0..] == Items(v);
  }

  lemma PartGlue(p: Part, k: nat, code: seq<Instr>, base: nat, ce: seq<Instr>, c: Config, acc: seq<Value>,
                 r: EvalResult<Value>, n1: nat, c1: Config, lo: nat, hi: nat)
    returns (n: nat, c': Config)
    requires k < lo <= hi
    requires Has(code, base, if p.Plain? then ce + AppendCode(SpreadTemp(k)) else SpreadShape(base, ce, SpreadTemp(k)))
    requires Computes(code, c, One(r), base + |ce|, lo, hi, n1, c1)
    requires Global(c.globals, SpreadTemp(k)) == List(acc)
    ensures Collects(code, c, PieceResult(p, r), SpreadTemp(k), acc,
                     base + |ce| + (if p.Plain? then 4 else 7), k, hi, n, c')
  {
    hide Run, Agrees, Has, OnlyChanged, Items, AppendCode, SpreadShape;
    var temp := SpreadTemp(k);
    n, c' := n1, c1;
    if r.Val? {
      assert Global(c1.globals, temp) == List(acc);
      TempsWiden(c.globals, c1.globals, lo, hi, k, hi);
      if p.Plain? {
        n, c' := PlainGlue(k, code, base, ce, c, acc, r.value, n1, c1);
      } else {
        n, c' := SpreadGlue(k, code, base, ce, c, acc, r.value, n1, c1);
      }
      OnlyTemp(r.st, c1.globals, c'.globals, k, k, hi);
      TempsTrans(c.globals, c1.globals, c'.globals, k, hi, k, hi);
      assert c.stack + [] == c.stack;
    }
  }

  ghost predicate ReadyParts(ps: Vec<Part>, k: nat, base: nat, id: nat, code: seq<Instr>, c: Config, st: Store,
        acc: seq<Value>) {
    && Has(code, base, PartsCode(ps, SpreadTemp(k), base, id)) && c.pc == base && k < id
    && Agrees(st, c.globals)
    && Global(c.globals, SpreadTemp(k)) == List(acc)
  }

  function JoinResult(ra: EvalResult<seq<Value>>, rb: EvalResult<seq<Value>>): EvalResult<seq<Value>> {
    match ra
    case Fail(err) => Fail(err)
    case Val(vs, _) =>
      match rb
      case Fail(err) => Fail(err)
      case Val(ws, st) => Val(vs + ws, st)
  }

  lemma JoinGlue(code: seq<Instr>, temp: Name, acc: seq<Value>, mid: nat, end: nat, c: Config,
                 ra: EvalResult<seq<Value>>, n1: nat, c1: Config, rb: EvalResult<seq<Value>>, n2: nat, c2: Config,
                 lo: nat, m: nat, hi: nat)
    returns (n: nat, c': Config)
    requires lo <= m <= hi
    requires Collects(code, c, ra, temp, acc, mid, lo, m, n1, c1)
    requires ra.Val? ==> Collects(code, c1, rb, temp, acc + ra.value, end, lo, hi, n2, c2)
    ensures Collects(code, c, JoinResult(ra, rb), temp, acc, end, lo, hi, n, c')
  {
    hide Run, Agrees, TempsKept;
    n, c' := n1, c1;
    if ra.Val? {
      Then(code, c, n1, c1, n2);
      n, c' := n1 + n2, c2;
      if rb.Val? {
        TempsTrans(c.globals, c1.globals, c2.globals, lo, m, lo, hi);
        assert acc + ra.value + rb.value == acc + (ra.value + rb.value);
      }
    }
  }

  lemma {:induction false} PartsRun(ps: Vec<Part>, k: nat, base: nat, id: nat, code: seq<Instr>, c: Config,
        st: Store, acc: seq<Value>)
    returns (n: nat, c': Config)
    requires ReadyParts(ps, k, base, id, code, c, st, acc)
    ensures Collects(code, c, EvalParts(Compiled, ps, st), SpreadTemp(k), acc,
                     base + |PartsCode(ps, SpreadTemp(k), base, id)|, k, id + TempsParts(ps), n, c')
    decreases ps, 1, 0
  {
    if ps == Nil {
      n, c' := 0, c;
      assert c.stack + [] == c.stack && acc + [] == acc;
    } else {
      hide *;
      n, c' := PartsCons(ps, k, base, id, code, c, st, acc);
    }
  }

  lemma {:induction false} PartsCons(ps: Vec<Part>, k: nat, base: nat, id: nat, code: seq<Instr>, c: Config,
        st: Store, acc: seq<Value>)
    returns (n: nat, c': Config)
    requires ps.Cons? && ReadyParts(ps, k, base, id, code, c, st, acc)
    ensures Collects(code, c, EvalParts(Compiled, ps, st), SpreadTemp(k), acc,
                     base + |PartsCode(ps, SpreadTemp(k), base, id)|, k, id + TempsParts(ps), n, c')
    decreases ps, 0, 0
  {
    hide Run, Computes, Agrees, Has, ExprCode, Eval, Temps, Items, TempsKept, PartCode;
    var p, rest := ps.head, ps.tail;
    var temp := SpreadTemp(k);
    var ce := ExprCode(p.e, base, id);
    var cp := PartCode(p, temp, base, id);
    var cr := PartsCode(rest, temp, base + |cp|, id + Temps(p.e));
    HasSplit(code, base, cp, cr);
    PartHead(p, temp, base, id, code);
    var n1, c1 := ExprRuns(p.e, base, id, code, c, st);
    var re := Eval(Compiled, p.e, st);
    n1, c1 := PartGlue(p, k, code, base, ce, c, acc, re, n1, c1, id, id + Temps(p.e));
    var ra := PieceResult(p, re);
    var rb, n2, c2 := ra, 0, c1;
    if ra.Val? {
      rb := EvalParts(Compiled, rest, re.st);
      n2, c2 := PartsRun(rest, k, base + |cp|, id + Temps(p.e), code, c1, re.st, acc + ra.value);
    }
    n, c' := JoinGlue(code, temp, acc, base + |cp|, base + |cp| + |cr|, c, ra, n1, c1, rb, n2, c2,
                      k, id + Temps(p.e), id + TempsParts(ps));
  }

  lemma PartHead(p: Part, temp: Name, base: nat, id: nat, code: seq<Instr>)
    requires Has(code, base, PartCode(p, temp, base, id))
    ensures Has(code, base, ExprCode(p.e, base, id))
    ensures |PartCode(p, temp, base, id)| == |ExprCode(p.e, base, id)| + (if p.Plain? then 4 else 7)
    ensures var ce := ExprCode(p.e, base, id);
            PartCode(p, temp, base, id) == if p.Plain? then ce + AppendCode(temp) else SpreadShape(base, ce, temp)
  {
    hide ExprCode;
    var ce := ExprCode(p.e, base, id);
    if p.Plain? {
      HasSplit(code, base, ce, AppendCode(temp));
    } else {
      var start := base + |ce| + 1;
      var tail := [Iter, IterNext(start + 1, start + 6)] + AppendCode(temp) + [Jump(start)];
      assert SpreadShape(base, ce, temp) == ce + tail;
      HasSplit(code, base, ce, tail);
    }
  }

  /** `NewList; StoreGlobal` starts an empty list in a variable. */
  lemma StartList(code: seq<Instr>, c: Config, temp: Name) returns (c': Config)
    requires Has(code, c.pc, [NewList(0), StoreGlobal(temp)])
    ensures Run(code, Running(c), 2) == Running(c') && c' == c.(pc := c.pc + 2, globals := c.globals[temp := List([])])
  {
    hide Run;
    HasHead(code, c.pc, NewList(0), [StoreGlobal(temp)]);
    HasOne(code, c.pc + 1, StoreGlobal(temp));
    RunZero(code, c);
    var n, s := Hop(code, c, 0, c, NewList(0));
    assert Drop(c.stack, 0) == c.stack && Last(c.stack, 0) == [];
    n, s := Hop(code, c, n, s.c, StoreGlobal(temp));
    StoreSteps(Next(c, 0, [List([])]), temp, c.stack, List([]));
    c' := s.c;
  }

  lemma RunZero(code: seq<Instr>, c: Config)
    ensures Run(code, Running(c), 0) == Running(c)
  {
  }

  function WholeList(r: EvalResult<seq<Value>>): EvalResult<Value> {
    match r
    case Fail(err) => Fail(err)
    case Val(vs, st) => Val(List(vs), st)
  }

  /** Code that starts a list, fills it, and loads it. */
  lemma ListGlue(code: seq<Instr>, mid: nat, c: Config, n0: nat, c0: Config, temp: Name, r: EvalResult<seq<Value>>,
                 n1: nat, c1: Config, lo: nat, hi: nat)
    returns (n: nat, c': Config)
    requires Run(code, Running(c), n0) == Running(c0) && c0.stack == c.stack && c0.out == c.out && c.iters <= c0.iters
    requires TempsKept(c.globals, c0.globals, lo, hi)
    requires Collects(code, c0, r, temp, [], mid, lo, hi, n1, c1)
    requires Has(code, mid, [LoadGlobal(temp)])
    ensures Computes(code, c, One(WholeList(r)), mid + 1, lo, hi, n, c')
  {
    hide Run, Agrees, TempsKept;
    Then(code, c, n0, c0, n1);
    n, c' := n0 + n1, c1;
    if r.Val? {
      HasOne(code, mid, LoadGlobal(temp));
      var s;
      n, s := Hop(code, c, n, c1, LoadGlobal(temp));
      assert [] + r.value == r.value;
      c' := s.c;
      TempsTrans(c.globals, c0.globals, c1.globals, lo, hi, lo, hi);
    }
  }

  lemma {:induction false} SpreadLitCode(ps: Vec<Part>, base: nat, id: nat)
    ensures ExprCode(SpreadLit(ps), base, id)
         == [NewList(0), StoreGlobal(SpreadTemp(id))] + PartsCode(ps, SpreadTemp(id), base + 2, id + 1)
            + [LoadGlobal(SpreadTemp(id))]
  {
    hide PartsCode;
  }

  lemma SpreadLitSplit(ps: Vec<Part>, base: nat, id: nat, code: seq<Instr>)
    requires Has(code, base, ExprCode(SpreadLit(ps), base, id))
    ensures var temp := SpreadTemp(id);
            var cps := PartsCode(ps, temp, base + 2, id + 1);
            && Has(code, base, [NewList(0), StoreGlobal(temp)]) && Has(code, base + 2, cps)
            && Has(code, base + 2 + |cps|, [LoadGlobal(temp)]) && |ExprCode(SpreadLit(ps), base, id)| == 2 + |cps| + 1
  {
    hide Has, PartsCode;
    SpreadLitCode(ps, base, id);
    var temp := SpreadTemp(id);
    var start := [NewList(0), StoreGlobal(temp)];
    var cps := PartsCode(ps, temp, base + 2, id + 1);
    HasSplit(code, base, start + cps, [LoadGlobal(temp)]);
    HasSplit(code, base, start, cps);
  }

  lemma {:induction false} SpreadMeaning(e: Expr, st: Store)
    requires e.SpreadLit?
    ensures WholeList(EvalParts(Compiled, e.parts, st)) == Eval(Compiled, e, st)
    ensures Temps(e) == 1 + TempsParts(e.parts)
  {
    hide EvalParts;
  }

  lemma {:induction false} SpreadLitRuns(e: Expr, base: nat, id: nat, code: seq<Instr>, c: Config, st: Store)
    returns (n: nat, c': Config)
    requires e.SpreadLit?
    requires Ready(e, base, id, code, c, st)
    ensures ExprDone(e, base, id, code, c, st, n, c')
    decreases e, 0, 0
  {
    hide Run, Computes, Collects, Agrees, Has, ExprCode, PartsCode, TempsKept, EvalParts, WholeList;
    hide Eval, Temps, TempsParts, One;
    SpreadMeaning(e, st);
    SpreadLitSplit(e.parts, base, id, code);
    var temp := SpreadTemp(id);
    var cps := PartsCode(e.parts, temp, base + 2, id + 1);
    var c0 := StartList(code, c, temp);
    OnlyTemp(st, c.globals, c0.globals, id, id, id + Temps(e));
    n, c' := PartsRun(e.parts, id, base + 2, id + 1, code, c0, st, []);
    n, c' := ListGlue(code, base + 2 + |cps|, c, 2, c0, temp, EvalParts(Compiled, e.parts, st), n, c',
                      id, id + Temps(e));
  }

  // ----- list comprehensions -----

  /** The loop of a comprehension, from its `IterNext` to the jump back. */
  ghost predicate CompAt(e: Expr, start: nat, i1: nat, i2: nat, code: seq<Instr>)
    requires e.Comprehension?
  {
    var cf := OptCode(e.filter, start + 2, i1);
    var p := start + 2 + FilterSize(cf);
    var cr := ExprCode(e.result, p, i2);
    var again := p + |cr| + 4;
    && Has(code, start, [IterNext(start + 1, again + 1), StoreGlobal(User(e.name))])
    && Has(code, start + 2, FilterShape(cf, again))
    && Has(code, p, cr)
    && Has(code, p + |cr|, AppendCode(COLLECTED))
    && Has(code, again, [Jump(start)])
  }

  function CompAgain(e: Expr, start: nat, i1: nat, i2: nat): nat
    requires e.Comprehension?
  {
    var p := start + 2 + FilterSize(OptCode(e.filter, start + 2, i1));
    p + |ExprCode(e.result, p, i2)| + 4
  }

  /** Between iterations the handle `h` lies on top of `stack`. */
  ghost predicate InLoop(c: Config, start: nat, h: nat, it: Iterator, stack: seq<Value>, st: Store) {
    && c.pc == start && c.stack == stack + [Int(h)]
    && h < |c.iters| && c.iters[h] == it && it.pos <= |Items(it.container)|
    && Agrees(st, c.globals)
  }

  /** `IterNext` and the assignment of the loop variable. */
  lemma EnterBody(code: seq<Instr>, start: nat, end: nat, x: Name, c: Config, h: nat, it: Iterator, stack: seq<Value>)
    returns (n: nat, c': Config)
    requires Has(code, start, [IterNext(start + 1, end), StoreGlobal(x)])
    requires c.pc == start && c.stack == stack + [Int(h)] && h < |c.iters| && c.iters[h] == it
    ensures var items := Items(it.container);
            && Run(code, Running(c), n) == Running(c') && n > 0
            && c' == if it.pos < |items|
                     then c.(pc := start + 2, globals := c.globals[x := items[it.pos]],
                             iters := c.iters[h := it.(pos := it.pos + 1)])
                     else c.(pc := end, stack := stack, iters := c.iters[h := Iterator(Null, 0)])
  {
    hide Run;
    HasHead(code, start, IterNext(start + 1, end), [StoreGlobal(x)]);
    HasOne(code, start + 1, StoreGlobal(x));
    RunZero(code, c);
    var s;
    n, s := Hop(code, c, 0, c, IterNext(start + 1, end));
    assert Drop(c.stack, 1) == stack;
    if it.pos < |Items(it.container)| {
      var c1 := s.c;
      n, s := Hop(code, c, n, c1, StoreGlobal(x));
      StoreSteps(c1, x, c.stack, Items(it.container)[it.pos]);
    }
    c' := s.c;
  }

  lemma AssignAgrees(st: Store, g: map<Name, Value>, x: string, v: Value)
    requires Agrees(st, g)
    ensures Agrees(st[x := v], g[User(x) := v])
    ensures OnlyChanged(g, g[User(x) := v], User(x))
  {
  }

  lemma {:induction false} FilterRuns(f: Option<Expr>, base: nat, again: nat, id: nat, code: seq<Instr>, c: Config,
        st: Store)
    returns (n: nat, c': Config)
    requires Has(code, base, FilterShape(OptCode(f, base, id), again)) && c.pc == base
    requires Agrees(st, c.globals)
    ensures match FilterItem(Compiled, f, st)
            case Fail(err) => Run(code, Running(c), n) == Status.Failed(err, c.out)
            case Val(v, st1) =>
              Pushes(code, c, [], st1, if Truthy(v) then base + FilterSize(OptCode(f, base, id)) else again,
                     id, id + TempsOpt(f), n, c')
    decreases f, 1, 0
  {
    hide Agrees, TempsKept, Has, ExprCode, Eval, Temps;
    if f == None {
      n, c' := 0, c;
      assert c.stack + [] == c.stack;
      NothingRuns(code, c, st, id, id);
    } else {
      hide Run, Computes, Pushes;
      var ce := ExprCode(f.value, base, id);
      HasSplit(code, base, ce, [JumpIfFalse(again)]);
      n, c' := ExprRuns(f.value, base, id, code, c, st);
      FilterJump(code, base + |ce|, again, c, Eval(Compiled, f.value, st), n, c', id, id + Temps(f.value));
      if Eval(Compiled, f.value, st).Val? {
        c' := Resume(c', if Truthy(Eval(Compiled, f.value, st).value) then base + |ce| + 1 else again, c.stack);
        n := n + 1;
      }
    }
  }

  lemma NothingRuns(code: seq<Instr>, c: Config, st: Store, lo: nat, hi: nat)
    requires Agrees(st, c.globals)
    ensures Pushes(code, c, [], st, c.pc, lo, hi, 0, c)
  {
    assert c.stack + [] == c.stack;
  }

  lemma FilterJump(code: seq<Instr>, at: nat, again: nat, c: Config, r: EvalResult<Value>, n: nat, c1: Config,
        lo: nat, hi: nat)
    requires Has(code, at, [JumpIfFalse(again)])
    requires Computes(code, c, One(r), at, lo, hi, n, c1)
    ensures r.Fail? ==> Run(code, Running(c), n) == Status.Failed(r.error, c.out)
    ensures r.Val? ==> var t := if Truthy(r.value) then at + 1 else again;
                       Pushes(code, c, [], r.st, t, lo, hi, n + 1, Resume(c1, t, c.stack))
  {
    hide Run, Agrees, TempsKept;
    HasOne(code, at, JumpIfFalse(again));
    if r.Val? {
      var m, s := Hop(code, c, n, c1, JumpIfFalse(again));
      assert Drop(c1.stack, 1) == c.stack && c.stack + [] == c.stack;
    }
  }

  function AndCollected(r: EvalResult<Value>): EvalResult<seq<Value>> {
    match r
    case Fail(err) => Fail(err)
    case Val(v, st) => Val([], st[TEMP := Grown(Get(st, TEMP), v)])
  }

  /** Appends the result to the list in the variable, and jumps back. */
  lemma ResultGlue(code: seq<Instr>, at: nat, start: nat, c: Config, r: EvalResult<Value>, n1: nat, c1: Config, lo: nat,
        hi: nat)
    returns (n: nat, c': Config)
    requires Has(code, at, AppendCode(COLLECTED)) && Has(code, at + 4, [Jump(start)])
    requires Computes(code, c, One(r), at, lo, hi, n1, c1)
    ensures Computes(code, c, AndCollected(r), start, lo, hi, n, c')
  {
    hide Run, Agrees, Grown;
    n, c' := n1, c1;
    if r.Val? {
      n, c' := AppendRuns(code, c, n1, c1, COLLECTED, c.stack, r.value);
      CollectedAgrees(r.st, c1.globals, r.value);
      HasOne(code, at + 4, Jump(start));
      var s;
      n, s := Hop(code, c, n, c', Jump(start));
      c' := s.c;
      assert c.stack + [] == c.stack;
    }
  }

  lemma CollectedAgrees(st: Store, g: map<Name, Value>, v: Value)
    requires Agrees(st, g)
    ensures Agrees(st[TEMP := Grown(Get(st, TEMP), v)], g[COLLECTED := Grown(Global(g, COLLECTED), v)])
  {
    AssignAgrees(st, g, TEMP, Grown(Get(st, TEMP), v));
  }

  /** One iteration. */
  lemma {:induction false} CompIteration(e: Expr, start: nat, i1: nat, i2: nat, code: seq<Instr>, c: Config, h: nat,
        it: Iterator, stack: seq<Value>, st: Store)
    returns (n: nat, c': Config)
    requires e.Comprehension? && CompAt(e, start, i1, i2, code) && i2 == i1 + TempsOpt(e.filter)
    requires InLoop(c, start, h, it, stack, st) && it.pos < |Items(it.container)|
    ensures match CompItem(Compiled, e, Items(it.container)[it.pos], st)
            case Fail(err) => Run(code, Running(c), n) == Status.Failed(err, c.out)
            case Val(_, st1) =>
              && Run(code, Running(c), n) == Running(c') && c'.out == c.out
              && InLoop(c', start, h, it.(pos := it.pos + 1), stack, st1)
              && c.iters[..h] <= c'.iters
              && TempsKept(c.globals, c'.globals, i1, i2 + Temps(e.result))
    decreases e, 0, 0
  {
    hide Run, Has, Computes, Agrees, ExprCode, Eval, Temps, Items, Grown;
    var cf := OptCode(e.filter, start + 2, i1);
    var p := start + 2 + FilterSize(cf);
    var cr := ExprCode(e.result, p, i2);
    var again := p + |cr| + 4;
    var item := Items(it.container)[it.pos];
    var n1, c1 := EnterBody(code, start, again + 1, User(e.name), c, h, it, stack);
    AssignAgrees(st, c.globals, e.name, item);
    var n2, c2 := FilterRuns(e.filter, start + 2, again, i1, code, c1, st[e.name := item]);
    Then(code, c, n1, c1, n2);
    n, c' := n1 + n2, c2;
    var rf := FilterItem(Compiled, e.filter, st[e.name := item]);
    if rf.Val? {
      assert c2.stack == c1.stack;
      TempsTrans(c.globals, c1.globals, c2.globals, i1, i1, i1, i2);
      if Truthy(rf.value) {
        var n3, c3 := ExprRuns(e.result, p, i2, code, c2, rf.st);
        var r := Eval(Compiled, e.result, rf.st);
        n3, c3 := ResultGlue(code, p + |cr|, start, c2, r, n3, c3, i2, i2 + Temps(e.result));
        CollectedParts(code, c2, r, start, i2, i2 + Temps(e.result), n3, c3);
        Then(code, c, n, c2, n3);
        n, c' := n + n3, c3;
        if r.Val? {
          TempsTrans(c.globals, c2.globals, c3.globals, i1, i2, i2, i2 + Temps(e.result));
        }
      } else {
        HasOne(code, again, Jump(start));
        var s;
        n, s := Hop(code, c, n, c2, Jump(start));
        c' := s.c;
        TempsWiden(c.globals, c2.globals, i1, i2, i1, i2 + Temps(e.result));
      }
    }
  }

  lemma CollectedParts(code: seq<Instr>, c: Config, r: EvalResult<Value>, end: nat, lo: nat, hi: nat, n: nat, c': Config)
    requires Computes(code, c, AndCollected(r), end, lo, hi, n, c')
    ensures r.Fail? ==> Run(code, Running(c), n) == Status.Failed(r.error, c.out)
    ensures r.Val? ==>
              && Run(code, Running(c), n) == Running(c') && c'.pc == end && c'.stack == c.stack && c'.out == c.out
              && c.iters <= c'.iters && Agrees(AndCollected(r).st, c'.globals) && TempsKept(c.globals, c'.globals, lo, hi)
  {
    hide Run, Agrees, TempsKept, Grown;
    assert c.stack + [] == c.stack;
  }

  lemma {:induction false} CompLoop(e: Expr, start: nat, i1: nat, i2: nat, code: seq<Instr>, c: Config, h: nat,
        it: Iterator, stack: seq<Value>, st: Store)
    returns (n: nat, c': Config)
    requires e.Comprehension? && CompAt(e, start, i1, i2, code) && i2 == i1 + TempsOpt(e.filter)
    requires InLoop(c, start, h, it, stack, st)
    ensures match EvalComp(Compiled, e, Items(it.container)[it.pos..], st)
            case Fail(err) => Run(code, Running(c), n) == Status.Failed(err, c.out)
            case Val(_, st1) =>
              && Run(code, Running(c), n) == Running(c') && c'.out == c.out
              && c'.pc == CompAgain(e, start, i1, i2) + 1 && c'.stack == stack
              && c.iters[..h] <= c'.iters
              && TempsKept(c.globals, c'.globals, i1, i2 + Temps(e.result))
              && Agrees(st1, c'.globals)
    decreases e, 0, 1 + |Items(it.container)| - it.pos
  {
    hide Run, Has, Agrees, ExprCode, Temps, CompItem, Items;
    var items := Items(it.container);
    if it.pos == |items| {
      n, c' := EnterBody(code, start, CompAgain(e, start, i1, i2) + 1, User(e.name), c, h, it, stack);
      assert items[it.pos..] == [];
    } else {
      n, c' := CompIteration(e, start, i1, i2, code, c, h, it, stack, st);
      var r := CompItem(Compiled, e, items[it.pos], st);
      assert items[it.pos..][0] == items[it.pos] && items[it.pos..][1..] == items[it.pos + 1..];
      if r.Val? {
        var c1 := c';
        var m, c2 := CompLoop(e, start, i1, i2, code, c1, h, it.(pos := it.pos + 1), stack, r.st);
        Then(code, c, n, c1, m);
        n, c' := n + m, c2;
        if EvalComp(Compiled, e, items[it.pos + 1..], r.st).Val? {
          TempsTrans(c.globals, c1.globals, c2.globals, i1, i2 + Temps(e.result), i1, i2 + Temps(e.result));
        }
      }
    }
  }

  lemma {:induction false} CompParts(e: Expr, base: nat, id: nat, code: seq<Instr>)
    requires e.Comprehension? && Has(code, base, ExprCode(e, base, id))
    ensures var cit := ExprCode(e.iterable, base + 2, id);
            var start := base + 2 + |cit| + 1;
            var i1, i2 := id + Temps(e.iterable), id + Temps(e.iterable) + TempsOpt(e.filter);
            && Has(code, base, [NewList(0), StoreGlobal(COLLECTED)]) && Has(code, base + 2, cit)
            && Has(code, start - 1, [Iter]) && CompAt(e, start, i1, i2, code)
            && Has(code, CompAgain(e, start, i1, i2) + 1, [LoadGlobal(COLLECTED)])
            && base + |ExprCode(e, base, id)| == CompAgain(e, start, i1, i2) + 2
  {
    hide Has, CompShape, FilterShape, FilterSize, OptCode, Temps, TempsOpt;
    CompCode(e.result, e.name, e.iterable, e.filter, base, id);
    hide ExprCode;
    var cit := ExprCode(e.iterable, base + 2, id);
    var start := base + 2 + |cit| + 1;
    var i1, i2 := id + Temps(e.iterable), id + Temps(e.iterable) + TempsOpt(e.filter);
    var cf := OptCode(e.filter, start + 2, i1);
    var p := start + 2 + FilterSize(cf);
    var cr := ExprCode(e.result, p, i2);
    CompShapeParts(base, cit, User(e.name), cf, cr, code);
  }

  /** Where a comprehension starts: an empty list in the variable. */
  function Emptied(st: Store): Store {
    st[TEMP := List([])]
  }

  function IterateResult(e: Expr, r: EvalResult<Value>): EvalResult<seq<Value>>
    requires e.Comprehension?
  {
    match r
    case Fail(err) => Fail(err)
    case Val(v, st) => EvalComp(Compiled, e, Items(v), st)
  }

  /** In the end the list is whatever the variable holds. */
  function LoadResult(r: EvalResult<seq<Value>>): EvalResult<Value> {
    match r
    case Fail(err) => Fail(err)
    case Val(_, st) => Val(Get(st, TEMP), st)
  }

  lemma {:induction false} CompMeaning(e: Expr, st: Store)
    requires e.Comprehension?
    ensures Eval(Compiled, e, st) == LoadResult(IterateResult(e, Eval(Compiled, e.iterable, Emptied(st))))
    ensures Temps(e) == Temps(e.iterable) + TempsOpt(e.filter) + Temps(e.result)
  {
    hide EvalComp, Items, TempsOpt;
  }

  lemma CompShapeParts(base: nat, cit: seq<Instr>, x: Name, cf: Option<seq<Instr>>, cr: seq<Instr>, code: seq<Instr>)
    requires Has(code, base, CompShape(base, cit, x, cf, cr))
    ensures var start := base + 2 + |cit| + 1;
            var p := start + 2 + FilterSize(cf);
            var again := p + |cr| + 4;
            && Has(code, base, [NewList(0), StoreGlobal(COLLECTED)]) && Has(code, base + 2, cit)
            && Has(code, start - 1, [Iter])
            && Has(code, start, [IterNext(start + 1, again + 1), StoreGlobal(x)])
            && Has(code, start + 2, FilterShape(cf, again)) && |FilterShape(cf, again)| == FilterSize(cf)
            && Has(code, p, cr) && Has(code, p + |cr|, AppendCode(COLLECTED))
            && Has(code, again, [Jump(start)]) && Has(code, again + 1, [LoadGlobal(COLLECTED)])
            && |CompShape(base, cit, x, cf, cr)| == again + 2 - base
  {
    hide Has;
    var start := base + 2 + |cit| + 1;
    var p := start + 2 + FilterSize(cf);
    var again := p + |cr| + 4;
    var s1 := [NewList(0), StoreGlobal(COLLECTED)];
    var s3 := [Iter, IterNext(start + 1, again + 1), StoreGlobal(x)];
    var s4 := FilterShape(cf, again);
    var s7 := [Jump(start), LoadGlobal(COLLECTED)];
    HasSplit(code, base, s1 + cit + s3 + s4 + cr + AppendCode(COLLECTED), s7);
    HasSplit(code, base, s1 + cit + s3 + s4 + cr, AppendCode(COLLECTED));
    HasSplit(code, base, s1 + cit + s3 + s4, cr);
    HasSplit(code, base, s1 + cit + s3, s4);
    HasSplit(code, base, s1 + cit, s3);
    HasSplit(code, base, s1, cit);
    assert s3 == [Iter] + [IterNext(start + 1, again + 1), StoreGlobal(x)];
    HasSplit(code, start - 1, [Iter], [IterNext(start + 1, again + 1), StoreGlobal(x)]);
    assert s7 == [Jump(start)] + [LoadGlobal(COLLECTED)];
    HasSplit(code, again, [Jump(start)], [LoadGlobal(COLLECTED)]);
  }

  /** From the value to iterate over, through the loop, to the list in the variable. */
  lemma {:induction false} CompBody(e: Expr, start: nat, i1: nat, i2: nat, code: seq<Instr>, c: Config,
                                    r: EvalResult<Value>, n1: nat, c1: Config, lo: nat)
    returns (n: nat, c': Config)
    requires e.Comprehension? && start > 0 && lo <= i1 && i2 == i1 + TempsOpt(e.filter)
    requires Has(code, start - 1, [Iter]) && CompAt(e, start, i1, i2, code)
    requires Computes(code, c, One(r), start - 1, lo, i1, n1, c1)
    ensures var x := IterateResult(e, r);
            && (x.Fail? ==> Run(code, Running(c), n) == Status.Failed(x.error, c.out))
            && (x.Val? ==> Pushes(code, c, [], x.st, CompAgain(e, start, i1, i2) + 1, lo, i2 + Temps(e.result), n, c'))
    decreases e, 1, 0
  {
    hide Run, Has, Agrees, ExprCode, Temps, Eval, EvalComp, Items, CompAt;
    n, c' := n1, c1;
    if r.Val? {
      HasOne(code, start - 1, Iter);
      var s;
      n, s := Hop(code, c, n1, c1, Iter);
      assert Drop(c1.stack, 1) == c.stack;
      var c2 := s.c;
      assert InLoop(c2, start, |c1.iters|, Iterator(r.value, 0), c.stack, r.st);
      assert Items(r.value)[0..] == Items(r.value);
      var m, c3 := CompLoop(e, start, i1, i2, code, c2, |c1.iters|, Iterator(r.value, 0), c.stack, r.st);
      Then(code, c, n, c2, m);
      n, c' := n + m, c3;
      assert c2.iters[..|c1.iters|] == c1.iters;
      if EvalComp(Compiled, e, Items(r.value), r.st).Val? {
        TempsTrans(c.globals, c1.globals, c3.globals, lo, i1, i1, i2 + Temps(e.result));
        assert c.stack + [] == c.stack;
      }
    }
  }

  lemma {:induction false} CompRuns(e: Expr, base: nat, id: nat, code: seq<Instr>, c: Config, st: Store)
    returns (n: nat, c': Config)
    requires e.Comprehension?
    requires Ready(e, base, id, code, c, st)
    ensures ExprDone(e, base, id, code, c, st, n, c')
    decreases e, 1, 1
  {
    hide Run, Computes, Agrees, Has, EvalComp, Items, CompAt, CompAgain, TempsKept, Pushes;
    hide ExprCode, Eval, Temps, TempsOpt, IterateResult, One, LoadResult;
    CompParts(e, base, id, code);
    CompMeaning(e, st);
    var cit := ExprCode(e.iterable, base + 2, id);
    var start := base + 2 + |cit| + 1;
    var i1, i2 := id + Temps(e.iterable), id + Temps(e.iterable) + TempsOpt(e.filter);
    var c0 := StartList(code, c, COLLECTED);
    AssignAgrees(st, c.globals, TEMP, List([]));
    var n1, c1 := ExprRuns(e.iterable, base + 2, id, code, c0, Emptied(st));
    var r := Eval(Compiled, e.iterable, Emptied(st));
    n, c' := CompBody(e, start, i1, i2, code, c0, r, n1, c1, id);
    n, c' := LoadGlue(code, CompAgain(e, start, i1, i2) + 1, c, 2, c0, IterateResult(e, r), n, c', id, id + Temps(e));
  }

  /** The list is loaded. */
  lemma LoadGlue(code: seq<Instr>, mid: nat, c: Config, n0: nat, c0: Config, r: EvalResult<seq<Value>>, n1: nat,
        c1: Config, lo: nat, hi: nat)
    returns (n: nat, c': Config)
    requires Run(code, Running(c), n0) == Running(c0) && c0.stack == c.stack && c0.out == c.out && c.iters <= c0.iters
    requires OnlyChanged(c.globals, c0.globals, COLLECTED)
    requires r.Fail? ==> Run(code, Running(c0), n1) == Status.Failed(r.error, c0.out)
    requires r.Val? ==> Pushes(code, c0, [], r.st, mid, lo, hi, n1, c1)
    requires Has(code, mid, [LoadGlobal(COLLECTED)])
    ensures Computes(code, c, One(LoadResult(r)), mid + 1, lo, hi, n, c')
  {
    hide Run;
    Then(code, c, n0, c0, n1);
    n, c' := n0 + n1, c1;
    if r.Val? {
      HasOne(code, mid, LoadGlobal(COLLECTED));
      var s;
      n, s := Hop(code, c, n, c1, LoadGlobal(COLLECTED));
      LoadSteps(c1, COLLECTED);
      assert c1.stack == c.stack + [] == c.stack;
      assert Global(c1.globals, COLLECTED) == Get(r.st, TEMP);
      c' := s.c;
    }
  }
}
