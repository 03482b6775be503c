/** Every place in the bytecode of a program has a stack height that no path there falls short of, and
    that every path meets unless a `for` loop is left by `break`. So no run, finite or not, takes an
    operand that is not there. */
module StackHeights {
  import opened Values
  import opened Ast
  import opened Bytecode
  import opened Layout
  import opened BytecodeExprs

  // ----- heights fit instructions -----

  /** By how much an instruction that does not jump changes the height. */
  function Net(i: Instr): int {
    match i
    case NewList(n) => 1 - n
    case NewTuple(n) => 1 - n
    case Pop => -1
    case Swap => 0
    case StoreGlobal(_) => -1
    case Arith(_) => -1
    case UnaryOp(_) => 0
    case IndexGet => -1
    case IndexSet => -2
    case Iter => 0
    case CallBuiltin(_, n) => 1 - n
    case PrintTop => -1
    case Newline => 0
    case _ => 1
  }

  function Wants(i: Instr): nat {
    if i.Pop? then 1 else Needs(i)
  }

  /** A height for every place; `exact` if every path there must leave just that many values, otherwise
      none leaves fewer. */
  datatype Heights = Heights(at: seq<nat>, exact: bool)

  predicate HeightIs(hs: Heights, k: nat, h: int) {
    k < |hs.at| && hs.at[k] == h
  }

  /** The place may be entered with `h` values on the stack. */
  predicate Enters(hs: Heights, k: nat, h: int) {
    k < |hs.at| && if hs.exact then hs.at[k] == h else hs.at[k] <= h
  }

  /** The instruction at `k` finds its operands, and every successor may be entered with what it leaves. */
  predicate Fits(i: Instr, k: nat, hs: Heights)
    requires k < |hs.at|
  {
    var h := hs.at[k];
    Wants(i) <= h
    && match i
       case Jump(t) => Enters(hs, t, h)
       case JumpIfFalse(t) => Enters(hs, t, h - 1) && Enters(hs, k + 1, h - 1)
       case JumpIfTrue(t) => Enters(hs, t, h - 1) && Enters(hs, k + 1, h - 1)
       case IterNext(b, e) => Enters(hs, b, h + 1) && Enters(hs, e, h - 1)
       case Halt => true
       case _ => Enters(hs, k + 1, h + Net(i))
  }

  ghost predicate Region(code: seq<Instr>, hs: Heights, lo: nat, hi: nat) {
    |code| == |hs.at| && hi <= |code| && forall k :: lo <= k < hi ==> Fits(code[k], k, hs)
  }

  lemma NoSuchError(op: BinOp, a: Value, b: Value, c: Value, f: Builtin, args: seq<Value>)
    ensures BinaryValues(op, a, b) != Err(StackUnderflow) && IndexValue(a, b) != Err(StackUnderflow)
    ensures IndexUpdate(a, b, c) != Err(StackUnderflow)
    ensures |args| == Arity(f) ==> CallValues(f, args) != Err(StackUnderflow)
  {
    if f.Range3? && |args| == 3 {
      RangeError(args[0], args[1], args[2]);
    }
  }

  lemma RangeError(a: Value, b: Value, c: Value)
    ensures Range3Values(a, b, c) != Err(StackUnderflow)
  {
    if ToInt(a).Ok? && ToInt(b).Ok? && ToInt(c).Ok? && ToInt(c).value != 0 {
      ItemsError(ToInt(a).value, ToInt(b).value, ToInt(c).value, TWO64);
    }
  }

  lemma {:induction false} ItemsError(i: int, end: int, step: int, room: nat)
    ensures RangeFrom(i, end, step, room) != Err(StackUnderflow)
    decreases room
  {
    if room > 0 {
      ItemsError(Wrap(i + step), end, step, room - 1);
    }
  }

  /** These instructions fail in no other way than for want of operands. */
  lemma PlainNoError(i: Instr, c: Config)
    requires |c.stack| >= Needs(i) && !i.Arith? && !i.IndexGet? && !i.IndexSet? && !i.CallBuiltin?
    ensures !StepInstr(i, c).Failed?
  {
    hide UnaryValue, Truthy, Items, Display, Next, Last, Global, StepIterNext, Top;
  }

  lemma ValueNoError(i: Instr, c: Config)
    requires |c.stack| >= Needs(i) && (i.Arith? || i.IndexGet? || i.IndexSet?)
    ensures StepInstr(i, c).Failed? ==> StepInstr(i, c).error != StackUnderflow
  {
    hide BinaryValues, IndexValue, IndexUpdate, Next;
    var s := c.stack;
    match i
    case Arith(op) => NoSuchError(op, s[|s| - 2], s[|s| - 1], Null, BoolOf, []);
    case IndexGet => NoSuchError(Add, s[|s| - 2], s[|s| - 1], Null, BoolOf, []);
    case IndexSet => NoSuchError(Add, s[|s| - 3], s[|s| - 2], s[|s| - 1], BoolOf, []);
  }

  lemma CallNoError(i: Instr, c: Config)
    requires |c.stack| >= Needs(i) && i.CallBuiltin?
    ensures StepInstr(i, c).Failed? ==> StepInstr(i, c).error != StackUnderflow
  {
    hide CallValues, Next;
    NoSuchError(Add, Null, Null, Null, i.f, Last(c.stack, i.argc));
  }

  /** An instruction that finds its operands does not report them missing. */
  lemma StepErrors(i: Instr, c: Config)
    requires |c.stack| >= Needs(i)
    ensures StepInstr(i, c).Failed? ==> StepInstr(i, c).error != StackUnderflow
  {
    hide StepInstr, Needs;
    if i.CallBuiltin? {
      CallNoError(i, c);
    } else if i.Arith? || i.IndexGet? || i.IndexSet? {
      ValueNoError(i, c);
    } else {
      PlainNoError(i, c);
    }
  }

  /** An instruction that does not jump changes the height by its net effect. */
  lemma StepNet(i: Instr, c: Config)
    requires |c.stack| >= Wants(i) && StepInstr(i, c).Running?
    requires !i.Jump? && !i.JumpIfFalse? && !i.JumpIfTrue? && !i.IterNext?
    ensures var c' := StepInstr(i, c).c; c'.pc == c.pc + 1 && |c'.stack| == |c.stack| + Net(i)
  {
    hide BinaryValues, IndexValue, IndexUpdate, CallValues, UnaryValue, Truthy, Items, Display;
  }

  /** One step from a configuration with a right height leads to one with a right height. */
  lemma StepFits(code: seq<Instr>, hs: Heights, c: Config)
    requires Region(code, hs, 0, |code|) && Enters(hs, c.pc, |c.stack|)
    ensures match Step(code, Running(c))
            case Running(c') => Enters(hs, c'.pc, |c'.stack|)
            case Failed(e, _) => e != StackUnderflow
            case Halted(_) => true
  {
    hide Net, Truthy, Items, Needs;
    var i := code[c.pc];
    assert Fits(i, c.pc, hs);
    assert Wants(i) >= Needs(i) by { WantsNeeds(i); }
    StepErrors(i, c);
    if StepInstr(i, c).Running? && !i.Jump? && !i.JumpIfFalse? && !i.JumpIfTrue? && !i.IterNext? {
      StepNet(i, c);
      hide StepInstr;
    } else {
      JumpFits(hs, i, c);
      hide StepInstr;
    }
  }

  lemma WantsNeeds(i: Instr)
    ensures Wants(i) >= Needs(i)
  {
  }

  lemma JumpFits(hs: Heights, i: Instr, c: Config)
    requires Enters(hs, c.pc, |c.stack|) && Fits(i, c.pc, hs)
    requires i.Jump? || i.JumpIfFalse? || i.JumpIfTrue? || i.IterNext? || !StepInstr(i, c).Running?
    ensures StepInstr(i, c).Running? ==> Enters(hs, StepInstr(i, c).c.pc, |StepInstr(i, c).c.stack|)
  {
    hide Truthy, Items;
  }

  lemma {:induction false} RunFits(code: seq<Instr>, hs: Heights, c: Config, n: nat)
    requires Region(code, hs, 0, |code|) && Enters(hs, c.pc, |c.stack|)
    ensures match Run(code, Running(c), n)
            case Running(c') => Enters(hs, c'.pc, |c'.stack|)
            case Failed(e, _) => e != StackUnderflow
            case Halted(_) => true
    decreases n
  {
    hide Step, Fits;
    if n > 0 {
      StepFits(code, hs, c);
      var s := Step(code, Running(c));
      if s.Running? {
        RunFits(code, hs, s.c, n - 1);
      } else {
        RunStopped(code, s, n - 1);
      }
    }
  }

  // ----- the heights of the code of expressions -----

  function AppendHeights(h: nat): seq<nat> {
    [h + 1, h + 2, h + 2, h + 1]
  }

  function ExprHeights(e: Expr, h: nat): seq<nat>
    decreases e, 1
  {
    match e
    case Binary(_, l, r) => ExprHeights(l, h) + ExprHeights(r, h + 1) + [h + 2]
    case Index(l, r) => ExprHeights(l, h) + ExprHeights(r, h + 1) + [h + 2]
    case Unary(_, x) => ExprHeights(x, h) + [h + 1]
    case And(l, r) => ExprHeights(l, h) + [h + 1] + ExprHeights(r, h) + [h + 1, h + 1, h]
    case Or(l, r) => ExprHeights(l, h) + [h + 1, h + 2, h + 1] + ExprHeights(r, h) + [h + 1, h + 1, h + 1, h]
    case Ternary(c, a, b) => ExprHeights(c, h) + [h + 1] + ExprHeights(a, h) + [h + 1] + ExprHeights(b, h)
    case Coalesce(l, r) => ExprHeights(l, h) + [h + 1, h + 2, h + 1] + ExprHeights(r, h)
    case ListLit(es) => ExprsHeights(es, h) + [h + Len(es)]
    case TupleLit(es) => ExprsHeights(es, h) + [h + Len(es)]
    case SpreadLit(ps) => [h, h + 1] + PartsHeights(ps, h) + [h]
    case Comprehension(r, _, it, f) =>
      [h, h + 1] + ExprHeights(it, h) + [h + 1, h + 1, h + 2] + FilterHeights(f, h + 1)
      + ExprHeights(r, h + 1) + AppendHeights(h + 1) + [h + 1, h]
    case _ => [h]
  }

  function FilterHeights(f: Option<Expr>, h: nat): seq<nat>
    decreases f, 2
  {
    if f.Some? then ExprHeights(f.value, h) + [h + 1] else []
  }

  function ExprsHeights(es: Vec<Expr>, h: nat): seq<nat>
    decreases es
  {
    match es
    case Nil => []
    case Cons(e, rest) => ExprHeights(e, h) + ExprsHeights(rest, h + 1)
  }

  function PartHeights(p: Part, h: nat): seq<nat>
    decreases p
  {
    ExprHeights(p.e, h)
    + if p.Plain? then AppendHeights(h) else [h + 1, h + 1] + AppendHeights(h + 1) + [h + 1]
  }

  function PartsHeights(ps: Vec<Part>, h: nat): seq<nat>
    decreases ps
  {
    match ps
    case Nil => []
    case Cons(p, rest) => PartHeights(p, h) + PartsHeights(rest, h)
  }

  // ----- code and heights side by side -----

  predicate HasH(hs: Heights, base: nat, xs: seq<nat>) {
    base + |xs| <= |hs.at| && hs.at[base..base + |xs|] == xs
  }

  predicate Both(code: seq<Instr>, hs: Heights, base: nat, c: seq<Instr>, xs: seq<nat>) {
    |code| == |hs.at| && |c| == |xs| && Has(code, base, c) && HasH(hs, base, xs)
  }

  lemma Split(code: seq<Instr>, hs: Heights, base: nat, a: seq<Instr>, b: seq<Instr>, xa: seq<nat>, xb: seq<nat>)
    requires Both(code, hs, base, a + b, xa + xb) && |a| == |xa|
    ensures Both(code, hs, base, a, xa) && Both(code, hs, base + |a|, b, xb)
  {
    HasSplit(code, base, a, b);
    assert (xa + xb)[..|xa|] == xa && (xa + xb)[|xa|..] == xb;
    assert hs.at[base..base + |xa|] == hs.at[base..base + |xa + xb|][..|xa|];
    assert hs.at[base + |xa|..base + |xa| + |xb|] == hs.at[base..base + |xa + xb|][|xa|..];
  }

  lemma Cell(code: seq<Instr>, hs: Heights, base: nat, c: seq<Instr>, xs: seq<nat>, k: nat)
    requires Both(code, hs, base, c, xs) && k < |c|
    ensures base + k < |code| && code[base + k] == c[k] && hs.at[base + k] == xs[k]
  {
    assert code[base..base + |c|][k] == code[base + k];
    assert hs.at[base..base + |xs|][k] == hs.at[base + k];
  }

  /** A fragment from height `h` to height `h'`. */
  ghost predicate Fine(code: seq<Instr>, hs: Heights, base: nat, c: seq<Instr>, h: nat, h': nat) {
    Region(code, hs, base, base + |c|) && HeightIs(hs, base, h) && HeightIs(hs, base + |c|, h')
  }

  lemma Joined(code: seq<Instr>, hs: Heights, base: nat, a: seq<Instr>, b: seq<Instr>, h: nat, m: nat, h': nat)
    requires Fine(code, hs, base, a, h, m) && Fine(code, hs, base + |a|, b, m, h')
    ensures Fine(code, hs, base, a + b, h, h')
  {
  }

  /** One instruction that does not jump. */
  lemma Single(code: seq<Instr>, hs: Heights, base: nat, i: Instr, h: nat)
    requires Both(code, hs, base, [i], [h]) && Wants(i) <= h && HeightIs(hs, base + 1, h + Net(i))
    requires !i.Jump? && !i.JumpIfFalse? && !i.JumpIfTrue? && !i.IterNext? && !i.Halt?
    ensures Fine(code, hs, base, [i], h, h + Net(i))
  {
    Cell(code, hs, base, [i], [h], 0);
  }

  // ----- code and heights have the same length -----

  lemma {:induction false} ExprLen(e: Expr, base: nat, id: nat, h: nat)
    ensures |ExprCode(e, base, id)| == |ExprHeights(e, h)|
    decreases e, 1
  {
    hide *;
    match e
    case Binary(_, _, _) => PairLen(e, base, id, h);
    case Index(_, _) => PairLen(e, base, id, h);
    case And(_, _) => LogicLen(e, base, id, h);
    case Or(_, _) => LogicLen(e, base, id, h);
    case Coalesce(_, _) => LogicLen(e, base, id, h);
    case Ternary(_, _, _) => ChoiceLen(e, base, id, h);
    case Comprehension(_, _, _, _) => CompLen(e, base, id, h);
    case _ => OtherLen(e, base, id, h);
  }

  lemma {:induction false} PairLen(e: Expr, base: nat, id: nat, h: nat)
    requires e.Binary? || e.Index?
    ensures |ExprCode(e, base, id)| == |ExprHeights(e, h)|
    decreases e, 0
  {
    hide ExprCode, Temps;
    var l, r := if e.Binary? then e.left else e.target, if e.Binary? then e.right else e.index;
    if e.Binary? { BinaryCode(e.op, l, r, base, id); } else { IndexCode(l, r, base, id); }
    ExprLen(l, base, id, h);
    ExprLen(r, base + |ExprCode(l, base, id)|, id + Temps(l), h + 1);
  }

  lemma {:induction false} LogicLen(e: Expr, base: nat, id: nat, h: nat)
    requires e.And? || e.Or? || e.Coalesce?
    ensures |ExprCode(e, base, id)| == |ExprHeights(e, h)|
    decreases e, 0
  {
    hide ExprCode, Temps;
    var l, r := e.left, e.right;
    if e.And? { AndCode(l, r, base, id); } else if e.Or? { OrCode(l, r, base, id); } else { CoalesceCode(l, r, base, id); }
    ExprLen(l, base, id, h);
    ExprLen(r, base + |ExprCode(l, base, id)| + (if e.And? then 1 else 3), id + Temps(l), h);
  }

  lemma {:induction false} ChoiceLen(e: Expr, base: nat, id: nat, h: nat)
    requires e.Ternary?
    ensures |ExprCode(e, base, id)| == |ExprHeights(e, h)|
    decreases e, 0
  {
    hide ExprCode, Temps;
    TernaryCode(e.cond, e.yes, e.no, base, id);
    ExprLen(e.cond, base, id, h);
    var p := base + |ExprCode(e.cond, base, id)| + 1;
    var i1 := id + Temps(e.cond);
    ExprLen(e.yes, p, i1, h);
    ExprLen(e.no, p + |ExprCode(e.yes, p, i1)| + 1, i1 + Temps(e.yes), h);
  }

  lemma {:induction false} OtherLen(e: Expr, base: nat, id: nat, h: nat)
    requires !e.Binary? && !e.Index? && !e.And? && !e.Or? && !e.Coalesce? && !e.Ternary? && !e.Comprehension?
    ensures |ExprCode(e, base, id)| == |ExprHeights(e, h)|
    decreases e, 0
  {
    hide ExprsCode, ExprsHeights, PartsCode, PartsHeights;
    match e
    case Unary(_, x) => ExprLen(x, base, id, h);
    case ListLit(es) => ExprsLen(es, base, id, h);
    case TupleLit(es) => ExprsLen(es, base, id, h);
    case SpreadLit(ps) => PartsLen(ps, SpreadTemp(id), base + 2, id + 1, h);
    case _ =>
  }

  lemma {:induction false} CompLen(e: Expr, base: nat, id: nat, h: nat)
    requires e.Comprehension?
    ensures |ExprCode(e, base, id)| == |ExprHeights(e, h)|
    decreases e, 0
  {
    hide ExprCode, Temps;
    CompCode(e.result, e.name, e.iterable, e.filter, base, id);
    ExprLen(e.iterable, base + 2, id, h);
    var start := base + 2 + |ExprCode(e.iterable, base + 2, id)| + 1;
    var i1 := id + Temps(e.iterable);
    var cf := OptCode(e.filter, start + 2, i1);
    if e.filter.Some? {
      ExprLen(e.filter.value, start + 2, i1, h + 1);
    }
    ExprLen(e.result, start + 2 + FilterSize(cf), i1 + TempsOpt(e.filter), h + 1);
  }

  lemma {:induction false} ExprsLen(es: Vec<Expr>, base: nat, id: nat, h: nat)
    ensures |ExprsCode(es, base, id)| == |ExprsHeights(es, h)|
    decreases es, 0
  {
    hide ExprCode, ExprHeights;
    if es.Cons? {
      ExprLen(es.head, base, id, h);
      ExprsLen(es.tail, base + |ExprCode(es.head, base, id)|, id + Temps(es.head), h + 1);
    }
  }

  lemma {:induction false} PartLen(p: Part, temp: Name, base: nat, id: nat, h: nat)
    ensures |PartCode(p, temp, base, id)| == |PartHeights(p, h)|
    decreases p, 0
  {
    hide ExprCode, ExprHeights;
    ExprLen(p.e, base, id, h);
  }

  lemma {:induction false} PartsLen(ps: Vec<Part>, temp: Name, base: nat, id: nat, h: nat)
    ensures |PartsCode(ps, temp, base, id)| == |PartsHeights(ps, h)|
    decreases ps, 0
  {
    hide PartCode, PartHeights, Temps;
    if ps.Cons? {
      PartLen(ps.head, temp, base, id, h);
      PartsLen(ps.tail, temp, base + |PartCode(ps.head, temp, base, id)|, id + Temps(ps.head.e), h);
    }
  }

  // ----- the shapes -----

  lemma AndFine(code: seq<Instr>, hs: Heights, base: nat, cl: seq<Instr>, cr: seq<Instr>, tail: seq<nat>, h: nat)
    requires Fine(code, hs, base, cl, h, h + 1) && Fine(code, hs, base + |cl| + 1, cr, h, h + 1)
    requires Both(code, hs, base + |cl|, [JumpIfFalse(base + |cl| + 1 + |cr| + 2)], [h + 1])
    requires var p := base + |cl| + 1 + |cr|;
             Both(code, hs, p, [CallBuiltin(BoolOf, 1), Jump(p + 3), ConstBool(false)], [h + 1, h + 1, h]) && HeightIs(hs, p + 3, h + 1)
    ensures Fine(code, hs, base, AndShape(base, cl, cr), h, h + 1)
  {
    hide Both, Region;
    var p := base + |cl| + 1 + |cr|;
    FalseFine(code, hs, p, h);
    GuardCell(code, hs, base + |cl|, p + 2, h);
    RegionJoin(code, hs, base, base + |cl|, base + |cl| + 1);
    RegionJoin(code, hs, base, base + |cl| + 1, p);
    RegionJoin(code, hs, base, p, p + 3);
  }

  lemma FalseFine(code: seq<Instr>, hs: Heights, p: nat, h: nat)
    requires Both(code, hs, p, [CallBuiltin(BoolOf, 1), Jump(p + 3), ConstBool(false)], [h + 1, h + 1, h])
    requires HeightIs(hs, p + 3, h + 1)
    ensures Region(code, hs, p, p + 3) && HeightIs(hs, p + 2, h)
  {
    var t := [CallBuiltin(BoolOf, 1), Jump(p + 3), ConstBool(false)];
    Cell(code, hs, p, t, [h + 1, h + 1, h], 0);
    Cell(code, hs, p, t, [h + 1, h + 1, h], 1);
    Cell(code, hs, p, t, [h + 1, h + 1, h], 2);
  }

  lemma RegionJoin(code: seq<Instr>, hs: Heights, lo: nat, mid: nat, hi: nat)
    requires Region(code, hs, lo, mid) && Region(code, hs, mid, hi)
    ensures Region(code, hs, lo, hi)
  {
  }

  /** Keeping a true value, dropping a false one. */
  lemma TestFine(code: seq<Instr>, hs: Heights, p: nat, t: nat, h: nat)
    requires Both(code, hs, p, [Dup, JumpIfTrue(t), Pop], [h + 1, h + 2, h + 1]) && HeightIs(hs, t, h + 1) && HeightIs(hs, p + 3, h)
    ensures Region(code, hs, p, p + 3)
  {
    var m := [Dup, JumpIfTrue(t), Pop];
    Cell(code, hs, p, m, [h + 1, h + 2, h + 1], 0);
    Cell(code, hs, p, m, [h + 1, h + 2, h + 1], 1);
    Cell(code, hs, p, m, [h + 1, h + 2, h + 1], 2);
  }

  lemma TrueFine(code: seq<Instr>, hs: Heights, p: nat, h: nat)
    requires Both(code, hs, p, [CallBuiltin(BoolOf, 1), Jump(p + 4), Pop, ConstBool(true)], [h + 1, h + 1, h + 1, h])
    requires HeightIs(hs, p + 4, h + 1)
    ensures Region(code, hs, p, p + 4) && HeightIs(hs, p + 2, h + 1)
  {
    var t := [CallBuiltin(BoolOf, 1), Jump(p + 4), Pop, ConstBool(true)];
    Cell(code, hs, p, t, [h + 1, h + 1, h + 1, h], 0);
    Cell(code, hs, p, t, [h + 1, h + 1, h + 1, h], 1);
    Cell(code, hs, p, t, [h + 1, h + 1, h + 1, h], 2);
    Cell(code, hs, p, t, [h + 1, h + 1, h + 1, h], 3);
  }

  lemma OrFine(code: seq<Instr>, hs: Heights, base: nat, cl: seq<Instr>, cr: seq<Instr>, h: nat)
    requires Fine(code, hs, base, cl, h, h + 1) && Fine(code, hs, base + |cl| + 3, cr, h, h + 1)
    requires Both(code, hs, base + |cl|, [Dup, JumpIfTrue(base + |cl| + 3 + |cr| + 2), Pop], [h + 1, h + 2, h + 1])
    requires var p := base + |cl| + 3 + |cr|;
             && Both(code, hs, p, [CallBuiltin(BoolOf, 1), Jump(p + 4), Pop, ConstBool(true)], [h + 1, h + 1, h + 1, h])
             && HeightIs(hs, p + 4, h + 1)
    ensures Fine(code, hs, base, OrShape(base, cl, cr), h, h + 1)
  {
    hide Both, Region;
    var p := base + |cl| + 3 + |cr|;
    TrueFine(code, hs, p, h);
    TestFine(code, hs, base + |cl|, p + 2, h);
    RegionJoin(code, hs, base, base + |cl|, base + |cl| + 3);
    RegionJoin(code, hs, base, base + |cl| + 3, p);
    RegionJoin(code, hs, base, p, p + 4);
  }

  lemma CoalesceFine(code: seq<Instr>, hs: Heights, base: nat, cl: seq<Instr>, cr: seq<Instr>, h: nat)
    requires Fine(code, hs, base, cl, h, h + 1) && Fine(code, hs, base + |cl| + 3, cr, h, h + 1)
    requires Both(code, hs, base + |cl|, [Dup, JumpIfTrue(base + |cl| + 3 + |cr|), Pop], [h + 1, h + 2, h + 1])
    ensures Fine(code, hs, base, CoalesceShape(base, cl, cr), h, h + 1)
  {
    hide Both, Region;
    var p := base + |cl| + 3 + |cr|;
    TestFine(code, hs, base + |cl|, p, h);
    RegionJoin(code, hs, base, base + |cl|, base + |cl| + 3);
    RegionJoin(code, hs, base, base + |cl| + 3, p);
  }

  /** One jump that falls through on a true condition. */
  lemma GuardCell(code: seq<Instr>, hs: Heights, p: nat, t: nat, h: nat)
    requires Both(code, hs, p, [JumpIfFalse(t)], [h + 1]) && HeightIs(hs, t, h) && HeightIs(hs, p + 1, h)
    ensures Region(code, hs, p, p + 1) && HeightIs(hs, p, h + 1)
  {
    Cell(code, hs, p, [JumpIfFalse(t)], [h + 1], 0);
  }

  lemma JumpCell(code: seq<Instr>, hs: Heights, p: nat, t: nat, h: nat)
    requires Both(code, hs, p, [Jump(t)], [h])
    ensures HeightIs(hs, p, h) && (HeightIs(hs, t, h) ==> Region(code, hs, p, p + 1))
  {
    Cell(code, hs, p, [Jump(t)], [h], 0);
  }

  lemma TernaryFine(code: seq<Instr>, hs: Heights, base: nat, cc: seq<Instr>, ca: seq<Instr>, cb: seq<Instr>, h: nat)
    requires Fine(code, hs, base, cc, h, h + 1) && Fine(code, hs, base + |cc| + 1, ca, h, h + 1)
    requires var other := base + |cc| + 1 + |ca| + 1;
             && Fine(code, hs, other, cb, h, h + 1)
             && Both(code, hs, base + |cc|, [JumpIfFalse(other)], [h + 1])
             && Both(code, hs, other - 1, [Jump(other + |cb|)], [h + 1])
    ensures Fine(code, hs, base, TernaryShape(base, cc, ca, cb), h, h + 1)
  {
    hide Both, Region;
    var at := base + |cc|;
    var other := at + 1 + |ca| + 1;
    GuardCell(code, hs, at, other, h);
    JumpCell(code, hs, other - 1, other + |cb|, h + 1);
    RegionJoin(code, hs, base, at, at + 1);
    RegionJoin(code, hs, base, at + 1, other - 1);
    RegionJoin(code, hs, base, other - 1, other);
    RegionJoin(code, hs, base, other, other + |cb|);
  }

  lemma AppendFine(code: seq<Instr>, hs: Heights, base: nat, temp: Name, h: nat)
    requires Both(code, hs, base, AppendCode(temp), AppendHeights(h)) && HeightIs(hs, base + 4, h)
    ensures Fine(code, hs, base, AppendCode(temp), h + 1, h)
  {
    Cell(code, hs, base, AppendCode(temp), AppendHeights(h), 0);
    Cell(code, hs, base, AppendCode(temp), AppendHeights(h), 1);
    Cell(code, hs, base, AppendCode(temp), AppendHeights(h), 2);
    Cell(code, hs, base, AppendCode(temp), AppendHeights(h), 3);
  }

  // ----- expressions -----

  ghost predicate At(code: seq<Instr>, hs: Heights, base: nat, e: Expr, id: nat, h: nat) {
    Both(code, hs, base, ExprCode(e, base, id), ExprHeights(e, h)) && HeightIs(hs, base + |ExprCode(e, base, id)|, h + 1)
  }

  /** The code of an expression takes the stack from a height to the next one. */
  lemma {:induction false} ExprFine(e: Expr, base: nat, id: nat, h: nat, code: seq<Instr>, hs: Heights)
    requires At(code, hs, base, e, id, h)
    ensures Fine(code, hs, base, ExprCode(e, base, id), h, h + 1)
    decreases e, 2
  {
    hide *;
    match e
    case Binary(_, _, _) => PairFine(e, base, id, h, code, hs);
    case Index(_, _) => PairFine(e, base, id, h, code, hs);
    case And(_, _) => ConjunctionFine(e, base, id, h, code, hs);
    case Or(_, _) => DisjunctionFine(e, base, id, h, code, hs);
    case Coalesce(_, _) => DefaultFine(e, base, id, h, code, hs);
    case Ternary(_, _, _) => ChoiceFine(e, base, id, h, code, hs);
    case ListLit(_) => ListFine(e, base, id, h, code, hs);
    case TupleLit(_) => ListFine(e, base, id, h, code, hs);
    case SpreadLit(_) => SpreadFine(e, base, id, h, code, hs);
    case Comprehension(_, _, _, _) => CompFine(e, base, id, h, code, hs);
    case Unary(_, _) => UnaryFine(e, base, id, h, code, hs);
    case IntLit(_) => LeafFine(e, base, id, h, code, hs);
    case BoolLit(_) => LeafFine(e, base, id, h, code, hs);
    case NullLit => LeafFine(e, base, id, h, code, hs);
    case StrLit(_) => LeafFine(e, base, id, h, code, hs);
    case Var(_) => LeafFine(e, base, id, h, code, hs);
  }

  lemma LeafFine(e: Expr, base: nat, id: nat, h: nat, code: seq<Instr>, hs: Heights)
    requires e.IntLit? || e.BoolLit? || e.NullLit? || e.StrLit? || e.Var?
    requires At(code, hs, base, e, id, h)
    ensures Fine(code, hs, base, ExprCode(e, base, id), h, h + 1)
  {
    hide Both, Fine;
    var i := ExprCode(e, base, id)[0];
    assert ExprCode(e, base, id) == [i] && ExprHeights(e, h) == [h];
    Single(code, hs, base, i, h);
  }

  lemma {:induction false} PairFine(e: Expr, base: nat, id: nat, h: nat, code: seq<Instr>, hs: Heights)
    requires e.Binary? || e.Index?
    requires At(code, hs, base, e, id, h)
    ensures Fine(code, hs, base, ExprCode(e, base, id), h, h + 1)
    decreases e, 1
  {
    hide Both, Fine, ExprCode, ExprHeights, Temps;
    var l, r := if e.Binary? then e.left else e.target, if e.Binary? then e.right else e.index;
    var i := if e.Binary? then Arith(e.op) else IndexGet;
    if e.Binary? { BinaryCode(e.op, l, r, base, id); } else { IndexCode(l, r, base, id); }
    var cl := ExprCode(l, base, id);
    var cr := ExprCode(r, base + |cl|, id + Temps(l));
    var xl, xr := ExprHeights(l, h), ExprHeights(r, h + 1);
    assert ExprHeights(e, h) == xl + xr + [h + 2] by { PairHeights(e, h); }
    ExprLen(l, base, id, h);
    ExprLen(r, base + |cl|, id + Temps(l), h + 1);
    Split(code, hs, base, cl + cr, [i], xl + xr, [h + 2]);
    Split(code, hs, base, cl, cr, xl, xr);
    Single(code, hs, base + |cl| + |cr|, i, h + 2);
    Starts(code, hs, base + |cl| + |cr|, [i], h + 2, h + 1);
    ExprFine(r, base + |cl|, id + Temps(l), h + 1, code, hs);
    Starts(code, hs, base + |cl|, cr, h + 1, h + 2);
    ExprFine(l, base, id, h, code, hs);
    Joined(code, hs, base, cl, cr, h, h + 1, h + 2);
    Joined(code, hs, base, cl + cr, [i], h, h + 2, h + 1);
  }

  lemma PairHeights(e: Expr, h: nat)
    requires e.Binary? || e.Index?
    ensures var l, r := if e.Binary? then e.left else e.target, if e.Binary? then e.right else e.index;
            ExprHeights(e, h) == ExprHeights(l, h) + ExprHeights(r, h + 1) + [h + 2]
  {
  }

  lemma Starts(code: seq<Instr>, hs: Heights, base: nat, c: seq<Instr>, h: nat, h': nat)
    requires Fine(code, hs, base, c, h, h')
    ensures HeightIs(hs, base, h) && HeightIs(hs, base + |c|, h')
  {
  }

  lemma {:induction false} UnaryFine(e: Expr, base: nat, id: nat, h: nat, code: seq<Instr>, hs: Heights)
    requires e.Unary? && At(code, hs, base, e, id, h)
    ensures Fine(code, hs, base, ExprCode(e, base, id), h, h + 1)
    decreases e, 1
  {
    hide Both, Fine;
    var c := ExprCode(e.operand, base, id);
    ExprLen(e.operand, base, id, h);
    Split(code, hs, base, c, [UnaryOp(e.uop)], ExprHeights(e.operand, h), [h + 1]);
    Single(code, hs, base + |c|, UnaryOp(e.uop), h + 1);
    Starts(code, hs, base + |c|, [UnaryOp(e.uop)], h + 1, h + 1);
    ExprFine(e.operand, base, id, h, code, hs);
    Joined(code, hs, base, c, [UnaryOp(e.uop)], h, h + 1, h + 1);
  }

  lemma CellHeight(code: seq<Instr>, hs: Heights, base: nat, c: seq<Instr>, xs: seq<nat>)
    requires Both(code, hs, base, c, xs) && c != []
    ensures HeightIs(hs, base, xs[0])
  {
    Cell(code, hs, base, c, xs, 0);
  }

  lemma {:induction false} ConjunctionFine(e: Expr, base: nat, id: nat, h: nat, code: seq<Instr>, hs: Heights)
    requires e.And? && At(code, hs, base, e, id, h)
    ensures Fine(code, hs, base, ExprCode(e, base, id), h, h + 1)
    decreases e, 1
  {
    hide Both, Fine, ExprCode, Temps;
    var l, r := e.left, e.right;
    var cl := ExprCode(l, base, id);
    var p := base + |cl| + 1;
    var cr := ExprCode(r, p, id + Temps(l));
    var q := p + |cr|;
    ExprLen(l, base, id, h);
    ExprLen(r, p, id + Temps(l), h);
    AndCode(l, r, base, id);
    var tail := [CallBuiltin(BoolOf, 1), Jump(q + 3), ConstBool(false)];
    Operands(code, hs, base, l, r, id, h, 1, [JumpIfFalse(q + 2)], [h + 1], tail, [h + 1, h + 1, h]);
    ExprFine(r, p, id + Temps(l), h, code, hs);
    ExprFine(l, base, id, h, code, hs);
    AndFine(code, hs, base, cl, cr, [h + 1, h + 1, h], h);
  }

  lemma {:induction false} DisjunctionFine(e: Expr, base: nat, id: nat, h: nat, code: seq<Instr>, hs: Heights)
    requires e.Or? && At(code, hs, base, e, id, h)
    ensures Fine(code, hs, base, ExprCode(e, base, id), h, h + 1)
    decreases e, 1
  {
    hide Both, Fine, ExprCode, Temps;
    var l, r := e.left, e.right;
    var cl := ExprCode(l, base, id);
    var p := base + |cl| + 3;
    var cr := ExprCode(r, p, id + Temps(l));
    var q := p + |cr|;
    ExprLen(l, base, id, h);
    ExprLen(r, p, id + Temps(l), h);
    OrCode(l, r, base, id);
    var tail := [CallBuiltin(BoolOf, 1), Jump(q + 4), Pop, ConstBool(true)];
    Operands(code, hs, base, l, r, id, h, 3, [Dup, JumpIfTrue(q + 2), Pop], [h + 1, h + 2, h + 1], tail, [h + 1, h + 1, h + 1, h]);
    ExprFine(r, p, id + Temps(l), h, code, hs);
    ExprFine(l, base, id, h, code, hs);
    OrFine(code, hs, base, cl, cr, h);
  }

  lemma {:induction false} DefaultFine(e: Expr, base: nat, id: nat, h: nat, code: seq<Instr>, hs: Heights)
    requires e.Coalesce? && At(code, hs, base, e, id, h)
    ensures Fine(code, hs, base, ExprCode(e, base, id), h, h + 1)
    decreases e, 1
  {
    hide Both, Fine, ExprCode, Temps;
    var l, r := e.left, e.right;
    var cl := ExprCode(l, base, id);
    var p := base + |cl| + 3;
    var cr := ExprCode(r, p, id + Temps(l));
    var q := p + |cr|;
    ExprLen(l, base, id, h);
    ExprLen(r, p, id + Temps(l), h);
    CoalesceCode(l, r, base, id);
    var mid := [Dup, JumpIfTrue(q), Pop];
    Split(code, hs, base, cl + mid, cr, ExprHeights(l, h) + [h + 1, h + 2, h + 1], ExprHeights(r, h));
    Split(code, hs, base, cl, mid, ExprHeights(l, h), [h + 1, h + 2, h + 1]);
    CellHeight(code, hs, base + |cl|, mid, [h + 1, h + 2, h + 1]);
    ExprFine(r, p, id + Temps(l), h, code, hs);
    ExprFine(l, base, id, h, code, hs);
    CoalesceFine(code, hs, base, cl, cr, h);
  }

  /** Two operands with code between them and behind them. */
  lemma Operands(code: seq<Instr>, hs: Heights, base: nat, l: Expr, r: Expr, id: nat, h: nat, gap: nat,
                 mid: seq<Instr>, xm: seq<nat>, tail: seq<Instr>, xt: seq<nat>)
    requires |mid| == |xm| == gap > 0 && |tail| == |xt| > 0 && xm[0] == h + 1 && xt[0] == h + 1
    requires |ExprHeights(l, h)| == |ExprCode(l, base, id)|
    requires var p := base + |ExprCode(l, base, id)| + gap;
             && |ExprHeights(r, h)| == |ExprCode(r, p, id + Temps(l))|
             && Both(code, hs, base, ExprCode(l, base, id) + mid + ExprCode(r, p, id + Temps(l)) + tail,
                     ExprHeights(l, h) + xm + ExprHeights(r, h) + xt)
    ensures var p := base + |ExprCode(l, base, id)| + gap;
            && At(code, hs, base, l, id, h) && At(code, hs, p, r, id + Temps(l), h)
            && Both(code, hs, base + |ExprCode(l, base, id)|, mid, xm)
            && Both(code, hs, p + |ExprCode(r, p, id + Temps(l))|, tail, xt)
  {
    hide Both, ExprCode, ExprHeights, Temps;
    var cl, xl := ExprCode(l, base, id), ExprHeights(l, h);
    var p := base + |cl| + gap;
    var cr, xr := ExprCode(r, p, id + Temps(l)), ExprHeights(r, h);
    Split(code, hs, base, cl + mid + cr, tail, xl + xm + xr, xt);
    Split(code, hs, base, cl + mid, cr, xl + xm, xr);
    Split(code, hs, base, cl, mid, xl, xm);
    CellHeight(code, hs, base + |cl|, mid, xm);
    CellHeight(code, hs, p + |cr|, tail, xt);
  }

  lemma {:induction false} ChoiceFine(e: Expr, base: nat, id: nat, h: nat, code: seq<Instr>, hs: Heights)
    requires e.Ternary? && At(code, hs, base, e, id, h)
    ensures Fine(code, hs, base, ExprCode(e, base, id), h, h + 1)
    decreases e, 1
  {
    hide Both, Fine, ExprCode, Temps;
    TernaryCode(e.cond, e.yes, e.no, base, id);
    var i1, i2 := id + Temps(e.cond), id + Temps(e.cond) + Temps(e.yes);
    var cc := ExprCode(e.cond, base, id);
    var p := base + |cc| + 1;
    var ca := ExprCode(e.yes, p, i1);
    var q := p + |ca| + 1;
    var cb := ExprCode(e.no, q, i2);
    var xc, xa, xb := ExprHeights(e.cond, h), ExprHeights(e.yes, h), ExprHeights(e.no, h);
    ExprLen(e.cond, base, id, h);
    ExprLen(e.yes, p, i1, h);
    ExprLen(e.no, q, i2, h);
    Split(code, hs, base, cc + [JumpIfFalse(q)] + ca + [Jump(q + |cb|)], cb, xc + [h + 1] + xa + [h + 1], xb);
    Split(code, hs, base, cc + [JumpIfFalse(q)] + ca, [Jump(q + |cb|)], xc + [h + 1] + xa, [h + 1]);
    Split(code, hs, base, cc + [JumpIfFalse(q)], ca, xc + [h + 1], xa);
    Split(code, hs, base, cc, [JumpIfFalse(q)], xc, [h + 1]);
    CellHeight(code, hs, base + |cc|, [JumpIfFalse(q)], [h + 1]);
    CellHeight(code, hs, q - 1, [Jump(q + |cb|)], [h + 1]);
    ExprFine(e.cond, base, id, h, code, hs);
    ExprFine(e.yes, p, i1, h, code, hs);
    ExprFine(e.no, q, i2, h, code, hs);
    TernaryFine(code, hs, base, cc, ca, cb, h);
  }

  lemma {:induction false} ListFine(e: Expr, base: nat, id: nat, h: nat, code: seq<Instr>, hs: Heights)
    requires (e.ListLit? || e.TupleLit?) && At(code, hs, base, e, id, h)
    ensures Fine(code, hs, base, ExprCode(e, base, id), h, h + 1)
    decreases e, 1
  {
    hide Both, Fine, ExprsCode, ExprsHeights, ExprCode, ExprHeights;
    var n := Len(e.exprs);
    var i := if e.ListLit? then NewList(n) else NewTuple(n);
    var c := ExprsCode(e.exprs, base, id);
    ListParts(e, base, id, h);
    ExprsLen(e.exprs, base, id, h);
    Split(code, hs, base, c, [i], ExprsHeights(e.exprs, h), [h + n]);
    CellHeight(code, hs, base + |c|, [i], [h + n]);
    ExprsFine(e.exprs, base, id, h, code, hs);
    Single(code, hs, base + |c|, i, h + n);
    Joined(code, hs, base, c, [i], h, h + n, h + 1);
  }

  lemma ListParts(e: Expr, base: nat, id: nat, h: nat)
    requires e.ListLit? || e.TupleLit?
    ensures var n := Len(e.exprs);
            && ExprCode(e, base, id) == ExprsCode(e.exprs, base, id) + [if e.ListLit? then NewList(n) else NewTuple(n)]
            && ExprHeights(e, h) == ExprsHeights(e.exprs, h) + [h + n]
  {
    hide ExprsCode, ExprsHeights;
  }

  lemma {:induction false} ExprsFine(es: Vec<Expr>, base: nat, id: nat, h: nat, code: seq<Instr>, hs: Heights)
    requires Both(code, hs, base, ExprsCode(es, base, id), ExprsHeights(es, h))
    requires HeightIs(hs, base + |ExprsCode(es, base, id)|, h + Len(es))
    ensures Fine(code, hs, base, ExprsCode(es, base, id), h, h + Len(es))
    decreases es, 0
  {
    hide Fine, ExprCode, ExprHeights, Temps, ExprsCode, ExprsHeights, Both, Len;
    ExprsParts(es, base, id, h);
    if es.Cons? {
      var c := ExprCode(es.head, base, id);
      var cs := ExprsCode(es.tail, base + |c|, id + Temps(es.head));
      ExprLen(es.head, base, id, h);
      ExprsLen(es.tail, base + |c|, id + Temps(es.head), h + 1);
      Split(code, hs, base, c, cs, ExprHeights(es.head, h), ExprsHeights(es.tail, h + 1));
      ExprsFine(es.tail, base + |c|, id + Temps(es.head), h + 1, code, hs);
      Starts(code, hs, base + |c|, cs, h + 1, h + Len(es));
      ExprFine(es.head, base, id, h, code, hs);
      Joined(code, hs, base, c, cs, h, h + 1, h + Len(es));
    } else {
      SameLengths(code, hs, base, ExprsCode(es, base, id), ExprsHeights(es, h));
      Nothing(code, hs, base, h);
    }
  }

  lemma SameLengths(code: seq<Instr>, hs: Heights, base: nat, c: seq<Instr>, xs: seq<nat>)
    requires Both(code, hs, base, c, xs)
    ensures |code| == |hs.at|
  {
  }

  lemma ExprsParts(es: Vec<Expr>, base: nat, id: nat, h: nat)
    ensures es.Nil? ==> ExprsCode(es, base, id) == [] && Len(es) == 0
    ensures es.Cons? ==>
              var c := ExprCode(es.head, base, id);
              && ExprsCode(es, base, id) == c + ExprsCode(es.tail, base + |c|, id + Temps(es.head))
              && ExprsHeights(es, h) == ExprHeights(es.head, h) + ExprsHeights(es.tail, h + 1)
              && Len(es) == Len(es.tail) + 1
  {
    hide ExprCode, ExprHeights, Temps;
  }

  lemma Nothing(code: seq<Instr>, hs: Heights, base: nat, h: nat)
    requires |code| == |hs.at| && HeightIs(hs, base, h)
    ensures Fine(code, hs, base, [], h, h)
  {
  }

  lemma {:induction false} SpreadFine(e: Expr, base: nat, id: nat, h: nat, code: seq<Instr>, hs: Heights)
    requires e.SpreadLit? && At(code, hs, base, e, id, h)
    ensures Fine(code, hs, base, ExprCode(e, base, id), h, h + 1)
    decreases e, 1
  {
    hide Both, Fine, ExprCode, PartsCode, PartsHeights;
    SpreadLitCode(e.parts, base, id);
    var temp := SpreadTemp(id);
    var c := PartsCode(e.parts, temp, base + 2, id + 1);
    var head := [NewList(0), StoreGlobal(temp)];
    PartsLen(e.parts, temp, base + 2, id + 1, h);
    Split(code, hs, base, head + c, [LoadGlobal(temp)], [h, h + 1] + PartsHeights(e.parts, h), [h]);
    Split(code, hs, base, head, c, [h, h + 1], PartsHeights(e.parts, h));
    CellHeight(code, hs, base + 2 + |c|, [LoadGlobal(temp)], [h]);
    Single(code, hs, base + 2 + |c|, LoadGlobal(temp), h);
    PartsFine(e.parts, temp, base + 2, id + 1, h, code, hs);
    Starts(code, hs, base + 2, c, h, h);
    NewListFine(code, hs, base, temp, h);
    Joined(code, hs, base, head, c, h, h, h);
    Joined(code, hs, base, head + c, [LoadGlobal(temp)], h, h, h + 1);
  }

  lemma NewListFine(code: seq<Instr>, hs: Heights, base: nat, temp: Name, h: nat)
    requires Both(code, hs, base, [NewList(0), StoreGlobal(temp)], [h, h + 1]) && HeightIs(hs, base + 2, h)
    ensures Fine(code, hs, base, [NewList(0), StoreGlobal(temp)], h, h)
  {
    Cell(code, hs, base, [NewList(0), StoreGlobal(temp)], [h, h + 1], 0);
    Cell(code, hs, base, [NewList(0), StoreGlobal(temp)], [h, h + 1], 1);
  }

  lemma {:induction false} PartsFine(ps: Vec<Part>, temp: Name, base: nat, id: nat, h: nat, code: seq<Instr>,
        hs: Heights)
    requires Both(code, hs, base, PartsCode(ps, temp, base, id), PartsHeights(ps, h))
    requires HeightIs(hs, base + |PartsCode(ps, temp, base, id)|, h)
    ensures Fine(code, hs, base, PartsCode(ps, temp, base, id), h, h)
    decreases ps, 0
  {
    hide Fine, PartCode, PartHeights, Temps;
    if ps.Cons? {
      hide Both;
      var c := PartCode(ps.head, temp, base, id);
      var cs := PartsCode(ps.tail, temp, base + |c|, id + Temps(ps.head.e));
      PartLen(ps.head, temp, base, id, h);
      PartsLen(ps.tail, temp, base + |c|, id + Temps(ps.head.e), h);
      Split(code, hs, base, c, cs, PartHeights(ps.head, h), PartsHeights(ps.tail, h));
      PartsFine(ps.tail, temp, base + |c|, id + Temps(ps.head.e), h, code, hs);
      Starts(code, hs, base + |c|, cs, h, h);
      PartFine(ps.head, temp, base, id, h, code, hs);
      Joined(code, hs, base, c, cs, h, h, h);
    } else {
      Nothing(code, hs, base, h);
    }
  }

  lemma {:induction false} PartFine(p: Part, temp: Name, base: nat, id: nat, h: nat, code: seq<Instr>, hs: Heights)
    requires Both(code, hs, base, PartCode(p, temp, base, id), PartHeights(p, h))
    requires HeightIs(hs, base + |PartCode(p, temp, base, id)|, h)
    ensures Fine(code, hs, base, PartCode(p, temp, base, id), h, h)
    decreases p, 0
  {
    hide Both, Fine, ExprCode, ExprHeights, AppendCode, AppendHeights;
    var c := ExprCode(p.e, base, id);
    ExprLen(p.e, base, id, h);
    AppendLens(temp, h);
    if p.Plain? {
      Split(code, hs, base, c, AppendCode(temp), ExprHeights(p.e, h), AppendHeights(h));
      AppendFine(code, hs, base + |c|, temp, h);
      Starts(code, hs, base + |c|, AppendCode(temp), h + 1, h);
      ExprFine(p.e, base, id, h, code, hs);
      Joined(code, hs, base, c, AppendCode(temp), h, h + 1, h);
    } else {
      var start := base + |c| + 1;
      var loop := [Iter, IterNext(start + 1, start + 6)] + AppendCode(temp) + [Jump(start)];
      var xs := [h + 1, h + 1] + AppendHeights(h + 1) + [h + 1];
      assert SpreadShape(base, c, temp) == c + loop;
      Split(code, hs, base, c, loop, ExprHeights(p.e, h), xs);
      LoopFine(code, hs, base + |c|, temp, h);
      Starts(code, hs, base + |c|, loop, h + 1, h);
      ExprFine(p.e, base, id, h, code, hs);
      Joined(code, hs, base, c, loop, h, h + 1, h);
    }
  }

  lemma AppendLens(temp: Name, h: nat)
    ensures |AppendCode(temp)| == 4 && |AppendHeights(h)| == 4 && |AppendHeights(h + 1)| == 4 && AppendHeights(h)[0] == h + 1
  {
  }

  /** The loop that spreads an iterable. */
  lemma LoopFine(code: seq<Instr>, hs: Heights, base: nat, temp: Name, h: nat)
    requires Both(code, hs, base, [Iter, IterNext(base + 2, base + 7)] + AppendCode(temp) + [Jump(base + 1)],
                  [h + 1, h + 1] + AppendHeights(h + 1) + [h + 1])
    requires HeightIs(hs, base + 7, h)
    ensures Fine(code, hs, base, [Iter, IterNext(base + 2, base + 7)] + AppendCode(temp) + [Jump(base + 1)], h + 1, h)
  {
    hide Both, AppendCode, AppendHeights;
    var head := [Iter, IterNext(base + 2, base + 7)];
    AppendLens(temp, h);
    AppendLens(temp, h + 1);
    Split(code, hs, base, head + AppendCode(temp), [Jump(base + 1)], [h + 1, h + 1] + AppendHeights(h + 1), [h + 1]);
    Split(code, hs, base, head, AppendCode(temp), [h + 1, h + 1], AppendHeights(h + 1));
    Cell(code, hs, base + 6, [Jump(base + 1)], [h + 1], 0);
    Cell(code, hs, base, head, [h + 1, h + 1], 0);
    Cell(code, hs, base, head, [h + 1, h + 1], 1);
    AppendFine(code, hs, base + 2, temp, h + 1);
  }

  /** The pieces of a comprehension's code with their heights: the new list, the iterable, the head of
      the loop, the filter, the result, and the rest. */
  lemma CompSplit(code: seq<Instr>, hs: Heights, base: nat, head: seq<Instr>, cit: seq<Instr>, mid: seq<Instr>,
        flt: seq<Instr>, cr: seq<Instr>, app: seq<Instr>, tail: seq<Instr>, xh: seq<nat>, xit: seq<nat>, xm: seq<nat>,
        xf: seq<nat>, xr: seq<nat>, xa: seq<nat>, xt: seq<nat>)
    requires |head| == |xh| && |cit| == |xit| && |mid| == |xm| && |flt| == |xf| && |cr| == |xr| && |app| == |xa|
    requires Both(code, hs, base, head + cit + mid + flt + cr + app + tail, xh + xit + xm + xf + xr + xa + xt)
    ensures Both(code, hs, base, head, xh) && Both(code, hs, base + |head|, cit, xit)
    ensures var p := base + |head| + |cit|;
            && Both(code, hs, p, mid, xm) && Both(code, hs, p + |mid|, flt, xf)
            && Both(code, hs, p + |mid| + |flt|, cr, xr) && Both(code, hs, p + |mid| + |flt| + |cr|, app, xa)
            && Both(code, hs, p + |mid| + |flt| + |cr| + |app|, tail, xt)
  {
    hide Both;
    Split(code, hs, base, head + cit + mid + flt + cr + app, tail, xh + xit + xm + xf + xr + xa, xt);
    Split(code, hs, base, head + cit + mid + flt + cr, app, xh + xit + xm + xf + xr, xa);
    Split(code, hs, base, head + cit + mid + flt, cr, xh + xit + xm + xf, xr);
    Split(code, hs, base, head + cit + mid, flt, xh + xit + xm, xf);
    Split(code, hs, base, head + cit, mid, xh + xit, xm);
    Split(code, hs, base, head, cit, xh, xit);
  }

  /** The pieces fit together. */
  lemma CompJoin(code: seq<Instr>, hs: Heights, base: nat, head: seq<Instr>, cit: seq<Instr>, mid: seq<Instr>,
        flt: seq<Instr>, cr: seq<Instr>, app: seq<Instr>, tail: seq<Instr>, h: nat)
    requires Fine(code, hs, base, head, h, h) && Fine(code, hs, base + |head|, cit, h, h + 1)
    requires var p := base + |head| + |cit|;
             && Fine(code, hs, p, mid, h + 1, h + 1) && Fine(code, hs, p + |mid|, flt, h + 1, h + 1)
             && Fine(code, hs, p + |mid| + |flt|, cr, h + 1, h + 2)
             && Fine(code, hs, p + |mid| + |flt| + |cr|, app, h + 2, h + 1)
             && var q := p + |mid| + |flt| + |cr| + |app|;
                Region(code, hs, q, q + |tail|) && HeightIs(hs, q + |tail|, h + 1)
    ensures Fine(code, hs, base, head + cit + mid + flt + cr + app + tail, h, h + 1)
  {
    hide Fine;
    Joined(code, hs, base, head, cit, h, h, h + 1);
    Joined(code, hs, base, head + cit, mid, h, h + 1, h + 1);
    Joined(code, hs, base, head + cit + mid, flt, h, h + 1, h + 1);
    Joined(code, hs, base, head + cit + mid + flt, cr, h, h + 1, h + 2);
    Joined(code, hs, base, head + cit + mid + flt + cr, app, h, h + 2, h + 1);
    Whole(code, hs, base, head + cit + mid + flt + cr + app, tail, h, h + 1);
  }

  lemma {:induction false} CompFine(e: Expr, base: nat, id: nat, h: nat, code: seq<Instr>, hs: Heights)
    requires e.Comprehension? && At(code, hs, base, e, id, h)
    ensures Fine(code, hs, base, ExprCode(e, base, id), h, h + 1)
    decreases e, 1
  {
    hide Both, Fine, Region, ExprCode, Temps, AppendCode, AppendHeights, FilterShape, FilterHeights, FilterSize,
      OptCode, TempsOpt, ExprHeights;
    CompCode(e.result, e.name, e.iterable, e.filter, base, id);
    CompHeights(e, h);
    var x := User(e.name);
    var cit := ExprCode(e.iterable, base + 2, id);
    var start := base + 2 + |cit| + 1;
    var i1 := id + Temps(e.iterable);
    var i2 := i1 + TempsOpt(e.filter);
    var cf := OptCode(e.filter, start + 2, i1);
    var p := start + 2 + FilterSize(cf);
    var cr := ExprCode(e.result, p, i2);
    var again := p + |cr| + 4;
    var flt, app := FilterShape(cf, again), AppendCode(COLLECTED);
    var head, xh := [NewList(0), StoreGlobal(COLLECTED)], [h, h + 1];
    var mid, xm := [Iter, IterNext(start + 1, again + 1), StoreGlobal(x)], [h + 1, h + 1, h + 2];
    var tail, xt := [Jump(start), LoadGlobal(COLLECTED)], [h + 1, h];
    ExprLen(e.iterable, base + 2, id, h);
    ExprLen(e.result, p, i2, h + 1);
    FilterLens(e.filter, start + 2, i1, again, h + 1);
    AppendLens(COLLECTED, h);
    CompSplit(code, hs, base, head, cit, mid, flt, cr, app, tail, xh, ExprHeights(e.iterable, h), xm,
              FilterHeights(e.filter, h + 1), ExprHeights(e.result, h + 1), AppendHeights(h + 1), xt);
    CompPieces(e, base, id, h, code, hs, cit, start, i1, i2, p, cr, again, flt);
    CompJoin(code, hs, base, head, cit, mid, flt, cr, app, tail, h);
  }

  /** Each piece is fine; the places between them get their heights from the back to the front. */
  lemma {:induction false} CompPieces(e: Expr, base: nat, id: nat, h: nat, code: seq<Instr>, hs: Heights,
        cit: seq<Instr>, start: nat, i1: nat, i2: nat, p: nat, cr: seq<Instr>, again: nat, flt: seq<Instr>)
    requires e.Comprehension? && HeightIs(hs, again + 2, h + 1)
    requires cit == ExprCode(e.iterable, base + 2, id) && start == base + 2 + |cit| + 1
    requires flt == FilterShape(OptCode(e.filter, start + 2, i1), again) && p == start + 2 + |flt|
    requires cr == ExprCode(e.result, p, i2) && again == p + |cr| + 4
    requires Both(code, hs, base, [NewList(0), StoreGlobal(COLLECTED)], [h, h + 1])
    requires Both(code, hs, base + 2, cit, ExprHeights(e.iterable, h))
    requires Both(code, hs, start - 1, [Iter, IterNext(start + 1, again + 1), StoreGlobal(User(e.name))], [h + 1, h + 1, h + 2])
    requires Both(code, hs, start + 2, flt, FilterHeights(e.filter, h + 1))
    requires Both(code, hs, p, cr, ExprHeights(e.result, h + 1))
    requires Both(code, hs, again - 4, AppendCode(COLLECTED), AppendHeights(h + 1))
    requires Both(code, hs, again, [Jump(start), LoadGlobal(COLLECTED)], [h + 1, h])
    ensures Fine(code, hs, base, [NewList(0), StoreGlobal(COLLECTED)], h, h) && Fine(code, hs, base + 2, cit, h, h + 1)
    ensures Fine(code, hs, start - 1, [Iter, IterNext(start + 1, again + 1), StoreGlobal(User(e.name))], h + 1, h + 1)
    ensures Fine(code, hs, start + 2, flt, h + 1, h + 1) && Fine(code, hs, p, cr, h + 1, h + 2)
    ensures Fine(code, hs, again - 4, AppendCode(COLLECTED), h + 2, h + 1) && Region(code, hs, again, again + 2)
    decreases e, 0
  {
    hide Both, Fine, Region, ExprCode, AppendCode, AppendHeights, FilterShape, FilterHeights, OptCode, ExprHeights;
    var x := User(e.name);
    AppendLens(COLLECTED, h);
    TailFine(code, hs, again, start, h);
    CellHeight(code, hs, start - 1, [Iter, IterNext(start + 1, again + 1), StoreGlobal(x)], [h + 1, h + 1, h + 2]);
    CompMidHeight(code, hs, start, again, x, h);
    AppendFine(code, hs, again - 4, COLLECTED, h + 1);
    Starts(code, hs, again - 4, AppendCode(COLLECTED), h + 2, h + 1);
    ExprFine(e.result, p, i2, h + 1, code, hs);
    Starts(code, hs, p, cr, h + 1, h + 2);
    FilterFine(e.filter, start + 2, i1, again, h + 1, code, hs);
    Starts(code, hs, start + 2, flt, h + 1, h + 1);
    CompMidFine(code, hs, start, again, x, h);
    ExprFine(e.iterable, base + 2, id, h, code, hs);
    Starts(code, hs, base + 2, cit, h, h + 1);
    NewListFine(code, hs, base, COLLECTED, h);
  }

  lemma CompHeights(e: Expr, h: nat)
    requires e.Comprehension?
    ensures ExprHeights(e, h)
         == [h, h + 1] + ExprHeights(e.iterable, h) + [h + 1, h + 1, h + 2] + FilterHeights(e.filter, h + 1)
            + ExprHeights(e.result, h + 1) + AppendHeights(h + 1) + [h + 1, h]
  {
    hide FilterHeights, AppendHeights;
  }

  /** The jump back and the load behind it, which only the loop's exit reaches. */
  lemma TailFine(code: seq<Instr>, hs: Heights, again: nat, start: nat, h: nat)
    requires Both(code, hs, again, [Jump(start), LoadGlobal(COLLECTED)], [h + 1, h]) && HeightIs(hs, again + 2, h + 1)
    ensures HeightIs(hs, again, h + 1) && HeightIs(hs, again + 1, h)
    ensures HeightIs(hs, start, h + 1) ==> Region(code, hs, again, again + 2)
  {
    Cell(code, hs, again, [Jump(start), LoadGlobal(COLLECTED)], [h + 1, h], 0);
    Cell(code, hs, again, [Jump(start), LoadGlobal(COLLECTED)], [h + 1, h], 1);
  }

  lemma CompMidHeight(code: seq<Instr>, hs: Heights, start: nat, again: nat, x: Name, h: nat)
    requires start > 0 && Both(code, hs, start - 1, [Iter, IterNext(start + 1, again + 1), StoreGlobal(x)], [h + 1, h + 1, h + 2])
    ensures HeightIs(hs, start, h + 1)
  {
    Cell(code, hs, start - 1, [Iter, IterNext(start + 1, again + 1), StoreGlobal(x)], [h + 1, h + 1, h + 2], 1);
  }

  lemma CompMidFine(code: seq<Instr>, hs: Heights, start: nat, again: nat, x: Name, h: nat)
    requires start > 0 && Both(code, hs, start - 1, [Iter, IterNext(start + 1, again + 1), StoreGlobal(x)], [h + 1, h + 1, h + 2])
    requires HeightIs(hs, again + 1, h) && HeightIs(hs, start + 2, h + 1)
    ensures Fine(code, hs, start - 1, [Iter, IterNext(start + 1, again + 1), StoreGlobal(x)], h + 1, h + 1)
  {
    var mid := [Iter, IterNext(start + 1, again + 1), StoreGlobal(x)];
    Cell(code, hs, start - 1, mid, [h + 1, h + 1, h + 2], 0);
    Cell(code, hs, start - 1, mid, [h + 1, h + 1, h + 2], 1);
    Cell(code, hs, start - 1, mid, [h + 1, h + 1, h + 2], 2);
  }

  lemma Whole(code: seq<Instr>, hs: Heights, base: nat, a: seq<Instr>, b: seq<Instr>, h: nat, h': nat)
    requires Fine(code, hs, base, a, h, h') && Region(code, hs, base + |a|, base + |a| + |b|) && HeightIs(hs, base + |a| + |b|, h')
    ensures Fine(code, hs, base, a + b, h, h')
  {
  }

  lemma FilterLens(f: Option<Expr>, base: nat, id: nat, again: nat, h: nat)
    ensures var cf := OptCode(f, base, id);
            |FilterShape(cf, again)| == FilterSize(cf) == |FilterHeights(f, h)|
  {
    hide ExprCode, ExprHeights;
    if f.Some? {
      ExprLen(f.value, base, id, h);
    }
  }

  lemma {:induction false} FilterFine(f: Option<Expr>, base: nat, id: nat, again: nat, h: nat, code: seq<Instr>,
        hs: Heights)
    requires var c := FilterShape(OptCode(f, base, id), again);
             Both(code, hs, base, c, FilterHeights(f, h)) && HeightIs(hs, base + |c|, h) && HeightIs(hs, again, h)
    ensures Fine(code, hs, base, FilterShape(OptCode(f, base, id), again), h, h)
    decreases f, 3
  {
    hide Both, ExprCode, ExprHeights;
    if f.Some? {
      var c := ExprCode(f.value, base, id);
      ExprLen(f.value, base, id, h);
      Split(code, hs, base, c, [JumpIfFalse(again)], ExprHeights(f.value, h), [h + 1]);
      Cell(code, hs, base + |c|, [JumpIfFalse(again)], [h + 1], 0);
      ExprFine(f.value, base, id, h, code, hs);
    } else {
      BothLen(code, hs, base, [], []);
      Nothing(code, hs, base, h);
    }
  }

  lemma BothLen(code: seq<Instr>, hs: Heights, base: nat, c: seq<Instr>, xs: seq<nat>)
    requires Both(code, hs, base, c, xs)
    ensures |code| == |hs.at|
  {
  }
}
