/** Where the bytecode departs from what is documented whatever the values are: an update of an element of
    an element. */
module Quirks {
  import opened Values
  import opened Ast
  import opened Source
  import opened Exits
  import opened Bytecode
  import opened Layout
  import opened BytecodeExprs
  import opened BytecodePrograms

  // ----- an element of an element -----

  function Update(m: Name, op: BinOp, ci: seq<Instr>, cj: seq<Instr>, cv: seq<Instr>, cj2: seq<Instr>,
        ci2: seq<Instr>): seq<Instr> {
    [LoadGlobal(m)] + [Dup] + ci + [IndexGet] + cj + [IndexGet] + cv + [Arith(op)] + cj2 + [Swap, IndexSet] + ci2
    + [Swap, IndexSet, StoreGlobal(m)]
  }

  /** The parts of `m[i][j] op= v`, the indices twice, with their places and temporaries. */
  datatype Parts = Parts(m: string, i: Expr, j: Expr, op: BinOp, v: Expr, base: nat, id: nat) {
    function Ci(): seq<Instr> { ExprCode(i, base + 2, id) }
    function P(): nat { base + 2 + |Ci()| + 1 }
    function Cj(): seq<Instr> { ExprCode(j, P(), id + Temps(i)) }
    function Q(): nat { P() + |Cj()| + 1 }
    function Cv(): seq<Instr> { ExprCode(v, Q(), id + Temps(i) + Temps(j)) }
    function R(): nat { Q() + |Cv()| + 1 }
    function Id2(): nat { id + Temps(i) + Temps(j) + Temps(v) }
    function Cj2(): seq<Instr> { ExprCode(j, R(), Id2()) }
    function T(): nat { R() + |Cj2()| + 2 }
    function Ci2(): seq<Instr> { ExprCode(i, T(), Id2() + Temps(j)) }
  }

  /** The code for `m[i][j] op= v` as the compiler emits it. */
  function ElementUpdate(u: Parts): seq<Instr> {
    Update(User(u.m), u.op, u.Ci(), u.Cj(), u.Cv(), u.Cj2(), u.Ci2())
  }

  /** A statement starts with iterator handles on the stack, or with nothing. */
  predicate Handles(stack: seq<Value>) {
    forall k :: 0 <= k < |stack| ==> stack[k].Int?
  }

  /** Continue an evaluation: either it has failed, or one more value is on the stack. */
  lemma Push(e: Expr, base: nat, id: nat, code: seq<Instr>, c: Config, n: nat, c1: Config, st: Store)
    returns (failed: bool, m: nat, c2: Config, st2: Store, v: Value)
    requires Run(code, Running(c), n) == Running(c1) && Ready(e, base, id, code, c1, st)
    ensures failed ==> Run(code, Running(c), m).Failed?
    ensures !failed ==>
      && Run(code, Running(c), m) == Running(c2) && c2.pc == base + |ExprCode(e, base, id)|
      && c2.stack == c1.stack + [v] && Agrees(st2, c2.globals)
  {
    hide Run, ExprCode, Eval, Agrees, TempsKept, Has;
    var k, c3 := ExprRuns(e, base, id, code, c1, st);
    Then(code, c, n, c1, k);
    m, c2 := n + k, c3;
    var r := Eval(Compiled, e, st);
    failed := r.Fail?;
    if failed {
      st2, v := st, Null;
    } else {
      Landed(e, base, id, code, c1, st, k, c3);
      st2, v := r.st, r.value;
    }
  }

  lemma UpdateSplit(code: seq<Instr>, base: nat, m: Name, op: BinOp, ci: seq<Instr>, cj: seq<Instr>, cv: seq<Instr>,
                    cj2: seq<Instr>, ci2: seq<Instr>)
    requires Has(code, base, Update(m, op, ci, cj, cv, cj2, ci2))
    ensures var p := base + 2 + |ci| + 1;
            var q := p + |cj| + 1;
            var r := q + |cv| + 1;
            var t := r + |cj2| + 2;
            && Has(code, base, [LoadGlobal(m)]) && Has(code, base + 1, [Dup]) && Has(code, base + 2, ci) && Has(code, p - 1, [IndexGet])
            && Has(code, p, cj) && Has(code, q - 1, [IndexGet]) && Has(code, q, cv) && Has(code, r - 1, [Arith(op)])
            && Has(code, r, cj2) && Has(code, t - 2, [Swap, IndexSet]) && Has(code, t, ci2)
            && Has(code, t + |ci2|, [Swap, IndexSet, StoreGlobal(m)])
  {
    hide Has;
    var a := [LoadGlobal(m)] + [Dup];
    var b := a + ci + [IndexGet] + cj + [IndexGet];
    var d := b + cv + [Arith(op)];
    HasSplit(code, base, d + cj2 + [Swap, IndexSet] + ci2, [Swap, IndexSet, StoreGlobal(m)]);
    HasSplit(code, base, d + cj2 + [Swap, IndexSet], ci2);
    HasSplit(code, base, d + cj2, [Swap, IndexSet]);
    HasSplit(code, base, d, cj2);
    HasSplit(code, base, b + cv, [Arith(op)]);
    HasSplit(code, base, b, cv);
    HasSplit(code, base, a + ci + [IndexGet] + cj, [IndexGet]);
    HasSplit(code, base, a + ci + [IndexGet], cj);
    HasSplit(code, base, a + ci, [IndexGet]);
    HasSplit(code, base, a, ci);
    HasSplit(code, base, [LoadGlobal(m)], [Dup]);
  }

  /** The last element assignment takes the modified row for the value, the row number for the index
      and, for the container, whatever lay below: nothing, or the handle of a loop around. */
  lemma LastStore(code: seq<Instr>, at: nat, m: Name, c: Config, n: nat, c1: Config, row: Value,
        i: Value) returns (k: nat)
    requires Has(code, at, [Swap, IndexSet, StoreGlobal(m)]) && Handles(c.stack)
    requires Run(code, Running(c), n) == Running(c1) && c1.pc == at && c1.stack == c.stack + [row, i]
    ensures Run(code, Running(c), k).Failed?
  {
    hide Run;
    HasHead(code, at, Swap, [IndexSet, StoreGlobal(m)]);
    HasHead(code, at + 1, IndexSet, [StoreGlobal(m)]);
    var s;
    k, s := Hop(code, c, n, c1, Swap);
    assert Drop(c1.stack, 2) == c.stack;
    assert s.c.stack == c.stack + [i, row];
    k, s := Hop(code, c, k, s.c, IndexSet);
  }

  ghost predicate UpdateReady(u: Parts, code: seq<Instr>, c: Config, st: Store) {
    && Has(code, u.base, ElementUpdate(u)) && c.pc == u.base && Agrees(st, c.globals)
    && Handles(c.stack)
  }

  /** One value above the old stack, at `pc`. */
  ghost predicate Stands(code: seq<Instr>, c: Config, n: nat, c1: Config, pc: nat, vs: seq<Value>, st: Store) {
    Run(code, Running(c), n) == Running(c1) && c1.pc == pc && c1.stack == c.stack + vs && Agrees(st, c1.globals)
  }

  /** Up to the row: `m`, and below it nothing new. */
  lemma FetchRow(u: Parts, code: seq<Instr>, c: Config, st: Store)
    returns (failed: bool, n: nat, c1: Config, st1: Store, box: Value, row: Value)
    requires UpdateReady(u, code, c, st)
    ensures failed ==> Run(code, Running(c), n).Failed?
    ensures !failed ==> Stands(code, c, n, c1, u.P(), [box, row], st1)
  {
    hide Run, ExprCode, Temps, Agrees, Has, IndexValue, BinaryValues, Handles, Update;
    UpdateSplit(code, u.base, User(u.m), u.op, u.Ci(), u.Cj(), u.Cv(), u.Cj2(), u.Ci2());
    RunZero(code, c);
    HasOne(code, u.base, LoadGlobal(User(u.m)));
    HasOne(code, u.base + 1, Dup);
    var s;
    n, s := Hop(code, c, 0, c, LoadGlobal(User(u.m)));
    box := Global(c.globals, User(u.m));
    n, s := Hop(code, c, n, s.c, Dup);
    assert s.c.stack == c.stack + [box] + [box];
    var x;
    failed, n, c1, st1, x := Push(u.i, u.base + 2, u.id, code, c, n, s.c, st);
    row := Null;
    if !failed {
      HasOne(code, u.P() - 1, IndexGet);
      n, s := Two(code, c, n, c1, IndexGet, c.stack + [box], box, x);
      failed := s.Failed?;
      if !failed {
        c1, row := s.c, s.c.stack[|c.stack| + 1];
        assert c1.stack == c.stack + [box, row];
      }
    }
  }

  /** An operand and an instruction that combines it with the value on top. */
  lemma Combine(e: Expr, at: nat, id: nat, i: Instr, code: seq<Instr>, c: Config, n: nat, c1: Config, st: Store,
        box: Value, a: Value)
    returns (failed: bool, m: nat, c2: Config, st2: Store, b: Value)
    requires Stands(code, c, n, c1, at, [box, a], st) && (i.IndexGet? || i.Arith?)
    requires Has(code, at, ExprCode(e, at, id)) && Has(code, at + |ExprCode(e, at, id)|, [i])
    ensures failed ==> Run(code, Running(c), m).Failed?
    ensures !failed ==> Stands(code, c, m, c2, at + |ExprCode(e, at, id)| + 1, [box, b], st2)
  {
    hide Run, ExprCode, Agrees, Has, IndexValue, BinaryValues;
    var x, s;
    b := Null;
    failed, m, c2, st2, x := Push(e, at, id, code, c, n, c1, st);
    if !failed {
      HasOne(code, c2.pc, i);
      assert c2.stack == c.stack + [box] + [a] + [x];
      m, s := Two(code, c, m, c2, i, c.stack + [box], a, x);
      failed := s.Failed?;
      if !failed {
        c2, b := s.c, s.c.stack[|c.stack| + 1];
        assert c2.stack == c.stack + [box, b];
      }
    }
  }

  /** `m[i][j] op= v` never succeeds, whatever `m` holds: one of its parts fails, or its last step does. */
  lemma ElementUpdateFails(u: Parts, code: seq<Instr>, c: Config, st: Store) returns (n: nat)
    requires UpdateReady(u, code, c, st)
    ensures Run(code, Running(c), n).Failed?
  {
    hide Run, ExprCode, Temps, Agrees, Has, Handles, Update;
    UpdateSplit(code, u.base, User(u.m), u.op, u.Ci(), u.Cj(), u.Cv(), u.Cj2(), u.Ci2());
    var failed, c1, st1, box, a;
    failed, n, c1, st1, box, a := FetchRow(u, code, c, st);
    if failed { return; }
    failed, n, c1, st1, a := Combine(u.j, u.P(), u.id + Temps(u.i), IndexGet, code, c, n, c1, st1, box, a);
    if failed { return; }
    failed, n, c1, st1, a := Combine(u.v, u.Q(), u.id + Temps(u.i) + Temps(u.j), Arith(u.op), code, c, n, c1, st1, box, a);
    if failed { return; }
    n := Finish(u, code, c, n, c1, st1, box, a);
  }

  lemma Finish(u: Parts, code: seq<Instr>, c: Config, n: nat, c1: Config, st: Store, box: Value,
        a: Value) returns (k: nat)
    requires Stands(code, c, n, c1, u.R(), [box, a], st) && Handles(c.stack)
    requires Has(code, u.R(), u.Cj2()) && Has(code, u.T() - 2, [Swap, IndexSet]) && Has(code, u.T(), u.Ci2())
    requires Has(code, u.T() + |u.Ci2()|, [Swap, IndexSet, StoreGlobal(User(u.m))])
    ensures Run(code, Running(c), k).Failed?
  {
    hide Run, ExprCode, Temps, Agrees, Has, Handles;
    var failed, c2, st2, x, s;
    failed, k, c2, st2, x := Push(u.j, u.R(), u.Id2(), code, c, n, c1, st);
    if failed { return; }
    assert c2.stack == c.stack + [box] + [a] + [x];
    k, s := RowStore(code, u.T() - 2, c, k, c2, box, a, x);
    if s.Failed? { return; }
    var row := s.c.stack[|c.stack|];
    failed, k, c2, st2, x := Push(u.i, u.T(), u.Id2() + Temps(u.j), code, c, k, s.c, st2);
    if failed { return; }
    assert c2.stack == c.stack + [row, x];
    k := LastStore(code, u.T() + |u.Ci2()|, User(u.m), c, k, c2, row, x);
  }

  /** An instruction that replaces the two values on top by one, or fails. */
  lemma Two(code: seq<Instr>, c: Config, n: nat, c1: Config, i: Instr, below: seq<Value>, a: Value, b: Value)
    returns (m: nat, s: Status)
    requires Run(code, Running(c), n) == Running(c1) && c1.pc < |code| && code[c1.pc] == i && (i.IndexGet? || i.Arith?)
    requires c1.stack == below + [a] + [b]
    ensures Run(code, Running(c), m) == s && (s.Running? || s.Failed?)
    ensures s.Running? ==> s.c.pc == c1.pc + 1 && s.c.globals == c1.globals && |s.c.stack| == |below| + 1
                           && s.c.stack == below + [s.c.stack[|below|]]
  {
    hide Run, IndexValue, BinaryValues;
    m, s := Hop(code, c, n, c1, i);
    assert Drop(c1.stack, 2) == below;
  }

  /** `Swap` and the first `IndexSet`: the row with its element replaced, or a failure. */
  lemma RowStore(code: seq<Instr>, at: nat, c: Config, n: nat, c1: Config, box: Value, sum: Value, j: Value)
    returns (m: nat, s: Status)
    requires Has(code, at, [Swap, IndexSet]) && Run(code, Running(c), n) == Running(c1) && c1.pc == at
    requires c1.stack == c.stack + [box] + [sum] + [j]
    ensures Run(code, Running(c), m) == s && (s.Running? || s.Failed?)
    ensures s.Running? ==> s.c.pc == at + 2 && s.c.globals == c1.globals && |s.c.stack| == |c.stack| + 1
                           && s.c.stack == c.stack + [s.c.stack[|c.stack|]]
  {
    hide Run, IndexUpdate;
    HasHead(code, at, Swap, [IndexSet]);
    HasOne(code, at + 1, IndexSet);
    m, s := Hop(code, c, n, c1, Swap);
    assert Drop(c1.stack, 2) == c.stack + [box];
    assert s.c.stack == c.stack + [box, j, sum];
    assert Drop(s.c.stack, 3) == c.stack;
    m, s := Hop(code, c, m, s.c, IndexSet);
  }
}
