/** Statement code does what the statement means: the same variables, the same output, the same
    error, and the same exit, from any surrounding code and stack. A run that never ends is
    followed for as long as the fuel lasts. */
module BytecodeStmts {
  import opened Values
  import opened Ast
  import opened Source
  import opened Exits
  import opened Bytecode
  import opened Layout
  import opened BytecodeExprs

  function ExitPc(exit: Exit, end: nat, cont: nat, brk: nat): nat {
    match exit
    case Normal => end
    case Broke => brk
    case Continued => cont
  }

  // ----- iterators on the stack -----

  /** The items an iterator still has. */
  function Remaining(it: Iterator): seq<Value> {
    var items := Items(it.container);
    if it.pos < |items| then items[it.pos..] else []
  }

  /** The values are the handles of iterators with these items, none older than `base`, and each one
      younger than the one below it. */
  predicate Held(vs: seq<Value>, base: nat, iters: seq<Iterator>, its: seq<seq<Value>>)
    decreases |its|
  {
    |vs| == |its| && (its == [] || HeldOn(vs[|vs| - 1], vs[..|vs| - 1], base, iters, its))
  }

  predicate HeldOn(top: Value, below: seq<Value>, base: nat, iters: seq<Iterator>, its: seq<seq<Value>>)
    requires its != []
    decreases |its|, 0
  {
    && top.Int? && base <= top.i < |iters| && Remaining(iters[top.i]) == its[|its| - 1]
    && Held(below, base, iters[..top.i], its[..|its| - 1])
  }

  /** The handles lie above `stack`. */
  ghost predicate Leaves(stack: seq<Value>, base: nat, c: Config, its: seq<seq<Value>>) {
    stack <= c.stack && base <= |c.iters| && Held(c.stack[|stack|..], base, c.iters, its)
  }

  lemma HeldGrows(vs: seq<Value>, base: nat, iters: seq<Iterator>, its: seq<seq<Value>>, iters': seq<Iterator>)
    requires Held(vs, base, iters, its) && iters <= iters'
    ensures Held(vs, base, iters', its)
  {
    hide Remaining;
    if its != [] {
      var h := vs[|vs| - 1].i;
      assert iters'[..h] == iters[..h];
    }
  }

  lemma {:induction false} HeldMore(vs: seq<Value>, base: nat, iters: seq<Iterator>, its: seq<seq<Value>>, ws: seq<Value>,
        iters': seq<Iterator>, more: seq<seq<Value>>)
    requires Held(vs, base, iters, its) && Held(ws, |iters|, iters', more) && iters <= iters' && base <= |iters|
    ensures Held(vs + ws, base, iters', its + more)
    decreases |more|
  {
    hide Remaining;
    if more == [] {
      HeldGrows(vs, base, iters, its, iters');
      assert vs + ws == vs && its + more == its;
    } else {
      var h := ws[|ws| - 1].i;
      HeldMore(vs, base, iters, its, ws[..|ws| - 1], iters'[..h], more[..|more| - 1]);
      assert (vs + ws)[..|vs + ws| - 1] == vs + ws[..|ws| - 1];
      assert (its + more)[..|its + more| - 1] == its + more[..|more| - 1];
    }
  }

  /** What is left behind later lies above. */
  lemma LeavesMore(stack: seq<Value>, base: nat, c: Config, its: seq<seq<Value>>, c': Config, more: seq<seq<Value>>)
    requires Leaves(stack, base, c, its) && Leaves(c.stack, |c.iters|, c', more) && c.iters <= c'.iters
    ensures Leaves(stack, base, c', its + more)
  {
    hide Held;
    HeldMore(c.stack[|stack|..], base, c.iters, its, c'.stack[|c.stack|..], c'.iters, more);
    assert c'.stack[|stack|..] == c.stack[|stack|..] + c'.stack[|c.stack|..];
  }

  lemma {:induction false} HeldOlder(vs: seq<Value>, base: nat, older: nat, iters: seq<Iterator>, its: seq<seq<Value>>)
    requires Held(vs, base, iters, its) && older <= base
    ensures Held(vs, older, iters, its)
    decreases |its|
  {
    hide Remaining;
    if its != [] {
      HeldOlder(vs[..|vs| - 1], base, older, iters[..vs[|vs| - 1].i], its[..|its| - 1]);
    }
  }

  lemma LeavesOlder(stack: seq<Value>, base: nat, older: nat, c: Config, its: seq<seq<Value>>)
    requires Leaves(stack, base, c, its) && older <= base
    ensures Leaves(stack, older, c, its)
  {
    hide Held;
    HeldOlder(c.stack[|stack|..], base, older, c.iters, its);
  }

  /** The rest of the stack, and the iterators that were there before, do not matter. */
  lemma LeavesAfter(c: Config, c0: Config, c': Config, its: seq<seq<Value>>)
    requires Leaves(c0.stack, |c0.iters|, c', its) && c0.stack == c.stack && |c.iters| <= |c0.iters|
    ensures Leaves(c.stack, |c.iters|, c', its)
  {
    LeavesOlder(c.stack, |c0.iters|, |c.iters|, c', its);
  }

  /** The stack and the iterators alone matter. */
  lemma LeavesSame(stack: seq<Value>, base: nat, c: Config, c': Config, its: seq<seq<Value>>)
    requires Leaves(stack, base, c, its) && c'.stack == c.stack && c'.iters == c.iters
    ensures Leaves(stack, base, c', its)
  {
  }

  // ----- what a statement does -----

  /** After `n` steps the machine has done what `r` says. What the loops left by `break` leave behind
      lies on the stack. */
  ghost predicate Executes(code: seq<Instr>, c: Config, r: ExecResult, end: nat, cont: nat, brk: nat,
                           fuel: nat, n: nat, c': Config) {
    match r
    case Done(exit, st, leaks) =>
      && Run(code, Running(c), n) == Running(c')
      && c'.pc == ExitPc(exit, end, cont, brk)
      && Leaves(c.stack, |c.iters|, c', leaks)
      && c'.out == st.out
      && c.iters <= c'.iters
      && Agrees(st.vars, c'.globals)
    case Failed(err, out) => Run(code, Running(c), n) == Status.Failed(err, out)
    case OutOfFuel(out) => Run(code, Running(c), n) == Running(c') && c'.out == out && n >= fuel
  }

  ghost predicate Holds(c: Config, st: State) {
    Agrees(st.vars, c.globals) && c.out == st.out
  }

  ghost predicate StmtReady(s: Stmt, base: nat, id: nat, cont: nat, brk: nat, code: seq<Instr>, c: Config, st: State) {
    Has(code, base, StmtCode(s, base, id, cont, brk)) && c.pc == base && Holds(c, st)
  }

  ghost predicate BlockReady(b: Block, base: nat, id: nat, cont: nat, brk: nat, code: seq<Instr>, c: Config,
        st: State) {
    Has(code, base, BlockCode(b, base, id, cont, brk)) && c.pc == base && Holds(c, st)
  }

  ghost predicate RestReady(r: Rest, base: nat, id: nat, cont: nat, brk: nat, end: nat, code: seq<Instr>,
        c: Config, st: State) {
    && Has(code, base, RestCode(r, base, id, cont, brk, end)) && c.pc == base && Holds(c, st)
    && end == base + |RestCode(r, base, id, cont, brk, end)|
  }

  // ----- storing a value -----

  /** The code ends by storing the value on top of the stack into a variable. */
  lemma StoreGlue(x: string, code: seq<Instr>, at: nat, c: Config, r: EvalResult<Value>, n1: nat, c1: Config,
                  cont: nat, brk: nat, fuel: nat)
    returns (n: nat, c': Config)
    requires Has(code, at, [StoreGlobal(User(x))])
    requires r.Fail? ==> Run(code, Running(c), n1) == Status.Failed(r.error, c.out)
    requires r.Val? ==>
               && Run(code, Running(c), n1) == Running(c1) && c1.pc == at && c1.stack == c.stack + [r.value]
               && c1.out == c.out && c.iters <= c1.iters && Agrees(r.st, c1.globals)
    ensures Executes(code, c, Assigned(x, r, c.out), at + 1, cont, brk, fuel, n, c')
  {
    hide Run, Agrees;
    n, c' := n1, c1;
    if r.Val? {
      HasOne(code, at, StoreGlobal(User(x)));
      var s;
      n, s := Hop(code, c, n1, c1, StoreGlobal(User(x)));
      StoreSteps(c1, User(x), c.stack, r.value);
      c' := s.c;
      AssignAgrees(r.st, c1.globals, x, r.value);
    }
  }

  lemma AssignRuns(s: Stmt, base: nat, id: nat, cont: nat, brk: nat, code: seq<Instr>, c: Config, st: State, fuel: nat)
    returns (n: nat, c': Config)
    requires s.Assign? && StmtReady(s, base, id, cont, brk, code, c, st)
    ensures Executes(code, c, Exec(Compiled, s, st, fuel), base + |StmtCode(s, base, id, cont, brk)|, cont, brk, fuel, n, c')
  {
    hide Run, Has, Agrees, ExprCode, Eval, Executes;
    var ce := ExprCode(s.e, base, id);
    HasSplit(code, base, ce, [StoreGlobal(User(s.name))]);
    n, c' := ExprRuns(s.e, base, id, code, c, st.vars);
    ExprOutcome(s.e, base, id, code, c, st.vars, n, c');
    n, c' := StoreGlue(s.name, code, base + |ce|, c, Eval(Compiled, s.e, st.vars), n, c', cont, brk, fuel);
  }

  /** `ExprDone` spelled out. */
  lemma ExprOutcome(e: Expr, base: nat, id: nat, code: seq<Instr>, c: Config, st: Store, n: nat, c': Config)
    requires ExprDone(e, base, id, code, c, st, n, c')
    ensures var r := Eval(Compiled, e, st);
            && (r.Fail? ==> Run(code, Running(c), n) == Status.Failed(r.error, c.out))
            && (r.Val? ==>
                && Run(code, Running(c), n) == Running(c') && c'.pc == base + |ExprCode(e, base, id)|
                && c'.stack == c.stack + [r.value] && c'.out == c.out && c.iters <= c'.iters && Agrees(r.st, c'.globals))
  {
    hide Run, Agrees, Eval, ExprCode, TempsKept;
  }

  lemma GlobalIs(st: Store, globals: map<Name, Value>, x: string)
    requires Agrees(st, globals)
    ensures Global(globals, User(x)) == Get(st, x)
  {
  }

  lemma CompoundCode(x: string, op: BinOp, e: Expr, base: nat, id: nat, cont: nat, brk: nat)
    ensures StmtCode(Compound(x, op, e), base, id, cont, brk)
         == [LoadGlobal(User(x))] + (ExprCode(e, base + 1, id) + ([Arith(op)] + [StoreGlobal(User(x))]))
  {
    hide ExprCode;
  }

  lemma CompoundRuns(s: Stmt, base: nat, id: nat, cont: nat, brk: nat, code: seq<Instr>, c: Config, st: State,
        fuel: nat)
    returns (n: nat, c': Config)
    requires s.Compound? && StmtReady(s, base, id, cont, brk, code, c, st)
    ensures Executes(code, c, Exec(Compiled, s, st, fuel), base + |StmtCode(s, base, id, cont, brk)|, cont, brk, fuel, n, c')
  {
    hide Run, Has, ExprCode, Eval, BinaryValues, StmtCode, Truthy, Agrees;
    var x := User(s.name);
    var ce := ExprCode(s.e, base + 1, id);
    var at := base + 1 + |ce|;
    CompoundCode(s.name, s.op, s.e, base, id, cont, brk);
    HasHead(code, base, LoadGlobal(x), ce + ([Arith(s.op)] + [StoreGlobal(x)]));
    HasSplit(code, base + 1, ce, [Arith(s.op)] + [StoreGlobal(x)]);
    HasHead(code, at, Arith(s.op), [StoreGlobal(x)]);
    RunZero(code, c);
    var s0;
    n, s0 := Hop(code, c, 0, c, LoadGlobal(x));
    LoadSteps(c, x);
    var c1 := s0.c;
    var m, c2 := ExprRuns(s.e, base + 1, id, code, c1, st.vars);
    ExprOutcome(s.e, base + 1, id, code, c1, st.vars, m, c2);
    Then(code, c, n, c1, m);
    n, c' := n + m, c2;
    var r := Eval(Compiled, s.e, st.vars);
    var old' := Get(st.vars, s.name);
    GlobalIs(st.vars, c.globals, s.name);
    if r.Val? {
      n, s0 := Hop(code, c, n, c2, Arith(s.op));
      var rv := BinaryValues(s.op, old', r.value);
      assert c2.stack == c.stack + [old', r.value] && Drop(c2.stack, 2) == c.stack;
      c' := if s0.Running? then s0.c else c2;
      n, c' := StoreGlue(s.name, code, at + 1, c, Checked(rv, r.st), n, c', cont, brk, fuel);
    }
  }

  lemma IndexAssignCode(x: string, i: Expr, e: Expr, base: nat, id: nat, cont: nat, brk: nat)
    ensures var ci := ExprCode(i, base + 1, id);
            var ce := ExprCode(e, base + 1 + |ci|, id + Temps(i));
            StmtCode(IndexAssign(x, i, e), base, id, cont, brk)
            == [LoadGlobal(User(x))] + (ci + (ce + ([IndexSet] + [StoreGlobal(User(x))])))
  {
    hide ExprCode, Temps;
  }

  /** The element is set and the container stored again. */
  lemma SetAndStore(x: string, code: seq<Instr>, at: nat, c: Config, box: Value, i: Value, v: Value, st: Store, n1: nat,
        c1: Config, cont: nat, brk: nat, fuel: nat)
    returns (n: nat, c': Config)
    requires at < |code| && code[at] == IndexSet && Has(code, at + 1, [StoreGlobal(User(x))])
    requires Run(code, Running(c), n1) == Running(c1) && c1.pc == at && c1.stack == c.stack + [box, i, v]
    requires c1.out == c.out && c.iters <= c1.iters && Agrees(st, c1.globals)
    ensures Executes(code, c, Assigned(x, Checked(IndexUpdate(box, i, v), st), c.out), at + 2, cont, brk, fuel, n, c')
  {
    hide Run, Has, Agrees, IndexUpdate, Executes;
    var s;
    n, s := Hop(code, c, n1, c1, IndexSet);
    assert Drop(c1.stack, 3) == c.stack;
    c' := if s.Running? then s.c else c1;
    n, c' := StoreGlue(x, code, at + 1, c, Checked(IndexUpdate(box, i, v), st), n, c', cont, brk, fuel);
  }

  lemma IndexAssignRuns(s: Stmt, base: nat, id: nat, cont: nat, brk: nat, code: seq<Instr>, c: Config, st: State,
        fuel: nat)
    returns (n: nat, c': Config)
    requires s.IndexAssign? && StmtReady(s, base, id, cont, brk, code, c, st)
    ensures Executes(code, c, Exec(Compiled, s, st, fuel), base + |StmtCode(s, base, id, cont, brk)|, cont, brk, fuel, n, c')
  {
    hide Run, Has, ExprCode, Eval, IndexUpdate, StmtCode, Agrees;
    var x := User(s.name);
    var ci := ExprCode(s.index, base + 1, id);
    var p := base + 1 + |ci|;
    var ce := ExprCode(s.e, p, id + Temps(s.index));
    var at := p + |ce|;
    IndexAssignCode(s.name, s.index, s.e, base, id, cont, brk);
    HasHead(code, base, LoadGlobal(x), ci + (ce + ([IndexSet] + [StoreGlobal(x)])));
    HasSplit(code, base + 1, ci, ce + ([IndexSet] + [StoreGlobal(x)]));
    HasSplit(code, p, ce, [IndexSet] + [StoreGlobal(x)]);
    HasHead(code, at, IndexSet, [StoreGlobal(x)]);
    RunZero(code, c);
    var s0;
    n, s0 := Hop(code, c, 0, c, LoadGlobal(x));
    LoadSteps(c, x);
    var c1 := s0.c;
    var m, c2 := ExprRuns(s.index, base + 1, id, code, c1, st.vars);
    ExprOutcome(s.index, base + 1, id, code, c1, st.vars, m, c2);
    Then(code, c, n, c1, m);
    n, c' := n + m, c2;
    var ri := Eval(Compiled, s.index, st.vars);
    if ri.Val? {
      var m, c3 := ExprRuns(s.e, p, id + Temps(s.index), code, c2, ri.st);
      ExprOutcome(s.e, p, id + Temps(s.index), code, c2, ri.st, m, c3);
      Then(code, c, n, c2, m);
      n, c' := n + m, c3;
      var r := Eval(Compiled, s.e, ri.st);
      if r.Val? {
        var box := Get(st.vars, s.name);
        GlobalIs(st.vars, c.globals, s.name);
        assert c3.stack == c.stack + [box, ri.value, r.value];
        n, c' := SetAndStore(s.name, code, at, c, box, ri.value, r.value, r.st, n, c3, cont, brk, fuel);
      }
    }
  }

  lemma DeleteRuns(s: Stmt, base: nat, id: nat, cont: nat, brk: nat, code: seq<Instr>, c: Config, st: State, fuel: nat)
    returns (n: nat, c': Config)
    requires s.Delete? && StmtReady(s, base, id, cont, brk, code, c, st)
    ensures Executes(code, c, Exec(Compiled, s, st, fuel), base + |StmtCode(s, base, id, cont, brk)|, cont, brk, fuel, n, c')
  {
    hide Run;
    HasHead(code, base, ConstNull, [StoreGlobal(User(s.name))]);
    RunZero(code, c);
    var s0;
    n, s0 := Hop(code, c, 0, c, ConstNull);
    n, c' := StoreGlue(s.name, code, base + 1, c, Val(Null, st.vars), n, s0.c, cont, brk, fuel);
  }

  lemma ExprStmtRuns(s: Stmt, base: nat, id: nat, cont: nat, brk: nat, code: seq<Instr>, c: Config, st: State,
        fuel: nat)
    returns (n: nat, c': Config)
    requires s.ExprStmt? && StmtReady(s, base, id, cont, brk, code, c, st)
    ensures Executes(code, c, Exec(Compiled, s, st, fuel), base + |StmtCode(s, base, id, cont, brk)|, cont, brk, fuel, n, c')
  {
    hide Run, ExprCode, Eval;
    var ce := ExprCode(s.e, base, id);
    HasSplit(code, base, ce, [Pop]);
    HasOne(code, base + |ce|, Pop);
    n, c' := ExprRuns(s.e, base, id, code, c, st.vars);
    ExprOutcome(s.e, base, id, code, c, st.vars, n, c');
    if Eval(Compiled, s.e, st.vars).Val? {
      var s0;
      n, s0 := Hop(code, c, n, c', Pop);
      assert Drop(c'.stack, 1) == c.stack;
      c' := s0.c;
    }
  }

  // ----- printing -----

  ghost predicate PrintReady(args: Vec<Expr>, base: nat, id: nat, code: seq<Instr>, c: Config, st: State) {
    Has(code, base, PrintCode(args, base, id)) && c.pc == base && Holds(c, st)
  }

  lemma {:induction false} PrintRuns(args: Vec<Expr>, base: nat, id: nat, code: seq<Instr>, c: Config, st: State,
                                     cont: nat, brk: nat, fuel: nat)
    returns (n: nat, c': Config)
    requires PrintReady(args, base, id, code, c, st)
    ensures Executes(code, c, Print(Compiled, args, st), base + |PrintCode(args, base, id)|, cont, brk, fuel, n, c')
    ensures var r := Print(Compiled, args, st); r.Done? ==> r.exit == Normal && r.leaks == []
    ensures !Print(Compiled, args, st).OutOfFuel?
    decreases args
  {
    if args == Nil {
      n, c' := 0, c;
    } else {
      hide *;
      n, c' := PrintCons(args, base, id, code, c, st, cont, brk, fuel);
    }
  }

  lemma {:induction false} PrintCons(args: Vec<Expr>, base: nat, id: nat, code: seq<Instr>, c: Config, st: State,
                                     cont: nat, brk: nat, fuel: nat)
    returns (n: nat, c': Config)
    requires args.Cons? && PrintReady(args, base, id, code, c, st)
    ensures Executes(code, c, Print(Compiled, args, st), base + |PrintCode(args, base, id)|, cont, brk, fuel, n, c')
    ensures var r := Print(Compiled, args, st); r.Done? ==> r.exit == Normal && r.leaks == []
    ensures !Print(Compiled, args, st).OutOfFuel?
    decreases args, 0
  {
    hide Run, Has, Agrees, ExprCode, Eval, Temps, Display, StepInstr;
    var e, rest := args.head, args.tail;
    var ce := ExprCode(e, base, id);
    var cr := PrintCode(rest, base + |ce| + 1, id + Temps(e));
    HasSplit(code, base, ce + [PrintTop], cr);
    HasSplit(code, base, ce, [PrintTop]);
    HasOne(code, base + |ce|, PrintTop);
    n, c' := ExprRuns(e, base, id, code, c, st.vars);
    ExprOutcome(e, base, id, code, c, st.vars, n, c');
    var r := Eval(Compiled, e, st.vars);
    if r.Val? {
      var s0;
      n, s0 := Hop(code, c, n, c', PrintTop);
      PrintSteps(c', c.stack, r.value);
      var c1 := s0.c;
      var st1 := State(r.st, st.out + Display(r.value));
      var m, c2 := PrintRuns(rest, base + |ce| + 1, id + Temps(e), code, c1, st1, cont, brk, fuel);
      Then(code, c, n, c1, m);
      n, c' := n + m, c2;
    }
  }

  lemma PrintSteps(c: Config, stack: seq<Value>, v: Value)
    requires c.stack == stack + [v]
    ensures StepInstr(PrintTop, c) == Running(c.(pc := c.pc + 1, stack := stack, out := c.out + Display(v)))
  {
    assert Drop(c.stack, 1) == stack;
  }

  lemma PrintlnRuns(s: Stmt, base: nat, id: nat, cont: nat, brk: nat, code: seq<Instr>, c: Config, st: State, fuel: nat)
    returns (n: nat, c': Config)
    requires (s.Println? || s.Paste?) && StmtReady(s, base, id, cont, brk, code, c, st)
    ensures Executes(code, c, Exec(Compiled, s, st, fuel), base + |StmtCode(s, base, id, cont, brk)|, cont, brk, fuel, n, c')
  {
    hide Run, Agrees, PrintCode, Print;
    var cp := PrintCode(s.args, base, id);
    if s.Println? {
      HasSplit(code, base, cp, [Newline]);
      HasOne(code, base + |cp|, Newline);
    }
    n, c' := PrintRuns(s.args, base, id, code, c, st, cont, brk, fuel);
    if s.Println? && Print(Compiled, s.args, st).Done? {
      var s0;
      n, s0 := Hop(code, c, n, c', Newline);
      assert c'.stack == c.stack;
      c' := s0.c;
    }
  }

  // ----- sequences -----

  function SeqResult(r1: ExecResult, r2: ExecResult): ExecResult {
    if r1.Done? && r1.exit == Normal then AddLeaks(r1.leaks, r2) else r1
  }

  lemma SeqGlue(code: seq<Instr>, c: Config, r1: ExecResult, n1: nat, c1: Config, r2: ExecResult, n2: nat, c2: Config,
                mid: nat, end: nat, cont: nat, brk: nat, fuel: nat)
    returns (n: nat, c': Config)
    requires Executes(code, c, r1, mid, cont, brk, fuel, n1, c1)
    requires r1.Done? && r1.exit == Normal ==> Executes(code, c1, r2, end, cont, brk, fuel, n2, c2)
    ensures Executes(code, c, SeqResult(r1, r2), end, cont, brk, fuel, n, c')
  {
    hide Run, Agrees, Leaves;
    n, c' := n1, c1;
    if r1.Done? && r1.exit == Normal {
      Then(code, c, n1, c1, n2);
      if r2.Done? {
        LeavesMore(c.stack, |c.iters|, c1, r1.leaks, c2, r2.leaks);
      }
      n, c' := n1 + n2, c2;
    }
  }

  /** What goes before an executed part: steps that leave stack, output and iterators as they are. */
  lemma PreGlue(code: seq<Instr>, c: Config, n0: nat, c0: Config, r: ExecResult, n1: nat, c1: Config,
                end: nat, cont: nat, brk: nat, fuel: nat)
    requires Run(code, Running(c), n0) == Running(c0) && c0.stack == c.stack && c.iters <= c0.iters
    requires Executes(code, c0, r, end, cont, brk, fuel, n1, c1)
    ensures Executes(code, c, r, end, cont, brk, fuel, n0 + n1, c1)
  {
    hide Run, Agrees, Leaves;
    Then(code, c, n0, c0, n1);
    if r.Done? {
      LeavesAfter(c, c0, c1, r.leaks);
    }
  }

  /** A block that ends by jumping, or falling, from `mid` to `end`. */
  lemma JumpGlue(code: seq<Instr>, c: Config, r: ExecResult, n1: nat, c1: Config,
                 mid: nat, end: nat, cont: nat, brk: nat, fuel: nat)
    returns (n: nat, c': Config)
    requires Has(code, mid, [Jump(end)])
    requires Executes(code, c, r, mid, cont, brk, fuel, n1, c1)
    ensures Executes(code, c, r, end, cont, brk, fuel, n, c')
  {
    hide Run, Agrees, Leaves;
    n, c' := n1, c1;
    if r.Done? && r.exit == Normal {
      HasOne(code, mid, Jump(end));
      var s;
      n, s := Hop(code, c, n1, c1, Jump(end));
      c' := s.c;
      LeavesSame(c.stack, |c.iters|, c1, c', r.leaks);
    }
  }

  /** A condition and the conditional jump after it. */
  lemma CondGlue(code: seq<Instr>, at: nat, target: nat, c: Config, r: EvalResult<Value>, n1: nat, c1: Config)
    returns (n: nat, c': Config)
    requires Has(code, at, [JumpIfFalse(target)])
    requires r.Val? && Run(code, Running(c), n1) == Running(c1) && c1.pc == at && c1.stack == c.stack + [r.value]
    ensures Run(code, Running(c), n) == Running(c') && n == n1 + 1
    ensures c' == Resume(c1, if Truthy(r.value) then at + 1 else target, c.stack)
  {
    hide Run;
    HasOne(code, at, JumpIfFalse(target));
    var s;
    n, s := Hop(code, c, n1, c1, JumpIfFalse(target));
    assert Drop(c1.stack, 1) == c.stack;
    c' := s.c;
  }

  // ----- the statements, all together -----

  lemma {:induction false} StmtRuns(s: Stmt, base: nat, id: nat, cont: nat, brk: nat, code: seq<Instr>, c: Config,
        st: State, fuel: nat)
    returns (n: nat, c': Config)
    requires StmtReady(s, base, id, cont, brk, code, c, st)
    ensures Executes(code, c, Exec(Compiled, s, st, fuel), base + |StmtCode(s, base, id, cont, brk)|, cont, brk, fuel, n, c')
    decreases fuel, s, 2, 0
  {
    hide *;
    match s
    case Assign(_, _) => n, c' := AssignRuns(s, base, id, cont, brk, code, c, st, fuel);
    case Compound(_, _, _) => n, c' := CompoundRuns(s, base, id, cont, brk, code, c, st, fuel);
    case Delete(_) => n, c' := DeleteRuns(s, base, id, cont, brk, code, c, st, fuel);
    case IndexAssign(_, _, _) => n, c' := IndexAssignRuns(s, base, id, cont, brk, code, c, st, fuel);
    case ExprStmt(_) => n, c' := ExprStmtRuns(s, base, id, cont, brk, code, c, st, fuel);
    case Println(_) => n, c' := PrintlnRuns(s, base, id, cont, brk, code, c, st, fuel);
    case Paste(_) => n, c' := PrintlnRuns(s, base, id, cont, brk, code, c, st, fuel);
    case If(_, _, _) => n, c' := IfRuns(s, base, id, cont, brk, code, c, st, fuel);
    case While(_, _) => n, c' := WhileRuns(s, base, id, cont, brk, code, c, st, fuel);
    case Loop(_) => n, c' := LoopRuns(s, base, id, cont, brk, code, c, st, fuel);
    case ForIn(_, _, _) => n, c' := ForRuns(s, base, id, cont, brk, code, c, st, fuel);
    case ForRange(_, _, _, _, _) => n, c' := ForRuns(s, base, id, cont, brk, code, c, st, fuel);
    case Break => n, c' := ExitRuns(s, base, id, cont, brk, code, c, st, fuel);
    case Continue => n, c' := ExitRuns(s, base, id, cont, brk, code, c, st, fuel);
    case Scope(_) => n, c' := ScopeRuns(s, base, id, cont, brk, code, c, st, fuel);
  }

  lemma ExitRuns(s: Stmt, base: nat, id: nat, cont: nat, brk: nat, code: seq<Instr>, c: Config, st: State, fuel: nat)
    returns (n: nat, c': Config)
    requires (s.Break? || s.Continue?) && StmtReady(s, base, id, cont, brk, code, c, st)
    ensures Executes(code, c, Exec(Compiled, s, st, fuel), base + |StmtCode(s, base, id, cont, brk)|, cont, brk, fuel, n, c')
  {
    hide Run, Agrees;
    var i := Jump(if s.Break? then brk else cont);
    HasOne(code, base, i);
    RunZero(code, c);
    var s0;
    n, s0 := Hop(code, c, 0, c, i);
    c' := s0.c;
  }

  lemma {:induction false} ScopeRuns(s: Stmt, base: nat, id: nat, cont: nat, brk: nat, code: seq<Instr>, c: Config,
        st: State, fuel: nat)
    returns (n: nat, c': Config)
    requires s.Scope? && StmtReady(s, base, id, cont, brk, code, c, st)
    ensures Executes(code, c, Exec(Compiled, s, st, fuel), base + |StmtCode(s, base, id, cont, brk)|, cont, brk, fuel, n, c')
    decreases fuel, s, 1, 0
  {
    hide Executes, Has, Holds;
    n, c' := BlockRuns(s.body, base, id, cont, brk, code, c, st, fuel);
  }

  lemma {:induction false} BlockRuns(b: Block, base: nat, id: nat, cont: nat, brk: nat, code: seq<Instr>,
        c: Config, st: State, fuel: nat)
    returns (n: nat, c': Config)
    requires BlockReady(b, base, id, cont, brk, code, c, st)
    ensures Executes(code, c, ExecBlock(Compiled, b, st, fuel), base + |BlockCode(b, base, id, cont, brk)|, cont, brk, fuel, n, c')
    decreases fuel, b, 2, 0
  {
    if b == Nil {
      n, c' := 0, c;
    } else {
      hide *;
      n, c' := BlockCons(b, base, id, cont, brk, code, c, st, fuel);
    }
  }

  lemma Arrived(code: seq<Instr>, c: Config, r: ExecResult, end: nat, cont: nat, brk: nat, fuel: nat, n: nat,
        c': Config)
    requires Executes(code, c, r, end, cont, brk, fuel, n, c')
    requires r.Done?
    ensures Holds(c', r.st) && c'.pc == ExitPc(r.exit, end, cont, brk) && c.iters <= c'.iters
    ensures Leaves(c.stack, |c.iters|, c', r.leaks)
    ensures Run(code, Running(c), n) == Running(c')
  {
  }

  lemma {:induction false} BlockCons(b: Block, base: nat, id: nat, cont: nat, brk: nat, code: seq<Instr>,
        c: Config, st: State, fuel: nat)
    returns (n: nat, c': Config)
    requires b.Cons? && BlockReady(b, base, id, cont, brk, code, c, st)
    ensures Executes(code, c, ExecBlock(Compiled, b, st, fuel), base + |BlockCode(b, base, id, cont, brk)|, cont, brk, fuel, n, c')
    decreases fuel, b, 1, 0
  {
    hide Executes, Has, Holds, Exec, StmtCode, TempsStmt, Run;
    var s, rest := b.head, b.tail;
    var cs := StmtCode(s, base, id, cont, brk);
    var mid := base + |cs|;
    var cr := BlockCode(rest, mid, id + TempsStmt(s), cont, brk);
    HasSplit(code, base, cs, cr);
    var n1, c1 := StmtRuns(s, base, id, cont, brk, code, c, st, fuel);
    var r1 := Exec(Compiled, s, st, fuel);
    var r2, n2, c2 := r1, 0, c1;
    if r1.Done? && r1.exit == Normal {
      Arrived(code, c, r1, mid, cont, brk, fuel, n1, c1);
      r2 := ExecBlock(Compiled, rest, r1.st, fuel);
      n2, c2 := BlockRuns(rest, mid, id + TempsStmt(s), cont, brk, code, c1, r1.st, fuel);
    }
    n, c' := SeqGlue(code, c, r1, n1, c1, r2, n2, c2, mid, mid + |cr|, cont, brk, fuel);
  }

  // ----- if -----

  lemma {:induction false} IfShape(s: Stmt, base: nat, id: nat, cont: nat, brk: nat)
    requires s.If?
    ensures var cc := ExprCode(s.cond, base, id);
            var at := base + |cc|;
            var i1, i2 := id + Temps(s.cond), id + Temps(s.cond) + TempsBlock(s.yes);
            var cy := BlockCode(s.yes, at + 1, i1, cont, brk);
            var next := at + 1 + |cy| + (if s.rest.NoElse? then 0 else 1);
            var end := EndOf(s.rest, next, i2, cont, brk);
            StmtCode(s, base, id, cont, brk)
            == cc + [JumpIfFalse(next)] + cy + (if s.rest.NoElse? then [] else [Jump(end)])
               + RestCode(s.rest, next, i2, cont, brk, end)
  {
    hide ExprCode, BlockCode, RestCode, Temps, TempsBlock;
    var cc := ExprCode(s.cond, base, id);
    var at := base + |cc|;
    var i1, i2 := id + Temps(s.cond), id + Temps(s.cond) + TempsBlock(s.yes);
    var cy := BlockCode(s.yes, at + 1, i1, cont, brk);
    var next := at + 1 + |cy| + (if s.rest.NoElse? then 0 else 1);
    var end := EndOf(s.rest, next, i2, cont, brk);
    var j := if s.rest.NoElse? then [] else [Jump(end)];
    RestLen(s.rest, next, i2, cont, brk, brk, end, 0);
    assert StmtCode(s, base, id, cont, brk) == cc + [JumpIfFalse(next)] + cy + j + RestCode(s.rest, next, i2, cont, brk, end);
  }

  lemma {:induction false} IfParts(s: Stmt, base: nat, id: nat, cont: nat, brk: nat, code: seq<Instr>)
    requires s.If? && Has(code, base, StmtCode(s, base, id, cont, brk))
    ensures var cc := ExprCode(s.cond, base, id);
            var at := base + |cc|;
            var i1, i2 := id + Temps(s.cond), id + Temps(s.cond) + TempsBlock(s.yes);
            var cy := BlockCode(s.yes, at + 1, i1, cont, brk);
            var next := at + 1 + |cy| + (if s.rest.NoElse? then 0 else 1);
            var end := EndOf(s.rest, next, i2, cont, brk);
            var cr := RestCode(s.rest, next, i2, cont, brk, end);
            && Has(code, base, cc) && Has(code, at, [JumpIfFalse(next)]) && Has(code, at + 1, cy)
            && (!s.rest.NoElse? ==> Has(code, next - 1, [Jump(end)]))
            && Has(code, next, cr) && end == next + |cr| == base + |StmtCode(s, base, id, cont, brk)|
  {
    hide Has, ExprCode, BlockCode, RestCode, StmtCode, Temps, TempsBlock;
    var cc := ExprCode(s.cond, base, id);
    var at := base + |cc|;
    var i1, i2 := id + Temps(s.cond), id + Temps(s.cond) + TempsBlock(s.yes);
    var cy := BlockCode(s.yes, at + 1, i1, cont, brk);
    var next := at + 1 + |cy| + (if s.rest.NoElse? then 0 else 1);
    var end := EndOf(s.rest, next, i2, cont, brk);
    var cr := RestCode(s.rest, next, i2, cont, brk, end);
    RestLen(s.rest, next, i2, cont, brk, brk, end, 0);
    var j := if s.rest.NoElse? then [] else [Jump(end)];
    IfShape(s, base, id, cont, brk);
    HasSplit(code, base, cc + [JumpIfFalse(next)] + cy + j, cr);
    HasSplit(code, base, cc + [JumpIfFalse(next)] + cy, j);
    HasSplit(code, base, cc + [JumpIfFalse(next)], cy);
    HasSplit(code, base, cc, [JumpIfFalse(next)]);
  }

  lemma {:induction false} IfRuns(s: Stmt, base: nat, id: nat, cont: nat, brk: nat, code: seq<Instr>, c: Config,
        st: State, fuel: nat)
    returns (n: nat, c': Config)
    requires s.If? && StmtReady(s, base, id, cont, brk, code, c, st)
    ensures Executes(code, c, Exec(Compiled, s, st, fuel), base + |StmtCode(s, base, id, cont, brk)|, cont, brk, fuel, n, c')
    decreases fuel, s, 1, 0
  {
    hide Has, Run, StmtCode, ExprCode, BlockCode, RestCode, EndOf, Eval, ExecBlock, ExecRest, Agrees;
    IfParts(s, base, id, cont, brk, code);
    var cc := ExprCode(s.cond, base, id);
    var at := base + |cc|;
    var i1, i2 := id + Temps(s.cond), id + Temps(s.cond) + TempsBlock(s.yes);
    var cy := BlockCode(s.yes, at + 1, i1, cont, brk);
    var next := at + 1 + |cy| + (if s.rest.NoElse? then 0 else 1);
    var end := EndOf(s.rest, next, i2, cont, brk);
    n, c' := ExprRuns(s.cond, base, id, code, c, st.vars);
    ExprOutcome(s.cond, base, id, code, c, st.vars, n, c');
    var r := Eval(Compiled, s.cond, st.vars);
    if r.Val? {
      var st1 := State(r.st, st.out);
      n, c' := CondGlue(code, at, next, c, r, n, c');
      var c1 := c';
      if Truthy(r.value) {
        var m, c2 := BlockRuns(s.yes, at + 1, i1, cont, brk, code, c1, st1, fuel);
        var rb := ExecBlock(Compiled, s.yes, st1, fuel);
        if !s.rest.NoElse? {
          m, c2 := JumpGlue(code, c1, rb, m, c2, at + 1 + |cy|, end, cont, brk, fuel);
        } else {
          NoElseEnd(next, i2, cont, brk);
        }
        PreGlue(code, c, n, c1, rb, m, c2, end, cont, brk, fuel);
        n, c' := n + m, c2;
      } else {
        var m, c2 := RestRuns(s.rest, s.rest.Elif?, next, i2, cont, brk, end, code, c1, st1, fuel);
        PreGlue(code, c, n, c1, ExecRest(Compiled, s.rest, s.rest.Elif?, st1, fuel), m, c2, end, cont, brk, fuel);
        n, c' := n + m, c2;
      }
    }
  }

  lemma NoElseEnd(base: nat, id: nat, cont: nat, brk: nat)
    ensures EndOf(NoElse, base, id, cont, brk) == base
  {
  }

  lemma {:induction false} RestRuns(r: Rest, skip: bool, base: nat, id: nat, cont: nat, brk: nat, end: nat,
        code: seq<Instr>, c: Config, st: State, fuel: nat)
    returns (n: nat, c': Config)
    requires RestReady(r, base, id, cont, brk, end, code, c, st)
    requires (r.Elif? ==> skip) && (r.Else? ==> !skip)
    ensures Executes(code, c, ExecRest(Compiled, r, skip, st, fuel), end, cont, brk, fuel, n, c')
    decreases fuel, r, 2, 0
  {
    match r
    case NoElse => n, c' := 0, c;
    case Else(body) =>
      hide Executes, Has, Holds;
      n, c' := BlockRuns(body, base, id, cont, brk, code, c, st, fuel);
    case Elif(_, _, _) =>
      hide *;
      n, c' := ElifRuns(r, skip, base, id, cont, brk, end, code, c, st, fuel);
  }

  lemma {:induction false} ElifCode(c: Expr, body: Block, rest: Rest, base: nat, id: nat, cont: nat, brk: nat, end: nat)
    ensures var cc := ExprCode(c, base, id);
            var cb := BlockCode(body, base + |cc| + 1, id + Temps(c), cont, brk);
            var next := base + |cc| + 1 + |cb| + 1;
            RestCode(Elif(c, body, rest), base, id, cont, brk, end)
            == cc + [JumpIfFalse(if rest.Elif? then next else end)] + cb + [Jump(end)]
               + RestCode(rest, next, id + Temps(c) + TempsBlock(body), cont, brk, end)
  {
    hide ExprCode, BlockCode, Temps, TempsBlock;
  }

  lemma {:induction false} ElifParts(r: Rest, base: nat, id: nat, cont: nat, brk: nat, end: nat, code: seq<Instr>)
    requires r.Elif? && Has(code, base, RestCode(r, base, id, cont, brk, end))
    ensures var cc := ExprCode(r.cond, base, id);
            var at := base + |cc|;
            var i1, i2 := id + Temps(r.cond), id + Temps(r.cond) + TempsBlock(r.body);
            var cb := BlockCode(r.body, at + 1, i1, cont, brk);
            var next := at + 1 + |cb| + 1;
            var cr := RestCode(r.rest, next, i2, cont, brk, end);
            && Has(code, base, cc) && Has(code, at, [JumpIfFalse(if r.rest.Elif? then next else end)])
            && Has(code, at + 1, cb) && Has(code, next - 1, [Jump(end)]) && Has(code, next, cr)
            && next + |cr| == base + |RestCode(r, base, id, cont, brk, end)|
  {
    hide Has, ExprCode, BlockCode, RestCode, Temps, TempsBlock;
    ElifCode(r.cond, r.body, r.rest, base, id, cont, brk, end);
    var cc := ExprCode(r.cond, base, id);
    var at := base + |cc|;
    var i1, i2 := id + Temps(r.cond), id + Temps(r.cond) + TempsBlock(r.body);
    var cb := BlockCode(r.body, at + 1, i1, cont, brk);
    var next := at + 1 + |cb| + 1;
    var cr := RestCode(r.rest, next, i2, cont, brk, end);
    var j := JumpIfFalse(if r.rest.Elif? then next else end);
    assert RestCode(r, base, id, cont, brk, end) == cc + [j] + cb + [Jump(end)] + cr;
    HasSplit(code, base, cc + [j] + cb + [Jump(end)], cr);
    HasSplit(code, base, cc + [j] + cb, [Jump(end)]);
    HasSplit(code, base, cc + [j], cb);
    HasSplit(code, base, cc, [j]);
  }

  lemma {:induction false} ElifRuns(r: Rest, skip: bool, base: nat, id: nat, cont: nat, brk: nat, end: nat,
        code: seq<Instr>, c: Config, st: State, fuel: nat)
    returns (n: nat, c': Config)
    requires r.Elif? && skip && RestReady(r, base, id, cont, brk, end, code, c, st)
    ensures Executes(code, c, ExecRest(Compiled, r, skip, st, fuel), end, cont, brk, fuel, n, c')
    decreases fuel, r, 1, 0
  {
    hide Has, Run, ExprCode, BlockCode, RestCode, Eval, ExecBlock, Agrees;
    ElifParts(r, base, id, cont, brk, end, code);
    var cc := ExprCode(r.cond, base, id);
    var at := base + |cc|;
    var i1, i2 := id + Temps(r.cond), id + Temps(r.cond) + TempsBlock(r.body);
    var cb := BlockCode(r.body, at + 1, i1, cont, brk);
    var next := at + 1 + |cb| + 1;
    n, c' := ExprRuns(r.cond, base, id, code, c, st.vars);
    ExprOutcome(r.cond, base, id, code, c, st.vars, n, c');
    var v := Eval(Compiled, r.cond, st.vars);
    if v.Val? {
      var st1 := State(v.st, st.out);
      n, c' := CondGlue(code, at, if r.rest.Elif? then next else end, c, v, n, c');
      var c1 := c';
      if Truthy(v.value) {
        var m, c2 := BlockRuns(r.body, at + 1, i1, cont, brk, code, c1, st1, fuel);
        var rb := ExecBlock(Compiled, r.body, st1, fuel);
        m, c2 := JumpGlue(code, c1, rb, m, c2, at + 1 + |cb|, end, cont, brk, fuel);
        PreGlue(code, c, n, c1, rb, m, c2, end, cont, brk, fuel);
        n, c' := n + m, c2;
      } else if r.rest.Elif? {
        var m, c2 := RestRuns(r.rest, skip, next, i2, cont, brk, end, code, c1, st1, fuel);
        PreGlue(code, c, n, c1, ExecRest(Compiled, r.rest, skip, st1, fuel), m, c2, end, cont, brk, fuel);
        n, c' := n + m, c2;
      }
    }
  }

  // ----- while and loop -----

  lemma WhileParts(base: nat, cc: seq<Instr>, body: seq<Instr>, code: seq<Instr>)
    requires Has(code, base, WhileShape(base, cc, body))
    ensures var at := base + |cc|;
            var exit := at + 1 + |body| + 1;
            && Has(code, base, cc) && Has(code, at, [JumpIfFalse(exit)]) && Has(code, at + 1, body)
            && Has(code, exit - 1, [Jump(base)]) && exit == base + |WhileShape(base, cc, body)|
  {
    hide Has;
    var j := JumpIfFalse(base + |cc| + 1 + |body| + 1);
    HasSplit(code, base, cc + [j] + body, [Jump(base)]);
    HasSplit(code, base, cc + [j], body);
    HasSplit(code, base, cc, [j]);
  }

  /** The body of a loop, and the jump back to its start. */
  lemma LoopBodyLen(body: Block, base: nat, id: nat, start: nat)
    ensures var exit := base + |LoopBody(body, base, id, start)| + 1;
            LoopBody(body, base, id, start) == BlockCode(body, base, id, start, exit)
  {
    BlockLen(body, base, id, start, base + |BlockCode(body, base, id, start, 0)| + 1, 0);
  }

  /** One turn of a `while` or `loop` statement, from the start of its body, and the turns after it. */
  lemma {:induction false} TurnRuns(s: Stmt, base: nat, id: nat, id': nat, q: nat, cont: nat, brk: nat,
        code: seq<Instr>, c: Config, st: State, fuel: nat)
    returns (n: nat, c': Config)
    requires (s.While? || s.Loop?) && fuel > 0
    requires Has(code, base, StmtCode(s, base, id, cont, brk))
    requires Has(code, q, LoopBody(s.body, q, id', base))
    requires var exit := q + |LoopBody(s.body, q, id', base)| + 1;
             Has(code, exit - 1, [Jump(base)]) && exit == base + |StmtCode(s, base, id, cont, brk)|
    requires c.pc == q && Holds(c, st)
    ensures Executes(code, c, Again(Compiled, s, s.body, st, fuel), base + |StmtCode(s, base, id, cont, brk)|, cont, brk,
                     fuel - 1, n, c')
    ensures Again(Compiled, s, s.body, st, fuel).OutOfFuel? && ExecBlock(Compiled, s.body, st, fuel).OutOfFuel? ==> n >= fuel
    decreases fuel, s, 0, 0
  {
    hide Has, Run, StmtCode, BlockCode, Exec, ExecBlock, Agrees, Leaves;
    LoopBodyLen(s.body, q, id', base);
    var exit := q + |LoopBody(s.body, q, id', base)| + 1;
    n, c' := BlockRuns(s.body, q, id', base, exit, code, c, st, fuel);
    var rb := ExecBlock(Compiled, s.body, st, fuel);
    if rb.Done? && rb.exit != Broke {
      if rb.exit == Normal {
        HasOne(code, exit - 1, Jump(base));
        var s0;
        n, s0 := Hop(code, c, n, c', Jump(base));
        LeavesSame(c.stack, |c.iters|, c', s0.c, rb.leaks);
        c' := s0.c;
      }
      var c1 := c';
      ExitFacts(Compiled, s, rb.st, fuel - 1);
      var m, c2 := StmtRuns(s, base, id, cont, brk, code, c1, rb.st, fuel - 1);
      Then(code, c, n, c1, m);
      var rs := Exec(Compiled, s, rb.st, fuel - 1);
      if rs.Done? {
        LeavesMore(c.stack, |c.iters|, c1, rb.leaks, c2, rs.leaks);
      }
      n, c' := n + m, c2;
    }
  }

  /** What a `while` means, with fuel left. */
  function WhileResult(s: Stmt, r: EvalResult<Value>, out: string, fuel: nat): ExecResult
    requires s.While? && fuel > 0
  {
    match r
    case Fail(err) => ExecResult.Failed(err, out)
    case Val(v, st1) =>
      if Truthy(v) then Again(Compiled, s, s.body, State(st1, out), fuel) else Done(Normal, State(st1, out), [])
  }

  lemma {:induction false} WhileUnfold(s: Stmt, base: nat, id: nat, cont: nat, brk: nat, st: State, fuel: nat)
    requires s.While? && fuel > 0
    ensures var cc := ExprCode(s.cond, base, id);
            StmtCode(s, base, id, cont, brk) == WhileShape(base, cc, LoopBody(s.body, base + |cc| + 1, id + Temps(s.cond), base))
    ensures Exec(Compiled, s, st, fuel) == WhileResult(s, Eval(Compiled, s.cond, st.vars), st.out, fuel)
  {
    hide ExprCode, LoopBody, WhileShape, Eval, Again;
  }

  lemma {:induction false} WhileRuns(s: Stmt, base: nat, id: nat, cont: nat, brk: nat, code: seq<Instr>, c: Config,
        st: State, fuel: nat)
    returns (n: nat, c': Config)
    requires s.While? && StmtReady(s, base, id, cont, brk, code, c, st)
    ensures Executes(code, c, Exec(Compiled, s, st, fuel), base + |StmtCode(s, base, id, cont, brk)|, cont, brk, fuel, n, c')
    decreases fuel, s, 1, 1
  {
    if fuel == 0 {
      hide StmtCode;
      n, c' := 0, c;
    } else {
      hide *;
      n, c' := WhileFueled(s, base, id, cont, brk, code, c, st, fuel);
    }
  }

  lemma {:induction false} WhileFueled(s: Stmt, base: nat, id: nat, cont: nat, brk: nat, code: seq<Instr>,
        c: Config, st: State, fuel: nat)
    returns (n: nat, c': Config)
    requires s.While? && StmtReady(s, base, id, cont, brk, code, c, st) && fuel > 0
    ensures Executes(code, c, Exec(Compiled, s, st, fuel), base + |StmtCode(s, base, id, cont, brk)|, cont, brk, fuel, n, c')
    decreases fuel, s, 1, 0
  {
    hide Has, Run, ExprCode, LoopBody, Eval, Again, Agrees, WhileShape, StmtCode, Exec;
    WhileUnfold(s, base, id, cont, brk, st, fuel);
    var cc := ExprCode(s.cond, base, id);
    var at := base + |cc|;
    var i1 := id + Temps(s.cond);
    var cb := LoopBody(s.body, at + 1, i1, base);
    WhileParts(base, cc, cb, code);
    n, c' := ExprRuns(s.cond, base, id, code, c, st.vars);
    ExprOutcome(s.cond, base, id, code, c, st.vars, n, c');
    var r := Eval(Compiled, s.cond, st.vars);
    if r.Val? {
      var st1 := State(r.st, st.out);
      n, c' := CondGlue(code, at, at + 1 + |cb| + 1, c, r, n, c');
      var c1 := c';
      if Truthy(r.value) {
        var m, c2 := TurnRuns(s, base, id, i1, at + 1, cont, brk, code, c1, st1, fuel);
        TurnGlue(code, c, n, c1, Again(Compiled, s, s.body, st1, fuel), m, c2, at + 1 + |cb| + 1, cont, brk, fuel);
        n, c' := n + m, c2;
      }
    }
  }

  /** The steps before a turn make up for the fuel the turn has used. */
  lemma TurnGlue(code: seq<Instr>, c: Config, n0: nat, c0: Config, r: ExecResult, n1: nat, c1: Config,
                 end: nat, cont: nat, brk: nat, fuel: nat)
    requires fuel > 0 && n0 > 0
    requires Run(code, Running(c), n0) == Running(c0) && c0.stack == c.stack && c.iters <= c0.iters
    requires Executes(code, c0, r, end, cont, brk, fuel - 1, n1, c1)
    ensures Executes(code, c, r, end, cont, brk, fuel, n0 + n1, c1)
  {
    hide Run, Agrees, Leaves;
    Then(code, c, n0, c0, n1);
    if r.Done? {
      LeavesAfter(c, c0, c1, r.leaks);
    }
  }

  lemma {:induction false} LoopUnfold(s: Stmt, base: nat, id: nat, cont: nat, brk: nat, st: State, fuel: nat)
    requires s.Loop?
    ensures StmtCode(s, base, id, cont, brk) == WhileShape(base, [ConstBool(true)], LoopBody(s.body, base + 2, id, base))
    ensures Exec(Compiled, s, st, fuel) == if fuel == 0 then OutOfFuel(st.out) else Again(Compiled, s, s.body, st, fuel)
  {
    hide LoopBody, WhileShape, Again;
  }

  lemma {:induction false} LoopRuns(s: Stmt, base: nat, id: nat, cont: nat, brk: nat, code: seq<Instr>, c: Config,
        st: State, fuel: nat)
    returns (n: nat, c': Config)
    requires s.Loop? && StmtReady(s, base, id, cont, brk, code, c, st)
    ensures Executes(code, c, Exec(Compiled, s, st, fuel), base + |StmtCode(s, base, id, cont, brk)|, cont, brk, fuel, n, c')
    decreases fuel, s, 1, 0
  {
    hide Has, LoopBody, Again, Agrees, WhileShape, StmtCode, Exec, Run;
    LoopUnfold(s, base, id, cont, brk, st, fuel);
    RunZero(code, c);
    if fuel == 0 {
      n, c' := 0, c;
    } else {
      var cb := LoopBody(s.body, base + 2, id, base);
      WhileParts(base, [ConstBool(true)], cb, code);
      HasOne(code, base, ConstBool(true));
      var s0;
      n, s0 := Hop(code, c, 0, c, ConstBool(true));
      n, c' := CondGlue(code, base + 1, base + 2 + |cb| + 1, c, Val(Bool(true), st.vars), n, s0.c);
      var c1 := c';
      var m, c2 := TurnRuns(s, base, id, id, base + 2, cont, brk, code, c1, st, fuel);
      TurnGlue(code, c, n, c1, Again(Compiled, s, s.body, st, fuel), m, c2, base + 2 + |cb| + 1, cont, brk, fuel);
      n, c' := n + m, c2;
    }
  }

  // ----- for -----

  /** Code that leaves the container to iterate over on the stack. */
  lemma SourceRuns(s: Stmt, base: nat, id: nat, code: seq<Instr>, c: Config, st: Store)
    returns (n: nat, c': Config)
    requires s.ForIn? || s.ForRange?
    requires Has(code, base, SourceCode(s, base, id)) && c.pc == base && Agrees(st, c.globals)
    ensures var r := ForSource(Compiled, s, st);
            && (r.Fail? ==> Run(code, Running(c), n) == Status.Failed(r.error, c.out))
            && (r.Val? ==>
                && Run(code, Running(c), n) == Running(c') && c'.pc == base + |SourceCode(s, base, id)|
                && c'.stack == c.stack + [r.value] && c'.out == c.out && c.iters <= c'.iters && Agrees(r.st, c'.globals))
  {
    hide Run, Has, Agrees, ExprCode, Eval;
    if s.ForIn? {
      n, c' := ExprRuns(s.iterable, base, id, code, c, st);
      ExprOutcome(s.iterable, base, id, code, c, st, n, c');
    } else {
      n, c' := RangeRuns(s, base, id, code, c, st);
    }
  }

  lemma {:induction false} RangeParts(s: Stmt, base: nat, id: nat, code: seq<Instr>)
    requires s.ForRange? && Has(code, base, SourceCode(s, base, id))
    ensures var ca := ExprCode(s.from, base, id);
            var cb := ExprCode(s.to, base + |ca|, id + Temps(s.from));
            var p := base + |ca| + |cb|;
            var cs := StepCode(s.step, p, id + Temps(s.from) + Temps(s.to));
            && Has(code, base, ca) && Has(code, base + |ca|, cb) && Has(code, p, cs)
            && Has(code, p + |cs|, [CallBuiltin(Range3, 3)]) && base + |SourceCode(s, base, id)| == p + |cs| + 1
  {
    hide Has, ExprCode, StepCode;
    var ca := ExprCode(s.from, base, id);
    var cb := ExprCode(s.to, base + |ca|, id + Temps(s.from));
    var p := base + |ca| + |cb|;
    var cs := StepCode(s.step, p, id + Temps(s.from) + Temps(s.to));
    HasSplit(code, base, ca + cb + cs, [CallBuiltin(Range3, 3)]);
    HasSplit(code, base, ca + cb, cs);
    HasSplit(code, base, ca, cb);
  }

  lemma StepRuns(step: Option<Expr>, base: nat, id: nat, code: seq<Instr>, c: Config, st: Store)
    returns (n: nat, c': Config)
    requires Has(code, base, StepCode(step, base, id)) && c.pc == base && Agrees(st, c.globals)
    ensures var r := Eval(Compiled, StepExpr(step), st);
            && (r.Fail? ==> Run(code, Running(c), n) == Status.Failed(r.error, c.out))
            && (r.Val? ==>
                && Run(code, Running(c), n) == Running(c') && c'.pc == base + |StepCode(step, base, id)|
                && c'.stack == c.stack + [r.value] && c'.out == c.out && c.iters <= c'.iters && Agrees(r.st, c'.globals))
  {
    hide Run, Has, Agrees, ExprCode, Eval;
    if step.Some? {
      n, c' := ExprRuns(step.value, base, id, code, c, st);
      ExprOutcome(step.value, base, id, code, c, st, n, c');
    } else {
      UnitStep(Compiled, st);
      HasOne(code, base, ConstInt(1));
      RunZero(code, c);
      var s0;
      n, s0 := Hop(code, c, 0, c, ConstInt(1));
      c' := s0.c;
    }
  }

  lemma RangeRuns(s: Stmt, base: nat, id: nat, code: seq<Instr>, c: Config, st: Store)
    returns (n: nat, c': Config)
    requires s.ForRange?
    requires Has(code, base, SourceCode(s, base, id)) && c.pc == base && Agrees(st, c.globals)
    ensures var r := ForSource(Compiled, s, st);
            && (r.Fail? ==> Run(code, Running(c), n) == Status.Failed(r.error, c.out))
            && (r.Val? ==>
                && Run(code, Running(c), n) == Running(c') && c'.pc == base + |SourceCode(s, base, id)|
                && c'.stack == c.stack + [r.value] && c'.out == c.out && c.iters <= c'.iters && Agrees(r.st, c'.globals))
  {
    hide Run, Has, Agrees, ExprCode, Eval, StepCode, Range3Values, SourceCode, Temps, StepInstr;
    RangeParts(s, base, id, code);
    var ca := ExprCode(s.from, base, id);
    var cb := ExprCode(s.to, base + |ca|, id + Temps(s.from));
    var p := base + |ca| + |cb|;
    var i2 := id + Temps(s.from) + Temps(s.to);
    var cs := StepCode(s.step, p, i2);
    n, c' := ExprRuns(s.from, base, id, code, c, st);
    ExprOutcome(s.from, base, id, code, c, st, n, c');
    var ra := Eval(Compiled, s.from, st);
    if ra.Val? {
      var c1 := c';
      var m, c2 := ExprRuns(s.to, base + |ca|, id + Temps(s.from), code, c1, ra.st);
      ExprOutcome(s.to, base + |ca|, id + Temps(s.from), code, c1, ra.st, m, c2);
      Then(code, c, n, c1, m);
      n, c' := n + m, c2;
      var rb := Eval(Compiled, s.to, ra.st);
      if rb.Val? {
        var m, c3 := StepRuns(s.step, p, i2, code, c2, rb.st);
        Then(code, c, n, c2, m);
        n, c' := n + m, c3;
        var rc := Eval(Compiled, StepExpr(s.step), rb.st);
        if rc.Val? {
          HasOne(code, p + |cs|, CallBuiltin(Range3, 3));
          var args := [ra.value, rb.value, rc.value];
          assert c3.stack == c.stack + args;
          var s0;
          n, s0 := Hop(code, c, n, c3, CallBuiltin(Range3, 3));
          CallSteps(c3, Range3, c.stack, args);
          c' := if s0.Running? then s0.c else c3;
        }
      }
    }
  }

  lemma ForParts(base: nat, src: seq<Instr>, x: Name, body: seq<Instr>, code: seq<Instr>)
    requires Has(code, base, ForShape(base, src, x, body))
    ensures var start := base + |src| + 1;
            var exit := start + 2 + |body| + 1;
            && Has(code, base, src) && Has(code, start - 1, [Iter])
            && Has(code, start, [IterNext(start + 1, exit), StoreGlobal(x)])
            && Has(code, start + 2, body) && Has(code, exit - 1, [Jump(start)])
            && exit == base + |ForShape(base, src, x, body)|
  {
    hide Has;
    var start := base + |src| + 1;
    var exit := start + 2 + |body| + 1;
    var head := [IterNext(start + 1, exit), StoreGlobal(x)];
    assert [Iter, IterNext(start + 1, exit), StoreGlobal(x)] == [Iter] + head;
    HasSplit(code, base, src + ([Iter] + head) + body, [Jump(start)]);
    HasSplit(code, base, src + ([Iter] + head), body);
    HasSplit(code, base, src, [Iter] + head);
    HasSplit(code, start - 1, [Iter], head);
  }

  lemma {:induction false} ForUnfold(s: Stmt, base: nat, id: nat, cont: nat, brk: nat, st: State, fuel: nat)
    requires s.ForIn? || s.ForRange?
    ensures var src := SourceCode(s, base, id);
            var start := base + |src| + 1;
            StmtCode(s, base, id, cont, brk)
            == ForShape(base, src, User(s.name), LoopBody(s.body, start + 2, id + TempsSource(s), start))
    ensures var r := ForSource(Compiled, s, st.vars);
            Exec(Compiled, s, st, fuel)
            == if r.Fail? then ExecResult.Failed(r.error, st.out)
               else ExecFor(Compiled, s.name, s.body, [Items(r.value)], State(r.st, st.out), fuel)
  {
    hide SourceCode, LoopBody, ForShape, ForSource, ExecFor, TempsSource;
  }

  /** The loop of a `for` statement, standing at its `IterNext`. On top of the handle of its own iterator
      there may be others. */
  ghost predicate AtFor(c: Config, start: nat, stack: seq<Value>, base: nat, its: seq<seq<Value>>, st: State) {
    c.pc == start && its != [] && Leaves(stack, base, c, its) && Holds(c, st)
  }

  ghost predicate ForAt(body: Block, x: string, start: nat, id: nat, code: seq<Instr>) {
    var cb := LoopBody(body, start + 2, id, start);
    var exit := start + 2 + |cb| + 1;
    && Has(code, start, [IterNext(start + 1, exit), StoreGlobal(User(x))])
    && Has(code, start + 2, cb) && Has(code, exit - 1, [Jump(start)])
  }

  /** As `Executes`, for a loop whose iterators are not older than `base` and lie above `stack`. */
  ghost predicate Drains(code: seq<Instr>, c: Config, r: ExecResult, end: nat, stack: seq<Value>, base: nat,
                         fuel: nat, n: nat, c': Config)
    requires base <= |c.iters|
  {
    match r
    case Done(exit, st, leaks) =>
      && exit == Normal
      && Run(code, Running(c), n) == Running(c') && c'.pc == end
      && Leaves(stack, base, c', leaks)
      && c'.out == st.out && c.iters[..base] <= c'.iters && Agrees(st.vars, c'.globals)
    case Failed(err, out) => Run(code, Running(c), n) == Status.Failed(err, out)
    case OutOfFuel(out) => Run(code, Running(c), n) == Running(c') && c'.out == out && n >= fuel
  }

  lemma TopHandle(stack: seq<Value>, base: nat, c: Config, its: seq<seq<Value>>) returns (h: nat)
    requires its != [] && Leaves(stack, base, c, its)
    ensures base <= h < |c.iters| && Remaining(c.iters[h]) == its[|its| - 1]
    ensures c.stack == c.stack[..|c.stack| - 1] + [Int(h)] && |stack| < |c.stack|
    ensures Held(c.stack[|stack|..|c.stack| - 1], base, c.iters[..h], its[..|its| - 1])
  {
    hide Remaining;
    var vs := c.stack[|stack|..];
    assert HeldOn(vs[|vs| - 1], vs[..|vs| - 1], base, c.iters, its);
    assert vs[..|vs| - 1] == c.stack[|stack|..|c.stack| - 1];
    h := c.stack[|c.stack| - 1].i;
  }

  /** Dropping the iterator on top leaves the ones below, which have other handles. */
  lemma BelowKept(stack: seq<Value>, base: nat, c: Config, its: seq<seq<Value>>, h: nat, it: Iterator, c': Config)
    requires base <= h < |c.iters| && |stack| < |c.stack| && stack <= c.stack
    requires Held(c.stack[|stack|..|c.stack| - 1], base, c.iters[..h], its)
    requires c'.iters == c.iters[h := it] && c'.stack == c.stack[..|c.stack| - 1]
    ensures Leaves(stack, base, c', its)
  {
    hide Held;
    assert c'.stack[|stack|..] == c.stack[|stack|..|c.stack| - 1];
    HeldGrows(c'.stack[|stack|..], base, c.iters[..h], its, c'.iters);
  }

  lemma TopMoved(stack: seq<Value>, base: nat, c: Config, its: seq<seq<Value>>, h: nat, it: Iterator, c': Config)
    requires base <= h < |c.iters| && |stack| < |c.stack| && stack <= c.stack && c.stack[|c.stack| - 1] == Int(h)
    requires Held(c.stack[|stack|..|c.stack| - 1], base, c.iters[..h], its)
    requires c'.iters == c.iters[h := it] && c'.stack == c.stack
    ensures Leaves(stack, base, c', its + [Remaining(it)])
  {
    hide Remaining;
    var vs, its' := c'.stack[|stack|..], its + [Remaining(it)];
    assert vs[..|vs| - 1] == c.stack[|stack|..|c.stack| - 1] && c'.iters[..h] == c.iters[..h] && its'[..|its|] == its;
    hide Held;
    assert HeldOn(vs[|vs| - 1], vs[..|vs| - 1], base, c'.iters, its');
    HeldTop(vs, base, c'.iters, its');
  }

  lemma HeldTop(vs: seq<Value>, base: nat, iters: seq<Iterator>, its: seq<seq<Value>>)
    requires |vs| == |its| > 0 && HeldOn(vs[|vs| - 1], vs[..|vs| - 1], base, iters, its)
    ensures Held(vs, base, iters, its)
  {
  }

  /** One look at the iterator on top: it is dropped, or it yields an item and the body begins. */
  lemma LookRuns(body: Block, x: string, start: nat, id: nat, code: seq<Instr>, c: Config, stack: seq<Value>, base: nat,
        its: seq<seq<Value>>, st: State)
    returns (n: nat, c': Config)
    requires ForAt(body, x, start, id, code) && AtFor(c, start, stack, base, its, st)
    ensures var below, top := its[..|its| - 1], its[|its| - 1];
            && Run(code, Running(c), n) == Running(c') && n > 0 && c'.out == c.out && |c'.iters| == |c.iters|
            && c.iters[..base] == c'.iters[..base]
            && if top == [] then
                 c'.pc == start + 2 + |LoopBody(body, start + 2, id, start)| + 1
                 && Leaves(stack, base, c', below) && c'.globals == c.globals
               else
                 c'.pc == start + 2 && c'.stack == c.stack
                 && Leaves(stack, base, c', below + [top[1..]]) && c'.globals == c.globals[User(x) := top[0]]
  {
    assert stack <= c.stack;
    hide Run, Has, Agrees, LoopBody, Leaves, Held, Remaining, Items;
    var top := its[|its| - 1];
    var exit := start + 2 + |LoopBody(body, start + 2, id, start)| + 1;
    var h := TopHandle(stack, base, c, its);
    var it := c.iters[h];
    n, c' := EnterBody(code, start, exit, User(x), c, h, it, c.stack[..|c.stack| - 1]);
    RemainingParts(it);
    if top == [] {
      BelowKept(stack, base, c, its[..|its| - 1], h, Iterator(Null, 0), c');
    } else {
      TopMoved(stack, base, c, its[..|its| - 1], h, it.(pos := it.pos + 1), c');
    }
  }

  lemma RemainingParts(it: Iterator)
    ensures Remaining(it) == [] <==> it.pos >= |Items(it.container)|
    ensures Remaining(it) != [] ==>
              && it.pos < |Items(it.container)| && Remaining(it)[0] == Items(it.container)[it.pos]
              && Remaining(it)[1..] == Remaining(it.(pos := it.pos + 1))
  {
    hide Items;
  }

  lemma {:induction false} ForLoop(body: Block, x: string, start: nat, id: nat, code: seq<Instr>, c: Config,
        stack: seq<Value>, base: nat, its: seq<seq<Value>>, st: State, fuel: nat)
    returns (n: nat, c': Config)
    requires ForAt(body, x, start, id, code) && AtFor(c, start, stack, base, its, st)
    requires base <= |c.iters|
    ensures Drains(code, c, ExecFor(Compiled, x, body, its, st, fuel),
                   start + 2 + |LoopBody(body, start + 2, id, start)| + 1, stack, base, fuel, n, c')
    decreases fuel, body, 3
  {
    hide Has, Run, LoopBody, ExecBlock, ExecFor, Agrees, Leaves, ForAt, ForRest;
    var below, top := its[..|its| - 1], its[|its| - 1];
    ForMeans(x, body, its, st, fuel);
    if top != [] && fuel == 0 {
      RunZero(code, c);
      n, c' := 0, c;
    } else {
      n, c' := LookRuns(body, x, start, id, code, c, stack, base, its, st);
      if top != [] {
        var st1 := State(st.vars[x := top[0]], st.out);
        AssignAgrees(st.vars, c.globals, x, top[0]);
        var c1 := c';
        var m, c2 := RoundRuns(body, x, start, id, code, c1, stack, base, below + [top[1..]], st1, fuel);
        DrainsLater(code, c, n, c1, ForRest(x, body, below + [top[1..]], ExecBlock(Compiled, body, st1, fuel), fuel),
                    start + 2 + |LoopBody(body, start + 2, id, start)| + 1, stack, base, fuel, m, c2);
        n, c' := n + m, c2;
      }
    }
  }

  /** A loop is a look at the iterator on top, and what is left after the body. */
  lemma ForMeans(x: string, body: Block, its: seq<seq<Value>>, st: State, fuel: nat)
    requires its != []
    ensures var below, top := its[..|its| - 1], its[|its| - 1];
            ExecFor(Compiled, x, body, its, st, fuel)
            == if top == [] then Done(Normal, st, below)
               else if fuel == 0 then OutOfFuel(st.out)
               else ForRest(x, body, below + [top[1..]], ExecBlock(Compiled, body, State(st.vars[x := top[0]], st.out), fuel), fuel)
  {
    hide ExecBlock;
  }

  /** What is left of a loop after the body. */
  function ForRest(x: string, body: Block, its: seq<seq<Value>>, r: ExecResult, fuel: nat): ExecResult
    requires its != [] && fuel > 0
  {
    match r
    case Done(exit, st1, ls) =>
      if exit != Broke then ExecFor(Compiled, x, body, its + ls, st1, fuel - 1) else Done(Normal, st1, its + ls)
    case _ => r
  }

  lemma DrainsLater(code: seq<Instr>, c: Config, n: nat, c1: Config, r: ExecResult, end: nat, stack: seq<Value>,
        base: nat, fuel: nat, m: nat, c': Config)
    requires Run(code, Running(c), n) == Running(c1) && n > 0 && fuel > 0 && base <= |c.iters| == |c1.iters|
    requires c.iters[..base] == c1.iters[..base]
    requires Drains(code, c1, r, end, stack, base, fuel - 1, m, c')
    ensures Drains(code, c, r, end, stack, base, fuel, n + m, c')
  {
    hide Run, Agrees, Leaves;
    Then(code, c, n, c1, m);
  }

  /** The body, and the rounds after it. */
  lemma {:induction false} RoundRuns(body: Block, x: string, start: nat, id: nat, code: seq<Instr>, c: Config,
        stack: seq<Value>, base: nat, its: seq<seq<Value>>, st: State, fuel: nat)
    returns (n: nat, c': Config)
    requires ForAt(body, x, start, id, code) && fuel > 0 && its != [] && base <= |c.iters|
    requires c.pc == start + 2 && Leaves(stack, base, c, its) && Holds(c, st)
    ensures Drains(code, c, ForRest(x, body, its, ExecBlock(Compiled, body, st, fuel), fuel),
                   start + 2 + |LoopBody(body, start + 2, id, start)| + 1, stack, base, fuel - 1, n, c')
    decreases fuel, body, 2, 1
  {
    hide Has, Run, LoopBody, BlockCode, ExecBlock, ExecFor, Agrees, Leaves;
    var exit := start + 2 + |LoopBody(body, start + 2, id, start)| + 1;
    LoopBodyLen(body, start + 2, id, start);
    n, c' := BlockRuns(body, start + 2, id, start, exit, code, c, st, fuel);
    var r := ExecBlock(Compiled, body, st, fuel);
    if r.Done? {
      LeavesMore(stack, base, c, its, c', r.leaks);
      if r.exit != Broke {
        if r.exit == Normal {
          HasOne(code, exit - 1, Jump(start));
          var s0;
          n, s0 := Hop(code, c, n, c', Jump(start));
          LeavesSame(stack, base, c', s0.c, its + r.leaks);
          c' := s0.c;
        }
        var c1 := c';
        var m, c2 := ForLoop(body, x, start, id, code, c1, stack, base, its + r.leaks, r.st, fuel - 1);
        Then(code, c, n, c1, m);
        n, c' := n + m, c2;
      }
    }
  }

  lemma {:induction false} ForRuns(s: Stmt, base: nat, id: nat, cont: nat, brk: nat, code: seq<Instr>, c: Config,
        st: State, fuel: nat)
    returns (n: nat, c': Config)
    requires (s.ForIn? || s.ForRange?) && StmtReady(s, base, id, cont, brk, code, c, st)
    ensures Executes(code, c, Exec(Compiled, s, st, fuel), base + |StmtCode(s, base, id, cont, brk)|, cont, brk, fuel, n, c')
    decreases fuel, s, 1, 0
  {
    hide Has, Run, StmtCode, SourceCode, LoopBody, ForShape, ForSource, Exec, ExecFor, Items, Agrees, Leaves, Remaining;
    ForUnfold(s, base, id, cont, brk, st, fuel);
    var src := SourceCode(s, base, id);
    var start := base + |src| + 1;
    var cb := LoopBody(s.body, start + 2, id + TempsSource(s), start);
    ForParts(base, src, User(s.name), cb, code);
    n, c' := SourceRuns(s, base, id, code, c, st.vars);
    var r := ForSource(Compiled, s, st.vars);
    if r.Val? {
      var c1 := c';
      HasOne(code, start - 1, Iter);
      var s0;
      n, s0 := Hop(code, c, n, c1, Iter);
      assert Drop(c1.stack, 1) == c.stack;
      var c2 := s0.c;
      Fresh(c.stack, c1.iters, r.value, c2);
      var st1 := State(r.st, st.out);
      var its, b := [Items(r.value)], |c1.iters|;
      var m, c3 := ForLoop(s.body, s.name, start, id + TempsSource(s), code, c2, c.stack, b, its, st1, fuel);
      assert c2.iters[..b] == c1.iters;
      Then(code, c, n, c2, m);
      n, c' := n + m, c3;
      var x := ExecFor(Compiled, s.name, s.body, its, st1, fuel);
      if x.Done? {
        LeavesOlder(c.stack, b, |c.iters|, c3, x.leaks);
      }
    }
  }

  /** A new iterator has all the items. */
  lemma Fresh(stack: seq<Value>, iters: seq<Iterator>, v: Value, c: Config)
    requires c.stack == stack + [Int(|iters|)] && c.iters == iters + [Iterator(v, 0)]
    ensures Leaves(stack, |iters|, c, [Items(v)])
  {
    hide Items;
    var all := Items(v);
    assert all[0..] == all && Remaining(Iterator(v, 0)) == all;
    var vs := c.stack[|stack|..];
    assert vs == [Int(|iters|)];
    assert HeldOn(vs[0], [], |iters|, c.iters, [all]);
    HeldTop(vs, |iters|, c.iters, [all]);
  }
}
