/** Whole programs: the machine halts, fails or runs for ever exactly when the program does, with
    the same output, and the two readings of a program are compared. */
module BytecodePrograms {
  import opened Values
  import opened Ast
  import opened Source
  import opened Bytecode
  import opened Layout
  import opened BytecodeExprs
  import opened BytecodeStmts
  import opened Readings
  import opened Exits

  const START: Config := Config(0, [], map[], [], "")

  // ----- one run of the machine for every run of the program -----

  /** The machine's status matches the outcome of the program; as compiled, what is left on the stack are
      the iterators left behind. */
  ghost predicate Matches(rd: Reading, r: ExecResult, s: Status) {
    match r
    case Done(_, st, leaks) =>
      s.Halted? && s.c.out == st.out && Agrees(st.vars, s.c.globals) && (rd.Compiled? ==> Leaves([], 0, s.c, leaks))
    case Failed(err, out) => s == Status.Failed(err, out)
    case OutOfFuel(out) => s.Running? && s.c.out == out
  }

  lemma ProgramRuns(p: Block, fuel: nat) returns (n: nat)
    requires ClosedBlock(p)
    ensures Matches(Compiled, ExecBlock(Compiled, p, EMPTY, fuel), Run(ProgramCode(p), Running(START), n))
    ensures ExecBlock(Compiled, p, EMPTY, fuel).OutOfFuel? ==> n >= fuel
  {
    hide Run, ExecBlock, BlockCode, ClosedBlock, Leaves;
    var code := ProgramCode(p);
    var cp := BlockCode(p, 0, 0, 0, 0);
    assert Has(code, 0, cp + [Halt]);
    HasSplit(code, 0, cp, [Halt]);
    var c';
    n, c' := BlockRuns(p, 0, 0, 0, 0, code, START, EMPTY, fuel);
    var r := ExecBlock(Compiled, p, EMPTY, fuel);
    ClosedBlockExits(Compiled, p, EMPTY, fuel);
    if r.Done? {
      HasOne(code, |cp|, Halt);
      var s;
      n, s := Hop(code, START, n, c', Halt);
      LeavesSame([], 0, c', s.c, r.leaks);
    }
  }

  /** Two runs from the same start that have both stopped are the same. */
  lemma StoppedOnce(code: seq<Instr>, st: Status, n: nat, m: nat)
    requires !Run(code, st, n).Running?
    ensures m >= n ==> Run(code, st, m) == Run(code, st, n)
    ensures !Run(code, st, m).Running? ==> Run(code, st, m) == Run(code, st, n)
  {
    if m >= n {
      RunAdd(code, st, n, m - n);
      RunStopped(code, Run(code, st, n), m - n);
    } else if !Run(code, st, m).Running? {
      RunAdd(code, st, m, n - m);
      RunStopped(code, Run(code, st, m), n - m);
    }
  }

  ghost predicate MachineStops(p: Block) {
    exists n :: !Run(ProgramCode(p), Running(START), n).Running?
  }

  /** Wherever the program and the machine have both stopped, they agree: on the output, the
      variables, the error, and (as compiled) the iterators left behind. */
  ghost predicate SameOutcome(rd: Reading, p: Block) {
    forall n, fuel :: !Run(ProgramCode(p), Running(START), n).Running? && !ExecBlock(rd, p, EMPTY, fuel).OutOfFuel?
      ==> Matches(rd, ExecBlock(rd, p, EMPTY, fuel), Run(ProgramCode(p), Running(START), n))
  }

  /** The machine stops exactly when the program does, and then they agree. */
  lemma ProgramKept(p: Block)
    requires ClosedBlock(p)
    ensures MachineStops(p) <==> ProgramStops(Compiled, p)
    ensures SameOutcome(Compiled, p)
  {
    hide Run, ExecBlock, ClosedBlock, ProgramCode, Matches;
    var code := ProgramCode(p);
    forall n, fuel | !Run(code, Running(START), n).Running? && !ExecBlock(Compiled, p, EMPTY, fuel).OutOfFuel?
      ensures Matches(Compiled, ExecBlock(Compiled, p, EMPTY, fuel), Run(code, Running(START), n))
    {
      var m := ProgramRuns(p, fuel);
      MatchesStops(p, fuel, m);
      StoppedOnce(code, Running(START), n, m);
    }
    if n :| !Run(code, Running(START), n).Running? {
      var m := ProgramRuns(p, n);
      StoppedOnce(code, Running(START), n, m);
      MatchesStops(p, n, m);
      assert !ExecBlock(Compiled, p, EMPTY, n).OutOfFuel?;
    }
    if fuel :| !ExecBlock(Compiled, p, EMPTY, fuel).OutOfFuel? {
      var m := ProgramRuns(p, fuel);
      MatchesStops(p, fuel, m);
      assert !Run(code, Running(START), m).Running?;
    }
  }

  lemma MatchesStops(p: Block, fuel: nat, m: nat)
    requires Matches(Compiled, ExecBlock(Compiled, p, EMPTY, fuel), Run(ProgramCode(p), Running(START), m))
    ensures ExecBlock(Compiled, p, EMPTY, fuel).OutOfFuel? <==> Run(ProgramCode(p), Running(START), m).Running?
  {
    hide Run, ExecBlock, ProgramCode;
  }

  /** A program that never ends keeps the machine running, and every stage of its output is
      reached. */
  lemma DivergenceKept(p: Block, fuel: nat) returns (n: nat)
    requires ClosedBlock(p) && !ProgramStops(Compiled, p)
    ensures !MachineStops(p)
    ensures Run(ProgramCode(p), Running(START), n).Running? && n >= fuel
    ensures Run(ProgramCode(p), Running(START), n).c.out == ExecBlock(Compiled, p, EMPTY, fuel).out
  {
    hide Run, ExecBlock, ClosedBlock, ProgramCode;
    ProgramKept(p);
    n := ProgramRuns(p, fuel);
  }

  /** On plain programs the machine does what is documented. */
  lemma PlainProgramsKept(p: Block)
    requires ClosedBlock(p) && PlainBlock(p)
    ensures MachineStops(p) <==> ProgramStops(Documented, p)
    ensures SameOutcome(Documented, p)
  {
    hide Run, ExecBlock, ClosedBlock, ProgramCode, MachineStops, Leaves;
    forall fuel: nat ensures ExecBlock(Documented, p, EMPTY, fuel) == Erased(ExecBlock(Compiled, p, EMPTY, fuel)) {
      BlockAgrees(p, EMPTY, fuel);
    }
    ProgramKept(p);
    if ProgramStops(Compiled, p) {
      var fuel :| !ExecBlock(Compiled, p, EMPTY, fuel).OutOfFuel?;
      assert !ExecBlock(Documented, p, EMPTY, fuel).OutOfFuel?;
    }
    if ProgramStops(Documented, p) {
      var fuel :| !ExecBlock(Documented, p, EMPTY, fuel).OutOfFuel?;
      assert !ExecBlock(Compiled, p, EMPTY, fuel).OutOfFuel?;
    }
  }
}
