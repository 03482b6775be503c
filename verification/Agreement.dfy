/** When the two compilers agree: the stack machine and the register machine stop together and print the
    same exactly if the readings do, and so on plain programs that are steady. */
module Agreement {
  import opened Values
  import opened Ast
  import opened Source
  import opened Readings
  import opened Exits
  import Bytecode
  import Layout
  import BytecodePrograms
  import StaticIr
  import Lowering
  import opened LoweringExprs
  import opened LoweringStmts
  import opened SteadyRanges
  import LoweringPrograms
  import opened RangeQuirks

  /** Both machines have stopped with the same output: the native one has returned zero, or where the other
      reports an error it has trapped. */
  ghost predicate SameEnd(b: Bytecode.Status, i: StaticIr.IrStatus) {
    match b
    case Halted(c) => i == StaticIr.Returned(0, c.out)
    case Failed(_, out) => i == StaticIr.Trapped(out)
    case Running(_) => false
  }

  /** The machines stop together, wherever the register machine starts from. */
  ghost predicate StopTogether(p: Block, regs: map<nat, i64>)
    requires Lowering.StaticBlock(p)
  {
    && (BytecodePrograms.MachineStops(p) <==> LoweringPrograms.IrStops(Lowering.LowerProgram(p), regs))
    && forall n, m ::
         var b := Bytecode.Run(Layout.ProgramCode(p), Bytecode.Running(BytecodePrograms.START), n);
         var i := StaticIr.Run(Lowering.LowerProgram(p), StaticIr.Going(StaticIr.IrConfig(0, regs, "")), m);
         !b.Running? && !i.Going? ==> SameEnd(b, i)
  }

  ghost predicate SamePrint(c: ExecResult, l: ExecResult) {
    !c.OutOfFuel? && SameOutcome(c, l)
  }

  /** What the one compiler takes the program to mean prints what the other takes it to print. */
  ghost predicate ReadingsAgree(p: Block) {
    && (ProgramStops(Compiled, p) <==> ProgramStops(Lowered, p))
    && forall j, k :: !ExecBlock(Compiled, p, EMPTY, j).OutOfFuel? && !ExecBlock(Lowered, p, EMPTY, k).OutOfFuel?
         ==> SamePrint(ExecBlock(Compiled, p, EMPTY, j), ExecBlock(Lowered, p, EMPTY, k))
  }

  lemma BothStop(p: Block) returns (j: nat, k: nat)
    requires ReadingsAgree(p) && (ProgramStops(Compiled, p) || ProgramStops(Lowered, p))
    ensures !ExecBlock(Compiled, p, EMPTY, j).OutOfFuel? && !ExecBlock(Lowered, p, EMPTY, k).OutOfFuel?
    ensures SamePrint(ExecBlock(Compiled, p, EMPTY, j), ExecBlock(Lowered, p, EMPTY, k))
  {
    hide ExecBlock;
    j :| !ExecBlock(Compiled, p, EMPTY, j).OutOfFuel?;
    k :| !ExecBlock(Lowered, p, EMPTY, k).OutOfFuel?;
  }

  /** On every program of the fragment the machines stop together exactly when the readings agree. */
  lemma AgreementExact(g: Env, p: Block, regs: map<nat, i64>)
    requires LoweringPrograms.InFragment(g, p)
    ensures StopTogether(p, regs) <==> ReadingsAgree(p)
  {
    hide Bytecode.Run, StaticIr.Run, ExecBlock, Layout.ProgramCode, Lowering.LowerProgram;
    BytecodePrograms.ProgramKept(p);
    LoweringPrograms.LoweringKept(g, p, regs);
    if ReadingsAgree(p) {
      forall n, m ensures
        var b := Bytecode.Run(Layout.ProgramCode(p), Bytecode.Running(BytecodePrograms.START), n);
        var i := StaticIr.Run(Lowering.LowerProgram(p), StaticIr.Going(StaticIr.IrConfig(0, regs, "")), m);
        !b.Running? && !i.Going? ==> SameEnd(b, i)
      {
        var b := Bytecode.Run(Layout.ProgramCode(p), Bytecode.Running(BytecodePrograms.START), n);
        var i := StaticIr.Run(Lowering.LowerProgram(p), StaticIr.Going(StaticIr.IrConfig(0, regs, "")), m);
        if !b.Running? && !i.Going? {
          var j, k := BothStop(p);
          assert BytecodePrograms.Matches(Compiled, ExecBlock(Compiled, p, EMPTY, j), b);
          assert LoweringPrograms.Matches(ExecBlock(Lowered, p, EMPTY, k), i);
        }
      }
    }
    if StopTogether(p, regs) {
      forall j, k | !ExecBlock(Compiled, p, EMPTY, j).OutOfFuel? && !ExecBlock(Lowered, p, EMPTY, k).OutOfFuel?
        ensures SamePrint(ExecBlock(Compiled, p, EMPTY, j), ExecBlock(Lowered, p, EMPTY, k))
      {
        var n :| !Bytecode.Run(Layout.ProgramCode(p), Bytecode.Running(BytecodePrograms.START), n).Running?;
        var m :| !StaticIr.Run(Lowering.LowerProgram(p), StaticIr.Going(StaticIr.IrConfig(0, regs, "")), m).Going?;
        assert BytecodePrograms.Matches(Compiled, ExecBlock(Compiled, p, EMPTY, j),
                                        Bytecode.Run(Layout.ProgramCode(p), Bytecode.Running(BytecodePrograms.START), n));
        assert LoweringPrograms.Matches(ExecBlock(Lowered, p, EMPTY, k),
                                        StaticIr.Run(Lowering.LowerProgram(p), StaticIr.Going(StaticIr.IrConfig(0, regs, "")), m));
      }
    }
  }

  /** On plain programs that are steady the readings agree, both being what is documented. */
  lemma SteadyPlainAgree(g: Env, p: Block)
    requires ClosedBlock(p) && PlainBlock(p) && SettledProgram(g, p)
    ensures ReadingsAgree(p)
  {
    hide ExecBlock, SettledProgram, PlainBlock, ClosedBlock, Bytecode.Run, Layout.ProgramCode;
    forall fuel: nat ensures var c, l := ExecBlock(Compiled, p, EMPTY, fuel), ExecBlock(Lowered, p, EMPTY, fuel);
                             SamePrint(c, l) || (c.OutOfFuel? && l.OutOfFuel?)
    {
      BlockAgrees(p, EMPTY, fuel);
      ProgramsSame(g, p, fuel);
    }
    BytecodePrograms.ProgramKept(p);
    forall j, k | !ExecBlock(Compiled, p, EMPTY, j).OutOfFuel? && !ExecBlock(Lowered, p, EMPTY, k).OutOfFuel?
      ensures SamePrint(ExecBlock(Compiled, p, EMPTY, j), ExecBlock(Lowered, p, EMPTY, k))
    {
      var n :| !Bytecode.Run(Layout.ProgramCode(p), Bytecode.Running(BytecodePrograms.START), n).Running?;
      var s := Bytecode.Run(Layout.ProgramCode(p), Bytecode.Running(BytecodePrograms.START), n);
      assert BytecodePrograms.Matches(Compiled, ExecBlock(Compiled, p, EMPTY, j), s);
      assert BytecodePrograms.Matches(Compiled, ExecBlock(Compiled, p, EMPTY, k), s);
    }
  }

  /** The two compilers agree on the plain programs of the fragment that are steady. */
  lemma CompilersAgree(g: Env, p: Block, regs: map<nat, i64>)
    requires LoweringPrograms.InFragment(g, p) && PlainBlock(p) && SettledProgram(g, p)
    ensures StopTogether(p, regs)
  {
    hide *;
    assert ClosedBlock(p) by { FragmentClosed(g, p); }
    SteadyPlainAgree(g, p);
    AgreementExact(g, p, regs);
  }

  lemma FragmentClosed(g: Env, p: Block)
    requires LoweringPrograms.InFragment(g, p)
    ensures ClosedBlock(p)
  {
  }
}
