/** The emitter as the compiler runs it: it fills the tables of one function, and pushes
    instructions to the output. It emits what `Emission` defines. */
module Emitter {
  import opened Values
  import opened Words
  import opened StaticIr
  import opened X86
  import opened Emission
  import opened Simulation
  import opened Frames

  class X86Emitter {
    var out: seq<XInsn>
    var stackSlots: map<nat, int>
    var regAlloc: Alloc
    var usedCalleeSaved: seq<Gpr>
    var frameSize: nat

    constructor ()
      ensures out == []
    {
      out, stackSlots, regAlloc, usedCalleeSaved, frameSize := [], map[], map[], [], 0;
    }

    /** Registers up to `max` have a home. */
    ghost predicate Ready(max: nat)
      reads this
    {
      forall k: nat :: k <= max && k !in regAlloc ==> k in stackSlots && stackSlots[k] == SlotOf(k)
    }

    function CurrentFrame(): Frame
      reads this
    {
      Frame(usedCalleeSaved, frameSize)
    }

    method Push(i: XInsn)
      modifies this`out
      ensures out == old(out) + [i]
    {
      out := out + [i];
    }

    // ----- operands -----

    method LoadOperand(o: Operand, r: Gpr, ghost max: nat)
      requires Ready(max) && OperandBelow(o, max + 1)
      modifies this`out
      ensures out == old(out) + Load(regAlloc, o, r)
    {
      match o
      case Reg(n, _) =>
        if n in regAlloc {
          if regAlloc[n] != r {
            Push(MovReg(r, regAlloc[n]));
          }
        } else if n in stackSlots {
          Push(LoadSlot(r, stackSlots[n]));
        } else {
          Push(Zero(r));
        }
      case ImmI64(v) => Push(if v == 0 then Zero(r) else MovImm(r, v));
      case ImmBool(b) => Push(MovImm(r, if b then 1 else 0));
      case NullImm => Push(Zero(r));
    }

    method StoreOperand(n: nat, r: Gpr, ghost max: nat)
      requires Ready(max) && n <= max
      modifies this`out
      ensures out == old(out) + Store(regAlloc, n, r)
    {
      if n in regAlloc {
        if regAlloc[n] != r {
          Push(MovReg(regAlloc[n], r));
        }
      } else if n in stackSlots {
        Push(StoreSlot(stackSlots[n], r));
      }
    }

    // ----- instructions -----

    /** The immediate form where there is one, the register form through `rcx` otherwise. */
    method EmitApply(op: ArithOp, d: Gpr, rhs: Operand, ghost max: nat)
      requires Ready(max) && OperandBelow(rhs, max + 1)
      modifies this`out
      ensures out == old(out) + Apply(regAlloc, op, d, rhs)
    {
      hide Load;
      if rhs.ImmI64? {
        Push(if op.OpShl? || op.OpShr? then ShiftImm(op, d, rhs.i % 64) else AluImm(op, d, rhs.i));
      } else {
        LoadOperand(rhs, Rcx, max);
        Push(if op.OpShl? || op.OpShr? then ShiftCl(op, d) else Alu(op, d, Rcx));
      }
    }

    method EmitBin(op: ArithOp, dst: nat, lhs: Operand, rhs: Operand, ghost max: nat)
      requires Ready(max) && dst <= max && OperandBelow(lhs, max + 1) && OperandBelow(rhs, max + 1)
      modifies this`out
      ensures out == old(out) + BinCode(regAlloc, op, dst, lhs, rhs)
    {
      hide Load, Store, Apply, DivideCode;
      var division := op.OpDiv? || op.OpMod?;
      if lhs.Reg? && lhs.n == dst && !division && dst in regAlloc {
        EmitApply(op, regAlloc[dst], rhs, max);
      } else if division {
        EmitDivide(op, dst, lhs, rhs, max);
      } else {
        var d := if dst in regAlloc then regAlloc[dst] else Rax;
        LoadOperand(lhs, d, max);
        EmitApply(op, d, rhs, max);
        if dst !in regAlloc {
          StoreOperand(dst, Rax, max);
        }
      }
    }

    method EmitDivide(op: ArithOp, dst: nat, lhs: Operand, rhs: Operand, ghost max: nat)
      requires Ready(max) && dst <= max && OperandBelow(lhs, max + 1) && OperandBelow(rhs, max + 1) && IsDivision(op)
      modifies this`out
      ensures out == old(out) + DivideCode(regAlloc, op, dst, lhs, rhs)
    {
      hide Load, Store, FetchCode;
      ghost var o := out;
      EmitFetch(lhs, rhs, max);
      ghost var fetched := out;
      Push(Idiv(Rcx));
      if op.OpMod? {
        Push(MovReg(Rax, Rdx));
      }
      assert out == fetched + DivideTail(op);
      StoreOperand(dst, Rax, max);
      DivideSplit(regAlloc, op, dst, lhs, rhs);
    }

    method EmitFetch(lhs: Operand, rhs: Operand, ghost max: nat)
      requires Ready(max) && OperandBelow(lhs, max + 1) && OperandBelow(rhs, max + 1)
      modifies this`out
      ensures out == old(out) + FetchCode(regAlloc, lhs, rhs)
    {
      hide Load;
      LoadOperand(lhs, Rax, max);
      if rhs.ImmI64? {
        Push(Cqo);
        Push(MovImm(Rcx, rhs.i));
      } else {
        LoadOperand(lhs, Rax, max);
        LoadOperand(rhs, Rcx, max);
        Push(Cqo);
      }
    }

    method EmitCompare(lhs: Operand, rhs: Operand, ghost max: nat)
      requires Ready(max) && OperandBelow(lhs, max + 1) && OperandBelow(rhs, max + 1)
      modifies this`out
      ensures out == old(out) + (Load(regAlloc, lhs, Rax) + CompareCode(regAlloc, rhs))
    {
      hide Load;
      LoadOperand(lhs, Rax, max);
      if rhs.ImmI64? {
        Push(if rhs.i == 0 then Test(Rax) else CmpImm(Rax, rhs.i));
      } else {
        LoadOperand(rhs, Rcx, max);
        Push(CmpReg(Rax, Rcx));
      }
    }

    method EmitCall(dst: Option<nat>, f: Runtime, args: seq<Operand>, ghost max: nat)
      requires Ready(max) && (dst.Some? ==> dst.value <= max) && (forall k :: 0 <= k < |args| ==> OperandBelow(args[k], max + 1))
      modifies this`out
      ensures out == old(out) + CallCode(regAlloc, dst, f, args)
    {
      hide Load, Store, BeforeCall, AfterCall;
      EmitBeforeCall(args, max);
      Push(CallRuntime(f));
      EmitAfterCall(|args|);
      if dst.Some? {
        StoreOperand(dst.value, Rax, max);
      }
    }

    /** The padding, the arguments, and no vector registers. */
    method EmitBeforeCall(args: seq<Operand>, ghost max: nat)
      requires Ready(max) && (forall k :: 0 <= k < |args| ==> OperandBelow(args[k], max + 1))
      modifies this`out
      ensures out == old(out) + BeforeCall(regAlloc, args)
    {
      hide PushArgs, LoadArgs;
      var stackArgs := if |args| > 6 then |args| - 6 else 0;
      var pad := if (stackArgs * 8) % 16 != 0 then 8 else 0;
      if pad > 0 {
        Push(SubStack(pad));
      }
      EmitPushedArgs(args, max);
      EmitLoadedArgs(args, max);
      Push(Zero(Rax));
    }

    /** The pushed arguments and the padding come off the stack again. */
    method EmitAfterCall(n: nat)
      modifies this`out
      ensures out == old(out) + AfterCall(n)
    {
      var stackArgs := if n > 6 then n - 6 else 0;
      var pad := if (stackArgs * 8) % 16 != 0 then 8 else 0;
      if stackArgs > 0 {
        Push(AddStack(stackArgs * 8));
      }
      if pad > 0 {
        Push(AddStack(pad));
      }
    }

    /** The arguments that do not fit into registers, in reverse. */
    method EmitPushedArgs(args: seq<Operand>, ghost max: nat)
      requires Ready(max) && (forall k :: 0 <= k < |args| ==> OperandBelow(args[k], max + 1))
      modifies this`out
      ensures out == old(out) + PushArgs(regAlloc, args)
    {
      hide Load;
      var i := |args|;
      assert args[..i] == args;
      while i > 6
        invariant 0 <= i <= |args| && Ready(max)
        invariant out + PushArgs(regAlloc, args[..i]) == old(out) + PushArgs(regAlloc, args)
      {
        ghost var before, rest := out, args[..i];
        i := i - 1;
        assert rest[..|rest| - 1] == args[..i] && rest[|rest| - 1] == args[i];
        LoadOperand(args[i], Rax, max);
        Push(PushReg(Rax));
        assert out + PushArgs(regAlloc, args[..i]) == before + PushArgs(regAlloc, rest);
      }
      assert PushArgs(regAlloc, args[..i]) == [];
    }

    method EmitLoadedArgs(args: seq<Operand>, ghost max: nat)
      requires Ready(max) && (forall k :: 0 <= k < |args| ==> OperandBelow(args[k], max + 1))
      modifies this`out
      ensures out == old(out) + LoadArgs(regAlloc, args, 0)
    {
      hide Load;
      var i := 0;
      while i < |args| && i < 6
        invariant i <= |args| && i <= 6 && Ready(max)
        invariant out + LoadArgs(regAlloc, args, i) == old(out) + LoadArgs(regAlloc, args, 0)
      {
        ghost var before := out;
        LoadOperand(args[i], ARGUMENTS[i], max);
        assert LoadArgs(regAlloc, args, i) == Load(regAlloc, args[i], ARGUMENTS[i]) + LoadArgs(regAlloc, args, i + 1);
        i := i + 1;
        assert out + LoadArgs(regAlloc, args, i) == before + LoadArgs(regAlloc, args, i - 1);
      }
    }

    method EmitInsn(i: Insn, ghost max: nat)
      requires Ready(max) && InsnMax(i) <= max
      modifies this`out
      ensures out == old(out) + InsnCode(regAlloc, CurrentFrame(), i)
    {
      hide Load, Store, BinCode, CallCode, CompareCode, Epilogue, Pops, ArgsMax;
      match i
      case Label(l) => Push(XLabel(l));
      case Comment =>
      case Mov(dst, src) =>
        if dst in regAlloc {
          LoadOperand(src, regAlloc[dst], max);
        } else {
          LoadOperand(src, Rax, max);
          StoreOperand(dst, Rax, max);
        }
      case Box(dst, src, from) => EmitConversion(dst, src, BoxCall(from), max);
      case Unbox(dst, src, to) => EmitConversion(dst, src, UnboxCall(to), max);
      case Bin(op, dst, lhs, rhs) => EmitBin(op, dst, lhs, rhs, max);
      case DynBin(op, dst, lhs, rhs) => EmitCall(Some(dst), ValueOp(op), [lhs, rhs], max);
      case Neg(dst, src) => EmitThrough(dst, src, NegReg(Rax), max);
      case Not(dst, src) => EmitThrough(dst, src, AluImm(OpXor, Rax, 1), max);
      case Cmp(dst, cond, lhs, rhs) =>
        EmitCompare(lhs, rhs, max);
        Push(SetAl(cond));
        Push(MovzxAl);
        StoreOperand(dst, Rax, max);
      case Branch(cond, lhs, rhs, l) =>
        EmitCompare(lhs, rhs, max);
        Push(Jcc(cond, l));
      case BranchTrue(v, l) =>
        LoadOperand(v, Rax, max);
        Push(Test(Rax));
        Push(Jcc(CondNe, l));
      case Jump(l) => Push(Jmp(l));
      case Call(dst, f, args) =>
        ArgsBelow(args, max + 1);
        EmitCall(dst, f, args, max);
      case Ret(v) =>
        LoadOperand(v, Rax, max);
        EmitEpilogue();
    }

    method EmitConversion(dst: nat, src: Operand, f: Option<Runtime>, ghost max: nat)
      requires Ready(max) && dst <= max && OperandBelow(src, max + 1)
      modifies this`out
      ensures out == old(out) + ConvertCode(regAlloc, dst, src, f)
    {
      hide Load, Store;
      LoadOperand(src, if f.Some? then Rdi else Rax, max);
      if f.Some? {
        Push(CallRuntime(f.value));
      }
      StoreOperand(dst, Rax, max);
    }

    method EmitThrough(dst: nat, src: Operand, i: XInsn, ghost max: nat)
      requires Ready(max) && dst <= max && OperandBelow(src, max + 1)
      modifies this`out
      ensures out == old(out) + (Load(regAlloc, src, Rax) + [i] + Store(regAlloc, dst, Rax))
    {
      hide Load, Store;
      LoadOperand(src, Rax, max);
      Push(i);
      StoreOperand(dst, Rax, max);
    }

    method EmitEpilogue()
      modifies this`out
      ensures out == old(out) + Epilogue(CurrentFrame())
    {
      hide Pops;
      if frameSize > 0 {
        Push(AddStack(frameSize));
      }
      if |usedCalleeSaved| % 2 == 1 {
        Push(AddStack(8));
      }
      EmitPops();
      Push(PopBase);
      Push(RetNear);
    }

    method EmitPops()
      modifies this`out
      ensures out == old(out) + Pops(usedCalleeSaved)
    {
      ghost var all := Pops(usedCalleeSaved);
      var i := |usedCalleeSaved|;
      while i > 0
        invariant 0 <= i <= |usedCalleeSaved| == |all|
        invariant out == old(out) + all[..|usedCalleeSaved| - i]
      {
        i := i - 1;
        Push(PopReg(usedCalleeSaved[i]));
        assert all[..|usedCalleeSaved| - i] == all[..|usedCalleeSaved| - i - 1] + [PopReg(usedCalleeSaved[i])];
      }
      assert all[..|usedCalleeSaved|] == all;
    }

    // ----- functions -----

    /** The highest register of the body. */
    method HighestRegister(body: seq<Insn>) returns (max: nat)
      ensures max == BodyMax(body)
    {
      max := 0;
      var i := |body|;
      while i > 0
        invariant 0 <= i <= |body| && max == BodyMax(body[i..])
      {
        i := i - 1;
        assert body[i..][0] == body[i] && body[i..][1..] == body[i + 1..];
        max := Max(InsnMax(body[i]), max);
      }
      assert body[0..] == body;
    }

    /** Hands out registers and slots. */
    method Allocate(params: seq<nat>, max: nat)
      modifies this`regAlloc, this`stackSlots, this`usedCalleeSaved, this`frameSize
      ensures regAlloc == AllocOf(Order(params, max + 1)) && CurrentFrame() == FrameOf(params, max) && Ready(max)
    {
      var slots := (if max < |params| then |params| else max) + 1;
      frameSize := (slots * 8 + 15) / 16 * 16;
      var order := params;
      var j := 0;
      while j <= max
        invariant j <= max + 1 && order == Order(params, j)
      {
        if j !in order {
          order := order + [j];
        }
        j := j + 1;
      }
      assert j == max + 1;
      AssignRegisters(order);
      AssignSlots(max);
    }

    method AssignRegisters(order: seq<nat>)
      modifies this`regAlloc, this`usedCalleeSaved
      ensures regAlloc == AllocOf(order) && usedCalleeSaved == CALLEE[..Taken(order)]
    {
      regAlloc, usedCalleeSaved := map[], [];
      var i := 0;
      while i < |order| && i < |CALLEE|
        invariant i <= Taken(order) && regAlloc == AllocUpTo(order, i) && usedCalleeSaved == CALLEE[..i]
      {
        regAlloc := regAlloc[order[i] := CALLEE[i]];
        usedCalleeSaved := usedCalleeSaved + [CALLEE[i]];
        i := i + 1;
      }
    }

    method AssignSlots(max: nat)
      modifies this`stackSlots
      ensures Ready(max)
    {
      stackSlots := map[];
      var k := 0;
      while k <= max
        invariant k <= max + 1
        invariant forall n: nat :: n < k && n !in regAlloc ==> n in stackSlots && stackSlots[n] == SlotOf(n)
      {
        if k !in regAlloc {
          stackSlots := stackSlots[k := -8 * (k + 1)];
        }
        k := k + 1;
      }
    }

    method EmitPrologue()
      modifies this`out
      ensures out == old(out) + Prologue(CurrentFrame())
    {
      Push(PushBase);
      Push(MovBaseStack);
      ghost var o := out;
      var i := 0;
      while i < |usedCalleeSaved|
        invariant 0 <= i <= |usedCalleeSaved| && out == o + Pushes(usedCalleeSaved[..i])
      {
        Push(PushReg(usedCalleeSaved[i]));
        assert Pushes(usedCalleeSaved[..i + 1]) == Pushes(usedCalleeSaved[..i]) + [PushReg(usedCalleeSaved[i])];
        i := i + 1;
      }
      assert usedCalleeSaved[..i] == usedCalleeSaved;
      if |usedCalleeSaved| % 2 == 1 {
        Push(SubStack(8));
      }
      if frameSize > 0 {
        Push(SubStack(frameSize));
      }
    }

    /** The labels that some instruction jumps to. */
    method CollectTargets(body: seq<Insn>) returns (labels: set<nat>)
      ensures forall l :: l in labels <==> Referenced(body, l)
    {
      labels := {};
      var i := 0;
      while i < |body|
        invariant 0 <= i <= |body|
        invariant forall l :: l in labels <==> exists k :: 0 <= k < i && Targets(body[k], l)
      {
        var insn := body[i];
        ghost var before := labels;
        if insn.Jump? || insn.Branch? || insn.BranchTrue? {
          labels := labels + {insn.target};
        }
        forall l ensures l in labels <==> exists k :: 0 <= k < i + 1 && Targets(body[k], l) {
          assert l in labels <==> l in before || Targets(body[i], l);
        }
        i := i + 1;
      }
    }

    /** `main`: the tables, the prologue, the body without the instructions that are left out, and an
        epilogue unless the body ends in one. */
    method EmitMain(body: seq<Insn>)
      modifies this
      ensures out == old(out) + FunctionCode(AllocOf(Order([], BodyMax(body) + 1)), FrameOf([], BodyMax(body)), body)
    {
      hide InsnCode, Prologue, Epilogue, AllocOf, FrameOf, Order, InsnMax, Referenced;
      var max := HighestRegister(body);
      Allocate([], max);
      EmitPrologue();
      var labels := CollectTargets(body);
      BodyMaxBounds(body);
      ghost var o := out;
      var i := 0;
      while i < |body|
        invariant 0 <= i <= |body| && Ready(max)
        invariant regAlloc == AllocOf(Order([], max + 1)) && CurrentFrame() == FrameOf([], max)
        invariant out == o + CodeUpTo(regAlloc, CurrentFrame(), body, i)
      {
        var insn := body[i];
        var fallsThrough := insn.Jump? && i + 1 < |body| && body[i + 1] == Label(insn.target);
        var unused := insn.Label? && insn.l !in labels;
        if !fallsThrough && !unused {
          EmitInsn(insn, max);
        }
        i := i + 1;
      }
      if body == [] || !body[|body| - 1].Ret? {
        EmitEpilogue();
      }
    }
  }
}
