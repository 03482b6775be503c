/** The part of the x86-64 processor that the emitter targets: sixteen-byte stack alignment at
    calls, caller-saved registers lost at calls, immediates of thirty-two bits, and a division
    that faults. */
module X86 {
  import opened Values
  import opened Words
  import opened StaticIr

  datatype Gpr = Rax | Rbx | Rcx | Rdx | Rsi | Rdi | R8 | R9 | R12 | R13 | R14 | R15

  /** A word of stack memory. */
  datatype Word = Data(v: i64) | SavedBase(a: int) | ReturnAddress

  datatype Flags = NoFlags | Compared(a: i64, b: i64)

  /** `xor d, d` is `Zero(d)`; `test a, a` is `Test(a)`. */
  datatype XInsn =
    | XLabel(l: nat)
    | MovReg(d: Gpr, s: Gpr)
    | MovImm(d: Gpr, imm: i64)
    | Zero(d: Gpr)
    | LoadSlot(d: Gpr, off: int)
    | StoreSlot(off: int, s: Gpr)
    | Alu(op: ArithOp, d: Gpr, s: Gpr)
    | AluImm(op: ArithOp, d: Gpr, imm: i64)
    | ShiftImm(op: ArithOp, d: Gpr, k: nat)
    | ShiftCl(op: ArithOp, d: Gpr)
    | Cqo
    | Idiv(s: Gpr)
    | NegReg(d: Gpr)
    | CmpReg(d: Gpr, s: Gpr)
    | CmpImm(d: Gpr, imm: i64)
    | Test(d: Gpr)
    | SetAl(cond: Cond)
    | MovzxAl
    | Jcc(cond: Cond, l: nat)
    | Jmp(l: nat)
    | PushReg(s: Gpr)
    | PopReg(d: Gpr)
    | PushBase
    | PopBase
    | MovBaseStack
    | SubStack(n: nat)
    | AddStack(n: nat)
    | CallRuntime(f: Runtime)
    | RetNear

  /** `rsp` and `rbp` hold addresses; a register missing from the map holds nothing usable. */
  datatype Cpu = Cpu(pc: nat, regs: map<Gpr, i64>, flags: Flags, rsp: int, rbp: int, mem: map<int, Word>, out: string)

  datatype Effect = Next(x: Cpu) | DivideFault(out: string) | Stuck

  datatype XStatus = XGoing(x: Cpu) | XReturned(x: Cpu) | XFault(out: string) | XStuck

  predicate Fits32(v: i64) {
    -0x8000_0000 <= v < 0x8000_0000
  }

  predicate IsAlu(op: ArithOp) {
    op in {OpAdd, OpSub, OpMul, OpAnd, OpOr, OpXor}
  }

  predicate IsShift(op: ArithOp) {
    op in {OpShl, OpShr}
  }

  const CALLER_SAVED: set<Gpr> := {Rax, Rcx, Rdx, Rsi, Rdi, R8, R9}

  function SetReg(x: Cpu, d: Gpr, v: i64): Effect {
    Next(x.(regs := x.regs[d := v]))
  }

  function SetResult(x: Cpu, d: Gpr, v: i64): Effect {
    Next(x.(regs := x.regs[d := v], flags := NoFlags))
  }

  function Known(x: Cpu, rs: set<Gpr>): bool {
    rs <= x.regs.Keys
  }

  /** The argument registers a library function reads. */
  function ArgValues(f: Runtime, x: Cpu): Option<seq<i64>> {
    match f
    case ValueOp(_) => if Known(x, {Rdi, Rsi}) then Some([x.regs[Rdi], x.regs[Rsi]]) else None
    case ValueCmp(_) => if Known(x, {Rdi, Rsi}) then Some([x.regs[Rdi], x.regs[Rsi]]) else None
    case LoadGlobalValue(_) => None
    case _ => if Known(x, {Rdi}) then Some([x.regs[Rdi]]) else None
  }

  predicate Prints(f: Runtime) {
    f.PrintValue? || f.PrintlnValue?
  }

  /** A call: the callee keeps the callee-saved registers and the stack from `rsp` upwards, and
      nothing else. */
  function CallEffect(f: Runtime, x: Cpu): Effect {
    if x.rsp % 16 != 0 || ArgValues(f, x).None? then Stuck
    else
      match Invoke(f, ArgValues(f, x).value)
      case NotModelled => Stuck
      case Refused => DivideFault(x.out)
      case Answer(v, text) =>
        var kept := map r | r in x.regs && r !in CALLER_SAVED :: x.regs[r];
        Next(x.(regs := if Prints(f) then kept else kept[Rax := v], flags := NoFlags,
                mem := map a | a in x.mem && a >= x.rsp :: x.mem[a], out := x.out + text))
  }

  function LowByte(v: i64): i64 {
    v % 256
  }

  /** Every instruction but the jumps and `ret`. */
  function Effects(i: XInsn, x: Cpu): Effect {
    match i
    case XLabel(_) => Next(x)
    case MovReg(d, s) => if s in x.regs then SetReg(x, d, x.regs[s]) else Stuck
    case MovImm(d, v) => SetReg(x, d, v)
    case Zero(d) => SetResult(x, d, 0)
    case LoadSlot(d, off) =>
      if x.rbp + off in x.mem && x.mem[x.rbp + off].Data? then SetReg(x, d, x.mem[x.rbp + off].v) else Stuck
    case StoreSlot(off, s) => if s in x.regs then Next(x.(mem := x.mem[x.rbp + off := Data(x.regs[s])])) else Stuck
    case Alu(op, d, s) =>
      if Known(x, {d, s}) && IsAlu(op) then SetResult(x, d, Arith(op, x.regs[d], x.regs[s])) else Stuck
    case AluImm(op, d, v) => if d in x.regs && IsAlu(op) && Fits32(v) then SetResult(x, d, Arith(op, x.regs[d], v)) else Stuck
    case ShiftImm(op, d, k) =>
      if d in x.regs && IsShift(op) && k < 256 then SetResult(x, d, Shifted(op, x.regs[d], k % 64)) else Stuck
    case ShiftCl(op, d) =>
      if Known(x, {d, Rcx}) && IsShift(op) then SetResult(x, d, Shifted(op, x.regs[d], LowByte(x.regs[Rcx]) % 64)) else Stuck
    case Cqo => if Rax in x.regs then SetReg(x, Rdx, if x.regs[Rax] < 0 then -1 else 0) else Stuck
    case Idiv(s) =>
      if !Known(x, {Rax, Rdx, s}) || x.regs[Rdx] != (if x.regs[Rax] < 0 then -1 else 0) then Stuck
      else if Traps(OpDiv, x.regs[Rax], x.regs[s]) then DivideFault(x.out)
      else
        Next(x.(regs := x.regs[Rax := Arith(OpDiv, x.regs[Rax], x.regs[s])][Rdx := Arith(OpMod, x.regs[Rax], x.regs[s])],
                flags := NoFlags))
    case NegReg(d) => if d in x.regs then SetResult(x, d, Arith(OpSub, 0, x.regs[d])) else Stuck
    case CmpReg(d, s) => if Known(x, {d, s}) then Next(x.(flags := Compared(x.regs[d], x.regs[s]))) else Stuck
    case CmpImm(d, v) => if d in x.regs && Fits32(v) then Next(x.(flags := Compared(x.regs[d], v))) else Stuck
    case Test(d) => if d in x.regs then Next(x.(flags := Compared(x.regs[d], 0))) else Stuck
    case SetAl(c) =>
      if Rax in x.regs && x.flags.Compared? then
        SetReg(x, Rax, Wrap(x.regs[Rax] - LowByte(x.regs[Rax]) + Truth(CondHolds(c, x.flags.a, x.flags.b))))
      else Stuck
    case MovzxAl => if Rax in x.regs then SetReg(x, Rax, LowByte(x.regs[Rax])) else Stuck
    case PushReg(s) =>
      if s in x.regs then Next(x.(rsp := x.rsp - 8, mem := x.mem[x.rsp - 8 := Data(x.regs[s])])) else Stuck
    case PopReg(d) =>
      if x.rsp in x.mem && x.mem[x.rsp].Data? then Next(x.(rsp := x.rsp + 8, regs := x.regs[d := x.mem[x.rsp].v])) else Stuck
    case PushBase => Next(x.(rsp := x.rsp - 8, mem := x.mem[x.rsp - 8 := SavedBase(x.rbp)]))
    case PopBase =>
      if x.rsp in x.mem && x.mem[x.rsp].SavedBase? then Next(x.(rsp := x.rsp + 8, rbp := x.mem[x.rsp].a)) else Stuck
    case MovBaseStack => Next(x.(rbp := x.rsp))
    case SubStack(n) => Next(x.(rsp := x.rsp - n, flags := NoFlags))
    case AddStack(n) => Next(x.(rsp := x.rsp + n, flags := NoFlags))
    case CallRuntime(f) => CallEffect(f, x)
    case _ => Stuck
  }

  function Shifted(op: ArithOp, a: i64, k: nat): i64
    requires IsShift(op)
  {
    if op.OpShl? then ShiftLeft(a, k) else ShiftRight(a, k)
  }

  function FindX(code: seq<XInsn>, l: nat): Option<nat> {
    if code == [] then None
    else if code[0] == XLabel(l) then Some(0)
    else
      match FindX(code[1..], l)
      case Some(k) => Some(k + 1)
      case None => None
  }

  function JumpTo(code: seq<XInsn>, x: Cpu, l: nat): XStatus {
    match FindX(code, l)
    case Some(k) => XGoing(x.(pc := k))
    case None => XStuck
  }

  function StepX(code: seq<XInsn>, s: XStatus): XStatus {
    if !s.XGoing? then s
    else
      var x := s.x;
      if x.pc >= |code| then XStuck
      else
        match code[x.pc]
        case Jmp(l) => JumpTo(code, x, l)
        case Jcc(c, l) =>
          if !x.flags.Compared? then XStuck
          else if CondHolds(c, x.flags.a, x.flags.b) then JumpTo(code, x, l)
          else XGoing(x.(pc := x.pc + 1))
        case RetNear =>
          if x.rsp in x.mem && x.mem[x.rsp].ReturnAddress? then XReturned(x.(rsp := x.rsp + 8)) else XStuck
        case i =>
          match Effects(i, x)
          case Next(y) => XGoing(y.(pc := x.pc + 1))
          case DivideFault(out) => XFault(out)
          case Stuck => XStuck
  }

  function RunX(code: seq<XInsn>, s: XStatus, n: nat): XStatus
    decreases n
  {
    if n == 0 then s else RunX(code, StepX(code, s), n - 1)
  }

  lemma {:induction false} RunXAdd(code: seq<XInsn>, s: XStatus, n: nat, m: nat)
    ensures RunX(code, s, n + m) == RunX(code, RunX(code, s, n), m)
    decreases n
  {
    if n > 0 {
      RunXAdd(code, StepX(code, s), n - 1, m);
    }
  }

  lemma {:induction false} RunXStopped(code: seq<XInsn>, s: XStatus, n: nat)
    requires !s.XGoing?
    ensures RunX(code, s, n) == s
  {
    if n > 0 {
      RunXStopped(code, s, n - 1);
    }
  }

  // ----- straight-line code -----

  function EffectsOf(frag: seq<XInsn>, x: Cpu): Effect {
    if frag == [] then Next(x)
    else
      match Effects(frag[0], x)
      case Next(y) => EffectsOf(frag[1..], y)
      case e => e
  }

  lemma {:induction false} EffectsAppend(a: seq<XInsn>, b: seq<XInsn>, x: Cpu)
    ensures EffectsOf(a + b, x) == if EffectsOf(a, x).Next? then EffectsOf(b, EffectsOf(a, x).x) else EffectsOf(a, x)
  {
    if a == [] {
      assert a + b == b;
    } else {
      assert (a + b)[1..] == a[1..] + b;
      if Effects(a[0], x).Next? {
        EffectsAppend(a[1..], b, Effects(a[0], x).x);
      }
    }
  }

  lemma EffectsOne(i: XInsn, x: Cpu)
    ensures EffectsOf([i], x) == Effects(i, x)
  {
  }

  predicate HasX(code: seq<XInsn>, at: nat, frag: seq<XInsn>) {
    at + |frag| <= |code| && code[at..at + |frag|] == frag
  }

  lemma HasXSplit(code: seq<XInsn>, at: nat, a: seq<XInsn>, b: seq<XInsn>)
    requires HasX(code, at, a + b)
    ensures HasX(code, at, a) && HasX(code, at + |a|, b)
  {
    assert (a + b)[..|a|] == a && (a + b)[|a|..] == b;
    assert code[at..at + |a|] == code[at..at + |a + b|][..|a|];
    assert code[at + |a|..at + |a| + |b|] == code[at..at + |a + b|][|a|..];
  }

  lemma HasXAt(code: seq<XInsn>, at: nat, frag: seq<XInsn>, k: nat)
    requires HasX(code, at, frag) && k < |frag|
    ensures at + k < |code| && code[at + k] == frag[k]
  {
    assert code[at..at + |frag|][k] == code[at + k];
  }

  /** Neither a jump nor `ret`. */
  predicate Plain(i: XInsn) {
    !i.Jmp? && !i.Jcc? && !i.RetNear?
  }

  predicate AllPlain(frag: seq<XInsn>) {
    forall k :: 0 <= k < |frag| ==> Plain(frag[k])
  }

  /** The effect of an instruction does not depend on where it stands. */
  ghost predicate SameEffect(i: XInsn, x: Cpu, pc: nat) {
    Effects(i, x.(pc := pc)) == match Effects(i, x)
                                case Next(y) => Next(y.(pc := pc))
                                case e => e
  }

  predicate Calculates(i: XInsn) {
    i.Alu? || i.AluImm? || i.ShiftImm? || i.ShiftCl? || i.Idiv? || i.NegReg? || i.SetAl?
  }

  lemma CalculationMoved(i: XInsn, x: Cpu, pc: nat)
    requires Calculates(i)
    ensures SameEffect(i, x, pc)
  {
    hide Arith, Shifted, LowByte, Wrap, CondHolds, Truth, IsAlu, IsShift, Fits32, Traps;
  }

  lemma OtherMoved(i: XInsn, x: Cpu, pc: nat)
    requires !Calculates(i)
    ensures SameEffect(i, x, pc)
  {
    hide LowByte, Invoke, Fits32;
  }

  lemma {:induction false} EffectsMoved(i: XInsn, x: Cpu, pc: nat)
    ensures Effects(i, x.(pc := pc)) == match Effects(i, x)
                                        case Next(y) => Next(y.(pc := pc))
                                        case e => e
    ensures Effects(i, x).Next? ==> Effects(i, x).x.pc == x.pc
  {
    hide Effects, Calculates;
    EffectsStay(i, x);
    if Calculates(i) {
      CalculationMoved(i, x, pc);
    } else {
      OtherMoved(i, x, pc);
    }
  }

  lemma {:induction false} EffectsStay(i: XInsn, x: Cpu)
    ensures Effects(i, x).Next? ==> Effects(i, x).x.pc == x.pc
  {
    hide Arith, ShiftLeft, ShiftRight, Wrap, CondHolds, Truth, Invoke;
  }

  lemma {:induction false} EffectsOfMoved(frag: seq<XInsn>, x: Cpu, pc: nat)
    ensures EffectsOf(frag, x.(pc := pc)) == match EffectsOf(frag, x)
                                             case Next(y) => Next(y.(pc := pc))
                                             case e => e
    ensures EffectsOf(frag, x).Next? ==> EffectsOf(frag, x).x.pc == x.pc
  {
    hide Effects;
    if frag != [] {
      EffectsMoved(frag[0], x, pc);
      if Effects(frag[0], x).Next? {
        EffectsOfMoved(frag[1..], Effects(frag[0], x).x, pc);
      }
    }
  }

  /** The status after straight-line code at `x.pc`. */
  function After(x: Cpu, e: Effect, n: nat): XStatus {
    match e
    case Next(y) => XGoing(y.(pc := x.pc + n))
    case DivideFault(out) => XFault(out)
    case Stuck => XStuck
  }

  lemma {:induction false} PlainRuns(code: seq<XInsn>, frag: seq<XInsn>, x: Cpu)
    requires HasX(code, x.pc, frag) && AllPlain(frag)
    ensures RunX(code, XGoing(x), |frag|) == After(x, EffectsOf(frag, x), |frag|)
    decreases |frag|
  {
    hide Effects;
    if frag != [] {
      HasXAt(code, x.pc, frag, 0);
      var e := Effects(frag[0], x);
      EffectsMoved(frag[0], x, x.pc);
      PlainStep(code, x);
      if e.Next? {
        var y := e.x.(pc := x.pc + 1);
        assert frag == [frag[0]] + frag[1..];
        HasXSplit(code, x.pc, [frag[0]], frag[1..]);
        PlainRuns(code, frag[1..], y);
        EffectsOfMoved(frag[1..], e.x, x.pc + 1);
      } else {
        RunXStopped(code, StepX(code, XGoing(x)), |frag| - 1);
      }
    }
  }

  lemma PlainStep(code: seq<XInsn>, x: Cpu)
    requires x.pc < |code| && Plain(code[x.pc])
    ensures StepX(code, XGoing(x)) == After(x, Effects(code[x.pc], x), 1)
  {
    hide Effects;
  }
}
