/** From the register machine to x86-64, instruction by instruction. Five registers live in
    callee-saved processor registers and the others in stack slots. */
module Emission {
  import opened Values
  import opened Words
  import opened StaticIr
  import opened X86

  /** The registers that survive calls, in the order they are handed out. */
  const CALLEE: seq<Gpr> := [Rbx, R12, R13, R14, R15]

  /** Which virtual registers live in which processor registers. */
  type Alloc = map<nat, Gpr>

  function SlotOf(k: nat): int {
    -8 * (k + 1)
  }

  // ----- operands -----

  /** Brings an operand into `r`. */
  function Load(al: Alloc, o: Operand, r: Gpr): seq<XInsn> {
    match o
    case Reg(n, _) => if n in al then (if al[n] == r then [] else [MovReg(r, al[n])]) else [LoadSlot(r, SlotOf(n))]
    case ImmI64(v) => if v == 0 then [Zero(r)] else [MovImm(r, v)]
    case ImmBool(b) => [MovImm(r, Truth(b))]
    case NullImm => [Zero(r)]
  }

  /** Puts `r` where the virtual register `n` lives. */
  function Store(al: Alloc, n: nat, r: Gpr): seq<XInsn> {
    if n in al then (if al[n] == r then [] else [MovReg(al[n], r)]) else [StoreSlot(SlotOf(n), r)]
  }

  // ----- arithmetic -----

  predicate IsDivision(op: ArithOp) {
    op.OpDiv? || op.OpMod?
  }

  /** `d := d op v` with an immediate. Shift counts are masked when the code is emitted. */
  function ImmediateOp(op: ArithOp, d: Gpr, v: i64): XInsn {
    if IsShift(op) then ShiftImm(op, d, v % 64) else AluImm(op, d, v)
  }

  /** `d := d op rcx`. */
  function RegisterOp(op: ArithOp, d: Gpr): XInsn {
    if IsShift(op) then ShiftCl(op, d) else Alu(op, d, Rcx)
  }

  /** `d := d op rhs`, for every operation but division. */
  function Apply(al: Alloc, op: ArithOp, d: Gpr, rhs: Operand): seq<XInsn> {
    if rhs.ImmI64? then [ImmediateOp(op, d, rhs.i)] else Load(al, rhs, Rcx) + [RegisterOp(op, d)]
  }

  /** Operating in place is possible when the destination is the left operand and has a register. */
  predicate InPlace(al: Alloc, op: ArithOp, dst: nat, lhs: Operand) {
    lhs.Reg? && lhs.n == dst && dst in al && !IsDivision(op)
  }

  /** Division works in `rax` and `rdx`. A literal divisor goes to `rcx` without the test for zero. */
  function DivideCode(al: Alloc, op: ArithOp, dst: nat, lhs: Operand, rhs: Operand): seq<XInsn> {
    if rhs.ImmI64? then
      Load(al, lhs, Rax) + [Cqo, MovImm(Rcx, rhs.i), Idiv(Rcx)]
      + (if op.OpMod? then [MovReg(Rax, Rdx)] else []) + Store(al, dst, Rax)
    else
      Load(al, lhs, Rax) + Load(al, lhs, Rax) + Load(al, rhs, Rcx) + [Cqo, Idiv(Rcx)]
      + (if op.OpMod? then [MovReg(Rax, Rdx)] else []) + Store(al, dst, Rax)
  }

  function BinCode(al: Alloc, op: ArithOp, dst: nat, lhs: Operand, rhs: Operand): seq<XInsn> {
    if InPlace(al, op, dst, lhs) then Apply(al, op, al[dst], rhs)
    else if IsDivision(op) then DivideCode(al, op, dst, lhs, rhs)
    else if dst in al then Load(al, lhs, al[dst]) + Apply(al, op, al[dst], rhs)
    else Load(al, lhs, Rax) + Apply(al, op, Rax, rhs) + Store(al, dst, Rax)
  }

  /** Sets the flags as `rax` compared with an operand; zero is tested for without a constant. */
  function CompareCode(al: Alloc, rhs: Operand): seq<XInsn> {
    if rhs.ImmI64? then [if rhs.i == 0 then Test(Rax) else CmpImm(Rax, rhs.i)]
    else Load(al, rhs, Rcx) + [CmpReg(Rax, Rcx)]
  }

  // ----- calls -----

  const ARGUMENTS: seq<Gpr> := [Rdi, Rsi, Rdx, Rcx, R8, R9]

  /** Arguments beyond the sixth are pushed, the last one first. */
  function PushArgs(al: Alloc, args: seq<Operand>): seq<XInsn> {
    if |args| <= 6 then []
    else Load(al, args[|args| - 1], Rax) + [PushReg(Rax)] + PushArgs(al, args[..|args| - 1])
  }

  function LoadArgs(al: Alloc, args: seq<Operand>, k: nat): seq<XInsn>
    requires k <= |args|
    decreases |args| - k
  {
    if k >= |args| || k >= 6 then [] else Load(al, args[k], ARGUMENTS[k]) + LoadArgs(al, args, k + 1)
  }

  function StackArgs(n: nat): nat {
    if n > 6 then n - 6 else 0
  }

  function Padding(n: nat): nat {
    if (StackArgs(n) * 8) % 16 != 0 then 8 else 0
  }

  function SubStackBy(n: nat): seq<XInsn> {
    if n > 0 then [SubStack(n)] else []
  }

  function AddStackBy(n: nat): seq<XInsn> {
    if n > 0 then [AddStack(n)] else []
  }

  function BeforeCall(al: Alloc, args: seq<Operand>): seq<XInsn> {
    SubStackBy(Padding(|args|)) + PushArgs(al, args) + LoadArgs(al, args, 0) + [Zero(Rax)]
  }

  function AfterCall(n: nat): seq<XInsn> {
    AddStackBy(StackArgs(n) * 8) + AddStackBy(Padding(n))
  }

  function CallCode(al: Alloc, dst: Option<nat>, f: Runtime, args: seq<Operand>): seq<XInsn> {
    BeforeCall(al, args) + [CallRuntime(f)] + AfterCall(|args|) + (if dst.Some? then Store(al, dst.value, Rax) else [])
  }

  // ----- frames -----

  /** The shape of a function's frame: the saved registers in push order, and the size of the slots. */
  datatype Frame = Frame(saved: seq<Gpr>, size: nat)

  function PadOf(fr: Frame): nat {
    if |fr.saved| % 2 == 1 then 8 else 0
  }

  function Pushes(rs: seq<Gpr>): seq<XInsn> {
    seq(|rs|, k requires 0 <= k < |rs| => PushReg(rs[k]))
  }

  function Pops(rs: seq<Gpr>): seq<XInsn> {
    seq(|rs|, k requires 0 <= k < |rs| => PopReg(rs[|rs| - 1 - k]))
  }

  function Prologue(fr: Frame): seq<XInsn> {
    [PushBase, MovBaseStack] + Pushes(fr.saved) + SubStackBy(PadOf(fr)) + SubStackBy(fr.size)
  }

  function Epilogue(fr: Frame): seq<XInsn> {
    AddStackBy(fr.size) + AddStackBy(PadOf(fr)) + Pops(fr.saved) + [PopBase, RetNear]
  }

  // ----- instructions -----

  function MovCode(al: Alloc, dst: nat, src: Operand): seq<XInsn> {
    if dst in al then Load(al, src, al[dst]) else Load(al, src, Rax) + Store(al, dst, Rax)
  }

  function ConvertCode(al: Alloc, dst: nat, src: Operand, f: Option<Runtime>): seq<XInsn> {
    if f.Some? then Load(al, src, Rdi) + [CallRuntime(f.value)] + Store(al, dst, Rax)
    else Load(al, src, Rax) + Store(al, dst, Rax)
  }

  function InsnCode(al: Alloc, fr: Frame, i: Insn): seq<XInsn> {
    match i
    case Label(l) => [XLabel(l)]
    case Comment => []
    case Mov(dst, src) => MovCode(al, dst, src)
    case Box(dst, src, from) => ConvertCode(al, dst, src, BoxCall(from))
    case Unbox(dst, src, to) => ConvertCode(al, dst, src, UnboxCall(to))
    case Bin(op, dst, lhs, rhs) => BinCode(al, op, dst, lhs, rhs)
    case DynBin(op, dst, lhs, rhs) => CallCode(al, Some(dst), ValueOp(op), [lhs, rhs])
    case Neg(dst, src) => Load(al, src, Rax) + [NegReg(Rax)] + Store(al, dst, Rax)
    case Not(dst, src) => Load(al, src, Rax) + [AluImm(OpXor, Rax, 1)] + Store(al, dst, Rax)
    case Cmp(dst, cond, lhs, rhs) =>
      Load(al, lhs, Rax) + CompareCode(al, rhs) + [SetAl(cond), MovzxAl] + Store(al, dst, Rax)
    case Branch(cond, lhs, rhs, l) => Load(al, lhs, Rax) + CompareCode(al, rhs) + [Jcc(cond, l)]
    case BranchTrue(v, l) => Load(al, v, Rax) + [Test(Rax), Jcc(CondNe, l)]
    case Jump(l) => [Jmp(l)]
    case Call(dst, f, args) => CallCode(al, dst, f, args)
    case Ret(v) => Load(al, v, Rax) + Epilogue(fr)
  }

  // ----- functions -----

  function RegMax(o: Operand): nat {
    if o.Reg? then o.n else 0
  }

  function Max(a: nat, b: nat): nat {
    if a < b then b else a
  }

  function ArgsMax(args: seq<Operand>): nat {
    if args == [] then 0 else Max(RegMax(args[0]), ArgsMax(args[1..]))
  }

  /** The highest register an instruction names. */
  function InsnMax(i: Insn): nat {
    match i
    case Mov(dst, src) => Max(dst, RegMax(src))
    case Box(dst, src, _) => Max(dst, RegMax(src))
    case Unbox(dst, src, _) => Max(dst, RegMax(src))
    case Bin(_, dst, lhs, rhs) => Max(dst, Max(RegMax(lhs), RegMax(rhs)))
    case DynBin(_, dst, lhs, rhs) => Max(dst, Max(RegMax(lhs), RegMax(rhs)))
    case Neg(dst, src) => Max(dst, RegMax(src))
    case Not(dst, src) => Max(dst, RegMax(src))
    case Cmp(dst, _, lhs, rhs) => Max(dst, Max(RegMax(lhs), RegMax(rhs)))
    case Branch(_, lhs, rhs, _) => Max(RegMax(lhs), RegMax(rhs))
    case BranchTrue(v, _) => RegMax(v)
    case Call(dst, _, args) => Max(if dst.Some? then dst.value else 0, ArgsMax(args))
    case Ret(v) => RegMax(v)
    case _ => 0
  }

  function BodyMax(body: seq<Insn>): nat {
    if body == [] then 0 else Max(InsnMax(body[0]), BodyMax(body[1..]))
  }

  lemma {:induction false} ArgsBelow(args: seq<Operand>, n: nat)
    requires ArgsMax(args) < n
    ensures forall k :: 0 <= k < |args| ==> OperandBelow(args[k], n)
  {
    if args != [] {
      ArgsBelow(args[1..], n);
      assert forall k :: 0 < k < |args| ==> args[k] == args[1..][k - 1];
    }
  }

  lemma {:induction false} BodyMaxBounds(body: seq<Insn>)
    ensures forall k :: 0 <= k < |body| ==> InsnMax(body[k]) <= BodyMax(body)
  {
    hide InsnMax;
    if body != [] {
      BodyMaxBounds(body[1..]);
      assert forall k :: 0 < k < |body| ==> body[k] == body[1..][k - 1];
    }
  }

  predicate IsReg(o: Operand, n: nat) {
    o.Reg? && o.n == n
  }

  /** The instruction names the register. */
  predicate Names(i: Insn, n: nat) {
    match i
    case Mov(dst, src) => dst == n || IsReg(src, n)
    case Box(dst, src, _) => dst == n || IsReg(src, n)
    case Unbox(dst, src, _) => dst == n || IsReg(src, n)
    case Bin(_, dst, lhs, rhs) => dst == n || IsReg(lhs, n) || IsReg(rhs, n)
    case DynBin(_, dst, lhs, rhs) => dst == n || IsReg(lhs, n) || IsReg(rhs, n)
    case Neg(dst, src) => dst == n || IsReg(src, n)
    case Not(dst, src) => dst == n || IsReg(src, n)
    case Cmp(dst, _, lhs, rhs) => dst == n || IsReg(lhs, n) || IsReg(rhs, n)
    case Branch(_, lhs, rhs, _) => IsReg(lhs, n) || IsReg(rhs, n)
    case BranchTrue(v, _) => IsReg(v, n)
    case Call(dst, _, args) => dst == Some(n) || exists k :: 0 <= k < |args| && IsReg(args[k], n)
    case Ret(v) => IsReg(v, n)
    case _ => false
  }

  lemma {:induction false} ArgsNamed(args: seq<Operand>)
    ensures ArgsMax(args) == 0 || exists k :: 0 <= k < |args| && IsReg(args[k], ArgsMax(args))
  {
    if args != [] && ArgsMax(args) != 0 {
      ArgsNamed(args[1..]);
      if ArgsMax(args) == RegMax(args[0]) {
        assert IsReg(args[0], ArgsMax(args));
      } else {
        var k :| 0 <= k < |args[1..]| && IsReg(args[1..][k], ArgsMax(args[1..]));
        assert IsReg(args[k + 1], ArgsMax(args));
      }
    }
  }

  /** The highest register of a body is named by one of its instructions, or is the first. */
  lemma {:induction false} BodyMaxNamed(body: seq<Insn>)
    ensures BodyMax(body) == 0 || exists k :: 0 <= k < |body| && Names(body[k], BodyMax(body))
  {
    hide Names, InsnMax;
    if body != [] && BodyMax(body) != 0 {
      BodyMaxNamed(body[1..]);
      if BodyMax(body) == InsnMax(body[0]) {
        InsnMaxNamed(body[0]);
      } else {
        var k :| 0 <= k < |body[1..]| && Names(body[1..][k], BodyMax(body[1..]));
        assert Names(body[k + 1], BodyMax(body));
      }
    }
  }

  lemma InsnMaxNamed(i: Insn)
    ensures InsnMax(i) == 0 || Names(i, InsnMax(i))
  {
    if i.Call? {
      ArgsNamed(i.args);
    }
  }

  predicate Targets(i: Insn, l: nat) {
    (i.Branch? && i.target == l) || (i.BranchTrue? && i.target == l) || (i.Jump? && i.target == l)
  }

  predicate Referenced(body: seq<Insn>, l: nat) {
    exists k :: 0 <= k < |body| && Targets(body[k], l)
  }

  /** A jump to the label right behind it, and a label no instruction names, are left out. */
  predicate Dropped(body: seq<Insn>, k: nat)
    requires k < |body|
  {
    || (body[k].Jump? && k + 1 < |body| && body[k + 1] == Label(body[k].target))
    || (body[k].Label? && !Referenced(body, body[k].l))
  }

  function CodeAt(al: Alloc, fr: Frame, body: seq<Insn>, k: nat): seq<XInsn>
    requires k < |body|
  {
    if Dropped(body, k) then [] else InsnCode(al, fr, body[k])
  }

  /** The code of the first `k` instructions. */
  function CodeUpTo(al: Alloc, fr: Frame, body: seq<Insn>, k: nat): seq<XInsn>
    requires k <= |body|
  {
    if k == 0 then [] else CodeUpTo(al, fr, body, k - 1) + CodeAt(al, fr, body, k - 1)
  }

  function FunctionCode(al: Alloc, fr: Frame, body: seq<Insn>): seq<XInsn> {
    Prologue(fr) + CodeUpTo(al, fr, body, |body|)
    + (if body == [] || !body[|body| - 1].Ret? then Epilogue(fr) else [])
  }
}
