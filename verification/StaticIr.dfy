/** The register machine between the two halves of the native compiler: straight-line
    instructions on numbered registers, with labels and branches. */
module StaticIr {
  import opened Values
  import opened Words

  /** What is known at compile time about the type of an operand. */
  datatype Hint = I64 | Boolean | Dynamic | Mixed

  predicate IsStatic(h: Hint) {
    h.I64? || h.Boolean?
  }

  datatype Operand = Reg(n: nat, hint: Hint) | ImmI64(i: i64) | ImmBool(b: bool) | NullImm

  function HintOf(o: Operand): Hint {
    match o
    case Reg(_, h) => h
    case ImmI64(_) => I64
    case ImmBool(_) => Boolean
    case NullImm => Dynamic
  }

  /** The functions of the run-time library that the fragment calls. */
  datatype Runtime =
    | ValueOp(op: ArithOp)
    | ValueCmp(cond: Cond)
    | ValueNot
    | MakeI64 | MakeBool | GetI64 | GetBool
    | PrintValue | PrintlnValue
    | LoadGlobalValue(name: string)

  datatype Insn =
    | Label(l: nat)
    | Comment
    | Mov(dst: nat, src: Operand)
    | Box(dst: nat, src: Operand, from: Hint)
    | Unbox(dst: nat, src: Operand, to: Hint)
    | Bin(op: ArithOp, dst: nat, lhs: Operand, rhs: Operand)
    | DynBin(op: ArithOp, dst: nat, lhs: Operand, rhs: Operand)
    | Neg(dst: nat, src: Operand)
    | Not(dst: nat, src: Operand)
    | Cmp(dst: nat, cond: Cond, lhs: Operand, rhs: Operand)
    | Branch(cond: Cond, lhs: Operand, rhs: Operand, target: nat)
    | BranchTrue(cnd: Operand, target: nat)
    | Jump(target: nat)
    | Call(result: Option<nat>, f: Runtime, args: seq<Operand>)
    | Ret(value: Operand)

  // ----- the machine -----

  datatype IrConfig = IrConfig(pc: nat, regs: map<nat, i64>, out: string)

  /** `Trapped` is a division the processor refuses; `Unknown` leaves the modelled library. */
  datatype IrStatus = Going(c: IrConfig) | Returned(value: i64, out: string) | Trapped(out: string) | Unknown

  function RegValue(regs: map<nat, i64>, r: nat): i64 {
    if r in regs then regs[r] else 0
  }

  function OpValue(o: Operand, regs: map<nat, i64>): i64 {
    match o
    case Reg(n, _) => RegValue(regs, n)
    case ImmI64(i) => i
    case ImmBool(b) => Truth(b)
    case NullImm => 0
  }

  /** The first position of a label. */
  function Find(body: seq<Insn>, l: nat): Option<nat> {
    if body == [] then None
    else if body[0] == Label(l) then Some(0)
    else
      match Find(body[1..], l)
      case Some(k) => Some(k + 1)
      case None => None
  }

  predicate OperandBelow(o: Operand, n: nat) {
    o.Reg? ==> o.n < n
  }

  function Put(c: IrConfig, dst: nat, v: i64): IrStatus {
    Going(c.(pc := c.pc + 1, regs := c.regs[dst := v]))
  }

  function Goto(body: seq<Insn>, c: IrConfig, l: nat): IrStatus {
    match Find(body, l)
    case Some(k) => Going(c.(pc := k))
    case None => Unknown
  }

  /** A library function applied to its arguments: its result, if it has one, and what it prints. */
  datatype CallResult = Answer(value: i64, printed: string) | Refused | NotModelled

  function Invoke(f: Runtime, args: seq<i64>): CallResult {
    match f
    case ValueOp(op) =>
      if |args| != 2 then NotModelled
      else if (op.OpDiv? || op.OpMod?) && args[1] == 0 then Answer(0, "")
      else if Traps(op, args[0], args[1]) then Refused
      else Answer(Arith(op, args[0], args[1]), "")
    case ValueCmp(c) => if |args| == 2 then Answer(Truth(CondHolds(c, args[0], args[1])), "") else NotModelled
    case ValueNot => if |args| == 1 then Answer(Truth(args[0] == 0), "") else NotModelled
    case MakeI64 => if |args| == 1 then Answer(args[0], "") else NotModelled
    case GetI64 => if |args| == 1 then Answer(args[0], "") else NotModelled
    case MakeBool => if |args| == 1 then Answer(Truth(args[0] != 0), "") else NotModelled
    case GetBool => if |args| == 1 then Answer(Truth(args[0] != 0), "") else NotModelled
    case PrintValue => if |args| == 1 then Answer(0, Decimal(args[0])) else NotModelled
    case PrintlnValue => if |args| == 1 then Answer(0, Decimal(args[0]) + "\n") else NotModelled
    case LoadGlobalValue(_) => NotModelled
  }

  function OpValues(args: seq<Operand>, regs: map<nat, i64>): (r: seq<i64>)
    ensures |r| == |args|
  {
    seq(|args|, k requires 0 <= k < |args| => OpValue(args[k], regs))
  }

  function CallStep(c: IrConfig, dst: Option<nat>, f: Runtime, args: seq<i64>): IrStatus {
    match Invoke(f, args)
    case NotModelled => Unknown
    case Refused => Trapped(c.out)
    case Answer(v, text) =>
      Going(c.(pc := c.pc + 1, out := c.out + text,
               regs := if dst.Some? then c.regs[dst.value := v] else c.regs))
  }

  function BoxCall(from: Hint): Option<Runtime> {
    match from
    case I64 => Some(MakeI64)
    case Boolean => Some(MakeBool)
    case _ => None
  }

  function UnboxCall(to: Hint): Option<Runtime> {
    match to
    case I64 => Some(GetI64)
    case Boolean => Some(GetBool)
    case _ => None
  }

  function StepInsn(body: seq<Insn>, i: Insn, c: IrConfig): IrStatus {
    match i
    case Label(_) => Going(c.(pc := c.pc + 1))
    case Comment => Going(c.(pc := c.pc + 1))
    case Mov(dst, src) => Put(c, dst, OpValue(src, c.regs))
    case Box(dst, src, from) =>
      (match BoxCall(from)
       case Some(f) => CallStep(c, Some(dst), f, [OpValue(src, c.regs)])
       case None => Put(c, dst, OpValue(src, c.regs)))
    case Unbox(dst, src, to) =>
      (match UnboxCall(to)
       case Some(f) => CallStep(c, Some(dst), f, [OpValue(src, c.regs)])
       case None => Put(c, dst, OpValue(src, c.regs)))
    case Bin(op, dst, lhs, rhs) =>
      var a, b := OpValue(lhs, c.regs), OpValue(rhs, c.regs);
      if Traps(op, a, b) then Trapped(c.out) else Put(c, dst, Arith(op, a, b))
    case DynBin(op, dst, lhs, rhs) => CallStep(c, Some(dst), ValueOp(op), [OpValue(lhs, c.regs), OpValue(rhs, c.regs)])
    case Neg(dst, src) => Put(c, dst, Arith(OpSub, 0, OpValue(src, c.regs)))
    case Not(dst, src) => Put(c, dst, Arith(OpXor, OpValue(src, c.regs), 1))
    case Cmp(dst, cond, lhs, rhs) => Put(c, dst, Truth(CondHolds(cond, OpValue(lhs, c.regs), OpValue(rhs, c.regs))))
    case Branch(cond, lhs, rhs, l) =>
      if CondHolds(cond, OpValue(lhs, c.regs), OpValue(rhs, c.regs)) then Goto(body, c, l) else Going(c.(pc := c.pc + 1))
    case BranchTrue(v, l) => if OpValue(v, c.regs) != 0 then Goto(body, c, l) else Going(c.(pc := c.pc + 1))
    case Jump(l) => Goto(body, c, l)
    case Call(dst, f, args) => CallStep(c, dst, f, OpValues(args, c.regs))
    case Ret(v) => Returned(OpValue(v, c.regs), c.out)
  }

  /** Running off the end returns nothing in particular; a lowered body always ends in `Ret`. */
  function Step(body: seq<Insn>, s: IrStatus): IrStatus {
    if !s.Going? then s
    else if s.c.pc < |body| then StepInsn(body, body[s.c.pc], s.c)
    else Unknown
  }

  function Run(body: seq<Insn>, s: IrStatus, n: nat): IrStatus
    decreases n
  {
    if n == 0 then s else Run(body, Step(body, s), n - 1)
  }

  lemma {:induction false} RunAdd(body: seq<Insn>, s: IrStatus, n: nat, m: nat)
    ensures Run(body, s, n + m) == Run(body, Run(body, s, n), m)
    decreases n
  {
    if n > 0 {
      RunAdd(body, Step(body, s), n - 1, m);
    }
  }

  lemma {:induction false} RunStopped(body: seq<Insn>, s: IrStatus, n: nat)
    requires !s.Going?
    ensures Run(body, s, n) == s
  {
    if n > 0 {
      RunStopped(body, s, n - 1);
    }
  }

  // ----- labels -----

  /** How often a label is defined. */
  function Count(body: seq<Insn>, l: nat): nat {
    if body == [] then 0 else (if body[0] == Label(l) then 1 else 0) + Count(body[1..], l)
  }

  ghost predicate Distinct(body: seq<Insn>) {
    forall l :: Count(body, l) <= 1
  }

  lemma {:induction false} CountAppend(a: seq<Insn>, b: seq<Insn>, l: nat)
    ensures Count(a + b, l) == Count(a, l) + Count(b, l)
  {
    if a == [] {
      assert a + b == b;
    } else {
      assert (a + b)[1..] == a[1..] + b;
      CountAppend(a[1..], b, l);
    }
  }

  lemma {:induction false} CountAt(body: seq<Insn>, k: nat, l: nat)
    requires k < |body| && body[k] == Label(l)
    ensures Count(body, l) >= 1
  {
    if k > 0 {
      CountAt(body[1..], k - 1, l);
    }
  }

  /** With distinct labels, a jump goes to the one place where its label stands. */
  lemma {:induction false} FindAt(body: seq<Insn>, k: nat, l: nat)
    requires Count(body, l) <= 1
    requires k < |body| && body[k] == Label(l)
    ensures Find(body, l) == Some(k)
  {
    if k > 0 {
      CountAt(body[1..], k - 1, l);
      FindAt(body[1..], k - 1, l);
    }
  }
}
