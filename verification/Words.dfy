/** Sixty-four bit words: what the native code computes with them, at compile time and at run time. */
module Words {
  import opened Values

  datatype Cond = CondEq | CondNe | CondLt | CondLe | CondGt | CondGe

  datatype ArithOp = OpAdd | OpSub | OpMul | OpDiv | OpMod | OpAnd | OpOr | OpXor | OpShl | OpShr

  function Pow2(k: nat): (r: nat)
    ensures r >= 1
  {
    if k == 0 then 1 else 2 * Pow2(k - 1)
  }

  /** Quotient and remainder that truncate towards zero. */
  function TruncDiv(a: int, b: int): int
    requires b != 0
  {
    if a >= 0 then a / b else -((-a) / b)
  }

  function TruncMod(a: int, b: int): int
    requires b != 0
  {
    a - b * TruncDiv(a, b)
  }

  function Bit(op: ArithOp, a: nat, b: nat): nat {
    if op.OpAnd? then (if a == 1 && b == 1 then 1 else 0)
    else if op.OpOr? then (if a == 1 || b == 1 then 1 else 0)
    else (if a != b then 1 else 0)
  }

  /** The operation on each of the low `n` bits. */
  function Bitwise(op: ArithOp, a: nat, b: nat, n: nat): nat {
    if n == 0 then 0 else Bit(op, a % 2, b % 2) + 2 * Bitwise(op, a / 2, b / 2, n - 1)
  }

  function ShiftLeft(a: i64, k: nat): i64 {
    Wrap(a * Pow2(k))
  }

  /** An arithmetic shift: the quotient is rounded down. */
  function ShiftRight(a: i64, k: nat): i64 {
    Wrap(a / Pow2(k))
  }

  predicate Traps(op: ArithOp, a: i64, b: i64) {
    (op.OpDiv? || op.OpMod?) && (b == 0 || (a == -TWO63 && b == -1))
  }

  function Arith(op: ArithOp, a: i64, b: i64): i64
    requires !Traps(op, a, b)
  {
    match op
    case OpAdd => Wrap(a + b)
    case OpSub => Wrap(a - b)
    case OpMul => Wrap(a * b)
    case OpDiv => Wrap(TruncDiv(a, b))
    case OpMod => Wrap(TruncMod(a, b))
    case OpShl => ShiftLeft(a, b % 64)
    case OpShr => ShiftRight(a, b % 64)
    case _ => Wrap(Bitwise(op, a % TWO64, b % TWO64, 64))
  }

  predicate CondHolds(c: Cond, a: int, b: int) {
    match c
    case CondEq => a == b
    case CondNe => a != b
    case CondLt => a < b
    case CondLe => a <= b
    case CondGt => a > b
    case CondGe => a >= b
  }

  function Truth(b: bool): i64 {
    if b then 1 else 0
  }

  // ----- at compile time -----

  predicate IsComparison(op: BinOp) {
    op in {Eq, Ne, Lt, Gt, Le, Ge}
  }

  function CondOf(op: BinOp): Cond
    requires IsComparison(op)
  {
    match op
    case Eq => CondEq
    case Ne => CondNe
    case Lt => CondLt
    case Le => CondLe
    case Gt => CondGt
    case Ge => CondGe
  }

  function ArithOf(op: BinOp): ArithOp {
    match op
    case Sub => OpSub
    case Mul => OpMul
    case FloorDiv => OpDiv
    case Mod => OpMod
    case _ => OpAdd
  }

  /** Two literal operands of an arithmetic operation are combined at compile time. The shift count
      is first cut to thirty-two bits and then to six. */
  function FoldArith(op: ArithOp, a: i64, b: i64): Option<i64> {
    match op
    case OpAdd => Some(Wrap(a + b))
    case OpSub => Some(Wrap(a - b))
    case OpMul => Some(Wrap(a * b))
    case OpDiv => if b != 0 then Some(Wrap(TruncDiv(a, b))) else None
    case OpMod => if b != 0 then Some(Wrap(TruncMod(a, b))) else None
    case OpShl => Some(ShiftLeft(a, (b % 0x1_0000_0000) % 64))
    case OpShr => Some(ShiftRight(a, (b % 0x1_0000_0000) % 64))
    case _ => Some(Wrap(Bitwise(op, a % TWO64, b % TWO64, 64)))
  }

  function Fold(op: BinOp, a: i64, b: i64): Option<i64> {
    if IsComparison(op) then Some(Truth(CondHolds(CondOf(op), a, b))) else FoldArith(ArithOf(op), a, b)
  }
}
