/** Run-time values of the virtual machine and the operations its opcodes apply to them, in a release
    build: where the source does not say otherwise, integers wrap around.
    Floats, dictionaries, objects and closures are not part of this model. */
module Values {

  const TWO63: int := 0x8000_0000_0000_0000
  const TWO64: int := 0x1_0000_0000_0000_0000

  /** Sixty-four bit signed integers, as a subset of the mathematical ones. */
  type i64 = x: int | -TWO63 <= x < TWO63

  /** Two's complement wrap-around. */
  function Wrap(x: int): (r: i64)
    ensures (r - x) % TWO64 == 0
    ensures -TWO63 <= x < TWO63 ==> r == x
  {
    var y := (x + TWO63) % TWO64;
    y - TWO63
  }

  datatype Option<+T> = None | Some(value: T)

  datatype Error =
    | StackUnderflow
    | TypeError
    | DivisionByZero
    | ModuloByZero
    | ArithmeticOverflow
    | OutOfMemory
    | Trap
    | IndexOutOfBounds
    | CannotIndex
    | CannotConvert
    | RangeStepZero

  datatype Result<+T> = Ok(value: T) | Err(error: Error)

  datatype Value =
    | Null
    | Bool(b: bool)
    | Int(i: int)
    | Str(s: string)
    | List(elems: seq<Value>)
    | Tuple(elems: seq<Value>)

  datatype BinOp = Add | Sub | Mul | FloorDiv | Mod | Eq | Ne | Lt | Gt | Le | Ge

  datatype UnOp = Neg | Not

  datatype Builtin = BoolOf | ListAppend | Range3

  predicate Truthy(v: Value) {
    match v
    case Null => false
    case Bool(b) => b
    case Int(i) => i != 0
    case Str(s) => s != ""
    case List(xs) => xs != []
    case Tuple(xs) => xs != []
  }

  // ----- text -----

  function Digits(n: nat): string {
    if n < 10 then ["0123456789"[n]] else Digits(n / 10) + ["0123456789"[n % 10]]
  }

  function Decimal(i: int): string {
    if i < 0 then "-" + Digits(-i) else Digits(i)
  }

  function Display(v: Value): string
    decreases v, 1
  {
    match v
    case Null => "null"
    case Bool(b) => if b then "true" else "false"
    case Int(i) => Decimal(i)
    case Str(s) => s
    case List(xs) => "[" + DisplayAll(v, xs) + "]"
    case Tuple(xs) => "(" + DisplayAll(v, xs) + ")"
  }

  function DisplayAll(ghost parent: Value, xs: seq<Value>): string
    requires forall k :: 0 <= k < |xs| ==> xs[k] < parent
    decreases parent, 0, |xs|
  {
    if |xs| == 0 then ""
    else if |xs| == 1 then Display(xs[0])
    else Display(xs[0]) + ", " + DisplayAll(parent, xs[1..])
  }

  predicate StrLess(a: string, b: string) {
    b != "" && (a == "" || a[0] < b[0] || (a[0] == b[0] && StrLess(a[1..], b[1..])))
  }

  function Repeat(s: string, n: int): string
    decreases if n < 0 then 0 else n
  {
    if n <= 0 then "" else s + Repeat(s, n - 1)
  }

  // ----- opcodes on values -----

  function AddValues(a: Value, b: Value): Result<Value> {
    if a.Int? && b.Int? then Ok(Int(Wrap(a.i + b.i)))
    else if a.Str? then Ok(Str(a.s + Display(b)))
    else if b.Str? then Ok(Str(Display(a) + b.s))
    else if a.List? && b.List? then Ok(List(a.elems + b.elems))
    else if a.List? then Ok(List(a.elems + [b]))
    else if b.List? then Ok(List([a] + b.elems))
    else if a.Tuple? && b.Tuple? then Ok(Tuple(a.elems + b.elems))
    else Err(TypeError)
  }

  function MulValues(a: Value, b: Value): Result<Value> {
    if a.Int? && b.Int? then Ok(Int(Wrap(a.i * b.i)))
    else if a.Str? && b.Int? then Ok(Str(Repeat(a.s, b.i)))
    else if a.Int? && b.Str? then Ok(Str(Repeat(b.s, a.i)))
    else Err(TypeError)
  }

  /** Euclidean quotient or remainder, as `div_euclid` and `rem_euclid`. */
  function DivideValues(op: BinOp, a: Value, b: Value): Result<Value>
    requires op == FloorDiv || op == Mod
  {
    if !(a.Int? && b.Int?) then Ok(Null)
    else if b.i == 0 then Err(if op == FloorDiv then DivisionByZero else ModuloByZero)
    else if a.i == -TWO63 && b.i == -1 then Err(ArithmeticOverflow)
    else Ok(Int(if op == FloorDiv then a.i / b.i else a.i % b.i))
  }

  predicate IntHolds(op: BinOp, a: int, b: int)
    requires op in {Lt, Gt, Le, Ge}
  {
    match op
    case Lt => a < b
    case Gt => a > b
    case Le => a <= b
    case Ge => a >= b
  }

  function OrderValues(op: BinOp, a: Value, b: Value): Value
    requires op in {Lt, Gt, Le, Ge}
  {
    if a.Int? && b.Int? then Bool(IntHolds(op, a.i, b.i))
    else if a.Str? && b.Str? then
      Bool(match op
           case Lt => StrLess(a.s, b.s)
           case Gt => StrLess(b.s, a.s)
           case Le => !StrLess(b.s, a.s)
           case Ge => !StrLess(a.s, b.s))
    else Null
  }

  function BinaryValues(op: BinOp, a: Value, b: Value): Result<Value> {
    match op
    case Add => AddValues(a, b)
    case Sub => if a.Int? && b.Int? then Ok(Int(Wrap(a.i - b.i))) else Err(TypeError)
    case Mul => MulValues(a, b)
    case FloorDiv => DivideValues(op, a, b)
    case Mod => DivideValues(op, a, b)
    case Eq => Ok(Bool(a == b))
    case Ne => Ok(Bool(a != b))
    case _ => Ok(OrderValues(op, a, b))
  }

  function UnaryValue(op: UnOp, a: Value): Value {
    match op
    case Neg => if a.Int? then Int(Wrap(-a.i)) else Null
    case Not => Bool(!Truthy(a))
  }

  /** A negative index counts from the end. */
  function RealIndex(i: int, len: nat): int {
    if i < 0 then len + i else i
  }

  function IndexValue(container: Value, index: Value): Result<Value> {
    if !index.Int? then Err(CannotIndex)
    else if container.List? || container.Tuple? then
      var k := RealIndex(index.i, |container.elems|);
      if 0 <= k < |container.elems| then Ok(container.elems[k]) else Err(IndexOutOfBounds)
    else if container.Str? then
      var k := RealIndex(index.i, |container.s|);
      if 0 <= k < |container.s| then Ok(Str([container.s[k]])) else Err(IndexOutOfBounds)
    else Err(CannotIndex)
  }

  function Nulls(n: nat): seq<Value> {
    seq(n, _ => Null)
  }

  /** Element assignment. An index past the end pads the list with nulls first. */
  function IndexUpdate(container: Value, index: Value, v: Value): Result<Value> {
    if !(container.List? && index.Int?) then Err(CannotIndex)
    else
      var n := |container.elems|;
      var k := RealIndex(index.i, n);
      if k < 0 then Err(IndexOutOfBounds)
      else if k < n then Ok(List(container.elems[k := v]))
      else Ok(List(container.elems + Nulls(k - n) + [v]))
  }

  /** What iterating over a value yields, in order. */
  function Items(v: Value): seq<Value> {
    match v
    case List(xs) => xs
    case Tuple(xs) => xs
    case Str(s) => seq(|s|, k requires 0 <= k < |s| => Str([s[k]]))
    case _ => []
  }

  function ReadDigits(s: string): Option<int> {
    if s == "" then Some(0)
    else
      match ReadDigits(s[..|s| - 1])
      case None => None
      case Some(n) => var c := s[|s| - 1]; if '0' <= c <= '9' then Some(10 * n + (c as int - '0' as int)) else None
  }

  /** A text as an integer: digits, perhaps after a sign, if they fit. */
  function ParseInt(s: string): Option<int> {
    var signed := s != "" && (s[0] == '-' || s[0] == '+');
    var digits := if signed then s[1..] else s;
    if digits == "" || ReadDigits(digits).None? then None
    else
      var i := if signed && s[0] == '-' then -ReadDigits(digits).value else ReadDigits(digits).value;
      if -TWO63 <= i < TWO63 then Some(i) else None
  }

  function ToInt(v: Value): Result<int> {
    match v
    case Int(i) => Ok(i)
    case Bool(b) => Ok(if b then 1 else 0)
    case Str(s) => if ParseInt(s).Some? then Ok(ParseInt(s).value) else Err(CannotConvert)
    case _ => Err(CannotConvert)
  }

  /** The integers from `i` towards `end`; the running index wraps around. */
  function RangeFrom(i: int, end: int, step: int, room: nat): Result<seq<Value>>
    decreases room
  {
    if (if step > 0 then i >= end else i <= end) then Ok([])
    else if room == 0 then Err(OutOfMemory)
    else
      match RangeFrom(Wrap(i + step), end, step, room - 1)
      case Ok(rest) => Ok([Int(i)] + rest)
      case Err(e) => Err(e)
  }

  /** A list with more items than there are integers has come round to where it was, and never ends. */
  function RangeItems(start: int, end: int, step: int): Result<seq<Value>>
    requires step != 0
  {
    RangeFrom(start, end, step, TWO64)
  }

  function Range3Values(a: Value, b: Value, c: Value): Result<Value> {
    match (ToInt(a), ToInt(b), ToInt(c))
    case (Err(e), _, _) => Err(e)
    case (_, Err(e), _) => Err(e)
    case (_, _, Err(e)) => Err(e)
    case (Ok(start), Ok(end), Ok(step)) =>
      if step == 0 then Err(RangeStepZero)
      else
        match RangeItems(start, end, step)
        case Ok(xs) => Ok(List(xs))
        case Err(e) => Err(e)
  }

  function Arity(f: Builtin): nat {
    match f
    case BoolOf => 1
    case ListAppend => 2
    case Range3 => 3
  }

  /** `list_append` starts a list if it is given none. */
  function Grown(list: Value, v: Value): Value {
    if list.List? then List(list.elems + [v]) else List([v])
  }

  function CallValues(f: Builtin, args: seq<Value>): Result<Value>
    requires |args| == Arity(f)
  {
    match f
    case BoolOf => Ok(Bool(Truthy(args[0])))
    case ListAppend => Ok(Grown(args[0], args[1]))
    case Range3 => Range3Values(args[0], args[1], args[2])
  }
}
