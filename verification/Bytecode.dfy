/** The stack machine: the opcodes the statement and expression compilers emit, and one step of
    the interpreter loop. An opcode that names a constant carries the string itself. */
module Bytecode {
  import opened Values

  /** Global names: those of the program, and the temporaries of list literals with spreads. */
  datatype Name = User(name: string) | SpreadTemp(id: nat)

  datatype Instr =
    | ConstInt(i: i64)
    | ConstBool(b: bool)
    | ConstNull
    | ConstStr(s: string)
    | NewList(n: nat)
    | NewTuple(n: nat)
    | Pop
    | Dup
    | Swap
    | LoadGlobal(name: Name)
    | StoreGlobal(name: Name)
    | Arith(op: BinOp)
    | UnaryOp(uop: UnOp)
    | Jump(target: nat)
    | JumpIfFalse(target: nat)
    | JumpIfTrue(target: nat)
    | IndexGet
    | IndexSet
    | Iter
    | IterNext(body: nat, end: nat)
    | CallBuiltin(f: Builtin, argc: nat)
    | PrintTop
    | Newline
    | Halt

  /** An iterator is a container and the position of its next item. */
  datatype Iterator = Iterator(container: Value, pos: nat)

  datatype Config = Config(
    pc: nat, stack: seq<Value>, globals: map<Name, Value>, iters: seq<Iterator>, out: string)

  datatype Status = Running(c: Config) | Failed(error: Error, out: string) | Halted(c: Config)

  function Global(g: map<Name, Value>, x: Name): Value {
    if x in g then g[x] else Null
  }

  function Top(stack: seq<Value>): Value
    requires stack != []
  {
    stack[|stack| - 1]
  }

  function Drop(stack: seq<Value>, n: nat): seq<Value>
    requires n <= |stack|
  {
    stack[..|stack| - n]
  }

  function Last(stack: seq<Value>, n: nat): seq<Value>
    requires n <= |stack|
  {
    stack[|stack| - n..]
  }

  /** Continue at the next instruction with the top `n` operands replaced by `vs`. */
  function Next(c: Config, n: nat, vs: seq<Value>): Config
    requires n <= |c.stack|
  {
    c.(pc := c.pc + 1, stack := Drop(c.stack, n) + vs)
  }

  function NextOr(c: Config, n: nat, r: Result<Value>): Status
    requires n <= |c.stack|
  {
    match r
    case Ok(v) => Running(Next(c, n, [v]))
    case Err(e) => Failed(e, c.out)
  }

  /** The operands an instruction must find on the stack. `Pop` tolerates an empty stack. */
  function Needs(i: Instr): nat {
    match i
    case NewList(n) => n
    case NewTuple(n) => n
    case Dup => 1
    case Swap => 2
    case StoreGlobal(_) => 1
    case Arith(_) => 2
    case UnaryOp(_) => 1
    case JumpIfFalse(_) => 1
    case JumpIfTrue(_) => 1
    case IndexGet => 2
    case IndexSet => 3
    case Iter => 1
    case IterNext(_, _) => 1
    case CallBuiltin(_, n) => n
    case PrintTop => 1
    case _ => 0
  }

  function StepIterNext(c: Config, body: nat, end: nat): Config
    requires c.stack != []
  {
    var exit := c.(pc := end, stack := Drop(c.stack, 1));
    if !Top(c.stack).Int? then exit
    else
      var h := Top(c.stack).i;
      if !(0 <= h < |c.iters|) then exit
      else
        var it := c.iters[h];
        var items := Items(it.container);
        if it.pos < |items| then
          c.(pc := body, stack := c.stack + [items[it.pos]], iters := c.iters[h := it.(pos := it.pos + 1)])
        else
          exit.(iters := c.iters[h := Iterator(Null, 0)])
  }

  function StepInstr(i: Instr, c: Config): Status {
    var s := c.stack;
    if |s| < Needs(i) then Failed(StackUnderflow, c.out)
    else
      match i
      case ConstInt(k) => Running(Next(c, 0, [Int(k)]))
      case ConstBool(b) => Running(Next(c, 0, [Bool(b)]))
      case ConstNull => Running(Next(c, 0, [Null]))
      case ConstStr(t) => Running(Next(c, 0, [Str(t)]))
      case NewList(n) => Running(Next(c, n, [List(Last(s, n))]))
      case NewTuple(n) => Running(Next(c, n, [Tuple(Last(s, n))]))
      case Pop => Running(Next(c, if s == [] then 0 else 1, []))
      case Dup => Running(Next(c, 0, [Top(s)]))
      case Swap => Running(Next(c, 2, [s[|s| - 1], s[|s| - 2]]))
      case LoadGlobal(x) => Running(Next(c, 0, [Global(c.globals, x)]))
      case StoreGlobal(x) => Running(Next(c, 1, []).(globals := c.globals[x := Top(s)]))
      case Arith(op) => NextOr(c, 2, BinaryValues(op, s[|s| - 2], s[|s| - 1]))
      case UnaryOp(op) => Running(Next(c, 1, [UnaryValue(op, Top(s))]))
      case Jump(t) => Running(c.(pc := t))
      case JumpIfFalse(t) =>
        var c1 := Next(c, 1, []);
        Running(if Truthy(Top(s)) then c1 else c1.(pc := t))
      case JumpIfTrue(t) =>
        var c1 := Next(c, 1, []);
        Running(if Truthy(Top(s)) then c1.(pc := t) else c1)
      case IndexGet => NextOr(c, 2, IndexValue(s[|s| - 2], s[|s| - 1]))
      case IndexSet => NextOr(c, 3, IndexUpdate(s[|s| - 3], s[|s| - 2], s[|s| - 1]))
      case Iter => Running(Next(c, 1, [Int(|c.iters|)]).(iters := c.iters + [Iterator(Top(s), 0)]))
      case IterNext(body, end) => Running(StepIterNext(c, body, end))
      case CallBuiltin(f, n) =>
        if n == Arity(f) then NextOr(c, n, CallValues(f, Last(s, n))) else Failed(TypeError, c.out)
      case PrintTop => Running(Next(c, 1, []).(out := c.out + Display(Top(s))))
      case Newline => Running(Next(c, 0, []).(out := c.out + "\n"))
      case Halt => Halted(c)
  }

  /** The interpreter loop also stops when the program counter runs past the code. */
  function Step(code: seq<Instr>, st: Status): Status {
    if !st.Running? then st
    else if st.c.pc < |code| then StepInstr(code[st.c.pc], st.c)
    else Halted(st.c)
  }

  function Run(code: seq<Instr>, st: Status, n: nat): Status
    decreases n
  {
    if n == 0 then st else Run(code, Step(code, st), n - 1)
  }

  lemma {:induction false} RunAdd(code: seq<Instr>, st: Status, n: nat, m: nat)
    ensures Run(code, st, n + m) == Run(code, Run(code, st, n), m)
    decreases n
  {
    if n > 0 {
      RunAdd(code, Step(code, st), n - 1, m);
    }
  }

  /** A run that has stopped stays stopped. */
  lemma {:induction false} RunStopped(code: seq<Instr>, st: Status, n: nat)
    requires !st.Running?
    ensures Run(code, st, n) == st
  {
    if n > 0 {
      RunStopped(code, st, n - 1);
    }
  }
}
