/** The part of the language that the two compilers are compared on. */
module Ast {
  import opened Values

  datatype Vec<+T> = Nil | Cons(head: T, tail: Vec<T>)

  function Len<T>(v: Vec<T>): nat {
    match v
    case Nil => 0
    case Cons(_, tail) => 1 + Len(tail)
  }

  /** A list literal without spreads is a `ListLit`; one with spreads is a `SpreadLit`. */
  datatype Expr =
    | IntLit(i: i64)
    | BoolLit(b: bool)
    | NullLit
    | StrLit(s: string)
    | Var(name: string)
    | Binary(op: BinOp, left: Expr, right: Expr)
    | And(left: Expr, right: Expr)
    | Or(left: Expr, right: Expr)
    | Unary(uop: UnOp, operand: Expr)
    | Ternary(cond: Expr, yes: Expr, no: Expr)
    | Coalesce(left: Expr, right: Expr)
    | ListLit(exprs: Vec<Expr>)
    | TupleLit(exprs: Vec<Expr>)
    | SpreadLit(parts: Vec<Part>)
    | Index(target: Expr, index: Expr)
    | Comprehension(result: Expr, name: string, iterable: Expr, filter: Option<Expr>)

  datatype Part = Plain(e: Expr) | Spread(e: Expr)

  datatype Stmt =
    | Assign(name: string, e: Expr)
    | Compound(name: string, op: BinOp, e: Expr)
    | Delete(name: string)
    | IndexAssign(name: string, index: Expr, e: Expr)
    | ExprStmt(e: Expr)
    | Println(args: Vec<Expr>)
    | Paste(args: Vec<Expr>)
    | If(cond: Expr, yes: Block, rest: Rest)
    | While(cond: Expr, body: Block)
    | Loop(body: Block)
    | ForIn(name: string, iterable: Expr, body: Block)
    | ForRange(name: string, from: Expr, to: Expr, step: Option<Expr>, body: Block)
    | Break
    | Continue
    | Scope(body: Block)

  /** What follows the first branch of an `if`: further `elif` branches, then perhaps an `else`. */
  datatype Rest = NoElse | Else(body: Block) | Elif(cond: Expr, body: Block, rest: Rest)

  type Block = Vec<Stmt>

  /** The variable a comprehension leaves its list in. The compiled code collects the list there, and so
      do comprehensions inside the comprehension. */
  const TEMP: string := "__lc_result"

  /** The step of a range that names none is one. */
  function StepExpr(step: Option<Expr>): Expr {
    if step.Some? then step.value else IntLit(1)
  }

  // ----- syntactic classes -----

  /** `break` and `continue` occur only inside loops. */
  predicate Closed(s: Stmt) {
    match s
    case Break => false
    case Continue => false
    case If(_, yes, rest) => ClosedBlock(yes) && ClosedRest(rest)
    case Scope(body) => ClosedBlock(body)
    case _ => true
  }

  predicate ClosedBlock(b: Block) {
    match b
    case Nil => true
    case Cons(s, rest) => Closed(s) && ClosedBlock(rest)
  }

  predicate ClosedRest(r: Rest) {
    match r
    case NoElse => true
    case Else(body) => ClosedBlock(body)
    case Elif(_, body, rest) => ClosedBlock(body) && ClosedRest(rest)
  }

  /** The statement holds a `break` that leaves the loop around it. */
  predicate Breaks(s: Stmt) {
    match s
    case Break => true
    case If(_, yes, rest) => BreaksBlock(yes) || BreaksRest(rest)
    case Scope(body) => BreaksBlock(body)
    case _ => false
  }

  predicate BreaksBlock(b: Block) {
    match b
    case Nil => false
    case Cons(s, rest) => Breaks(s) || BreaksBlock(rest)
  }

  predicate BreaksRest(r: Rest) {
    match r
    case NoElse => false
    case Else(body) => BreaksBlock(body)
    case Elif(_, body, rest) => BreaksBlock(body) || BreaksRest(rest)
  }

  /** No `for` loop anywhere in the statement is left by `break`. */
  predicate NoForBreak(s: Stmt) {
    match s
    case If(_, yes, rest) => NoForBreakBlock(yes) && NoForBreakRest(rest)
    case While(_, body) => NoForBreakBlock(body)
    case Loop(body) => NoForBreakBlock(body)
    case ForIn(_, _, body) => !BreaksBlock(body) && NoForBreakBlock(body)
    case ForRange(_, _, _, _, body) => !BreaksBlock(body) && NoForBreakBlock(body)
    case Scope(body) => NoForBreakBlock(body)
    case _ => true
  }

  predicate NoForBreakBlock(b: Block) {
    match b
    case Nil => true
    case Cons(s, rest) => NoForBreak(s) && NoForBreakBlock(rest)
  }

  predicate NoForBreakRest(r: Rest) {
    match r
    case NoElse => true
    case Else(body) => NoForBreakBlock(body)
    case Elif(_, body, rest) => NoForBreakBlock(body) && NoForBreakRest(rest)
  }
}
