/** The bytecode compiler itself: it appends instructions, leaves placeholder jumps, and overwrites
    them once the target is known. Every method is proved to append exactly the code of `Layout`. */
module BytecodeCompiler {
  import opened Values
  import opened Ast
  import opened Bytecode
  import opened Layout

  /** The loop being compiled: where `continue` goes, and the `break` jumps to patch at its end. */
  datatype LoopFrame = LoopFrame(cont: nat, patches: seq<nat>)

  // ----- code with some of its instructions overwritten -----

  function Over(code: seq<Instr>, m: map<nat, Instr>): (r: seq<Instr>)
    ensures |r| == |code|
  {
    seq(|code|, k requires 0 <= k < |code| => if k in m then m[k] else code[k])
  }

  /** Every index of `at` is given the same instruction. */
  function Aim(at: seq<nat>, i: Instr): map<nat, Instr> {
    map k | k in at :: i
  }

  predicate Below(at: seq<nat>, n: nat) {
    forall k :: k in at ==> k < n
  }

  lemma OverAppend(code: seq<Instr>, x: seq<Instr>, m: map<nat, Instr>)
    requires forall k :: k in m ==> k < |code|
    ensures Over(code + x, m) == Over(code, m) + x
  {
  }

  /** The code with every recorded `break` jump aimed at `t`. */
  function Patched(code: seq<Instr>, patches: seq<nat>, t: nat): (r: seq<Instr>)
    ensures |r| == |code|
  {
    Over(code, Aim(patches, Jump(t)))
  }

  lemma PatchedIs(code: seq<Instr>, patches: seq<nat>, t: nat)
    ensures Patched(code, patches, t) == Over(code, Aim(patches, Jump(t)))
  {
  }

  lemma PatchedNone(code: seq<Instr>, t: nat)
    ensures Patched(code, [], t) == code
  {
  }

  lemma PatchedAppend(code: seq<Instr>, x: seq<Instr>, patches: seq<nat>, t: nat)
    requires Below(patches, |code|)
    ensures Patched(code + x, patches, t) == Patched(code, patches, t) + x
  {
    OverAppend(code, x, Aim(patches, Jump(t)));
  }

  lemma PatchedBreak(code: seq<Instr>, patches: seq<nat>, t: nat)
    requires Below(patches, |code|)
    ensures Patched(code + [Jump(0)], patches + [|code|], t) == Patched(code, patches, t) + [Jump(t)]
  {
  }

  lemma PatchedSet(code: seq<Instr>, patches: seq<nat>, t: nat, k: nat, i: Instr)
    requires k < |code| && k !in patches
    ensures Patched(code[k := i], patches, t) == Patched(code, patches, t)[k := i]
  {
  }

  lemma PatchAt(a: seq<Instr>, x: Instr, b: seq<Instr>, y: Instr)
    ensures (a + [x] + b)[|a| := y] == a + [y] + b
  {
  }

  // ----- statements without jumps -----

  /** The code of a statement that holds no jump to patch: it ignores the loop around it. */
  function SimpleCode(s: Stmt, base: nat, id: nat): seq<Instr> {
    StmtCode(s, base, id, 0, 0)
  }

  lemma SimpleIsStmt(s: Stmt, base: nat, id: nat)
    requires s.Assign? || s.Compound? || s.Delete? || s.IndexAssign? || s.ExprStmt? || s.Println? || s.Paste?
    ensures forall cont, brk :: StmtCode(s, base, id, cont, brk) == SimpleCode(s, base, id)
  {
  }


  // ----- what the patches add up to -----

  lemma AndAssembled(o: seq<Instr>, cl: seq<Instr>, cr: seq<Instr>)
    ensures var c1 := (o + cl + [JumpIfFalse(0)] + cr + [CallBuiltin(BoolOf, 1)] + [Jump(0)]);
            var c2 := c1[|o + cl| := JumpIfFalse(|c1|)] + [ConstBool(false)];
            c2[|c1| - 1 := Jump(|c2|)] == o + AndShape(|o|, cl, cr)
  {
    var c1 := (o + cl + [JumpIfFalse(0)] + cr + [CallBuiltin(BoolOf, 1)] + [Jump(0)]);
    var post := cr + [CallBuiltin(BoolOf, 1)] + [Jump(0)];
    assert c1 == (o + cl) + [JumpIfFalse(0)] + post;
    PatchAt(o + cl, JumpIfFalse(0), post, JumpIfFalse(|c1|));
    var pre := o + cl + [JumpIfFalse(|c1|)] + cr + [CallBuiltin(BoolOf, 1)];
    assert c1[|o + cl| := JumpIfFalse(|c1|)] + [ConstBool(false)] == pre + [Jump(0)] + [ConstBool(false)];
    PatchAt(pre, Jump(0), [ConstBool(false)], Jump(|c1| + 1));
  }

  lemma OrAssembled(o: seq<Instr>, cl: seq<Instr>, cr: seq<Instr>)
    ensures var c1 := o + cl + [Dup] + [JumpIfTrue(0)] + [Pop] + cr + [CallBuiltin(BoolOf, 1)] + [Jump(0)];
            var c2 := c1[|o + cl| + 1 := JumpIfTrue(|c1|)] + [Pop] + [ConstBool(true)];
            c2[|c1| - 1 := Jump(|c2|)] == o + OrShape(|o|, cl, cr)
  {
    var c1 := o + cl + [Dup] + [JumpIfTrue(0)] + [Pop] + cr + [CallBuiltin(BoolOf, 1)] + [Jump(0)];
    var post := [Pop] + cr + [CallBuiltin(BoolOf, 1)] + [Jump(0)];
    assert c1 == (o + cl + [Dup]) + [JumpIfTrue(0)] + post;
    PatchAt(o + cl + [Dup], JumpIfTrue(0), post, JumpIfTrue(|c1|));
    var pre := o + cl + [Dup] + [JumpIfTrue(|c1|)] + [Pop] + cr + [CallBuiltin(BoolOf, 1)];
    assert c1[|o + cl| + 1 := JumpIfTrue(|c1|)] + [Pop] + [ConstBool(true)] == pre + [Jump(0)] + ([Pop] + [ConstBool(true)]);
    PatchAt(pre, Jump(0), [Pop] + [ConstBool(true)], Jump(|c1| + 2));
  }

  lemma TernaryAssembled(o: seq<Instr>, cc: seq<Instr>, ca: seq<Instr>, cb: seq<Instr>)
    ensures var c1 := o + cc + [JumpIfFalse(0)] + ca + [Jump(0)];
            var c2 := c1[|o + cc| := JumpIfFalse(|c1|)] + cb;
            c2[|c1| - 1 := Jump(|c2|)] == o + TernaryShape(|o|, cc, ca, cb)
  {
    var c1 := o + cc + [JumpIfFalse(0)] + ca + [Jump(0)];
    assert c1 == (o + cc) + [JumpIfFalse(0)] + (ca + [Jump(0)]);
    PatchAt(o + cc, JumpIfFalse(0), ca + [Jump(0)], JumpIfFalse(|c1|));
    var pre := o + cc + [JumpIfFalse(|c1|)] + ca;
    assert c1[|o + cc| := JumpIfFalse(|c1|)] + cb == pre + [Jump(0)] + cb;
    PatchAt(pre, Jump(0), cb, Jump(|c1| + |cb|));
  }

  lemma CoalesceAssembled(o: seq<Instr>, cl: seq<Instr>, cr: seq<Instr>)
    ensures var c1 := o + cl + [Dup] + [JumpIfTrue(0)] + [Pop] + cr;
            c1[|o + cl| + 1 := JumpIfTrue(|c1|)] == o + CoalesceShape(|o|, cl, cr)
  {
    var c1 := o + cl + [Dup] + [JumpIfTrue(0)] + [Pop] + cr;
    assert c1 == (o + cl + [Dup]) + [JumpIfTrue(0)] + ([Pop] + cr);
    PatchAt(o + cl + [Dup], JumpIfTrue(0), [Pop] + cr, JumpIfTrue(|c1|));
  }

  lemma SpreadAssembled(o: seq<Instr>, ce: seq<Instr>, temp: Name)
    ensures var start := |o + ce| + 1;
            var c1 := o + ce + [Iter] + [IterNext(0, 0)] + AppendCode(temp) + [Jump(start)];
            c1[start := IterNext(start + 1, |c1|)] == o + SpreadShape(|o|, ce, temp)
  {
    var start := |o + ce| + 1;
    var post := AppendCode(temp) + [Jump(start)];
    var c1 := o + ce + [Iter] + [IterNext(0, 0)] + AppendCode(temp) + [Jump(start)];
    assert c1 == (o + ce + [Iter]) + [IterNext(0, 0)] + post;
    PatchAt(o + ce + [Iter], IterNext(0, 0), post, IterNext(start + 1, |c1|));
  }

  lemma FilterAssembled(o: seq<Instr>, cf: seq<Instr>, cr: seq<Instr>)
    ensures var c1 := o + cf + [JumpIfFalse(0)] + cr + AppendCode(COLLECTED);
            c1[|o + cf| := JumpIfFalse(|c1|)] == o + (FilterShape(Some(cf), |c1|) + cr + AppendCode(COLLECTED))
  {
    var c1 := o + cf + [JumpIfFalse(0)] + cr + AppendCode(COLLECTED);
    var post := cr + AppendCode(COLLECTED);
    assert c1 == (o + cf) + [JumpIfFalse(0)] + post;
    PatchAt(o + cf, JumpIfFalse(0), post, JumpIfFalse(|c1|));
  }

  lemma CompAssembled(o: seq<Instr>, cit: seq<Instr>, x: Name, cf: Option<seq<Instr>>, cr: seq<Instr>)
    ensures var start := |o| + 2 + |cit| + 1;
            var again := start + 2 + FilterSize(cf) + |cr| + 4;
            var c1 := o + [NewList(0)] + [StoreGlobal(COLLECTED)] + cit + [Iter] + [IterNext(0, 0)] + [StoreGlobal(x)];
            var c2 := c1 + (FilterShape(cf, again) + cr + AppendCode(COLLECTED)) + [Jump(start)];
            && |c2| == again + 1
            && c2[start := IterNext(start + 1, |c2|)] + [LoadGlobal(COLLECTED)] == o + CompShape(|o|, cit, x, cf, cr)
  {
    hide FilterShape, FilterSize, AppendCode;
    var again := |o| + 2 + |cit| + 1 + 2 + FilterSize(cf) + |cr| + 4;
    FilterLen(cf, again);
    AppendLen(COLLECTED);
    CompPatched(o, cit, x, FilterShape(cf, again) + cr + AppendCode(COLLECTED));
    var body := FilterShape(cf, again) + cr + AppendCode(COLLECTED);
    var head := [NewList(0), StoreGlobal(COLLECTED)] + cit + [Iter, IterNext(|o| + |cit| + 4, again + 1), StoreGlobal(x)];
    assert head + FilterShape(cf, again) + cr + AppendCode(COLLECTED) == head + body;
  }

  lemma CompPatched(o: seq<Instr>, cit: seq<Instr>, x: Name, body: seq<Instr>)
    ensures var start := |o| + 2 + |cit| + 1;
            var c1 := o + [NewList(0)] + [StoreGlobal(COLLECTED)] + cit + [Iter] + [IterNext(0, 0)] + [StoreGlobal(x)];
            var c2 := c1 + body + [Jump(start)];
            && |c2| == start + 3 + |body|
            && c2[start := IterNext(start + 1, |c2|)] + [LoadGlobal(COLLECTED)]
               == o + ([NewList(0), StoreGlobal(COLLECTED)] + cit + [Iter, IterNext(start + 1, |c2|), StoreGlobal(x)]
                       + body + [Jump(start), LoadGlobal(COLLECTED)])
  {
    var start := |o| + 2 + |cit| + 1;
    var pre := o + [NewList(0)] + [StoreGlobal(COLLECTED)] + cit + [Iter];
    var post := [StoreGlobal(x)] + body + [Jump(start)];
    var c2 := pre + [IterNext(0, 0)] + [StoreGlobal(x)] + body + [Jump(start)];
    assert c2 == pre + [IterNext(0, 0)] + post;
    PatchAt(pre, IterNext(0, 0), post, IterNext(start + 1, |c2|));
  }

  lemma FilterLen(f: Option<seq<Instr>>, skip: nat)
    ensures |FilterShape(f, skip)| == FilterSize(f)
  {
  }

  lemma AppendLen(temp: Name)
    ensures |AppendCode(temp)| == 4
  {
  }

  lemma WhileAssembled(o: seq<Instr>, cc: seq<Instr>, cb: seq<Instr>)
    ensures var c1 := o + cc + [JumpIfFalse(0)] + cb + [Jump(|o|)];
            c1[|o + cc| := JumpIfFalse(|c1|)] == o + WhileShape(|o|, cc, cb)
  {
    var c1 := o + cc + [JumpIfFalse(0)] + cb + [Jump(|o|)];
    var post := cb + [Jump(|o|)];
    assert c1 == (o + cc) + [JumpIfFalse(0)] + post;
    PatchAt(o + cc, JumpIfFalse(0), post, JumpIfFalse(|c1|));
  }

  lemma ForAssembled(o: seq<Instr>, src: seq<Instr>, x: Name, cb: seq<Instr>)
    ensures var start := |o| + |src| + 1;
            var c1 := o + src + [Iter] + [IterNext(0, 0)] + [StoreGlobal(x)] + cb + [Jump(start)];
            c1[start := IterNext(start + 1, |c1|)] == o + ForShape(|o|, src, x, cb)
  {
    var start := |o| + |src| + 1;
    var c1 := o + src + [Iter] + [IterNext(0, 0)] + [StoreGlobal(x)] + cb + [Jump(start)];
    var post := [StoreGlobal(x)] + cb + [Jump(start)];
    assert c1 == (o + src + [Iter]) + [IterNext(0, 0)] + post;
    PatchAt(o + src + [Iter], IterNext(0, 0), post, IterNext(start + 1, |c1|));
  }

  /** A loop has its own targets. */
  lemma LoopIgnoresTarget(s: Stmt, base: nat, id: nat, cont: nat)
    requires s.While? || s.Loop? || s.ForIn? || s.ForRange?
    ensures forall t :: StmtCode(s, base, id, cont, t) == StmtCode(s, base, id, 0, 0)
  {
    hide ExprCode, LoopBody, SourceCode;
  }

  /** A guarded branch that ends at `next`; the jump at its end is not aimed yet. */
  function BranchShape(cc: seq<Instr>, cb: seq<Instr>, next: nat, leave: bool): seq<Instr> {
    cc + [JumpIfFalse(next)] + cb + (if leave then [Jump(0)] else [])
  }

  function LastAim(last: Option<nat>, e: nat): map<nat, Instr> {
    if last.Some? then map[last.value := JumpIfFalse(e)] else map[]
  }

  lemma BranchAssembled(o: seq<Instr>, cc: seq<Instr>, cb: seq<Instr>, leave: bool, next: nat)
    ensures var c1 := o + cc + [JumpIfFalse(0)] + cb + (if leave then [Jump(0)] else []);
            c1[|o + cc| := JumpIfFalse(next)] == o + BranchShape(cc, cb, next, leave)
  {
    var post := cb + (if leave then [Jump(0)] else []);
    assert o + cc + [JumpIfFalse(0)] + cb + (if leave then [Jump(0)] else []) == (o + cc) + [JumpIfFalse(0)] + post;
    PatchAt(o + cc, JumpIfFalse(0), post, JumpIfFalse(next));
  }

  lemma LeaveAimed(v: seq<Instr>, cc: seq<Instr>, cb: seq<Instr>, next: nat, leave: bool, e: nat)
    requires leave ==> next == |v| + |cc| + 1 + |cb| + 1
    ensures Over(v + BranchShape(cc, cb, next, leave), Aim(if leave then [next - 1] else [], Jump(e)))
         == v + (cc + [JumpIfFalse(next)] + cb + (if leave then [Jump(e)] else []))
  {
  }

  lemma IfAssembled(s: Stmt, base: nat, id: nat, cont: nat, brk: nat, v: seq<Instr>, next: nat, end: nat)
    requires s.If? && |v| == base
    requires var leave := !s.rest.NoElse?;
             var cc := ExprCode(s.cond, base, id);
             var cb := BlockCode(s.yes, base + |cc| + 1, id + Temps(s.cond), cont, brk);
             && next == |v + BranchShape(cc, cb, next, leave)|
             && end == next + |RestCode(s.rest, next, id + Temps(s.cond) + TempsBlock(s.yes), cont, brk, end)|
    ensures var leave := !s.rest.NoElse?;
            var cc := ExprCode(s.cond, base, id);
            var cb := BlockCode(s.yes, base + |cc| + 1, id + Temps(s.cond), cont, brk);
            Over(v + BranchShape(cc, cb, next, leave), Aim(if leave then [next - 1] else [], Jump(end)))
            + RestCode(s.rest, next, id + Temps(s.cond) + TempsBlock(s.yes), cont, brk, end)
            == v + StmtCode(s, base, id, cont, brk)
  {
    hide ExprCode, BlockCode, RestCode, Over, Aim, Temps, TempsBlock;
    var leave := !s.rest.NoElse?;
    var cc := ExprCode(s.cond, base, id);
    var cb := BlockCode(s.yes, base + |cc| + 1, id + Temps(s.cond), cont, brk);
    var id1 := id + Temps(s.cond) + TempsBlock(s.yes);
    assert next == base + |cc| + 1 + |cb| + (if leave then 1 else 0);
    LeaveAimed(v, cc, cb, next, leave, end);
    RestLen(s.rest, next, id1, cont, brk, brk, end, 0);
    assert EndOf(s.rest, next, id1, cont, brk) == end;
  }

  lemma LandAssembled(c: seq<Instr>, patches: seq<nat>, t: nat, ends: seq<nat>, last: Option<nat>, end: nat)
    requires Below(ends, |c|) && (last.Some? ==> last.value < |c|)
    requires (forall k :: k in ends ==> k !in patches) && (last.Some? ==> last.value !in patches)
    requires last.Some? ==> last.value !in ends
    ensures var c1 := if last.Some? then c[last.value := JumpIfFalse(end)] else c;
            Patched(Over(c1, Aim(ends, Jump(end))), patches, t)
            == Over(Patched(c, patches, t), Aim(ends, Jump(end)) + LastAim(last, end))
  {
  }

  lemma ElifAimed(v: seq<Instr>, cc: seq<Instr>, cb: seq<Instr>, next: nat, ends: seq<nat>, e: nat, more: bool)
    requires Below(ends, |v|) && next == |v| + |cc| + 1 + |cb| + 1
    ensures Over(v + BranchShape(cc, cb, next, true),
                 Aim(ends + [next - 1], Jump(e)) + LastAim(if more then None else Some(|v| + |cc|), e))
         == Over(v, Aim(ends, Jump(e))) + (cc + [JumpIfFalse(if more then next else e)] + cb + [Jump(e)])
  {
  }

  lemma ElifAssembled(r: Rest, base: nat, id: nat, cont: nat, brk: nat, e: nat, v: seq<Instr>, ends: seq<nat>,
        next: nat)
    requires r.Elif? && |v| == base && Below(ends, base)
    requires var cc := ExprCode(r.cond, base, id);
             var cb := BlockCode(r.body, base + |cc| + 1, id + Temps(r.cond), cont, brk);
             next == |v + BranchShape(cc, cb, next, true)|
    ensures var cc := ExprCode(r.cond, base, id);
            var cb := BlockCode(r.body, base + |cc| + 1, id + Temps(r.cond), cont, brk);
            Over(v + BranchShape(cc, cb, next, true),
                 Aim(ends + [next - 1], Jump(e)) + LastAim(if r.rest.Elif? then None else Some(base + |cc|), e))
            + RestCode(r.rest, next, id + Temps(r.cond) + TempsBlock(r.body), cont, brk, e)
            == Over(v, Aim(ends, Jump(e))) + RestCode(r, base, id, cont, brk, e)
  {
    hide ExprCode, BlockCode, Over, Aim, LastAim, Temps, TempsBlock;
    var cc := ExprCode(r.cond, base, id);
    var cb := BlockCode(r.body, base + |cc| + 1, id + Temps(r.cond), cont, brk);
    ElifAimed(v, cc, cb, next, ends, e, r.rest.Elif?);
    var tail := RestCode(r.rest, next, id + Temps(r.cond) + TempsBlock(r.body), cont, brk, e);
    var branch := cc + [JumpIfFalse(if r.rest.Elif? then next else e)] + cb + [Jump(e)];
    assert RestCode(r, base, id, cont, brk, e) == branch + tail;
    assert Over(v, Aim(ends, Jump(e))) + branch + tail == Over(v, Aim(ends, Jump(e))) + (branch + tail);
  }

  lemma NoCode(base: nat, id: nat, cont: nat)
    ensures forall t :: BlockCode(Nil, base, id, cont, t) == []
  {
  }

  /** The code of a statement, and then the code of the statements after it. */
  lemma BlockGrows(b: Block, base: nat, id: nat, cont: nat, t: nat, v0: seq<Instr>, v1: seq<Instr>, v2: seq<Instr>)
    requires b.Cons? && |v0| == base && v1 == v0 + StmtCode(b.head, base, id, cont, t)
    requires v2 == v1 + BlockCode(b.tail, |v1|, id + TempsStmt(b.head), cont, t)
    ensures v2 == v0 + BlockCode(b, base, id, cont, t)
  {
    hide StmtCode, TempsStmt;
  }

  class Compiler {
    var code: seq<Instr>
    var loops: seq<LoopFrame>
    var nextId: nat

    constructor ()
      ensures code == [] && loops == [] && nextId == 0
    {
      code, loops, nextId := [], [], 0;
    }

    method Emit(i: Instr) returns (at: nat)
      modifies this`code
      ensures at == |old(code)| && code == old(code) + [i]
    {
      at := |code|;
      code := code + [i];
    }

    // ----- expressions -----

    method CompileExpr(e: Expr)
      modifies this`code, this`nextId
      ensures code == old(code) + ExprCode(e, |old(code)|, old(nextId))
      ensures nextId == old(nextId) + Temps(e)
      decreases e, 2
    {
      hide *;
      match e
      case IntLit(_) => CompileLeaf(e);
      case BoolLit(_) => CompileLeaf(e);
      case NullLit => CompileLeaf(e);
      case StrLit(_) => CompileLeaf(e);
      case Var(_) => CompileLeaf(e);
      case Binary(_, _, _) => CompileBinary(e);
      case Index(_, _) => CompileIndex(e);
      case Unary(_, _) => CompileUnary(e);
      case And(_, _) => CompileAnd(e);
      case Or(_, _) => CompileOr(e);
      case Ternary(_, _, _) => CompileTernary(e);
      case Coalesce(_, _) => CompileCoalesce(e);
      case ListLit(_) => CompileList(e);
      case TupleLit(_) => CompileList(e);
      case SpreadLit(_) => CompileSpreadLit(e);
      case Comprehension(_, _, _, _) => CompileComprehension(e);
    }

    method CompileLeaf(e: Expr)
      requires e.IntLit? || e.BoolLit? || e.NullLit? || e.StrLit? || e.Var?
      modifies this`code
      ensures code == old(code) + ExprCode(e, |old(code)|, old(nextId))
      ensures nextId == old(nextId) + Temps(e)
    {
      var i;
      match e {
        case IntLit(k) => i := ConstInt(k);
        case BoolLit(b) => i := ConstBool(b);
        case NullLit => i := ConstNull;
        case StrLit(s) => i := ConstStr(s);
        case Var(x) => i := LoadGlobal(User(x));
      }
      var _ := Emit(i);
    }

    method CompileBinary(e: Expr)
      requires e.Binary?
      modifies this`code, this`nextId
      ensures code == old(code) + ExprCode(e, |old(code)|, old(nextId))
      ensures nextId == old(nextId) + Temps(e)
      decreases e, 1
    {
      hide ExprCode;
      ghost var o, id := code, nextId;
      BinaryCode(e.op, e.left, e.right, |o|, id);
      CompileExpr(e.left);
      CompileExpr(e.right);
      var _ := Emit(Arith(e.op));
      assert code == o + ExprCode(e, |o|, id);
    }

    method CompileIndex(e: Expr)
      requires e.Index?
      modifies this`code, this`nextId
      ensures code == old(code) + ExprCode(e, |old(code)|, old(nextId))
      ensures nextId == old(nextId) + Temps(e)
      decreases e, 1
    {
      hide ExprCode;
      ghost var o, id := code, nextId;
      IndexCode(e.target, e.index, |o|, id);
      CompileExpr(e.target);
      CompileExpr(e.index);
      var _ := Emit(IndexGet);
      assert code == o + ExprCode(e, |o|, id);
    }

    method CompileUnary(e: Expr)
      requires e.Unary?
      modifies this`code, this`nextId
      ensures code == old(code) + ExprCode(e, |old(code)|, old(nextId))
      ensures nextId == old(nextId) + Temps(e)
      decreases e, 1
    {
      CompileExpr(e.operand);
      var _ := Emit(UnaryOp(e.uop));
    }

    method CompileAnd(e: Expr)
      requires e.And?
      modifies this`code, this`nextId
      ensures code == old(code) + ExprCode(e, |old(code)|, old(nextId))
      ensures nextId == old(nextId) + Temps(e)
      decreases e, 1
    {
      hide AndShape, ExprCode;
      ghost var o := code;
      AndCode(e.left, e.right, |o|, nextId);
      CompileExpr(e.left);
      ghost var cl := ExprCode(e.left, |o|, old(nextId));
      var jmpFalse := Emit(JumpIfFalse(0));
      ghost var cr := ExprCode(e.right, |code|, nextId);
      CompileExpr(e.right);
      var _ := Emit(CallBuiltin(BoolOf, 1));
      var end := Emit(Jump(0));
      AndAssembled(o, cl, cr);
      code := code[jmpFalse := JumpIfFalse(|code|)];
      var _ := Emit(ConstBool(false));
      code := code[end := Jump(|code|)];
    }

    method CompileOr(e: Expr)
      requires e.Or?
      modifies this`code, this`nextId
      ensures code == old(code) + ExprCode(e, |old(code)|, old(nextId))
      ensures nextId == old(nextId) + Temps(e)
      decreases e, 1
    {
      hide OrShape, ExprCode;
      ghost var o := code;
      OrCode(e.left, e.right, |o|, nextId);
      CompileExpr(e.left);
      ghost var cl := ExprCode(e.left, |o|, old(nextId));
      var _ := Emit(Dup);
      var jmpTrue := Emit(JumpIfTrue(0));
      var _ := Emit(Pop);
      ghost var cr := ExprCode(e.right, |code|, nextId);
      CompileExpr(e.right);
      var _ := Emit(CallBuiltin(BoolOf, 1));
      var end := Emit(Jump(0));
      OrAssembled(o, cl, cr);
      code := code[jmpTrue := JumpIfTrue(|code|)];
      var _ := Emit(Pop);
      var _ := Emit(ConstBool(true));
      code := code[end := Jump(|code|)];
    }

    method CompileTernary(e: Expr)
      requires e.Ternary?
      modifies this`code, this`nextId
      ensures code == old(code) + ExprCode(e, |old(code)|, old(nextId))
      ensures nextId == old(nextId) + Temps(e)
      decreases e, 1
    {
      hide TernaryShape, ExprCode;
      ghost var o := code;
      TernaryCode(e.cond, e.yes, e.no, |o|, nextId);
      CompileExpr(e.cond);
      ghost var cc := ExprCode(e.cond, |o|, old(nextId));
      var jmpFalse := Emit(JumpIfFalse(0));
      ghost var ca := ExprCode(e.yes, |code|, nextId);
      CompileExpr(e.yes);
      var jmpEnd := Emit(Jump(0));
      ghost var cb := ExprCode(e.no, |code|, nextId);
      TernaryAssembled(o, cc, ca, cb);
      code := code[jmpFalse := JumpIfFalse(|code|)];
      CompileExpr(e.no);
      code := code[jmpEnd := Jump(|code|)];
    }

    method CompileCoalesce(e: Expr)
      requires e.Coalesce?
      modifies this`code, this`nextId
      ensures code == old(code) + ExprCode(e, |old(code)|, old(nextId))
      ensures nextId == old(nextId) + Temps(e)
      decreases e, 1
    {
      hide CoalesceShape, ExprCode;
      ghost var o := code;
      CoalesceCode(e.left, e.right, |o|, nextId);
      CompileExpr(e.left);
      ghost var cl := ExprCode(e.left, |o|, old(nextId));
      var _ := Emit(Dup);
      var jmpTrue := Emit(JumpIfTrue(0));
      var _ := Emit(Pop);
      ghost var cr := ExprCode(e.right, |code|, nextId);
      CompileExpr(e.right);
      CoalesceAssembled(o, cl, cr);
      code := code[jmpTrue := JumpIfTrue(|code|)];
    }

    method CompileList(e: Expr)
      requires e.ListLit? || e.TupleLit?
      modifies this`code, this`nextId
      ensures code == old(code) + ExprCode(e, |old(code)|, old(nextId))
      ensures nextId == old(nextId) + Temps(e)
      decreases e, 1
    {
      CompileExprs(e.exprs);
      var _ := Emit(if e.ListLit? then NewList(Len(e.exprs)) else NewTuple(Len(e.exprs)));
    }

    method CompileExprs(es: Vec<Expr>)
      modifies this`code, this`nextId
      ensures code == old(code) + ExprsCode(es, |old(code)|, old(nextId))
      ensures nextId == old(nextId) + TempsAll(es)
      decreases es, 0
    {
      hide ExprCode, Temps;
      if es.Cons? {
        CompileExpr(es.head);
        CompileExprs(es.tail);
      }
    }

    method CompileSpreadLit(e: Expr)
      requires e.SpreadLit?
      modifies this`code, this`nextId
      ensures code == old(code) + ExprCode(e, |old(code)|, old(nextId))
      ensures nextId == old(nextId) + Temps(e)
      decreases e, 1
    {
      var temp := SpreadTemp(nextId);
      nextId := nextId + 1;
      var _ := Emit(NewList(0));
      var _ := Emit(StoreGlobal(temp));
      assert code == old(code) + [NewList(0), StoreGlobal(temp)];
      CompileParts(e.parts, temp);
      var _ := Emit(LoadGlobal(temp));
    }

    method EmitAppend(temp: Name)
      modifies this`code
      ensures code == old(code) + AppendCode(temp)
    {
      var _ := Emit(LoadGlobal(temp));
      var _ := Emit(Swap);
      var _ := Emit(CallBuiltin(ListAppend, 2));
      var _ := Emit(StoreGlobal(temp));
    }

    method CompileParts(ps: Vec<Part>, temp: Name)
      modifies this`code, this`nextId
      ensures code == old(code) + PartsCode(ps, temp, |old(code)|, old(nextId))
      ensures nextId == old(nextId) + TempsParts(ps)
      decreases ps, 0
    {
      hide ExprCode, PartCode, Temps;
      if ps.Cons? {
        CompilePart(ps.head, temp);
        CompileParts(ps.tail, temp);
      }
    }

    method CompilePart(p: Part, temp: Name)
      modifies this`code, this`nextId
      ensures code == old(code) + PartCode(p, temp, |old(code)|, old(nextId))
      ensures nextId == old(nextId) + Temps(p.e)
      decreases p, 0
    {
      hide ExprCode, Temps, SpreadShape, AppendCode;
      ghost var o := code;
      CompileExpr(p.e);
      ghost var ce := ExprCode(p.e, |o|, old(nextId));
      if p.Plain? {
        EmitAppend(temp);
      } else {
        var _ := Emit(Iter);
        var loopStart := |code|;
        var exit := Emit(IterNext(0, 0));
        EmitAppend(temp);
        var _ := Emit(Jump(loopStart));
        SpreadAssembled(o, ce, temp);
        code := code[exit := IterNext(loopStart + 1, |code|)];
      }
    }

    method CompileComprehension(e: Expr)
      requires e.Comprehension?
      modifies this`code, this`nextId
      ensures code == old(code) + ExprCode(e, |old(code)|, old(nextId))
      ensures nextId == old(nextId) + Temps(e)
      decreases e, 1
    {
      hide CompShape, AppendCode, FilterShape, FilterSize, OptCode, TempsOpt, ExprCode;
      CompCode(e.result, e.name, e.iterable, e.filter, |code|, nextId);
      ghost var o := code;
      var x := User(e.name);
      var _ := Emit(NewList(0));
      var _ := Emit(StoreGlobal(COLLECTED));
      ghost var cit := ExprCode(e.iterable, |code|, nextId);
      CompileExpr(e.iterable);
      var _ := Emit(Iter);
      var loopStart := |code|;
      var exit := Emit(IterNext(0, 0));
      var _ := Emit(StoreGlobal(x));
      ghost var cf := OptCode(e.filter, |code|, nextId);
      ghost var cr := ExprCode(e.result, |code| + FilterSize(cf), nextId + TempsOpt(e.filter));
      CompAssembled(o, cit, x, cf, cr);
      CompileFiltered(e);
      var _ := Emit(Jump(loopStart));
      code := code[exit := IterNext(exit + 1, |code|)];
      var _ := Emit(LoadGlobal(COLLECTED));
    }

    /** The filter with its jump, the result, and the append. */
    method CompileFiltered(e: Expr)
      requires e.Comprehension?
      modifies this`code, this`nextId
      ensures var at := |old(code)|;
              var cf := OptCode(e.filter, at, old(nextId));
              var cr := ExprCode(e.result, at + FilterSize(cf), old(nextId) + TempsOpt(e.filter));
              && code == old(code) + (FilterShape(cf, at + FilterSize(cf) + |cr| + 4) + cr + AppendCode(COLLECTED))
              && |code| == at + FilterSize(cf) + |cr| + 4
      ensures nextId == old(nextId) + TempsOpt(e.filter) + Temps(e.result)
      decreases e, 0
    {
      hide ExprCode, Temps;
      ghost var o := code;
      if e.filter.Some? {
        CompileExpr(e.filter.value);
        ghost var cf := ExprCode(e.filter.value, |o|, old(nextId));
        var skip := Emit(JumpIfFalse(0));
        ghost var cr := ExprCode(e.result, |code|, nextId);
        CompileExpr(e.result);
        EmitAppend(COLLECTED);
        FilterAssembled(o, cf, cr);
        code := code[skip := JumpIfFalse(|code|)];
      } else {
        CompileExpr(e.result);
        EmitAppend(COLLECTED);
      }
    }

    // ----- statements -----

    function Patches(): seq<nat>
      reads this
    {
      if loops == [] then [] else loops[|loops| - 1].patches
    }

    function Cont(): nat
      reads this
    {
      if loops == [] then 0 else loops[|loops| - 1].cont
    }

    /** The code as it will be once the loop around is known to end at `t`. */
    function View(t: nat): (r: seq<Instr>)
      reads this
      ensures |r| == |code|
    {
      Patched(code, Patches(), t)
    }

    ghost predicate Valid()
      reads this
    {
      Below(Patches(), |code|)
    }

    /** Only the innermost loop's `break` jumps have grown, by jumps in the new code. */
    twostate predicate Grown()
      reads this
    {
      && |loops| == |old(loops)| && Cont() == old(Cont())
      && (loops != [] ==> loops[..|loops| - 1] == old(loops)[..|loops| - 1])
      && |old(code)| <= |code|
      && (forall k :: k in Patches() ==> k in old(Patches()) || |old(code)| <= k)
    }

    /** Appending code with no `break` in it. */
    twostate lemma Appended(x: seq<Instr>)
      requires old(Valid()) && code == old(code) + x && loops == old(loops)
      ensures Valid() && Grown()
      ensures forall t :: View(t) == old(View(t)) + x
    {
      forall t ensures View(t) == old(View(t)) + x {
        PatchedAppend(old(code), x, Patches(), t);
      }
    }

    method CompileStmt(s: Stmt) returns (ok: bool)
      requires Valid()
      modifies this
      ensures ok <==> old(loops) != [] || Closed(s)
      ensures ok ==> Valid() && Grown() && nextId == old(nextId) + TempsStmt(s)
      ensures ok ==> forall t :: View(t) == old(View(t)) + StmtCode(s, |old(code)|, old(nextId), Cont(), t)
      decreases s, 2
    {
      hide *;
      match s
      case Assign(_, _) => ok := true; CompileSimple(s);
      case Compound(_, _, _) => ok := true; CompileSimple(s);
      case Delete(_) => ok := true; CompileSimple(s);
      case IndexAssign(_, _, _) => ok := true; CompileSimple(s);
      case ExprStmt(_) => ok := true; CompileSimple(s);
      case Println(_) => ok := true; CompileSimple(s);
      case Paste(_) => ok := true; CompileSimple(s);
      case If(_, _, _) => ok := CompileIf(s);
      case While(_, _) => ok := CompileWhile(s);
      case Loop(_) => ok := CompileWhile(s);
      case ForIn(_, _, _) => ok := CompileFor(s);
      case ForRange(_, _, _, _, _) => ok := CompileFor(s);
      case Break => ok := CompileBreak();
      case Continue => ok := CompileContinue();
      case Scope(_) => ok := CompileScope(s);
    }

    /** Assignments, deletions and expression statements. */
    method CompileSimple(s: Stmt)
      requires s.Assign? || s.Compound? || s.Delete? || s.IndexAssign? || s.ExprStmt? || s.Println? || s.Paste?
      requires Valid()
      modifies this`code, this`nextId
      ensures Closed(s)
      ensures Valid() && Grown() && nextId == old(nextId) + TempsStmt(s)
      ensures forall t :: View(t) == old(View(t)) + StmtCode(s, |old(code)|, old(nextId), Cont(), t)
    {
      hide ExprCode, Temps, StmtCode, View, Valid, Grown;
      ghost var o, id := code, nextId;
      ghost var x := SimpleCode(s, |o|, id);
      EmitSimple(s);
      SimpleIsStmt(s, |o|, id);
      Appended(x);
    }

    method EmitSimple(s: Stmt)
      requires s.Assign? || s.Compound? || s.Delete? || s.IndexAssign? || s.ExprStmt? || s.Println? || s.Paste?
      modifies this`code, this`nextId
      ensures code == old(code) + SimpleCode(s, |old(code)|, old(nextId))
      ensures nextId == old(nextId) + TempsStmt(s)
    {
      hide ExprCode, Temps;
      match s
      case Assign(x, e) =>
        CompileExpr(e);
        var _ := Emit(StoreGlobal(User(x)));
      case Compound(x, op, e) =>
        var _ := Emit(LoadGlobal(User(x)));
        CompileExpr(e);
        var _ := Emit(Arith(op));
        var _ := Emit(StoreGlobal(User(x)));
      case Delete(x) =>
        var _ := Emit(ConstNull);
        var _ := Emit(StoreGlobal(User(x)));
      case IndexAssign(x, i, e) =>
        var _ := Emit(LoadGlobal(User(x)));
        CompileExpr(i);
        CompileExpr(e);
        var _ := Emit(IndexSet);
        var _ := Emit(StoreGlobal(User(x)));
      case ExprStmt(e) =>
        CompileExpr(e);
        var _ := Emit(Pop);
      case Println(args) =>
        CompilePrints(args);
        var _ := Emit(Newline);
      case Paste(args) =>
        CompilePrints(args);
    }

    method CompilePrints(args: Vec<Expr>)
      modifies this`code, this`nextId
      ensures code == old(code) + PrintCode(args, |old(code)|, old(nextId))
      ensures nextId == old(nextId) + TempsAll(args)
      decreases args
    {
      hide ExprCode, Temps;
      if args.Cons? {
        CompileExpr(args.head);
        var _ := Emit(PrintTop);
        CompilePrints(args.tail);
      }
    }

    method CompileBreak() returns (ok: bool)
      requires Valid()
      modifies this
      ensures ok <==> old(loops) != [] || Closed(Break)
      ensures ok ==> Valid() && Grown() && nextId == old(nextId) + TempsStmt(Break)
      ensures ok ==> forall t :: View(t) == old(View(t)) + StmtCode(Break, |old(code)|, old(nextId), Cont(), t)
    {
      if loops == [] {
        return false;
      }
      var idx := Emit(Jump(0));
      var top := loops[|loops| - 1];
      loops := loops[|loops| - 1 := top.(patches := top.patches + [idx])];
      ok := true;
      forall t ensures View(t) == old(View(t)) + [Jump(t)] {
        PatchedBreak(old(code), old(Patches()), t);
      }
    }

    method CompileContinue() returns (ok: bool)
      requires Valid()
      modifies this
      ensures ok <==> old(loops) != [] || Closed(Continue)
      ensures ok ==> Valid() && Grown() && nextId == old(nextId) + TempsStmt(Continue)
      ensures ok ==> forall t :: View(t) == old(View(t)) + StmtCode(Continue, |old(code)|, old(nextId), Cont(), t)
    {
      if loops == [] {
        return false;
      }
      var _ := Emit(Jump(loops[|loops| - 1].cont));
      ok := true;
      Appended([Jump(Cont())]);
    }

    method CompileScope(s: Stmt) returns (ok: bool)
      requires s.Scope? && Valid()
      modifies this
      ensures ok <==> old(loops) != [] || Closed(s)
      ensures ok ==> Valid() && Grown() && nextId == old(nextId) + TempsStmt(s)
      ensures ok ==> forall t :: View(t) == old(View(t)) + StmtCode(s, |old(code)|, old(nextId), Cont(), t)
      decreases s, 1
    {
      ok := CompileBlock(s.body);
    }

    method CompileBlock(b: Block) returns (ok: bool)
      requires Valid()
      modifies this
      ensures ok <==> old(loops) != [] || ClosedBlock(b)
      ensures ok ==> Valid() && Grown() && nextId == old(nextId) + TempsBlock(b)
      ensures ok ==> forall t :: View(t) == old(View(t)) + BlockCode(b, |old(code)|, old(nextId), Cont(), t)
      decreases b, 1
    {
      hide StmtCode, TempsStmt, Closed, Patched, BlockCode;
      NoCode(|code|, nextId, Cont());
      if b.Nil? {
        ok := true;
        Appended([]);
      } else {
        ok := CompileStmt(b.head);
        if ok {
          assert |code| == |View(0)|;
          label Mid:
          ok := CompileBlock(b.tail);
          if ok {
            ghost var base, id := |old(code)|, old(nextId);
            forall t ensures View(t) == old(View(t)) + BlockCode(b, base, id, Cont(), t) {
              BlockGrows(b, base, id, Cont(), t, old(View(t)), old@Mid(View(t)), View(t));
            }
          }
        }
      }
    }

    // ----- loops -----

    /** The body of a loop with the jump back, every `break` in it aimed past that jump. */
    method CompileLoopBody(body: Block, start: nat)
      modifies this
      ensures loops == old(loops)
      ensures code == old(code) + LoopBody(body, |old(code)|, old(nextId), start) + [Jump(start)]
      ensures nextId == old(nextId) + TempsBlock(body)
      decreases body, 2
    {
      hide BlockCode, Patched, ClosedBlock;
      ghost var o, id := code, nextId;
      loops := loops + [LoopFrame(start, [])];
      assert Patches() == [] && Cont() == start;
      forall t ensures View(t) == o { PatchedNone(o, t); }
      var ok := CompileBlock(body);
      assert ok;
      var patches := loops[|loops| - 1].patches;
      assert patches == Patches();
      forall t ensures Patched(code + [Jump(start)], patches, t) == o + BlockCode(body, |o|, id, start, t) + [Jump(start)] {
        assert View(t) == Patched(code, patches, t);
        PatchedAppend(code, [Jump(start)], patches, t);
      }
      ghost var c := code;
      var _ := Emit(Jump(start));
      assert |code| == |Patched(c + [Jump(start)], patches, 0)|;
      loops := loops[..|loops| - 1];
      assert loops == old(loops);
      PatchAll(patches, Jump(|code|));
      assert code == Patched(c + [Jump(start)], patches, |code|) by { PatchedIs(c + [Jump(start)], patches, |code|); }
    }

    method PatchAll(at: seq<nat>, i: Instr)
      requires Below(at, |code|)
      modifies this`code
      ensures code == Over(old(code), Aim(at, i))
    {
      var k := 0;
      while k < |at|
        invariant 0 <= k <= |at|
        invariant code == Over(old(code), Aim(at[..k], i))
      {
        ghost var before := at[..k];
        assert at[k] in at;
        code := code[at[k] := i];
        assert at[..k + 1] == before + [at[k]];
        k := k + 1;
      }
      assert at[..k] == at;
    }

    method CompileWhile(s: Stmt) returns (ok: bool)
      requires (s.While? || s.Loop?) && Valid()
      modifies this
      ensures ok <==> old(loops) != [] || Closed(s)
      ensures ok ==> Valid() && Grown() && nextId == old(nextId) + TempsStmt(s)
      ensures ok ==> forall t :: View(t) == old(View(t)) + StmtCode(s, |old(code)|, old(nextId), Cont(), t)
      decreases s, 1
    {
      hide LoopBody, ExprCode, Temps, TempsBlock, WhileShape, Over, View, Valid, Grown, Patched;
      ghost var o, id := code, nextId;
      var start := |code|;
      if s.While? {
        CompileExpr(s.cond);
      } else {
        var _ := Emit(ConstBool(true));
      }
      ghost var cc := if s.While? then ExprCode(s.cond, |o|, id) else [ConstBool(true)];
      var exit := Emit(JumpIfFalse(0));
      ghost var cb := LoopBody(s.body, |code|, nextId, start);
      WhileAssembled(o, cc, cb);
      CompileLoopBody(s.body, start);
      code := code[exit := JumpIfFalse(|code|)];
      ok := true;
      Appended(WhileShape(|o|, cc, cb));
      LoopIgnoresTarget(s, |o|, id, Cont());
    }

    method CompileSource(s: Stmt)
      requires s.ForIn? || s.ForRange?
      modifies this`code, this`nextId
      ensures code == old(code) + SourceCode(s, |old(code)|, old(nextId))
      ensures nextId == old(nextId) + TempsSource(s)
    {
      hide ExprCode, Temps;
      if s.ForIn? {
        CompileExpr(s.iterable);
      } else {
        CompileExpr(s.from);
        CompileExpr(s.to);
        if s.step.Some? {
          CompileExpr(s.step.value);
        } else {
          var _ := Emit(ConstInt(1));
        }
        var _ := Emit(CallBuiltin(Range3, 3));
      }
    }

    method CompileFor(s: Stmt) returns (ok: bool)
      requires (s.ForIn? || s.ForRange?) && Valid()
      modifies this
      ensures ok <==> old(loops) != [] || Closed(s)
      ensures ok ==> Valid() && Grown() && nextId == old(nextId) + TempsStmt(s)
      ensures ok ==> forall t :: View(t) == old(View(t)) + StmtCode(s, |old(code)|, old(nextId), Cont(), t)
      decreases s, 1
    {
      hide LoopBody, SourceCode, ForShape, Over, View, Valid, Grown, Patched;
      ghost var o, id := code, nextId;
      ghost var src := SourceCode(s, |o|, id);
      CompileSource(s);
      var _ := Emit(Iter);
      var start := |code|;
      var exit := Emit(IterNext(0, 0));
      var _ := Emit(StoreGlobal(User(s.name)));
      ghost var cb := LoopBody(s.body, |code|, nextId, start);
      ForAssembled(o, src, User(s.name), cb);
      CompileLoopBody(s.body, start);
      code := code[exit := IterNext(exit + 1, |code|)];
      ok := true;
      Appended(ForShape(|o|, src, User(s.name), cb));
      LoopIgnoresTarget(s, |o|, id, Cont());
    }

    // ----- conditionals -----

    /** These jumps are placeholders of the statement being compiled, not of the loop around it. */
    ghost predicate Spare(k: nat)
      reads this
    {
      k < |code| && k !in Patches()
    }

    ghost predicate Pending(at: seq<nat>)
      reads this
    {
      forall k :: k in at ==> Spare(k)
    }

    method CompileIf(s: Stmt) returns (ok: bool)
      requires s.If? && Valid()
      modifies this
      ensures ok <==> old(loops) != [] || Closed(s)
      ensures ok ==> Valid() && Grown() && nextId == old(nextId) + TempsStmt(s)
      ensures ok ==> forall t :: View(t) == old(View(t)) + StmtCode(s, |old(code)|, old(nextId), Cont(), t)
      decreases s, 1
    {
      hide BlockCode, RestCode, StmtCode, ExprCode, Temps, TempsBlock, TempsRest, Patched, Over, ClosedBlock,
        ClosedRest,
        BranchShape, LastAim, Aim;
      ghost var base, id := |code|, nextId;
      var leave := !s.rest.NoElse?;
      var guard;
      ok, guard := CompileBranch(s.cond, s.yes, leave);
      if !ok {
        return;
      }
      var ends: seq<nat> := if leave then [|code| - 1] else [];
      assert Pending(ends);
      ghost var next, id1 := |code|, nextId;
      label Mid:
      var last, r;
      ok, ends, last, r := CompileElifs(s.rest, ends);
      if !ok {
        return;
      }
      ok := CompileElse(r, ends, last);
      if !ok {
        return;
      }
      ghost var cont := Cont();
      forall t ensures View(t) == old(View(t)) + StmtCode(s, base, id, cont, t) {
        ghost var cc := ExprCode(s.cond, base, id);
        ghost var cb := BlockCode(s.yes, base + |cc| + 1, id + Temps(s.cond), cont, t);
        assert old@Mid(View(t)) == old(View(t)) + BranchShape(cc, cb, next, leave);
        assert View(t) == Over(old@Mid(View(t)), Aim(if leave then [next - 1] else [], Jump(|code|))) + RestCode(s.rest, next, id1, cont, t, |code|);
        IfAssembled(s, base, id, cont, t, old(View(t)), next, |code|);
      }
    }

    /** A condition, the jump around the branch it guards, and the branch; then a jump still to be
        aimed, if asked for. */
    method CompileBranch(cond: Expr, body: Block, leave: bool) returns (ok: bool, guard: nat)
      requires Valid()
      modifies this
      ensures ok <==> old(loops) != [] || ClosedBlock(body)
      ensures ok ==> Valid() && Grown() && nextId == old(nextId) + Temps(cond) + TempsBlock(body)
      ensures ok ==>
        var cc := ExprCode(cond, |old(code)|, old(nextId));
        forall t ::
          var cb := BlockCode(body, |old(code)| + |cc| + 1, old(nextId) + Temps(cond), Cont(), t);
          View(t) == old(View(t)) + BranchShape(cc, cb, |code|, leave)
      ensures ok ==>
        && guard == |old(code)| + |ExprCode(cond, |old(code)|, old(nextId))|
        && Spare(guard) && (leave ==> guard < |code| - 1 && Spare(|code| - 1))
      decreases body, 2
    {
      hide BlockCode, ExprCode, Temps, TempsBlock, ClosedBlock, View, BranchShape;
      ghost var base, id := |code|, nextId;
      ghost var cc := ExprCode(cond, base, id);
      guard := CompileGuard(cond);
      ok := CompileBlock(body);
      if !ok {
        return;
      }
      AimGuard(guard, leave);
      forall t ensures View(t) == old(View(t)) + BranchShape(cc, BlockCode(body, base + |cc| + 1, id + Temps(cond), Cont(), t), |code|, leave) {
        BranchAssembled(old(View(t)), cc, BlockCode(body, base + |cc| + 1, id + Temps(cond), Cont(), t), leave, |code|);
      }
    }

    method CompileGuard(cond: Expr) returns (guard: nat)
      requires Valid()
      modifies this`code, this`nextId
      ensures Valid() && Grown() && guard == |code| - 1 && Spare(guard) && nextId == old(nextId) + Temps(cond)
      ensures var cc := ExprCode(cond, |old(code)|, old(nextId));
              && |code| == |old(code)| + |cc| + 1
              && forall t :: View(t) == old(View(t)) + cc + [JumpIfFalse(0)]
    {
      hide ExprCode, Temps, View;
      ghost var cc := ExprCode(cond, |code|, nextId);
      CompileExpr(cond);
      guard := Emit(JumpIfFalse(0));
      Appended(cc + [JumpIfFalse(0)]);
      forall t ensures View(t) == old(View(t)) + cc + [JumpIfFalse(0)] {
        assert View(t) == old(View(t)) + (cc + [JumpIfFalse(0)]);
      }
    }

    /** Leaves the branch, if asked to, and aims its guard past it. */
    method AimGuard(guard: nat, leave: bool)
      requires Valid() && Spare(guard)
      modifies this`code
      ensures Valid() && |code| == |old(code)| + (if leave then 1 else 0)
      ensures forall t :: View(t) == (old(View(t)) + (if leave then [Jump(0)] else []))[guard := JumpIfFalse(|code|)]
    {
      hide Patched;
      ghost var c1, patches := code, Patches();
      if leave {
        var _ := Emit(Jump(0));
      }
      ghost var c2 := code;
      code := code[guard := JumpIfFalse(|code|)];
      forall t ensures View(t) == (old(View(t)) + (if leave then [Jump(0)] else []))[guard := JumpIfFalse(|code|)] {
        if leave { PatchedAppend(c1, [Jump(0)], patches, t); }
        PatchedSet(c2, patches, t, guard, JumpIfFalse(|code|));
      }
    }

    /** The `elif` branches, one after the other. What is left of the chain is returned, and the
        jumps still to be aimed. */
    method CompileElifs(rest: Rest, ends0: seq<nat>) returns (ok: bool, ends: seq<nat>, last: Option<nat>, r: Rest)
      requires Valid() && Pending(ends0)
      modifies this
      ensures ok ==> Valid() && Grown() && Pending(ends) && (last.Some? ==> Spare(last.value) && last.value !in ends)
      ensures ok ==> !r.Elif? && (r == rest || r < rest) && nextId + TempsRest(r) == old(nextId) + TempsRest(rest)
      ensures ok ==> (old(loops) != [] || (ClosedRest(r) <==> ClosedRest(rest)))
      ensures !ok ==> old(loops) == [] && !ClosedRest(rest)
      ensures ok ==> forall t, e ::
        Over(View(t), Aim(ends, Jump(e)) + LastAim(last, e)) + RestCode(r, |code|, nextId, Cont(), t, e)
        == Over(old(View(t)), Aim(ends0, Jump(e))) + RestCode(rest, |old(code)|, old(nextId), Cont(), t, e)
      decreases rest, 3
    {
      hide BlockCode, RestCode, StmtCode, ExprCode, Temps, TempsBlock, TempsRest, Patched, Over, ClosedBlock,
        ClosedRest,
        BranchShape, Aim;
      r, ends, last := rest, ends0, None;
      assert forall e: nat :: Aim(ends0, Jump(e)) + LastAim(None, e) == Aim(ends0, Jump(e));
      while r.Elif?
        invariant Valid() && Grown() && Pending(ends) && (last.Some? ==> Spare(last.value) && last.value !in ends)
        invariant (r == rest || r < rest) && nextId + TempsRest(r) == old(nextId) + TempsRest(rest)
        invariant old(loops) != [] || (ClosedRest(r) <==> ClosedRest(rest))
        invariant forall t, e ::
          Over(View(t), Aim(ends, Jump(e)) + LastAim(if r.Elif? then None else last, e))
          + RestCode(r, |code|, nextId, Cont(), t, e)
          == Over(old(View(t)), Aim(ends0, Jump(e))) + RestCode(rest, |old(code)|, old(nextId), Cont(), t, e)
        decreases r
      {
        assert forall e: nat :: Aim(ends, Jump(e)) + LastAim(None, e) == Aim(ends, Jump(e));
        ends, last, r, ok := CompileElif(rest, r, ends);
        if !ok {
          return;
        }
      }
      ok := true;
    }

    /** One `elif` branch of the chain. */
    method CompileElif(ghost rest: Rest, r0: Rest, ends0: seq<nat>) returns (ends: seq<nat>, last: Option<nat>,
          r: Rest, ok: bool)
      requires r0.Elif? && (r0 == rest || r0 < rest) && Valid() && Pending(ends0)
      modifies this
      ensures r == r0.rest && last.Some?
      ensures ok ==> Valid() && Grown() && Pending(ends) && Spare(last.value) && last.value !in ends
      ensures ok ==> nextId + TempsRest(r) == old(nextId) + TempsRest(r0)
      ensures ok ==> (old(loops) != [] || (ClosedRest(r) <==> ClosedRest(r0)))
      ensures !ok ==> old(loops) == [] && !ClosedRest(r0)
      ensures ok ==> forall t, e ::
          Over(View(t), Aim(ends, Jump(e)) + LastAim(if r.Elif? then None else last, e))
          + RestCode(r, |code|, nextId, Cont(), t, e)
          == Over(old(View(t)), Aim(ends0, Jump(e))) + RestCode(r0, |old(code)|, old(nextId), Cont(), t, e)
      decreases rest, 2
    {
      hide BlockCode, RestCode, StmtCode, ExprCode, Temps, TempsBlock, Patched, Over, ClosedBlock,
        BranchShape, Aim, LastAim;
      ghost var base, id := |code|, nextId;
      ghost var cc := ExprCode(r0.cond, base, id);
      var guard;
      ok, guard := CompileBranch(r0.cond, r0.body, true);
      ends, last, r := ends0, Some(guard), r0.rest;
      if !ok {
        return;
      }
      ends := ends + [|code| - 1];
      forall t, e ensures
          Over(View(t), Aim(ends, Jump(e)) + LastAim(if r.Elif? then None else last, e))
          + RestCode(r, |code|, nextId, Cont(), t, e)
          == Over(old(View(t)), Aim(ends0, Jump(e))) + RestCode(r0, |old(code)|, old(nextId), Cont(), t, e)
      {
        ElifAssembled(r0, base, id, Cont(), t, e, old(View(t)), ends0, |code|);
      }
    }

    /** The `else` branch, if there is one. Every pending jump is then aimed at the end. */
    method CompileElse(r: Rest, ends: seq<nat>, last: Option<nat>) returns (ok: bool)
      requires !r.Elif? && Valid() && Pending(ends) && (last.Some? ==> Spare(last.value) && last.value !in ends)
      modifies this
      ensures ok <==> old(loops) != [] || ClosedRest(r)
      ensures ok ==> Valid() && Grown() && nextId == old(nextId) + TempsRest(r)
      ensures ok ==> forall t ::
        View(t) == Over(old(View(t)), Aim(ends, Jump(|code|)) + LastAim(last, |code|))
                   + RestCode(r, |old(code)|, old(nextId), Cont(), t, |code|)
      decreases r, 3
    {
      hide BlockCode, TempsBlock, ClosedBlock;
      ok := true;
      if r.Else? {
        ok := CompileBlock(r.body);
        if !ok {
          return;
        }
      }
      label Land:
      ghost var c := code;
      var end := |code|;
      if last.Some? {
        code := code[last.value := JumpIfFalse(end)];
      }
      PatchAll(ends, Jump(end));
      forall t ensures View(t) == Over(old(View(t)), Aim(ends, Jump(end)) + LastAim(last, end))
                   + RestCode(r, |old(code)|, old(nextId), Cont(), t, end)
      {
        LandAssembled(c, Patches(), t, ends, last, end);
        OverAppend(old(View(t)), RestCode(r, |old(code)|, old(nextId), Cont(), t, end), Aim(ends, Jump(end)) + LastAim(last, end));
      }
    }
  }

  /** A program compiles exactly when every `break` and `continue` is inside a loop. */
  method CompileProgram(p: Block) returns (r: Option<seq<Instr>>)
    ensures r == if ClosedBlock(p) then Some(ProgramCode(p)) else None
  {
    hide BlockCode, ClosedBlock;
    var compiler := new Compiler();
    assert compiler.View(0) == [];
    var ok := compiler.CompileBlock(p);
    if !ok {
      return None;
    }
    assert compiler.View(0) == BlockCode(p, 0, 0, 0, 0);
    assert compiler.Patches() == [];
    PatchedNone(compiler.code, 0);
    var _ := compiler.Emit(Halt);
    r := Some(compiler.code);
  }
}
