/** Stack heights of statements and programs. */
module StackSafety {
  import opened Values
  import opened Ast
  import opened Bytecode
  import opened Layout
  import opened BytecodeExprs
  import opened BytecodeStmts
  import opened BytecodePrograms
  import opened StackHeights

  function PrintHeights(args: Vec<Expr>, h: nat): seq<nat> {
    match args
    case Nil => []
    case Cons(e, rest) => ExprHeights(e, h) + [h + 1] + PrintHeights(rest, h)
  }

  function StepHeights(step: Option<Expr>, h: nat): seq<nat> {
    if step.Some? then ExprHeights(step.value, h) else [h]
  }

  function SourceHeights(s: Stmt, h: nat): seq<nat>
    requires s.ForIn? || s.ForRange?
  {
    if s.ForIn? then ExprHeights(s.iterable, h)
    else ExprHeights(s.from, h) + ExprHeights(s.to, h + 1) + StepHeights(s.step, h + 2) + [h + 3]
  }

  function StmtHeights(s: Stmt, h: nat): seq<nat>
    decreases s, 0
  {
    match s
    case Assign(_, e) => ExprHeights(e, h) + [h + 1]
    case Compound(_, _, e) => [h] + ExprHeights(e, h + 1) + [h + 2, h + 1]
    case Delete(_) => [h, h + 1]
    case IndexAssign(_, i, e) => [h] + ExprHeights(i, h + 1) + ExprHeights(e, h + 2) + [h + 3, h + 1]
    case ExprStmt(e) => ExprHeights(e, h) + [h + 1]
    case Println(es) => PrintHeights(es, h) + [h]
    case Paste(es) => PrintHeights(es, h)
    case If(c, yes, rest) =>
      ExprHeights(c, h) + [h + 1] + BlockHeights(yes, h) + (if rest.NoElse? then [] else [h]) + RestHeights(rest, h)
    case While(c, body) => ExprHeights(c, h) + [h + 1] + BlockHeights(body, h) + [h]
    case Loop(body) => [h] + [h + 1] + BlockHeights(body, h) + [h]
    case ForIn(_, _, body) => SourceHeights(s, h) + [h + 1, h + 1, h + 2] + BlockHeights(body, h + 1) + [h + 1]
    case ForRange(_, _, _, _, body) => SourceHeights(s, h) + [h + 1, h + 1, h + 2] + BlockHeights(body, h + 1) + [h + 1]
    case Break => [h]
    case Continue => [h]
    case Scope(body) => BlockHeights(body, h)
  }

  function BlockHeights(b: Block, h: nat): seq<nat>
    decreases b, 0
  {
    match b
    case Nil => []
    case Cons(s, rest) => StmtHeights(s, h) + BlockHeights(rest, h)
  }

  function RestHeights(r: Rest, h: nat): seq<nat>
    decreases r, 0
  {
    match r
    case NoElse => []
    case Else(body) => BlockHeights(body, h)
    case Elif(c, body, rest) => ExprHeights(c, h) + [h + 1] + BlockHeights(body, h) + [h] + RestHeights(rest, h)
  }

  // ----- lengths -----

  lemma {:induction false} PrintHLen(args: Vec<Expr>, base: nat, id: nat, h: nat)
    ensures |PrintCode(args, base, id)| == |PrintHeights(args, h)|
    decreases args
  {
    hide ExprCode, ExprHeights;
    if args.Cons? {
      ExprLen(args.head, base, id, h);
      PrintHLen(args.tail, base + |ExprCode(args.head, base, id)| + 1, id + Temps(args.head), h);
    }
  }

  lemma SourceHLen(s: Stmt, base: nat, id: nat, h: nat)
    requires s.ForIn? || s.ForRange?
    ensures |SourceCode(s, base, id)| == |SourceHeights(s, h)|
  {
    hide ExprCode, ExprHeights;
    if s.ForIn? {
      ExprLen(s.iterable, base, id, h);
    } else {
      var ca := ExprCode(s.from, base, id);
      var cb := ExprCode(s.to, base + |ca|, id + Temps(s.from));
      ExprLen(s.from, base, id, h);
      ExprLen(s.to, base + |ca|, id + Temps(s.from), h + 1);
      if s.step.Some? {
        ExprLen(s.step.value, base + |ca| + |cb|, id + Temps(s.from) + Temps(s.to), h + 2);
      }
    }
  }

  lemma {:induction false} IfHLen(s: Stmt, base: nat, id: nat, cont: nat, brk: nat, h: nat)
    requires s.If?
    ensures |StmtCode(s, base, id, cont, brk)| == |StmtHeights(s, h)|
    decreases s, 0
  {
    hide ExprCode, ExprHeights, BlockCode, BlockHeights, RestCode, RestHeights, Temps;
    var c, rest := s.cond, s.rest;
    ExprLen(c, base, id, h);
    var p := base + |ExprCode(c, base, id)| + 1;
    BlockHLen(s.yes, p, id + Temps(c), cont, brk, h);
    var next := p + |BlockCode(s.yes, p, id + Temps(c), cont, brk)| + (if rest.NoElse? then 0 else 1);
    var id' := id + Temps(c) + TempsBlock(s.yes);
    RestHLen(rest, next, id', cont, brk, EndOf(rest, next, id', cont, brk), h);
  }

  lemma {:induction false} StmtHLen(s: Stmt, base: nat, id: nat, cont: nat, brk: nat, h: nat)
    ensures |StmtCode(s, base, id, cont, brk)| == |StmtHeights(s, h)|
    decreases s, 1
  {
    hide ExprCode, ExprHeights, PrintCode, PrintHeights, BlockCode, BlockHeights, RestCode, RestHeights,
      SourceCode, SourceHeights, LoopBody, Temps;
    match s
    case Assign(_, e) => ExprLen(e, base, id, h);
    case Compound(_, _, e) => ExprLen(e, base + 1, id, h + 1);
    case Delete(_) =>
    case IndexAssign(_, i, e) =>
      ExprLen(i, base + 1, id, h + 1);
      ExprLen(e, base + 1 + |ExprCode(i, base + 1, id)|, id + Temps(i), h + 2);
    case ExprStmt(e) => ExprLen(e, base, id, h);
    case Println(es) => PrintHLen(es, base, id, h);
    case Paste(es) => PrintHLen(es, base, id, h);
    case If(c, yes, rest) => IfHLen(s, base, id, cont, brk, h);
    case While(c, body) =>
      ExprLen(c, base, id, h);
      var cc := ExprCode(c, base, id);
      LoopHLen(body, base + |cc| + 1, id + Temps(c), base, h);
    case Loop(body) => LoopHLen(body, base + 2, id, base, h);
    case ForIn(_, _, body) => ForHLen(s, base, id, h);
    case ForRange(_, _, _, _, body) => ForHLen(s, base, id, h);
    case Break =>
    case Continue =>
    case Scope(body) => BlockHLen(body, base, id, cont, brk, h);
  }

  lemma {:induction false} ForHLen(s: Stmt, base: nat, id: nat, h: nat)
    requires s.ForIn? || s.ForRange?
    ensures var src := SourceCode(s, base, id);
            var start := base + |src| + 1;
            |src| == |SourceHeights(s, h)| && |LoopBody(s.body, start + 2, id + TempsSource(s), start)| == |BlockHeights(s.body, h + 1)|
    decreases s, 0
  {
    hide SourceCode, SourceHeights, LoopBody, BlockHeights;
    SourceHLen(s, base, id, h);
    var start := base + |SourceCode(s, base, id)| + 1;
    LoopHLen(s.body, start + 2, id + TempsSource(s), start, h + 1);
  }

  lemma {:induction false} LoopHLen(body: Block, base: nat, id: nat, start: nat, h: nat)
    ensures |LoopBody(body, base, id, start)| == |BlockHeights(body, h)|
    decreases body, 2
  {
    BlockHLen(body, base, id, start, base + |BlockCode(body, base, id, start, 0)| + 1, h);
  }

  lemma {:induction false} BlockHLen(b: Block, base: nat, id: nat, cont: nat, brk: nat, h: nat)
    ensures |BlockCode(b, base, id, cont, brk)| == |BlockHeights(b, h)|
    decreases b, 1
  {
    hide StmtCode, StmtHeights, TempsStmt;
    if b.Cons? {
      StmtHLen(b.head, base, id, cont, brk, h);
      BlockHLen(b.tail, base + |StmtCode(b.head, base, id, cont, brk)|, id + TempsStmt(b.head), cont, brk, h);
    }
  }

  lemma {:induction false} RestHLen(r: Rest, base: nat, id: nat, cont: nat, brk: nat, end: nat, h: nat)
    ensures |RestCode(r, base, id, cont, brk, end)| == |RestHeights(r, h)|
    decreases r, 1
  {
    hide ExprCode, ExprHeights, BlockCode, BlockHeights, Temps, TempsBlock;
    match r
    case NoElse =>
    case Else(body) => BlockHLen(body, base, id, cont, brk, h);
    case Elif(c, body, rest) =>
      var cc := ExprCode(c, base, id);
      ExprLen(c, base, id, h);
      BlockHLen(body, base + |cc| + 1, id + Temps(c), cont, brk, h);
      var next := base + |cc| + 1 + |BlockCode(body, base + |cc| + 1, id + Temps(c), cont, brk)| + 1;
      RestHLen(rest, next, id + Temps(c) + TempsBlock(body), cont, brk, end, h);
  }

  // ----- statements -----

  /** Where the loop around may be left or continued, the heights match. */
  ghost predicate Around(hs: Heights, closed: bool, breaks: bool, cont: nat, brk: nat, h: nat) {
    (closed || Enters(hs, cont, h)) && (breaks ==> Enters(hs, brk, h))
  }

  ghost predicate StmtAt(s: Stmt, base: nat, id: nat, cont: nat, brk: nat, h: nat, code: seq<Instr>, hs: Heights) {
    && Both(code, hs, base, StmtCode(s, base, id, cont, brk), StmtHeights(s, h))
    && HeightIs(hs, base + |StmtCode(s, base, id, cont, brk)|, h)
    && (hs.exact ==> NoForBreak(s)) && Around(hs, Closed(s), Breaks(s), cont, brk, h)
  }

  ghost predicate BlockAt(b: Block, base: nat, id: nat, cont: nat, brk: nat, h: nat, code: seq<Instr>, hs: Heights) {
    && Both(code, hs, base, BlockCode(b, base, id, cont, brk), BlockHeights(b, h))
    && HeightIs(hs, base + |BlockCode(b, base, id, cont, brk)|, h)
    && (hs.exact ==> NoForBreakBlock(b)) && Around(hs, ClosedBlock(b), BreaksBlock(b), cont, brk, h)
  }

  ghost predicate RestAt(r: Rest, base: nat, id: nat, cont: nat, brk: nat, end: nat, h: nat, code: seq<Instr>,
        hs: Heights) {
    && Both(code, hs, base, RestCode(r, base, id, cont, brk, end), RestHeights(r, h))
    && HeightIs(hs, base + |RestCode(r, base, id, cont, brk, end)|, h) && HeightIs(hs, end, h)
    && (hs.exact ==> NoForBreakRest(r)) && Around(hs, ClosedRest(r), BreaksRest(r), cont, brk, h)
  }

  /** The code of a statement leaves the height as it found it. */
  lemma {:induction false} StmtFine(s: Stmt, base: nat, id: nat, cont: nat, brk: nat, h: nat, code: seq<Instr>,
        hs: Heights)
    requires StmtAt(s, base, id, cont, brk, h, code, hs)
    ensures Fine(code, hs, base, StmtCode(s, base, id, cont, brk), h, h)
    decreases s, 3
  {
    hide *;
    match s
    case Assign(_, _) => SimpleFine(s, base, id, cont, brk, h, code, hs);
    case Compound(_, _, _) => SimpleFine(s, base, id, cont, brk, h, code, hs);
    case Delete(_) => SimpleFine(s, base, id, cont, brk, h, code, hs);
    case IndexAssign(_, _, _) => IndexAssignFine(s, base, id, cont, brk, h, code, hs);
    case ExprStmt(_) => SimpleFine(s, base, id, cont, brk, h, code, hs);
    case Println(_) => PrintingFine(s, base, id, cont, brk, h, code, hs);
    case Paste(_) => PrintingFine(s, base, id, cont, brk, h, code, hs);
    case If(_, _, _) => IfFine(s, base, id, cont, brk, h, code, hs);
    case While(_, _) => WhileFine(s, base, id, cont, brk, h, code, hs);
    case Loop(_) => WhileFine(s, base, id, cont, brk, h, code, hs);
    case ForIn(_, _, _) => ForFine(s, base, id, cont, brk, h, code, hs);
    case ForRange(_, _, _, _, _) => ForFine(s, base, id, cont, brk, h, code, hs);
    case Break => ExitFine(s, base, id, cont, brk, h, code, hs);
    case Continue => ExitFine(s, base, id, cont, brk, h, code, hs);
    case Scope(_) => ScopeFine(s, base, id, cont, brk, h, code, hs);
  }

  lemma ExitFine(s: Stmt, base: nat, id: nat, cont: nat, brk: nat, h: nat, code: seq<Instr>, hs: Heights)
    requires (s.Break? || s.Continue?) && StmtAt(s, base, id, cont, brk, h, code, hs)
    ensures Fine(code, hs, base, StmtCode(s, base, id, cont, brk), h, h)
  {
    Cell(code, hs, base, StmtCode(s, base, id, cont, brk), [h], 0);
  }

  lemma {:induction false} ScopeFine(s: Stmt, base: nat, id: nat, cont: nat, brk: nat, h: nat, code: seq<Instr>,
        hs: Heights)
    requires s.Scope? && StmtAt(s, base, id, cont, brk, h, code, hs)
    ensures Fine(code, hs, base, StmtCode(s, base, id, cont, brk), h, h)
    decreases s, 2
  {
    hide Both, Fine, BlockCode, BlockHeights, NoForBreakBlock, ClosedBlock, BreaksBlock;
    BlockFine(s.body, base, id, cont, brk, h, code, hs);
  }

  /** One instruction after an expression, or around one. */
  lemma SimpleFine(s: Stmt, base: nat, id: nat, cont: nat, brk: nat, h: nat, code: seq<Instr>, hs: Heights)
    requires s.Assign? || s.Compound? || s.Delete? || s.ExprStmt?
    requires StmtAt(s, base, id, cont, brk, h, code, hs)
    ensures Fine(code, hs, base, StmtCode(s, base, id, cont, brk), h, h)
  {
    hide Both, Fine, ExprCode, ExprHeights;
    match s
    case Assign(x, e) => ThenOne(e, StoreGlobal(User(x)), base, id, h, code, hs);
    case ExprStmt(e) => ThenOne(e, Pop, base, id, h, code, hs);
    case Delete(x) =>
      assert [ConstNull, StoreGlobal(User(x))] == [ConstNull] + [StoreGlobal(User(x))] && [h, h + 1] == [h] + [h + 1];
      TwoFine(ConstNull, StoreGlobal(User(x)), base, h, code, hs);
    case Compound(x, op, e) => CompoundFine(x, op, e, base, id, h, code, hs);
  }

  lemma CompoundFine(x: string, op: BinOp, e: Expr, base: nat, id: nat, h: nat, code: seq<Instr>, hs: Heights)
    requires var c := ExprCode(e, base + 1, id);
             && Both(code, hs, base, [LoadGlobal(User(x))] + c + [Arith(op), StoreGlobal(User(x))],
                     [h] + ExprHeights(e, h + 1) + [h + 2, h + 1])
             && HeightIs(hs, base + 1 + |c| + 2, h)
    ensures Fine(code, hs, base, [LoadGlobal(User(x))] + ExprCode(e, base + 1, id) + [Arith(op), StoreGlobal(User(x))], h, h)
  {
    hide Both, Fine, ExprCode, ExprHeights;
    var c := ExprCode(e, base + 1, id);
    var load, two := [LoadGlobal(User(x))], [Arith(op), StoreGlobal(User(x))];
    ExprLen(e, base + 1, id, h + 1);
    Split(code, hs, base, load + c, two, [h] + ExprHeights(e, h + 1), [h + 2, h + 1]);
    Split(code, hs, base, load, c, [h], ExprHeights(e, h + 1));
    assert two == [Arith(op)] + [StoreGlobal(User(x))] && [h + 2, h + 1] == [h + 2] + [h + 1];
    TwoFine(Arith(op), StoreGlobal(User(x)), base + 1 + |c|, h + 2, code, hs);
    Starts(code, hs, base + 1 + |c|, two, h + 2, h);
    ExprFine(e, base + 1, id, h + 1, code, hs);
    Starts(code, hs, base + 1, c, h + 1, h + 2);
    Single(code, hs, base, LoadGlobal(User(x)), h);
    Joined(code, hs, base, load, c, h, h + 1, h + 2);
    Joined(code, hs, base, load + c, two, h, h + 2, h);
  }

  lemma ThenOne(e: Expr, i: Instr, base: nat, id: nat, h: nat, code: seq<Instr>, hs: Heights)
    requires i.StoreGlobal? || i.Pop?
    requires Both(code, hs, base, ExprCode(e, base, id) + [i], ExprHeights(e, h) + [h + 1])
    requires HeightIs(hs, base + |ExprCode(e, base, id)| + 1, h)
    ensures Fine(code, hs, base, ExprCode(e, base, id) + [i], h, h)
  {
    hide Both, Fine, ExprCode, ExprHeights;
    var c := ExprCode(e, base, id);
    ExprLen(e, base, id, h);
    Split(code, hs, base, c, [i], ExprHeights(e, h), [h + 1]);
    Single(code, hs, base + |c|, i, h + 1);
    Starts(code, hs, base + |c|, [i], h + 1, h);
    ExprFine(e, base, id, h, code, hs);
    Joined(code, hs, base, c, [i], h, h + 1, h);
  }

  lemma TwoFine(i: Instr, j: Instr, base: nat, h: nat, code: seq<Instr>, hs: Heights)
    requires (i.ConstNull? || i.Arith? || i.IndexSet?) && j.StoreGlobal? && Wants(i) <= h && h + Net(i) >= 1
    requires Both(code, hs, base, [i] + [j], [h] + [(h + Net(i)) as nat]) && HeightIs(hs, base + 2, h + Net(i) - 1)
    ensures Fine(code, hs, base, [i] + [j], h, h + Net(i) - 1)
  {
    hide Both, Fine;
    Split(code, hs, base, [i], [j], [h], [(h + Net(i)) as nat]);
    Single(code, hs, base + 1, j, h + Net(i));
    Starts(code, hs, base + 1, [j], h + Net(i), h + Net(i) - 1);
    Single(code, hs, base, i, h);
    Joined(code, hs, base, [i], [j], h, h + Net(i), h + Net(i) - 1);
  }

  lemma IndexAssignFine(s: Stmt, base: nat, id: nat, cont: nat, brk: nat, h: nat, code: seq<Instr>, hs: Heights)
    requires s.IndexAssign? && StmtAt(s, base, id, cont, brk, h, code, hs)
    ensures Fine(code, hs, base, StmtCode(s, base, id, cont, brk), h, h)
  {
    hide Both, Fine, ExprCode, ExprHeights, StmtCode, StmtHeights, Temps;
    IndexAssignCode(s.name, s.index, s.e, base, id, cont, brk);
    IndexAssignHeights(s, h);
    var x := User(s.name);
    var ci := ExprCode(s.index, base + 1, id);
    var p := base + 1 + |ci|;
    var ce := ExprCode(s.e, p, id + Temps(s.index));
    var two := [IndexSet] + [StoreGlobal(x)];
    var xi, xe, xt := ExprHeights(s.index, h + 1), ExprHeights(s.e, h + 2), [h + 3] + [h + 1];
    ExprLen(s.index, base + 1, id, h + 1);
    ExprLen(s.e, p, id + Temps(s.index), h + 2);
    Split(code, hs, base, [LoadGlobal(x)], ci + (ce + two), [h], xi + (xe + xt));
    Split(code, hs, base + 1, ci, ce + two, xi, xe + xt);
    Split(code, hs, p, ce, two, xe, xt);
    var q := p + |ce|;
    TwoFine(IndexSet, StoreGlobal(x), q, h + 3, code, hs);
    Starts(code, hs, q, two, h + 3, h);
    ExprFine(s.e, p, id + Temps(s.index), h + 2, code, hs);
    Starts(code, hs, p, ce, h + 2, h + 3);
    ExprFine(s.index, base + 1, id, h + 1, code, hs);
    Starts(code, hs, base + 1, ci, h + 1, h + 2);
    Single(code, hs, base, LoadGlobal(x), h);
    Joined(code, hs, p, ce, two, h + 2, h + 3, h);
    Joined(code, hs, base + 1, ci, ce + two, h + 1, h + 2, h);
    Joined(code, hs, base, [LoadGlobal(x)], ci + (ce + two), h, h + 1, h);
  }

  lemma IndexAssignHeights(s: Stmt, h: nat)
    requires s.IndexAssign?
    ensures StmtHeights(s, h) == [h] + (ExprHeights(s.index, h + 1) + (ExprHeights(s.e, h + 2) + ([h + 3] + [h + 1])))
  {
    hide ExprHeights;
  }

  lemma {:induction false} PrintFine(args: Vec<Expr>, base: nat, id: nat, h: nat, code: seq<Instr>, hs: Heights)
    requires Both(code, hs, base, PrintCode(args, base, id), PrintHeights(args, h))
    requires HeightIs(hs, base + |PrintCode(args, base, id)|, h)
    ensures Fine(code, hs, base, PrintCode(args, base, id), h, h)
    decreases args
  {
    hide Fine, ExprCode, ExprHeights, Temps;
    if args.Cons? {
      hide Both;
      var c := ExprCode(args.head, base, id);
      var p := base + |c| + 1;
      var cs := PrintCode(args.tail, p, id + Temps(args.head));
      ExprLen(args.head, base, id, h);
      PrintHLen(args.tail, p, id + Temps(args.head), h);
      Split(code, hs, base, c + [PrintTop], cs, ExprHeights(args.head, h) + [h + 1], PrintHeights(args.tail, h));
      PrintFine(args.tail, p, id + Temps(args.head), h, code, hs);
      Starts(code, hs, p, cs, h, h);
      PrintOne(args.head, base, id, h, code, hs);
      Joined(code, hs, base, c + [PrintTop], cs, h, h, h);
    } else {
      Nothing(code, hs, base, h);
    }
  }

  lemma PrintOne(e: Expr, base: nat, id: nat, h: nat, code: seq<Instr>, hs: Heights)
    requires Both(code, hs, base, ExprCode(e, base, id) + [PrintTop], ExprHeights(e, h) + [h + 1])
    requires HeightIs(hs, base + |ExprCode(e, base, id)| + 1, h)
    ensures Fine(code, hs, base, ExprCode(e, base, id) + [PrintTop], h, h)
  {
    hide Both, Fine, ExprCode, ExprHeights;
    var c := ExprCode(e, base, id);
    ExprLen(e, base, id, h);
    Split(code, hs, base, c, [PrintTop], ExprHeights(e, h), [h + 1]);
    Single(code, hs, base + |c|, PrintTop, h + 1);
    Starts(code, hs, base + |c|, [PrintTop], h + 1, h);
    ExprFine(e, base, id, h, code, hs);
    Joined(code, hs, base, c, [PrintTop], h, h + 1, h);
  }

  lemma PrintingFine(s: Stmt, base: nat, id: nat, cont: nat, brk: nat, h: nat, code: seq<Instr>, hs: Heights)
    requires (s.Println? || s.Paste?) && StmtAt(s, base, id, cont, brk, h, code, hs)
    ensures Fine(code, hs, base, StmtCode(s, base, id, cont, brk), h, h)
  {
    hide Both, Fine, PrintCode, PrintHeights;
    var c := PrintCode(s.args, base, id);
    PrintHLen(s.args, base, id, h);
    if s.Println? {
      Split(code, hs, base, c, [Newline], PrintHeights(s.args, h), [h]);
      Single(code, hs, base + |c|, Newline, h);
      Starts(code, hs, base + |c|, [Newline], h, h);
      PrintFine(s.args, base, id, h, code, hs);
      Joined(code, hs, base, c, [Newline], h, h, h);
    } else {
      PrintFine(s.args, base, id, h, code, hs);
    }
  }

  lemma BlockShape(b: Block, base: nat, id: nat, cont: nat, brk: nat, h: nat)
    requires b.Cons?
    ensures var c := StmtCode(b.head, base, id, cont, brk);
            && BlockCode(b, base, id, cont, brk) == c + BlockCode(b.tail, base + |c|, id + TempsStmt(b.head), cont, brk)
            && BlockHeights(b, h) == StmtHeights(b.head, h) + BlockHeights(b.tail, h)
  {
    hide StmtCode, StmtHeights, TempsStmt;
  }

  lemma BlockParts(b: Block, base: nat, id: nat, cont: nat, brk: nat, h: nat, code: seq<Instr>, hs: Heights)
    requires BlockAt(b, base, id, cont, brk, h, code, hs) && b.Cons?
    ensures var c := StmtCode(b.head, base, id, cont, brk);
            var cs := BlockCode(b.tail, base + |c|, id + TempsStmt(b.head), cont, brk);
            && BlockCode(b, base, id, cont, brk) == c + cs
            && Both(code, hs, base, c, StmtHeights(b.head, h))
            && BlockAt(b.tail, base + |c|, id + TempsStmt(b.head), cont, brk, h, code, hs)
  {
    hide Both, StmtCode, StmtHeights, TempsStmt, NoForBreak, Closed, Breaks, BlockCode, BlockHeights, HeightIs;
    var c := StmtCode(b.head, base, id, cont, brk);
    var cs := BlockCode(b.tail, base + |c|, id + TempsStmt(b.head), cont, brk);
    BlockShape(b, base, id, cont, brk, h);
    StmtHLen(b.head, base, id, cont, brk, h);
    BlockHLen(b.tail, base + |c|, id + TempsStmt(b.head), cont, brk, h);
    Split(code, hs, base, c, cs, StmtHeights(b.head, h), BlockHeights(b.tail, h));
  }

  lemma {:induction false} BlockFine(b: Block, base: nat, id: nat, cont: nat, brk: nat, h: nat, code: seq<Instr>,
        hs: Heights)
    requires BlockAt(b, base, id, cont, brk, h, code, hs)
    ensures Fine(code, hs, base, BlockCode(b, base, id, cont, brk), h, h)
    decreases b, 3
  {
    if b.Cons? {
      hide Both, Fine, StmtCode, StmtHeights, TempsStmt, NoForBreak, Closed, Breaks;
      var c := StmtCode(b.head, base, id, cont, brk);
      var cs := BlockCode(b.tail, base + |c|, id + TempsStmt(b.head), cont, brk);
      BlockParts(b, base, id, cont, brk, h, code, hs);
      BlockFine(b.tail, base + |c|, id + TempsStmt(b.head), cont, brk, h, code, hs);
      Starts(code, hs, base + |c|, cs, h, h);
      StmtFine(b.head, base, id, cont, brk, h, code, hs);
      Joined(code, hs, base, c, cs, h, h, h);
    } else {
      Nothing(code, hs, base, h);
    }
  }

  // ----- conditionals -----

  /** A guard, its branch, and what follows. */
  lemma GuardFine(code: seq<Instr>, hs: Heights, base: nat, cc: seq<Instr>, cb: seq<Instr>, out: seq<Instr>,
        t: nat, h: nat, end: nat)
    requires Fine(code, hs, base, cc, h, h + 1) && Fine(code, hs, base + |cc| + 1, cb, h, h)
    requires Both(code, hs, base + |cc|, [JumpIfFalse(t)], [h + 1]) && HeightIs(hs, t, h) && HeightIs(hs, end, h)
    requires out == [] || (out == [Jump(end)] && Both(code, hs, base + |cc| + 1 + |cb|, out, [h]))
    requires HeightIs(hs, base + |cc| + 1 + |cb| + |out|, h)
    ensures Fine(code, hs, base, cc + [JumpIfFalse(t)] + cb + out, h, h)
  {
    hide Both, Region;
    var at := base + |cc|;
    GuardCell(code, hs, at, t, h);
    RegionJoin(code, hs, base, at, at + 1);
    RegionJoin(code, hs, base, at + 1, at + 1 + |cb|);
    if out != [] {
      JumpCell(code, hs, at + 1 + |cb|, end, h);
      RegionJoin(code, hs, base, at + 1 + |cb|, at + 1 + |cb| + 1);
    }
  }

  /** The pieces of a branch with their heights: the condition, its jump, the body, the way out, and the
      branches after it. */
  lemma BranchSplit(code: seq<Instr>, hs: Heights, base: nat, cc: seq<Instr>, t: nat, cb: seq<Instr>,
        out: seq<Instr>, cr: seq<Instr>, xc: seq<nat>, xb: seq<nat>, xo: seq<nat>, xr: seq<nat>, h: nat)
    requires |cc| == |xc| && |cb| == |xb| && |out| == |xo| && |cr| == |xr| && (out != [] ==> xo[0] == h)
    requires Both(code, hs, base, cc + [JumpIfFalse(t)] + cb + out + cr, xc + [h + 1] + xb + xo + xr)
    ensures var at := base + |cc|;
            && Both(code, hs, base, cc, xc) && Both(code, hs, at, [JumpIfFalse(t)], [h + 1]) && HeightIs(hs, at, h + 1)
            && Both(code, hs, at + 1, cb, xb) && Both(code, hs, at + 1 + |cb|, out, xo)
            && (out != [] ==> HeightIs(hs, at + 1 + |cb|, h)) && Both(code, hs, at + 1 + |cb| + |out|, cr, xr)
  {
    hide Both;
    var j := [JumpIfFalse(t)];
    Split(code, hs, base, cc + j + cb + out, cr, xc + [h + 1] + xb + xo, xr);
    Split(code, hs, base, cc + j + cb, out, xc + [h + 1] + xb, xo);
    Split(code, hs, base, cc + j, cb, xc + [h + 1], xb);
    Split(code, hs, base, cc, j, xc, [h + 1]);
    CellHeight(code, hs, base + |cc|, j, [h + 1]);
    if out != [] {
      CellHeight(code, hs, base + |cc| + 1 + |cb|, out, xo);
    }
  }

  lemma {:induction false} IfFine(s: Stmt, base: nat, id: nat, cont: nat, brk: nat, h: nat, code: seq<Instr>,
        hs: Heights)
    requires s.If? && StmtAt(s, base, id, cont, brk, h, code, hs)
    ensures Fine(code, hs, base, StmtCode(s, base, id, cont, brk), h, h)
    decreases s, 2
  {
    hide Both, Fine, ExprCode, ExprHeights, BlockCode, BlockHeights, RestCode, RestHeights, Temps, TempsBlock,
      NoForBreakBlock, NoForBreakRest,
      ClosedBlock, ClosedRest, BreaksBlock, BreaksRest;
    var cc := ExprCode(s.cond, base, id);
    var i1, i2 := id + Temps(s.cond), id + Temps(s.cond) + TempsBlock(s.yes);
    var cy := BlockCode(s.yes, base + |cc| + 1, i1, cont, brk);
    var out: seq<Instr>, xo: seq<nat> := [], [];
    var next := base + |cc| + 1 + |cy| + (if s.rest.NoElse? then 0 else 1);
    var end := EndOf(s.rest, next, i2, cont, brk);
    var cr := RestCode(s.rest, next, i2, cont, brk, end);
    RestLen(s.rest, next, i2, cont, brk, brk, 0, end);
    if !s.rest.NoElse? {
      out, xo := [Jump(end)], [h];
    }
    var xc, xy, xr := ExprHeights(s.cond, h), BlockHeights(s.yes, h), RestHeights(s.rest, h);
    ExprLen(s.cond, base, id, h);
    BlockHLen(s.yes, base + |cc| + 1, i1, cont, brk, h);
    RestHLen(s.rest, next, i2, cont, brk, end, h);
    var head := cc + [JumpIfFalse(next)] + cy + out;
    assert StmtCode(s, base, id, cont, brk) == head + cr;
    assert StmtHeights(s, h) == xc + [h + 1] + xy + xo + xr;
    BranchSplit(code, hs, base, cc, next, cy, out, cr, xc, xy, xo, xr, h);
    RestFine(s.rest, next, i2, cont, brk, end, h, code, hs);
    Starts(code, hs, next, cr, h, h);
    BlockFine(s.yes, base + |cc| + 1, i1, cont, brk, h, code, hs);
    ExprFine(s.cond, base, id, h, code, hs);
    GuardFine(code, hs, base, cc, cy, out, next, h, end);
    Joined(code, hs, base, head, cr, h, h, h);
  }

  lemma {:induction false} RestFine(r: Rest, base: nat, id: nat, cont: nat, brk: nat, end: nat, h: nat,
        code: seq<Instr>, hs: Heights)
    requires RestAt(r, base, id, cont, brk, end, h, code, hs)
    ensures Fine(code, hs, base, RestCode(r, base, id, cont, brk, end), h, h)
    decreases r, 3
  {
    match r
    case NoElse => Nothing(code, hs, base, h);
    case Else(body) =>
      hide Both, Fine, BlockCode, BlockHeights;
      BlockFine(body, base, id, cont, brk, h, code, hs);
    case Elif(_, _, _) =>
      hide *;
      ElifFine(r, base, id, cont, brk, end, h, code, hs);
  }

  lemma {:induction false} ElifFine(r: Rest, base: nat, id: nat, cont: nat, brk: nat, end: nat, h: nat,
        code: seq<Instr>, hs: Heights)
    requires r.Elif? && RestAt(r, base, id, cont, brk, end, h, code, hs)
    ensures Fine(code, hs, base, RestCode(r, base, id, cont, brk, end), h, h)
    decreases r, 2
  {
    hide Both, Fine, ExprCode, ExprHeights, BlockCode, BlockHeights, Temps, TempsBlock, NoForBreakBlock,
      ClosedBlock, BreaksBlock;
    var cc := ExprCode(r.cond, base, id);
    var i1, i2 := id + Temps(r.cond), id + Temps(r.cond) + TempsBlock(r.body);
    var cb := BlockCode(r.body, base + |cc| + 1, i1, cont, brk);
    var next := base + |cc| + 1 + |cb| + 1;
    var t := if r.rest.Elif? then next else end;
    var cr := RestCode(r.rest, next, i2, cont, brk, end);
    var xc, xb, xr := ExprHeights(r.cond, h), BlockHeights(r.body, h), RestHeights(r.rest, h);
    ExprLen(r.cond, base, id, h);
    BlockHLen(r.body, base + |cc| + 1, i1, cont, brk, h);
    RestHLen(r.rest, next, i2, cont, brk, end, h);
    var head := cc + [JumpIfFalse(t)] + cb + [Jump(end)];
    BranchSplit(code, hs, base, cc, t, cb, [Jump(end)], cr, xc, xb, [h], xr, h);
    RestFine(r.rest, next, i2, cont, brk, end, h, code, hs);
    Starts(code, hs, next, cr, h, h);
    BlockFine(r.body, base + |cc| + 1, i1, cont, brk, h, code, hs);
    ExprFine(r.cond, base, id, h, code, hs);
    GuardFine(code, hs, base, cc, cb, [Jump(end)], t, h, end);
    Joined(code, hs, base, head, cr, h, h, h);
  }

  // ----- loops -----

  lemma {:induction false} LoopBodyFine(body: Block, base: nat, id: nat, start: nat, h: nat, code: seq<Instr>,
        hs: Heights)
    requires Both(code, hs, base, LoopBody(body, base, id, start), BlockHeights(body, h)) && (hs.exact ==> NoForBreakBlock(body))
    requires var c := LoopBody(body, base, id, start);
             && HeightIs(hs, base + |c|, h) && HeightIs(hs, start, h)
             && (BreaksBlock(body) ==> Enters(hs, base + |c| + 1, h))
    ensures Fine(code, hs, base, LoopBody(body, base, id, start), h, h)
    decreases body, 4
  {
    hide Both, Fine, BlockHeights, BlockCode;
    BlockLen(body, base, id, start, 0, base + |BlockCode(body, base, id, start, 0)| + 1);
    BlockFine(body, base, id, start, base + |BlockCode(body, base, id, start, 0)| + 1, h, code, hs);
  }

  lemma {:induction false} WhileFine(s: Stmt, base: nat, id: nat, cont: nat, brk: nat, h: nat, code: seq<Instr>,
        hs: Heights)
    requires (s.While? || s.Loop?) && StmtAt(s, base, id, cont, brk, h, code, hs)
    ensures Fine(code, hs, base, StmtCode(s, base, id, cont, brk), h, h)
    decreases s, 2
  {
    hide Both, Fine, ExprCode, ExprHeights, LoopBody, BlockHeights, Temps, NoForBreakBlock, BreaksBlock, ClosedBlock;
    var cc := if s.While? then ExprCode(s.cond, base, id) else [ConstBool(true)];
    var xc := if s.While? then ExprHeights(s.cond, h) else [h];
    var i1 := if s.While? then id + Temps(s.cond) else id;
    if s.While? { ExprLen(s.cond, base, id, h); }
    var p := base + |cc| + 1;
    var cb := LoopBody(s.body, p, i1, base);
    var exit := p + |cb| + 1;
    LoopHLen(s.body, p, i1, base, h);
    var xb := BlockHeights(s.body, h);
    assert StmtCode(s, base, id, cont, brk) == WhileShape(base, cc, cb) && StmtHeights(s, h) == xc + [h + 1] + xb + [h];
    WhilePieces(code, hs, base, cc, cb, xc, xb, h);
    if s.While? {
      ExprFine(s.cond, base, id, h, code, hs);
    } else {
      Single(code, hs, base, ConstBool(true), h);
    }
    Starts(code, hs, base, cc, h, h + 1);
    LoopBodyFine(s.body, p, i1, base, h, code, hs);
    GuardFine(code, hs, base, cc, cb, [Jump(base)], exit, h, base);
  }

  lemma WhilePieces(code: seq<Instr>, hs: Heights, base: nat, cc: seq<Instr>, cb: seq<Instr>, xc: seq<nat>,
        xb: seq<nat>, h: nat)
    requires Both(code, hs, base, WhileShape(base, cc, cb), xc + [h + 1] + xb + [h]) && |cc| == |xc| && |cb| == |xb|
    ensures var p := base + |cc| + 1;
            var exit := p + |cb| + 1;
            && Both(code, hs, base, cc, xc) && Both(code, hs, base + |cc|, [JumpIfFalse(exit)], [h + 1]) && Both(code, hs, p, cb, xb)
            && Both(code, hs, exit - 1, [Jump(base)], [h]) && HeightIs(hs, exit - 1, h) && HeightIs(hs, base + |cc|, h + 1)
  {
    hide Both;
    var exit := base + |cc| + 1 + |cb| + 1;
    Split(code, hs, base, cc + [JumpIfFalse(exit)] + cb, [Jump(base)], xc + [h + 1] + xb, [h]);
    Split(code, hs, base, cc + [JumpIfFalse(exit)], cb, xc + [h + 1], xb);
    Split(code, hs, base, cc, [JumpIfFalse(exit)], xc, [h + 1]);
    CellHeight(code, hs, exit - 1, [Jump(base)], [h]);
    CellHeight(code, hs, base + |cc|, [JumpIfFalse(exit)], [h + 1]);
  }

  lemma SourceFine(s: Stmt, base: nat, id: nat, h: nat, code: seq<Instr>, hs: Heights)
    requires s.ForIn? || s.ForRange?
    requires Both(code, hs, base, SourceCode(s, base, id), SourceHeights(s, h)) && HeightIs(hs, base + |SourceCode(s, base, id)|, h + 1)
    ensures Fine(code, hs, base, SourceCode(s, base, id), h, h + 1)
  {
    hide Both, Fine, ExprCode, ExprHeights, Temps, StepCode, StepHeights;
    if s.ForIn? {
      ExprFine(s.iterable, base, id, h, code, hs);
    } else {
      var ca := ExprCode(s.from, base, id);
      var p := base + |ca|;
      var cb := ExprCode(s.to, p, id + Temps(s.from));
      var q := p + |cb|;
      var i2 := id + Temps(s.from) + Temps(s.to);
      var cs := StepCode(s.step, q, i2);
      var r := q + |cs|;
      ExprLen(s.from, base, id, h);
      ExprLen(s.to, p, id + Temps(s.from), h + 1);
      StepLen(s.step, q, i2, h + 2);
      CallSplit(code, hs, base, ca, cb, cs, ExprHeights(s.from, h), ExprHeights(s.to, h + 1), StepHeights(s.step, h + 2), h);
      StepFine(s.step, q, i2, h + 2, code, hs);
      Starts(code, hs, q, cs, h + 2, h + 3);
      ExprFine(s.to, p, id + Temps(s.from), h + 1, code, hs);
      Starts(code, hs, p, cb, h + 1, h + 2);
      ExprFine(s.from, base, id, h, code, hs);
      CallJoin(code, hs, base, ca, cb, cs, h);
    }
  }

  lemma StepLen(step: Option<Expr>, base: nat, id: nat, h: nat)
    ensures |StepCode(step, base, id)| == |StepHeights(step, h)|
  {
    hide ExprCode, ExprHeights;
    if step.Some? {
      ExprLen(step.value, base, id, h);
    }
  }

  /** Three operands and the call that takes them. */
  lemma CallSplit(code: seq<Instr>, hs: Heights, base: nat, ca: seq<Instr>, cb: seq<Instr>, cs: seq<Instr>,
        xa: seq<nat>, xb: seq<nat>, xs: seq<nat>, h: nat)
    requires |ca| == |xa| && |cb| == |xb| && |cs| == |xs|
    requires Both(code, hs, base, ca + cb + cs + [CallBuiltin(Range3, 3)], xa + xb + xs + [h + 3])
    requires HeightIs(hs, base + |ca| + |cb| + |cs| + 1, h + 1)
    ensures Both(code, hs, base, ca, xa) && Both(code, hs, base + |ca|, cb, xb) && Both(code, hs, base + |ca| + |cb|, cs, xs)
    ensures var r := base + |ca| + |cb| + |cs|;
            HeightIs(hs, r, h + 3) && Fine(code, hs, r, [CallBuiltin(Range3, 3)], h + 3, h + 1)
  {
    hide Both, Fine;
    var call := CallBuiltin(Range3, 3);
    Split(code, hs, base, ca + cb + cs, [call], xa + xb + xs, [h + 3]);
    Split(code, hs, base, ca + cb, cs, xa + xb, xs);
    Split(code, hs, base, ca, cb, xa, xb);
    var r := base + |ca| + |cb| + |cs|;
    Single(code, hs, r, call, h + 3);
    Starts(code, hs, r, [call], h + 3, h + 1);
  }

  lemma CallJoin(code: seq<Instr>, hs: Heights, base: nat, ca: seq<Instr>, cb: seq<Instr>, cs: seq<Instr>, h: nat)
    requires Fine(code, hs, base, ca, h, h + 1) && Fine(code, hs, base + |ca|, cb, h + 1, h + 2)
    requires Fine(code, hs, base + |ca| + |cb|, cs, h + 2, h + 3)
    requires Fine(code, hs, base + |ca| + |cb| + |cs|, [CallBuiltin(Range3, 3)], h + 3, h + 1)
    ensures Fine(code, hs, base, ca + cb + cs + [CallBuiltin(Range3, 3)], h, h + 1)
  {
    hide Fine;
    Joined(code, hs, base, ca, cb, h, h + 1, h + 2);
    Joined(code, hs, base, ca + cb, cs, h, h + 2, h + 3);
    Joined(code, hs, base, ca + cb + cs, [CallBuiltin(Range3, 3)], h, h + 3, h + 1);
  }

  lemma StepFine(step: Option<Expr>, base: nat, id: nat, h: nat, code: seq<Instr>, hs: Heights)
    requires Both(code, hs, base, StepCode(step, base, id), StepHeights(step, h)) && HeightIs(hs, base + |StepCode(step, base, id)|, h + 1)
    ensures Fine(code, hs, base, StepCode(step, base, id), h, h + 1)
  {
    hide Both, Fine, ExprCode, ExprHeights;
    if step.Some? {
      ExprFine(step.value, base, id, h, code, hs);
    } else {
      Single(code, hs, base, ConstInt(1), h);
    }
  }

  lemma ForMidFine(code: seq<Instr>, hs: Heights, start: nat, exit: nat, x: Name, h: nat)
    requires start > 0 && Both(code, hs, start - 1, [Iter, IterNext(start + 1, exit), StoreGlobal(x)], [h + 1, h + 1, h + 2])
    ensures HeightIs(hs, start - 1, h + 1) && HeightIs(hs, start, h + 1)
    ensures HeightIs(hs, exit, h) && HeightIs(hs, start + 2, h + 1) ==>
              Fine(code, hs, start - 1, [Iter, IterNext(start + 1, exit), StoreGlobal(x)], h + 1, h + 1)
  {
    var mid := [Iter, IterNext(start + 1, exit), StoreGlobal(x)];
    Cell(code, hs, start - 1, mid, [h + 1, h + 1, h + 2], 0);
    Cell(code, hs, start - 1, mid, [h + 1, h + 1, h + 2], 1);
    Cell(code, hs, start - 1, mid, [h + 1, h + 1, h + 2], 2);
  }

  lemma ForSplit(code: seq<Instr>, hs: Heights, base: nat, src: seq<Instr>, mid: seq<Instr>, cb: seq<Instr>,
        back: seq<Instr>, xs: seq<nat>, xm: seq<nat>, xb: seq<nat>, xk: seq<nat>)
    requires |src| == |xs| && |mid| == |xm| && |cb| == |xb| && |back| == |xk|
    requires Both(code, hs, base, src + mid + cb + back, xs + xm + xb + xk)
    ensures Both(code, hs, base, src, xs) && Both(code, hs, base + |src|, mid, xm)
    ensures Both(code, hs, base + |src| + |mid|, cb, xb) && Both(code, hs, base + |src| + |mid| + |cb|, back, xk)
  {
    hide Both;
    Split(code, hs, base, src + mid + cb, back, xs + xm + xb, xk);
    Split(code, hs, base, src + mid, cb, xs + xm, xb);
    Split(code, hs, base, src, mid, xs, xm);
  }

  lemma ForJoin(code: seq<Instr>, hs: Heights, base: nat, src: seq<Instr>, mid: seq<Instr>, cb: seq<Instr>, start: nat,
        h: nat)
    requires Fine(code, hs, base, src, h, h + 1) && Fine(code, hs, base + |src|, mid, h + 1, h + 1)
    requires Fine(code, hs, base + |src| + |mid|, cb, h + 1, h + 1)
    requires var p := base + |src| + |mid| + |cb|; Region(code, hs, p, p + 1) && HeightIs(hs, p + 1, h)
    ensures Fine(code, hs, base, src + mid + cb + [Jump(start)], h, h)
  {
    hide Fine, Region;
    Joined(code, hs, base, src, mid, h, h + 1, h + 1);
    Joined(code, hs, base, src + mid, cb, h, h + 1, h + 1);
    Backed(code, hs, base, src + mid + cb, start, h);
  }

  lemma {:induction false} ForFine(s: Stmt, base: nat, id: nat, cont: nat, brk: nat, h: nat, code: seq<Instr>,
        hs: Heights)
    requires (s.ForIn? || s.ForRange?) && StmtAt(s, base, id, cont, brk, h, code, hs)
    ensures Fine(code, hs, base, StmtCode(s, base, id, cont, brk), h, h)
    decreases s, 2
  {
    hide Both, Fine, Region, SourceCode, SourceHeights, LoopBody, BlockHeights, NoForBreakBlock, BreaksBlock,
      ClosedBlock, TempsSource;
    var src := SourceCode(s, base, id);
    var start := base + |src| + 1;
    var cb := LoopBody(s.body, start + 2, id + TempsSource(s), start);
    var exit := start + 2 + |cb| + 1;
    var mid := [Iter, IterNext(start + 1, exit), StoreGlobal(User(s.name))];
    ForHLen(s, base, id, h);
    var xs, xm, xb := SourceHeights(s, h), [h + 1, h + 1, h + 2], BlockHeights(s.body, h + 1);
    assert StmtCode(s, base, id, cont, brk) == src + mid + cb + [Jump(start)] && StmtHeights(s, h) == xs + xm + xb + [h + 1];
    ForSplit(code, hs, base, src, mid, cb, [Jump(start)], xs, xm, xb, [h + 1]);
    JumpCell(code, hs, exit - 1, start, h + 1);
    ForMidFine(code, hs, start, exit, User(s.name), h);
    LoopBodyFine(s.body, start + 2, id + TempsSource(s), start, h + 1, code, hs);
    Starts(code, hs, start + 2, cb, h + 1, h + 1);
    SourceFine(s, base, id, h, code, hs);
    ForJoin(code, hs, base, src, mid, cb, start, h);
  }

  lemma Backed(code: seq<Instr>, hs: Heights, base: nat, a: seq<Instr>, start: nat, h: nat)
    requires Fine(code, hs, base, a, h, h + 1) && Region(code, hs, base + |a|, base + |a| + 1) && HeightIs(hs, base + |a| + 1, h)
    ensures Fine(code, hs, base, a + [Jump(start)], h, h)
  {
  }

  // ----- programs -----

  /** The height at every place of a program's code. */
  function ProgramHeights(p: Block): seq<nat> {
    BlockHeights(p, 0) + [0]
  }

  lemma ProgramFine(p: Block, exact: bool)
    requires ClosedBlock(p) && (exact ==> NoForBreakBlock(p))
    ensures |ProgramHeights(p)| == |ProgramCode(p)|
    ensures var hs := Heights(ProgramHeights(p), exact);
            Region(ProgramCode(p), hs, 0, |ProgramCode(p)|) && HeightIs(hs, 0, 0)
  {
    hide BlockCode, BlockHeights, ClosedBlock, NoForBreakBlock;
    var code, hs := ProgramCode(p), Heights(ProgramHeights(p), exact);
    var c := BlockCode(p, 0, 0, 0, 0);
    BlockHLen(p, 0, 0, 0, 0, 0);
    assert Both(code, hs, 0, c, BlockHeights(p, 0));
    ClosedNoBreaks(p);
    BlockFine(p, 0, 0, 0, 0, 0, code, hs);
  }

  lemma {:induction false} ClosedNoBreaks(b: Block)
    requires ClosedBlock(b)
    ensures !BreaksBlock(b)
    decreases b, 1
  {
    if b.Cons? {
      ClosedNoBreak(b.head);
      ClosedNoBreaks(b.tail);
    }
  }

  lemma {:induction false} ClosedNoBreak(s: Stmt)
    requires Closed(s)
    ensures !Breaks(s)
    decreases s, 0
  {
    match s
    case If(_, yes, rest) =>
      ClosedNoBreaks(yes);
      ClosedRestNoBreaks(rest);
    case Scope(body) => ClosedNoBreaks(body);
    case _ =>
  }

  lemma {:induction false} ClosedRestNoBreaks(r: Rest)
    requires ClosedRest(r)
    ensures !BreaksRest(r)
    decreases r, 0
  {
    match r
    case NoElse =>
    case Else(body) => ClosedNoBreaks(body);
    case Elif(_, body, rest) =>
      ClosedNoBreaks(body);
      ClosedRestNoBreaks(rest);
  }

  /** At every moment of every run of every program the program counter is inside the code and the stack
      is at least as high as the place demands; so no operand is ever missing. */
  lemma NeverUnderflows(p: Block, n: nat)
    requires ClosedBlock(p)
    ensures match Run(ProgramCode(p), Running(START), n)
            case Running(c) =>
              c.pc < |ProgramCode(p)| && |ProgramHeights(p)| == |ProgramCode(p)| && |c.stack| >= ProgramHeights(p)[c.pc]
            case Failed(e, _) => e != StackUnderflow
            case Halted(_) => true
  {
    hide Fits, ProgramCode, ProgramHeights, Run;
    ProgramFine(p, false);
    RunFits(ProgramCode(p), Heights(ProgramHeights(p), false), START, n);
  }

  /** If no `for` loop is left by `break`, the stack has exactly the height of the place. */
  lemma ExactHeights(p: Block, n: nat)
    requires ClosedBlock(p) && NoForBreakBlock(p)
    ensures var s := Run(ProgramCode(p), Running(START), n);
            s.Running? ==> |ProgramHeights(p)| == |ProgramCode(p)| > s.c.pc && |s.c.stack| == ProgramHeights(p)[s.c.pc]
  {
    hide Fits, ProgramCode, ProgramHeights, Run;
    ProgramFine(p, true);
    RunFits(ProgramCode(p), Heights(ProgramHeights(p), true), START, n);
  }
}
