/** How statements are left: a statement whose exits are all inside loops ends normally. */
module Exits {
  import opened Values
  import opened Ast
  import opened Source

  /** Where every program starts. */
  const EMPTY: State := State(map[], "")

  ghost predicate ProgramStops(rd: Reading, p: Block) {
    exists fuel :: !ExecBlock(rd, p, EMPTY, fuel).OutOfFuel?
  }

  lemma {:induction false} ClosedExits(rd: Reading, s: Stmt, st: State, fuel: nat)
    requires Closed(s)
    ensures var r := Exec(rd, s, st, fuel); r.Done? ==> r.exit == Normal
    decreases fuel, s, 1, 0
  {
    hide Eval, ForSource, Items;
    match s
    case If(c, yes, rest) =>
      var r := Eval(rd, c, st.vars);
      if r.Val? {
        ClosedBlockExits(rd, yes, State(r.st, st.out), fuel);
        ClosedRestExits(rd, rest, rd.Compiled? && rest.Elif?, State(r.st, st.out), fuel);
      }
    case While(c, body) =>
      var r := Eval(rd, c, st.vars);
      if fuel > 0 && r.Val? {
        AgainExits(rd, s, State(r.st, st.out), fuel);
      }
    case Loop(body) =>
      if fuel > 0 {
        AgainExits(rd, s, st, fuel);
      }
    case ForIn(x, _, body) =>
      var r := ForSource(rd, s, st.vars);
      if r.Val? {
        ForExits(rd, x, body, [Items(r.value)], State(r.st, st.out), fuel);
      }
    case ForRange(x, _, _, _, body) =>
      var r := ForSource(rd, s, st.vars);
      var b := RangeBounds(rd, s, st.vars);
      if rd.Lowered? && b.Val? {
        CountedExits(s, b.value, State(b.st[x := b.value.from], st.out), fuel);
      } else if r.Val? {
        ForExits(rd, x, body, [Items(r.value)], State(r.st, st.out), fuel);
      }
    case Println(args) => PrintExits(rd, args, st);
    case Paste(args) => PrintExits(rd, args, st);
    case Scope(body) => ClosedBlockExits(rd, body, st, fuel);
    case _ =>
  }

  lemma {:induction false} PrintExits(rd: Reading, args: Vec<Expr>, st: State)
    ensures var r := Print(rd, args, st); r.Done? ==> r.exit == Normal && r.leaks == []
    decreases args
  {
    hide Eval;
    if args.Cons? {
      var r := Eval(rd, args.head, st.vars);
      if r.Val? {
        PrintExits(rd, args.tail, State(r.st, st.out + Shown(rd, r.value)));
      }
    }
  }

  lemma {:induction false} AgainExits(rd: Reading, s: Stmt, st: State, fuel: nat)
    requires (s.While? || s.Loop?) && fuel > 0
    ensures var r := Again(rd, s, s.body, st, fuel); r.Done? ==> r.exit == Normal
    decreases fuel, s, 0, 0
  {
    var r := ExecBlock(rd, s.body, st, fuel);
    if r.Done? && r.exit != Broke {
      ClosedExits(rd, s, r.st, fuel - 1);
    }
  }

  lemma {:induction false} ClosedBlockExits(rd: Reading, b: Block, st: State, fuel: nat)
    requires ClosedBlock(b)
    ensures var r := ExecBlock(rd, b, st, fuel); r.Done? ==> r.exit == Normal
    decreases fuel, b, 1, 0
  {
    if b.Cons? {
      ClosedExits(rd, b.head, st, fuel);
      var r := Exec(rd, b.head, st, fuel);
      if r.Done? {
        ClosedBlockExits(rd, b.tail, r.st, fuel);
      }
    }
  }

  lemma {:induction false} ClosedRestExits(rd: Reading, r: Rest, skip: bool, st: State, fuel: nat)
    requires ClosedRest(r)
    ensures var x := ExecRest(rd, r, skip, st, fuel); x.Done? ==> x.exit == Normal
    decreases fuel, r, 1, 0
  {
    hide Eval;
    match r
    case NoElse =>
    case Else(body) => ClosedBlockExits(rd, body, st, fuel);
    case Elif(c, body, rest) =>
      var v := Eval(rd, c, st.vars);
      if v.Val? {
        ClosedBlockExits(rd, body, State(v.st, st.out), fuel);
        ClosedRestExits(rd, rest, skip, State(v.st, st.out), fuel);
      }
  }

  lemma {:induction false} ForExits(rd: Reading, x: string, body: Block, its: seq<seq<Value>>, st: State, fuel: nat)
    requires its != []
    ensures var r := ExecFor(rd, x, body, its, st, fuel); r.Done? ==> r.exit == Normal
    decreases fuel
  {
    hide ExecBlock;
    var below, top := its[..|its| - 1], its[|its| - 1];
    if top != [] && fuel > 0 {
      var r := ExecBlock(rd, body, State(st.vars[x := top[0]], st.out), fuel);
      if r.Done? && r.exit != Broke {
        ForExits(rd, x, body, below + [top[1..]] + r.leaks, r.st, fuel - 1);
      }
    }
  }

  lemma {:induction false} CountedExits(s: Stmt, b: Bounds, st: State, fuel: nat)
    requires s.ForRange?
    ensures var r := ExecCounted(s, b, st, fuel); r.Done? ==> r.exit == Normal && r.leaks == []
    decreases fuel
  {
    hide ExecBlock, GoesOn, Advanced;
    if GoesOn(s, b, st.vars) && fuel > 0 {
      var r := ExecBlock(Lowered, s.body, st, fuel);
      if r.Done? && r.exit != Broke {
        CountedExits(s, b, Advanced(s, b, r.st), fuel - 1);
      }
    }
  }

  // ----- exits and leaks -----

  predicate IsLoop(s: Stmt) {
    s.While? || s.Loop? || s.ForIn? || s.ForRange?
  }

  lemma {:induction false} ExitFacts(rd: Reading, s: Stmt, st: State, fuel: nat)
    ensures var r := Exec(rd, s, st, fuel);
            r.Done? ==> (!rd.Compiled? || NoForBreak(s) ==> r.leaks == []) && (!Breaks(s) ==> r.exit != Broke) && (IsLoop(s) ==> r.exit == Normal)
    decreases fuel, s, 1, 0
  {
    hide Eval, Print;
    match s
    case If(c, yes, rest) =>
      var r := Eval(rd, c, st.vars);
      if r.Val? {
        BlockExitFacts(rd, yes, State(r.st, st.out), fuel);
        RestExitFacts(rd, rest, rd.Compiled? && rest.Elif?, State(r.st, st.out), fuel);
      }
    case While(c, body) =>
      if fuel > 0 && Eval(rd, c, st.vars).Val? {
        AgainExitFacts(rd, s, body, State(Eval(rd, c, st.vars).st, st.out), fuel);
      }
    case Loop(body) =>
      if fuel > 0 {
        AgainExitFacts(rd, s, body, st, fuel);
      }
    case ForIn(x, _, body) =>
      var r := ForSource(rd, s, st.vars);
      if r.Val? {
        ForExitFacts(rd, x, body, [Items(r.value)], State(r.st, st.out), fuel);
      }
    case ForRange(x, _, _, _, body) =>
      var r := ForSource(rd, s, st.vars);
      var b := RangeBounds(rd, s, st.vars);
      if rd.Lowered? && b.Val? {
        CountedExits(s, b.value, State(b.st[x := b.value.from], st.out), fuel);
      } else if r.Val? {
        ForExitFacts(rd, x, body, [Items(r.value)], State(r.st, st.out), fuel);
      }
    case Println(args) => PrintExitFacts(rd, args, st);
    case Paste(args) => PrintExitFacts(rd, args, st);
    case Scope(body) => BlockExitFacts(rd, body, st, fuel);
    case _ =>
  }

  lemma {:induction false} PrintExitFacts(rd: Reading, args: Vec<Expr>, st: State)
    ensures var r := Print(rd, args, st); r.Done? ==> r.exit == Normal && r.leaks == []
    decreases args
  {
    hide Eval;
    if args.Cons? {
      var r := Eval(rd, args.head, st.vars);
      if r.Val? {
        PrintExitFacts(rd, args.tail, State(r.st, st.out + Shown(rd, r.value)));
      }
    }
  }

  lemma {:induction false} AgainExitFacts(rd: Reading, s: Stmt, body: Block, st: State, fuel: nat)
    requires (s.While? || s.Loop?) && body == s.body && fuel > 0
    ensures var r := Again(rd, s, body, st, fuel);
            r.Done? ==> (!rd.Compiled? || NoForBreakBlock(body) ==> r.leaks == []) && r.exit == Normal
    decreases fuel, s, 0, 0
  {
    BlockExitFacts(rd, body, st, fuel);
    var r := ExecBlock(rd, body, st, fuel);
    if r.Done? && r.exit != Broke {
      ExitFacts(rd, s, r.st, fuel - 1);
    }
  }

  lemma {:induction false} BlockExitFacts(rd: Reading, b: Block, st: State, fuel: nat)
    ensures var r := ExecBlock(rd, b, st, fuel);
            r.Done? ==> (!rd.Compiled? || NoForBreakBlock(b) ==> r.leaks == []) && (!BreaksBlock(b) ==> r.exit != Broke)
    decreases fuel, b, 1, 0
  {
    if b.Cons? {
      ExitFacts(rd, b.head, st, fuel);
      var r := Exec(rd, b.head, st, fuel);
      if r.Done? && r.exit == Normal {
        BlockExitFacts(rd, b.tail, r.st, fuel);
      }
    }
  }

  lemma {:induction false} RestExitFacts(rd: Reading, r: Rest, skip: bool, st: State, fuel: nat)
    ensures var x := ExecRest(rd, r, skip, st, fuel);
            x.Done? ==> (!rd.Compiled? || NoForBreakRest(r) ==> x.leaks == []) && (!BreaksRest(r) ==> x.exit != Broke)
    decreases fuel, r, 1, 0
  {
    hide Eval;
    match r
    case NoElse =>
    case Else(body) => BlockExitFacts(rd, body, st, fuel);
    case Elif(c, body, rest) =>
      var v := Eval(rd, c, st.vars);
      if v.Val? {
        BlockExitFacts(rd, body, State(v.st, st.out), fuel);
        RestExitFacts(rd, rest, skip, State(v.st, st.out), fuel);
      }
  }

  lemma {:induction false} ForExitFacts(rd: Reading, x: string, body: Block, its: seq<seq<Value>>, st: State, fuel: nat)
    requires its != []
    ensures var r := ExecFor(rd, x, body, its, st, fuel);
            r.Done? ==> ((!rd.Compiled? || (!BreaksBlock(body) && NoForBreakBlock(body))) && |its| == 1 ==> r.leaks == []) && r.exit == Normal
    decreases fuel, body, 2, 0
  {
    var below, top := its[..|its| - 1], its[|its| - 1];
    if top != [] && fuel > 0 {
      var st0 := State(st.vars[x := top[0]], st.out);
      BlockExitFacts(rd, body, st0, fuel);
      var r := ExecBlock(rd, body, st0, fuel);
      if r.Done? && r.exit != Broke {
        ForExitFacts(rd, x, body, below + [top[1..]] + r.leaks, r.st, fuel - 1);
      }
    }
  }
}
