/** Loops whose every round prints a line. What is printed stays printed, so a round too many or too few
    shows, and it can be told beforehand when such a loop is right. */
module LoudLoops {
  import opened Values
  import opened Ast
  import opened Source
  import opened Exits
  import opened Readings
  import opened Lowering
  import opened SteadyRanges
  import opened RangeQuirks
  import opened Leftovers

  function OutOf(r: ExecResult): string {
    match r
    case Done(_, st, _) => st.out
    case Failed(_, out) => out
    case OutOfFuel(out) => out
  }

  // ----- output only grows -----

  lemma {:induction false} PrintGrows(rd: Reading, args: Vec<Expr>, st: State)
    ensures |OutOf(Print(rd, args, st))| >= |st.out|
    decreases args
  {
    hide Eval, Shown;
    if args.Cons? {
      var r := Eval(rd, args.head, st.vars);
      if r.Val? {
        PrintGrows(rd, args.tail, State(r.st, st.out + Shown(rd, r.value)));
      }
    }
  }

  lemma {:induction false} OutGrows(rd: Reading, s: Stmt, st: State, fuel: nat)
    ensures |OutOf(Exec(rd, s, st, fuel))| >= |st.out|
    decreases fuel, s, 1, 0
  {
    hide Eval, ForSource, RangeBounds, Items, Operated, IndexUpdate, Print;
    match s
    case Println(args) => PrintGrows(rd, args, st);
    case Paste(args) => PrintGrows(rd, args, st);
    case If(c, yes, rest) =>
      var r := Eval(rd, c, st.vars);
      if r.Val? {
        BlockGrows(rd, yes, State(r.st, st.out), fuel);
        RestGrows(rd, rest, rd.Compiled? && rest.Elif?, State(r.st, st.out), fuel);
      }
    case While(c, body) =>
      var r := Eval(rd, c, st.vars);
      if fuel > 0 && r.Val? {
        AgainGrows(rd, s, State(r.st, st.out), fuel);
      }
    case Loop(body) =>
      if fuel > 0 {
        AgainGrows(rd, s, st, fuel);
      }
    case ForIn(x, _, body) =>
      var r := ForSource(rd, s, st.vars);
      if r.Val? {
        ForGrows(rd, x, body, [Items(r.value)], State(r.st, st.out), fuel);
      }
    case ForRange(x, _, _, _, body) =>
      var r := ForSource(rd, s, st.vars);
      var b := RangeBounds(rd, s, st.vars);
      if rd.Lowered? && b.Val? {
        CountedGrows(s, b.value, State(b.st[x := b.value.from], st.out), fuel);
      } else if r.Val? {
        ForGrows(rd, x, body, [Items(r.value)], State(r.st, st.out), fuel);
      }
    case Scope(body) => BlockGrows(rd, body, st, fuel);
    case _ =>
  }

  lemma {:induction false} AgainGrows(rd: Reading, s: Stmt, st: State, fuel: nat)
    requires (s.While? || s.Loop?) && fuel > 0
    ensures |OutOf(Again(rd, s, s.body, st, fuel))| >= |st.out|
    decreases fuel, s, 0, 0
  {
    BlockGrows(rd, s.body, st, fuel);
    var r := ExecBlock(rd, s.body, st, fuel);
    if r.Done? && r.exit != Broke {
      OutGrows(rd, s, r.st, fuel - 1);
    }
  }

  lemma {:induction false} BlockGrows(rd: Reading, b: Block, st: State, fuel: nat)
    ensures |OutOf(ExecBlock(rd, b, st, fuel))| >= |st.out|
    decreases fuel, b, 1, 0
  {
    if b.Cons? {
      OutGrows(rd, b.head, st, fuel);
      var r := Exec(rd, b.head, st, fuel);
      if r.Done? && r.exit == Normal {
        BlockGrows(rd, b.tail, r.st, fuel);
      }
    }
  }

  lemma {:induction false} RestGrows(rd: Reading, r: Rest, skip: bool, st: State, fuel: nat)
    ensures |OutOf(ExecRest(rd, r, skip, st, fuel))| >= |st.out|
    decreases fuel, r, 1, 0
  {
    hide Eval;
    match r
    case NoElse =>
    case Else(body) => BlockGrows(rd, body, st, fuel);
    case Elif(c, body, rest) =>
      var v := Eval(rd, c, st.vars);
      if v.Val? {
        BlockGrows(rd, body, State(v.st, st.out), fuel);
        RestGrows(rd, rest, skip, State(v.st, st.out), fuel);
      }
  }

  lemma {:induction false} ForGrows(rd: Reading, x: string, body: Block, its: seq<seq<Value>>, st: State, fuel: nat)
    requires its != []
    ensures |OutOf(ExecFor(rd, x, body, its, st, fuel))| >= |st.out|
    decreases fuel, body, 2, 0
  {
    hide ExecBlock;
    var below, top := its[..|its| - 1], its[|its| - 1];
    if top != [] && fuel > 0 {
      var st0 := State(st.vars[x := top[0]], st.out);
      BlockGrows(rd, body, st0, fuel);
      var r := ExecBlock(rd, body, st0, fuel);
      if r.Done? && r.exit != Broke {
        ForGrows(rd, x, body, below + [top[1..]] + r.leaks, r.st, fuel - 1);
      }
    }
  }

  lemma {:induction false} CountedGrows(s: Stmt, b: Bounds, st: State, fuel: nat)
    requires s.ForRange?
    ensures |OutOf(ExecCounted(s, b, st, fuel))| >= |st.out|
    decreases fuel, s, 0, 0
  {
    hide ExecBlock, GoesOn;
    if GoesOn(s, b, st.vars) && fuel > 0 {
      BlockGrows(Lowered, s.body, st, fuel);
      var r := ExecBlock(Lowered, s.body, st, fuel);
      if r.Done? && r.exit != Broke {
        CountedGrows(s, b, Advanced(s, b, r.st), fuel - 1);
      }
    }
  }

  // ----- loud rounds -----

  /** The block prints a line whichever way it ends. */
  predicate Loud(b: Block) {
    b.Cons? && (b.head.Println? || (Closed(b.head) && Loud(b.tail)))
  }

  lemma {:induction false} LoudPrints(rd: Reading, b: Block, st: State, fuel: nat)
    requires Loud(b)
    ensures var r := ExecBlock(rd, b, st, fuel); r.Done? ==> |r.st.out| > |st.out|
    decreases b
  {
    hide Exec;
    var r := Exec(rd, b.head, st, fuel);
    OutGrows(rd, b.head, st, fuel);
    if b.head.Println? {
      LinePrinted(rd, b.head, st, fuel);
      if r.Done? {
        BlockGrows(rd, b.tail, r.st, fuel);
      }
    } else {
      ClosedExits(rd, b.head, st, fuel);
      if r.Done? {
        LoudPrints(rd, b.tail, r.st, fuel);
      }
    }
  }

  lemma LinePrinted(rd: Reading, s: Stmt, st: State, fuel: nat)
    requires s.Println?
    ensures var r := Exec(rd, s, st, fuel); r.Done? ==> r.exit == Normal && |r.st.out| > |st.out|
  {
    hide Print;
    PrintGrows(rd, s.args, st);
  }

  /** A loop that has an item prints. */
  lemma ForPrints(rd: Reading, x: string, body: Block, its: seq<seq<Value>>, st: State, fuel: nat)
    requires its != [] && its[|its| - 1] != [] && Loud(body)
    ensures var r := ExecFor(rd, x, body, its, st, fuel); r.Done? ==> |r.st.out| > |st.out|
  {
    hide ExecBlock;
    var below, top := its[..|its| - 1], its[|its| - 1];
    if fuel > 0 {
      var st0 := State(st.vars[x := top[0]], st.out);
      LoudPrints(rd, body, st0, fuel);
      var r := ExecBlock(rd, body, st0, fuel);
      if r.Done? && r.exit != Broke {
        ForGrows(rd, x, body, below + [top[1..]] + r.leaks, r.st, fuel - 1);
      }
    }
  }

  lemma CountPrints(t: Stmt, b: Bounds, st: State, fuel: nat)
    requires t.ForRange? && GoesOn(t, b, st.vars) && Loud(t.body)
    ensures var r := ExecCounted(t, b, st, fuel); r.Done? ==> |r.st.out| > |st.out|
  {
    hide ExecBlock, GoesOn;
    if fuel > 0 {
      LoudPrints(Lowered, t.body, st, fuel);
      var r := ExecBlock(Lowered, t.body, st, fuel);
      if r.Done? && r.exit != Broke {
        CountedGrows(t, b, Advanced(t, b, r.st), fuel - 1);
      }
    }
  }

  // ----- lowered range loops -----

  lemma PartingShows(t: Stmt, b: Bounds, l: Look)
    requires t.ForRange? && Loud(t.body) && (l.items != [] <==> !GoesOn(t, b, l.st.vars))
    ensures !NoHarm(t, b, l)
  {
    hide GoesOn, ExecCounted, ExecFor;
    if l.items == [] {
      CountPrints(t, b, l.st, l.fuel);
    } else {
      ForPrints(Lowered, t.name, t.body, [l.items], l.st, l.fuel);
    }
  }

  /** Counting up with a loud body, a counter and a step that the body leaves alone, does what the list of
      the range says exactly if the two never part. */
  lemma LoudExact(t: Stmt, b: Bounds, i: int, m: int, k: int, st: State, fuel: nat)
    requires t.ForRange? && StaticBlock(t.body) && At(t, b, i, k, st) && k > 0 && RangeItems(i, m, k).Ok? && Loud(t.body)
    ensures var items := RangeItems(i, m, k).value;
            SameBut(t.name, Listed(t, items, st, fuel), ExecCounted(t, b, st, fuel)) <==> FirstApart(t, b, items, st, fuel).None?
  {
    hide ExecCounted, FirstApart, RangeItems, Listed, GoesOn, NoHarm, At;
    var items := RangeItems(i, m, k).value;
    CountingExact(t, b, items, st, fuel);
    PartsAtBound(t, b, i, m, k, st, fuel);
    var l := FirstApart(t, b, items, st, fuel);
    if l.Some? {
      PartingShows(t, b, l.value);
    }
  }

  /** With a steady bound as well, exactly if the step is positive or the range starts where it ends. */
  lemma LoudSteadyExact(t: Stmt, b: Bounds, i: int, m: int, k: int, st: State, fuel: nat)
    requires t.ForRange? && StaticBlock(t.body) && At(t, b, i, k, st) && BoundAt(t, b, m, st) && k != 0 && RangeItems(i, m, k).Ok?
    requires Loud(t.body)
    ensures SameBut(t.name, Listed(t, RangeItems(i, m, k).value, st, fuel), ExecCounted(t, b, st, fuel)) <==> k > 0 || i == m
  {
    hide ExecCounted, RangeItems, Listed, NoHarm, FirstApart;
    SteadyExact(t, b, i, m, k, st, fuel);
    if k > 0 {
      LoudExact(t, b, i, m, k, st, fuel);
    } else {
      var items := RangeItems(i, m, k).value;
      CountingExact(t, b, items, st, fuel);
      DownStep(i, m, k);
      if i != m {
        DownParts(t, b, i, m, items, st, fuel);
        PartingShows(t, b, Look(items, st, fuel));
      }
    }
  }

  lemma DownParts(t: Stmt, b: Bounds, i: int, m: int, items: seq<Value>, st: State, fuel: nat)
    requires t.ForRange? && Get(st.vars, t.name) == Int(i) && Seen(t.to, b.to, st.vars) == Int(m) && i != m
    requires items == [] <==> i <= m
    ensures FirstApart(t, b, items, st, fuel) == Some(Look(items, st, fuel)) && (items != [] <==> !GoesOn(t, b, st.vars))
  {
    hide Seen, Get;
  }

  // ----- iterators left behind -----

  /** A loud loop whose last round leaves iterators behind, or one of whose rounds leaves an exhausted one on
      top, is right exactly if both are so. */
  lemma LoudLeakExact(x: string, body: Block, items: seq<Value>, st: State, fuel: nat)
    requires PlainBlock(body) && Loud(body)
    ensures var k := FirstLeak(x, body, items, st, fuel);
            k.Leak? && (k.rest == [] || k.left[|k.left| - 1] == []) ==>
              (Erased(ExecFor(Compiled, x, body, [items], st, fuel)) == ExecFor(Documented, x, body, [items], st, fuel)
               <==> k.rest == [] && k.left[|k.left| - 1] == [])
  {
    hide ExecBlock, FirstLeak, PlainBlock, Loud;
    ForExact(x, body, items, st, fuel);
    var k := FirstLeak(x, body, items, st, fuel);
    if k.Leak? && k.rest == [] {
      assert ExecFor(Documented, x, body, [k.rest], k.st, k.fuel) == Done(Normal, k.st, []) by {
        var its: seq<seq<Value>> := [k.rest];
        assert its[..0] == [];
      }
      if k.left[|k.left| - 1] != [] {
        ForPrints(Compiled, x, body, k.left, k.st, k.fuel);
      }
    } else if k.Leak? && k.left[|k.left| - 1] == [] {
      ForPrints(Documented, x, body, [k.rest], k.st, k.fuel);
    }
  }
}
