/** When a lowered range loop does what the range says: counting in a variable and looking at the
    bound in every round, against going through the list of the range. */
module RangeQuirks {
  import opened Values
  import opened Ast
  import opened Source
  import opened Exits
  import opened Words
  import opened StaticIr
  import opened Lowering
  import opened LoweringExprs
  import opened LoweringStmts
  import opened LoweringPrograms
  import opened SteadyRanges

  // ----- one loop, any body -----

  /** A look at the head of the loop: the items of the range not yet visited, and the counting state. */
  datatype Look = Look(items: seq<Value>, st: State, fuel: nat)

  /** The first look at which counting and the list of the range part: one has another round and the
      other has not, or the counter is not the next item. */
  function FirstApart(t: Stmt, b: Bounds, items: seq<Value>, st: State, fuel: nat): Option<Look>
    requires t.ForRange?
    decreases fuel
  {
    if items == [] && !GoesOn(t, b, st.vars) then None
    else if items == [] || !GoesOn(t, b, st.vars) || !(t.name in st.vars && st.vars[t.name] == items[0]) then
      Some(Look(items, st, fuel))
    else if fuel == 0 then None
    else
      var r := ExecBlock(Lowered, t.body, st, fuel);
      if r.Done? && r.exit != Broke then FirstApart(t, b, items[1..], Advanced(t, b, r.st), fuel - 1) else None
  }

  /** The same, but for the variable `x`. */
  ghost predicate SameBut(x: string, r: ExecResult, r': ExecResult) {
    if r.Done? && r'.Done? then
      r.exit == r'.exit && r.leaks == r'.leaks && r.st.out == r'.st.out && r.st.vars - {x} == r'.st.vars - {x}
    else r == r'
  }

  /** The rounds over the list of the range. */
  function Listed(t: Stmt, items: seq<Value>, st: State, fuel: nat): ExecResult
    requires t.ForRange?
  {
    ExecFor(Lowered, t.name, t.body, [items], st, fuel)
  }

  /** What parting comes to: the extra rounds do nothing, or the items left do nothing, or (when the body
      has moved the counter) both go on to the same end. */
  ghost predicate NoHarm(t: Stmt, b: Bounds, l: Look)
    requires t.ForRange?
  {
    if l.items == [] then SameBut(t.name, Done(Normal, l.st, []), ExecCounted(t, b, l.st, l.fuel))
    else if !GoesOn(t, b, l.st.vars) then SameBut(t.name, Listed(t, l.items, l.st, l.fuel), Done(Normal, l.st, []))
    else SameBut(t.name, Listed(t, l.items, l.st, l.fuel), ExecCounted(t, b, l.st, l.fuel))
  }

  /** Counting does what the list of the range says exactly when at every look the counter is the next
      item, with a round to come exactly if there is an item; or when the first look at which it is not
      so makes no difference. */
  lemma {:induction false} CountingExact(t: Stmt, b: Bounds, items: seq<Value>, st: State, fuel: nat)
    requires t.ForRange?
    ensures SameBut(t.name, Listed(t, items, st, fuel), ExecCounted(t, b, st, fuel))
       <==> var l := FirstApart(t, b, items, st, fuel); l.Some? ==> NoHarm(t, b, l.value)
    decreases fuel
  {
    hide ExecBlock, GoesOn, Advanced, ExecFor, NoHarm;
    ListedStep(t, items, st, fuel);
    var l := FirstApart(t, b, items, st, fuel);
    if l == Some(Look(items, st, fuel)) {
      PartingHere(t, b, Look(items, st, fuel));
    } else if items != [] && fuel > 0 {
      assert State(st.vars[t.name := items[0]], st.out) == st;
      var r := ExecBlock(Lowered, t.body, st, fuel);
      if r.Done? && r.exit != Broke {
        var st1 := Advanced(t, b, r.st);
        CountingExact(t, b, items[1..], st1, fuel - 1);
        CounterIgnored(t, b, items[1..], r.st, fuel - 1);
      }
    }
  }

  lemma PartingHere(t: Stmt, b: Bounds, l: Look)
    requires t.ForRange? && (l.items != [] || GoesOn(t, b, l.st.vars))
    ensures SameBut(t.name, Listed(t, l.items, l.st, l.fuel), ExecCounted(t, b, l.st, l.fuel)) <==> NoHarm(t, b, l)
  {
    hide ExecBlock, GoesOn, Advanced, ExecFor;
    ListedStep(t, l.items, l.st, l.fuel);
  }

  lemma ListedStep(t: Stmt, items: seq<Value>, st: State, fuel: nat)
    requires t.ForRange?
    ensures Listed(t, items, st, fuel)
         == if items == [] then Done(Normal, st, [])
            else if fuel == 0 then OutOfFuel(st.out)
            else
              var r := ExecBlock(Lowered, t.body, State(st.vars[t.name := items[0]], st.out), fuel);
              if !r.Done? then r
              else if r.exit == Broke then Done(Normal, r.st, [])
              else Listed(t, items[1..], r.st, fuel - 1)
  {
    hide ExecBlock;
    var its: seq<seq<Value>> := [items];
    assert its[..0] == [];
    if items != [] && fuel > 0 {
      BlockExitFacts(Lowered, t.body, State(st.vars[t.name := items[0]], st.out), fuel);
      assert [] + [items[1..]] + [] == [items[1..]];
    }
  }

  /** Going through the list does not ask what the counter was. */
  lemma CounterIgnored(t: Stmt, b: Bounds, items: seq<Value>, st: State, fuel: nat)
    requires t.ForRange?
    ensures SameBut(t.name, Listed(t, items, st, fuel), Listed(t, items, Advanced(t, b, st), fuel))
  {
    hide ExecBlock, ExecFor, Seen;
    var st1 := Advanced(t, b, st);
    ListedStep(t, items, st, fuel);
    ListedStep(t, items, st1, fuel);
    if items != [] {
      assert st.vars[t.name := items[0]] == st1.vars[t.name := items[0]];
    }
  }

  // ----- when they never part -----

  lemma DownStep(i: int, m: int, k: int)
    requires k < 0
    ensures RangeItems(i, m, k) == Ok([]) <==> i <= m
  {
    hide RangeFrom;
    if i > m && RangeItems(i, m, k).Ok? {
      RangeStep(i, m, k);
    } else if i <= m {
      EmptyRange(i, m, k, TWO64);
    }
  }

  lemma EmptyRange(i: int, m: int, k: int, room: nat)
    requires k < 0 && i <= m
    ensures RangeFrom(i, m, k, room) == Ok([])
  {
  }

  /** With a counter and a step that the body leaves alone, counting up parts from the list exactly where
      the bound of the moment and the first one compare differently with the counter. */
  lemma {:induction false} PartsAtBound(t: Stmt, b: Bounds, i: int, m: int, k: int, st: State, fuel: nat)
    requires t.ForRange? && StaticBlock(t.body) && At(t, b, i, k, st) && k > 0 && RangeItems(i, m, k).Ok?
    ensures var l := FirstApart(t, b, RangeItems(i, m, k).value, st, fuel);
            l.Some? ==> var j := IntOf(Get(l.value.st.vars, t.name));
                        (l.value.items != [] <==> j < m) && (j < m <==> !GoesOn(t, b, l.value.st.vars))
    decreases fuel
  {
    hide ExecBlock, GoesOn, Advanced, RangeItems, WrittenBlock;
    UpStep(i, m, k);
    if i < m && GoesOn(t, b, st.vars) && fuel > 0 {
      var r := ExecBlock(Lowered, t.body, st, fuel);
      if r.Done? && r.exit != Broke {
        NextAt(t, b, i, k, st, fuel);
        PartsAtBound(t, b, Wrap(i + k), m, k, Advanced(t, b, r.st), fuel - 1);
      }
    }
  }

  /** With a steady bound as well, counting never parts from the list of a range exactly when the step is
      positive or the range starts where it ends. */
  lemma {:induction false} SteadyExact(t: Stmt, b: Bounds, i: int, m: int, k: int, st: State, fuel: nat)
    requires t.ForRange? && StaticBlock(t.body) && At(t, b, i, k, st) && BoundAt(t, b, m, st) && k != 0 && RangeItems(i, m, k).Ok?
    ensures FirstApart(t, b, RangeItems(i, m, k).value, st, fuel).None? <==> k > 0 || i == m
    decreases fuel
  {
    hide ExecBlock, Advanced, RangeItems, WrittenBlock, Seen;
    if k < 0 {
      DownStep(i, m, k);
      if i > m {
        assert RangeItems(i, m, k).value != [];
      }
    } else {
      UpStep(i, m, k);
      if i < m && fuel > 0 {
        var r := ExecBlock(Lowered, t.body, st, fuel);
        if r.Done? && r.exit != Broke {
          NextAt(t, b, i, k, st, fuel);
          var j := Wrap(i + k);
          AdvancedTo(t, b, j, r.st);
          BoundKept(t, b, m, j, st, fuel);
          SteadyExact(t, b, j, m, k, Advanced(t, b, r.st), fuel - 1);
        }
      }
    }
  }

  lemma AdvancedTo(t: Stmt, b: Bounds, j: int, st: State)
    requires t.ForRange? && Get(Advanced(t, b, st).vars, t.name) == Int(j)
    ensures Advanced(t, b, st) == State(st.vars[t.name := Int(j)], st.out)
  {
  }

  /** A range between literals with a literal step is visited by the lowered loop exactly when the step is
      positive or the range starts where it ends. */
  lemma LiteralRangeExact(t: Stmt, st: State, fuel: nat)
    requires t.ForRange? && StaticBlock(t.body) && t.name !in WrittenBlock(t.body)
    requires t.from.IntLit? && t.to.IntLit? && StepExpr(t.step).IntLit? && StepExpr(t.step).i != 0
    requires RangeItems(t.from.i, t.to.i, StepExpr(t.step).i).Ok?
    ensures var i, m, k := t.from.i, t.to.i, StepExpr(t.step).i;
            var b := Bounds(Int(i), Int(m), Int(k));
            var st1 := State(st.vars[t.name := Int(i)], st.out);
            && Exec(Lowered, t, st, fuel) == ExecCounted(t, b, st1, fuel)
            && (FirstApart(t, b, RangeItems(i, m, k).value, st1, fuel).None? <==> k > 0 || i == m)
  {
    hide ExecCounted, FirstApart, RangeItems, StaticBlock, WrittenBlock;
    var i, m, k := t.from.i, t.to.i, StepExpr(t.step).i;
    var b := Bounds(Int(i), Int(m), Int(k));
    LiteralMeans(t.from, st.vars);
    LiteralMeans(t.to, st.vars);
    LiteralMeans(StepExpr(t.step), st.vars);
    assert RangeBounds(Lowered, t, st.vars) == Val(b, st.vars);
    SteadyExact(t, b, i, m, k, State(st.vars[t.name := Int(i)], st.out), fuel);
  }

  // ----- the counter after the loop -----

  /** After counting, the counter is at or above the bound; after going through a list, it is the last
      item, below the bound. */
  lemma {:induction false} CounterAfter(t: Stmt, b: Bounds, i: int, m: int, k: int, st: State, fuel: nat)
    requires t.ForRange? && StaticBlock(t.body) && !BreaksBlock(t.body)
    requires At(t, b, i, k, st) && BoundAt(t, b, m, st) && k > 0 && RangeItems(i, m, k).Ok? && i < m
    ensures var c, d := ExecCounted(t, b, st, fuel), Listed(t, RangeItems(i, m, k).value, st, fuel);
            c.Done? && d.Done? ==> IntOf(Get(d.st.vars, t.name)) < m <= IntOf(Get(c.st.vars, t.name))
    decreases fuel
  {
    hide ExecBlock, Advanced, RangeItems, WrittenBlock, Seen, ExecFor;
    UpStep(i, m, k);
    var j := Wrap(i + k);
    UpStep(j, m, k);
    var items := RangeItems(i, m, k).value;
    ListedStep(t, items, st, fuel);
    assert st.vars[t.name := Int(i)] == st.vars;
    if fuel > 0 {
      var r := ExecBlock(Lowered, t.body, st, fuel);
      BlockExitFacts(Lowered, t.body, st, fuel);
      if r.Done? {
        NextAt(t, b, i, k, st, fuel);
        AdvancedTo(t, b, j, r.st);
        BoundKept(t, b, m, j, st, fuel);
        CounterStays(t, i, k, b, st, fuel);
        var rest := RangeItems(j, m, k).value;
        assert items[1..] == rest;
        ListedStep(t, rest, r.st, fuel - 1);
        if j < m {
          CounterIgnored(t, b, rest, r.st, fuel - 1);
          SameCounter(t, rest, r.st, Advanced(t, b, r.st), fuel - 1);
          CounterAfter(t, b, j, m, k, Advanced(t, b, r.st), fuel - 1);
        }
      }
    }
  }

  lemma CounterStays(t: Stmt, i: int, k: int, b: Bounds, st: State, fuel: nat)
    requires t.ForRange? && StaticBlock(t.body) && At(t, b, i, k, st)
    ensures var r := ExecBlock(Lowered, t.body, st, fuel); r.Done? ==> Get(r.st.vars, t.name) == Int(i)
  {
    hide ExecBlock, WrittenBlock, StaticBlock;
    BlockUntouched(t.body, st, fuel, t.name);
  }

  lemma SameCounter(t: Stmt, items: seq<Value>, st: State, st1: State, fuel: nat)
    requires t.ForRange? && items != [] && st1 == State(st.vars[t.name := Get(st1.vars, t.name)], st.out)
    ensures Listed(t, items, st, fuel) == Listed(t, items, st1, fuel)
  {
    hide ExecBlock, ExecFor;
    ListedStep(t, items, st, fuel);
    ListedStep(t, items, st1, fuel);
    assert st.vars[t.name := items[0]] == st1.vars[t.name := items[0]];
  }

  // ----- whole programs -----

  /** The lowered program does what is documented; where that is an error, the processor stops it. */
  ghost predicate LoweredRight(p: Block, regs: map<nat, i64>)
    requires StaticBlock(p)
  {
    && (IrStops(LowerProgram(p), regs) <==> ProgramStops(Documented, p))
    && forall n, fuel ::
         !Run(LowerProgram(p), Going(IrConfig(0, regs, "")), n).Going? && !ExecBlock(Documented, p, EMPTY, fuel).OutOfFuel?
         ==> Matches(ExecBlock(Documented, p, EMPTY, fuel), Run(LowerProgram(p), Going(IrConfig(0, regs, "")), n))
  }

  /** Both runs end, fail, or go on, and have printed the same. */
  predicate SameOutcome(d: ExecResult, l: ExecResult) {
    match d
    case Done(_, st, _) => l.Done? && l.st.out == st.out
    case Failed(_, out) => l.Failed? && l.out == out
    case OutOfFuel(_) => l.OutOfFuel?
  }

  /** If the readings print the same, the lowered program is right. */
  lemma SameIsRight(g: Env, p: Block, regs: map<nat, i64>)
    requires InFragment(g, p)
    requires forall fuel: nat :: SameOutcome(ExecBlock(Documented, p, EMPTY, fuel), ExecBlock(Lowered, p, EMPTY, fuel))
    ensures LoweredRight(p, regs)
  {
    hide ExecBlock, Run, LowerProgram, InFragment;
    LoweringKept(g, p, regs);
    if fuel :| !ExecBlock(Documented, p, EMPTY, fuel).OutOfFuel? {
      assert !ExecBlock(Lowered, p, EMPTY, fuel).OutOfFuel?;
    }
    forall n, fuel | !Run(LowerProgram(p), Going(IrConfig(0, regs, "")), n).Going? && !ExecBlock(Documented, p, EMPTY, fuel).OutOfFuel?
      ensures Matches(ExecBlock(Documented, p, EMPTY, fuel), Run(LowerProgram(p), Going(IrConfig(0, regs, "")), n))
    {
      assert Matches(ExecBlock(Lowered, p, EMPTY, fuel), Run(LowerProgram(p), Going(IrConfig(0, regs, "")), n));
    }
  }

  /** A steady program is lowered right. */
  lemma SteadyRight(g: Env, p: Block, regs: map<nat, i64>)
    requires InFragment(g, p) && SettledProgram(g, p)
    ensures LoweredRight(p, regs)
  {
    hide ExecBlock, SettledProgram, InFragment, LoweredRight;
    forall fuel: nat ensures SameOutcome(ExecBlock(Documented, p, EMPTY, fuel), ExecBlock(Lowered, p, EMPTY, fuel)) {
      ProgramsSame(g, p, fuel);
    }
    SameIsRight(g, p, regs);
  }

  /** If the documented run ends and every lowered one that does prints something else, it is wrong. */
  lemma OtherIsWrong(g: Env, p: Block, regs: map<nat, i64>, fuel: nat)
    requires InFragment(g, p) && !ExecBlock(Documented, p, EMPTY, fuel).OutOfFuel?
    requires forall k: nat :: var d, l := ExecBlock(Documented, p, EMPTY, fuel), ExecBlock(Lowered, p, EMPTY, k);
               l.OutOfFuel? || !SameOutcome(d, l)
    ensures !LoweredRight(p, regs)
  {
    hide ExecBlock, Run, LowerProgram, InFragment;
    LoweringKept(g, p, regs);
  }

  // println, x
  const SHOW: Block := Cons(Println(Cons(Var("x"), Nil)), Nil)

  // for, x, from i to m step k { println, x }
  function Printing(i: i64, m: i64, k: i64): Stmt {
    ForRange("x", IntLit(i), IntLit(m), Some(IntLit(k)), SHOW)
  }

  function PrintingProgram(i: i64, m: i64, k: i64): Block {
    Cons(Printing(i, m, k), Nil)
  }

  lemma PrintingInFragment(i: i64, m: i64, k: i64)
    ensures InFragment(map["x" := TInt], PrintingProgram(i, m, k))
  {
    var g, env: Env := map["x" := TInt], map[];
    assert TypeOf(g, Var("x")) == Some(TInt);
    assert AllTyped(g, Nil);
    assert AllTyped(g, Cons(Var("x"), Nil));
    assert FlowBlock(g, g, Nil) == Some(g);
    assert Flow(g, g, SHOW.head) == Some(g);
    assert FlowBlock(g, g, SHOW) == Some(g);
    assert IntBounds(env, Printing(i, m, k));
    assert env["x" := TInt] == g;
    assert Flow(g, env, Printing(i, m, k)) == Some(g);
    assert FlowBlock(g, env, PrintingProgram(i, m, k)) == Some(g);
    assert FlowBlock(g, map[], PrintingProgram(i, m, k)).Some?;
    assert ClosedBlock(PrintingProgram(i, m, k).tail);
    assert Closed(Printing(i, m, k));
  }

  lemma PrintingSettled(i: i64, m: i64, k: i64)
    requires k > 0 && RangeItems(i, m, k).Ok?
    ensures SettledProgram(map["x" := TInt], PrintingProgram(i, m, k))
  {
    hide RangeItems;
    var g, env: Env := map["x" := TInt], map[];
    assert AllInts(g, Nil);
    assert AllInts(g, Cons(Var("x"), Nil));
    assert Settled(g, g, SHOW.head) == Some(g);
    assert SettledBlock(g, g, Nil) == Some(g);
    assert SettledBlock(g, g, SHOW) == Some(g);
    ShowWrites();
    assert env - ({"x"} + {}) == env;
    assert env["x" := TInt] == g;
    assert IntBounds(env, Printing(i, m, k));
    assert Settled(g, env, Printing(i, m, k)) == Some(env);
    assert SettledBlock(g, env, Nil) == Some(env);
    assert SettledBlock(g, env, PrintingProgram(i, m, k)) == Some(env);
  }

  lemma ShowWrites()
    ensures WrittenBlock(SHOW) == {} && CountersBlock(SHOW) == {} && StaticBlock(SHOW)
  {
    assert WrittenBlock(SHOW.tail) == {} && CountersBlock(SHOW.tail) == {} && StaticBlock(SHOW.tail);
    assert StaticExprs(Nil) && StaticExpr(Var("x")) && StaticExprs(Cons(Var("x"), Nil));
  }

  lemma AloneMeans(rd: Reading, t: Stmt, st: State, fuel: nat)
    ensures var r := Exec(rd, t, st, fuel);
            ExecBlock(rd, Cons(t, Nil), st, fuel) == if r.Done? && r.exit == Normal then Done(Normal, r.st, r.leaks + []) else r
  {
    hide Exec;
    var r := Exec(rd, t, st, fuel);
    if r.Done? {
      assert ExecBlock(rd, Nil, r.st, fuel) == Done(Normal, r.st, []);
    }
  }

  lemma RoundPrints(rd: Reading, i: int, st: State, fuel: nat)
    ensures var st1 := State(st.vars["x" := Int(i)], st.out);
            ExecBlock(rd, SHOW, st1, fuel) == Done(Normal, State(st1.vars, st.out + Decimal(i) + "\n"), [])
  {
    hide Decimal, Exec;
    var st1 := State(st.vars["x" := Int(i)], st.out);
    ShowMeans(rd, Int(i), st1, fuel);
    AloneMeans(rd, SHOW.head, st1, fuel);
  }

  /** What going through the items prints. */
  lemma {:induction false} ListPrints(items: seq<Value>, st: State, fuel: nat)
    requires forall k :: 0 <= k < |items| ==> items[k].Int?
    requires fuel >= |items|
    ensures var r := ExecFor(Documented, "x", SHOW, [items], st, fuel);
            r.Done? && r.exit == Normal && |r.st.out| >= |st.out| + |items|
    decreases items
  {
    hide ExecBlock, Decimal;
    if items != [] {
      RoundPrints(Documented, items[0].i, st, fuel);
      var st1 := ExecBlock(Documented, SHOW, State(st.vars["x" := items[0]], st.out), fuel).st;
      assert [items][..0] + [items[1..]] + [] == [items[1..]];
      ListPrints(items[1..], st1, fuel - 1);
    }
  }

  lemma {:induction false} CountPrints(t: Stmt, b: Bounds, st: State, fuel: nat)
    requires t.ForRange? && t.name == "x" && t.body == SHOW && "x" in st.vars && st.vars["x"].Int?
    ensures var r := ExecCounted(t, b, st, fuel);
            r.OutOfFuel? || (r.Done? && |r.st.out| >= |st.out| + if GoesOn(t, b, st.vars) then 1 else 0)
    decreases fuel
  {
    hide ExecBlock, Decimal, GoesOn;
    if GoesOn(t, b, st.vars) && fuel > 0 {
      assert st.vars == st.vars["x" := Int(st.vars["x"].i)];
      RoundPrints(Lowered, st.vars["x"].i, st, fuel);
      var r := ExecBlock(Lowered, SHOW, st, fuel);
      CountPrints(t, b, Advanced(t, b, r.st), fuel - 1);
    }
  }

  lemma {:induction false} IntItems(i: int, m: int, k: int, room: nat)
    requires RangeFrom(i, m, k, room).Ok?
    ensures forall j :: 0 <= j < |RangeFrom(i, m, k, room).value| ==> RangeFrom(i, m, k, room).value[j].Int?
    decreases room
  {
    hide Wrap;
    if !(if k > 0 then i >= m else i <= m) {
      IntItems(Wrap(i + k), m, k, room - 1);
    }
  }

  lemma ItemsInts(i: int, m: int, k: int)
    requires k != 0 && RangeItems(i, m, k).Ok?
    ensures forall j :: 0 <= j < |RangeItems(i, m, k).value| ==> RangeItems(i, m, k).value[j].Int?
  {
    hide RangeFrom;
    IntItems(i, m, k, TWO64);
  }

  lemma PrintingMeans(i: i64, m: i64, k: i64, fuel: nat)
    ensures var b := Bounds(Int(i), Int(m), Int(k));
            && Exec(Lowered, Printing(i, m, k), EMPTY, fuel)
               == ExecCounted(Printing(i, m, k), b, State(map["x" := Int(i)], ""), fuel)
            && Exec(Documented, Printing(i, m, k), EMPTY, fuel)
               == var v := Range3Values(Int(i), Int(m), Int(k));
                  if v.Ok? then ExecFor(Documented, "x", SHOW, [Items(v.value)], EMPTY, fuel) else Failed(v.error, "")
  {
    hide ExecFor, ExecCounted, Range3Values;
    var t := Printing(i, m, k);
    LiteralMeans(t.from, EMPTY.vars);
    LiteralMeans(t.to, EMPTY.vars);
    LiteralMeans(StepExpr(t.step), EMPTY.vars);
    assert Eval(Documented, t.from, EMPTY.vars) == Val(Int(i), EMPTY.vars);
    assert Eval(Documented, t.to, EMPTY.vars) == Val(Int(m), EMPTY.vars);
    assert Eval(Documented, StepExpr(t.step), EMPTY.vars) == Val(Int(k), EMPTY.vars);
    assert RangeBounds(Lowered, t, EMPTY.vars) == Val(Bounds(Int(i), Int(m), Int(k)), EMPTY.vars);
    assert RangeBounds(Documented, t, EMPTY.vars) == Val(Bounds(Int(i), Int(m), Int(k)), EMPTY.vars);
    assert EMPTY.vars["x" := Int(i)] == map["x" := Int(i)];
  }

  /** Printing a range of literals is lowered right exactly when the range is one, and the step is positive or
      the range starts where it ends. */
  lemma PrintingExact(i: i64, m: i64, k: i64, regs: map<nat, i64>)
    ensures StaticBlock(PrintingProgram(i, m, k))
    ensures LoweredRight(PrintingProgram(i, m, k), regs)
       <==> Range3Values(Int(i), Int(m), Int(k)).Ok? && (k > 0 || i == m)
  {
    hide RangeItems, LoweredRight, InFragment, ExecBlock, SettledProgram, Exec, StaticBlock;
    var p, g := PrintingProgram(i, m, k), map["x" := TInt];
    PrintingInFragment(i, m, k);
    if !Range3Values(Int(i), Int(m), Int(k)).Ok? {
      FailedRange(i, m, k, regs);
    } else if k > 0 {
      PrintingSettled(i, m, k);
      SteadyRight(g, p, regs);
    } else {
      DownRange(i, m, k, regs);
    }
  }

  lemma FailedRange(i: i64, m: i64, k: i64, regs: map<nat, i64>)
    requires !Range3Values(Int(i), Int(m), Int(k)).Ok? && StaticBlock(PrintingProgram(i, m, k))
    ensures !LoweredRight(PrintingProgram(i, m, k), regs)
  {
    hide Range3Values, LoweredRight, InFragment, ExecBlock, Exec, StaticBlock;
    var p, t := PrintingProgram(i, m, k), Printing(i, m, k);
    PrintingInFragment(i, m, k);
    PrintingMeans(i, m, k, 0);
    AloneMeans(Documented, t, EMPTY, 0);
    forall fuel: nat ensures !ExecBlock(Lowered, p, EMPTY, fuel).Failed? {
      PrintingMeans(i, m, k, fuel);
      AloneMeans(Lowered, t, EMPTY, fuel);
      CountPrints(t, Bounds(Int(i), Int(m), Int(k)), State(map["x" := Int(i)], ""), fuel);
    }
    OtherIsWrong(map["x" := TInt], p, regs, 0);
  }

  /** Counting down: the lowered loop has no round where the range has items, and rounds where it has none. */
  lemma DownRange(i: i64, m: i64, k: i64, regs: map<nat, i64>)
    requires k < 0 && RangeItems(i, m, k).Ok? && StaticBlock(PrintingProgram(i, m, k))
    ensures LoweredRight(PrintingProgram(i, m, k), regs) <==> i == m
  {
    hide RangeItems, LoweredRight, InFragment, ExecBlock, Exec, StaticBlock, ExecFor, ExecCounted;
    var p, t, g := PrintingProgram(i, m, k), Printing(i, m, k), map["x" := TInt];
    var items := RangeItems(i, m, k).value;
    PrintingInFragment(i, m, k);
    DownStep(i, m, k);
    ItemsInts(i, m, k);
    forall fuel: nat ensures var l := ExecBlock(Lowered, p, EMPTY, fuel);
                             if i < m then l.OutOfFuel? || (l.Done? && l.st.out != "") else l.Done? && l.st.out == ""
    {
      LoweredDown(i, m, k, fuel);
    }
    forall fuel: nat | fuel >= |items| ensures var d := ExecBlock(Documented, p, EMPTY, fuel); d.Done? && (d.st.out == "" <==> i <= m)
    {
      DocumentedDown(i, m, k, fuel);
    }
    if i == m {
      assert items == [];
      SameIsRight(g, p, regs);
    } else {
      OtherIsWrong(g, p, regs, |items|);
    }
  }

  lemma LoweredDown(i: i64, m: i64, k: i64, fuel: nat)
    requires k < 0
    ensures var l := ExecBlock(Lowered, PrintingProgram(i, m, k), EMPTY, fuel);
            if i < m then l.OutOfFuel? || (l.Done? && l.st.out != "") else l.Done? && l.st.out == ""
  {
    hide ExecBlock, Exec;
    var t := Printing(i, m, k);
    PrintingMeans(i, m, k, fuel);
    AloneMeans(Lowered, t, EMPTY, fuel);
    CountedExits(t, Bounds(Int(i), Int(m), Int(k)), State(map["x" := Int(i)], ""), fuel);
    CountPrints(t, Bounds(Int(i), Int(m), Int(k)), State(map["x" := Int(i)], ""), fuel);
  }

  lemma DocumentedDown(i: i64, m: i64, k: i64, fuel: nat)
    requires k < 0 && RangeItems(i, m, k).Ok? && fuel >= |RangeItems(i, m, k).value|
    ensures var d := ExecBlock(Documented, PrintingProgram(i, m, k), EMPTY, fuel); d.Done? && (d.st.out == "" <==> i <= m)
  {
    hide ExecBlock, Exec, RangeItems;
    var items := RangeItems(i, m, k).value;
    PrintingMeans(i, m, k, fuel);
    AloneMeans(Documented, Printing(i, m, k), EMPTY, fuel);
    DownStep(i, m, k);
    ItemsInts(i, m, k);
    ListPrints(items, EMPTY, fuel);
    if i <= m {
      assert ExecFor(Documented, "x", SHOW, [items], EMPTY, fuel) == Done(Normal, EMPTY, []);
    }
  }

  // ----- a bound that the body lowers -----

  // println, x   n = 0
  const BODY: Block := Cons(SHOW.head, Cons(Assign("n", IntLit(0)), Nil))

  // for, x, from 0 to n { println, x   n = 0 }
  const RANGE: Stmt := ForRange("x", IntLit(0), Var("n"), None, BODY)

  // n = 2   for, x, from 0 to n { println, x   n = 0 }
  const SHRINKING: Block := Cons(Assign("n", IntLit(2)), Cons(RANGE, Nil))

  lemma ShrinkingInFragment()
    ensures InFragment(map["x" := TInt, "n" := TInt], SHRINKING)
  {
    var g: Env := map["x" := TInt, "n" := TInt];
    var env: Env := map["n" := TInt];
    assert TypeOf(g, Var("x")) == Some(TInt) && TypeOf(g, IntLit(0)) == Some(TInt);
    assert AllTyped(g, Nil) && AllTyped(g, Cons(Var("x"), Nil));
    assert Flow(g, g, SHOW.head) == Some(g);
    assert g["n" := TInt] == g;
    assert Flow(g, g, BODY.tail.head) == Some(g);
    assert FlowBlock(g, g, Nil) == Some(g);
    assert FlowBlock(g, g, BODY.tail) == Some(g);
    assert FlowBlock(g, g, BODY) == Some(g);
    assert env["x" := TInt] == g;
    assert IntBounds(env, RANGE);
    assert Flow(g, env, RANGE) == Some(g);
    assert FlowBlock(g, env, SHRINKING.tail) == Some(g);
    assert TypeOf(map[], IntLit(2)) == Some(TInt);
    assert map["n" := TInt] == env;
    assert Flow(g, map[], SHRINKING.head) == Some(env);
    assert ClosedBlock(Nil) && ClosedBlock(SHRINKING.tail);
  }

  lemma BodyMeans(rd: Reading, st: State, i: int, fuel: nat)
    requires "x" in st.vars && st.vars["x"] == Int(i)
    ensures ExecBlock(rd, BODY, st, fuel)
         == Done(Normal, State(st.vars["n" := Int(0)], st.out + Decimal(i) + "\n"), [])
  {
    hide Decimal;
    var show, zero := BODY.head, BODY.tail.head;
    ShowMeans(rd, Int(i), st, fuel);
    var st1 := State(st.vars, st.out + Decimal(i) + "\n");
    assert Exec(rd, zero, st1, fuel) == Done(Normal, State(st.vars["n" := Int(0)], st1.out), []);
    AloneMeans(rd, zero, st1, fuel);
  }

  lemma StartMeans(rd: Reading, fuel: nat)
    requires !rd.Compiled?
    ensures var st0 := State(EMPTY.vars["n" := Int(2)], "");
            && RangeBounds(rd, RANGE, st0.vars) == Val(Bounds(Int(0), Int(2), Int(1)), st0.vars)
            && (Exec(rd, RANGE, st0, fuel).Done? && Exec(rd, RANGE, st0, fuel).exit == Normal ==>
                  var r := ExecBlock(rd, SHRINKING, EMPTY, fuel); r.Done? && r.st == Exec(rd, RANGE, st0, fuel).st)
  {
    hide Exec;
    var st0 := State(EMPTY.vars["n" := Int(2)], "");
    FirstMeans(rd, fuel);
    UnitStep(rd, st0.vars);
    assert Eval(rd, IntLit(0), st0.vars) == Val(Int(0), st0.vars) && Eval(rd, Var("n"), st0.vars) == Val(Int(2), st0.vars);
    AloneMeans(rd, RANGE, st0, fuel);
  }

  lemma FirstMeans(rd: Reading, fuel: nat)
    ensures Exec(rd, SHRINKING.head, EMPTY, fuel) == Done(Normal, State(EMPTY.vars["n" := Int(2)], ""), [])
  {
    assert Eval(rd, IntLit(2), EMPTY.vars) == Val(Int(2), EMPTY.vars);
  }

  /** Lowered, the second look finds the bound at zero. */
  lemma LoweredMeans(fuel: nat)
    requires fuel >= 1
    ensures var r := ExecBlock(Lowered, SHRINKING, EMPTY, fuel); r.Done? && r.st.out == Decimal(0) + "\n"
  {
    hide Decimal, ExecBlock;
    var st0 := State(EMPTY.vars["n" := Int(2)], "");
    var b := Bounds(Int(0), Int(2), Int(1));
    var st1 := State(st0.vars["x" := Int(0)], "");
    var st2 := State(st1.vars["n" := Int(0)], "" + Decimal(0) + "\n");
    StartMeans(Lowered, fuel);
    BodyMeans(Lowered, st1, 0, fuel);
    assert Advanced(RANGE, b, st2) == State(st2.vars["x" := Int(1)], st2.out);
    assert ExecCounted(RANGE, b, Advanced(RANGE, b, st2), fuel - 1) == Done(Normal, Advanced(RANGE, b, st2), []);
    assert ExecCounted(RANGE, b, st1, fuel) == Done(Normal, Advanced(RANGE, b, st2), []);
  }

  lemma DocumentedMeans(fuel: nat)
    requires fuel >= 2
    ensures var r := ExecBlock(Documented, SHRINKING, EMPTY, fuel);
            r.Done? && r.st.out == Decimal(0) + "\n" + Decimal(1) + "\n"
  {
    hide Decimal, ExecBlock, RangeItems, ExecFor;
    var st0 := State(EMPTY.vars["n" := Int(2)], "");
    StartMeans(Documented, fuel);
    TwoItems();
    var st1 := DocumentedRound(0, st0, fuel);
    var st2 := DocumentedRound(1, st1, fuel - 1);
    ForStep("x", BODY, 2, 2, 1, st2, fuel - 2);
    assert Exec(Documented, RANGE, st0, fuel) == Done(Normal, st2, []);
  }

  lemma DocumentedRound(i: int, st: State, fuel: nat) returns (st1: State)
    requires 0 <= i < 2 && fuel > 0 && RangeItems(i, 2, 1).Ok? && RangeItems(i + 1, 2, 1).Ok?
    ensures ExecFor(Documented, "x", BODY, [RangeItems(i, 2, 1).value], st, fuel)
         == ExecFor(Documented, "x", BODY, [RangeItems(i + 1, 2, 1).value], st1, fuel - 1)
    ensures st1.out == st.out + Decimal(i) + "\n"
  {
    hide Decimal, ExecBlock, RangeItems, ExecFor;
    assert Wrap(i + 1) == i + 1;
    st1 := State(st.vars["x" := Int(i)]["n" := Int(0)], st.out + Decimal(i) + "\n");
    BodyMeans(Documented, State(st.vars["x" := Int(i)], st.out), i, fuel);
    ForStep("x", BODY, i, 2, 1, st, fuel);
  }

  lemma TwoItems()
    ensures RangeItems(0, 2, 1).Ok? && RangeItems(1, 2, 1).Ok? && RangeItems(2, 2, 1).Ok?
  {
    FarFromEnd(0, 2, 1);
    FarFromEnd(1, 2, 1);
    FarFromEnd(2, 2, 1);
  }

  /** A body that lowers the bound ends the loop early: the program prints one line, not two. */
  lemma BoundReadAgain(regs: map<nat, i64>)
    ensures StaticBlock(SHRINKING) && !LoweredRight(SHRINKING, regs)
  {
    hide Decimal, ExecBlock, LoweredRight, InFragment;
    ShrinkingInFragment();
    DocumentedMeans(2);
    forall k: nat ensures var l := ExecBlock(Lowered, SHRINKING, EMPTY, k); l.OutOfFuel? || (l.Done? && l.st.out == Decimal(0) + "\n") {
      if k > 0 {
        LoweredMeans(k);
      } else {
        NoFuel();
      }
    }
    OtherIsWrong(map["x" := TInt, "n" := TInt], SHRINKING, regs, 2);
  }

  lemma NoFuel()
    ensures ExecBlock(Lowered, SHRINKING, EMPTY, 0).OutOfFuel?
  {
    hide ExecBlock;
    var st0 := State(EMPTY.vars["n" := Int(2)], "");
    StartMeans(Lowered, 0);
    FirstMeans(Lowered, 0);
    assert Exec(Lowered, RANGE, st0, 0) == OutOfFuel("");
    AloneMeans(Lowered, RANGE, st0, 0);
    ConsMeans(Lowered, SHRINKING.head, SHRINKING.tail, EMPTY, 0);
  }

  lemma ConsMeans(rd: Reading, t: Stmt, p: Block, st: State, fuel: nat)
    ensures var r := Exec(rd, t, st, fuel);
            ExecBlock(rd, Cons(t, p), st, fuel)
            == if r.Done? && r.exit == Normal then AddLeaks(r.leaks, ExecBlock(rd, p, r.st, fuel)) else r
  {
    hide Exec;
  }
}
