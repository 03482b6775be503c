/** What becomes of an iterator that a `for` loop leaves behind when it is left by `break` inside another
    `for` loop: exactly when the two readings part, and when the machine does not come to an end. */
module Leftovers {
  import opened Values
  import opened Ast
  import opened Source
  import opened Exits
  import opened Readings
  import opened Bytecode
  import opened Layout
  import opened BytecodePrograms

  // ----- one loop -----

  /** A loop looks at the iterator on top and never reaches those below. */
  lemma {:induction false} ForFramed(x: string, body: Block, below: seq<seq<Value>>, its: seq<seq<Value>>, st: State,
        fuel: nat)
    requires its != []
    ensures ExecFor(Compiled, x, body, below + its, st, fuel) == AddLeaks(below, ExecFor(Compiled, x, body, its, st, fuel))
    decreases fuel
  {
    hide ExecBlock;
    var all, top := below + its, its[|its| - 1];
    assert all[..|all| - 1] == below + its[..|its| - 1];
    if top != [] && fuel > 0 {
      var r := ExecBlock(Compiled, body, State(st.vars[x := top[0]], st.out), fuel);
      if r.Done? {
        var its' := its[..|its| - 1] + [top[1..]] + r.leaks;
        assert all[..|all| - 1] + [top[1..]] + r.leaks == below + its';
        if r.exit != Broke {
          ForFramed(x, body, below, its', r.st, fuel - 1);
        }
      }
    }
  }

  /** The first round that leaves iterators behind and is followed by another look: the state after it, the
      items that were still to come, and the iterators. */
  datatype Leak = NoLeak | Leak(st: State, rest: seq<Value>, left: seq<seq<Value>>, fuel: nat)

  function FirstLeak(x: string, body: Block, items: seq<Value>, st: State, fuel: nat): (k: Leak)
    ensures k.Leak? ==> k.left != []
    decreases fuel
  {
    if items == [] || fuel == 0 then NoLeak
    else
      match ExecBlock(Compiled, body, State(st.vars[x := items[0]], st.out), fuel)
      case Done(exit, st1, ls) =>
        if exit == Broke then NoLeak
        else if ls == [] then FirstLeak(x, body, items[1..], st1, fuel - 1)
        else Leak(st1, items[1..], ls, fuel - 1)
      case _ => NoLeak
  }

  /** A loop with a plain body means what is documented exactly when no round that is followed by another
      look leaves iterators behind, or else a loop over the iterators left behind does what a loop over
      the rest of the items would have done: the rest of the items is never reached. */
  lemma {:induction false} ForExact(x: string, body: Block, items: seq<Value>, st: State, fuel: nat)
    requires PlainBlock(body)
    ensures Erased(ExecFor(Compiled, x, body, [items], st, fuel)) == ExecFor(Documented, x, body, [items], st, fuel)
       <==> var k := FirstLeak(x, body, items, st, fuel);
            k.Leak? ==>
              Erased(ExecFor(Compiled, x, body, k.left, k.st, k.fuel)) == ExecFor(Documented, x, body, [k.rest], k.st, k.fuel)
    decreases fuel
  {
    hide ExecBlock;
    if items != [] && fuel > 0 {
      var st0 := State(st.vars[x := items[0]], st.out);
      BlockAgrees(body, st0, fuel);
      var r := ExecBlock(Compiled, body, st0, fuel);
      if r.Done? {
        assert [items][..0] + [items[1..]] + [] == [items[1..]];
        assert [items][..0] + [items[1..]] + r.leaks == [items[1..]] + r.leaks;
        if r.exit != Broke {
          if r.leaks == [] {
            ForExact(x, body, items[1..], r.st, fuel - 1);
          } else {
            ForFramed(x, body, [items[1..]], r.leaks, r.st, fuel - 1);
          }
        }
      }
    }
  }

  /** The same for the statement: its source is evaluated alike. */
  lemma ForStmtExact(s: Stmt, st: State, fuel: nat)
    requires (s.ForIn? && PlainExpr(s.iterable)) || (s.ForRange? && PlainExpr(s.from) && PlainExpr(s.to) && PlainOpt(s.step))
    requires PlainBlock(s.body)
    ensures Erased(Exec(Compiled, s, st, fuel)) == Exec(Documented, s, st, fuel)
       <==> var v := ForSource(Documented, s, st.vars);
            v.Val? ==>
              var k := FirstLeak(s.name, s.body, Items(v.value), State(v.st, st.out), fuel);
              k.Leak? ==>
                Erased(ExecFor(Compiled, s.name, s.body, k.left, k.st, k.fuel))
                == ExecFor(Documented, s.name, s.body, [k.rest], k.st, k.fuel)
  {
    hide ExecFor, ForSource, FirstLeak, Items;
    SourceAgrees(s, st.vars);
    var v := ForSource(Compiled, s, st.vars);
    if v.Val? {
      ForExact(s.name, s.body, Items(v.value), State(v.st, st.out), fuel);
    }
  }

  /** If the iterator left on top is exhausted, the loop just ends: right exactly if the rest of the items
      does nothing. */
  lemma ForExhausted(x: string, body: Block, items: seq<Value>, st: State, fuel: nat)
    requires PlainBlock(body)
    ensures var k := FirstLeak(x, body, items, st, fuel);
            k.Leak? && k.left[|k.left| - 1] == [] ==>
              (Erased(ExecFor(Compiled, x, body, [items], st, fuel)) == ExecFor(Documented, x, body, [items], st, fuel)
               <==> ExecFor(Documented, x, body, [k.rest], k.st, k.fuel) == Done(Normal, k.st, []))
  {
    hide ExecBlock, FirstLeak;
    ForExact(x, body, items, st, fuel);
  }

  // ----- a family of programs -----

  // for, y, in, t { break }   println, x
  function Body(t: string): Block {
    Cons(ForIn("y", StrLit(t), Cons(Break, Nil)), Cons(Println(Cons(Var("x"), Nil)), Nil))
  }

  // for, x, in, s { for, y, in, t { break }   println, x }
  function Nested(s: string, t: string): Block {
    Cons(ForIn("x", StrLit(s), Body(t)), Nil)
  }

  /** What printing the items, one on a line, prints. */
  function Lines(items: seq<Value>): string {
    if items == [] then "" else Display(items[0]) + "\n" + Lines(items[1..])
  }

  lemma InnerMeans(rd: Reading, t: string, st: State, fuel: nat)
    requires fuel > 0
    ensures var r := Exec(rd, Body(t).head, st, fuel);
            && r.Done? && r.exit == Normal && r.st.out == st.out && (forall k :: k in st.vars && k != "y" ==> k in r.st.vars && r.st.vars[k] == st.vars[k])
            && r.leaks == if rd.Compiled? && t != "" then [Items(Str(t))[1..]] else []
  {
    var items := Items(Str(t));
    assert Eval(rd, StrLit(t), st.vars) == Val(Str(t), st.vars);
    assert Exec(rd, Body(t).head, st, fuel) == ExecFor(rd, "y", Cons(Break, Nil), [items], st, fuel);
    if t != "" {
      var st0 := State(st.vars["y" := items[0]], st.out);
      assert Exec(rd, Break, st0, fuel) == Done(Broke, st0, []);
      assert ExecBlock(rd, Cons(Break, Nil), st0, fuel) == Done(Broke, st0, []);
      assert [items][..0] + [items[1..]] + [] == [items[1..]];
    }
  }

  lemma BodyMeans(rd: Reading, t: string, item: Value, st: State, fuel: nat)
    requires fuel > 0 && !rd.Lowered?
    ensures var r := ExecBlock(rd, Body(t), State(st.vars["x" := item], st.out), fuel);
            && r.Done? && r.exit == Normal && r.st.out == st.out + Display(item) + "\n"
            && r.leaks == if rd.Compiled? && t != "" then [Items(Str(t))[1..]] else []
  {
    hide Exec, Items, Display;
    var st0 := State(st.vars["x" := item], st.out);
    var inner, show := Body(t).head, Body(t).tail.head;
    InnerMeans(rd, t, st0, fuel);
    var r := Exec(rd, inner, st0, fuel);
    ShowMeans(rd, item, r.st, fuel);
    var q := Exec(rd, show, r.st, fuel);
    assert ExecBlock(rd, Nil, q.st, fuel) == Done(Normal, q.st, []);
    assert ExecBlock(rd, Body(t).tail, r.st, fuel) == Done(Normal, q.st, []);
  }

  /** As documented, and whatever the reading if the inner loop has nothing to break out of, every item is
      printed. */
  lemma {:induction false} AllPrinted(rd: Reading, t: string, items: seq<Value>, st: State, fuel: nat)
    requires rd.Documented? || (rd.Compiled? && t == "")
    ensures var r := ExecFor(rd, "x", Body(t), [items], st, fuel);
            if fuel >= |items| then r.Done? && r.exit == Normal && r.st.out == st.out + Lines(items) && r.leaks == []
            else r.OutOfFuel?
    decreases fuel
  {
    hide ExecBlock, Display;
    if items != [] && fuel > 0 {
      BodyMeans(rd, t, items[0], st, fuel);
      var r := ExecBlock(rd, Body(t), State(st.vars["x" := items[0]], st.out), fuel);
      assert [items][..0] + [items[1..]] + [] == [items[1..]];
      AllPrinted(rd, t, items[1..], r.st, fuel - 1);
    }
  }

  /** With one item in the inner loop, the iterator left behind is exhausted: one item is printed. */
  lemma OnePrinted(t: string, items: seq<Value>, st: State, fuel: nat)
    requires |t| == 1 && items != []
    ensures var r := ExecFor(Compiled, "x", Body(t), [items], st, fuel);
            if fuel > 0 then r.Done? && r.exit == Normal && r.st.out == st.out + Display(items[0]) + "\n" else r.OutOfFuel?
  {
    hide ExecBlock, Display;
    if fuel > 0 {
      BodyMeans(Compiled, t, items[0], st, fuel);
      var r := ExecBlock(Compiled, Body(t), State(st.vars["x" := items[0]], st.out), fuel);
      assert Items(Str(t))[1..] == [];
      var its := [items[1..], []];
      assert [items][..0] + [items[1..]] + r.leaks == its;
      assert its[..1] == [items[1..]];
      assert ExecFor(Compiled, "x", Body(t), its, r.st, fuel - 1) == Done(Normal, r.st, [items[1..]]);
    }
  }

  /** With more, each round leaves an iterator that the next round goes on with: there is no end. */
  lemma {:induction false} NoEnd(t: string, its: seq<seq<Value>>, st: State, fuel: nat)
    requires |t| > 1 && its != [] && its[|its| - 1] != []
    ensures ExecFor(Compiled, "x", Body(t), its, st, fuel).OutOfFuel?
    decreases fuel
  {
    hide ExecBlock, Display;
    if fuel > 0 {
      var top := its[|its| - 1];
      BodyMeans(Compiled, t, top[0], st, fuel);
      var r := ExecBlock(Compiled, Body(t), State(st.vars["x" := top[0]], st.out), fuel);
      var its' := its[..|its| - 1] + [top[1..]] + r.leaks;
      assert its'[|its'| - 1] == Items(Str(t))[1..] && |Items(Str(t))[1..]| > 0;
      NoEnd(t, its', r.st, fuel - 1);
    }
  }

  lemma ProgramMeans(rd: Reading, s: string, t: string, fuel: nat)
    ensures var r := ExecFor(rd, "x", Body(t), [Items(Str(s))], EMPTY, fuel);
            ExecBlock(rd, Nested(s, t), EMPTY, fuel) == if r.Done? then AddLeaks(r.leaks, Done(Normal, r.st, [])) else r
  {
    hide ExecFor;
    var loop := Nested(s, t).head;
    var r := ExecFor(rd, "x", Body(t), [Items(Str(s))], EMPTY, fuel);
    assert Eval(rd, StrLit(s), EMPTY.vars) == Val(Str(s), EMPTY.vars);
    assert Exec(rd, loop, EMPTY, fuel) == r;
    ForExits(rd, "x", Body(t), [Items(Str(s))], EMPTY, fuel);
    if r.Done? {
      assert ExecBlock(rd, Nil, r.st, fuel) == Done(Normal, r.st, []);
    }
  }

  lemma NestedClosed(s: string, t: string)
    ensures ClosedBlock(Nested(s, t)) && PlainBlock(Body(t))
  {
    var inner, show := Body(t).head, Body(t).tail.head;
    assert Readings.Plain(inner) by {
      assert PlainBlock(Cons(Break, Nil)) && NoForBreakBlock(Cons(Break, Nil)) by {
        assert NoForBreakBlock(Nil);
      }
    }
    assert Readings.Plain(show) by {
      assert PlainExprs(Cons(Var("x"), Nil));
    }
    assert PlainBlock(Body(t).tail);
  }

  /** The machine comes to an end exactly if the outer loop has nothing to do or the inner one at most one
      item; the program always does. */
  lemma NestedStops(s: string, t: string)
    ensures ProgramStops(Documented, Nested(s, t))
    ensures MachineStops(Nested(s, t)) <==> s == "" || |t| <= 1
  {
    hide ExecBlock, ExecFor, ClosedBlock, MachineStops;
    var p, items := Nested(s, t), Items(Str(s));
    ProgramMeans(Documented, s, t, |s|);
    AllPrinted(Documented, t, items, EMPTY, |s|);
    assert !ExecBlock(Documented, p, EMPTY, |s|).OutOfFuel?;
    NestedClosed(s, t);
    ProgramKept(p);
    var enough := |s| + 1;
    ProgramMeans(Compiled, s, t, enough);
    if t == "" {
      AllPrinted(Compiled, t, items, EMPTY, enough);
      assert !ExecBlock(Compiled, p, EMPTY, enough).OutOfFuel?;
    } else if s == "" {
      EmptyLoop(t, EMPTY, enough);
      assert !ExecBlock(Compiled, p, EMPTY, enough).OutOfFuel?;
    } else if |t| == 1 {
      OnePrinted(t, items, EMPTY, enough);
      assert !ExecBlock(Compiled, p, EMPTY, enough).OutOfFuel?;
    } else {
      forall fuel: nat ensures ExecBlock(Compiled, p, EMPTY, fuel).OutOfFuel? {
        ProgramMeans(Compiled, s, t, fuel);
        NoEnd(t, [items], EMPTY, fuel);
      }
    }
  }

  lemma EmptyLoop(t: string, st: State, fuel: nat)
    ensures ExecFor(Compiled, "x", Body(t), [Items(Str(""))], st, fuel) == Done(Normal, st, [])
  {
    assert [Items(Str(""))][..0] == [];
  }

  lemma {:induction false} NoLeakWithout(items: seq<Value>, st: State, fuel: nat)
    ensures FirstLeak("x", Body(""), items, st, fuel).NoLeak?
    decreases fuel
  {
    hide ExecBlock;
    if items != [] && fuel > 0 {
      BodyMeans(Compiled, "", items[0], st, fuel);
      NoLeakWithout(items[1..], ExecBlock(Compiled, Body(""), State(st.vars["x" := items[0]], st.out), fuel).st, fuel - 1);
    }
  }

  /** Nothing to break out of, or nothing that comes after. */
  predicate Harmless(s: string, t: string) {
    s == "" || t == "" || (|s| == 1 && |t| == 1)
  }

  lemma LoopAgrees(s: string, t: string, fuel: nat)
    requires Harmless(s, t)
    ensures var items := Items(Str(s));
            Erased(ExecFor(Compiled, "x", Body(t), [items], EMPTY, fuel)) == ExecFor(Documented, "x", Body(t), [items], EMPTY, fuel)
  {
    hide ExecBlock;
    var items := Items(Str(s));
    NestedClosed(s, t);
    if s != "" && t == "" {
      NoLeakWithout(items, EMPTY, fuel);
      ForExact("x", Body(t), items, EMPTY, fuel);
    } else if s != "" && fuel > 0 {
      BodyMeans(Compiled, t, items[0], EMPTY, fuel);
      assert Items(Str(t))[1..] == [] && items[1..] == [];
      ForExhausted("x", Body(t), items, EMPTY, fuel);
      var k := FirstLeak("x", Body(t), items, EMPTY, fuel);
      assert k.left == [[]];
      assert [k.rest][..0] == [];
    }
  }

  lemma ProgramAgrees(s: string, t: string, fuel: nat)
    requires Harmless(s, t)
    ensures Erased(ExecBlock(Compiled, Nested(s, t), EMPTY, fuel)) == ExecBlock(Documented, Nested(s, t), EMPTY, fuel)
  {
    hide ExecFor, ExecBlock;
    LoopAgrees(s, t, fuel);
    ProgramMeans(Compiled, s, t, fuel);
    ProgramMeans(Documented, s, t, fuel);
  }

  lemma ErasedMatches(r: ExecResult, m: Status)
    requires Matches(Compiled, r, m)
    ensures Matches(Documented, Erased(r), m)
  {
  }

  /** One line against several. */
  lemma TooFewLines(s: string, t: string)
    requires |s| > 1 && |t| == 1 && MachineStops(Nested(s, t))
    ensures !SameOutcome(Documented, Nested(s, t))
  {
    hide ExecBlock, ExecFor, ClosedBlock, Run, ProgramCode, Display;
    var p, items := Nested(s, t), Items(Str(s));
    NestedClosed(s, t);
    ProgramKept(p);
    var n :| !Run(ProgramCode(p), Running(START), n).Running?;
    ProgramMeans(Compiled, s, t, |s|);
    OnePrinted(t, items, EMPTY, |s|);
    ProgramMeans(Documented, s, t, |s|);
    AllPrinted(Documented, t, items, EMPTY, |s|);
    var compiled, documented := ExecBlock(Compiled, p, EMPTY, |s|), ExecBlock(Documented, p, EMPTY, |s|);
    assert Matches(Compiled, compiled, Run(ProgramCode(p), Running(START), n));
    assert compiled.st.out == "" + Display(items[0]) + "\n" && documented.st.out == "" + Lines(items);
    assert items[1..] != [] && |Lines(items[1..])| > 0;
    assert !Matches(Documented, documented, Run(ProgramCode(p), Running(START), n));
  }

  /** And it does what is documented exactly if the break is harmless. */
  lemma NestedExact(s: string, t: string)
    ensures (MachineStops(Nested(s, t)) && SameOutcome(Documented, Nested(s, t))) <==> Harmless(s, t)
  {
    hide ExecBlock, ExecFor, ClosedBlock, MachineStops, Matches, Run, ProgramCode;
    var p := Nested(s, t);
    NestedStops(s, t);
    NestedClosed(s, t);
    ProgramKept(p);
    if Harmless(s, t) {
      forall n, fuel | !Run(ProgramCode(p), Running(START), n).Running? && !ExecBlock(Documented, p, EMPTY, fuel).OutOfFuel?
        ensures Matches(Documented, ExecBlock(Documented, p, EMPTY, fuel), Run(ProgramCode(p), Running(START), n))
      {
        ProgramAgrees(s, t, fuel);
        ErasedMatches(ExecBlock(Compiled, p, EMPTY, fuel), Run(ProgramCode(p), Running(START), n));
      }
    } else if |t| == 1 {
      TooFewLines(s, t);
    }
  }
}
