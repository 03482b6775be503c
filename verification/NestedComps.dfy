/** Comprehensions inside comprehensions collect their lists in one variable. Exactly when the list is
    right all the same, for one that is the iterable, the filter or the result of another. */
module NestedComps {
  import opened Values
  import opened Ast
  import opened Source
  import opened Exits
  import opened Readings
  import opened Bytecode
  import opened Layout
  import opened BytecodePrograms

  /** A comprehension empties the variable, so it does not matter what was there. */
  lemma StartsEmpty(e: Expr, st: Store, list: Value)
    requires e.Comprehension?
    ensures Eval(Compiled, e, st[TEMP := list]) == Eval(Compiled, e, st)
  {
    hide EvalComp, Items;
    assert st[TEMP := list][TEMP := List([])] == st[TEMP := List([])];
  }

  lemma LeavesList(e: Expr, st: Store)
    requires e.Comprehension?
    ensures var r := Eval(Documented, e, st); r.Val? ==> r.value.List? && r.st[TEMP := r.value] == r.st
  {
  }

  // ----- a comprehension to iterate over -----

  ghost predicate InnerIterated(e: Expr) {
    e.Comprehension? && PlainRound(e) && e.iterable.Comprehension? && PlainExpr(e.iterable)
  }

  /** The outer list is appended to the inner one. */
  function Appended(e: Expr, st: Store): EvalResult<Value>
    requires e.Comprehension?
  {
    match Eval(Documented, e.iterable, st)
    case Fail(err) => Fail(err)
    case Val(inner, st1) =>
      match EvalComp(Documented, e, Items(inner), st1)
      case Fail(err) => Fail(err)
      case Val(outer, st2) =>
        var all := List(Items(inner) + outer);
        Val(all, st2[TEMP := all])
  }

  lemma AppendedMeans(e: Expr, st: Store)
    requires InnerIterated(e)
    ensures Eval(Compiled, e, st) == Appended(e, st)
  {
    hide EvalComp, PlainExpr, PlainRound;
    StartsEmpty(e.iterable, st, List([]));
    ExprAgrees(e.iterable, st);
    LeavesList(e.iterable, st);
    assert Eval(Compiled, e.iterable, st[TEMP := List([])]) == Eval(Documented, e.iterable, st);
    var inner := Eval(Documented, e.iterable, st);
    if inner.Val? {
      CompAgrees(e, Items(inner.value), inner.st, Items(inner.value));
    }
  }

  /** Right exactly if the inner list is empty, or the evaluation fails. */
  lemma AppendedExact(e: Expr, st: Store)
    requires InnerIterated(e)
    ensures Eval(Compiled, e, st) == Eval(Documented, e, st)
       <==> var inner := Eval(Documented, e.iterable, st);
            inner.Val? && Eval(Documented, e, st).Val? ==> Items(inner.value) == []
  {
    hide EvalComp;
    AppendedMeans(e, st);
    var inner := Eval(Documented, e.iterable, st);
    if inner.Val? {
      var items := Items(inner.value);
      var outer := EvalComp(Documented, e, items, inner.st);
      if outer.Val? {
        assert |items + outer.value| == |items| + |outer.value|;
        assert items == [] ==> items + outer.value == outer.value;
        assert Eval(Documented, e, st).value == List(outer.value);
      }
    }
  }

  // ----- a comprehension for each item -----

  ghost predicate InnerResult(e: Expr) {
    && e.Comprehension? && e.name != TEMP && e.result.Comprehension? && PlainExpr(e.result)
    && PlainExpr(e.iterable) && Detached(e.iterable)
    && PlainOpt(e.filter) && (e.filter.Some? ==> Detached(e.filter.value))
  }

  /** What the variable holds when the lists `vs` should have been collected: the items of the last one,
      and the last one itself. */
  function Overwritten(vs: seq<Value>): seq<Value> {
    if vs == [] then [] else Items(vs[|vs| - 1]) + [vs[|vs| - 1]]
  }

  lemma OverwrittenMore(vs: seq<Value>, ws: seq<Value>)
    ensures ws != [] ==> Overwritten(vs + ws) == Overwritten(ws)
    ensures vs + [] == vs
  {
    if ws != [] {
      assert (vs + ws)[|vs + ws| - 1] == ws[|ws| - 1];
    }
  }

  function OverwrittenBy(r: EvalResult<seq<Value>>, vs: seq<Value>): EvalResult<seq<Value>> {
    match r
    case Fail(err) => Fail(err)
    case Val(ws, st) => Val(ws, st[TEMP := List(Overwritten(vs + ws))])
  }

  lemma OverwrittenItem(e: Expr, item: Value, st: Store, vs: seq<Value>)
    requires InnerResult(e)
    ensures CompItem(Compiled, e, item, st[TEMP := List(Overwritten(vs))]) == OverwrittenBy(CompItem(Documented, e, item, st), vs)
  {
    hide Eval, PlainExpr, Truthy;
    var st0, list := st[e.name := item], List(Overwritten(vs));
    assert st[TEMP := list][e.name := item] == st0[TEMP := list];
    FilterAgrees(e.filter, st0, list);
    OverwrittenMore(vs, []);
    var f := FilterItem(Documented, e.filter, st0);
    if f.Val? && Truthy(f.value) {
      StartsEmpty(e.result, st0, list);
      ExprAgrees(e.result, st0);
      LeavesList(e.result, st0);
      var v := Eval(Documented, e.result, st0);
      if v.Val? {
        OverwrittenOnce(v.st, v.value, vs);
      }
    }
  }

  lemma OverwrittenOnce(st: Store, v: Value, vs: seq<Value>)
    requires v.List? && st[TEMP := v] == st
    ensures Grown(Get(st, TEMP), v) == List(Overwritten(vs + [v]))
  {
    OverwrittenMore(vs, [v]);
    assert Get(st[TEMP := v], TEMP) == v;
  }

  lemma {:induction false} OverwrittenItems(e: Expr, items: seq<Value>, st: Store, vs: seq<Value>)
    requires e.Comprehension? && InnerResult(e)
    ensures EvalComp(Compiled, e, items, st[TEMP := List(Overwritten(vs))])
         == OverwrittenBy(EvalComp(Documented, e, items, st), vs)
    decreases |items|
  {
    hide CompItem, InnerResult, Overwritten;
    if items == [] {
      assert vs + [] == vs;
    } else {
      OverwrittenItem(e, items[0], st, vs);
      var r := CompItem(Documented, e, items[0], st);
      if r.Val? {
        OverwrittenItems(e, items[1..], r.st, vs + r.value);
        var rest := EvalComp(Documented, e, items[1..], r.st);
        if rest.Val? {
          assert vs + r.value + rest.value == vs + (r.value + rest.value);
        }
      }
    }
  }

  /** The lists that should have been collected. */
  function Lists(e: Expr, st: Store): EvalResult<seq<Value>>
    requires e.Comprehension?
  {
    match Eval(Documented, e.iterable, st)
    case Fail(err) => Fail(err)
    case Val(v, st1) => EvalComp(Documented, e, Items(v), st1)
  }

  lemma OverwrittenMeans(e: Expr, st: Store)
    requires InnerResult(e)
    ensures var r := Lists(e, st);
            Eval(Compiled, e, st)
            == if r.Fail? then Fail(r.error)
               else Val(List(Overwritten(r.value)), r.st[TEMP := List(Overwritten(r.value))])
  {
    hide EvalComp, PlainExpr;
    DetachedAgrees(e.iterable, st, List([]));
    var v := Eval(Documented, e.iterable, st);
    if v.Val? {
      OverwrittenItems(e, Items(v.value), st, []);
      var r := EvalComp(Documented, e, Items(v.value), st);
      if r.Val? {
        assert [] + r.value == r.value;
      }
    }
  }

  /** Right exactly if the items of the last list are the lists before it, or the evaluation fails. */
  lemma OverwrittenExact(e: Expr, st: Store)
    requires e.Comprehension? && InnerResult(e)
    ensures Eval(Compiled, e, st) == Eval(Documented, e, st)
       <==> var r := Lists(e, st);
            r.Val? && r.value != [] ==> var n := |r.value| - 1; Items(r.value[n]) == r.value[..n]
  {
    hide EvalComp, InnerResult;
    OverwrittenMeans(e, st);
    var r := Lists(e, st);
    if r.Val? {
      var vs := r.value;
      assert Eval(Documented, e, st) == Val(List(vs), r.st[TEMP := List(vs)]);
      if vs != [] {
        var last := vs[|vs| - 1];
        assert vs == vs[..|vs| - 1] + [last];
        assert Overwritten(vs)[..|Overwritten(vs)| - 1] == Items(last);
      }
    }
  }

  // ----- a comprehension to filter by -----

  ghost predicate InnerFilter(e: Expr) {
    && e.Comprehension? && e.name != TEMP && e.filter.Some? && e.filter.value.Comprehension? && PlainExpr(e.filter.value)
    && PlainExpr(e.iterable) && Detached(e.iterable) && PlainExpr(e.result) && Detached(e.result)
  }

  /** What one round leaves: the list it is filtered by, and then its own contribution. */
  function RoundLeaves(e: Expr, item: Value, st: Store): EvalResult<seq<Value>>
    requires e.Comprehension?
  {
    match FilterItem(Documented, e.filter, st[e.name := item])
    case Fail(err) => Fail(err)
    case Val(f, _) =>
      match CompItem(Documented, e, item, st)
      case Fail(err) => Fail(err)
      case Val(ws, st1) => Val(Items(f) + ws, st1)
  }

  lemma FilteredItem(e: Expr, item: Value, st: Store, list: Value)
    requires InnerFilter(e)
    ensures var r, d := RoundLeaves(e, item, st), CompItem(Documented, e, item, st);
            && (r.Fail? <==> d.Fail?) && (r.Val? ==> d.st == r.st)
            && CompItem(Compiled, e, item, st[TEMP := list])
               == if d.Fail? then d else Val(d.value, d.st[TEMP := List(r.value)])
  {
    hide Eval, PlainExpr;
    var st0 := st[e.name := item];
    assert st[TEMP := list][e.name := item] == st0[TEMP := list];
    StartsEmpty(e.filter.value, st0, list);
    ExprAgrees(e.filter.value, st0);
    LeavesList(e.filter.value, st0);
    var f := Eval(Documented, e.filter.value, st0);
    if f.Val? {
      if Truthy(f.value) {
        DetachedAgrees(e.result, f.st, f.value);
      } else {
        assert Items(f.value) + [] == [];
      }
    }
  }

  /** What the last round leaves. */
  function LastLeaves(e: Expr, items: seq<Value>, st: Store, before: seq<Value>): seq<Value>
    requires e.Comprehension?
    decreases |items|
  {
    if items == [] then before
    else
      match RoundLeaves(e, items[0], st)
      case Fail(_) => []
      case Val(vs, st1) => LastLeaves(e, items[1..], st1, vs)
  }

  lemma {:induction false} FilteredItems(e: Expr, items: seq<Value>, st: Store, before: seq<Value>)
    requires e.Comprehension? && InnerFilter(e)
    ensures var d := EvalComp(Documented, e, items, st);
            EvalComp(Compiled, e, items, st[TEMP := List(before)])
            == if d.Fail? then d else Val(d.value, d.st[TEMP := List(LastLeaves(e, items, st, before))])
    decreases |items|
  {
    hide CompItem, InnerFilter, RoundLeaves;
    if items != [] {
      FilteredItem(e, items[0], st, List(before));
      var r := RoundLeaves(e, items[0], st);
      if r.Val? {
        FilteredItems(e, items[1..], r.st, r.value);
      }
    }
  }

  /** Right exactly if the list is what the last round leaves, or the evaluation fails. */
  lemma FilteredExact(e: Expr, st: Store)
    requires e.Comprehension? && InnerFilter(e)
    ensures Eval(Compiled, e, st) == Eval(Documented, e, st)
       <==> var v, r := Eval(Documented, e.iterable, st), Lists(e, st);
            r.Val? ==> LastLeaves(e, Items(v.value), v.st, []) == r.value
  {
    hide EvalComp, PlainExpr, LastLeaves, Items;
    DetachedAgrees(e.iterable, st, List([]));
    var v := Eval(Documented, e.iterable, st);
    if v.Val? {
      FilteredItems(e, Items(v.value), st, []);
      var r := EvalComp(Documented, e, Items(v.value), st);
      if r.Val? {
        var all := List(LastLeaves(e, Items(v.value), st, []));
        assert Eval(Compiled, e, st) == Val(all, r.st[TEMP := all]);
        assert Eval(Documented, e, st) == Val(List(r.value), r.st[TEMP := List(r.value)]);
      }
    }
  }

  // ----- a program -----

  // [y for y in s]
  function Letters(s: string): Expr {
    Comprehension(Var("y"), "y", StrLit(s), None)
  }

  // [x for x in [y for y in s]]
  function Twice(s: string): Expr {
    Comprehension(Var("x"), "x", Letters(s), None)
  }

  lemma {:induction false} CopyMeans(e: Expr, items: seq<Value>, st: Store)
    requires e.Comprehension? && e.result == Var(e.name) && e.filter == None
    ensures var r := EvalComp(Documented, e, items, st); r.Val? && r.value == items
    decreases |items|
  {
    if items != [] {
      var st1 := st[e.name := items[0]];
      assert FilterItem(Documented, None, st1) == Val(Bool(true), st1);
      assert Eval(Documented, Var(e.name), st1) == Val(items[0], st1);
      assert CompItem(Documented, e, items[0], st) == Val([items[0]], st1);
      CopyMeans(e, items[1..], st1);
      assert [items[0]] + items[1..] == items;
    }
  }

  /** Every text comes out twice: `"ab"` as a, b, a, b. */
  lemma TwiceDoubles(s: string, st: Store)
    ensures var items, d, c := Items(Str(s)), Eval(Documented, Twice(s), st), Eval(Compiled, Twice(s), st);
            d.Val? && d.value == List(items) && c.Val? && c.value == List(items + items)
  {
    var items := Items(Str(s));
    assert Eval(Documented, StrLit(s), st) == Val(Str(s), st);
    CopyMeans(Letters(s), items, st);
    var inner := Eval(Documented, Letters(s), st);
    assert inner.Val? && inner.value == List(items);
    CopyMeans(Twice(s), items, inner.st);
    TwicePlain(s);
    AppendedMeans(Twice(s), st);
  }

  // println, [x for x in [y for y in s]]
  function PrintTwice(s: string): Block {
    Cons(Println(Cons(Twice(s), Nil)), Nil)
  }

  lemma PrintMeans(rd: Reading, s: string, fuel: nat)
    requires !rd.Lowered?
    ensures var items, r := Items(Str(s)), ExecBlock(rd, PrintTwice(s), EMPTY, fuel);
            && r.Done? && r.leaks == [] && Eval(rd, Twice(s), map[]).Val? && r.st.vars == Eval(rd, Twice(s), map[]).st
            && r.st.out == Display(List(if rd.Compiled? then items + items else items)) + "\n"
  {
    hide Eval, Display;
    TwiceDoubles(s, map[]);
    var v := Eval(rd, Twice(s), map[]);
    var st1 := State(v.st, "" + Shown(rd, v.value));
    assert Print(rd, Nil, st1) == Done(Normal, st1, []);
    assert Print(rd, Cons(Twice(s), Nil), EMPTY) == Done(Normal, st1, []);
    var st2 := State(v.st, st1.out + "\n");
    assert Exec(rd, PrintTwice(s).head, EMPTY, fuel) == Done(Normal, st2, []);
    assert ExecBlock(rd, Nil, st2, fuel) == Done(Normal, st2, []);
  }

  lemma {:induction false} LettersLength(p: Value, xs: seq<Value>)
    requires forall k :: 0 <= k < |xs| ==> xs[k] < p && xs[k].Str? && |xs[k].s| == 1
    ensures |DisplayAll(p, xs)| == if |xs| == 0 then 0 else 3 * |xs| - 2
    decreases |xs|
  {
    if |xs| > 1 {
      LettersLength(p, xs[1..]);
    }
  }

  lemma ListLength(xs: seq<Value>)
    requires forall k :: 0 <= k < |xs| ==> xs[k].Str? && |xs[k].s| == 1
    ensures |Display(List(xs))| == if |xs| == 0 then 2 else 3 * |xs|
  {
    LettersLength(List(xs), xs);
  }

  /** The program that prints it always comes to an end, and prints what is documented exactly for the
      empty text. */
  lemma PrintTwiceExact(s: string)
    ensures MachineStops(PrintTwice(s))
    ensures SameOutcome(Documented, PrintTwice(s)) <==> s == ""
  {
    hide ExecBlock, Run, ProgramCode, Display, Matches, Eval;
    var p, items := PrintTwice(s), Items(Str(s));
    assert ClosedBlock(p.tail);
    ProgramKept(p);
    PrintMeans(Compiled, s, 0);
    PrintMeans(Documented, s, 0);
    var c, d := ExecBlock(Compiled, p, EMPTY, 0), ExecBlock(Documented, p, EMPTY, 0);
    assert !c.OutOfFuel?;
    var n :| !Run(ProgramCode(p), Running(START), n).Running?;
    if s == "" {
      TwicePlain(s);
      TwiceDoubles(s, map[]);
      AppendedEmpty(s);
      forall m, fuel | !Run(ProgramCode(p), Running(START), m).Running? && !ExecBlock(Documented, p, EMPTY, fuel).OutOfFuel?
        ensures Matches(Documented, ExecBlock(Documented, p, EMPTY, fuel), Run(ProgramCode(p), Running(START), m))
      {
        PrintMeans(Compiled, s, fuel);
        PrintMeans(Documented, s, fuel);
        assert items + items == items;
        MatchesEither(ExecBlock(Compiled, p, EMPTY, fuel), ExecBlock(Documented, p, EMPTY, fuel), Run(ProgramCode(p), Running(START), m));
      }
    } else {
      ListLength(items);
      ListLength(items + items);
      Distinguished(c, d, Run(ProgramCode(p), Running(START), n));
    }
  }

  lemma AppendedEmpty(s: string)
    requires s == ""
    ensures Eval(Compiled, Twice(s), map[]) == Eval(Documented, Twice(s), map[])
  {
    TwicePlain(s);
    AppendedExact(Twice(s), map[]);
    assert Eval(Documented, StrLit(s), map[]) == Val(Str(s), map[]);
    CopyMeans(Letters(s), [], map[]);
  }

  lemma MatchesEither(c: ExecResult, d: ExecResult, m: Status)
    requires Matches(Compiled, c, m) && c.Done? && d.Done? && d.st == c.st
    ensures Matches(Documented, d, m)
  {
  }

  lemma Distinguished(c: ExecResult, d: ExecResult, m: Status)
    requires Matches(Compiled, c, m) && c.Done? && d.Done? && d.st.out != c.st.out
    ensures !Matches(Documented, d, m)
  {
  }

  lemma TwicePlain(s: string)
    ensures InnerIterated(Twice(s))
  {
    assert PlainExpr(Var("x")) && PlainExpr(Var("y")) && PlainExpr(StrLit(s)) && Detached(StrLit(s));
    assert PlainRound(Letters(s));
  }
}
