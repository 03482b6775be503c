/** When the rounds over the class table end too early, and when they never end: exactly, for a family of
    modules whose parents come later and for modules that define one class again and again. */
module LinkOrders {
  import opened Values
  import opened LinkTable

  function Plain(name: string): ClassDef {
    ClassDef(name, Nothing, [])
  }

  lemma CollectTwo(a: ClassDef, b: ClassDef, t: Table)
    requires a.name != b.name
    ensures Collect([a, b], t) == Install(Install(t, a, ParentOf(a)), b, ParentOf(b))
  {
    assert [a, b][..1] == [a] && [a][..0] == [];
    assert Parents([a]) == map[a.name := ParentOf(a)];
    assert Parents([a, b]) == Parents([a])[b.name := ParentOf(b)];
    assert CollectUpTo([a, b], t, 1) == Install(t, a, ParentOf(a));
  }

  lemma CollectOne(a: ClassDef, t: Table)
    ensures Collect([a], t) == Install(t, a, ParentOf(a))
  {
    assert [a][..0] == [];
    assert Parents([a]) == map[a.name := ParentOf(a)];
    assert CollectUpTo([a], t, 0) == t;
  }

  /** One visit, if the name is declared once. */
  lemma {:induction false} OneDecl(p: seq<ClassDef>, name: string, s: State, k: nat, n: nat)
    requires k < |p| && n <= |p| && (forall i :: 0 <= i < |p| ==> (p[i].name == name <==> i == k))
    ensures VisitDecls(p, name, s, n) == if n > k then Visit(p, name, s) else s
  {
    if n > 0 {
      OneDecl(p, name, s, k, n - 1);
    }
  }

  lemma {:induction false} NoDecl(p: seq<ClassDef>, name: string, s: State, n: nat)
    requires n <= |p| && (forall i :: 0 <= i < |p| ==> p[i].name != name)
    ensures VisitDecls(p, name, s, n) == s
  {
    if n > 0 {
      NoDecl(p, name, s, n - 1);
    }
  }

  lemma {:induction false} OneModule(programs: seq<seq<ClassDef>>, name: string, s: State, j: nat, k: nat, n: nat)
    requires j < |programs| && k < |programs[j]| && n <= |programs|
    requires forall a, b :: 0 <= a < |programs| && 0 <= b < |programs[a]| ==> (programs[a][b].name == name <==> a == j && b == k)
    ensures VisitModules(programs, name, s, n) == if n > j then Visit(programs[j], name, s) else s
  {
    if n > 0 {
      OneModule(programs, name, s, j, k, n - 1);
      var p, s' := programs[n - 1], VisitModules(programs, name, s, n - 1);
      if n - 1 == j {
        OneDecl(p, name, s', k, |p|);
      } else {
        NoDecl(p, name, s', |p|);
      }
    }
  }

  lemma PutSingle(h: Entry)
    ensures PutAll([], [h]) == [h]
  {
    assert [h][..0] == [];
  }

  // ----- parents in later modules -----

  /** Five classes and a method. */
  datatype Family = Family(x: string, c: string, w: string, d: string, y: string, h: Entry)

  /** `c` inherits from `d` of a later module, and `d` from `y` of a still later one. */
  function Staggered(f: Family): seq<seq<ClassDef>> {
    [[Plain(f.x), ClassDef(f.c, Named(f.d), [])], [Plain(f.w), ClassDef(f.d, Named(f.y), [])], [ClassDef(f.y, Nothing, [f.h])]]
  }

  predicate Apart(f: Family) {
    && f.x != f.c && f.x != f.w && f.x != f.d && f.x != f.y && f.c != f.w && f.c != f.d && f.c != f.y
    && f.w != f.d && f.w != f.y && f.d != f.y
  }

  function Names(f: Family): set<string> {
    {f.x, f.c, f.w, f.d, f.y}
  }

  /** How far the method has come, and whether a visit has seen a class gain it. */
  datatype Progress = Progress(d: bool, c: bool, seen: bool)

  const START: Progress := Progress(false, false, false)

  function If(b: bool, h: Entry): seq<Entry> {
    if b then [h] else []
  }

  function TableOf(f: Family, d: bool, c: bool): Table {
    map[f.x := Meta(None, []), f.c := Meta(Some(f.d), If(c, f.h)), f.w := Meta(None, []), f.d := Meta(Some(f.y), If(d, f.h)),
        f.y := Meta(None, [f.h])]
  }

  function StateOf(f: Family, s: Progress): State {
    State(TableOf(f, s.d, s.c), s.seen)
  }

  /** A visit passes over the whole module but looks at the class alone. */
  function Moved(f: Family, name: string, s: Progress): Progress {
    if name == f.x then s.(c := s.d)
    else if name == f.c then Progress(s.d, s.d, s.seen || (s.d && !s.c))
    else if name == f.w then s.(d := true)
    else if name == f.d then Progress(true, s.c, s.seen || !s.d)
    else s
  }

  function MovedBy(f: Family, names: seq<string>, s: Progress, n: nat): Progress
    requires n <= |names|
  {
    if n == 0 then s else Moved(f, names[n - 1], MovedBy(f, names, s, n - 1))
  }

  lemma FirstModule(f: Family, t: Table)
    requires Apart(f)
    ensures Collect(Staggered(f)[0], t) == t[f.x := Meta(None, [])][f.c := Meta(Some(f.d), Inherited(t, Some(f.d)))]
  {
    var p := Staggered(f)[0];
    CollectTwo(p[0], p[1], t);
  }

  lemma SecondModule(f: Family, t: Table)
    requires Apart(f)
    ensures Collect(Staggered(f)[1], t) == t[f.w := Meta(None, [])][f.d := Meta(Some(f.y), Inherited(t, Some(f.y)))]
  {
    var p := Staggered(f)[1];
    CollectTwo(p[0], p[1], t);
  }

  lemma ThirdModule(f: Family, t: Table)
    ensures Collect(Staggered(f)[2], t) == t[f.y := Meta(None, [f.h])]
  {
    CollectOne(Staggered(f)[2][0], t);
    PutSingle(f.h);
  }

  lemma Three(f: Family)
    ensures |Staggered(f)| == 3
  {
  }

  lemma FirstTable(f: Family)
    requires Apart(f)
    ensures FirstPass(Staggered(f), 3) == TableOf(f, false, false)
  {
    hide Collect, Staggered;
    var programs := Staggered(f);
    Three(f);
    FirstModule(f, map[]);
    assert FirstPass(programs, 1) == Collect(programs[0], FirstPass(programs, 0));
    SecondModule(f, FirstPass(programs, 1));
    assert FirstPass(programs, 2) == Collect(programs[1], FirstPass(programs, 1));
    ThirdModule(f, FirstPass(programs, 2));
  }

  lemma PassFirst(f: Family, s: Progress)
    requires Apart(f)
    ensures Collect(Staggered(f)[0], TableOf(f, s.d, s.c)) == TableOf(f, s.d, s.d)
  {
    hide Collect;
    FirstModule(f, TableOf(f, s.d, s.c));
  }

  lemma PassSecond(f: Family, s: Progress)
    requires Apart(f)
    ensures Collect(Staggered(f)[1], TableOf(f, s.d, s.c)) == TableOf(f, true, s.c)
  {
    hide Collect;
    SecondModule(f, TableOf(f, s.d, s.c));
  }

  lemma PassThird(f: Family, s: Progress)
    requires Apart(f)
    ensures Collect(Staggered(f)[2], TableOf(f, s.d, s.c)) == TableOf(f, s.d, s.c)
  {
    hide Collect;
    ThirdModule(f, TableOf(f, s.d, s.c));
  }

  lemma Sizes(f: Family, s: Progress)
    requires Apart(f)
    ensures var t := TableOf(f, s.d, s.c);
            && Size(t, f.x) == 0 && Size(t, f.w) == 0 && Size(t, f.y) == 1
            && Size(t, f.c) == (if s.c then 1 else 0) && Size(t, f.d) == if s.d then 1 else 0
  {
  }

  lemma VisitMoves(f: Family, name: string, s: Progress)
    requires Apart(f) && name in Names(f)
    ensures VisitModules(Staggered(f), name, StateOf(f, s), 3) == StateOf(f, Moved(f, name, s))
  {
    hide Collect, VisitModules, TableOf, Size, Apart;
    var st, s' := StateOf(f, s), Moved(f, name, s);
    var j := if name == f.x || name == f.c then 0 else if name == f.w || name == f.d then 1 else 2;
    OnePlace(f, name);
    OneModule(Staggered(f), name, st, j, if name == f.c || name == f.d then 1 else 0, 3);
    PassFirst(f, s);
    PassSecond(f, s);
    PassThird(f, s);
    Sizes(f, s);
    Sizes(f, s');
  }

  lemma OnePlace(f: Family, name: string)
    requires Apart(f) && name in Names(f)
    ensures var j := if name == f.x || name == f.c then 0 else if name == f.w || name == f.d then 1 else 2;
            var k := if name == f.c || name == f.d then 1 else 0;
            var p := Staggered(f);
            && |p| == 3 && k < |p[j]|
            && forall a, b :: 0 <= a < |p| && 0 <= b < |p[a]| ==> (p[a][b].name == name <==> a == j && b == k)
  {
  }

  lemma {:induction false} NamesMove(f: Family, names: seq<string>, s: Progress, n: nat)
    requires Apart(f) && n <= |names| && forall m :: m in names ==> m in Names(f)
    ensures VisitNames(Staggered(f), names, StateOf(f, s), n) == StateOf(f, MovedBy(f, names, s, n))
  {
    hide VisitModules, StateOf, Moved, Staggered, Apart;
    if n > 0 {
      NamesMove(f, names, s, n - 1);
      VisitMoves(f, names[n - 1], MovedBy(f, names, s, n - 1));
      Three(f);
    }
  }

  // ----- orders of visits -----

  /** Every class once. */
  ghost predicate Lists(names: seq<string>, all: set<string>) {
    && |names| == |all| && (forall i, j :: 0 <= i < j < |names| ==> names[i] != names[j])
    && (forall n :: n in names <==> n in all)
  }

  predicate Precedes(names: seq<string>, a: string, b: string) {
    exists i, j :: 0 <= i < j < |names| && names[i] == a && names[j] == b
  }

  /** `d` gains its method on a visit to `w`, unseen, when the visits that would have passed it on to `c`
      are over. */
  predicate Unseen(f: Family, names: seq<string>) {
    Precedes(names, f.x, f.w) && Precedes(names, f.c, f.w) && Precedes(names, f.w, f.d)
  }

  /** Where the classes stand in the order. */
  datatype Places = Places(x: nat, c: nat, w: nat, d: nat)

  ghost predicate At(f: Family, names: seq<string>, p: Places) {
    && p.x < |names| && names[p.x] == f.x && p.c < |names| && names[p.c] == f.c
    && p.w < |names| && names[p.w] == f.w && p.d < |names| && names[p.d] == f.d
  }

  lemma PlacesOf(f: Family, names: seq<string>) returns (p: Places)
    requires Lists(names, Names(f))
    ensures At(f, names, p) && (Unseen(f, names) <==> p.x < p.w && p.c < p.w && p.w < p.d)
  {
    assert f.x in names && f.c in names && f.w in names && f.d in names;
    var i :| 0 <= i < |names| && names[i] == f.x;
    var j :| 0 <= j < |names| && names[j] == f.c;
    var k :| 0 <= k < |names| && names[k] == f.w;
    var l :| 0 <= l < |names| && names[l] == f.d;
    p := Places(i, j, k, l);
  }

  /** The first round, visit by visit. */
  lemma {:induction false} RoundFacts(f: Family, names: seq<string>, p: Places, n: nat)
    requires Apart(f) && Lists(names, Names(f)) && At(f, names, p) && n <= |names|
    ensures var s := MovedBy(f, names, START, n);
            && (s.d <==> p.w < n || p.d < n) && (s.c ==> s.d)
            && (p.d < p.w && p.d < n ==> s.seen)
            && (p.w < p.x < n || p.w < p.c < n ==> s.c)
            && (p.x < p.w && p.c < p.w && p.w < p.d ==> !s.c && !s.seen)
  {
    hide Lists;
    if n > 0 {
      RoundFacts(f, names, p, n - 1);
      OnlyThere(f, names, p, n - 1);
    }
  }

  lemma OnlyThere(f: Family, names: seq<string>, p: Places, k: nat)
    requires Lists(names, Names(f)) && At(f, names, p) && k < |names|
    ensures (names[k] == f.x <==> k == p.x) && (names[k] == f.c <==> k == p.c)
    ensures (names[k] == f.w <==> k == p.w) && (names[k] == f.d <==> k == p.d)
  {
  }

  /** After a round that ends without a class seen to gain the method, `c` has it unless it went unseen. */
  lemma FirstRound(f: Family, names: seq<string>)
    requires Apart(f) && Lists(names, Names(f))
    ensures var s := MovedBy(f, names, START, |names|);
            s.d && (s.c ==> s.d) && if Unseen(f, names) then !s.c && !s.seen else s.c || s.seen
  {
    hide MovedBy, Unseen;
    var p := PlacesOf(f, names);
    RoundFacts(f, names, p, |names|);
    assert p.w != p.x && p.w != p.c && p.w != p.d;
  }

  /** Once `d` has the method, a round passes it on to `c`. */
  lemma {:induction false} LaterRound(f: Family, names: seq<string>, p: Places, c: bool, n: nat)
    requires Apart(f) && Lists(names, Names(f)) && At(f, names, p) && n <= |names|
    ensures var s := MovedBy(f, names, Progress(true, c, false), n); s.d && (c || p.x < n ==> s.c)
  {
    hide Lists;
    if n > 0 {
      LaterRound(f, names, p, c, n - 1);
    }
  }

  // ----- all rounds -----

  lemma KeysOf(f: Family, d: bool, c: bool)
    ensures TableOf(f, d, c).Keys == Names(f)
  {
  }

  ghost predicate Orderly(f: Family, order: Order) {
    forall k: nat :: Lists(order(k, Names(f)), Names(f))
  }

  lemma RoundMoves(f: Family, names: seq<string>, d: bool, c: bool)
    requires Apart(f) && Lists(names, Names(f))
    ensures Round(Staggered(f), names, TableOf(f, d, c)) == StateOf(f, MovedBy(f, names, Progress(d, c, false), |names|))
  {
    hide VisitNames, MovedBy, Staggered, Apart;
    NamesMove(f, names, Progress(d, c, false), |names|);
  }

  /** The tables after the rounds: the method reaches `d` in the first one, and `c` in the second at the
      latest. */
  lemma {:induction false} Tables(f: Family, order: Order, k: nat)
    requires Apart(f) && Orderly(f, order)
    ensures var r := MovedBy(f, order(0, Names(f)), START, |order(0, Names(f))|);
            After(Staggered(f), order, k) == if k == 0 then TableOf(f, false, false) else TableOf(f, true, k > 1 || r.c)
    decreases k
  {
    hide Round, Staggered, MovedBy, TableOf, Apart, Lists, Unseen;
    if k == 0 {
      FirstTable(f);
      Three(f);
    } else {
      Tables(f, order, k - 1);
      var names := order(k - 1, Names(f));
      var r := MovedBy(f, order(0, Names(f)), START, |order(0, Names(f))|);
      KeysOf(f, k > 1, k > 2 || (k > 1 && r.c));
      RoundMoves(f, names, k > 1, k > 2 || (k > 1 && r.c));
      if k == 1 {
        FirstRound(f, names);
      } else {
        var p := PlacesOf(f, names);
        LaterRound(f, names, p, k > 2 || r.c, |names|);
      }
    }
  }

  lemma CompleteIf(f: Family, c: bool)
    requires Apart(f)
    ensures Complete(Staggered(f), TableOf(f, true, c)) <==> c
  {
    var programs, t := Staggered(f), TableOf(f, true, c);
    PutSingle(f.h);
    assert forall ms :: PutAll(ms, []) == ms;
    if c {
      forall p, k | p in programs && k in p ensures UpToDate(t, k) {
      }
    } else {
      assert programs[0] in programs && programs[0][1] in programs[0];
      assert !UpToDate(t, programs[0][1]);
    }
  }

  /** Whatever the order of the visits: the final table is up to date exactly if in the first round it is
      not so that `x` and `c` are visited before `w`, and `w` before `d`. */
  lemma StaleExact(f: Family, order: Order, k: nat)
    requires Apart(f) && Orderly(f, order) && Stops(Staggered(f), order, k)
    ensures Complete(Staggered(f), After(Staggered(f), order, k + 1)) <==> !Unseen(f, order(0, Names(f)))
  {
    hide Round, Staggered, MovedBy, TableOf, Apart, Complete, Unseen;
    var names := order(0, Names(f));
    Tables(f, order, k + 1);
    FirstRound(f, names);
    var r := MovedBy(f, names, START, |names|);
    CompleteIf(f, k > 0 || r.c);
    Tables(f, order, 0);
    KeysOf(f, false, false);
    RoundMoves(f, names, false, false);
    assert Ends(Staggered(f), order, 0) <==> !r.seen;
  }

  // ----- one class defined again and again -----

  /** In every module the class `a` has other methods. */
  function Redefined(a: string, lists: seq<seq<Entry>>): seq<seq<ClassDef>> {
    seq(|lists|, i requires 0 <= i < |lists| => [ClassDef(a, Nothing, lists[i])])
  }

  function TableWith(a: string, own: seq<Entry>): Table {
    map[a := Meta(None, PutAll([], own))]
  }

  /** The definition that stands in the table when the pass comes to the `n`-th module. */
  function Current(lists: seq<seq<Entry>>, n: nat): seq<Entry>
    requires n <= |lists| && lists != []
  {
    if n == 0 then lists[|lists| - 1] else lists[n - 1]
  }

  /** One of the first `n` modules has a definition with more methods than the one before it, the last one
      standing before the first. */
  predicate Longer(lists: seq<seq<Entry>>, n: nat)
    requires n <= |lists| && lists != []
  {
    exists i :: 0 <= i < n && |PutAll([], lists[i])| > |PutAll([], Current(lists, i))|
  }

  lemma DefinePass(a: string, ms: seq<Entry>, t: Table)
    requires t.Keys == {a}
    ensures Collect([ClassDef(a, Nothing, ms)], t) == TableWith(a, ms)
  {
    hide Collect;
    CollectOne(ClassDef(a, Nothing, ms), t);
  }

  lemma {:induction false} DefineModules(a: string, lists: seq<seq<Entry>>, n: nat)
    requires lists != [] && n <= |lists|
    ensures VisitModules(Redefined(a, lists), a, State(TableWith(a, Current(lists, 0)), false), n)
         == State(TableWith(a, Current(lists, n)), Longer(lists, n))
  {
    hide Collect, PutAll, VisitDecls, Longer, TableWith, Current;
    LongerNext(lists, n);
    if n > 0 {
      DefineModules(a, lists, n - 1);
      DefineVisit(a, lists[n - 1], Current(lists, n - 1), Longer(lists, n - 1));
      assert Redefined(a, lists)[n - 1] == [ClassDef(a, Nothing, lists[n - 1])];
    }
  }

  lemma LongerNext(lists: seq<seq<Entry>>, n: nat)
    requires lists != [] && n <= |lists|
    ensures Longer(lists, n)
       <==> n > 0 && (Longer(lists, n - 1) || |PutAll([], lists[n - 1])| > |PutAll([], Current(lists, n - 1))|)
    ensures n > 0 ==> Current(lists, n) == lists[n - 1]
  {
    hide PutAll;
  }

  lemma DefineVisit(a: string, ms: seq<Entry>, before: seq<Entry>, seen: bool)
    ensures VisitDecls([ClassDef(a, Nothing, ms)], a, State(TableWith(a, before), seen), 1)
         == State(TableWith(a, ms), seen || |PutAll([], ms)| > |PutAll([], before)|)
  {
    hide Collect, PutAll;
    var p, s := [ClassDef(a, Nothing, ms)], State(TableWith(a, before), seen);
    OneDecl(p, a, s, 0, 1);
    DefinePass(a, ms, s.table);
  }

  lemma {:induction false} DefineFirst(a: string, lists: seq<seq<Entry>>, n: nat)
    requires 0 < n <= |lists|
    ensures FirstPass(Redefined(a, lists), n) == TableWith(a, lists[n - 1])
  {
    hide Collect, PutAll;
    assert Redefined(a, lists)[n - 1] == [ClassDef(a, Nothing, lists[n - 1])];
    if n == 1 {
      CollectOne(ClassDef(a, Nothing, lists[0]), map[]);
      assert FirstPass(Redefined(a, lists), 0) == map[];
    } else {
      DefineFirst(a, lists, n - 1);
      DefinePass(a, lists[n - 1], TableWith(a, lists[n - 2]));
    }
  }

  lemma OneName(names: seq<string>, a: string)
    requires Lists(names, {a})
    ensures names == [a]
  {
    assert a in names;
    assert |names| == 1;
  }

  lemma {:induction false} Redefinitions(a: string, lists: seq<seq<Entry>>, order: Order, k: nat)
    requires lists != [] && forall i: nat :: Lists(order(i, {a}), {a})
    ensures After(Redefined(a, lists), order, k) == TableWith(a, lists[|lists| - 1])
    ensures Ends(Redefined(a, lists), order, k) <==> !Longer(lists, |lists|)
    decreases k
  {
    hide PutAll, VisitModules, FirstPass, Longer;
    var programs, t := Redefined(a, lists), TableWith(a, lists[|lists| - 1]);
    if k == 0 {
      DefineFirst(a, lists, |lists|);
    } else {
      Redefinitions(a, lists, order, k - 1);
      OneName(order(k - 1, {a}), a);
      assert t.Keys == {a};
      RedefinedRound(a, lists, order(k - 1, {a}));
    }
    assert t.Keys == {a};
    OneName(order(k, {a}), a);
    RedefinedRound(a, lists, order(k, {a}));
  }

  lemma RedefinedRound(a: string, lists: seq<seq<Entry>>, names: seq<string>)
    requires lists != [] && names == [a]
    ensures var t := TableWith(a, lists[|lists| - 1]); Round(Redefined(a, lists), names, t) == State(t, Longer(lists, |lists|))
  {
    hide VisitModules, Longer, TableWith;
    var s := State(TableWith(a, lists[|lists| - 1]), false);
    DefineModules(a, lists, |lists|);
    assert VisitNames(Redefined(a, lists), names, s, 0) == s;
  }

  /** If no definition is longer than the one before it, all have the same length. */
  lemma {:induction false} NeverLonger(lists: seq<seq<Entry>>, n: nat)
    requires lists != [] && n < |lists| && !Longer(lists, |lists|)
    ensures |PutAll([], lists[n])| <= |PutAll([], lists[0])| <= |PutAll([], lists[|lists| - 1])|
    decreases n
  {
    hide PutAll;
    assert Current(lists, 0) == lists[|lists| - 1];
    if n > 0 {
      NeverLonger(lists, n - 1);
      assert Current(lists, n) == lists[n - 1];
    }
  }

  lemma {:induction false} LastIsLeast(lists: seq<seq<Entry>>, n: nat)
    requires lists != [] && n < |lists| && !Longer(lists, |lists|)
    ensures |PutAll([], lists[|lists| - 1])| <= |PutAll([], lists[n])|
    decreases |lists| - n
  {
    hide PutAll;
    if n < |lists| - 1 {
      LastIsLeast(lists, n + 1);
      assert Current(lists, n + 1) == lists[n];
    }
  }

  /** Modules that define one class again and again: a round is the last one exactly if all definitions
      have equally many methods, and so the first round is the last or none is. */
  lemma RestlessExact(a: string, lists: seq<seq<Entry>>, order: Order, k: nat)
    requires lists != [] && forall i: nat :: Lists(order(i, {a}), {a})
    ensures Ends(Redefined(a, lists), order, k)
       <==> forall i, j :: 0 <= i < |lists| && 0 <= j < |lists| ==> |PutAll([], lists[i])| == |PutAll([], lists[j])|
  {
    hide PutAll;
    Redefinitions(a, lists, order, k);
    if !Longer(lists, |lists|) {
      forall i, j | 0 <= i < |lists| && 0 <= j < |lists| ensures |PutAll([], lists[i])| == |PutAll([], lists[j])| {
        NeverLonger(lists, i);
        NeverLonger(lists, j);
        LastIsLeast(lists, i);
        LastIsLeast(lists, j);
      }
    }
  }
}
