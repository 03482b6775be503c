/** The table of classes across modules: each class gets the methods of its parent first, so that an
    override keeps the index it has in the parent. The names of the hash map's keys come in an order
    that is a parameter. */
module LinkTable {
  import opened Sets
  import opened Values

  datatype Sig = Sig(params: seq<string>, result: string)

  datatype Entry = Entry(name: string, sig: Sig)

  datatype Base = Nothing | Named(name: string) | OtherType

  datatype ClassDef = ClassDef(name: string, base: Base, methods: seq<Entry>)

  datatype Meta = Meta(parent: Option<string>, methods: seq<Entry>)

  type Table = map<string, Meta>

  // ----- lists of methods -----

  function NamesOf(ms: seq<Entry>): set<string> {
    set e | e in ms :: e.name
  }

  ghost predicate Distinct(ms: seq<Entry>) {
    forall i, j :: 0 <= i < j < |ms| ==> ms[i].name != ms[j].name
  }

  /** The first entry of that name, if there is one. */
  function Position(ms: seq<Entry>, name: string): (r: Option<nat>)
    ensures r.Some? ==> r.value < |ms| && ms[r.value].name == name && forall k :: 0 <= k < r.value ==> ms[k].name != name
    ensures r.None? <==> name !in NamesOf(ms)
  {
    if ms == [] then None
    else if ms[0].name == name then Some(0)
    else
      assert NamesOf(ms) == {ms[0].name} + NamesOf(ms[1..]) by { assert ms == [ms[0]] + ms[1..]; }
      match Position(ms[1..], name)
      case None => None
      case Some(k) => Some(k + 1)
  }

  function Put(ms: seq<Entry>, e: Entry): seq<Entry> {
    match Position(ms, e.name)
    case Some(k) => ms[k := e]
    case None => ms + [e]
  }

  function PutAll(ms: seq<Entry>, own: seq<Entry>): seq<Entry> {
    if own == [] then ms else Put(PutAll(ms, own[..|own| - 1]), own[|own| - 1])
  }

  /** The last of the entries with that name. */
  function LastOf(own: seq<Entry>, name: string): Entry
    requires name in NamesOf(own)
  {
    if own[|own| - 1].name == name then own[|own| - 1]
    else
      assert name in NamesOf(own[..|own| - 1]) by { assert own == own[..|own| - 1] + [own[|own| - 1]]; }
      LastOf(own[..|own| - 1], name)
  }

  /** What a list of methods is to the list it was made from: the inherited names keep their places,
      an entry with a name of the class is the class's own, and the others are untouched. */
  ghost predicate Extended(ms: seq<Entry>, own: seq<Entry>, r: seq<Entry>) {
    && Distinct(r) && |ms| <= |r|
    && NamesOf(r) == NamesOf(ms) + NamesOf(own)
    && (forall i :: 0 <= i < |ms| ==> r[i].name == ms[i].name)
    && (forall i :: 0 <= i < |r| && r[i].name in NamesOf(own) ==> r[i] == LastOf(own, r[i].name))
    && (forall i :: 0 <= i < |ms| && ms[i].name !in NamesOf(own) ==> r[i] == ms[i])
  }

  lemma NamesSplit(own: seq<Entry>)
    requires own != []
    ensures NamesOf(own) == NamesOf(own[..|own| - 1]) + {own[|own| - 1].name}
  {
    assert own == own[..|own| - 1] + [own[|own| - 1]];
  }

  lemma PutNames(ms: seq<Entry>, e: Entry)
    requires Distinct(ms)
    ensures Distinct(Put(ms, e)) && NamesOf(Put(ms, e)) == NamesOf(ms) + {e.name}
  {
    var r := Put(ms, e);
    forall n ensures n in NamesOf(r) <==> n in NamesOf(ms) + {e.name} {
      if n in NamesOf(ms) {
        var i :| 0 <= i < |ms| && ms[i].name == n;
        assert r[i].name == n && r[i] in r;
      }
      if n == e.name {
        var k := if Position(ms, n).Some? then Position(ms, n).value else |ms|;
        assert r[k] == e && r[k] in r;
      }
      if n in NamesOf(r) {
        var i :| 0 <= i < |r| && r[i].name == n;
        if i < |ms| {
          assert ms[i].name == n && ms[i] in ms;
        }
      }
    }
    if Position(ms, e.name).None? {
      assert forall i :: 0 <= i < |ms| ==> ms[i] in ms && ms[i].name != e.name;
    }
  }

  lemma PutKeeps(ms: seq<Entry>, e: Entry)
    requires Distinct(ms)
    ensures var r := Put(ms, e);
            && |ms| <= |r| && (forall i :: 0 <= i < |ms| ==> r[i].name == ms[i].name)
            && (forall i :: 0 <= i < |r| ==> if r[i].name == e.name then r[i] == e else i < |ms| && r[i] == ms[i])
  {
    if Position(ms, e.name).None? {
      assert forall i :: 0 <= i < |ms| ==> ms[i] in ms && ms[i].name != e.name;
    }
  }

  lemma {:induction false} PutAllExtends(ms: seq<Entry>, own: seq<Entry>)
    requires Distinct(ms)
    ensures Extended(ms, own, PutAll(ms, own))
  {
    hide Put, NamesOf;
    if own == [] {
      assert NamesOf(own) == {} by { NoNames(); }
    } else {
      var before, e := own[..|own| - 1], own[|own| - 1];
      PutAllExtends(ms, before);
      PutNames(PutAll(ms, before), e);
      PutKeeps(PutAll(ms, before), e);
      NamesSplit(own);
    }
  }

  lemma NoNames()
    ensures NamesOf([]) == {}
  {
  }

  lemma {:induction false} Count(ms: seq<Entry>)
    requires Distinct(ms)
    ensures |NamesOf(ms)| == |ms|
  {
    if ms != [] {
      NamesSplit(ms);
      Count(ms[..|ms| - 1]);
      assert ms[|ms| - 1].name !in NamesOf(ms[..|ms| - 1]);
    }
  }

  // ----- one pass over a module -----

  function ParentOf(c: ClassDef): Option<string> {
    if c.base.Named? then Some(c.base.name) else None
  }

  function Parents(p: seq<ClassDef>): map<string, Option<string>> {
    if p == [] then map[] else Parents(p[..|p| - 1])[p[|p| - 1].name := ParentOf(p[|p| - 1])]
  }

  function Inherited(t: Table, parent: Option<string>): seq<Entry> {
    if parent.Some? && parent.value in t then t[parent.value].methods else []
  }

  function Install(t: Table, c: ClassDef, parent: Option<string>): Table {
    t[c.name := Meta(parent, PutAll(Inherited(t, parent), c.methods))]
  }

  lemma {:induction false} InParents(p: seq<ClassDef>, c: ClassDef)
    requires c in p
    ensures c.name in Parents(p)
  {
    if c != p[|p| - 1] {
      assert p == p[..|p| - 1] + [p[|p| - 1]];
      InParents(p[..|p| - 1], c);
    }
  }

  /** The table after the classes of `p` up to the `n`-th. */
  function CollectUpTo(p: seq<ClassDef>, t: Table, n: nat): Table
    requires n <= |p|
  {
    if n == 0 then t
    else
      InParents(p, p[n - 1]);
      Install(CollectUpTo(p, t, n - 1), p[n - 1], Parents(p)[p[n - 1].name])
  }

  function Collect(p: seq<ClassDef>, t: Table): Table {
    CollectUpTo(p, t, |p|)
  }

  // ----- consistent modules -----

  /** `u` is what the modules declare: a name has one definition. */
  ghost predicate Declares(u: map<string, ClassDef>, p: seq<ClassDef>) {
    forall c :: c in p ==> c.name in u && u[c.name] == c
  }

  ghost predicate Declared(u: map<string, ClassDef>, programs: seq<seq<ClassDef>>) {
    forall p :: p in programs ==> Declares(u, p)
  }

  lemma {:induction false} ParentKept(u: map<string, ClassDef>, p: seq<ClassDef>, c: ClassDef)
    requires Declares(u, p) && c in p
    ensures c.name in Parents(p) && Parents(p)[c.name] == ParentOf(c)
  {
    var before, last := p[..|p| - 1], p[|p| - 1];
    assert p == before + [last];
    if c.name == last.name {
      assert c == u[c.name] == last;
    } else {
      ParentKept(u, before, c);
    }
  }

  /** Each class has its own methods, with its own signatures, and beyond them only names that its
      parent has; a parent that gained methods since is allowed. */
  ghost predicate Holds(u: map<string, ClassDef>, t: Table, c: string)
    requires c in u && c in t
  {
    && t[c].parent == ParentOf(u[c]) && Distinct(t[c].methods)
    && NamesOf(u[c].methods) <= NamesOf(t[c].methods) <= NamesOf(u[c].methods) + NamesOf(Inherited(t, ParentOf(u[c])))
    && (forall e :: e in t[c].methods && e.name in NamesOf(u[c].methods) ==> e == LastOf(u[c].methods, e.name))
  }

  ghost predicate Inv(u: map<string, ClassDef>, t: Table) {
    forall c :: c in t ==> c in u && Holds(u, t, c)
  }

  /** No class loses a method name. */
  ghost predicate Grew(t: Table, t': Table) {
    forall c :: c in t ==> c in t' && NamesOf(t[c].methods) <= NamesOf(t'[c].methods)
  }

  lemma InheritedGrew(t: Table, t': Table, parent: Option<string>)
    requires Grew(t, t')
    ensures NamesOf(Inherited(t, parent)) <= NamesOf(Inherited(t', parent))
  {
  }

  lemma InstallGrows(u: map<string, ClassDef>, t: Table, c: ClassDef)
    requires Inv(u, t) && c.name in u && u[c.name] == c
    ensures var t' := Install(t, c, ParentOf(c)); Inv(u, t') && Grew(t, t')
  {
    var t', inherited := Install(t, c, ParentOf(c)), Inherited(t, ParentOf(c));
    var r := PutAll(inherited, c.methods);
    if ParentOf(c).Some? && ParentOf(c).value in t {
      assert Holds(u, t, ParentOf(c).value);
    }
    PutAllExtends(inherited, c.methods);
    assert Grew(t, t') by {
      if c.name in t {
        assert Holds(u, t, c.name);
      }
    }
    forall d | d in t' ensures d in u && Holds(u, t', d) {
      InheritedGrew(t, t', ParentOf(u[d]));
      if d == c.name {
        forall e | e in r && e.name in NamesOf(c.methods) ensures e == LastOf(c.methods, e.name) {
          var i :| 0 <= i < |r| && r[i] == e;
        }
      } else {
        assert Holds(u, t, d);
      }
    }
  }

  lemma GrewTwice(t: Table, t': Table, t'': Table)
    requires Grew(t, t') && Grew(t', t'')
    ensures Grew(t, t'')
  {
  }

  /** A pass over a module keeps what holds of the table, and takes no name away. */
  lemma {:induction false} CollectGrows(u: map<string, ClassDef>, p: seq<ClassDef>, t: Table, n: nat)
    requires Inv(u, t) && Declares(u, p) && n <= |p|
    ensures Inv(u, CollectUpTo(p, t, n)) && Grew(t, CollectUpTo(p, t, n))
  {
    hide Inv, Grew, Declares;
    if n == 0 {
      GrewNot(t);
    } else {
      CollectGrows(u, p, t, n - 1);
      var before := CollectUpTo(p, t, n - 1);
      ParentKept(u, p, p[n - 1]);
      DeclaresOne(u, p, p[n - 1]);
      InstallGrows(u, before, p[n - 1]);
      GrewTwice(t, before, CollectUpTo(p, t, n));
    }
  }

  // ----- where the names come from -----

  /** The chain of parents `path` leads from `c` to a class with a method of that name. */
  ghost predicate Leads(u: map<string, ClassDef>, path: seq<string>, c: string, method': string) {
    && path != [] && path[0] == c
    && (forall i :: 0 <= i < |path| ==> path[i] in u)
    && (forall i :: 0 <= i < |path| - 1 ==> ParentOf(u[path[i]]) == Some(path[i + 1]))
    && method' in NamesOf(u[path[|path| - 1]].methods)
  }

  /** The class or one of its ancestors has a method of that name. */
  ghost predicate Owned(u: map<string, ClassDef>, c: string, method': string) {
    exists path :: Leads(u, path, c, method')
  }

  /** Every name in the table is a name of the class or of one of its ancestors. */
  ghost predicate Sound(u: map<string, ClassDef>, t: Table) {
    forall c, m :: c in t && m in NamesOf(t[c].methods) ==> Owned(u, c, m)
  }

  lemma OwnedByParent(u: map<string, ClassDef>, c: string, parent: string, m: string)
    requires c in u && ParentOf(u[c]) == Some(parent) && Owned(u, parent, m)
    ensures Owned(u, c, m)
  {
    var rest :| Leads(u, rest, parent, m);
    assert Leads(u, [c] + rest, c, m);
  }

  lemma InstallSound(u: map<string, ClassDef>, t: Table, c: ClassDef)
    requires Inv(u, t) && Sound(u, t) && c.name in u && u[c.name] == c
    ensures Sound(u, Install(t, c, ParentOf(c)))
  {
    hide Owned, Leads;
    var t', inherited := Install(t, c, ParentOf(c)), Inherited(t, ParentOf(c));
    if ParentOf(c).Some? && ParentOf(c).value in t {
      assert Holds(u, t, ParentOf(c).value);
    }
    assert NamesOf(t'[c.name].methods) == NamesOf(inherited) + NamesOf(c.methods) by {
      PutAllExtends(inherited, c.methods);
    }
    hide Inv, PutAll, NamesOf;
    forall d, m | d in t' && m in NamesOf(t'[d].methods) ensures Owned(u, d, m) {
      if d == c.name {
        if m in NamesOf(c.methods) {
          OwnedByItself(u, c.name, m);
        } else {
          assert m in NamesOf(inherited);
          InheritedFrom(t, ParentOf(c), m);
          OwnedByParent(u, c.name, ParentOf(c).value, m);
        }
      }
    }
  }

  lemma InheritedFrom(t: Table, parent: Option<string>, m: string)
    requires m in NamesOf(Inherited(t, parent))
    ensures parent.Some? && parent.value in t && m in NamesOf(t[parent.value].methods)
  {
  }

  lemma OwnedByItself(u: map<string, ClassDef>, c: string, m: string)
    requires c in u && m in NamesOf(u[c].methods)
    ensures Owned(u, c, m)
  {
    assert Leads(u, [c], c, m);
  }

  lemma {:induction false} CollectSound(u: map<string, ClassDef>, p: seq<ClassDef>, t: Table, n: nat)
    requires Inv(u, t) && Sound(u, t) && Declares(u, p) && n <= |p|
    ensures Sound(u, CollectUpTo(p, t, n))
  {
    hide Inv, Sound, Declares;
    if n > 0 {
      CollectSound(u, p, t, n - 1);
      CollectGrows(u, p, t, n - 1);
      ParentKept(u, p, p[n - 1]);
      DeclaresOne(u, p, p[n - 1]);
      InstallSound(u, CollectUpTo(p, t, n - 1), p[n - 1]);
    }
  }

  lemma DeclaresOne(u: map<string, ClassDef>, p: seq<ClassDef>, c: ClassDef)
    requires Declares(u, p) && c in p
    ensures c.name in u && u[c.name] == c
  {
  }

  // ----- the repeated passes -----

  datatype State = State(table: Table, changed: bool)

  function Size(t: Table, name: string): nat {
    if name in t then |t[name].methods| else 0
  }

  /** Visiting a class: a pass over its module, and a look at that class alone. */
  function Visit(p: seq<ClassDef>, name: string, s: State): State {
    var t' := Collect(p, s.table);
    State(t', s.changed || Size(t', name) > Size(s.table, name))
  }

  function VisitDecls(p: seq<ClassDef>, name: string, s: State, n: nat): State
    requires n <= |p|
  {
    if n == 0 then s
    else
      var s' := VisitDecls(p, name, s, n - 1);
      if p[n - 1].name == name then Visit(p, name, s') else s'
  }

  function VisitModules(programs: seq<seq<ClassDef>>, name: string, s: State, n: nat): State
    requires n <= |programs|
  {
    if n == 0 then s
    else VisitDecls(programs[n - 1], name, VisitModules(programs, name, s, n - 1), |programs[n - 1]|)
  }

  function VisitNames(programs: seq<seq<ClassDef>>, names: seq<string>, s: State, n: nat): State
    requires n <= |names|
  {
    if n == 0 then s
    else VisitModules(programs, names[n - 1], VisitNames(programs, names, s, n - 1), |programs|)
  }

  function Round(programs: seq<seq<ClassDef>>, names: seq<string>, t: Table): State {
    VisitNames(programs, names, State(t, false), |names|)
  }

  function FirstPass(programs: seq<seq<ClassDef>>, n: nat): Table
    requires n <= |programs|
  {
    if n == 0 then map[] else Collect(programs[n - 1], FirstPass(programs, n - 1))
  }

  type Order = (nat, set<string>) -> seq<string>

  /** The table after the first pass and `k` rounds. */
  function After(programs: seq<seq<ClassDef>>, order: Order, k: nat): Table {
    if k == 0 then FirstPass(programs, |programs|)
    else
      var t := After(programs, order, k - 1);
      Round(programs, order(k - 1, t.Keys), t).table
  }

  /** The round after the `k`-th reports no change. */
  predicate Ends(programs: seq<seq<ClassDef>>, order: Order, k: nat) {
    var t := After(programs, order, k);
    !Round(programs, order(k, t.Keys), t).changed
  }

  /** That is the first such round, and the last one that is made. */
  ghost predicate Stops(programs: seq<seq<ClassDef>>, order: Order, k: nat) {
    Ends(programs, order, k) && forall j: nat :: j < k ==> !Ends(programs, order, j)
  }

  // ----- the rounds come to an end -----

  ghost predicate Good(u: map<string, ClassDef>, t: Table) {
    Inv(u, t) && Sound(u, t)
  }

  ghost function Pairs(t: Table): set<(string, string)> {
    set c, e | c in t.Keys && e in t[c].methods :: (c, e.name)
  }

  ghost function AllPairs(u: map<string, ClassDef>): set<(string, string)> {
    set c, d, e | c in u.Keys && d in u.Keys && e in u[d].methods :: (c, e.name)
  }

  lemma OwnedListed(u: map<string, ClassDef>, c: string, m: string)
    requires c in u && Owned(u, c, m)
    ensures (c, m) in AllPairs(u)
  {
    var path :| Leads(u, path, c, m);
    var d := path[|path| - 1];
    var e :| e in u[d].methods && e.name == m;
    assert d in u.Keys;
    assert (c, m) == (c, e.name);
  }

  lemma PairsBounded(u: map<string, ClassDef>, t: Table)
    requires Good(u, t)
    ensures Pairs(t) <= AllPairs(u)
  {
    hide AllPairs, Owned, Leads;
    forall q | q in Pairs(t) ensures q in AllPairs(u) {
      assert q.1 in NamesOf(t[q.0].methods);
      OwnedListed(u, q.0, q.1);
    }
  }

  lemma PairsGrew(t: Table, t': Table)
    requires Grew(t, t')
    ensures Pairs(t) <= Pairs(t')
  {
    forall q | q in Pairs(t) ensures q in Pairs(t') {
      assert q.1 in NamesOf(t'[q.0].methods);
    }
  }

  /** A longer list of methods is a new name. */
  lemma LongerGrew(u: map<string, ClassDef>, t: Table, t': Table, name: string)
    requires Inv(u, t) && Inv(u, t') && Grew(t, t') && Size(t', name) > Size(t, name)
    ensures Pairs(t) < Pairs(t')
  {
    PairsGrew(t, t');
    assert Holds(u, t', name);
    if name in t {
      assert Holds(u, t, name);
      Count(t[name].methods);
    }
    Count(t'[name].methods);
    var before := if name in t then NamesOf(t[name].methods) else {};
    assert !(NamesOf(t'[name].methods) <= before) by {
      if NamesOf(t'[name].methods) <= before {
        Subset(NamesOf(t'[name].methods), before);
      }
    }
    var m :| m in NamesOf(t'[name].methods) && m !in before;
    assert (name, m) in Pairs(t') && (name, m) !in Pairs(t);
  }

  /** What any part of a round does: it loses nothing, and if it reports a change there is one. */
  ghost predicate Advances(u: map<string, ClassDef>, s: State, s': State) {
    && Good(u, s'.table) && Grew(s.table, s'.table) && (s.changed ==> s'.changed)
    && (s'.changed && !s.changed ==> Pairs(s.table) < Pairs(s'.table))
  }

  lemma AdvancesTwice(u: map<string, ClassDef>, s: State, s': State, s'': State)
    requires Advances(u, s, s') && Advances(u, s', s'')
    ensures Advances(u, s, s'')
  {
    GrewTwice(s.table, s'.table, s''.table);
    PairsGrew(s.table, s'.table);
    PairsGrew(s'.table, s''.table);
  }

  lemma {:induction false} DeclsAdvance(u: map<string, ClassDef>, p: seq<ClassDef>, name: string, s: State, n: nat)
    requires Good(u, s.table) && Declares(u, p) && n <= |p|
    ensures Advances(u, s, VisitDecls(p, name, s, n))
  {
    if n > 0 {
      DeclsAdvance(u, p, name, s, n - 1);
      var s' := VisitDecls(p, name, s, n - 1);
      if p[n - 1].name == name {
        var t' := Collect(p, s'.table);
        CollectGrows(u, p, s'.table, |p|);
        CollectSound(u, p, s'.table, |p|);
        if Size(t', name) > Size(s'.table, name) {
          LongerGrew(u, s'.table, t', name);
        }
        AdvancesTwice(u, s, s', Visit(p, name, s'));
      }
    }
  }

  lemma {:induction false} ModulesAdvance(u: map<string, ClassDef>, programs: seq<seq<ClassDef>>, name: string,
        s: State, n: nat)
    requires Good(u, s.table) && Declared(u, programs) && n <= |programs|
    ensures Advances(u, s, VisitModules(programs, name, s, n))
  {
    if n > 0 {
      ModulesAdvance(u, programs, name, s, n - 1);
      var s' := VisitModules(programs, name, s, n - 1);
      DeclsAdvance(u, programs[n - 1], name, s', |programs[n - 1]|);
      AdvancesTwice(u, s, s', VisitModules(programs, name, s, n));
    }
  }

  lemma {:induction false} NamesAdvance(u: map<string, ClassDef>, programs: seq<seq<ClassDef>>, names: seq<string>,
        s: State, n: nat)
    requires Good(u, s.table) && Declared(u, programs) && n <= |names|
    ensures Advances(u, s, VisitNames(programs, names, s, n))
  {
    if n > 0 {
      NamesAdvance(u, programs, names, s, n - 1);
      var s' := VisitNames(programs, names, s, n - 1);
      ModulesAdvance(u, programs, names[n - 1], s', |programs|);
      AdvancesTwice(u, s, s', VisitNames(programs, names, s, n));
    }
  }

  lemma {:induction false} FirstPassGood(u: map<string, ClassDef>, programs: seq<seq<ClassDef>>, n: nat)
    requires Declared(u, programs) && n <= |programs|
    ensures Good(u, FirstPass(programs, n))
    ensures forall i, c :: 0 <= i < n && c in programs[i] ==> c.name in FirstPass(programs, n)
  {
    if n > 0 {
      FirstPassGood(u, programs, n - 1);
      var t, p := FirstPass(programs, n - 1), programs[n - 1];
      CollectGrows(u, p, t, |p|);
      CollectSound(u, p, t, |p|);
      CollectKeys(p, t, |p|);
    }
  }

  lemma {:induction false} CollectKeys(p: seq<ClassDef>, t: Table, n: nat)
    requires n <= |p|
    ensures forall i :: 0 <= i < n ==> p[i].name in CollectUpTo(p, t, n)
  {
    if n > 0 {
      CollectKeys(p, t, n - 1);
    }
  }

  // ----- the table itself -----

  class LinkTable {
    var classes: Table

    constructor ()
      ensures classes == map[]
    {
      classes := map[];
    }

    method CollectClassMetadata(p: seq<ClassDef>)
      modifies this
      ensures classes == Collect(p, old(classes))
    {
      var parents: map<string, Option<string>> := map[];
      for i := 0 to |p|
        invariant parents == Parents(p[..i])
      {
        assert p[..i + 1][..i] == p[..i];
        parents := parents[p[i].name := ParentOf(p[i])];
      }
      assert p[..|p|] == p;
      for i := 0 to |p|
        invariant classes == CollectUpTo(p, old(classes), i)
      {
        InParents(p, p[i]);
        var c := p[i];
        var methods := Override(Inherited(classes, parents[c.name]), c.methods);
        classes := classes[c.name := Meta(parents[c.name], methods)];
      }
    }

    method Override(inherited: seq<Entry>, own: seq<Entry>) returns (methods: seq<Entry>)
      ensures methods == PutAll(inherited, own)
    {
      methods := inherited;
      for j := 0 to |own|
        invariant methods == PutAll(inherited, own[..j])
      {
        assert own[..j + 1][..j] == own[..j];
        match Position(methods, own[j].name)
        case Some(k) => methods := methods[k := own[j]];
        case None => methods := methods + [own[j]];
      }
      assert own[..|own|] == own;
    }

    /** Visits every class in some order, and says whether one of them gained a method. */
    method Repeat(programs: seq<seq<ClassDef>>, names: seq<string>) returns (changed: bool)
      modifies this
      ensures State(classes, changed) == Round(programs, names, old(classes))
    {
      changed := false;
      ghost var s0 := State(classes, false);
      for i := 0 to |names|
        invariant State(classes, changed) == VisitNames(programs, names, s0, i)
      {
        ghost var s1 := State(classes, changed);
        for j := 0 to |programs|
          invariant State(classes, changed) == VisitModules(programs, names[i], s1, j)
        {
          ghost var s2 := State(classes, changed);
          for k := 0 to |programs[j]|
            invariant State(classes, changed) == VisitDecls(programs[j], names[i], s2, k)
          {
            if programs[j][k].name == names[i] {
              var before := if names[i] in classes then |classes[names[i]].methods| else 0;
              CollectClassMetadata(programs[j]);
              var now := if names[i] in classes then |classes[names[i]].methods| else 0;
              if now > before {
                changed := true;
              }
            }
          }
        }
      }
    }

    /** If a name has one definition, the rounds end, also when classes inherit in a cycle; the table
        then has every class, with its own methods and no others than its ancestors'. */
    method FromPrograms(programs: seq<seq<ClassDef>>, order: Order, ghost u: map<string,
          ClassDef>) returns (ghost rounds: nat)
      requires Declared(u, programs) && classes == map[]
      modifies this
      ensures Good(u, classes)
      ensures forall p, c :: p in programs && c in p ==> c.name in classes
      ensures Stops(programs, order, rounds) && classes == After(programs, order, rounds + 1)
      ensures Complete(programs, classes) ==> forall p, c :: p in programs && c in p ==> Dispatches(classes, c)
    {
      hide Good, Grew, Round, Declared, Missing, Collect, NamesOf;
      for i := 0 to |programs|
        invariant classes == FirstPass(programs, i)
      {
        CollectClassMetadata(programs[i]);
      }
      FirstPassGood(u, programs, |programs|);
      GrewNot(classes);
      ghost var first := classes;
      var changed := true;
      var k := 0;
      while changed
        invariant Good(u, classes) && Grew(first, classes) && classes == After(programs, order, k)
        invariant if changed then forall j: nat :: j < k ==> !Ends(programs, order, j) else k > 0 && Stops(programs, order, k - 1)
        decreases Missing(u, classes), changed
      {
        RoundAdvances(u, programs, order(k, classes.Keys), classes);
        GrewTwice(first, classes, Round(programs, order(k, classes.Keys), classes).table);
        changed := Repeat(programs, order(k, classes.Keys));
        k := k + 1;
      }
      rounds := k - 1;
      KeysGrew(first, classes);
      AllDispatch(u, programs, classes);
    }
  }

  /** How many names the classes could still get. */
  ghost function Missing(u: map<string, ClassDef>, t: Table): nat {
    |AllPairs(u) - Pairs(t)|
  }

  lemma RoundAdvances(u: map<string, ClassDef>, programs: seq<seq<ClassDef>>, names: seq<string>, t: Table)
    requires Good(u, t) && Declared(u, programs)
    ensures var s := Round(programs, names, t);
            && Good(u, s.table) && Grew(t, s.table)
            && Missing(u, s.table) <= Missing(u, t) && (s.changed ==> Missing(u, s.table) < Missing(u, t))
  {
    hide Inv, Sound, AllPairs, Declared, VisitNames;
    NamesAdvance(u, programs, names, State(t, false), |names|);
    var t' := Round(programs, names, t).table;
    PairsBounded(u, t');
    PairsGrew(t, t');
    Fewer(AllPairs(u), Pairs(t), Pairs(t'));
  }

  lemma GrewNot(t: Table)
    ensures Grew(t, t)
  {
  }

  lemma KeysGrew(t: Table, t': Table)
    requires Grew(t, t')
    ensures t.Keys <= t'.Keys
  {
  }

  // ----- parents first -----

  function InstallAll(cs: seq<ClassDef>, t: Table): Table {
    if cs == [] then t
    else
      var c := cs[|cs| - 1];
      Install(InstallAll(cs[..|cs| - 1], t), c, ParentOf(c))
  }

  function Flat(programs: seq<seq<ClassDef>>): seq<ClassDef> {
    if programs == [] then [] else Flat(programs[..|programs| - 1]) + programs[|programs| - 1]
  }

  lemma {:induction false} InstallBoth(a: seq<ClassDef>, b: seq<ClassDef>, t: Table)
    ensures InstallAll(a + b, t) == InstallAll(b, InstallAll(a, t))
  {
    if b == [] {
      assert a + b == a;
    } else {
      assert (a + b)[..|a + b| - 1] == a + b[..|b| - 1];
      InstallBoth(a, b[..|b| - 1], t);
    }
  }

  lemma {:induction false} CollectInstalls(u: map<string, ClassDef>, p: seq<ClassDef>, t: Table, n: nat)
    requires Declares(u, p) && n <= |p|
    ensures CollectUpTo(p, t, n) == InstallAll(p[..n], t)
  {
    if n > 0 {
      CollectInstalls(u, p, t, n - 1);
      assert p[..n][..n - 1] == p[..n - 1];
      ParentKept(u, p, p[n - 1]);
    }
  }

  lemma {:induction false} FirstPassInstalls(u: map<string, ClassDef>, programs: seq<seq<ClassDef>>, n: nat)
    requires Declared(u, programs) && n <= |programs|
    ensures FirstPass(programs, n) == InstallAll(Flat(programs[..n]), map[])
  {
    if n > 0 {
      FirstPassInstalls(u, programs, n - 1);
      assert programs[..n][..n - 1] == programs[..n - 1];
      var p := programs[n - 1];
      CollectInstalls(u, p, FirstPass(programs, n - 1), |p|);
      assert p[..|p|] == p;
      InstallBoth(Flat(programs[..n - 1]), p, map[]);
    }
  }

  ghost predicate OnceEach(cs: seq<ClassDef>) {
    forall i, j :: 0 <= i < j < |cs| ==> cs[i].name != cs[j].name
  }

  /** Each class is declared once, and after its parent if the modules declare the parent at all. */
  ghost predicate ParentsFirst(cs: seq<ClassDef>) {
    && OnceEach(cs)
    && (forall i, j :: 0 <= i <= j < |cs| ==> ParentOf(cs[i]) != Some(cs[j].name))
  }

  /** The methods of `c` are what a further look at its parent would make them. */
  ghost predicate UpToDate(t: Table, c: ClassDef) {
    c.name in t && t[c.name] == Meta(ParentOf(c), PutAll(Inherited(t, ParentOf(c)), c.methods))
  }

  lemma {:induction false} OrderedUpToDate(cs: seq<ClassDef>)
    requires ParentsFirst(cs)
    ensures forall c :: c in cs ==> UpToDate(InstallAll(cs, map[]), c)
  {
    if cs != [] {
      var before, c := cs[..|cs| - 1], cs[|cs| - 1];
      assert forall i :: 0 <= i < |before| ==> before[i] == cs[i];
      OrderedUpToDate(before);
      var t, t' := InstallAll(before, map[]), InstallAll(cs, map[]);
      assert ParentOf(c) != Some(c.name);
      forall d | d in cs ensures UpToDate(t', d) {
        var i :| 0 <= i < |cs| && cs[i] == d;
        if i < |before| {
          assert before[i] == d && UpToDate(t, d);
          assert ParentOf(d) != Some(c.name) && d.name != c.name;
          assert Inherited(t', ParentOf(d)) == Inherited(t, ParentOf(d));
        } else {
          assert Inherited(t', ParentOf(c)) == Inherited(t, ParentOf(c));
        }
      }
    }
  }

  lemma {:induction false} NothingToInstall(cs: seq<ClassDef>, t: Table)
    requires forall c :: c in cs ==> UpToDate(t, c)
    ensures InstallAll(cs, t) == t
  {
    if cs != [] {
      assert cs == cs[..|cs| - 1] + [cs[|cs| - 1]];
      NothingToInstall(cs[..|cs| - 1], t);
      assert UpToDate(t, cs[|cs| - 1]);
    }
  }

  /** Every class of the modules is up to date. */
  ghost predicate Complete(programs: seq<seq<ClassDef>>, t: Table) {
    forall p, c :: p in programs && c in p ==> UpToDate(t, c)
  }

  lemma CollectIdle(u: map<string, ClassDef>, programs: seq<seq<ClassDef>>, p: seq<ClassDef>, t: Table)
    requires Declared(u, programs) && p in programs && Complete(programs, t)
    ensures Collect(p, t) == t
  {
    CollectInstalls(u, p, t, |p|);
    assert p[..|p|] == p;
    NothingToInstall(p, t);
  }

  lemma {:induction false} DeclsIdle(u: map<string, ClassDef>, programs: seq<seq<ClassDef>>, p: seq<ClassDef>,
        name: string, s: State, n: nat)
    requires Declared(u, programs) && p in programs && Complete(programs, s.table) && n <= |p|
    ensures VisitDecls(p, name, s, n) == s
  {
    hide Complete, Declared, Collect;
    if n > 0 {
      DeclsIdle(u, programs, p, name, s, n - 1);
      CollectIdle(u, programs, p, s.table);
    }
  }

  lemma {:induction false} ModulesIdle(u: map<string, ClassDef>, programs: seq<seq<ClassDef>>, name: string,
        s: State, n: nat)
    requires Declared(u, programs) && Complete(programs, s.table) && n <= |programs|
    ensures VisitModules(programs, name, s, n) == s
  {
    if n > 0 {
      ModulesIdle(u, programs, name, s, n - 1);
      DeclsIdle(u, programs, programs[n - 1], name, s, |programs[n - 1]|);
    }
  }

  lemma {:induction false} NamesIdle(u: map<string, ClassDef>, programs: seq<seq<ClassDef>>, names: seq<string>,
        s: State, n: nat)
    requires Declared(u, programs) && Complete(programs, s.table) && n <= |names|
    ensures VisitNames(programs, names, s, n) == s
  {
    if n > 0 {
      NamesIdle(u, programs, names, s, n - 1);
      ModulesIdle(u, programs, names[n - 1], s, |programs|);
    }
  }

  lemma {:induction false} InFlat(programs: seq<seq<ClassDef>>, p: seq<ClassDef>, c: ClassDef)
    requires p in programs && c in p
    ensures c in Flat(programs)
  {
    var before, last := programs[..|programs| - 1], programs[|programs| - 1];
    assert programs == before + [last];
    if p != last {
      InFlat(before, p, c);
    }
  }

  /** Modules in dependency order: the first pass is enough, in whatever order the rounds visit the
      classes. */
  lemma {:induction false} InOrder(u: map<string, ClassDef>, programs: seq<seq<ClassDef>>, order: Order, k: nat)
    requires Declared(u, programs) && ParentsFirst(Flat(programs))
    ensures After(programs, order, k) == After(programs, order, 0) && Complete(programs, After(programs, order, k)) && Ends(programs, order, k)
  {
    var t := FirstPass(programs, |programs|);
    if k > 0 {
      InOrder(u, programs, order, k - 1);
    } else {
      FirstPassInstalls(u, programs, |programs|);
      assert programs[..|programs|] == programs;
      OrderedUpToDate(Flat(programs));
      forall p, c | p in programs && c in p ensures UpToDate(t, c) {
        InFlat(programs, p, c);
      }
    }
    if k > 0 {
      var names := order(k - 1, t.Keys);
      NamesIdle(u, programs, names, State(t, false), |names|);
    }
    var names := order(k, t.Keys);
    NamesIdle(u, programs, names, State(t, false), |names|);
  }

  lemma {:induction false} InstallsNothing(cs: seq<ClassDef>, t: Table)
    requires OnceEach(cs) && InstallAll(cs, t) == t
    ensures forall c :: c in cs ==> UpToDate(t, c)
  {
    if cs != [] {
      var before, c := cs[..|cs| - 1], cs[|cs| - 1];
      assert cs == before + [c];
      var t' := InstallAll(before, t);
      NotInstalled(before, t, c.name);
      assert t == Install(t', c, ParentOf(c));
      assert t' == t;
      InstallsNothing(before, t);
    }
  }

  lemma {:induction false} NotInstalled(cs: seq<ClassDef>, t: Table, name: string)
    requires forall c :: c in cs ==> c.name != name
    ensures var t' := InstallAll(cs, t); (name in t' <==> name in t) && (name in t ==> t'[name] == t[name])
  {
    if cs != [] {
      NotInstalled(cs[..|cs| - 1], t, name);
    }
  }

  /** Every class is up to date exactly if no further pass over a module would change anything. */
  lemma CompleteExact(u: map<string, ClassDef>, programs: seq<seq<ClassDef>>, t: Table)
    requires Declared(u, programs)
    requires forall p :: p in programs ==> OnceEach(p)
    ensures Complete(programs, t) <==> forall p :: p in programs ==> Collect(p, t) == t
  {
    hide Collect, UpToDate;
    forall p | p in programs ensures (forall c :: c in p ==> UpToDate(t, c)) <==> Collect(p, t) == t {
      CollectInstalls(u, p, t, |p|);
      assert p[..|p|] == p;
      assert Collect(p, t) == CollectUpTo(p, t, |p|) by { CollectAll(p, t); }
      if Collect(p, t) == t {
        InstallsNothing(p, t);
      }
      if forall c :: c in p ==> UpToDate(t, c) {
        NothingToInstall(p, t);
      }
    }
  }

  lemma CollectAll(p: seq<ClassDef>, t: Table)
    ensures Collect(p, t) == CollectUpTo(p, t, |p|)
  {
  }

  // ----- dispatch -----

  /** The last definition of the entry's name in `ms` is the entry itself, at `j`. */
  predicate LastDefined(ms: seq<Entry>, e: Entry, j: nat) {
    j < |ms| && ms[j] == e && forall k :: j < k < |ms| ==> ms[k].name != e.name
  }

  predicate Defines(ms: seq<Entry>, name: string) {
    exists j :: 0 <= j < |ms| && ms[j].name == name
  }

  /** A list of methods laid out for dispatch: an index of the parent's list has a method of the same name, the
      parent's own unless the class defines one; then follow the names that the class adds, in the order in which
      it defines them. What the class defines is its last definition. */
  ghost predicate Laid(above: seq<Entry>, own: seq<Entry>, r: seq<Entry>) {
    && |above| <= |r|
    && (forall i :: 0 <= i < |above| ==> r[i].name == above[i].name && (!Defines(own, r[i].name) ==> r[i] == above[i]))
    && (forall i :: 0 <= i < |r| && Defines(own, r[i].name) ==> exists j :: LastDefined(own, r[i], j))
    && (forall i :: |above| <= i < |r| ==> Defines(own, r[i].name) && !Defines(above, r[i].name))
    && (forall j :: 0 <= j < |own| ==> Defines(r, own[j].name))
    && (forall i, k :: 0 <= i < k < |r| ==> r[i].name != r[k].name)
    && (forall i, k :: |above| <= i < k < |r| ==> Earlier(own, r[i].name, r[k].name))
  }

  /** The one name is defined before the other. */
  ghost predicate Earlier(ms: seq<Entry>, a: string, b: string) {
    exists i :: 0 <= i < |ms| && ms[i].name == a && forall j :: 0 <= j <= i ==> ms[j].name != b
  }

  lemma DefinesNames(ms: seq<Entry>, name: string)
    ensures Defines(ms, name) <==> name in NamesOf(ms)
  {
    if name in NamesOf(ms) {
      var e :| e in ms && e.name == name;
      var j :| 0 <= j < |ms| && ms[j] == e;
    }
  }

  lemma {:induction false} LastOfLast(own: seq<Entry>, name: string)
    requires name in NamesOf(own)
    ensures exists j :: LastDefined(own, LastOf(own, name), j)
    ensures LastOf(own, name).name == name
  {
    var n := |own| - 1;
    if own[n].name == name {
      assert LastDefined(own, LastOf(own, name), n);
    } else {
      assert own == own[..n] + [own[n]];
      LastOfLast(own[..n], name);
      var j :| LastDefined(own[..n], LastOf(own[..n], name), j);
      assert LastDefined(own, LastOf(own, name), j);
    }
  }

  lemma EarlierMore(before: seq<Entry>, e: Entry, a: string, b: string)
    requires Earlier(before, a, b) || (Defines(before, a) && !Defines(before, b))
    ensures Earlier(before + [e], a, b)
  {
    var own := before + [e];
    assert Earlier(before, a, b);
    var i :| 0 <= i < |before| && before[i].name == a && forall j :: 0 <= j <= i ==> before[j].name != b;
    assert own[i].name == a && forall j :: 0 <= j <= i ==> own[j] == before[j];
  }

  /** Names that are new come in the order of their definitions. */
  lemma {:induction false} PutAllOrder(ms: seq<Entry>, own: seq<Entry>)
    requires Distinct(ms)
    ensures var r := PutAll(ms, own); forall i, k :: |ms| <= i < k < |r| ==> Earlier(own, r[i].name, r[k].name)
  {
    hide Earlier, Defines;
    if own != [] {
      var before, e := own[..|own| - 1], own[|own| - 1];
      assert own == before + [e];
      PutAllOrder(ms, before);
      PutAllExtends(ms, before);
      var r', r := PutAll(ms, before), PutAll(ms, own);
      PutKeeps(r', e);
      forall i, k | |ms| <= i < k < |r| ensures Earlier(own, r[i].name, r[k].name) {
        NewName(ms, before, r', i);
        if k < |r'| {
          assert Earlier(before, r'[i].name, r'[k].name);
        } else {
          assert r[k].name == e.name && e.name !in NamesOf(r');
          DefinesNames(before, e.name);
        }
        EarlierMore(before, e, r[i].name, r[k].name);
      }
    }
  }

  lemma NewName(ms: seq<Entry>, own: seq<Entry>, r: seq<Entry>, i: nat)
    requires Extended(ms, own, r) && |ms| <= i < |r|
    ensures Defines(own, r[i].name) && !Defines(ms, r[i].name)
  {
    assert r[i] in r && r[i].name in NamesOf(r);
    DefinesNames(own, r[i].name);
  }

  lemma ExtendedLaid(ms: seq<Entry>, own: seq<Entry>, r: seq<Entry>)
    requires Extended(ms, own, r) && forall i, k :: |ms| <= i < k < |r| ==> Earlier(own, r[i].name, r[k].name)
    ensures Laid(ms, own, r)
  {
    hide Earlier, Defines, NamesOf, LastDefined;
    forall i: nat | i < |r| && Defines(own, r[i].name) ensures exists j :: LastDefined(own, r[i], j) {
      DefinesNames(own, r[i].name);
      LastOfLast(own, r[i].name);
    }
    forall i: nat | |ms| <= i < |r| ensures Defines(own, r[i].name) && !Defines(ms, r[i].name) {
      NewName(ms, own, r, i);
    }
    forall i: nat | i < |ms| && !Defines(own, r[i].name) ensures r[i] == ms[i] {
      DefinesNames(own, r[i].name);
    }
    forall j: nat | j < |own| ensures Defines(r, own[j].name) {
      InNames(own, j);
      DefinesNames(r, own[j].name);
    }
  }

  lemma InNames(ms: seq<Entry>, j: nat)
    requires j < |ms|
    ensures ms[j].name in NamesOf(ms)
  {
  }

  /** What an up-to-date class has: its parent's name, and its methods laid out over those of the parent, or over
      none if there is no parent or it is not in the table. */
  ghost predicate Dispatches(t: Table, c: ClassDef) {
    && c.name in t
    && t[c.name].parent == (if c.base.Named? then Some(c.base.name) else None)
    && Laid(if c.base.Named? && c.base.name in t then t[c.base.name].methods else [], c.methods, t[c.name].methods)
  }

  /** Up to date means laid out for dispatch. */
  lemma SameIndices(u: map<string, ClassDef>, t: Table, c: ClassDef)
    requires Inv(u, t) && UpToDate(t, c)
    ensures Dispatches(t, c)
  {
    hide Laid;
    var inherited := Inherited(t, ParentOf(c));
    assert Distinct(inherited) by {
      if ParentOf(c).Some? && ParentOf(c).value in t {
        assert Holds(u, t, ParentOf(c).value);
      }
    }
    PutAllExtends(inherited, c.methods);
    PutAllOrder(inherited, c.methods);
    ExtendedLaid(inherited, c.methods, PutAll(inherited, c.methods));
  }

  lemma AllDispatch(u: map<string, ClassDef>, programs: seq<seq<ClassDef>>, t: Table)
    requires Good(u, t)
    ensures Complete(programs, t) ==> forall p, c :: p in programs && c in p ==> Dispatches(t, c)
  {
    hide Inv, UpToDate, Dispatches;
    if Complete(programs, t) {
      forall p, c | p in programs && c in p ensures Dispatches(t, c) {
        SameIndices(u, t, c);
      }
    }
  }
}
