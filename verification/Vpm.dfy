/** Version constraints and the resolution of dependencies with a worklist. Fetching a package is a
    partial function of its name and version. */
module Vpm {
  import opened Sets

  datatype Version = Version(major: nat, minor: nat, patch: nat)

  /** Lexicographic order. */
  predicate AtMost(a: Version, b: Version) {
    a.major < b.major || (a.major == b.major && (a.minor < b.minor || (a.minor == b.minor && a.patch <= b.patch)))
  }

  /** The first number in which two versions differ decides. */
  lemma AtMostExact(a: Version, b: Version)
    ensures a.major != b.major ==> (AtMost(a, b) <==> a.major < b.major)
    ensures a.major == b.major && a.minor != b.minor ==> (AtMost(a, b) <==> a.minor < b.minor)
    ensures a.major == b.major && a.minor == b.minor ==> (AtMost(a, b) <==> a.patch <= b.patch)
    ensures AtMost(a, b) && AtMost(b, a) <==> a == b
  {
  }

  datatype Constraint = Any | Exact(v: Version) | Caret(v: Version) | Tilde(v: Version) | Patch(v: Version) | Major(v: Version)

  predicate Matches(c: Constraint, v: Version) {
    match c
    case Any => true
    case Exact(r) => v == r
    case Caret(r) =>
      if r.major > 0 then v.major == r.major && AtMost(r, v)
      else if r.minor > 0 then v.major == 0 && v.minor == r.minor && AtMost(r, v)
      else v.major == 0 && v.minor == 0 && v.patch == r.patch && AtMost(r, v)
    case Tilde(r) => v.major == r.major && v.minor == r.minor && AtMost(r, v)
    case Patch(r) => v.major == r.major && v.minor == r.minor
    case Major(r) => v.major == r.major
  }

  // ----- constraints are intervals -----

  datatype Interval = Everything | From(lo: Version, hi: Version)

  /** The versions from `lo` up to, and without, `hi`. */
  predicate Within(i: Interval, v: Version) {
    i.From? ==> AtMost(i.lo, v) && AtMost(v, i.hi) && v != i.hi
  }

  function NextMajor(v: Version): Version {
    Version(v.major + 1, 0, 0)
  }

  function NextMinor(v: Version): Version {
    Version(v.major, v.minor + 1, 0)
  }

  function NextPatch(v: Version): Version {
    Version(v.major, v.minor, v.patch + 1)
  }

  /** What the notation promises: `^1.2.3` means from 1.2.3 up to 2.0.0, and so on. */
  function Promised(c: Constraint): Interval {
    match c
    case Any => Everything
    case Exact(v) => From(v, NextPatch(v))
    case Caret(v) => From(v, if v.major > 0 then NextMajor(v) else if v.minor > 0 then NextMinor(v) else NextPatch(v))
    case Tilde(v) => From(v, NextMinor(v))
    case Patch(v) => From(Version(v.major, v.minor, 0), NextMinor(v))
    case Major(v) => From(Version(v.major, 0, 0), NextMajor(v))
  }

  lemma MatchesInterval(c: Constraint, v: Version)
    ensures Matches(c, v) <==> Within(Promised(c), v)
  {
  }

  // ----- resolution -----

  datatype Dep = Dep(name: string, constraint: Constraint)

  type Registry = map<(string, Version), seq<Dep>>

  /** The version a constraint is resolved to when it is the first one met. */
  function Chosen(c: Constraint): Version {
    match c
    case Any => Version(0, 1, 0)
    case Exact(v) => v
    case Caret(v) => v
    case Tilde(v) => v
    case Patch(v) => Version(v.major, v.minor, 0)
    case Major(v) => Version(v.major, 0, 0)
  }

  lemma ChosenMatches(c: Constraint)
    ensures Matches(c, Chosen(c))
  {
  }

  /** And no version that matches is lower, except for `*`. */
  lemma ChosenLowest(c: Constraint, v: Version)
    requires Matches(c, v) && !c.Any?
    ensures AtMost(Chosen(c), v)
  {
  }

  function DepsOf(reg: Registry, name: string, v: Version): (r: seq<Dep>)
    ensures (name, v) in reg ==> r == reg[(name, v)]
    ensures (name, v) !in reg ==> r == []
  {
    if (name, v) in reg then reg[(name, v)] else []
  }

  type Resolved = map<string, Version>

  /** The dependency is asked for by the root or by a package at its resolved version. */
  predicate Asked(reg: Registry, roots: seq<Dep>, r: Resolved, d: Dep) {
    d in roots || exists n :: n in r && (n, r[n]) in reg && d in reg[(n, r[n])]
  }

  predicate Met(r: Resolved, d: Dep) {
    d.name in r && Matches(d.constraint, r[d.name])
  }

  /** Everything asked for is there, in a version that satisfies who asked. */
  predicate Complete(reg: Registry, roots: seq<Dep>, r: Resolved) {
    && (forall d :: d in roots ==> Met(r, d))
    && (forall n :: n in r && (n, r[n]) in reg ==> forall d :: d in reg[(n, r[n])] ==> Met(r, d))
  }

  /** A chain of packages, the first asked for by the root and each other one by its predecessor. */
  predicate Chain(reg: Registry, roots: seq<Dep>, r: Resolved, p: seq<string>) {
    && p != [] && (forall k :: 0 <= k < |p| ==> p[k] in r)
    && (exists d :: d in roots && d.name == p[0])
    && forall k :: 0 < k < |p| ==> AsksFor(reg, r, p[k - 1], p[k])
  }

  predicate AsksFor(reg: Registry, r: Resolved, a: string, b: string) {
    a in r && (a, r[a]) in reg && exists d :: d in reg[(a, r[a])] && d.name == b
  }

  ghost predicate Needed(reg: Registry, roots: seq<Dep>, r: Resolved, n: string) {
    exists p :: Chain(reg, roots, r, p) && p[|p| - 1] == n
  }

  ghost predicate Extends(a: Resolved, b: Resolved) {
    forall n :: n in a ==> n in b && b[n] == a[n]
  }

  lemma NeededGrows(reg: Registry, roots: seq<Dep>, a: Resolved, b: Resolved, n: string)
    requires Extends(a, b) && Needed(reg, roots, a, n)
    ensures Needed(reg, roots, b, n)
  {
    var p :| Chain(reg, roots, a, p) && p[|p| - 1] == n;
    forall k | 0 < k < |p| ensures AsksFor(reg, b, p[k - 1], p[k]) {
      assert AsksFor(reg, a, p[k - 1], p[k]);
    }
    assert Chain(reg, roots, b, p);
  }

  lemma NeededRoot(reg: Registry, roots: seq<Dep>, r: Resolved, d: Dep)
    requires d in roots && d.name in r
    ensures Needed(reg, roots, r, d.name)
  {
    assert Chain(reg, roots, r, [d.name]) && [d.name][|[d.name]| - 1] == d.name;
  }

  lemma NeededNext(reg: Registry, roots: seq<Dep>, r: Resolved, n: string, d: Dep)
    requires Needed(reg, roots, r, n) && n in r && (n, r[n]) in reg && d in reg[(n, r[n])] && d.name in r
    ensures Needed(reg, roots, r, d.name)
  {
    var p :| Chain(reg, roots, r, p) && p[|p| - 1] == n;
    var q := p + [d.name];
    assert AsksFor(reg, r, n, d.name);
    forall k | 0 < k < |q| ensures AsksFor(reg, r, q[k - 1], q[k]) {
      if k < |p| {
        assert AsksFor(reg, r, p[k - 1], p[k]);
      }
    }
    assert Chain(reg, roots, r, q) && q[|q| - 1] == d.name;
  }

  datatype Resolution = Ok(resolved: Resolved) | Conflict(dep: Dep, existing: Version)

  /** The names that can ever be asked for. */
  predicate Universe(names: set<string>, reg: Registry, roots: seq<Dep>) {
    && (forall d :: d in roots ==> d.name in names)
    && (forall k :: k in reg ==> forall d :: d in reg[k] ==> d.name in names)
  }

  predicate AllAsked(reg: Registry, roots: seq<Dep>, queue: seq<Dep>, r: Resolved) {
    forall d :: d in queue ==> Asked(reg, roots, r, d)
  }

  /** Whatever is asked for is met already or still on the worklist. */
  predicate Pending(reg: Registry, roots: seq<Dep>, queue: seq<Dep>, r: Resolved) {
    && (forall d :: d in roots ==> Met(r, d) || d in queue)
    && (forall n :: n in r && (n, r[n]) in reg ==> forall d :: d in reg[(n, r[n])] ==> Met(r, d) || d in queue)
  }

  /** Nothing is resolved without need, and every version was chosen by a constraint asked for. */
  ghost predicate Justified(reg: Registry, roots: seq<Dep>, r: Resolved) {
    forall n :: n in r ==> Needed(reg, roots, r, n) && ChosenFor(reg, roots, r, n)
  }

  predicate ChosenBy(reg: Registry, roots: seq<Dep>, r: Resolved, n: string, c: Constraint)
    requires n in r
  {
    Asked(reg, roots, r, Dep(n, c)) && r[n] == Chosen(c)
  }

  ghost predicate ChosenFor(reg: Registry, roots: seq<Dep>, r: Resolved, n: string)
    requires n in r
  {
    exists c :: ChosenBy(reg, roots, r, n, c)
  }

  lemma AskedGrows(reg: Registry, roots: seq<Dep>, a: Resolved, b: Resolved, d: Dep)
    requires Extends(a, b) && Asked(reg, roots, a, d)
    ensures Asked(reg, roots, b, d)
  {
    if d !in roots {
      var n :| n in a && (n, a[n]) in reg && d in reg[(n, a[n])];
      assert n in b && d in reg[(n, b[n])];
    }
  }

  lemma AllAskedNew(reg: Registry, roots: seq<Dep>, rest: seq<Dep>, d: Dep, r: Resolved)
    requires AllAsked(reg, roots, rest + [d], r) && d.name !in r
    ensures var v := Chosen(d.constraint);
            AllAsked(reg, roots, rest + DepsOf(reg, d.name, v), r[d.name := v])
  {
    var v := Chosen(d.constraint);
    var r' := r[d.name := v];
    var more := DepsOf(reg, d.name, v);
    forall e | e in rest + more ensures Asked(reg, roots, r', e) {
      if e in rest {
        assert e in rest + [d];
        AskedGrows(reg, roots, r, r', e);
      } else {
        assert d.name in r' && e in reg[(d.name, r'[d.name])];
      }
    }
  }

  lemma PendingNew(reg: Registry, roots: seq<Dep>, rest: seq<Dep>, d: Dep, r: Resolved)
    requires Pending(reg, roots, rest + [d], r) && d.name !in r
    ensures var v := Chosen(d.constraint);
            Pending(reg, roots, rest + DepsOf(reg, d.name, v), r[d.name := v])
  {
    var v := Chosen(d.constraint);
    var r' := r[d.name := v];
    var more := DepsOf(reg, d.name, v);
    ChosenMatches(d.constraint);
    forall n, e | n in r' && (n, r'[n]) in reg && e in reg[(n, r'[n])] ensures Met(r', e) || e in rest + more {
      if n != d.name {
        assert Met(r, e) || e in rest + [d];
      }
    }
    forall e | e in roots ensures Met(r', e) || e in rest + more {
      assert Met(r, e) || e in rest + [d];
    }
  }

  lemma JustifiedNew(reg: Registry, roots: seq<Dep>, d: Dep, r: Resolved)
    requires Justified(reg, roots, r) && Asked(reg, roots, r, d) && d.name !in r
    ensures Justified(reg, roots, r[d.name := Chosen(d.constraint)])
  {
    var r' := r[d.name := Chosen(d.constraint)];
    AskedGrows(reg, roots, r, r', d);
    forall n | n in r' ensures Needed(reg, roots, r', n) && ChosenFor(reg, roots, r', n) {
      if n != d.name {
        NeededGrows(reg, roots, r, r', n);
        var c :| ChosenBy(reg, roots, r, n, c);
        AskedGrows(reg, roots, r, r', Dep(n, c));
        assert ChosenBy(reg, roots, r', n, c);
      } else {
        assert d == Dep(n, d.constraint) && ChosenBy(reg, roots, r', n, d.constraint);
        if d in roots {
          NeededRoot(reg, roots, r', d);
        } else {
          var a :| a in r && (a, r[a]) in reg && d in reg[(a, r[a])];
          NeededGrows(reg, roots, r, r', a);
          NeededNext(reg, roots, r', a, d);
        }
      }
    }
  }

  /** Two requests that cannot both be served, the first having chosen. */
  ghost predicate Clash(reg: Registry, roots: seq<Dep>, d: Dep, existing: Version) {
    && !Matches(d.constraint, existing)
    && exists r: Resolved :: d.name in r && r[d.name] == existing && Justified(reg, roots, r) && Asked(reg, roots, r, d)
  }

  lemma NextQueues(reg: Registry, queue: seq<Dep>, r: Resolved, names: set<string>)
    requires Universe(names, reg, queue) && queue != []
    ensures var d, rest := queue[|queue| - 1], queue[..|queue| - 1];
            && Universe(names, reg, rest)
            && (forall v :: Universe(names, reg, rest + DepsOf(reg, d.name, v)))
            && (d.name !in r ==> |names - (r.Keys + {d.name})| < |names - r.Keys|)
  {
    var d, rest := queue[|queue| - 1], queue[..|queue| - 1];
    assert d in queue && forall e :: e in rest ==> e in queue;
    if d.name !in r {
      Fewer(names, r.Keys, r.Keys + {d.name});
    }
  }

  /** The worklist as a function: the last request is served first; a name keeps the version that its
      first request chose. */
  function Resolve(reg: Registry, queue: seq<Dep>, r: Resolved, ghost names: set<string>): Resolution
    requires Universe(names, reg, queue)
    decreases |names - r.Keys|, |queue|
  {
    if queue == [] then Ok(r)
    else
      NextQueues(reg, queue, r, names);
      var d, rest := queue[|queue| - 1], queue[..|queue| - 1];
      if d.name !in r then
        assert r[d.name := Chosen(d.constraint)].Keys == r.Keys + {d.name};
        Resolve(reg, rest + DepsOf(reg, d.name, Chosen(d.constraint)), r[d.name := Chosen(d.constraint)], names)
      else if Matches(d.constraint, r[d.name]) then Resolve(reg, rest, r, names)
      else Conflict(d, r[d.name])
  }

  lemma ResolveStep(reg: Registry, queue: seq<Dep>, r: Resolved, names: set<string>)
    requires Universe(names, reg, queue) && queue != []
    ensures var d, rest := queue[|queue| - 1], queue[..|queue| - 1];
            var v := Chosen(d.constraint);
            && Universe(names, reg, rest) && Universe(names, reg, rest + DepsOf(reg, d.name, v))
            && (d.name !in r ==> |names - (r.Keys + {d.name})| < |names - r.Keys|)
            && Resolve(reg, queue, r, names)
            == if d.name !in r then Resolve(reg, rest + DepsOf(reg, d.name, v), r[d.name := v], names)
               else if Matches(d.constraint, r[d.name]) then Resolve(reg, rest, r, names)
               else Conflict(d, r[d.name])
  {
    NextQueues(reg, queue, r, names);
  }

  lemma ResolveDone(reg: Registry, r: Resolved, names: set<string>)
    requires Universe(names, reg, [])
    ensures Resolve(reg, [], r, names) == Ok(r)
  {
  }

  /** What holds whenever the worklist is looked at. */
  ghost predicate Working(reg: Registry, roots: seq<Dep>, queue: seq<Dep>, r: Resolved) {
    AllAsked(reg, roots, queue, r) && Pending(reg, roots, queue, r) && Justified(reg, roots, r)
  }

  lemma WorkSkips(reg: Registry, roots: seq<Dep>, rest: seq<Dep>, d: Dep, r: Resolved)
    requires Working(reg, roots, rest + [d], r) && d.name in r
    ensures if Matches(d.constraint, r[d.name]) then Working(reg, roots, rest, r) else Clash(reg, roots, d, r[d.name])
  {
    LastOf(reg, roots, rest, d, r);
    if Matches(d.constraint, r[d.name]) {
      PendingMet(reg, roots, rest, d, r);
    } else {
      Clashes(reg, roots, d, r);
    }
  }

  lemma WorkGoesOn(reg: Registry, roots: seq<Dep>, rest: seq<Dep>, d: Dep, r: Resolved)
    requires Working(reg, roots, rest + [d], r) && d.name !in r
    ensures var v := Chosen(d.constraint); Working(reg, roots, rest + DepsOf(reg, d.name, v), r[d.name := v])
  {
    hide AllAsked, Pending, Justified, Asked;
    LastOf(reg, roots, rest, d, r);
    AllAskedNew(reg, roots, rest, d, r);
    PendingNew(reg, roots, rest, d, r);
    JustifiedNew(reg, roots, d, r);
  }

  /** Always ends. Success is closed under dependencies with every constraint met, holds nothing that
      is not needed, and every version is the one chosen by a constraint that was asked for; failure
      names a constraint that was asked for and the chosen version it does not match. */
  method ResolveDeps(reg: Registry, roots: seq<Dep>, ghost names: set<string>) returns (x: Resolution)
    requires Universe(names, reg, roots)
    ensures x.Ok? ==> Complete(reg, roots, x.resolved) && Justified(reg, roots, x.resolved)
    ensures x.Conflict? ==> Clash(reg, roots, x.dep, x.existing)
    ensures x == Resolve(reg, roots, map[], names)
  {
    hide Working, Justified, Complete, Matches, Chosen, Clash, Universe, DepsOf, Resolve;
    var resolved: Resolved := map[];
    var visited: set<string> := {};
    var queue := roots;
    Begin(reg, roots);
    while queue != []
      invariant visited == resolved.Keys && Universe(names, reg, queue) && Working(reg, roots, queue, resolved)
      invariant Resolve(reg, queue, resolved, names) == Resolve(reg, roots, map[], names)
      decreases |names - visited|, |queue|
    {
      var dep := queue[|queue| - 1];
      var rest := queue[..|queue| - 1];
      assert queue == rest + [dep];
      ResolveStep(reg, queue, resolved, names);
      if dep.name in visited {
        WorkSkips(reg, roots, rest, dep, resolved);
        var existing := resolved[dep.name];
        if !Matches(dep.constraint, existing) {
          return Conflict(dep, existing);
        }
        queue := rest;
        continue;
      }
      WorkGoesOn(reg, roots, rest, dep, resolved);
      visited := visited + {dep.name};
      var v := Chosen(dep.constraint);
      resolved := resolved[dep.name := v];
      queue := rest + DepsOf(reg, dep.name, v);
    }
    Finish(reg, roots, resolved);
    ResolveDone(reg, resolved, names);
    x := Ok(resolved);
  }

  lemma Begin(reg: Registry, roots: seq<Dep>)
    ensures Working(reg, roots, roots, map[])
  {
  }

  lemma LastOf(reg: Registry, roots: seq<Dep>, rest: seq<Dep>, d: Dep, r: Resolved)
    requires AllAsked(reg, roots, rest + [d], r)
    ensures AllAsked(reg, roots, rest, r) && Asked(reg, roots, r, d)
  {
    hide Asked;
    assert d in rest + [d];
    assert forall e :: e in rest ==> e in rest + [d];
  }

  lemma Clashes(reg: Registry, roots: seq<Dep>, d: Dep, r: Resolved)
    requires d.name in r && !Matches(d.constraint, r[d.name]) && Justified(reg, roots, r) && Asked(reg, roots, r, d)
    ensures Clash(reg, roots, d, r[d.name])
  {
    hide Justified, Asked;
  }

  lemma PendingMet(reg: Registry, roots: seq<Dep>, rest: seq<Dep>, d: Dep, r: Resolved)
    requires Pending(reg, roots, rest + [d], r) && d.name in r && Matches(d.constraint, r[d.name])
    ensures Pending(reg, roots, rest, r)
  {
  }

  lemma Finish(reg: Registry, roots: seq<Dep>, r: Resolved)
    requires Working(reg, roots, [], r)
    ensures Complete(reg, roots, r) && Justified(reg, roots, r)
  {
  }

  /** The order of the requests matters: if `*` comes first it settles on 0.1.0, and `^1.0.0` then
      conflicts; the other way round both are served. */
  lemma FirstComeFirstServed(reg: Registry, n: string, names: set<string>)
    requires n in names && Universe(names, reg, []) && reg.Keys == {}
    ensures var one := Version(1, 0, 0);
            && Resolve(reg, [Dep(n, Caret(one)), Dep(n, Any)], map[], names) == Conflict(Dep(n, Caret(one)), Version(0, 1, 0))
            && Resolve(reg, [Dep(n, Any), Dep(n, Caret(one))], map[], names) == Ok(map[n := one])
  {
    var one := Version(1, 0, 0);
    var a, b := Dep(n, Caret(one)), Dep(n, Any);
    Second(reg, a, b, names);
    Second(reg, b, a, names);
  }

  /** Two requests for one package are served alike in both orders exactly if both would choose the same
      version. */
  lemma ServedAlike(reg: Registry, a: Dep, b: Dep, names: set<string>)
    requires a.name == b.name && a.name in names && Universe(names, reg, []) && reg.Keys == {}
    ensures Resolve(reg, [a, b], map[], names) == Resolve(reg, [b, a], map[], names)
       <==> Chosen(a.constraint) == Chosen(b.constraint)
  {
    hide Matches, Chosen, Resolve, Universe;
    Second(reg, a, b, names);
    Second(reg, b, a, names);
    ChosenMatches(a.constraint);
    ChosenMatches(b.constraint);
    assert map[a.name := Chosen(a.constraint)][a.name] == Chosen(a.constraint);
    assert map[a.name := Chosen(b.constraint)][a.name] == Chosen(b.constraint);
  }

  /** Two requests for one package that has no dependencies: the later one is served, and the other
      must match. */
  lemma Second(reg: Registry, a: Dep, b: Dep, names: set<string>)
    requires a.name == b.name && a.name in names && Universe(names, reg, []) && reg.Keys == {}
    ensures Resolve(reg, [a, b], map[], names)
         == if Matches(a.constraint, Chosen(b.constraint)) then Ok(map[a.name := Chosen(b.constraint)])
            else Conflict(a, Chosen(b.constraint))
  {
    var v := Chosen(b.constraint);
    assert [a, b][..1] == [a] && [a] + DepsOf(reg, b.name, v) == [a] && [a][..0] == [];
    var r: Resolved := map[];
    assert Resolve(reg, [a, b], r, names) == Resolve(reg, [a], r[b.name := v], names);
  }
}
