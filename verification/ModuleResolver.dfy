/** Collecting a program and everything it imports, each text once, imports before importers.
    Texts stand for their hashes, and what a text imports is a function of the text. */
module ModuleResolver {
  import opened Sets

  /** An import names no file, a file that cannot be read, or a file with a text. */
  datatype Import = Missing | Unreadable | File(text: string)

  /** The imports of every text that parses. */
  type World = map<string, seq<Import>>

  datatype Found = Found(out: seq<string>, seen: set<string>)

  datatype Outcome = Outcome(ok: bool, s: Found)

  // ----- what is collected -----

  function Collect(w: World, src: string, s: Found): (r: Outcome)
    ensures s.seen <= r.s.seen
    decreases |w.Keys - s.seen|, 1, 0
  {
    if src in s.seen then Outcome(true, s)
    else
      var s1 := s.(seen := s.seen + {src});
      if src !in w then Outcome(false, s1)
      else
        Fewer(w.Keys, s.seen, s.seen + {src});
        var r := CollectAll(w, w[src], s1);
        if r.ok then Outcome(true, r.s.(out := r.s.out + [src])) else r
  }

  function CollectAll(w: World, imports: seq<Import>, s: Found): (r: Outcome)
    ensures s.seen <= r.s.seen
    decreases |w.Keys - s.seen|, 2, |imports|
  {
    if imports == [] then Outcome(true, s)
    else if imports[0].Missing? then Outcome(false, s)
    else if imports[0].Unreadable? then CollectAll(w, imports[1..], s)
    else
      var r := Collect(w, imports[0].text, s);
      if r.ok then
        Fewer(w.Keys, s.seen, r.s.seen);
        CollectAll(w, imports[1..], r.s)
      else r
  }

  // ----- reachability -----

  predicate Edge(w: World, a: string, b: string) {
    a in w && File(b) in w[a]
  }

  predicate IsPath(w: World, p: seq<string>) {
    p != [] && forall k :: 0 <= k < |p| - 1 ==> Edge(w, p[k], p[k + 1])
  }

  ghost predicate Reaches(w: World, a: string, b: string) {
    exists p :: IsPath(w, p) && p[0] == a && p[|p| - 1] == b
  }

  lemma ReachSelf(w: World, a: string)
    ensures Reaches(w, a, a)
  {
    assert IsPath(w, [a]) && [a][0] == a && [a][|[a]| - 1] == a;
  }

  lemma ReachStep(w: World, a: string, b: string, c: string)
    requires Edge(w, a, b) && Reaches(w, b, c)
    ensures Reaches(w, a, c)
  {
    var p :| IsPath(w, p) && p[0] == b && p[|p| - 1] == c;
    var q := [a] + p;
    assert forall k :: 0 <= k < |q| - 1 ==> q[k + 1] == p[k] && (k > 0 ==> q[k] == p[k - 1]);
    assert IsPath(w, q);
  }

  /** Importing `b` cannot put it before `a` only if the two lie on a cycle. */
  ghost predicate OnCycle(w: World, a: string, b: string) {
    Edge(w, a, b) && Reaches(w, b, a)
  }

  predicate Before(out: seq<string>, b: string, a: string) {
    exists i, j :: 0 <= i < j < |out| && out[i] == b && out[j] == a
  }

  function Texts(out: seq<string>): set<string> {
    set t | t in out
  }

  ghost predicate NoRepeats(out: seq<string>) {
    forall i, j :: 0 <= i < j < |out| ==> out[i] != out[j]
  }

  /** What a successful call has done: the new texts are exactly those appended, each once; every
      import of a new text has been seen; and it stands before its importer, or was being
      collected when the call began, or the two lie on a cycle. */
  ghost predicate Did(w: World, s: Found, s': Found, from: set<string>) {
    && Appended(s, s')
    && (forall t :: t in s'.seen - s.seen ==> Sound(w, from, t))
    && (forall t, b :: t in s'.seen - s.seen && Edge(w, t, b) ==> b in s'.seen && Placed(w, s, s', t, b))
  }

  ghost predicate Appended(s: Found, s': Found) {
    && s.seen <= s'.seen && s.out <= s'.out
    && Texts(s'.out[|s.out|..]) == s'.seen - s.seen
    && NoRepeats(s'.out[|s.out|..])
  }

  /** The text parses, has no missing import, and is reachable from one of `from`. */
  ghost predicate Sound(w: World, from: set<string>, t: string) {
    t in w && Missing !in w[t] && exists f :: f in from && Reaches(w, f, t)
  }

  ghost predicate Placed(w: World, s: Found, s': Found, t: string, b: string) {
    Before(s'.out, b, t) || (b in s.seen && b !in s.out) || Reaches(w, b, t)
  }

  function Files(imports: seq<Import>): set<string> {
    set i | i in imports && i.File? :: i.text
  }

  lemma DidNothing(w: World, s: Found, from: set<string>)
    ensures Did(w, s, s, from)
  {
    assert s.out[|s.out|..] == [];
  }

  lemma BeforeLater(a: seq<string>, b: seq<string>, x: string, y: string)
    requires Before(a, x, y) && a <= b
    ensures Before(b, x, y)
  {
    var i, j :| 0 <= i < j < |a| && a[i] == x && a[j] == y;
    assert b[i] == x && b[j] == y;
  }

  lemma AppendedTwice(s: Found, s1: Found, s2: Found)
    requires Appended(s, s1) && Appended(s1, s2)
    ensures Appended(s, s2)
  {
    var n1, n2 := s1.out[|s.out|..], s2.out[|s1.out|..];
    assert s2.out[|s.out|..] == n1 + n2;
    assert Texts(n1 + n2) == Texts(n1) + Texts(n2);
    forall i, j | 0 <= i < j < |n1 + n2| ensures (n1 + n2)[i] != (n1 + n2)[j] {
      if i < |n1| && j >= |n1| {
        assert n1[i] in Texts(n1) && n2[j - |n1|] in Texts(n2);
      }
    }
  }

  lemma SoundMore(w: World, from: set<string>, more: set<string>, t: string)
    requires Sound(w, from, t) && from <= more
    ensures Sound(w, more, t)
  {
  }

  lemma PlacedTwice(w: World, s: Found, s1: Found, s2: Found, t: string, b: string)
    requires Appended(s, s1) && Appended(s1, s2)
    requires Placed(w, s, s1, t, b) || Placed(w, s1, s2, t, b)
    ensures Placed(w, s, s2, t, b)
  {
    hide Reaches;
    if Before(s1.out, b, t) {
      BeforeLater(s1.out, s2.out, b, t);
    }
    if b in s1.seen && b !in s1.out {
      NotGrey(s, s1, b);
    }
  }

  lemma DidTwice(w: World, s: Found, s1: Found, s2: Found, f1: set<string>, f2: set<string>)
    requires Did(w, s, s1, f1) && Did(w, s1, s2, f2)
    ensures Did(w, s, s2, f1 + f2)
  {
    hide Sound, Placed, Edge;
    AppendedTwice(s, s1, s2);
    forall t | t in s2.seen - s.seen ensures Sound(w, f1 + f2, t) {
      SoundMore(w, if t in s1.seen then f1 else f2, f1 + f2, t);
    }
    forall t, b | t in s2.seen - s.seen && Edge(w, t, b) ensures b in s2.seen && Placed(w, s, s2, t, b) {
      PlacedTwice(w, s, s1, s2, t, b);
    }
  }

  /** A text that is being collected after a call was being collected before it. */
  lemma NotGrey(s: Found, s1: Found, b: string)
    requires Appended(s, s1) && b in s1.seen && b !in s1.out
    ensures b in s.seen && b !in s.out
  {
    var tail := s1.out[|s.out|..];
    assert b in Texts(tail) ==> b in s1.out;
  }

  lemma {:induction false} CollectDid(w: World, src: string, s: Found)
    requires Collect(w, src, s).ok && Texts(s.out) <= s.seen
    ensures Did(w, s, Collect(w, src, s).s, {src}) && src in Collect(w, src, s).s.seen
    ensures Texts(Collect(w, src, s).s.out) <= Collect(w, src, s).s.seen
    decreases |w.Keys - s.seen|, 1, 0
  {
    if src in s.seen {
      DidNothing(w, s, {src});
    } else {
      var s1 := s.(seen := s.seen + {src});
      Fewer(w.Keys, s.seen, s.seen + {src});
      CollectAllDid(w, w[src], s1);
      var s2 := CollectAll(w, w[src], s1).s;
      var s3 := s2.(out := s2.out + [src]);
      Finished(w, src, s, s1, s2, s3);
    }
  }

  /** The text itself comes last. */
  lemma Finished(w: World, src: string, s: Found, s1: Found, s2: Found, s3: Found)
    requires src !in s.seen && src in w && Texts(s.out) <= s.seen && Texts(s2.out) <= s2.seen
    requires s1 == s.(seen := s.seen + {src}) && s3 == s2.(out := s2.out + [src])
    requires Did(w, s1, s2, Files(w[src])) && Files(w[src]) <= s2.seen && Missing !in w[src]
    ensures Did(w, s, s3, {src}) && Texts(s3.out) <= s3.seen
  {
    hide Sound, Placed, Appended;
    AppendedLast(src, s, s1, s2, s3);
    forall t | t in s3.seen - s.seen ensures Sound(w, {src}, t) {
      SoundThrough(w, src, t);
    }
    forall t, b | t in s3.seen - s.seen && Edge(w, t, b) ensures b in s3.seen && Placed(w, s, s3, t, b) {
      if t == src {
        PlacedBefore(w, src, s, s1, s2, s3, b);
      } else {
        SoundThrough(w, src, t);
        PlacedLater(w, src, s, s1, s2, s3, t, b);
      }
    }
  }

  lemma AppendedLast(src: string, s: Found, s1: Found, s2: Found, s3: Found)
    requires src !in s.seen && Texts(s2.out) <= s2.seen && Appended(s1, s2)
    requires s1 == s.(seen := s.seen + {src}) && s3 == s2.(out := s2.out + [src])
    ensures Appended(s, s3) && Texts(s3.out) <= s3.seen
  {
    var n := s2.out[|s.out|..];
    assert s3.out[|s.out|..] == n + [src];
    assert src in n ==> src in Texts(n);
    assert Texts(n + [src]) == Texts(n) + {src};
    assert Texts(s2.out + [src]) == Texts(s2.out) + {src};
    assert s3.seen - s.seen == (s2.seen - s1.seen) + {src};
  }

  /** What is reachable from an import is reachable from the importer. */
  lemma SoundThrough(w: World, src: string, t: string)
    requires src in w && Missing !in w[src] && (t == src || Sound(w, Files(w[src]), t))
    ensures Sound(w, {src}, t) && Reaches(w, src, t)
  {
    hide Reaches;
    ReachSelf(w, src);
    if t != src {
      var f :| f in Files(w[src]) && Reaches(w, f, t);
      ReachStep(w, src, f, t);
    }
    assert src in {src};
  }

  lemma PlacedBefore(w: World, src: string, s: Found, s1: Found, s2: Found, s3: Found, b: string)
    requires src !in s.seen && src in w && Texts(s.out) <= s.seen && b in s2.seen && Appended(s1, s2)
    requires s1 == s.(seen := s.seen + {src}) && s3 == s2.(out := s2.out + [src])
    ensures Placed(w, s, s3, src, b)
  {
    if b in s2.out {
      var i :| 0 <= i < |s2.out| && s2.out[i] == b;
      assert s3.out[i] == b && s3.out[|s2.out|] == src;
      assert Before(s3.out, b, src);
    } else {
      NotGrey(s1, s2, b);
      ReachSelf(w, src);
    }
  }

  lemma PlacedLater(w: World, src: string, s: Found, s1: Found, s2: Found, s3: Found, t: string, b: string)
    requires Placed(w, s1, s2, t, b) && Reaches(w, src, t)
    requires s1 == s.(seen := s.seen + {src}) && s3 == s2.(out := s2.out + [src])
    ensures Placed(w, s, s3, t, b)
  {
    if Before(s2.out, b, t) {
      BeforeLater(s2.out, s3.out, b, t);
    }
  }

  lemma {:induction false} CollectAllDid(w: World, imports: seq<Import>, s: Found)
    requires CollectAll(w, imports, s).ok && Texts(s.out) <= s.seen
    ensures Did(w, s, CollectAll(w, imports, s).s, Files(imports)) && Files(imports) <= CollectAll(w, imports, s).s.seen
    ensures Missing !in imports && Texts(CollectAll(w, imports, s).s.out) <= CollectAll(w, imports, s).s.seen
    decreases |w.Keys - s.seen|, 2, |imports|
  {
    hide Did;
    if imports == [] {
      assert Files(imports) == {};
      DidNothing(w, s, {});
    } else {
      var rest := imports[1..];
      assert imports == [imports[0]] + rest;
      if imports[0].Unreadable? {
        CollectAllDid(w, rest, s);
        assert Files(imports) == Files(rest);
      } else {
        var t := imports[0].text;
        CollectDid(w, t, s);
        var r := Collect(w, t, s);
        Fewer(w.Keys, s.seen, r.s.seen);
        CollectAllDid(w, rest, r.s);
        DidTwice(w, s, r.s, CollectAll(w, rest, r.s).s, {t}, Files(rest));
        assert Files(imports) == {t} + Files(rest);
      }
    }
  }

  const NOTHING: Found := Found([], {})

  lemma {:induction false} ClosedReach(w: World, seen: set<string>, p: seq<string>)
    requires IsPath(w, p) && p[0] in seen
    requires forall t, b :: t in seen && Edge(w, t, b) ==> b in seen
    ensures p[|p| - 1] in seen
    decreases |p|
  {
    if |p| > 1 {
      var q := p[..|p| - 1];
      assert forall k :: 0 <= k < |q| ==> q[k] == p[k];
      ClosedReach(w, seen, q);
      assert Edge(w, p[|p| - 2], p[|p| - 1]);
    }
  }

  /** Success lists exactly the reachable texts, each once; and an import stands before its importer
      unless the two lie on a cycle. */
  lemma CollectsReachable(w: World, src: string)
    requires Collect(w, src, NOTHING).ok
    ensures var out := Collect(w, src, NOTHING).s.out;
            && NoRepeats(out)
            && (forall t :: t in out <==> Reaches(w, src, t))
            && (forall a, b :: a in out && Edge(w, a, b) ==> Before(out, b, a) || OnCycle(w, a, b))
  {
    CollectDid(w, src, NOTHING);
    var s := Collect(w, src, NOTHING).s;
    assert s.out[0..] == s.out;
    assert Texts(s.out) == s.seen;
    forall t ensures t in s.out <==> Reaches(w, src, t) {
      if Reaches(w, src, t) {
        var p :| IsPath(w, p) && p[0] == src && p[|p| - 1] == t;
        ClosedReach(w, s.seen, p);
        assert t in Texts(s.out);
      }
      if t in s.out {
        assert t in Texts(s.out);
      }
    }
    forall a, b | a in s.out && Edge(w, a, b) ensures Before(s.out, b, a) || OnCycle(w, a, b) {
      assert a in Texts(s.out);
      assert Placed(w, NOTHING, s, a, b);
    }
  }

  ghost predicate Ordered(w: World, out: seq<string>) {
    forall a, b :: a in out && Edge(w, a, b) ==> Before(out, b, a)
  }

  /** Along a path in a list that puts imports first, every step goes to the left. */
  lemma {:induction false} PathGoesLeft(w: World, out: seq<string>, p: seq<string>, i: nat, j: nat)
    requires Ordered(w, out) && NoRepeats(out) && IsPath(w, p)
    requires i < |out| && out[i] == p[0] && j < |out| && out[j] == p[|p| - 1]
    ensures j <= i
    decreases |p|
  {
    if |p| > 1 {
      assert Edge(w, p[0], p[1]) && p[0] in out;
      var m, n :| 0 <= m < n < |out| && out[m] == p[1] && out[n] == p[0];
      assert n == i;
      var q := p[1..];
      assert IsPath(w, q) by {
        forall k | 0 <= k < |q| - 1 ensures Edge(w, q[k], q[k + 1]) {
          assert q[k] == p[k + 1] && q[k + 1] == p[k + 2];
        }
      }
      PathGoesLeft(w, out, q, m, j);
    }
  }

  /** In such a list no text is reached from its imports. */
  lemma OrderBreaksCycle(w: World, out: seq<string>, a: string, b: string)
    requires Ordered(w, out) && NoRepeats(out) && a in out && Edge(w, a, b)
    ensures !OnCycle(w, a, b)
  {
    assert Before(out, b, a);
    var i, j :| 0 <= i < j < |out| && out[i] == b && out[j] == a;
    if Reaches(w, b, a) {
      var p :| IsPath(w, p) && p[0] == b && p[|p| - 1] == a;
      PathGoesLeft(w, out, p, i, j);
    }
  }

  /** The list is in dependency order exactly if no import of a text in it lies on a cycle. */
  lemma OrderedExact(w: World, src: string)
    requires Collect(w, src, NOTHING).ok
    ensures var out := Collect(w, src, NOTHING).s.out;
            Ordered(w, out) <==> forall a, b :: a in out && Edge(w, a, b) ==> !OnCycle(w, a, b)
  {
    hide Reaches, Collect;
    CollectsReachable(w, src);
    var out := Collect(w, src, NOTHING).s.out;
    if Ordered(w, out) {
      forall a, b | a in out && Edge(w, a, b) ensures !OnCycle(w, a, b) {
        OrderBreaksCycle(w, out, a, b);
      }
    }
  }

  // a imports b, and b imports a
  const RING: World := map["a" := [File("b")], "b" := [File("a")]]

  /** Two texts that import each other are both collected, and not in order. */
  lemma RingOutOfOrder()
    ensures Collect(RING, "a", NOTHING).ok && Collect(RING, "a", NOTHING).s.out == ["b", "a"]
    ensures !Ordered(RING, ["b", "a"])
  {
    var s1, s2, s3 := Found([], {"a"}), Found([], {"a", "b"}), Found(["b"], {"a", "b"});
    assert {} + {"a"} == {"a"} && {"a"} + {"b"} == {"a", "b"};
    OneImport(RING, "a", s2);
    assert Collect(RING, "b", s1) == Outcome(true, s3) by {
      assert s1.(seen := s1.seen + {"b"}) == s2;
      assert s2.(out := s2.out + ["b"]) == s3;
    }
    OneImport(RING, "b", s1);
    assert NOTHING.(seen := NOTHING.seen + {"a"}) == s1;
    assert s3.out + ["a"] == ["b", "a"];
    assert Edge(RING, "b", "a");
  }

  lemma OneImport(w: World, t: string, s: Found)
    ensures CollectAll(w, [File(t)], s) == Collect(w, t, s)
  {
    assert [File(t)][1..] == [];
  }

  // ----- failure -----

  /** A text stops the collection: it does not parse, or names a file that is not there. */
  predicate Broken(w: World, t: string) {
    t !in w || Missing in w[t]
  }

  lemma {:induction false} FailureFound(w: World, src: string, s: Found)
    requires !Collect(w, src, s).ok
    ensures exists t :: Reaches(w, src, t) && Broken(w, t)
    decreases |w.Keys - s.seen|, 1, 0
  {
    ReachSelf(w, src);
    if src in w {
      Fewer(w.Keys, s.seen, s.seen + {src});
      FailureFoundIn(w, src, w[src], s.(seen := s.seen + {src}));
    }
  }

  lemma {:induction false} FailureFoundIn(w: World, src: string, imports: seq<Import>, s: Found)
    requires src in w && (forall i :: i in imports ==> i in w[src]) && !CollectAll(w, imports, s).ok
    ensures exists t :: Reaches(w, src, t) && Broken(w, t)
    decreases |w.Keys - s.seen|, 2, |imports|
  {
    ReachSelf(w, src);
    assert imports[0] in imports && forall i :: i in imports[1..] ==> i in imports;
    if imports[0].Missing? {
    } else if imports[0].Unreadable? {
      FailureFoundIn(w, src, imports[1..], s);
    } else {
      var t := imports[0].text;
      var r := Collect(w, t, s);
      if r.ok {
        Fewer(w.Keys, s.seen, r.s.seen);
        FailureFoundIn(w, src, imports[1..], r.s);
      } else {
        FailureFound(w, t, s);
        var u :| Reaches(w, t, u) && Broken(w, u);
        ReachStep(w, src, t, u);
      }
    }
  }

  /** The collection succeeds exactly when no reachable text is broken. */
  lemma SucceedsIff(w: World, src: string)
    ensures Collect(w, src, NOTHING).ok <==> forall t :: Reaches(w, src, t) ==> !Broken(w, t)
  {
    if Collect(w, src, NOTHING).ok {
      CollectDid(w, src, NOTHING);
      CollectsReachable(w, src);
      var s := Collect(w, src, NOTHING).s;
      assert s.out[0..] == s.out;
      forall t | Reaches(w, src, t) ensures !Broken(w, t) {
        assert t in Texts(s.out);
      }
    } else {
      FailureFound(w, src, NOTHING);
    }
  }

  // ----- the resolver as it runs -----

  class Resolver {
    var out: seq<string>
    var seen: set<string>

    constructor ()
      ensures State() == NOTHING
    {
      out, seen := [], {};
    }

    function State(): Found
      reads this
    {
      Found(out, seen)
    }

    method CollectModules(w: World, src: string) returns (ok: bool)
      modifies this
      ensures Outcome(ok, State()) == Collect(w, src, old(State()))
      decreases |w.Keys - seen|, 1
    {
      if src in seen {
        return true;
      }
      seen := seen + {src};
      if src !in w {
        return false;
      }
      Fewer(w.Keys, old(seen), old(seen) + {src});
      var imports := w[src];
      var k := 0;
      assert imports[0..] == imports;
      while k < |imports|
        decreases |imports| - k
        invariant 0 <= k <= |imports| && old(seen) + {src} <= seen
        invariant CollectAll(w, imports[k..], State()) == CollectAll(w, imports, old(State()).(seen := old(seen) + {src}))
      {
        assert imports[k..][0] == imports[k] && imports[k..][1..] == imports[k + 1..];
        match imports[k] {
          case Missing => return false;
          case Unreadable =>
          case File(text) =>
            Fewer(w.Keys, old(seen) + {src}, seen);
            ok := CollectModules(w, text);
            if !ok {
              return;
            }
        }
        k := k + 1;
      }
      out := out + [src];
      ok := true;
    }
  }
}
