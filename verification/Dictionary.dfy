/** The dictionary of the run-time library: open addressing with linear probing that wraps around,
    never growing. It behaves as a map for as long as a slot is free. */
module Dictionary {
  import opened Arithmetic

  datatype Slot = Empty | Key(k: string)

  const WORD: int := 0x1_0000_0000_0000_0000

  function Hash(s: string): nat {
    if s == "" then 0 else (Hash(s[..|s| - 1]) * 31 + s[|s| - 1] as int) % WORD
  }

  function Power31(n: nat): nat {
    if n == 0 then 1 else 31 * Power31(n - 1)
  }

  /** The characters as the digits of a number to the base of thirty-one, the first one the highest. */
  function Weighted(s: string): nat {
    if s == "" then 0 else s[0] as int * Power31(|s| - 1) + Weighted(s[1..])
  }

  lemma {:induction false} WeightedLast(s: string, c: char)
    ensures Weighted(s + [c]) == 31 * Weighted(s) + c as int
  {
    if s == "" {
      assert (s + [c])[1..] == "" && Power31(0) == 1;
      assert (s + [c])[0] as int * Power31(0) == c as int;
    } else {
      assert (s + [c])[1..] == s[1..] + [c];
      WeightedLast(s[1..], c);
      assert s[0] as int * (31 * Power31(|s| - 1)) == 31 * (s[0] as int * Power31(|s| - 1));
    }
  }

  /** A number may be cut before it is multiplied and added to. */
  lemma CutBefore(w: nat, c: nat)
    ensures (w % WORD * 31 + c) % WORD == (31 * w + c) % WORD
  {
    var q, h := w / WORD, w % WORD;
    var x := h * 31 + c;
    assert 31 * w + c == WORD * (31 * q + x / WORD) + x % WORD;
    DivUnique(31 * w + c, WORD, 31 * q + x / WORD, x % WORD);
  }

  /** The hash is that number, cut to sixty-four bits. */
  lemma {:induction false} HashExact(s: string)
    ensures Hash(s) == Weighted(s) % WORD
  {
    hide Weighted;
    if s != "" {
      var front, c := s[..|s| - 1], s[|s| - 1];
      assert s == front + [c];
      HashExact(front);
      WeightedLast(front, c);
      CutBefore(Weighted(front), c as int);
    } else {
      assert Weighted("") == 0 by { WeightedNothing(); }
    }
  }

  lemma WeightedNothing()
    ensures Weighted("") == 0
  {
  }

  /** The slot looked at after `d` steps. */
  function At(cap: nat, s: string, d: nat): nat
    requires cap > 0
  {
    (Hash(s) + d) % cap
  }

  // ----- slots and the map they hold -----

  function Count(keys: seq<Slot>): nat {
    if keys == [] then 0 else Count(keys[..|keys| - 1]) + if keys[|keys| - 1].Key? then 1 else 0
  }

  function Pairs(keys: seq<Slot>, vals: seq<int>): map<string, int>
    requires |keys| == |vals|
  {
    if keys == [] then map[]
    else
      var n := |keys| - 1;
      var m := Pairs(keys[..n], vals[..n]);
      if keys[n].Key? then m[keys[n].k := vals[n]] else m
  }

  ghost predicate Unique(keys: seq<Slot>) {
    forall i, j :: 0 <= i < j < |keys| && keys[i].Key? ==> keys[i] != keys[j]
  }

  lemma {:induction false} PairsKeys(keys: seq<Slot>, vals: seq<int>)
    requires |keys| == |vals|
    ensures forall s :: s in Pairs(keys, vals) <==> Key(s) in keys
  {
    if keys != [] {
      var n := |keys| - 1;
      PairsKeys(keys[..n], vals[..n]);
      assert keys == keys[..n] + [keys[n]];
    }
  }

  lemma {:induction false} PairsValue(keys: seq<Slot>, vals: seq<int>, j: nat)
    requires |keys| == |vals| && Unique(keys) && j < |keys| && keys[j].Key?
    ensures keys[j].k in Pairs(keys, vals) && Pairs(keys, vals)[keys[j].k] == vals[j]
  {
    var n := |keys| - 1;
    if j < n {
      PairsValue(keys[..n], vals[..n], j);
    }
  }

  lemma {:induction false} PairsSize(keys: seq<Slot>, vals: seq<int>)
    requires |keys| == |vals| && Unique(keys)
    ensures |Pairs(keys, vals)| == Count(keys)
  {
    if keys != [] {
      var n := |keys| - 1;
      PairsSize(keys[..n], vals[..n]);
      var m := Pairs(keys[..n], vals[..n]);
      if keys[n].Key? {
        PairsKeys(keys[..n], vals[..n]);
        assert keys[n] !in keys[..n];
        assert m[keys[n].k := vals[n]].Keys == m.Keys + {keys[n].k};
        assert |m| == |m.Keys|;
        assert |m[keys[n].k := vals[n]]| == |m[keys[n].k := vals[n]].Keys|;
      }
    }
  }

  /** The map holds the slots, each key once. */
  lemma PairsMean(keys: seq<Slot>, vals: seq<int>)
    requires |keys| == |vals| && Unique(keys)
    ensures forall j :: 0 <= j < |keys| && keys[j].Key? ==> keys[j].k in Pairs(keys, vals) && Pairs(keys, vals)[keys[j].k] == vals[j]
    ensures forall s :: s in Pairs(keys, vals) <==> Key(s) in keys
    ensures |Pairs(keys, vals)| == Count(keys)
  {
    hide Pairs, Count, Unique;
    PairsKeys(keys, vals);
    PairsSize(keys, vals);
    forall j | 0 <= j < |keys| && keys[j].Key? ensures keys[j].k in Pairs(keys, vals) && Pairs(keys, vals)[keys[j].k] == vals[j] {
      PairsValue(keys, vals, j);
    }
  }

  lemma {:induction false} CountSet(keys: seq<Slot>, j: nat, s: string)
    requires j < |keys|
    ensures Count(keys[j := Key(s)]) == Count(keys) + if keys[j].Key? then 0 else 1
  {
    var n := |keys| - 1;
    if j < n {
      CountSet(keys[..n], j, s);
      assert keys[j := Key(s)][..n] == keys[..n][j := Key(s)];
    } else {
      assert keys[j := Key(s)][..n] == keys[..n];
    }
  }

  lemma {:induction false} CountFull(keys: seq<Slot>)
    ensures Count(keys) <= |keys| && (Count(keys) == |keys| <==> Empty !in keys)
  {
    if keys != [] {
      var n := |keys| - 1;
      CountFull(keys[..n]);
      assert keys == keys[..n] + [keys[n]];
    }
  }

  lemma {:induction false} CountNone(n: nat, keys: seq<Slot>)
    requires keys == seq(n, _ => Empty)
    ensures Count(keys) == 0
  {
    if n > 0 {
      assert keys[..n - 1] == seq(n - 1, _ => Empty);
      CountNone(n - 1, keys[..n - 1]);
    }
  }

  // ----- probing -----

  /** Every key is found by probing: the slots before its own are taken by other keys. */
  ghost predicate Findable(keys: seq<Slot>, j: nat, d: nat)
    requires j < |keys| && keys[j].Key?
  {
    && d < |keys| && At(|keys|, keys[j].k, d) == j
    && forall e: nat :: e < d ==> Passes(keys, keys[j].k, e)
  }

  /** The probe for `s` goes past the slot it meets after `d` steps. */
  predicate Passes(keys: seq<Slot>, s: string, d: nat)
    requires keys != []
  {
    var slot := keys[At(|keys|, s, d)];
    slot.Key? && slot.k != s
  }

  ghost predicate Settled(keys: seq<Slot>, j: nat)
    requires j < |keys| && keys[j].Key?
  {
    exists d: nat :: Findable(keys, j, d)
  }

  ghost predicate Probed(keys: seq<Slot>) {
    forall j :: 0 <= j < |keys| && keys[j].Key? ==> Settled(keys, j)
  }

  lemma StepAt(cap: nat, s: string, d: nat)
    requires cap > 0
    ensures At(cap, s, d + 1) == (At(cap, s, d) + 1) % cap
  {
    ModNext(Hash(s) + d, cap);
  }

  lemma ModNext(a: nat, cap: nat)
    requires cap > 0
    ensures (a + 1) % cap == (a % cap + 1) % cap
  {
    var q, r := a / cap, a % cap;
    assert a == cap * q + r;
    if r + 1 < cap {
      ModIs(a + 1, cap, q, r + 1);
      ModIs(r + 1, cap, 0, r + 1);
    } else {
      assert a + 1 == cap * (q + 1);
      ModIs(a + 1, cap, q + 1, 0);
      ModIs(cap, cap, 1, 0);
    }
  }

  lemma ModIs(a: nat, cap: nat, q: nat, r: nat)
    requires cap > 0 && a == cap * q + r && r < cap
    ensures a % cap == r
  {
    DivUnique(a, cap, q, r);
  }

  /** Within one round the probe meets every slot. */
  lemma Meets(cap: nat, s: string, j: nat) returns (d: nat)
    requires j < cap
    ensures d < cap && At(cap, s, d) == j
  {
    var h := Hash(s);
    var r := h % cap;
    assert h == cap * (h / cap) + r;
    if j >= r {
      d := j - r;
      ModIs(h + d, cap, h / cap, j);
    } else {
      d := j + cap - r;
      assert h + d == cap * (h / cap + 1) + j;
      ModIs(h + d, cap, h / cap + 1, j);
    }
  }

  /** The probe for a key comes to an end exactly when a slot is empty or the key is there; when it
      does, it does so within one round. */
  lemma ProbeEndsIff(keys: seq<Slot>, s: string)
    requires keys != []
    ensures (exists d: nat :: !Passes(keys, s, d)) <==> Empty in keys || Key(s) in keys
    ensures (exists d: nat :: !Passes(keys, s, d)) ==> exists d: nat :: d < |keys| && !Passes(keys, s, d)
  {
    if Empty in keys || Key(s) in keys {
      var j :| 0 <= j < |keys| && (keys[j] == Empty || keys[j] == Key(s));
      var d := Meets(|keys|, s, j);
      assert !Passes(keys, s, d);
    }
    if d: nat :| !Passes(keys, s, d) {
      var slot := keys[At(|keys|, s, d)];
      assert slot in keys;
      assert slot == Empty || slot == Key(s);
    }
  }

  lemma SamePlace(keys: seq<Slot>, i: nat, d: nat, j: nat, e: nat)
    requires i < |keys| && j < |keys| && keys[i].Key? && keys[i] == keys[j] && Findable(keys, i, d) && Findable(keys, j, e)
    ensures i == j
  {
    assert d < e ==> Passes(keys, keys[j].k, d);
    assert e < d ==> Passes(keys, keys[i].k, e);
  }

  lemma ProbedUnique(keys: seq<Slot>)
    requires Probed(keys)
    ensures Unique(keys)
  {
    hide Findable;
    forall i: nat, j: nat | i < j < |keys| && keys[i].Key? ensures keys[i] != keys[j] {
      if keys[i] == keys[j] {
        assert Settled(keys, i) && Settled(keys, j);
        var d: nat :| Findable(keys, i, d);
        var e: nat :| Findable(keys, j, e);
        SamePlace(keys, i, d, j, e);
      }
    }
  }

  /** Where the probe for an absent key ends, it can be put: it and all other keys stay findable. */
  lemma PutFindable(keys: seq<Slot>, s: string, d: nat)
    requires keys != [] && Probed(keys) && d < |keys| && (forall e: nat :: e < d ==> Passes(keys, s, e))
    requires keys[At(|keys|, s, d)] == Empty
    ensures Probed(keys[At(|keys|, s, d) := Key(s)])
  {
    var at := At(|keys|, s, d);
    var after := keys[at := Key(s)];
    forall j | 0 <= j < |after| && after[j].Key? ensures Settled(after, j) {
      if j == at {
        forall e: nat | e < d ensures Passes(after, s, e) {
          assert Passes(keys, s, e);
        }
        assert Findable(after, j, d);
      } else {
        assert Settled(keys, j);
        var e: nat :| Findable(keys, j, e);
        StillFindable(keys, at, s, j, e);
      }
    }
  }

  lemma StillFindable(keys: seq<Slot>, at: nat, s: string, j: nat, e: nat)
    requires at < |keys| && keys[at] == Empty && j < |keys| && keys[j].Key? && Findable(keys, j, e)
    ensures Findable(keys[at := Key(s)], j, e)
  {
    var after := keys[at := Key(s)];
    forall f: nat | f < e ensures Passes(after, keys[j].k, f) {
      assert Passes(keys, keys[j].k, f);
    }
  }

  /** The probe for a key that is there ends at its slot. */
  lemma SameEnd(keys: seq<Slot>, s: string, j: nat, e: nat, d: nat)
    requires j < |keys| && keys[j] == Key(s) && Findable(keys, j, e)
    requires (forall f: nat :: f < d ==> Passes(keys, s, f)) && !Passes(keys, s, d)
    ensures d == e
  {
    assert !Passes(keys, s, e);
  }

  /** If the probe for `s` ends at an empty slot, `s` is not there. */
  lemma Absent(keys: seq<Slot>, s: string, d: nat)
    requires keys != [] && Probed(keys) && (forall e: nat :: e < d ==> Passes(keys, s, e)) && keys[At(|keys|, s, d)] == Empty
    ensures Key(s) !in keys
  {
    if Key(s) in keys {
      var j :| 0 <= j < |keys| && keys[j] == Key(s);
      assert Settled(keys, j);
      var e: nat :| Findable(keys, j, e);
      SameEnd(keys, s, j, e, d);
    }
  }

  // ----- the dictionary -----

  class Dict {
    var len: nat
    const keys: array<Slot>
    const vals: array<int>

    ghost predicate Valid()
      reads this, keys, vals
    {
      keys.Length == vals.Length && keys.Length > 0 && Probed(keys[..]) && len == Count(keys[..])
    }

    function Contents(): map<string, int>
      reads this, keys, vals
      requires keys.Length == vals.Length
    {
      Pairs(keys[..], vals[..])
    }

    ghost predicate HasRoom()
      reads this, keys
    {
      Empty in keys[..]
    }

    /** Twice as many slots as initial entries, and four more. */
    constructor (n: nat)
      ensures Valid() && fresh(keys) && fresh(vals) && keys.Length == 2 * n + 4 && len == 0
      ensures Contents() == map[]
    {
      var ks := new Slot[2 * n + 4](_ => Empty);
      var vs := new int[2 * n + 4](_ => 0);
      keys, vals, len := ks, vs, 0;
      new;
      assert keys[..] == seq(2 * n + 4, _ => Empty);
      CountNone(2 * n + 4, keys[..]);
      ProbedUnique(keys[..]);
      PairsMean(keys[..], vals[..]);
    }

    /** The slot of a key, or the free slot where it would go. */
    method Probe(s: string) returns (idx: nat, ghost d: nat)
      requires Valid() && (HasRoom() || Key(s) in keys[..])
      ensures idx < keys.Length && d < keys.Length && idx == At(keys.Length, s, d)
      ensures forall e: nat :: e < d ==> Passes(keys[..], s, e)
      ensures keys[idx] == Empty || keys[idx] == Key(s)
    {
      ProbeEndsIff(keys[..], s);
      ghost var last: nat :| last < keys.Length && !Passes(keys[..], s, last);
      idx := Hash(s) % keys.Length;
      d := 0;
      while keys[idx].Key? && keys[idx].k != s
        invariant d <= last && idx < keys.Length && idx == At(keys.Length, s, d)
        invariant forall e: nat :: e < d ==> Passes(keys[..], s, e)
        decreases last - d
      {
        assert Passes(keys[..], s, d);
        StepAt(keys.Length, s, d);
        idx := (idx + 1) % keys.Length;
        d := d + 1;
      }
    }

    method GetField(s: string) returns (v: int)
      requires Valid() && (HasRoom() || Key(s) in keys[..])
      ensures v == if s in Contents() then Contents()[s] else 0
    {
      var idx;
      ghost var d;
      idx, d := Probe(s);
      ProbedUnique(keys[..]);
      PairsMean(keys[..], vals[..]);
      if keys[idx] == Empty {
        Absent(keys[..], s, d);
        return 0;
      }
      v := vals[idx];
    }

    method SetField(s: string, v: int)
      requires Valid() && (HasRoom() || Key(s) in keys[..])
      modifies this`len, keys, vals
      ensures Valid() && Contents() == old(Contents())[s := v] && len == |Contents()|
    {
      var idx;
      ghost var d;
      idx, d := Probe(s);
      ghost var ks, vs := keys[..], vals[..];
      ProbedUnique(ks);
      if keys[idx] == Empty {
        Absent(ks, s, d);
        PutFindable(ks, s, d);
        CountSet(ks, idx, s);
        keys[idx] := Key(s);
        len := len + 1;
      }
      vals[idx] := v;
      assert keys[..] == ks[idx := Key(s)] && vals[..] == vs[idx := v];
      ProbedUnique(keys[..]);
      PairsMean(keys[..], vals[..]);
      PairsPut(ks, vs, idx, s, v);
    }
  }

  lemma PairsPut(keys: seq<Slot>, vals: seq<int>, j: nat, s: string, v: int)
    requires |keys| == |vals| && j < |keys| && Unique(keys) && Unique(keys[j := Key(s)])
    requires keys[j] == Key(s) || (keys[j] == Empty && Key(s) !in keys)
    ensures Pairs(keys[j := Key(s)], vals[j := v]) == Pairs(keys, vals)[s := v]
  {
    hide Pairs, Unique, Count;
    var keys', vals' := keys[j := Key(s)], vals[j := v];
    PairsMean(keys, vals);
    PairsMean(keys', vals');
    var a, b := Pairs(keys', vals'), Pairs(keys, vals)[s := v];
    KeysPut(keys, j, s);
    assert a.Keys == b.Keys;
    assert keys'[j] == Key(s);
    forall k | k in a ensures a[k] == b[k] {
      var i :| 0 <= i < |keys'| && keys'[i] == Key(k);
      assert i != j ==> keys[i] == Key(k);
    }
  }

  lemma KeysPut(keys: seq<Slot>, j: nat, s: string)
    requires j < |keys| && (keys[j] == Key(s) || keys[j] == Empty)
    ensures forall k :: Key(k) in keys[j := Key(s)] <==> Key(k) in keys || k == s
  {
    var keys' := keys[j := Key(s)];
    forall k ensures Key(k) in keys' <==> Key(k) in keys || k == s {
      assert keys'[j] == Key(s);
      if Key(k) in keys {
        var i :| 0 <= i < |keys| && keys[i] == Key(k);
        assert keys'[i] == Key(k);
      }
      if Key(k) in keys' {
        var i :| 0 <= i < |keys'| && keys'[i] == Key(k);
        assert i != j ==> keys[i] == Key(k);
      }
    }
  }

  /** There is room exactly while fewer keys than slots are in use. */
  lemma RoomIff(d: Dict)
    requires d.Valid()
    ensures d.HasRoom() <==> d.len < d.keys.Length
    ensures d.len == |d.Contents()|
  {
    CountFull(d.keys[..]);
    ProbedUnique(d.keys[..]);
    PairsMean(d.keys[..], d.vals[..]);
  }

  /** The entries one after the other; the last one for a key counts. */
  function Entered(entries: seq<(string, int)>): map<string, int> {
    if entries == [] then map[]
    else
      var e := entries[|entries| - 1];
      Entered(entries[..|entries| - 1])[e.0 := e.1]
  }

  lemma {:induction false} EnteredSize(entries: seq<(string, int)>)
    ensures |Entered(entries)| <= |entries|
  {
    if entries != [] {
      var rest, e := entries[..|entries| - 1], entries[|entries| - 1];
      EnteredSize(rest);
      if e.0 in Entered(rest) {
        assert Entered(entries).Keys == Entered(rest).Keys;
      } else {
        assert Entered(entries).Keys == Entered(rest).Keys + {e.0};
      }
      assert |Entered(entries)| == |Entered(entries).Keys| && |Entered(rest)| == |Entered(rest).Keys|;
    }
  }

  /** The place of the last entry for a key. */
  predicate LastFor(entries: seq<(string, int)>, s: string, k: nat) {
    k < |entries| && entries[k].0 == s && forall j :: k < j < |entries| ==> entries[j].0 != s
  }

  /** A key is there exactly if some entry has it, and has the value of the last one that does. */
  lemma {:induction false} EnteredExact(entries: seq<(string, int)>, s: string)
    ensures s in Entered(entries) <==> exists k :: 0 <= k < |entries| && entries[k].0 == s
    ensures forall k: nat :: LastFor(entries, s, k) ==> s in Entered(entries) && Entered(entries)[s] == entries[k].1
  {
    if entries != [] {
      var n := |entries| - 1;
      EnteredExact(entries[..n], s);
      if k :| 0 <= k < |entries| && entries[k].0 == s {
        assert k == n || entries[..n][k].0 == s;
      }
      forall k: nat | LastFor(entries, s, k) ensures s in Entered(entries) && Entered(entries)[s] == entries[k].1 {
        if k < n {
          assert LastFor(entries[..n], s, k);
        }
      }
    }
  }

  /** A dictionary literal: every key has the value given last, and more than half the slots are free. */
  method MakeDict(entries: seq<(string, int)>) returns (d: Dict)
    ensures fresh(d) && fresh(d.keys) && fresh(d.vals) && d.Valid() && d.Contents() == Entered(entries)
    ensures d.keys.Length == 2 * |entries| + 4 && d.len == |Entered(entries)| && 2 * d.len < d.keys.Length
  {
    d := new Dict(|entries|);
    assert entries[..0] == [];
    var i := 0;
    while i < |entries|
      invariant 0 <= i <= |entries| && fresh(d) && fresh(d.keys) && fresh(d.vals) && d.Valid()
      invariant d.keys.Length == 2 * |entries| + 4 && d.Contents() == Entered(entries[..i])
    {
      RoomIff(d);
      EnteredSize(entries[..i]);
      assert entries[..i + 1][..i] == entries[..i] && entries[..i + 1][i] == entries[i];
      d.SetField(entries[i].0, entries[i].1);
      i := i + 1;
    }
    assert entries[..i] == entries;
    RoomIff(d);
    EnteredSize(entries);
  }
}
