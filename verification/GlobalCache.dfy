/** Global variables behind an inline cache: stores go to the cache alone while a name is cached, and
    are written back when the cache is emptied. To the program it is one map; a value set from
    outside can be lost. */
module GlobalCache {
  import opened Values

  type Cache = seq<Option<Value>>

  ghost predicate Distinct(pool: seq<string>) {
    forall i, j :: 0 <= i < j < |pool| ==> pool[i] != pool[j]
  }

  predicate CachedAt(pool: seq<string>, cache: Cache, i: nat, name: string) {
    i < |cache| && i < |pool| && pool[i] == name && cache[i].Some?
  }

  predicate Cached(pool: seq<string>, cache: Cache, name: string) {
    exists i :: 0 <= i < |cache| && CachedAt(pool, cache, i, name)
  }

  function Stored(globals: map<string, Value>, name: string): Value {
    if name in globals then globals[name] else Null
  }

  /** What the program sees under a name. */
  ghost function Seen(pool: seq<string>, globals: map<string, Value>, cache: Cache, name: string): Value {
    if Cached(pool, cache, name) then
      var i :| 0 <= i < |cache| && CachedAt(pool, cache, i, name);
      cache[i].value
    else Stored(globals, name)
  }

  lemma SeenAt(pool: seq<string>, globals: map<string, Value>, cache: Cache, i: nat)
    requires Distinct(pool) && i < |pool|
    ensures Seen(pool, globals, cache, pool[i])
         == if i < |cache| && cache[i].Some? then cache[i].value else Stored(globals, pool[i])
    ensures Cached(pool, cache, pool[i]) <==> i < |cache| && cache[i].Some?
  {
    if i < |cache| && cache[i].Some? {
      assert CachedAt(pool, cache, i, pool[i]);
    }
  }

  /** Changing the cache at one index concerns one name. */
  lemma SeenElsewhere(pool: seq<string>, g: map<string, Value>, g': map<string, Value>, c: Cache, c': Cache,
        i: nat, name: string)
    requires Distinct(pool) && i < |pool| && name != pool[i] && Stored(g, name) == Stored(g', name)
    requires forall j :: 0 <= j < |pool| && j != i ==> (j < |c| && c[j].Some? <==> j < |c'| && c'[j].Some?)
    requires forall j :: 0 <= j < |pool| && j != i && j < |c| && j < |c'| ==> c[j] == c'[j]
    ensures Seen(pool, g, c, name) == Seen(pool, g', c', name)
  {
    if k :| 0 <= k < |pool| && pool[k] == name {
      SeenAt(pool, g, c, k);
      SeenAt(pool, g', c', k);
    }
  }

  class Globals {
    const constants: seq<string>
    var globals: map<string, Value>
    var cache: Cache

    /** The constant pool holds every string once, and the empty string names no variable. */
    ghost predicate Valid()
      reads this
    {
      && Distinct(constants) && |cache| <= |constants|
      && (forall i :: 0 <= i < |cache| && cache[i].Some? ==> constants[i] != "")
    }

    ghost function Look(name: string): Value
      reads this
    {
      Seen(constants, globals, cache, name)
    }

    constructor (pool: seq<string>)
      requires Distinct(pool)
      ensures Valid() && constants == pool && forall n :: Look(n) == Null
    {
      constants, globals, cache := pool, map[], [];
    }

    method LoadGlobal(idx: nat) returns (v: Value)
      requires Valid() && idx < |constants| && constants[idx] != ""
      modifies this`cache
      ensures Valid() && v == old(Look(constants[idx])) && forall n :: Look(n) == old(Look(n))
    {
      ghost var name, c := constants[idx], cache;
      SeenAt(constants, globals, cache, idx);
      if idx < |cache| {
        if cache[idx].Some? {
          return cache[idx].value;
        }
        v := Stored(globals, constants[idx]);
        cache := cache[idx := Some(v)];
        SeenAt(constants, globals, cache, idx);
        forall n ensures Look(n) == old(Look(n)) {
          if n != name {
            SeenElsewhere(constants, globals, globals, c, cache, idx, n);
          }
        }
      } else {
        v := Stored(globals, constants[idx]);
      }
    }

    method StoreGlobal(idx: nat, v: Value)
      requires Valid() && idx < |constants| && constants[idx] != ""
      modifies this`cache, this`globals
      ensures Valid() && forall n :: Look(n) == if n == constants[idx] then v else old(Look(n))
    {
      ghost var name, c, g := constants[idx], cache, globals;
      if idx < |cache| && cache[idx].Some? {
        cache := cache[idx := Some(v)];
      } else {
        globals := globals[constants[idx] := v];
        if |cache| <= idx {
          cache := cache + seq(idx + 1 - |cache|, _ => None);
        }
        cache := cache[idx := Some(v)];
      }
      SeenAt(constants, globals, cache, idx);
      forall n ensures Look(n) == if n == name then v else old(Look(n)) {
        if n != name {
          SeenElsewhere(constants, g, globals, c, cache, idx, n);
        }
      }
    }

    /** Writes the cached values back and empties the cache. */
    method InvalidateGlobalCache()
      requires Valid()
      modifies this`cache, this`globals
      ensures Valid() && cache == [] && forall n :: Look(n) == old(Look(n)) && Stored(globals, n) == old(Look(n))
      ensures forall n :: n in old(globals) ==> n in globals
    {
      ghost var g := globals;
      var i := 0;
      while i < |cache|
        invariant 0 <= i <= |cache| && cache == old(cache) && Valid()
        invariant forall n :: n in g ==> n in globals
        invariant forall j :: 0 <= j < i && cache[j].Some? ==> Stored(globals, constants[j]) == cache[j].value
        invariant forall n :: (forall j :: 0 <= j < i ==> !CachedAt(constants, cache, j, n)) ==> Stored(globals, n) == Stored(g, n)
      {
        if cache[i].Some? {
          assert CachedAt(constants, cache, i, constants[i]);
          globals := globals[constants[i] := cache[i].value];
        }
        i := i + 1;
      }
      ghost var c := cache;
      forall n ensures Stored(globals, n) == Seen(constants, g, c, n) {
        if k :| 0 <= k < |c| && CachedAt(constants, c, k, n) {
          SeenAt(constants, g, c, k);
        } else {
          assert forall j :: 0 <= j < |c| ==> !CachedAt(constants, c, j, n);
        }
      }
      cache := [];
    }

    /** Sets a variable from outside: the value is stored first and the cache written back over it.
        The program sees the new value exactly when the name was not cached, or was cached with it. */
    method SetGlobal(name: string, v: Value)
      requires Valid()
      modifies this`cache, this`globals
      ensures Valid()
      ensures forall n :: n != name ==> Look(n) == old(Look(n))
      ensures Look(name) == if old(Cached(constants, cache, name)) then old(Look(name)) else v
      ensures Look(name) == v <==> !old(Cached(constants, cache, name)) || old(Look(name)) == v
    {
      ghost var g := globals;
      globals := globals[name := v];
      forall n ensures Look(n) == if n == name && !Cached(constants, cache, n) then v else Seen(constants, g, cache, n) {
        if k :| 0 <= k < |cache| && CachedAt(constants, cache, k, n) {
          SeenAt(constants, g, cache, k);
          SeenAt(constants, globals, cache, k);
        }
      }
      InvalidateGlobalCache();
    }
  }

  // ----- runs of loads and stores -----

  datatype Access = Load(idx: nat) | Store(idx: nat, v: Value)

  /** The accesses of a program against one map: the values the loads yield, and the map after them. */
  function Plainly(pool: seq<string>, vars: map<string, Value>, accesses: seq<Access>): (seq<Value>, map<string, Value>)
    requires forall k :: 0 <= k < |accesses| ==> accesses[k].idx < |pool|
  {
    if accesses == [] then ([], vars)
    else
      var (vs, m) := Plainly(pool, vars, accesses[..|accesses| - 1]);
      var a := accesses[|accesses| - 1];
      if a.Load? then (vs + [Stored(m, pool[a.idx])], m) else (vs, m[pool[a.idx] := a.v])
  }

  /** The cached variables do what one map does: every load yields the value stored last. */
  method Replay(pool: seq<string>, accesses: seq<Access>) returns (vs: seq<Value>, g: Globals)
    requires Distinct(pool) && forall k :: 0 <= k < |accesses| ==> accesses[k].idx < |pool| && pool[accesses[k].idx] != ""
    ensures vs == Plainly(pool, map[], accesses).0
    ensures fresh(g) && g.Valid() && g.constants == pool && forall n :: g.Look(n) == Stored(Plainly(pool, map[], accesses).1, n)
  {
    g := new Globals(pool);
    vs := [];
    var k := 0;
    assert accesses[..0] == [];
    while k < |accesses|
      invariant 0 <= k <= |accesses| && fresh(g) && g.Valid() && g.constants == pool
      invariant vs == Plainly(pool, map[], accesses[..k]).0
      invariant forall n :: g.Look(n) == Stored(Plainly(pool, map[], accesses[..k]).1, n)
    {
      assert accesses[..k + 1][..k] == accesses[..k] && accesses[..k + 1][k] == accesses[k];
      match accesses[k] {
        case Load(i) =>
          var v := g.LoadGlobal(i);
          vs := vs + [v];
        case Store(i, v) => g.StoreGlobal(i, v);
      }
      k := k + 1;
    }
    assert accesses[..k] == accesses;
  }
}
