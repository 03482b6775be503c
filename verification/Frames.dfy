/** Stack frames: who gets a processor register, the prologue and the epilogue, and the alignment
    of the stack at calls (System V AMD64 ABI, sections 3.2.1 to 3.2.3). */
module Frames {
  import opened Values
  import opened Words
  import opened StaticIr
  import opened X86
  import opened Emission
  import opened Simulation

  // ----- allocation -----

  /** Parameters first, then the other virtual registers by number. */
  function Order(params: seq<nat>, j: nat): seq<nat> {
    if j == 0 then params
    else
      var o := Order(params, j - 1);
      if j - 1 in o then o else o + [j - 1]
  }

  function Taken(order: seq<nat>): nat {
    if |order| < |CALLEE| then |order| else |CALLEE|
  }

  function AllocUpTo(order: seq<nat>, i: nat): Alloc
    requires i <= Taken(order)
  {
    if i == 0 then map[] else AllocUpTo(order, i - 1)[order[i - 1] := CALLEE[i - 1]]
  }

  function AllocOf(order: seq<nat>): Alloc {
    AllocUpTo(order, Taken(order))
  }

  /** `max` is the highest register number of the body. */
  function FrameOf(params: seq<nat>, max: nat): Frame {
    var slots := (if max < |params| then |params| else max) + 1;
    Frame(CALLEE[..Taken(Order(params, max + 1))], (slots * 8 + 15) / 16 * 16)
  }

  ghost predicate NoRepeats(s: seq<nat>) {
    forall i, j :: 0 <= i < j < |s| ==> s[i] != s[j]
  }

  lemma {:induction false} OrderCovers(params: seq<nat>, j: nat)
    requires NoRepeats(params)
    ensures NoRepeats(Order(params, j)) && (forall k :: 0 <= k < j ==> k in Order(params, j))
    ensures forall k :: k in Order(params, j) ==> k in params || k < j
    ensures params <= Order(params, j)
  {
    if j > 0 {
      OrderCovers(params, j - 1);
    }
  }

  lemma {:induction false} AllocMeans(order: seq<nat>, i: nat)
    requires NoRepeats(order) && i <= Taken(order)
    ensures forall k :: k in AllocUpTo(order, i) <==> k in order[..i]
    ensures forall j :: 0 <= j < i ==> AllocUpTo(order, i)[order[j]] == CALLEE[j]
  {
    if i > 0 {
      AllocMeans(order, i - 1);
      assert order[..i] == order[..i - 1] + [order[i - 1]];
    }
  }

  lemma CalleeSaved(j: nat, k: nat)
    requires j < |CALLEE| && k < |CALLEE|
    ensures CALLEE[j] !in CALLER_SAVED && (j != k ==> CALLEE[j] != CALLEE[k])
  {
  }

  /** Whoever has a processor register got it at some place of the order. */
  lemma HomeIndex(order: seq<nat>, k: nat) returns (j: nat)
    requires NoRepeats(order) && k in AllocOf(order)
    ensures j < Taken(order) && order[j] == k && AllocOf(order)[k] == CALLEE[j]
  {
    var t := Taken(order);
    AllocMeans(order, t);
    j :| 0 <= j < t && order[..t][j] == k;
  }

  lemma AllocGood(order: seq<nat>)
    requires NoRepeats(order)
    ensures GoodAlloc(AllocOf(order), CALLEE[..Taken(order)])
  {
    hide AllocOf;
    var al, t := AllocOf(order), Taken(order);
    forall k | k in al ensures al[k] !in CALLER_SAVED && al[k] in CALLEE[..t] {
      var j := HomeIndex(order, k);
      CalleeSaved(j, j);
      assert CALLEE[..t][j] == CALLEE[j];
    }
    forall a, b | a in al && b in al && a != b ensures al[a] != al[b] {
      var i := HomeIndex(order, a);
      var j := HomeIndex(order, b);
      CalleeSaved(i, j);
    }
  }

  /** A set of numbers below `n` with `n` members holds all of them. */
  lemma {:induction false} Pigeons(s: set<nat>, n: nat)
    requires forall k :: k in s ==> k < n
    ensures |s| <= n && (|s| == n ==> forall k: nat :: k < n ==> k in s)
  {
    if n > 0 {
      var t := s - {n - 1};
      Pigeons(t, n - 1);
      if n - 1 in s {
        assert s == t + {n - 1};
      } else {
        assert t == s;
      }
    }
  }

  lemma {:induction false} SetOf(s: seq<nat>)
    requires NoRepeats(s)
    ensures |Members(s)| == |s|
  {
    if s != [] {
      var t, last := s[..|s| - 1], s[|s| - 1];
      SetOf(t);
      assert s == t + [last];
      assert last !in t;
      assert Members(s) == Members(t) + {last};
    }
  }

  function Members(s: seq<nat>): set<nat> {
    set k | k in s
  }

  /** If the lowest registers are handed out, every other slot is clear of the saved registers. */
  lemma LowestClear(order: seq<nat>, n: nat)
    requires NoRepeats(order) && (forall i :: 0 <= i < Taken(order) ==> order[i] < Taken(order))
    ensures forall k: nat :: k < n && k !in AllocOf(order) ==> Taken(order) <= k
  {
    var t := Taken(order);
    AllocMeans(order, t);
    var first := order[..t];
    assert NoRepeats(first);
    SetOf(first);
    forall k | k in Members(first) ensures k < t {
      var i :| 0 <= i < t && first[i] == k;
      assert order[i] == k;
    }
    Pigeons(Members(first), t);
    forall k: nat | k < t ensures k in AllocOf(order) {
      assert k in Members(first);
      assert k in first;
    }
  }

  /** If another register is handed out, one of the lowest keeps a slot, and it overlaps. */
  lemma OtherOverlaps(order: seq<nat>, i: nat)
    requires NoRepeats(order) && i < Taken(order) && order[i] >= Taken(order)
    ensures exists k: nat :: k < Taken(order) && k !in AllocOf(order)
  {
    var t := Taken(order);
    AllocMeans(order, t);
    var first := order[..t];
    assert NoRepeats(first);
    SetOf(first);
    assert first[i] == order[i];
    Missing(Members(first), t, order[i]);
    var k: nat :| k < t && k !in Members(first);
    assert k !in first;
    assert k !in AllocOf(order);
  }

  lemma SizeEnough(params: seq<nat>, max: nat)
    ensures FrameBytes(FrameOf(params, max)) >= 8 * (max + 1)
  {
  }

  /** No slot overlaps a saved register exactly when the registers handed out are the lowest ones. */
  lemma SlotsClear(params: seq<nat>, max: nat, e: Entry)
    requires NoRepeats(params) && (forall p :: p in params ==> p <= max)
    ensures var order := Order(params, max + 1);
            var f := Fn(AllocOf(order), FrameOf(params, max), max + 1, e);
            Roomy(f) <==> forall i :: 0 <= i < Taken(order) ==> order[i] < Taken(order)
  {
    hide AllocOf;
    var order := Order(params, max + 1);
    var f := Fn(AllocOf(order), FrameOf(params, max), max + 1, e);
    OrderCovers(params, max + 1);
    SizeEnough(params, max);
    if i :| 0 <= i < Taken(order) && order[i] >= Taken(order) {
      assert order[i] in order;
      OtherOverlaps(order, i);
    } else {
      LowestClear(order, max + 1);
    }
  }

  /** A set of `n` numbers with one that is not below `n` misses one that is. */
  lemma Missing(s: set<nat>, n: nat, big: nat)
    requires |s| == n && big in s && big >= n
    ensures exists k: nat :: k < n && k !in s
  {
    if forall k: nat :: k < n ==> k in s {
      Crowded(s, n, big);
    }
  }

  lemma {:induction false} Crowded(s: set<nat>, n: nat, big: nat)
    requires big in s && big >= n && (forall k: nat :: k < n ==> k in s)
    ensures |s| > n
    decreases n
  {
    if n > 0 {
      var t := s - {n - 1};
      assert s == t + {n - 1};
      Crowded(t, n - 1, big);
    }
  }

  /** In `main`, which has no parameters, the lowest five are handed out. */
  lemma MainRoomy(max: nat, e: Entry)
    ensures var f := Fn(AllocOf(Order([], max + 1)), FrameOf([], max), max + 1, e);
            GoodAlloc(f.al, f.fr.saved) && Roomy(f) && f.fr.size % 16 == 0
  {
    var order := Order([], max + 1);
    OrderCovers([], max + 1);
    AllocGood(order);
    SlotsClear([], max, e);
    MainOrder(max + 1);
  }

  lemma {:induction false} MainOrder(j: nat)
    ensures Order([], j) == seq(j, i => i)
  {
    if j > 0 {
      MainOrder(j - 1);
    }
  }

  // ----- the stack at calls -----

  /** How far an instruction moves the stack pointer. */
  function Moves(i: XInsn): int {
    match i
    case PushReg(_) => -8
    case PushBase => -8
    case PopReg(_) => 8
    case PopBase => 8
    case SubStack(n) => 0 - n
    case AddStack(n) => n
    case _ => 0
  }

  function MovesAll(code: seq<XInsn>): int {
    if code == [] then 0 else Moves(code[0]) + MovesAll(code[1..])
  }

  lemma {:induction false} MovesAppend(a: seq<XInsn>, b: seq<XInsn>)
    ensures MovesAll(a + b) == MovesAll(a) + MovesAll(b)
  {
    if a == [] {
      assert a + b == b;
    } else {
      assert (a + b)[1..] == a[1..] + b;
      MovesAppend(a[1..], b);
    }
  }

  /** `Moves` is what the processor does. */
  lemma {:induction false} StackMoves(code: seq<XInsn>, x: Cpu)
    requires EffectsOf(code, x).Next? && (forall i :: 0 <= i < |code| ==> !code[i].MovBaseStack?)
    ensures EffectsOf(code, x).x.rsp == x.rsp + MovesAll(code)
  {
    hide Arith, Shifted, Wrap, CondHolds, LowByte, Traps, Invoke, ArgValues;
    if code != [] {
      StackMoves(code[1..], Effects(code[0], x).x);
    }
  }

  lemma LoadStill(al: Alloc, o: Operand, r: Gpr)
    ensures MovesAll(Load(al, o, r)) == 0
  {
  }

  lemma {:induction false} PushArgsMove(al: Alloc, args: seq<Operand>)
    ensures MovesAll(PushArgs(al, args)) == -8 * StackArgs(|args|)
    decreases |args|
  {
    if |args| > 6 {
      var last := Load(al, args[|args| - 1], Rax);
      LoadStill(al, args[|args| - 1], Rax);
      PushArgsMove(al, args[..|args| - 1]);
      MovesAppend(last + [PushReg(Rax)], PushArgs(al, args[..|args| - 1]));
      MovesAppend(last, [PushReg(Rax)]);
    }
  }

  lemma {:induction false} LoadArgsMove(al: Alloc, args: seq<Operand>, k: nat)
    requires k <= |args|
    ensures MovesAll(LoadArgs(al, args, k)) == 0
    decreases |args| - k
  {
    if k < |args| && k < 6 {
      LoadStill(al, args[k], ARGUMENTS[k]);
      LoadArgsMove(al, args, k + 1);
      MovesAppend(Load(al, args[k], ARGUMENTS[k]), LoadArgs(al, args, k + 1));
    }
  }

  /** Whatever the number of arguments, the stack pointer moves by a multiple of sixteen before the
      call and back by as much after it. */
  lemma CallAligned(al: Alloc, args: seq<Operand>)
    ensures MovesAll(BeforeCall(al, args)) % 16 == 0
    ensures MovesAll(BeforeCall(al, args)) + MovesAll(AfterCall(|args|)) == 0
  {
    hide Load, MovesAll, PushArgs, LoadArgs, StackArgs, Padding, SubStackBy, AddStackBy;
    var n := |args|;
    var sub := SubStackBy(Padding(n));
    MovesAppend(sub + PushArgs(al, args) + LoadArgs(al, args, 0), [Zero(Rax)]);
    MovesAppend(sub + PushArgs(al, args), LoadArgs(al, args, 0));
    MovesAppend(sub, PushArgs(al, args));
    PushArgsMove(al, args);
    LoadArgsMove(al, args, 0);
    MovesAppend(AddStackBy(StackArgs(n) * 8), AddStackBy(Padding(n)));
    ByMoves(Padding(n));
    ByMoves(StackArgs(n) * 8);
    assert MovesAll([Zero(Rax)]) == 0 by { ZeroStill(); }
    PadEven(n);
  }

  lemma ByMoves(n: nat)
    ensures MovesAll(SubStackBy(n)) == 0 - n && MovesAll(AddStackBy(n)) == n
  {
  }

  lemma ZeroStill()
    ensures MovesAll([Zero(Rax)]) == 0
  {
  }

  lemma PadEven(n: nat)
    ensures (Padding(n) + 8 * StackArgs(n)) % 16 == 0
  {
  }

  /** So a call made from a framed function is made with an aligned stack. */
  lemma CallsAligned(f: Fn, args: seq<Operand>, regs: map<nat, i64>, x: Cpu)
    requires Inv(f, regs, x) && EffectsOf(BeforeCall(f.al, args), x).Next?
    ensures EffectsOf(BeforeCall(f.al, args), x).x.rsp % 16 == 0
  {
    hide Moves, MovesAll, Effects, EffectsOf;
    CallAligned(f.al, args);
    NoBase(f.al, args);
    StackMoves(BeforeCall(f.al, args), x);
    Aligned(f, regs, x);
  }

  lemma {:induction false} NoBasePush(al: Alloc, args: seq<Operand>)
    ensures forall i :: 0 <= i < |PushArgs(al, args)| ==> !PushArgs(al, args)[i].MovBaseStack?
    decreases |args|
  {
    if |args| > 6 {
      NoBasePush(al, args[..|args| - 1]);
    }
  }

  lemma {:induction false} NoBaseLoad(al: Alloc, args: seq<Operand>, k: nat)
    requires k <= |args|
    ensures forall i :: 0 <= i < |LoadArgs(al, args, k)| ==> !LoadArgs(al, args, k)[i].MovBaseStack?
    decreases |args| - k
  {
    if k < |args| && k < 6 {
      NoBaseLoad(al, args, k + 1);
    }
  }

  lemma NoBase(al: Alloc, args: seq<Operand>)
    ensures forall i :: 0 <= i < |BeforeCall(al, args)| ==> !BeforeCall(al, args)[i].MovBaseStack?
  {
    NoBasePush(al, args);
    NoBaseLoad(al, args, 0);
  }

  // ----- prologue -----

  /** Where a caller stands just after its `call`: the return address is on top, aligned as the ABI
      asks, and the callee-saved registers and the stack below hold something. */
  ghost predicate Called(x: Cpu, depth: nat) {
    && x.rsp % 16 == 8 && x.rsp in x.mem && x.mem[x.rsp] == ReturnAddress
    && (forall i :: 0 <= i < |CALLEE| ==> CALLEE[i] in x.regs)
    && (forall k: nat :: k < depth ==> Mapped(x, k))
  }

  ghost predicate Mapped(x: Cpu, k: nat) {
    x.rsp - 8 * (k + 2) in x.mem && x.mem[x.rsp - 8 * (k + 2)].Data?
  }

  function EntryOf(x: Cpu): Entry {
    Entry(x.regs, x.rsp, x.rbp)
  }

  /** The machine after the first `j` pushes. */
  function Pushed(x: Cpu, rs: seq<Gpr>, j: nat): Cpu
    requires j <= |rs| && forall r :: r in rs ==> r in x.regs
  {
    if j == 0 then x
    else
      var y := Pushed(x, rs, j - 1);
      y.(rsp := y.rsp - 8, mem := y.mem[y.rsp - 8 := Data(x.regs[rs[j - 1]])])
  }

  lemma {:induction false} PushesRun(x: Cpu, rs: seq<Gpr>, j: nat)
    requires j <= |rs| && forall r :: r in rs ==> r in x.regs
    ensures EffectsOf(Pushes(rs[..j]), x) == Next(Pushed(x, rs, j))
    ensures var y := Pushed(x, rs, j);
            && y == x.(rsp := x.rsp - 8 * j, mem := y.mem)
            && (forall i :: 0 <= i < j ==> PushedAt(x, y, rs, i))
            && (forall a: int :: a >= x.rsp || a < x.rsp - 8 * j ==> (a in y.mem <==> a in x.mem) && (a in x.mem ==> y.mem[a] == x.mem[a]))
  {
    hide Effects, EffectsOf;
    if j == 0 {
      EffectsNone(x);
      assert Pushes(rs[..0]) == [];
    } else {
      PushesRun(x, rs, j - 1);
      var y := Pushed(x, rs, j - 1);
      assert Pushes(rs[..j]) == Pushes(rs[..j - 1]) + [PushReg(rs[j - 1])];
      Chain(Pushes(rs[..j - 1]), [PushReg(rs[j - 1])], x, y);
      PushEffect(rs[j - 1], y);
      OneRuns(PushReg(rs[j - 1]), y, Pushed(x, rs, j));
      forall i | 0 <= i < j ensures PushedAt(x, Pushed(x, rs, j), rs, i) {
        assert i < j - 1 ==> PushedAt(x, y, rs, i);
      }
    }
  }

  ghost predicate PushedAt(x: Cpu, y: Cpu, rs: seq<Gpr>, i: nat)
    requires i < |rs|
  {
    rs[i] in x.regs && x.rsp - 8 * (i + 1) in y.mem && y.mem[x.rsp - 8 * (i + 1)] == Data(x.regs[rs[i]])
  }

  lemma PushEffect(r: Gpr, x: Cpu)
    requires r in x.regs
    ensures Effects(PushReg(r), x) == Next(x.(rsp := x.rsp - 8, mem := x.mem[x.rsp - 8 := Data(x.regs[r])]))
  {
  }

  lemma StackEffects(n: nat, x: Cpu)
    ensures Effects(SubStack(n), x) == Next(x.(rsp := x.rsp - n, flags := NoFlags))
    ensures Effects(AddStack(n), x) == Next(x.(rsp := x.rsp + n, flags := NoFlags))
    ensures Effects(PushBase, x) == Next(x.(rsp := x.rsp - 8, mem := x.mem[x.rsp - 8 := SavedBase(x.rbp)]))
    ensures Effects(MovBaseStack, x) == Next(x.(rbp := x.rsp))
  {
  }

  lemma SubRuns(n: nat, x: Cpu) returns (y: Cpu)
    ensures EffectsOf(SubStackBy(n), x) == Next(y) && y == x.(rsp := x.rsp - n, flags := y.flags)
  {
    if n > 0 {
      StackEffects(n, x);
      y := x.(rsp := x.rsp - n, flags := NoFlags);
      OneRuns(SubStack(n), x, y);
    } else {
      y := x;
      EffectsNone(x);
    }
  }

  lemma AddRuns(n: nat, x: Cpu) returns (y: Cpu)
    ensures EffectsOf(AddStackBy(n), x) == Next(y) && y == x.(rsp := x.rsp + n, flags := y.flags)
  {
    if n > 0 {
      StackEffects(n, x);
      y := x.(rsp := x.rsp + n, flags := NoFlags);
      OneRuns(AddStack(n), x, y);
    } else {
      y := x;
      EffectsNone(x);
    }
  }

  /** What the virtual registers hold when the body starts: whatever their homes held. */
  function InitialRegs(f: Fn, x: Cpu): map<nat, i64> {
    map k: nat | k < f.n :: HomeContents(f, x, k)
  }

  function HomeContents(f: Fn, x: Cpu, k: nat): i64 {
    if k in f.al then (if f.al[k] in x.regs then x.regs[f.al[k]] else 0)
    else if x.rbp + SlotOf(k) in x.mem && x.mem[x.rbp + SlotOf(k)].Data? then x.mem[x.rbp + SlotOf(k)].v
    else 0
  }

  /** The prologue sets up the frame. */
  lemma PrologueRuns(f: Fn, x: Cpu) returns (y: Cpu)
    requires Called(x, f.n) && f.entry == EntryOf(x) && GoodAlloc(f.al, f.fr.saved) && Roomy(f)
    requires (forall r :: r in f.fr.saved ==> r in CALLEE) && f.fr.size % 16 == 0
    ensures EffectsOf(Prologue(f.fr), x) == Next(y) && y.out == x.out && Inv(f, InitialRegs(f, y), y)
  {
    hide Effects, EffectsOf, Pushes, SubStackBy;
    var saved := f.fr.saved;
    StackEffects(0, x);
    var x1 := x.(rsp := x.rsp - 8, mem := x.mem[x.rsp - 8 := SavedBase(x.rbp)]);
    StackEffects(0, x1);
    var x2 := x1.(rbp := x1.rsp);
    TwoSteps(PushBase, MovBaseStack, x, x1, x2);
    forall r | r in saved ensures r in x2.regs {
      var i :| 0 <= i < |CALLEE| && CALLEE[i] == r;
    }
    PushesRun(x2, saved, |saved|);
    assert saved[..|saved|] == saved;
    var x3 := Pushed(x2, saved, |saved|);
    var x4 := SubRuns(PadOf(f.fr), x3);
    y := SubRuns(f.fr.size, x4);
    var head := [PushBase, MovBaseStack];
    Chain(head, Pushes(saved), x, x2);
    Chain(head + Pushes(saved), SubStackBy(PadOf(f.fr)), x, x3);
    Chain(head + Pushes(saved) + SubStackBy(PadOf(f.fr)), SubStackBy(f.fr.size), x, x4);
    FramedAfter(f, x, x2, x3, y);
    PlacedAfter(f, x, x2, x3, y);
  }

  lemma FramedAfter(f: Fn, x: Cpu, x2: Cpu, x3: Cpu, y: Cpu)
    requires Called(x, f.n) && f.entry == EntryOf(x) && f.fr.size % 16 == 0
    requires x2 == x.(rsp := x.rsp - 8, rbp := x.rsp - 8, mem := x.mem[x.rsp - 8 := SavedBase(x.rbp)])
    requires x3 == x2.(rsp := x2.rsp - 8 * |f.fr.saved|, mem := x3.mem)
    requires forall i :: 0 <= i < |f.fr.saved| ==> PushedAt(x2, x3, f.fr.saved, i)
    requires forall a: int :: a >= x2.rsp ==> (a in x3.mem <==> a in x2.mem) && (a in x2.mem ==> x3.mem[a] == x2.mem[a])
    requires y == x3.(rsp := x3.rsp - PadOf(f.fr) - f.fr.size, flags := y.flags)
    ensures Framed(f, y) && Outside(f, y)
  {
    forall i | 0 <= i < |f.fr.saved| ensures Saved(f, y, i) {
      assert PushedAt(x2, x3, f.fr.saved, i);
    }
  }

  lemma PlacedAfter(f: Fn, x: Cpu, x2: Cpu, x3: Cpu, y: Cpu)
    requires Called(x, f.n) && GoodAlloc(f.al, f.fr.saved) && Roomy(f) && (forall r :: r in f.fr.saved ==> r in CALLEE)
    requires x2 == x.(rsp := x.rsp - 8, rbp := x.rsp - 8, mem := x.mem[x.rsp - 8 := SavedBase(x.rbp)])
    requires x3 == x2.(rsp := x2.rsp - 8 * |f.fr.saved|, mem := x3.mem)
    requires forall a: int :: a < x2.rsp - 8 * |f.fr.saved| ==> (a in x3.mem <==> a in x2.mem) && (a in x2.mem ==> x3.mem[a] == x2.mem[a])
    requires y == x3.(rsp := x3.rsp - PadOf(f.fr) - f.fr.size, flags := y.flags)
    ensures Placed(f.al, f.n, InitialRegs(f, y), y)
  {
    forall k: nat | k < f.n && k in f.al ensures f.al[k] in y.regs {
      var i :| 0 <= i < |CALLEE| && CALLEE[i] == f.al[k];
    }
    forall k: nat | k < f.n && k !in f.al ensures y.rbp + SlotOf(k) in y.mem && y.mem[y.rbp + SlotOf(k)].Data? {
      assert Mapped(x, k);
    }
  }

  // ----- epilogue -----

  /** The machine after the last `j` saved registers have been popped. */
  lemma {:induction false} PopsRun(f: Fn, x: Cpu, j: nat) returns (y: Cpu)
    requires j <= |f.fr.saved| && x.rsp == x.rbp - 8 * |f.fr.saved|
    requires forall i :: 0 <= i < |f.fr.saved| ==> Saved(f, x, i)
    requires forall a, b :: 0 <= a < b < |f.fr.saved| ==> f.fr.saved[a] != f.fr.saved[b]
    ensures EffectsOf(Pops(f.fr.saved)[..j], x) == Next(y)
    ensures y == x.(rsp := x.rsp + 8 * j, regs := y.regs)
    ensures forall r :: r !in f.fr.saved ==> (r in y.regs <==> r in x.regs) && (r in x.regs ==> y.regs[r] == x.regs[r])
    ensures forall i :: |f.fr.saved| - j <= i < |f.fr.saved| ==>
              f.fr.saved[i] in f.entry.regs && f.fr.saved[i] in y.regs && y.regs[f.fr.saved[i]] == f.entry.regs[f.fr.saved[i]]
    decreases j
  {
    hide Effects, EffectsOf;
    var pops := Pops(f.fr.saved);
    if j == 0 {
      y := x;
      EffectsNone(x);
      assert pops[..0] == [];
    } else {
      var z := PopsRun(f, x, j - 1);
      var i := |f.fr.saved| - j;
      var r := f.fr.saved[i];
      assert pops[..j] == pops[..j - 1] + [PopReg(r)];
      Chain(pops[..j - 1], [PopReg(r)], x, z);
      assert Saved(f, x, i);
      assert z.rsp == x.rbp - 8 * (i + 1);
      y := z.(rsp := z.rsp + 8, regs := z.regs[r := z.mem[z.rsp].v]);
      PopEffect(r, z);
      OneRuns(PopReg(r), z, y);
    }
  }

  lemma PopEffect(r: Gpr, x: Cpu)
    requires x.rsp in x.mem && x.mem[x.rsp].Data?
    ensures Effects(PopReg(r), x) == Next(x.(rsp := x.rsp + 8, regs := x.regs[r := x.mem[x.rsp].v]))
  {
  }

  lemma PopBaseEffect(x: Cpu)
    requires x.rsp in x.mem && x.mem[x.rsp].SavedBase?
    ensures Effects(PopBase, x) == Next(x.(rsp := x.rsp + 8, rbp := x.mem[x.rsp].a))
  {
  }

  /** Everything the ABI entrusts to a function is as the caller left it. */
  ghost predicate Restored(e: Entry, y: Cpu) {
    && y.rsp == e.rsp && y.rbp == e.rbp
    && (forall r :: r !in CALLER_SAVED && r in e.regs ==> r in y.regs && y.regs[r] == e.regs[r])
  }

  /** The epilogue up to its `ret`. */
  function Teardown(fr: Frame): seq<XInsn> {
    AddStackBy(fr.size) + AddStackBy(PadOf(fr)) + Pops(fr.saved) + [PopBase]
  }

  lemma EpilogueRuns(f: Fn, regs: map<nat, i64>, x: Cpu) returns (y: Cpu)
    requires Inv(f, regs, x) && (forall r :: r in f.fr.saved ==> r !in CALLER_SAVED)
    requires forall a, b :: 0 <= a < b < |f.fr.saved| ==> f.fr.saved[a] != f.fr.saved[b]
    ensures EffectsOf(Teardown(f.fr), x) == Next(y) && Restored(f.entry, y) && y.out == x.out
    ensures y.rsp in y.mem && y.mem[y.rsp] == ReturnAddress
    ensures Rax in x.regs ==> Rax in y.regs && y.regs[Rax] == x.regs[Rax]
  {
    hide Effects, EffectsOf, Pops, AddStackBy, Roomy, Placed, GoodAlloc;
    var x1 := AddRuns(f.fr.size, x);
    var x2 := AddRuns(PadOf(f.fr), x1);
    var saved := f.fr.saved;
    forall i | 0 <= i < |saved| ensures Saved(f, x2, i) {
      assert Saved(f, x, i);
    }
    var x3 := PopsRun(f, x2, |saved|);
    PopsLength(saved);
    assert Pops(saved)[..|saved|] == Pops(saved);
    var a, b := AddStackBy(f.fr.size), AddStackBy(PadOf(f.fr));
    Chain(a, b, x, x1);
    Chain(a + b, Pops(saved), x, x2);
    Chain(a + b + Pops(saved), [PopBase], x, x3);
    PopBaseEffect(x3);
    y := x3.(rsp := x3.rsp + 8, rbp := x3.mem[x3.rsp].a);
    OneRuns(PopBase, x3, y);
    forall r | r !in CALLER_SAVED && r in f.entry.regs ensures r in y.regs && y.regs[r] == f.entry.regs[r] {
      if r in saved {
        var i :| 0 <= i < |saved| && saved[i] == r;
      }
    }
  }

  lemma PopsLength(rs: seq<Gpr>)
    ensures |Pops(rs)| == |rs|
  {
  }
}
