/** Each step of the register machine is matched by the instructions emitted for it. */
module Simulation {
  import opened Values
  import opened Words
  import opened StaticIr
  import opened X86
  import opened Emission

  /** What the caller left in the registers. */
  datatype Entry = Entry(regs: map<Gpr, i64>, rsp: int, rbp: int)

  /** A function being run: where its registers live, its frame, how many registers it has. */
  datatype Fn = Fn(al: Alloc, fr: Frame, n: nat, entry: Entry)

  ghost predicate GoodAlloc(al: Alloc, saved: seq<Gpr>) {
    && (forall k :: k in al ==> al[k] !in CALLER_SAVED && al[k] in saved)
    && (forall j, k :: j in al && k in al && j != k ==> al[j] != al[k])
  }

  /** Every virtual register's home holds its value. */
  ghost predicate Placed(al: Alloc, n: nat, regs: map<nat, i64>, x: Cpu) {
    && (forall k: nat :: k < n && k in al ==> al[k] in x.regs && x.regs[al[k]] == RegValue(regs, k))
    && (forall k: nat :: k < n && k !in al ==> x.rbp + SlotOf(k) in x.mem && x.mem[x.rbp + SlotOf(k)] == Data(RegValue(regs, k)))
  }

  function FrameBytes(fr: Frame): nat {
    8 * |fr.saved| + PadOf(fr) + fr.size
  }

  /** Slots lie below the saved registers and above the stack pointer. */
  ghost predicate Roomy(f: Fn) {
    forall k: nat :: k < f.n && k !in f.al ==> |f.fr.saved| <= k && 8 * (k + 1) <= FrameBytes(f.fr)
  }

  ghost predicate Saved(f: Fn, x: Cpu, i: nat)
    requires i < |f.fr.saved|
  {
    && f.fr.saved[i] in f.entry.regs && x.rbp - 8 * (i + 1) in x.mem
    && x.mem[x.rbp - 8 * (i + 1)] == Data(f.entry.regs[f.fr.saved[i]])
  }

  /** The frame as the prologue set it up. */
  ghost predicate Framed(f: Fn, x: Cpu) {
    && x.rbp == f.entry.rsp - 8 && x.rsp == x.rbp - FrameBytes(f.fr) && x.rsp % 16 == 0
    && x.rbp in x.mem && x.mem[x.rbp] == SavedBase(f.entry.rbp)
    && x.rbp + 8 in x.mem && x.mem[x.rbp + 8] == ReturnAddress
    && (forall i :: 0 <= i < |f.fr.saved| ==> Saved(f, x, i))
  }

  /** Registers that belong to the caller and were not saved are as the caller left them. */
  ghost predicate Outside(f: Fn, x: Cpu) {
    forall r :: r !in CALLER_SAVED && r !in f.fr.saved ==>
      (r in x.regs <==> r in f.entry.regs) && (r in x.regs ==> x.regs[r] == f.entry.regs[r])
  }

  ghost predicate Inv(f: Fn, regs: map<nat, i64>, x: Cpu) {
    GoodAlloc(f.al, f.fr.saved) && Roomy(f) && Placed(f.al, f.n, regs, x) && Framed(f, x) && Outside(f, x)
  }

  /** Nothing but the registers `s` and the flags has changed. */
  ghost predicate SameBut(x: Cpu, y: Cpu, s: set<Gpr>) {
    && y.rsp == x.rsp && y.rbp == x.rbp && y.mem == x.mem && y.out == x.out
    && (forall r :: r !in s ==> (r in y.regs <==> r in x.regs) && (r in x.regs ==> y.regs[r] == x.regs[r]))
  }

  lemma SameTrans(x: Cpu, y: Cpu, z: Cpu, s: set<Gpr>, t: set<Gpr>)
    requires SameBut(x, y, s) && SameBut(y, z, t)
    ensures SameBut(x, z, s + t)
  {
  }

  /** Scratch registers are nobody's home. */
  lemma InvScratch(f: Fn, regs: map<nat, i64>, x: Cpu, y: Cpu, s: set<Gpr>)
    requires Inv(f, regs, x) && SameBut(x, y, s) && s <= CALLER_SAVED
    ensures Inv(f, regs, y)
  {
    forall i | 0 <= i < |f.fr.saved| ensures Saved(f, y, i) {
      assert Saved(f, x, i);
    }
  }

  /** Changing the home of one register is an assignment to it. */
  lemma InvHome(f: Fn, regs: map<nat, i64>, x: Cpu, y: Cpu, k: nat, s: set<Gpr>)
    requires Inv(f, regs, x) && k < f.n && k in f.al && SameBut(x, y, s + {f.al[k]}) && s <= CALLER_SAVED
    requires f.al[k] in y.regs
    ensures Inv(f, regs[k := y.regs[f.al[k]]], y)
  {
    forall i | 0 <= i < |f.fr.saved| ensures Saved(f, y, i) {
      assert Saved(f, x, i);
    }
  }

  lemma Chain(a: seq<XInsn>, b: seq<XInsn>, x: Cpu, y: Cpu)
    requires EffectsOf(a, x) == Next(y)
    ensures EffectsOf(a + b, x) == EffectsOf(b, y)
  {
    EffectsAppend(a, b, x);
  }

  // ----- operands -----

  lemma Simple(d: Gpr, s: Gpr, v: i64, off: int, x: Cpu)
    ensures s in x.regs ==> Effects(MovReg(d, s), x) == Next(x.(regs := x.regs[d := x.regs[s]]))
    ensures Effects(MovImm(d, v), x) == Next(x.(regs := x.regs[d := v]))
    ensures Effects(Zero(d), x) == Next(x.(regs := x.regs[d := 0], flags := NoFlags))
    ensures x.rbp + off in x.mem && x.mem[x.rbp + off].Data? ==>
              Effects(LoadSlot(d, off), x) == Next(x.(regs := x.regs[d := x.mem[x.rbp + off].v]))
    ensures s in x.regs ==> Effects(StoreSlot(off, s), x) == Next(x.(mem := x.mem[x.rbp + off := Data(x.regs[s])]))
  {
  }

  lemma OneRuns(i: XInsn, x: Cpu, y: Cpu)
    requires Effects(i, x) == Next(y)
    ensures EffectsOf([i], x) == Next(y)
  {
    hide Effects;
    EffectsOne(i, x);
  }

  lemma HomeOf(f: Fn, n: nat, regs: map<nat, i64>, x: Cpu)
    requires Inv(f, regs, x) && n < f.n
    ensures n in f.al ==> f.al[n] in x.regs && x.regs[f.al[n]] == RegValue(regs, n) && f.al[n] !in CALLER_SAVED
    ensures n !in f.al ==> x.rbp + SlotOf(n) in x.mem && x.mem[x.rbp + SlotOf(n)] == Data(RegValue(regs, n))
  {
    hide Framed, Roomy;
  }

  function WithReg(x: Cpu, r: Gpr, v: i64, fl: Flags): Cpu {
    x.(regs := x.regs[r := v], flags := fl)
  }

  lemma WithRegSame(x: Cpu, r: Gpr, v: i64, fl: Flags)
    ensures var y := WithReg(x, r, v, fl); SameBut(x, y, {r}) && r in y.regs && y.regs[r] == v
  {
  }

  lemma LoadRuns(f: Fn, o: Operand, r: Gpr, regs: map<nat, i64>, x: Cpu) returns (y: Cpu)
    requires Inv(f, regs, x) && OperandBelow(o, f.n)
    ensures EffectsOf(Load(f.al, o, r), x) == Next(y)
    ensures SameBut(x, y, {r}) && r in y.regs && y.regs[r] == OpValue(o, regs)
  {
    hide *;
    if o.Reg? {
      y := LoadReg(f, o, r, regs, x);
    } else {
      var fl := if (o.ImmI64? && o.i == 0) || o.NullImm? then NoFlags else x.flags;
      y := WithReg(x, r, OpValue(o, regs), fl);
      WithRegSame(x, r, OpValue(o, regs), fl);
      LoadConstant(f.al, o, r, regs, x);
    }
  }

  lemma LoadConstant(al: Alloc, o: Operand, r: Gpr, regs: map<nat, i64>, x: Cpu)
    requires !o.Reg?
    ensures var fl := if (o.ImmI64? && o.i == 0) || o.NullImm? then NoFlags else x.flags;
            EffectsOf(Load(al, o, r), x) == Next(WithReg(x, r, OpValue(o, regs), fl))
  {
    hide Effects, EffectsOf;
    var i := Load(al, o, r)[0];
    assert Load(al, o, r) == [i];
    EffectsOne(i, x);
    Simple(r, r, if i.MovImm? then i.imm else 0, 0, x);
  }

  lemma LoadReg(f: Fn, o: Operand, r: Gpr, regs: map<nat, i64>, x: Cpu) returns (y: Cpu)
    requires Inv(f, regs, x) && OperandBelow(o, f.n) && o.Reg?
    ensures EffectsOf(Load(f.al, o, r), x) == Next(y)
    ensures SameBut(x, y, {r}) && r in y.regs && y.regs[r] == OpValue(o, regs)
  {
    hide Effects, Inv, EffectsOf, SameBut, SlotOf;
    var v := RegValue(regs, o.n);
    HomeOf(f, o.n, regs, x);
    y := WithReg(x, r, v, x.flags);
    WithRegSame(x, r, v, x.flags);
    if o.n !in f.al {
      Simple(r, r, 0, SlotOf(o.n), x);
      OneRuns(LoadSlot(r, SlotOf(o.n)), x, y);
    } else if f.al[o.n] == r {
      assert y == x;
      EffectsNone(x);
    } else {
      Simple(r, f.al[o.n], 0, 0, x);
      OneRuns(MovReg(r, f.al[o.n]), x, y);
    }
  }

  lemma EffectsNone(x: Cpu)
    ensures EffectsOf([], x) == Next(x)
  {
  }

  lemma StoreRuns(f: Fn, k: nat, r: Gpr, regs: map<nat, i64>, x: Cpu) returns (y: Cpu)
    requires Inv(f, regs, x) && k < f.n && r in CALLER_SAVED && r in x.regs
    ensures EffectsOf(Store(f.al, k, r), x) == Next(y)
    ensures Inv(f, regs[k := x.regs[r]], y) && y.out == x.out
  {
    hide Effects, Framed, Roomy, Placed, EffectsOf;
    var code := Store(f.al, k, r);
    var i := code[0];
    assert code == [i];
    EffectsOne(i, x);
    Simple(if i.MovReg? then i.d else r, r, 0, SlotOf(k), x);
    y := Effects(i, x).x;
    if k in f.al {
      assert {} + {f.al[k]} == {f.al[k]};
      InvHome(f, regs, x, y, k, {});
    } else {
      SlotWritten(f, regs, x, y, k, x.regs[r]);
    }
  }

  lemma SlotWritten(f: Fn, regs: map<nat, i64>, x: Cpu, y: Cpu, k: nat, v: i64)
    requires Inv(f, regs, x) && k < f.n && k !in f.al
    requires y == x.(mem := x.mem[x.rbp + SlotOf(k) := Data(v)])
    ensures Inv(f, regs[k := v], y)
  {
    forall i | 0 <= i < |f.fr.saved| ensures Saved(f, y, i) {
      assert Saved(f, x, i);
    }
  }

  // ----- arithmetic -----

  /** `d op rhs` in `d`, for everything but division. */
  lemma ApplyRuns(f: Fn, op: ArithOp, d: Gpr, rhs: Operand, regs: map<nat, i64>, x: Cpu) returns (y: Cpu)
    requires Inv(f, regs, x) && OperandBelow(rhs, f.n) && d in x.regs && d != Rcx && !IsDivision(op)
    requires rhs.ImmI64? && !IsShift(op) ==> Fits32(rhs.i)
    ensures EffectsOf(Apply(f.al, op, d, rhs), x) == Next(y)
    ensures SameBut(x, y, {Rcx, d}) && d in y.regs && y.regs[d] == Arith(op, x.regs[d], OpValue(rhs, regs))
  {
    hide Inv, Arith, Load;
    if rhs.ImmI64? {
      ImmediateRuns(op, d, rhs.i, x);
      EffectsOne(ImmediateOp(op, d, rhs.i), x);
      y := Effects(ImmediateOp(op, d, rhs.i), x).x;
    } else {
      var x1 := LoadRuns(f, rhs, Rcx, regs, x);
      Chain(Load(f.al, rhs, Rcx), [RegisterOp(op, d)], x, x1);
      RegisterRuns(op, d, x1);
      EffectsOne(RegisterOp(op, d), x1);
      y := Effects(RegisterOp(op, d), x1).x;
      SameTrans(x, x1, y, {Rcx}, {d});
    }
  }

  lemma ModTwice(b: int)
    ensures (b % 256) % 64 == b % 64
  {
    var q, r := b / 256, b % 256;
    var s, t := r / 64, r % 64;
    assert b == 64 * (4 * q + s) + t;
    ModUnique(b, 4 * q + s, t);
  }

  lemma ModUnique(b: int, q: int, t: int)
    requires b == 64 * q + t && 0 <= t < 64
    ensures b % 64 == t
  {
  }

  lemma ShiftCount(b: i64)
    ensures LowByte(b) % 64 == b % 64 && (b % 64) % 64 == b % 64 && 0 <= b % 64 < 256
  {
    ModTwice(b);
  }

  lemma ImmediateRuns(op: ArithOp, d: Gpr, v: i64, x: Cpu)
    requires !IsDivision(op) && d in x.regs && (!IsShift(op) ==> Fits32(v))
    ensures Effects(ImmediateOp(op, d, v), x) == Next(x.(regs := x.regs[d := Arith(op, x.regs[d], v)], flags := NoFlags))
  {
    hide ShiftLeft, ShiftRight, Wrap, Bitwise, TruncDiv, TruncMod, CallEffect, LowByte;
    ShiftCount(v);
  }

  lemma RegisterRuns(op: ArithOp, d: Gpr, x: Cpu)
    requires !IsDivision(op) && d in x.regs && Rcx in x.regs
    ensures Effects(RegisterOp(op, d), x)
         == Next(x.(regs := x.regs[d := Arith(op, x.regs[d], x.regs[Rcx])], flags := NoFlags))
  {
    hide ShiftLeft, ShiftRight, Wrap, Bitwise, TruncDiv, TruncMod, CallEffect, LowByte;
    ShiftCount(x.regs[Rcx]);
  }

  /** What the instruction may assume: registers of the function, constants that fit, and for
      arithmetic a destination that is not the right operand. */
  predicate InsnOk(i: Insn, n: nat) {
    match i
    case Mov(dst, src) => dst < n && OperandBelow(src, n)
    case Box(dst, src, _) => dst < n && OperandBelow(src, n)
    case Unbox(dst, src, _) => dst < n && OperandBelow(src, n)
    case Bin(op, dst, lhs, rhs) =>
      && dst < n && OperandBelow(lhs, n) && OperandBelow(rhs, n)
      && (rhs.ImmI64? && IsAlu(op) ==> Fits32(rhs.i))
      && (rhs.Reg? && rhs.n == dst ==> IsDivision(op) || (lhs.Reg? && lhs.n == dst))
    case DynBin(_, dst, lhs, rhs) => dst < n && OperandBelow(lhs, n) && OperandBelow(rhs, n)
    case Neg(dst, src) => dst < n && OperandBelow(src, n)
    case Not(dst, src) => dst < n && OperandBelow(src, n)
    case Cmp(dst, _, lhs, rhs) => dst < n && OperandBelow(lhs, n) && OperandBelow(rhs, n) && (rhs.ImmI64? ==> Fits32(rhs.i))
    case Branch(_, lhs, rhs, _) => OperandBelow(lhs, n) && OperandBelow(rhs, n) && (rhs.ImmI64? ==> Fits32(rhs.i))
    case BranchTrue(v, _) => OperandBelow(v, n)
    case Call(dst, f, args) =>
      && (dst.Some? ==> dst.value < n && !Prints(f)) && (forall k :: 0 <= k < |args| ==> OperandBelow(args[k], n))
    case Ret(v) => OperandBelow(v, n)
    case _ => true
  }

  /** The emitted code does to the processor what the instruction does to the registers. */
  ghost predicate Simulates(f: Fn, code: seq<XInsn>, x: Cpu, regs: map<nat, i64>, s: IrStatus) {
    match s
    case Going(c) =>
      && EffectsOf(code, x).Next?
      && Inv(f, c.regs, EffectsOf(code, x).x) && EffectsOf(code, x).x.out == c.out
    case Trapped(out) => EffectsOf(code, x) == DivideFault(out)
    case _ => true
  }

  lemma MovSim(f: Fn, dst: nat, src: Operand, regs: map<nat, i64>, x: Cpu) returns (y: Cpu)
    requires Inv(f, regs, x) && dst < f.n && OperandBelow(src, f.n)
    ensures EffectsOf(MovCode(f.al, dst, src), x) == Next(y)
    ensures Inv(f, regs[dst := OpValue(src, regs)], y) && y.out == x.out
  {
    hide Load, Store, OpValue, Inv;
    if dst in f.al {
      y := LoadHome(f, dst, src, regs, x);
    } else {
      var x1 := LoadRuns(f, src, Rax, regs, x);
      Chain(Load(f.al, src, Rax), Store(f.al, dst, Rax), x, x1);
      InvScratch(f, regs, x, x1, {Rax});
      y := StoreRuns(f, dst, Rax, regs, x1);
    }
  }

  /** Loading straight into a register's home. */
  lemma LoadHome(f: Fn, dst: nat, src: Operand, regs: map<nat, i64>, x: Cpu) returns (y: Cpu)
    requires Inv(f, regs, x) && dst < f.n && OperandBelow(src, f.n) && dst in f.al
    ensures EffectsOf(Load(f.al, src, f.al[dst]), x) == Next(y)
    ensures Inv(f, regs[dst := OpValue(src, regs)], y) && y.out == x.out
    ensures f.al[dst] in y.regs && y.regs[f.al[dst]] == OpValue(src, regs)
  {
    hide Load, OpValue;
    y := LoadRuns(f, src, f.al[dst], regs, x);
    assert {} + {f.al[dst]} == {f.al[dst]};
    InvHome(f, regs, x, y, dst, {});
  }

  lemma RegValuePut(o: Operand, dst: nat, v: i64, regs: map<nat, i64>)
    requires o.Reg? ==> o.n != dst
    ensures OpValue(o, regs[dst := v]) == OpValue(o, regs)
  {
  }

  lemma PutTwice(regs: map<nat, i64>, dst: nat, u: i64, v: i64)
    ensures regs[dst := u][dst := v] == regs[dst := v]
  {
  }

  /** Arithmetic other than division: in place, into the destination's register, or through `rax`. */
  lemma ArithSim(f: Fn, op: ArithOp, dst: nat, lhs: Operand, rhs: Operand, regs: map<nat, i64>, x: Cpu) returns (y: Cpu)
    requires Inv(f, regs, x) && InsnOk(Bin(op, dst, lhs, rhs), f.n) && !IsDivision(op)
    ensures EffectsOf(BinCode(f.al, op, dst, lhs, rhs), x) == Next(y)
    ensures Inv(f, regs[dst := Arith(op, OpValue(lhs, regs), OpValue(rhs, regs))], y) && y.out == x.out
  {
    hide Load, Store, OpValue, Inv, Apply, Arith, Fits32;
    if InPlace(f.al, op, dst, lhs) {
      HomeOf(f, dst, regs, x);
      y := ApplyHome(f, op, dst, rhs, regs, x);
      assert OpValue(lhs, regs) == RegValue(regs, dst) by { ReadReg(lhs, regs); }
    } else if dst in f.al {
      var u := OpValue(lhs, regs);
      var x1 := LoadHome(f, dst, lhs, regs, x);
      Chain(Load(f.al, lhs, f.al[dst]), Apply(f.al, op, f.al[dst], rhs), x, x1);
      RegValuePut(rhs, dst, u, regs);
      y := ApplyHome(f, op, dst, rhs, regs[dst := u], x1);
      PutTwice(regs, dst, u, Arith(op, u, OpValue(rhs, regs)));
    } else {
      var x1 := LoadRuns(f, lhs, Rax, regs, x);
      InvScratch(f, regs, x, x1, {Rax});
      Chain(Load(f.al, lhs, Rax), Apply(f.al, op, Rax, rhs), x, x1);
      var x2 := ApplyRuns(f, op, Rax, rhs, regs, x1);
      Chain(Load(f.al, lhs, Rax) + Apply(f.al, op, Rax, rhs), Store(f.al, dst, Rax), x, x2);
      InvScratch(f, regs, x1, x2, {Rcx, Rax});
      y := StoreRuns(f, dst, Rax, regs, x2);
    }
  }

  lemma ReadReg(o: Operand, regs: map<nat, i64>)
    requires o.Reg?
    ensures OpValue(o, regs) == RegValue(regs, o.n)
  {
  }

  lemma ApplyHome(f: Fn, op: ArithOp, dst: nat, rhs: Operand, regs: map<nat, i64>, x: Cpu) returns (y: Cpu)
    requires Inv(f, regs, x) && dst < f.n && dst in f.al && OperandBelow(rhs, f.n) && !IsDivision(op)
    requires rhs.ImmI64? && !IsShift(op) ==> Fits32(rhs.i)
    ensures EffectsOf(Apply(f.al, op, f.al[dst], rhs), x) == Next(y)
    ensures Inv(f, regs[dst := Arith(op, RegValue(regs, dst), OpValue(rhs, regs))], y) && y.out == x.out
  {
    hide Load, OpValue, Inv, Apply, Arith, Fits32;
    HomeOf(f, dst, regs, x);
    y := ApplyRuns(f, op, f.al[dst], rhs, regs, x);
    assert {Rcx, f.al[dst]} == {Rcx} + {f.al[dst]};
    InvHome(f, regs, x, y, dst, {Rcx});
  }

  // ----- division -----

  lemma DivideSim(f: Fn, op: ArithOp, dst: nat, lhs: Operand, rhs: Operand, regs: map<nat, i64>, x: Cpu)
    requires Inv(f, regs, x) && dst < f.n && OperandBelow(lhs, f.n) && OperandBelow(rhs, f.n) && IsDivision(op)
    ensures var u, v := OpValue(lhs, regs), OpValue(rhs, regs);
            if Traps(op, u, v) then EffectsOf(DivideCode(f.al, op, dst, lhs, rhs), x) == DivideFault(x.out)
            else EffectsOf(DivideCode(f.al, op, dst, lhs, rhs), x).Next?
                 && var y := EffectsOf(DivideCode(f.al, op, dst, lhs, rhs), x).x;
                    Inv(f, regs[dst := Arith(op, u, v)], y) && y.out == x.out
  {
    hide Load, Store, OpValue, Inv, Arith, Traps;
    var u, v := OpValue(lhs, regs), OpValue(rhs, regs);
    var fetch := FetchCode(f.al, lhs, rhs);
    var tail := (if op.OpMod? then [MovReg(Rax, Rdx)] else []);
    var x1 := FetchRuns(f, lhs, rhs, regs, x);
    var rest := [Cqo, Idiv(Rcx)] + tail + Store(f.al, dst, Rax);
    DivideSplit(f.al, op, dst, lhs, rhs);
    Chain(fetch, DivideTail(op) + Store(f.al, dst, Rax), x, x1);
    InvScratch(f, regs, x, x1, {Rax, Rcx, Rdx});
    TailRuns(op, u, v, x1);
    EffectsAppend(DivideTail(op), Store(f.al, dst, Rax), x1);
    if !Traps(op, u, v) {
      var x2 := EffectsOf(DivideTail(op), x1).x;
      InvScratch(f, regs, x1, x2, {Rax, Rdx});
      var y := StoreRuns(f, dst, Rax, regs, x2);
    }
  }

  /** The dividend in `rax`, its sign in `rdx`, the divisor in `rcx`; a literal divisor comes last. */
  function FetchCode(al: Alloc, lhs: Operand, rhs: Operand): seq<XInsn> {
    if rhs.ImmI64? then Load(al, lhs, Rax) + [Cqo, MovImm(Rcx, rhs.i)]
    else Load(al, lhs, Rax) + Load(al, lhs, Rax) + Load(al, rhs, Rcx) + [Cqo]
  }

  function DivideTail(op: ArithOp): seq<XInsn> {
    [Idiv(Rcx)] + (if op.OpMod? then [MovReg(Rax, Rdx)] else [])
  }

  lemma DivideSplit(al: Alloc, op: ArithOp, dst: nat, lhs: Operand, rhs: Operand)
    ensures DivideCode(al, op, dst, lhs, rhs) == FetchCode(al, lhs, rhs) + (DivideTail(op) + Store(al, dst, Rax))
  {
    hide Load, Store;
  }

  lemma FetchRuns(f: Fn, lhs: Operand, rhs: Operand, regs: map<nat, i64>, x: Cpu) returns (y: Cpu)
    requires Inv(f, regs, x) && OperandBelow(lhs, f.n) && OperandBelow(rhs, f.n)
    ensures EffectsOf(FetchCode(f.al, lhs, rhs), x) == Next(y) && SameBut(x, y, {Rax, Rcx, Rdx})
    ensures Rax in y.regs && Rcx in y.regs && Rdx in y.regs && y.regs[Rax] == OpValue(lhs, regs) && y.regs[Rcx] == OpValue(rhs, regs)
    ensures y.regs[Rdx] == if y.regs[Rax] < 0 then -1 else 0
  {
    hide Load, OpValue, Inv, Arith, CallEffect, Shifted, Wrap, CondHolds, LowByte, Traps;
    var x1 := LoadRuns(f, lhs, Rax, regs, x);
    InvScratch(f, regs, x, x1, {Rax});
    if rhs.ImmI64? {
      assert OpValue(rhs, regs) == rhs.i by { ReadImm(rhs, regs); }
      Chain(Load(f.al, lhs, Rax), [Cqo, MovImm(Rcx, rhs.i)], x, x1);
      y := SignAndCount(rhs.i, x1);
    } else {
      hide Effects;
      var x2 := LoadRuns(f, lhs, Rax, regs, x1);
      Chain(Load(f.al, lhs, Rax), Load(f.al, lhs, Rax), x, x1);
      InvScratch(f, regs, x1, x2, {Rax});
      var x3 := LoadRuns(f, rhs, Rcx, regs, x2);
      Chain(Load(f.al, lhs, Rax) + Load(f.al, lhs, Rax), Load(f.al, rhs, Rcx), x, x2);
      Chain(Load(f.al, lhs, Rax) + Load(f.al, lhs, Rax) + Load(f.al, rhs, Rcx), [Cqo], x, x3);
      y := SignOf(x3);
    }
  }

  lemma SignOf(x: Cpu) returns (y: Cpu)
    requires Rax in x.regs
    ensures EffectsOf([Cqo], x) == Next(y) && y == x.(regs := x.regs[Rdx := if x.regs[Rax] < 0 then -1 else 0])
  {
    EffectsOne(Cqo, x);
    y := Effects(Cqo, x).x;
  }

  lemma SignAndCount(v: i64, x: Cpu) returns (y: Cpu)
    requires Rax in x.regs
    ensures EffectsOf([Cqo, MovImm(Rcx, v)], x) == Next(y)
    ensures y == x.(regs := x.regs[Rdx := if x.regs[Rax] < 0 then -1 else 0][Rcx := v])
  {
    y := x.(regs := x.regs[Rdx := if x.regs[Rax] < 0 then -1 else 0][Rcx := v]);
    TwoEffects(Cqo, MovImm(Rcx, v), x);
  }

  lemma ReadImm(o: Operand, regs: map<nat, i64>)
    requires o.ImmI64?
    ensures OpValue(o, regs) == o.i
  {
  }

  lemma TwoEffects(a: XInsn, b: XInsn, x: Cpu)
    ensures EffectsOf([a, b], x) == match Effects(a, x)
                                    case Next(y) => Effects(b, y)
                                    case e => e
  {
    hide Effects;
    assert [a, b] == [a] + [b];
    EffectsAppend([a], [b], x);
    EffectsOne(a, x);
    if Effects(a, x).Next? {
      EffectsOne(b, Effects(a, x).x);
    }
  }

  lemma TailRuns(op: ArithOp, u: i64, v: i64, x: Cpu)
    requires IsDivision(op) && Rax in x.regs && Rcx in x.regs && Rdx in x.regs && x.regs[Rax] == u && x.regs[Rcx] == v
    requires x.regs[Rdx] == if u < 0 then -1 else 0
    ensures if Traps(op, u, v) then EffectsOf(DivideTail(op), x) == DivideFault(x.out)
            else EffectsOf(DivideTail(op), x).Next?
                 && var y := EffectsOf(DivideTail(op), x).x;
                    SameBut(x, y, {Rax, Rdx}) && Rax in y.regs && y.regs[Rax] == Arith(op, u, v)
  {
    hide Arith, CallEffect, Shifted, Wrap, CondHolds, LowByte;
    if op.OpMod? {
      assert DivideTail(op) == [Idiv(Rcx), MovReg(Rax, Rdx)];
      TwoEffects(Idiv(Rcx), MovReg(Rax, Rdx), x);
    } else {
      assert DivideTail(op) == [Idiv(Rcx)];
      EffectsOne(Idiv(Rcx), x);
    }
  }

  // ----- comparisons -----

  lemma CompareRuns(f: Fn, lhs: Operand, rhs: Operand, regs: map<nat, i64>, x: Cpu) returns (y: Cpu)
    requires Inv(f, regs, x) && OperandBelow(lhs, f.n) && OperandBelow(rhs, f.n) && (rhs.ImmI64? ==> Fits32(rhs.i))
    ensures EffectsOf(Load(f.al, lhs, Rax) + CompareCode(f.al, rhs), x) == Next(y) && SameBut(x, y, {Rax, Rcx}) && Rax in y.regs
    ensures y.flags == Compared(OpValue(lhs, regs), OpValue(rhs, regs))
  {
    hide Load, OpValue, Inv, Effects, EffectsOf, Fits32;
    var x1 := LoadRuns(f, lhs, Rax, regs, x);
    InvScratch(f, regs, x, x1, {Rax});
    Chain(Load(f.al, lhs, Rax), CompareCode(f.al, rhs), x, x1);
    if rhs.ImmI64? {
      ReadImm(rhs, regs);
      var i := if rhs.i == 0 then Test(Rax) else CmpImm(Rax, rhs.i);
      FlagsOf(rhs.i, x1);
      y := x1.(flags := Compared(x1.regs[Rax], rhs.i));
      OneRuns(i, x1, y);
    } else {
      var x2 := LoadRuns(f, rhs, Rcx, regs, x1);
      Chain(Load(f.al, rhs, Rcx), [CmpReg(Rax, Rcx)], x1, x2);
      FlagsOf(0, x2);
      y := x2.(flags := Compared(x2.regs[Rax], x2.regs[Rcx]));
      OneRuns(CmpReg(Rax, Rcx), x2, y);
    }
  }

  lemma FlagsOf(v: i64, x: Cpu)
    requires Rax in x.regs
    ensures Effects(Test(Rax), x) == Next(x.(flags := Compared(x.regs[Rax], 0)))
    ensures Fits32(v) ==> Effects(CmpImm(Rax, v), x) == Next(x.(flags := Compared(x.regs[Rax], v)))
    ensures Rcx in x.regs ==> Effects(CmpReg(Rax, Rcx), x) == Next(x.(flags := Compared(x.regs[Rax], x.regs[Rcx])))
  {
  }

  /** Setting the low byte of `rax` and then clearing the rest leaves the byte. */
  lemma SetByte(v: i64, t: i64)
    requires 0 <= t <= 1
    ensures LowByte(Wrap(v - LowByte(v) + t)) == t
  {
    var k := v / 256;
    assert v - LowByte(v) + t == 256 * k + t;
    assert -TWO63 <= 256 * k + t < TWO63;
    ByteUnique(256 * k + t, k, t);
  }

  lemma ByteUnique(b: int, q: int, t: int)
    requires b == 256 * q + t && 0 <= t < 256
    ensures b % 256 == t
  {
  }

  lemma SetEffects(k: Cond, x: Cpu)
    requires Rax in x.regs && x.flags.Compared?
    ensures var t := Truth(CondHolds(k, x.flags.a, x.flags.b));
            Effects(SetAl(k), x) == Next(WithReg(x, Rax, Wrap(x.regs[Rax] - LowByte(x.regs[Rax]) + t), x.flags))
    ensures Effects(MovzxAl, x) == Next(WithReg(x, Rax, LowByte(x.regs[Rax]), x.flags))
  {
    hide Wrap, LowByte, CondHolds;
  }

  lemma WithRegTwice(x: Cpu, r: Gpr, u: i64, v: i64)
    ensures var y := WithReg(x, r, u, x.flags);
            r in y.regs && y.regs[r] == u && y.flags == x.flags && WithReg(y, r, v, y.flags) == WithReg(x, r, v, x.flags)
  {
  }

  lemma TwoSteps(a: XInsn, b: XInsn, x: Cpu, y: Cpu, z: Cpu)
    requires Effects(a, x) == Next(y) && Effects(b, y) == Next(z)
    ensures EffectsOf([a, b], x) == Next(z)
  {
    hide Effects, EffectsOf;
    TwoEffects(a, b, x);
  }

  lemma SetRuns(k: Cond, x: Cpu)
    requires Rax in x.regs && x.flags.Compared?
    ensures EffectsOf([SetAl(k), MovzxAl], x)
         == Next(WithReg(x, Rax, Truth(CondHolds(k, x.flags.a, x.flags.b)), x.flags))
  {
    hide *;
    var t := Truth(CondHolds(k, x.flags.a, x.flags.b));
    assert 0 <= t <= 1 by { TruthBit(CondHolds(k, x.flags.a, x.flags.b)); }
    var u := Wrap(x.regs[Rax] - LowByte(x.regs[Rax]) + t);
    SetByte(x.regs[Rax], t);
    SetEffects(k, x);
    var y := WithReg(x, Rax, u, x.flags);
    WithRegTwice(x, Rax, u, t);
    SetEffects(k, y);
    TwoSteps(SetAl(k), MovzxAl, x, y, WithReg(x, Rax, t, x.flags));
  }

  lemma TruthBit(b: bool)
    ensures 0 <= Truth(b) <= 1
  {
  }

  lemma CmpSim(f: Fn, dst: nat, k: Cond, lhs: Operand, rhs: Operand, regs: map<nat, i64>, x: Cpu) returns (y: Cpu)
    requires Inv(f, regs, x) && dst < f.n && OperandBelow(lhs, f.n) && OperandBelow(rhs, f.n) && (rhs.ImmI64? ==> Fits32(rhs.i))
    ensures EffectsOf(Load(f.al, lhs, Rax) + CompareCode(f.al, rhs) + [SetAl(k), MovzxAl] + Store(f.al, dst, Rax), x) == Next(y)
    ensures Inv(f, regs[dst := Truth(CondHolds(k, OpValue(lhs, regs), OpValue(rhs, regs)))], y) && y.out == x.out
  {
    hide Load, Store, CompareCode, OpValue, Inv, Effects, EffectsOf, Fits32, CondHolds, Truth;
    var head := Load(f.al, lhs, Rax) + CompareCode(f.al, rhs);
    var x1 := CompareRuns(f, lhs, rhs, regs, x);
    SetRuns(k, x1);
    Chain(head, [SetAl(k), MovzxAl], x, x1);
    var v := Truth(CondHolds(k, OpValue(lhs, regs), OpValue(rhs, regs)));
    var x2 := WithReg(x1, Rax, v, x1.flags);
    Chain(head + [SetAl(k), MovzxAl], Store(f.al, dst, Rax), x, x2);
    InvScratch(f, regs, x, x2, {Rax, Rcx});
    y := StoreRuns(f, dst, Rax, regs, x2);
  }

  // ----- one operand -----

  lemma ThroughRax(f: Fn, dst: nat, src: Operand, i: XInsn, v: i64, regs: map<nat, i64>, x: Cpu) returns (y: Cpu)
    requires Inv(f, regs, x) && dst < f.n && OperandBelow(src, f.n)
    requires forall z: Cpu :: Rax in z.regs && z.regs[Rax] == OpValue(src, regs) ==>
               Effects(i, z) == Next(z.(regs := z.regs[Rax := v], flags := NoFlags))
    ensures EffectsOf(Load(f.al, src, Rax) + [i] + Store(f.al, dst, Rax), x) == Next(y)
    ensures Inv(f, regs[dst := v], y) && y.out == x.out
  {
    hide Load, Store, OpValue, Inv, EffectsOf;
    var x1 := LoadRuns(f, src, Rax, regs, x);
    Chain(Load(f.al, src, Rax), [i], x, x1);
    var x2 := x1.(regs := x1.regs[Rax := v], flags := NoFlags);
    OneRuns(i, x1, x2);
    Chain(Load(f.al, src, Rax) + [i], Store(f.al, dst, Rax), x, x2);
    InvScratch(f, regs, x, x2, {Rax});
    y := StoreRuns(f, dst, Rax, regs, x2);
  }

  lemma NegSim(f: Fn, dst: nat, src: Operand, regs: map<nat, i64>, x: Cpu) returns (y: Cpu)
    requires Inv(f, regs, x) && dst < f.n && OperandBelow(src, f.n)
    ensures EffectsOf(Load(f.al, src, Rax) + [NegReg(Rax)] + Store(f.al, dst, Rax), x) == Next(y)
    ensures Inv(f, regs[dst := Arith(OpSub, 0, OpValue(src, regs))], y) && y.out == x.out
  {
    hide Inv, EffectsOf, Load, Store, OpValue, Arith;
    var v := Arith(OpSub, 0, OpValue(src, regs));
    forall z: Cpu | Rax in z.regs && z.regs[Rax] == OpValue(src, regs)
      ensures Effects(NegReg(Rax), z) == Next(z.(regs := z.regs[Rax := v], flags := NoFlags)) {
    }
    y := ThroughRax(f, dst, src, NegReg(Rax), v, regs, x);
  }

  lemma NotSim(f: Fn, dst: nat, src: Operand, regs: map<nat, i64>, x: Cpu) returns (y: Cpu)
    requires Inv(f, regs, x) && dst < f.n && OperandBelow(src, f.n)
    ensures EffectsOf(Load(f.al, src, Rax) + [AluImm(OpXor, Rax, 1)] + Store(f.al, dst, Rax), x) == Next(y)
    ensures Inv(f, regs[dst := Arith(OpXor, OpValue(src, regs), 1)], y) && y.out == x.out
  {
    hide Inv, EffectsOf, Load, Store, OpValue, Arith;
    var v := Arith(OpXor, OpValue(src, regs), 1);
    forall z: Cpu | Rax in z.regs && z.regs[Rax] == OpValue(src, regs)
      ensures Effects(AluImm(OpXor, Rax, 1), z) == Next(z.(regs := z.regs[Rax := v], flags := NoFlags)) {
    }
    y := ThroughRax(f, dst, src, AluImm(OpXor, Rax, 1), v, regs, x);
  }

  // ----- calls -----

  /** How many arguments a library function takes. */
  function ArityOf(f: Runtime): nat {
    match f
    case ValueOp(_) => 2
    case ValueCmp(_) => 2
    case LoadGlobalValue(_) => 0
    case _ => 1
  }

  /** A call keeps the homes of all registers and the frame. */
  lemma InvCall(f: Fn, regs: map<nat, i64>, x: Cpu, y: Cpu)
    requires Inv(f, regs, x) && y.rsp == x.rsp && y.rbp == x.rbp
    requires y.mem == map a | a in x.mem && a >= x.rsp :: x.mem[a]
    requires forall r :: r !in CALLER_SAVED ==> (r in y.regs <==> r in x.regs) && (r in x.regs ==> y.regs[r] == x.regs[r])
    ensures Inv(f, regs, y)
  {
    forall i | 0 <= i < |f.fr.saved| ensures Saved(f, y, i) {
      assert Saved(f, x, i);
    }
  }

  /** The call itself, with the arguments in place. */
  lemma InvokeRuns(f: Fn, g: Runtime, args: seq<i64>, regs: map<nat, i64>, x: Cpu)
    requires Inv(f, regs, x) && ArgValues(g, x) == Some(args)
    ensures match Invoke(g, args)
            case Answer(v, text) =>
              && Effects(CallRuntime(g), x).Next?
              && var y := Effects(CallRuntime(g), x).x;
                 Inv(f, regs, y) && y.out == x.out + text && (!Prints(g) ==> Rax in y.regs && y.regs[Rax] == v)
            case Refused => Effects(CallRuntime(g), x) == DivideFault(x.out)
            case NotModelled => true
  {
    hide Invoke, ArgValues, Inv;
    var e := Effects(CallRuntime(g), x);
    assert x.rsp % 16 == 0 by { Aligned(f, regs, x); }
    if e.Next? {
      InvCall(f, regs, x, e.x);
    }
  }

  lemma Aligned(f: Fn, regs: map<nat, i64>, x: Cpu)
    requires Inv(f, regs, x)
    ensures x.rsp % 16 == 0
  {
  }

  lemma ArgsRun(f: Fn, g: Runtime, args: seq<Operand>, regs: map<nat, i64>, x: Cpu) returns (y: Cpu)
    requires Inv(f, regs, x) && |args| == ArityOf(g) && 0 < |args| <= 2
    requires forall k :: 0 <= k < |args| ==> OperandBelow(args[k], f.n)
    ensures EffectsOf(BeforeCall(f.al, args), x) == Next(y) && Inv(f, regs, y) && y.out == x.out
    ensures ArgValues(g, y) == Some(OpValues(args, regs))
  {
    hide Load, OpValue, Inv, Effects, EffectsOf;
    var x1 := LoadRuns(f, args[0], Rdi, regs, x);
    InvScratch(f, regs, x, x1, {Rdi});
    var x2 := x1;
    var code := Load(f.al, args[0], Rdi);
    if |args| == 2 {
      x2 := LoadRuns(f, args[1], Rsi, regs, x1);
      InvScratch(f, regs, x1, x2, {Rsi});
      Chain(code, Load(f.al, args[1], Rsi), x, x1);
      code := code + Load(f.al, args[1], Rsi);
    }
    LoadTwo(f.al, args);
    assert BeforeCall(f.al, args) == code + [Zero(Rax)];
    Chain(code, [Zero(Rax)], x, x2);
    Simple(Rax, Rax, 0, 0, x2);
    y := x2.(regs := x2.regs[Rax := 0], flags := NoFlags);
    OneRuns(Zero(Rax), x2, y);
    InvScratch(f, regs, x2, y, {Rax});
    assert OpValues(args, regs) == if |args| == 2 then [OpValue(args[0], regs), OpValue(args[1], regs)] else [OpValue(args[0], regs)];
  }

  lemma LoadTwo(al: Alloc, args: seq<Operand>)
    requires 0 < |args| <= 2
    ensures BeforeCall(al, args)
         == Load(al, args[0], Rdi) + (if |args| == 2 then Load(al, args[1], Rsi) else []) + [Zero(Rax)]
  {
    hide Load;
    assert LoadArgs(al, args, |args|) == [];
    if |args| == 2 {
      assert LoadArgs(al, args, 1) == Load(al, args[1], Rsi) + LoadArgs(al, args, 2);
      assert LoadArgs(al, args, 0) == Load(al, args[0], Rdi) + LoadArgs(al, args, 1);
    } else {
      assert LoadArgs(al, args, 0) == Load(al, args[0], Rdi) + LoadArgs(al, args, 1);
    }
  }

  lemma AnswersArity(g: Runtime, args: seq<i64>)
    requires !Invoke(g, args).NotModelled?
    ensures |args| == ArityOf(g) && 0 < |args| <= 2
  {
  }

  lemma CallSim(f: Fn, dst: Option<nat>, g: Runtime, args: seq<Operand>, c: IrConfig, x: Cpu)
    requires Inv(f, c.regs, x) && x.out == c.out && InsnOk(Call(dst, g, args), f.n)
    ensures Simulates(f, CallCode(f.al, dst, g, args), x, c.regs, CallStep(c, dst, g, OpValues(args, c.regs)))
  {
    hide Load, Store, OpValue, Inv, Effects, EffectsOf, Invoke, BeforeCall;
    var vals := OpValues(args, c.regs);
    if !Invoke(g, vals).NotModelled? {
      AnswersArity(g, vals);
      var x1 := ArgsRun(f, g, args, c.regs, x);
      InvokeRuns(f, g, vals, c.regs, x1);
      EffectsOne(CallRuntime(g), x1);
      var tail := if dst.Some? then Store(f.al, dst.value, Rax) else [];
      assert CallCode(f.al, dst, g, args) == BeforeCall(f.al, args) + ([CallRuntime(g)] + tail);
      Chain(BeforeCall(f.al, args), [CallRuntime(g)] + tail, x, x1);
      EffectsAppend([CallRuntime(g)], tail, x1);
      if Invoke(g, vals).Answer? {
        var x2 := Effects(CallRuntime(g), x1).x;
        if dst.Some? {
          var y := StoreRuns(f, dst.value, Rax, c.regs, x2);
        } else {
          EffectsNone(x2);
        }
      }
    }
  }

  lemma ConvertSim(f: Fn, dst: nat, src: Operand, g: Option<Runtime>, c: IrConfig, x: Cpu)
    requires Inv(f, c.regs, x) && x.out == c.out && dst < f.n && OperandBelow(src, f.n)
    requires g.Some? ==> g.value in {MakeI64, MakeBool, GetI64, GetBool}
    ensures Simulates(f, ConvertCode(f.al, dst, src, g), x, c.regs,
                      if g.Some? then CallStep(c, Some(dst), g.value, [OpValue(src, c.regs)]) else Put(c, dst, OpValue(src, c.regs)))
  {
    hide Load, Store, OpValue, Inv, Effects, EffectsOf;
    if g.Some? {
      var x1 := LoadRuns(f, src, Rdi, c.regs, x);
      InvScratch(f, c.regs, x, x1, {Rdi});
      Chain(Load(f.al, src, Rdi), [CallRuntime(g.value)], x, x1);
      InvokeRuns(f, g.value, [OpValue(src, c.regs)], c.regs, x1);
      EffectsOne(CallRuntime(g.value), x1);
      var x2 := Effects(CallRuntime(g.value), x1).x;
      Chain(Load(f.al, src, Rdi) + [CallRuntime(g.value)], Store(f.al, dst, Rax), x, x2);
      var y := StoreRuns(f, dst, Rax, c.regs, x2);
      assert c.out + "" == c.out;
    } else {
      var x1 := LoadRuns(f, src, Rax, c.regs, x);
      InvScratch(f, c.regs, x, x1, {Rax});
      Chain(Load(f.al, src, Rax), Store(f.al, dst, Rax), x, x1);
      var y := StoreRuns(f, dst, Rax, c.regs, x1);
    }
  }

  // ----- every straight-line instruction -----

  /** The instructions that neither jump nor return. */
  predicate Straight(i: Insn) {
    !i.Branch? && !i.BranchTrue? && !i.Jump? && !i.Ret?
  }

  lemma InsnSim(f: Fn, i: Insn, body: seq<Insn>, c: IrConfig, x: Cpu)
    requires Inv(f, c.regs, x) && x.out == c.out && InsnOk(i, f.n) && Straight(i)
    ensures Simulates(f, InsnCode(f.al, f.fr, i), x, c.regs, StepInsn(body, i, c))
  {
    hide Load, Store, OpValue, Inv, Effects, EffectsOf, Invoke, BinCode, MovCode, CallCode, ConvertCode, Arith,
      Traps, CompareCode, Truth,
      CondHolds, CallStep, Fits32, OperandBelow, DivideCode;
    match i
    case Label(l) =>
      EffectsOne(XLabel(l), x);
      LabelEffect(l, x);
    case Comment => EffectsNone(x);
    case Mov(dst, src) => var y := MovSim(f, dst, src, c.regs, x);
    case Box(dst, src, from) => ConvertSim(f, dst, src, BoxCall(from), c, x);
    case Unbox(dst, src, to) => ConvertSim(f, dst, src, UnboxCall(to), c, x);
    case Bin(op, dst, lhs, rhs) => BinSim(f, i, body, c, x);
    case DynBin(op, dst, lhs, rhs) =>
      assert OpValues([lhs, rhs], c.regs) == [OpValue(lhs, c.regs), OpValue(rhs, c.regs)];
      CallSim(f, Some(dst), ValueOp(op), [lhs, rhs], c, x);
    case Neg(dst, src) => var y := NegSim(f, dst, src, c.regs, x);
    case Not(dst, src) => var y := NotSim(f, dst, src, c.regs, x);
    case Cmp(dst, k, lhs, rhs) => var y := CmpSim(f, dst, k, lhs, rhs, c.regs, x);
    case Call(dst, g, args) => CallSim(f, dst, g, args, c, x);
  }

  lemma LabelEffect(l: nat, x: Cpu)
    ensures Effects(XLabel(l), x) == Next(x)
  {
  }

  lemma BinSim(f: Fn, i: Insn, body: seq<Insn>, c: IrConfig, x: Cpu)
    requires i.Bin? && Inv(f, c.regs, x) && x.out == c.out && InsnOk(i, f.n)
    ensures Simulates(f, InsnCode(f.al, f.fr, i), x, c.regs, StepInsn(body, i, c))
  {
    hide Load, Store, OpValue, Inv, Effects, EffectsOf, Arith, Apply, DivideCode, Fits32;
    var u, v := OpValue(i.lhs, c.regs), OpValue(i.rhs, c.regs);
    if IsDivision(i.op) {
      hide Traps;
      assert BinCode(f.al, i.op, i.dst, i.lhs, i.rhs) == DivideCode(f.al, i.op, i.dst, i.lhs, i.rhs);
      DivideSim(f, i.op, i.dst, i.lhs, i.rhs, c.regs, x);
    } else {
      hide BinCode;
      var y := ArithSim(f, i.op, i.dst, i.lhs, i.rhs, c.regs, x);
    }
  }
}
