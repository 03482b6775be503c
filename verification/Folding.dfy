/** Constant folding against the code that would have been emitted, and division on the two targets. */
module Folding {
  import opened Arithmetic
  import opened Values
  import opened Words
  import opened StaticIr
  import opened Lowering
  import opened X86
  import opened Emission
  import opened Simulation
  import Elements

  /** Dividing the smallest integer by minus one: the quotient does not fit. */
  predicate Overflows(op: ArithOp, a: i64, b: i64) {
    IsDivision(op) && a == -TWO63 && b == -1
  }

  lemma ModWithin(b: int)
    ensures (b % 0x1_0000_0000) % 64 == b % 64
  {
    var q, r := b / 0x1_0000_0000, b % 0x1_0000_0000;
    assert b == 64 * (0x400_0000 * q + r / 64) + r % 64;
    ModUnique(b, 0x400_0000 * q + r / 64, r % 64);
  }

  /** Folding gives up on a zero divisor alone, and elsewhere computes what the instruction computes,
      except where the instruction faults on an overflowing quotient: there it wraps around. */
  lemma FoldAgrees(op: ArithOp, a: i64, b: i64)
    ensures FoldArith(op, a, b).None? <==> IsDivision(op) && b == 0
    ensures Traps(op, a, b) <==> FoldArith(op, a, b).None? || Overflows(op, a, b)
    ensures !Traps(op, a, b) ==> FoldArith(op, a, b) == Some(Arith(op, a, b))
    ensures Overflows(op, a, b) ==> FoldArith(op, a, b) == Some(if op.OpDiv? then -TWO63 else 0)
  {
    hide Bitwise, ShiftLeft, ShiftRight;
    ModWithin(b);
  }

  /** Where two literals are folded, the code for the unfolded operation leaves the folded value in
      the destination, or faults on the overflowing quotient. */
  lemma FoldedCode(f: Fn, op: ArithOp, dst: nat, a: i64, b: i64, regs: map<nat, i64>, x: Cpu)
    requires Inv(f, regs, x) && dst < f.n && (IsAlu(op) ==> Fits32(b)) && FoldArith(op, a, b).Some?
    ensures var e := EffectsOf(BinCode(f.al, op, dst, ImmI64(a), ImmI64(b)), x);
            if Overflows(op, a, b) then e == DivideFault(x.out)
            else e.Next? && Inv(f, regs[dst := FoldArith(op, a, b).value], e.x)
  {
    hide Load, Store, Inv, EffectsOf, Arith, Apply, DivideCode, FoldArith, Fits32, Traps;
    FoldAgrees(op, a, b);
    assert OpValue(ImmI64(a), regs) == a && OpValue(ImmI64(b), regs) == b;
    if IsDivision(op) {
      DivideSim(f, op, dst, ImmI64(a), ImmI64(b), regs, x);
    } else {
      NoTrap(op, a, b);
      var y := ArithSim(f, op, dst, ImmI64(a), ImmI64(b), regs, x);
    }
  }

  lemma NoTrap(op: ArithOp, a: i64, b: i64)
    requires !IsDivision(op)
    ensures !Traps(op, a, b)
  {
  }

  /** The same for comparisons: the folded one or zero is what `set` leaves. */
  lemma FoldedComparison(f: Fn, op: BinOp, dst: nat, a: i64, b: i64, regs: map<nat, i64>, x: Cpu)
    requires Inv(f, regs, x) && dst < f.n && IsComparison(op) && Fits32(b)
    ensures var i := Cmp(dst, CondOf(op), ImmI64(a), ImmI64(b));
            var e := EffectsOf(InsnCode(f.al, f.fr, i), x);
            && Fold(op, a, b).Some? && e.Next? && Inv(f, regs[dst := Fold(op, a, b).value], e.x)
  {
    hide Load, Store, Inv, EffectsOf, CompareCode, Fits32, CondHolds;
    var y := CmpSim(f, dst, CondOf(op), ImmI64(a), ImmI64(b), regs, x);
  }

  // ----- division -----

  lemma Negated(a: int, b: int)
    requires b != 0
    ensures (a % b == 0) <==> ((-a) % b == 0)
  {
    if a % b == 0 {
      assert -a == b * -(a / b) + 0;
      DivUnique(-a, b, -(a / b), 0);
    }
    if (-a) % b == 0 {
      assert a == b * -((-a) / b) + 0;
      DivUnique(a, b, -((-a) / b), 0);
    }
  }

  /** The two quotients, and the two remainders, are equal exactly when the dividend is not negative
      or the division leaves nothing over. */
  lemma TruncIsEuclid(a: int, b: int)
    requires b != 0
    ensures TruncDiv(a, b) == a / b <==> a >= 0 || a % b == 0
    ensures TruncMod(a, b) == a % b <==> a >= 0 || a % b == 0
  {
    var q, r := (-a) / b, (-a) % b;
    assert a == b * -q - r;
    assert a == b * (a / b) + a % b;
    Negated(a, b);
    if a < 0 {
      assert b * TruncDiv(a, b) == b * -q;
      assert TruncMod(a, b) == -r;
      if r == 0 {
        DivUnique(a, b, -q, 0);
      }
    }
  }

  lemma RemainderOf(a: int, b: int)
    requires b != 0
    ensures TruncMod(a, b) == if a < 0 then -((-a) % b) else a % b
  {
    var u := Abs(a);
    MulSigns(b, u / b);
    assert u == b * (u / b) + u % b;
  }

  lemma TruncFits(a: i64, b: i64)
    requires !Traps(OpDiv, a, b)
    ensures -TWO63 <= TruncDiv(a, b) < TWO63 && -TWO63 <= TruncMod(a, b) < TWO63
  {
    hide TruncMod;
    QuotientBound(Abs(a), b);
    RemainderOf(a, b);
  }

  /** `//` on the stack machine is Euclidean and on the processor it truncates: where neither stops
      they agree exactly on the dividends that are not negative or are multiples of the divisor. */
  lemma DivisionExact(a: i64, b: i64)
    requires !Traps(OpDiv, a, b)
    ensures DivideValues(FloorDiv, Int(a), Int(b)) == Ok(Int(Arith(OpDiv, a, b))) <==> a >= 0 || a % b == 0
    ensures DivideValues(BinOp.Mod, Int(a), Int(b)) == Ok(Int(Arith(OpMod, a, b))) <==> a >= 0 || a % b == 0
  {
    hide TruncDiv, TruncMod, Bitwise, ShiftLeft, ShiftRight;
    TruncIsEuclid(a, b);
    TruncFits(a, b);
  }

  /** Where the processor faults the stack machine reports an error, and nowhere else. */
  lemma DivisionStops(op: ArithOp, a: i64, b: i64)
    requires IsDivision(op)
    ensures Traps(op, a, b) <==> DivideValues(if op.OpDiv? then FloorDiv else BinOp.Mod, Int(a), Int(b)).Err?
  {
  }

  /** `q` is the quotient rounded down, and so the remainder has the sign of the divisor. */
  predicate IsFloor(a: int, b: int, q: int)
    requires b != 0
  {
    if b > 0 then b * q <= a < b * q + b else b * q + b < a <= b * q
  }

  /** `//` on the stack machine rounds down, and `%` has the sign of the divisor, exactly where the divisor is
      positive or nothing is left over. */
  lemma FloorExact(a: i64, b: i64, q: int)
    requires !Traps(OpDiv, a, b) && IsFloor(a, b, q)
    ensures DivideValues(FloorDiv, Int(a), Int(b)) == Ok(Int(q)) <==> b > 0 || a % b == 0
    ensures DivideValues(BinOp.Mod, Int(a), Int(b)) == Ok(Int(a - b * q)) <==> b > 0 || a % b == 0
  {
    var r := a - b * q;
    if b > 0 || r == 0 {
      DivUnique(a, b, q, r);
    } else {
      assert b * (q + 1) == b * q + b;
      DivUnique(a, b, q + 1, r - b);
    }
  }

  /** Seven by minus two: minus three with a rest of one, where rounding down gives minus four. */
  lemma FloorDiffers()
    ensures IsFloor(7, -2, -4) && DivideValues(FloorDiv, Int(7), Int(-2)) == Ok(Int(-3))
    ensures DivideValues(BinOp.Mod, Int(7), Int(-2)) == Ok(Int(1))
  {
  }

  /** Minus seven by two: minus four with a rest of one, or minus three with a rest of minus one. */
  lemma DivisionDiffers()
    ensures DivideValues(FloorDiv, Int(-7), Int(2)) == Ok(Int(-4)) && Arith(OpDiv, -7, 2) == -3
    ensures DivideValues(BinOp.Mod, Int(-7), Int(2)) == Ok(Int(1)) && Arith(OpMod, -7, 2) == -1
  {
  }
  // ----- shifts -----

  /** One place more to the left doubles the word, without what does not fit; one more to the right halves it,
      rounding down. */
  lemma ShiftsExact(a: i64, k: nat)
    ensures ShiftLeft(a, 0) == a && ShiftRight(a, 0) == a
    ensures ShiftLeft(a, k + 1) == Wrap(2 * ShiftLeft(a, k))
    ensures 2 * ShiftRight(a, k + 1) <= ShiftRight(a, k) <= 2 * ShiftRight(a, k + 1) + 1
  {
    hide Wrap;
    var p := Pow2(k);
    assert Pow2(0) == 1 && Pow2(k + 1) == 2 * p;
    LeftTwice(a, p);
    RightWithin(a, p);
    RightWithin(a, 2 * p);
    RightTwice(a, p);
  }

  lemma LeftTwice(a: i64, p: nat)
    ensures Wrap(a * (2 * p)) == Wrap(2 * Wrap(a * p))
  {
    hide Wrap;
    var x := a * p;
    assert a * (2 * p) == 2 * x;
    WrapDouble(x);
  }

  lemma WrapDouble(x: int)
    ensures Wrap(2 * Wrap(x)) == Wrap(2 * x)
  {
    hide Wrap;
    var q := (Wrap(x) - x) / TWO64;
    assert Wrap(x) == x + TWO64 * q;
    var r := (Wrap(2 * x) - 2 * x) / TWO64;
    assert Wrap(2 * x) - 2 * Wrap(x) == TWO64 * (r - 2 * q);
    Elements.Multiple(r - 2 * q);
    Elements.WrapUnique(2 * Wrap(x), Wrap(2 * x));
  }

  lemma RightWithin(a: i64, p: nat)
    requires p >= 1
    ensures -TWO63 <= a / p < TWO63 && Wrap(a / p) == a / p
  {
    hide Wrap;
    var q, r := a / p, a % p;
    assert a == p * q + r;
    if q >= 0 {
      MulAtLeast(p, q, 1);
    } else {
      MulAtLeast(p, -q - 1, 1);
      assert p * (-q - 1) == -(p * q) - p;
    }
  }

  lemma RightTwice(a: i64, p: nat)
    requires p >= 1
    ensures a / (2 * p) == a / p / 2
  {
    var q, r := a / p, a % p;
    assert a == p * q + r && q == 2 * (q / 2) + q % 2;
    assert p * q == (2 * p) * (q / 2) + p * (q % 2) by { assert p * (2 * (q / 2)) == (2 * p) * (q / 2); }
    assert q % 2 == 0 || q % 2 == 1;
    DivUnique(a, 2 * p, q / 2, p * (q % 2) + r);
  }

  // ----- boxed numbers -----

  /** The library divides by zero where the processor would fault, and the quotient is zero; elsewhere it does what
      the processor does. */
  lemma BoxedDivision(body: seq<Insn>, op: ArithOp, dst: nat, x: Operand, y: Operand, c: IrConfig)
    requires IsDivision(op)
    ensures var r, s := StepInsn(body, DynBin(op, dst, x, y), c), StepInsn(body, Bin(op, dst, x, y), c);
            if OpValue(y, c.regs) == 0 then s == Trapped(c.out) && r == Going(c.(pc := c.pc + 1, regs := c.regs[dst := 0]))
            else r == s
  {
    hide Arith;
  }
}
