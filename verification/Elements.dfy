/** Lists, tuples and texts by place: what indexing, element assignment, iteration, sums and ranges hold where. */
module Elements {
  import opened Values
  import opened Words

  /** The items of a list or tuple, or the characters of a text. */
  predicate IsSequence(v: Value) {
    v.List? || v.Tuple? || v.Str?
  }

  function Size(v: Value): int
    requires IsSequence(v)
  {
    if v.Str? then |v.s| else |v.elems|
  }

  function ItemAt(v: Value, k: nat): Value
    requires IsSequence(v) && k < Size(v)
  {
    if v.Str? then Str([v.s[k]]) else v.elems[k]
  }

  // ----- indexing -----

  /** The item at `k` is found under `k` and under `k` less the size, and nothing under any other number. */
  lemma IndexExact(v: Value, i: int)
    requires IsSequence(v)
    ensures forall k :: 0 <= k < Size(v) && (i == k || i == k - Size(v)) ==> IndexValue(v, Int(i)) == Ok(ItemAt(v, k))
    ensures !(-Size(v) <= i < Size(v)) ==> IndexValue(v, Int(i)) == Err(IndexOutOfBounds)
  {
  }

  /** Only sequences have indices, and only integers are. */
  lemma IndexRefused(v: Value, i: Value)
    requires !IsSequence(v) || !i.Int?
    ensures IndexValue(v, i) == Err(CannotIndex)
  {
  }

  /** The place that an index of a list of `n` items means. */
  predicate Means(n: nat, i: int, k: int) {
    (i >= 0 && k == i) || (i < 0 && k == i + n)
  }

  /** Assigning to an element succeeds exactly for a place that is not before the list. It changes that place
      alone; a list that is too short grows up to it, with nulls in between. */
  lemma UpdateExact(xs: seq<Value>, i: int, k: int, v: Value)
    requires Means(|xs|, i, k)
    ensures var r := IndexUpdate(List(xs), Int(i), v);
            && (r.Ok? <==> k >= 0) && (r.Err? ==> r.error == IndexOutOfBounds)
            && (r.Ok? ==>
                  && r.value.List?
                  && var ys := r.value.elems;
                     && |ys| == (if k < |xs| then |xs| else k + 1) && ys[k] == v
                     && (forall j :: 0 <= j < |xs| && j != k ==> ys[j] == xs[j])
                     && (forall j :: |xs| <= j < k ==> ys[j] == Null))
  {
  }

  lemma UpdateRefused(c: Value, i: Value, v: Value)
    requires !c.List? || !i.Int?
    ensures IndexUpdate(c, i, v) == Err(CannotIndex)
  {
  }

  /** What was assigned is found under every index that means the same place, and what was elsewhere is there
      still. */
  lemma UpdatedIndex(xs: seq<Value>, i: int, k: nat, j: int, m: nat, v: Value)
    requires Means(|xs|, i, k) && Means(|xs|, j, m) && k < |xs| && m < |xs|
    ensures var r := IndexUpdate(List(xs), Int(i), v);
            r.Ok? && IndexValue(r.value, Int(j)) == if k == m then Ok(v) else IndexValue(List(xs), Int(j))
  {
    UpdateExact(xs, i, k, v);
  }

  // ----- iterating, adding, testing -----

  /** A loop over a sequence goes through its items in order; over anything else it has no rounds. */
  lemma ItemsExact(v: Value)
    ensures if IsSequence(v) then |Items(v)| == Size(v) && forall k: nat :: k < Size(v) ==> Items(v)[k] == ItemAt(v, k)
            else Items(v) == []
  {
  }

  /** False are null, false, zero, and what is empty. */
  lemma FalseExact(v: Value)
    ensures !Truthy(v) <==> v in {Null, Bool(false), Int(0), Str(""), List([]), Tuple([])}
  {
  }

  /** `not` of them is true, and of nothing else. */
  lemma NotExact(v: Value)
    ensures UnaryValue(Not, v) == Bool(v in {Null, Bool(false), Int(0), Str(""), List([]), Tuple([])})
  {
    FalseExact(v);
  }

  /** Values are equal if they are the same, and the two tests are each other's opposite. */
  lemma EqualExact(a: Value, b: Value)
    ensures BinaryValues(Eq, a, b) == Ok(Bool(a == b)) && BinaryValues(Ne, a, b) == Ok(Bool(a != b))
  {
  }

  /** Adding to a text, on either side, appends what is printed. */
  lemma TextsAdd(a: Value, b: Value)
    ensures a.Str? || b.Str? ==> BinaryValues(Add, a, b) == Ok(Str(Display(a) + Display(b)))
  {
  }

  /** A sum with a list holds the items of the first and then those of the second; what is no list counts as
      one item. */
  lemma ListsAdd(a: Value, b: Value)
    requires (a.List? || b.List?) && !a.Str? && !b.Str?
    ensures var xs, ys := if a.List? then a.elems else [a], if b.List? then b.elems else [b];
            var r := BinaryValues(Add, a, b);
            && r.Ok? && r.value.List? && |r.value.elems| == |xs| + |ys|
            && forall k :: 0 <= k < |xs| + |ys| ==> r.value.elems[k] == if k < |xs| then xs[k] else ys[k - |xs|]
  {
  }

  /** Tuples are added to tuples alone, and numbers to numbers. */
  lemma OthersAdd(a: Value, b: Value)
    requires !a.Str? && !b.Str? && !a.List? && !b.List?
    ensures BinaryValues(Add, a, b).Ok? <==> (a.Int? && b.Int?) || (a.Tuple? && b.Tuple?)
    ensures a.Int? && b.Int? ==> exists r: i64 :: BinaryValues(Add, a, b) == Ok(Int(r)) && (r - (a.i + b.i)) % TWO64 == 0
    ensures a.Tuple? && b.Tuple? ==>
              var r := BinaryValues(Add, a, b).value;
              && r.Tuple? && |r.elems| == |a.elems| + |b.elems|
              && forall k :: 0 <= k < |r.elems| ==> r.elems[k] == if k < |a.elems| then a.elems[k] else b.elems[k - |a.elems|]
  {
    hide Wrap;
    if a.Int? && b.Int? {
      var r: i64 := Wrap(a.i + b.i);
      assert BinaryValues(Add, a, b) == Ok(Int(r)) && (r - (a.i + b.i)) % TWO64 == 0;
    }
  }

  /** What is not a number has no difference, quotient, order or negative: a difference is an error, and so is a
      product unless it is of a text and a number; the others are null, for what is no text either. */
  lemma OthersRefused(a: Value, b: Value)
    requires !(a.Int? && b.Int?)
    ensures BinaryValues(Sub, a, b) == Err(TypeError)
    ensures !(a.Str? && b.Int?) && !(a.Int? && b.Str?) ==> BinaryValues(Mul, a, b) == Err(TypeError)
    ensures BinaryValues(FloorDiv, a, b) == Ok(Null) && BinaryValues(BinOp.Mod, a, b) == Ok(Null)
    ensures forall op :: op in {Lt, Gt, Le, Ge} && !(a.Str? && b.Str?) ==> BinaryValues(op, a, b) == Ok(Null)
    ensures !a.Int? ==> UnaryValue(Neg, a) == Null
  {
  }

  /** Dividing by zero is an error of its own for quotients and for remainders, and so is the one quotient that does
      not fit. */
  lemma DivisionErrors(a: i64, b: i64)
    ensures BinaryValues(FloorDiv, Int(a), Int(b)) == Err(DivisionByZero) <==> b == 0
    ensures BinaryValues(BinOp.Mod, Int(a), Int(b)) == Err(ModuloByZero) <==> b == 0
    ensures forall op :: op in {FloorDiv, BinOp.Mod} ==>
              (BinaryValues(op, Int(a), Int(b)) == Err(ArithmeticOverflow) <==> a == -TWO63 && b == -1)
  {
  }

  /** `list_append` puts a value at the end of a list, and begins a list if it is given none. */
  lemma GrownExact(a: Value, v: Value)
    ensures var xs := if a.List? then a.elems else [];
            var r := Grown(a, v);
            && r.List? && |r.elems| == |xs| + 1 && r.elems[|xs|] == v && forall k :: 0 <= k < |xs| ==> r.elems[k] == xs[k]
  {
  }

  // ----- ranges -----

  predicate Before(i: int, end: int, step: int) {
    if step > 0 then i < end else i > end
  }

  lemma WrapUnique(x: int, r: i64)
    requires (r - x) % TWO64 == 0
    ensures Wrap(x) == r
  {
    var a, b := (Wrap(x) - x) / TWO64, (r - x) / TWO64;
    assert Wrap(x) - r == TWO64 * (a - b);
  }

  lemma WrapTwice(x: int, y: int)
    ensures Wrap(Wrap(x) + y) == Wrap(x + y)
  {
    hide Wrap;
    var a, b := (Wrap(x) - x) / TWO64, (Wrap(x + y) - (x + y)) / TWO64;
    assert Wrap(x + y) - (Wrap(x) + y) == TWO64 * (b - a);
    Multiple(b - a);
    WrapUnique(Wrap(x) + y, Wrap(x + y));
  }

  lemma Multiple(q: int)
    ensures (TWO64 * q) % TWO64 == 0
  {
  }

  /** Where `k` steps lead. */
  function Reached(i: int, step: int, k: nat): i64 {
    Wrap(i + k * step)
  }

  lemma ReachedNext(i: int, step: int, k: nat)
    ensures Reached(Wrap(i + step), step, k) == Reached(i, step, k + 1)
    ensures -TWO63 <= i < TWO63 ==> Reached(i, step, 0) == i
  {
    hide Wrap;
    WrapTwice(i + step, k * step);
    assert i + step + k * step == i + (k + 1) * step && 0 * step == 0;
  }

  /** The items of a range are the start and what one step more, and one more, leads to, each before the end; the
      next one is not. */
  lemma {:induction false} RangeExact(i: int, end: int, step: int, room: nat)
    requires -TWO63 <= i < TWO63 && RangeFrom(i, end, step, room).Ok?
    ensures var xs := RangeFrom(i, end, step, room).value;
            && (forall k: nat :: k < |xs| ==> xs[k] == Int(Reached(i, step, k)) && Before(Reached(i, step, k), end, step))
            && !Before(Reached(i, step, |xs|), end, step)
    decreases room
  {
    hide Wrap, Reached, Before;
    var xs := RangeFrom(i, end, step, room).value;
    ReachedNext(i, step, 0);
    RangeFromStep(i, end, step, room);
    if xs != [] {
      var j := Wrap(i + step);
      RangeExact(j, end, step, room - 1);
      var rest := RangeFrom(j, end, step, room - 1).value;
      ReachedNext(i, step, |rest|);
      forall k: nat | k < |xs| ensures xs[k] == Int(Reached(i, step, k)) && Before(Reached(i, step, k), end, step) {
        if k > 0 {
          assert xs[k] == rest[k - 1] && rest[k - 1] == Int(Reached(j, step, k - 1));
          ReachedNext(i, step, k - 1);
        }
      }
    }
  }

  ghost predicate Endless(i: int, end: int, step: int, room: nat) {
    forall k: nat :: k <= room ==> Before(Reached(i, step, k), end, step)
  }

  lemma EndlessNext(i: int, end: int, step: int, room: nat)
    requires -TWO63 <= i < TWO63
    ensures Endless(i, end, step, room) <==> Before(i, end, step) && (room > 0 ==> Endless(Wrap(i + step), end, step, room - 1))
  {
    hide Wrap, Reached, Before;
    var j := Wrap(i + step);
    ReachedNext(i, step, 0);
    forall k: nat ensures Reached(j, step, k) == Reached(i, step, k + 1) {
      ReachedNext(i, step, k);
    }
    if Before(i, end, step) && (room > 0 ==> Endless(j, end, step, room - 1)) {
      forall k: nat | k <= room ensures Before(Reached(i, step, k), end, step) {
        if k > 0 {
          assert Reached(j, step, k - 1) == Reached(i, step, k);
        }
      }
    }
  }

  /** A range that does not come to its end is refused, and no other. */
  lemma {:induction false} EndlessExact(i: int, end: int, step: int, room: nat)
    requires -TWO63 <= i < TWO63
    ensures RangeFrom(i, end, step, room) == Err(OutOfMemory) <==> Endless(i, end, step, room)
    ensures RangeFrom(i, end, step, room).Ok? <==> !Endless(i, end, step, room)
    decreases room
  {
    hide Wrap, Endless;
    EndlessNext(i, end, step, room);
    if Before(i, end, step) && room > 0 {
      EndlessExact(Wrap(i + step), end, step, room - 1);
    }
  }

  lemma RangeFromStep(i: int, end: int, step: int, room: nat)
    requires RangeFrom(i, end, step, room).Ok?
    ensures if Before(i, end, step) then
              && room > 0 && RangeFrom(Wrap(i + step), end, step, room - 1).Ok?
              && RangeFrom(i, end, step, room).value == [Int(i)] + RangeFrom(Wrap(i + step), end, step, room - 1).value
            else RangeFrom(i, end, step, room).value == []
  {
    hide Wrap;
  }

  /** The bounds and the step of a range are integers, truth values taken as numbers, or texts that are numbers;
      anything else is an error, and so is a step of zero. */
  lemma RangeErrors(a: Value, b: Value, c: Value)
    ensures !(IsWhole(a) && IsWhole(b) && IsWhole(c)) ==> Range3Values(a, b, c) == Err(CannotConvert)
    ensures IsWhole(a) && IsWhole(b) && IsWhole(c) && Whole(c) == 0 ==> Range3Values(a, b, c) == Err(RangeStepZero)
    ensures IsWhole(a) && IsWhole(b) && IsWhole(c) && Whole(c) != 0 ==>
              Range3Values(a, b, c) == match RangeFrom(Whole(a), Whole(b), Whole(c), TWO64)
                                       case Ok(xs) => Ok(List(xs))
                                       case Err(e) => Err(e)
  {
    hide RangeFrom, ParseInt;
  }

  predicate IsWhole(v: Value) {
    v.Int? || v.Bool? || (v.Str? && ParseInt(v.s).Some?)
  }

  function Whole(v: Value): int {
    match v
    case Int(i) => i
    case Bool(b) => if b then 1 else 0
    case Str(s) => if ParseInt(s).Some? then ParseInt(s).value else 0
    case _ => 0
  }
}
