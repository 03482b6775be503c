/** What values look like when they are printed, and how texts compare and repeat: stated by place, and for
    numbers by reading them back. */
module Texts {
  import opened Values

  // ----- numbers -----

  predicate IsDigit(c: char) {
    '0' <= c <= '9'
  }

  /** The number that a text of digits stands for. */
  function ValueOf(s: string): int {
    if s == "" then 0 else 10 * ValueOf(s[..|s| - 1]) + (s[|s| - 1] as int - '0' as int)
  }

  /** The text is the numeral of `n`: digits worth `n`, without a zero in front. */
  predicate Numeral(s: string, n: int) {
    s != "" && (forall k :: 0 <= k < |s| ==> IsDigit(s[k])) && (s[0] == '0' ==> |s| == 1) && ValueOf(s) == n
  }

  lemma LastDigit(n: nat)
    ensures var c := "0123456789"[n % 10]; IsDigit(c) && c as int - '0' as int == n % 10
  {
  }

  lemma {:induction false} DigitsMean(n: nat)
    ensures Numeral(Digits(n), n) && (n > 0 ==> Digits(n)[0] != '0')
  {
    LastDigit(n);
    if n >= 10 {
      DigitsMean(n / 10);
      var front, last := Digits(n / 10), "0123456789"[n % 10];
      assert Digits(n) == front + [last];
      assert Digits(n)[..|Digits(n)| - 1] == front;
      assert 10 * (n / 10) + n % 10 == n;
    } else {
      assert Digits(n) == ["0123456789"[n]];
      assert Digits(n)[..0] == "";
    }
  }

  /** An integer is printed as its sign, if it is negative, and the numeral of its size. */
  lemma DecimalMeans(i: int)
    ensures Decimal(i) != ""
    ensures if i < 0 then Decimal(i)[0] == '-' && Numeral(Decimal(i)[1..], -i) else Numeral(Decimal(i), i)
  {
    hide Digits, Numeral;
    DigitsMean(if i < 0 then -i else i);
    if i < 0 {
      assert Decimal(i)[1..] == Digits(-i);
    } else {
      assert Decimal(i) != "" by { NumeralStarts(Decimal(i), i); }
    }
  }

  lemma NumeralStarts(s: string, n: int)
    requires Numeral(s, n)
    ensures s != "" && IsDigit(s[0])
  {
  }

  lemma {:induction false} NumeralWorth(s: string)
    requires s != "" && s[0] != '0' && forall k :: 0 <= k < |s| ==> IsDigit(s[k])
    ensures ValueOf(s) > 0
  {
    if |s| == 1 {
      assert s[..0] == "";
    } else {
      NumeralWorth(s[..|s| - 1]);
    }
  }

  /** A number has one numeral. */
  lemma {:induction false} NumeralUnique(s: string, t: string, n: int)
    requires Numeral(s, n) && Numeral(t, n)
    ensures s == t
    decreases |s|
  {
    var s', t' := s[..|s| - 1], t[..|t| - 1];
    assert s == s' + [s[|s| - 1]] && t == t' + [t[|t| - 1]];
    assert n == 10 * ValueOf(s') + (s[|s| - 1] as int - '0' as int) == 10 * ValueOf(t') + (t[|t| - 1] as int - '0' as int);
    assert ValueOf(s') == ValueOf(t') && s[|s| - 1] == t[|t| - 1];
    if s' != "" {
      NumeralWorth(s');
    }
    if t' != "" {
      NumeralWorth(t');
    }
    if s' != "" && t' != "" {
      NumeralUnique(s', t', ValueOf(s'));
    }
  }

  // ----- reading numbers -----

  lemma {:induction false} ReadMeans(s: string)
    ensures ReadDigits(s).Some? <==> forall k :: 0 <= k < |s| ==> IsDigit(s[k])
    ensures ReadDigits(s).Some? ==> ReadDigits(s).value == ValueOf(s)
  {
    if s != "" {
      var n := |s| - 1;
      ReadMeans(s[..n]);
      assert s == s[..n] + [s[n]];
    }
  }

  /** A text is an integer exactly if it is digits, at least one, perhaps after a sign, and fits. */
  lemma ParseExact(s: string, i: int)
    ensures ParseInt(s) == Some(i)
       <==> var signed := s != "" && s[0] in {'-', '+'};
            var digits := if signed then s[1..] else s;
            && digits != "" && (forall k :: 0 <= k < |digits| ==> IsDigit(digits[k]))
            && i == (if signed && s[0] == '-' then -ValueOf(digits) else ValueOf(digits)) && -TWO63 <= i < TWO63
  {
    hide ReadDigits, ValueOf;
    ReadMeans(s);
    if s != "" {
      ReadMeans(s[1..]);
    }
  }

  /** What is printed is read back. */
  lemma RoundTrip(i: i64)
    ensures ParseInt(Decimal(i)) == Some(i as int)
  {
    hide ParseInt, Decimal, ValueOf;
    DecimalMeans(i);
    ParseExact(Decimal(i), i);
  }

  // ----- lists and tuples -----

  /** The texts of the items. */
  function Shapes(xs: seq<Value>): seq<string> {
    seq(|xs|, k requires 0 <= k < |xs| => Display(xs[k]))
  }

  /** Where the `k`-th text begins: past the texts before it with a separator each. */
  function Place(texts: seq<string>, k: nat): nat
    requires k <= |texts|
  {
    if k == 0 then 0 else Place(texts, k - 1) + |texts[k - 1]| + 2
  }

  /** The `k`-th text stands in its place, and ", " between it and the next. */
  predicate Stands(s: string, texts: seq<string>, k: nat)
    requires k < |texts|
  {
    var p, q := Place(texts, k), Place(texts, k) + |texts[k]|;
    && q <= |s| && s[p..q] == texts[k]
    && (k < |texts| - 1 ==> q + 2 <= |s| && s[q..q + 2] == ", ")
  }

  /** The text is made of the texts, in order, with ", " between each two. */
  ghost predicate Joined(s: string, texts: seq<string>) {
    && |s| == (if texts == [] then 0 else Place(texts, |texts|) - 2)
    && forall k :: 0 <= k < |texts| ==> Stands(s, texts, k)
  }

  ghost predicate Bracketed(s: string, open: char, texts: seq<string>, close: char) {
    |s| >= 2 && s[0] == open && s[|s| - 1] == close && Joined(s[1..|s| - 1], texts)
  }

  lemma {:induction false} PlaceNext(t: string, rest: seq<string>, k: nat)
    requires k <= |rest|
    ensures Place([t] + rest, k + 1) == |t| + 2 + Place(rest, k)
  {
    if k > 0 {
      PlaceNext(t, rest, k - 1);
    }
  }

  lemma JoinedOne(t: string)
    ensures Joined(t, [t])
  {
    assert Place([t], 1) == Place([t], 0) + |t| + 2;
  }

  lemma JoinedMore(t: string, r: string, rest: seq<string>)
    requires rest != [] && Joined(r, rest)
    ensures Joined(t + ", " + r, [t] + rest)
  {
    var s, texts := t + ", " + r, [t] + rest;
    PlaceNext(t, rest, |rest|);
    forall k | 0 <= k < |texts| ensures Stands(s, texts, k) {
      if k == 0 {
        assert s[0..|t|] == t && s[|t|..|t| + 2] == ", ";
      } else {
        PlaceNext(t, rest, k - 1);
        assert Stands(r, rest, k - 1);
        var p, q := Place(rest, k - 1), Place(rest, k - 1) + |rest[k - 1]|;
        Shifted(t + ", ", r, p, q);
        if k < |texts| - 1 {
          Shifted(t + ", ", r, q, q + 2);
        }
      }
    }
  }

  lemma Shifted(a: string, b: string, p: nat, q: nat)
    requires p <= q <= |b|
    ensures (a + b)[|a| + p..|a| + q] == b[p..q]
  {
  }

  lemma {:induction false} AllMeans(p: Value, xs: seq<Value>)
    requires forall k :: 0 <= k < |xs| ==> xs[k] < p
    ensures Joined(DisplayAll(p, xs), Shapes(xs))
    decreases |xs|
  {
    hide Joined, Display;
    if |xs| == 0 {
      assert Joined("", []) by { JoinedNone(); }
      assert Shapes(xs) == [];
    } else if |xs| == 1 {
      JoinedOne(Display(xs[0]));
      assert Shapes(xs) == [Display(xs[0])];
    } else {
      AllMeans(p, xs[1..]);
      JoinedMore(Display(xs[0]), DisplayAll(p, xs[1..]), Shapes(xs[1..]));
      assert Shapes(xs) == [Display(xs[0])] + Shapes(xs[1..]);
    }
  }

  lemma JoinedNone()
    ensures Joined("", [])
  {
  }

  /** A list is printed as its items in order, in brackets and with ", " between them; a tuple so in
      parentheses; a text as it is. */
  lemma DisplayMeans(v: Value)
    ensures v.List? ==> Bracketed(Display(v), '[', Shapes(v.elems), ']')
    ensures v.Tuple? ==> Bracketed(Display(v), '(', Shapes(v.elems), ')')
    ensures v.Str? ==> Display(v) == v.s
    ensures v.Int? ==> if v.i < 0 then Display(v) != "" && Display(v)[0] == '-' && Numeral(Display(v)[1..], -v.i) else Numeral(Display(v), v.i)
    ensures v.Bool? || v.Null? ==> Display(v) == if v.Null? then "null" else if v.b then "true" else "false"
  {
    hide Joined, Numeral, DisplayAll, Decimal;
    if v.List? || v.Tuple? {
      AllMeans(v, v.elems);
      var inner := DisplayAll(v, v.elems);
      assert Display(v) == (if v.List? then "[" else "(") + inner + (if v.List? then "]" else ")");
      assert Display(v)[1..|Display(v)| - 1] == inner;
    } else if v.Int? {
      DecimalMeans(v.i);
    }
  }

  /** Nothing else is made of the same texts. */
  lemma JoinedUnique(s: string, t: string, texts: seq<string>)
    requires Joined(s, texts) && Joined(t, texts)
    ensures s == t
  {
    forall j | 0 <= j < |s| ensures s[j] == t[j] {
      var k := Covering(texts, |texts|, j);
      assert Stands(s, texts, k) && Stands(t, texts, k);
      var p, q := Place(texts, k), Place(texts, k) + |texts[k]|;
      assert Place(texts, k + 1) == q + 2;
      if j < q {
        assert s[p..q][j - p] == t[p..q][j - p];
      } else {
        assert s[q..q + 2][j - q] == t[q..q + 2][j - q];
      }
    }
  }

  /** Each place belongs to one of the texts or to the separator after it. */
  lemma {:induction false} Covering(texts: seq<string>, n: nat, j: nat) returns (k: nat)
    requires n <= |texts| && j < Place(texts, n)
    ensures k < n && Place(texts, k) <= j < Place(texts, k) + |texts[k]| + 2
  {
    if j >= Place(texts, n - 1) {
      k := n - 1;
    } else {
      k := Covering(texts, n - 1, j);
    }
  }

  // ----- comparing and repeating -----

  /** Where the texts first differ. */
  ghost predicate DifferAt(a: string, b: string, k: nat) {
    k < |a| && k < |b| && (forall j :: 0 <= j < k ==> a[j] == b[j]) && a[k] != b[k]
  }

  /** Texts are ordered by the first place where they differ; one that goes on is greater. */
  lemma {:induction false} StrLessExact(a: string, b: string)
    ensures StrLess(a, b) <==> (a <= b && a != b) || exists k: nat :: DifferAt(a, b, k) && a[k] < b[k]
  {
    if a != "" && b != "" {
      if a[0] == b[0] {
        StrLessExact(a[1..], b[1..]);
        TailDiffers(a, b);
      } else {
        assert DifferAt(a, b, 0);
      }
    }
  }

  /** Behind a common first character the texts differ where their tails do. */
  lemma TailDiffers(a: string, b: string)
    requires a != "" && b != "" && a[0] == b[0]
    ensures a <= b && a != b <==> a[1..] <= b[1..] && a[1..] != b[1..]
    ensures (exists k: nat :: DifferAt(a, b, k) && a[k] < b[k]) <==> exists k: nat :: DifferAt(a[1..], b[1..], k) && a[1..][k] < b[1..][k]
  {
    assert a == [a[0]] + a[1..] && b == [b[0]] + b[1..];
    if k: nat :| DifferAt(a[1..], b[1..], k) && a[1..][k] < b[1..][k] {
      assert DifferAt(a, b, k + 1);
    }
    if k: nat :| DifferAt(a, b, k) && a[k] < b[k] {
      assert DifferAt(a[1..], b[1..], k - 1);
    }
  }

  /** The four orders on two texts: exactly one of less, equal and greater holds. */
  lemma OrderExact(a: string, b: string)
    ensures BinaryValues(Lt, Str(a), Str(b)) == Ok(Bool(StrLess(a, b))) && BinaryValues(Gt, Str(a), Str(b)) == Ok(Bool(StrLess(b, a)))
    ensures BinaryValues(Le, Str(a), Str(b)) == Ok(Bool(StrLess(a, b) || a == b))
    ensures BinaryValues(Ge, Str(a), Str(b)) == Ok(Bool(StrLess(b, a) || a == b))
    ensures !(StrLess(a, b) && StrLess(b, a)) && (a == b <==> !StrLess(a, b) && !StrLess(b, a))
  {
    hide StrLess;
    Trichotomy(a, b);
  }

  lemma {:induction false} Trichotomy(a: string, b: string)
    ensures !(StrLess(a, b) && StrLess(b, a)) && (a == b <==> !StrLess(a, b) && !StrLess(b, a))
  {
    if a != "" && b != "" && a[0] == b[0] {
      Trichotomy(a[1..], b[1..]);
      assert a == [a[0]] + a[1..] && b == [b[0]] + b[1..];
    }
  }

  /** The text is copies of `s`, one after the other. */
  predicate Periodic(t: string, s: string) {
    forall k :: 0 <= k < |t| ==> t[k] == if k < |s| then s[k] else t[k - |s|]
  }

  /** A text times a number: as many copies, none if the number is not positive. */
  lemma {:induction false} RepeatMeans(s: string, n: int)
    ensures |Repeat(s, n)| == |s| * (if n < 0 then 0 else n) && Periodic(Repeat(s, n), s)
    decreases if n < 0 then 0 else n
  {
    if n > 0 {
      RepeatMeans(s, n - 1);
      assert |s| * n == |s| + |s| * (n - 1);
      assert Repeat(s, n) == s + Repeat(s, n - 1);
    }
  }

  /** Multiplying a text and a number, in either order, gives the copies. */
  lemma CopiesExact(s: string, n: int)
    ensures BinaryValues(Mul, Str(s), Int(n)) == BinaryValues(Mul, Int(n), Str(s))
    ensures var r := BinaryValues(Mul, Str(s), Int(n));
            r.Ok? && r.value.Str? && |r.value.s| == |s| * (if n < 0 then 0 else n) && Periodic(r.value.s, s)
  {
    RepeatMeans(s, n);
  }
}
