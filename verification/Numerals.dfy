/**
 * Positional numerals, most significant digit first: the common core of the decimal pool ids, the hexadecimal words
 * of contract calls and the base-58 text of peer ids.
 */
module Numerals {

  function Pow(b: nat, w: nat): nat {
    if w == 0 then 1 else b * Pow(b, w - 1)
  }

  lemma {:induction false} PowAdd(b: nat, v: nat, w: nat)
    ensures Pow(b, v + w) == Pow(b, v) * Pow(b, w)
  {
    if v > 0 {
      PowAdd(b, v - 1, w);
      Associate(b, Pow(b, v - 1), Pow(b, w));
    }
  }

  lemma Associate(x: nat, y: nat, z: nat)
    ensures x * (y * z) == (x * y) * z
  {
  }

  predicate Below(ds: seq<nat>, b: nat) {
    forall i :: 0 <= i < |ds| ==> ds[i] < b
  }

  predicate AllZero(ds: seq<nat>) {
    forall i :: 0 <= i < |ds| ==> ds[i] == 0
  }

  /** The number a digit sequence stands for. */
  function Value(ds: seq<nat>, b: nat): nat {
    if ds == [] then 0 else Value(ds[..|ds| - 1], b) * b + ds[|ds| - 1]
  }

  /** The numeral of n without leading zeros (zero is the empty numeral). */
  function Digits(n: nat, b: nat): (ds: seq<nat>)
    requires b >= 2
    ensures Below(ds, b)
    ensures ds != [] ==> ds[0] != 0
  {
    if n == 0 then [] else Digits(n / b, b) + [n % b]
  }

  /** The w lowest digits of n. */
  function Padded(n: nat, b: nat, w: nat): (ds: seq<nat>)
    requires b >= 2
    ensures |ds| == w && Below(ds, b)
    decreases w, n
  {
    if w == 0 then [] else Padded(n / b, b, w - 1) + [n % b]
  }

  lemma MulGrows(b: int, d: int)
    requires b >= 0 && d >= 1
    ensures b * d >= b
  {
    assert b * d == b + b * (d - 1);
  }

  lemma SmallMultiple(b: int, d: int)
    requires -b < b * d < b
    ensures d == 0
  {
    assert b > 0;
    if d >= 1 { MulGrows(b, d); }
    if d <= -1 { MulGrows(b, -d); assert b * d == -(b * -d); }
  }

  lemma DivMod(q: nat, r: nat, b: nat)
    requires r < b
    ensures (q * b + r) / b == q && (q * b + r) % b == r
  {
    var n := q * b + r;
    var q', r' := n / b, n % b;
    assert n == b * q' + r';
    assert b * (q - q') == b * q - b * q' == r' - r;
    SmallMultiple(b, q - q');
  }

  lemma Reassemble(n: nat, b: nat)
    requires b >= 2
    ensures (n / b) * b + n % b == n
    ensures n == 0 <==> n / b == 0 && n % b == 0
  {
  }

  lemma QuotientBound(n: nat, b: nat, p: nat)
    requires b >= 2 && n < b * p
    ensures n / b < p
  {
    var q := n / b;
    assert b * (q - p) == b * q - b * p < 0;
    if q > p { MulGrows(b, q - p); }
  }

  lemma ValueSnoc(front: seq<nat>, r: nat, b: nat)
    ensures Value(front + [r], b) == Value(front, b) * b + r
  {
    assert (front + [r])[..|front|] == front;
  }

  lemma {:induction false} ValueOfDigits(n: nat, b: nat)
    requires b >= 2
    ensures Value(Digits(n, b), b) == n
  {
    if n != 0 {
      ValueOfDigits(n / b, b);
      ValueSnoc(Digits(n / b, b), n % b, b);
      Reassemble(n, b);
    }
  }

  lemma DigitsSnoc(q: nat, r: nat, b: nat)
    requires b >= 2 && r < b && (q > 0 || r > 0)
    ensures q * b + r > 0
    ensures Digits(q * b + r, b) == Digits(q, b) + [r]
  {
    if q > 0 { MulGrows(b, q); }
    DivMod(q, r, b);
  }

  lemma DigitsOfSnoc(front: seq<nat>, r: nat, b: nat)
    requires b >= 2 && r < b && Digits(Value(front, b), b) == front && (front == [] ==> r > 0)
    requires front != [] ==> Value(front, b) > 0
    ensures Digits(Value(front + [r], b), b) == front + [r]
    ensures Value(front + [r], b) > 0
  {
    ValueSnoc(front, r, b);
    DigitsSnoc(Value(front, b), r, b);
  }

  lemma {:induction false} DigitsOfValue(ds: seq<nat>, b: nat)
    requires b >= 2 && Below(ds, b) && (ds != [] ==> ds[0] != 0)
    ensures Digits(Value(ds, b), b) == ds
    ensures ds != [] ==> Value(ds, b) > 0
  {
    if ds != [] {
      var front, r := ds[..|ds| - 1], ds[|ds| - 1];
      assert ds == front + [r];
      DigitsOfValue(front, b);
      DigitsOfSnoc(front, r, b);
    }
  }

  lemma {:induction false} ValueOfPadded(n: nat, b: nat, w: nat)
    requires b >= 2 && n < Pow(b, w)
    ensures Value(Padded(n, b, w), b) == n
    decreases w
  {
    if w > 0 {
      QuotientBound(n, b, Pow(b, w - 1));
      ValueOfPadded(n / b, b, w - 1);
      ValueSnoc(Padded(n / b, b, w - 1), n % b, b);
      Reassemble(n, b);
    }
  }

  /** Dropping high digits leaves the low ones. */
  lemma {:induction false} PaddedLow(n: nat, b: nat, w: nat, k: nat)
    requires b >= 2 && k <= w
    ensures Padded(n, b, w)[k..] == Padded(n, b, w - k)
    decreases w
  {
    if k < w {
      PaddedLow(n / b, b, w - 1, k);
      assert Padded(n, b, w)[k..] == Padded(n / b, b, w - 1)[k..] + [n % b];
    }
  }

  lemma AllZeroSnoc(front: seq<nat>, r: nat)
    ensures AllZero(front + [r]) <==> AllZero(front) && r == 0
  {
    if AllZero(front + [r]) {
      assert forall i :: 0 <= i < |front| ==> front[i] == (front + [r])[i];
      assert (front + [r])[|front|] == r;
    }
  }

  /** A numeral of a number that fits is all zeros only for zero. */
  lemma {:induction false} ZeroNumeral(n: nat, b: nat, w: nat)
    requires b >= 2 && n < Pow(b, w)
    ensures AllZero(Padded(n, b, w)) <==> n == 0
    decreases w
  {
    if w > 0 {
      QuotientBound(n, b, Pow(b, w - 1));
      ZeroNumeral(n / b, b, w - 1);
      AllZeroSnoc(Padded(n / b, b, w - 1), n % b);
      Reassemble(n, b);
    }
  }

  /** A numeral that continues another. */
  lemma {:induction false} ValueJoin(high: seq<nat>, low: seq<nat>, b: nat)
    ensures Value(high + low, b) == Value(high, b) * Pow(b, |low|) + Value(low, b)
  {
    if low == [] {
      assert high + low == high;
    } else {
      var front, r := low[..|low| - 1], low[|low| - 1];
      ValueJoin(high, front, b);
      assert high + low == high + front + [r];
      assert low == front + [r];
      ValueSnoc(high + front, r, b);
      ValueSnoc(front, r, b);
      Distribute(Value(high, b), Pow(b, |front|), Value(front, b), b);
    }
  }

  lemma Distribute(x: nat, p: nat, y: nat, b: nat)
    ensures (x * p + y) * b == x * (b * p) + y * b
  {
    assert (x * p + y) * b == (x * p) * b + y * b;
    assert (x * p) * b == x * (p * b);
  }

  lemma {:induction false} ValueBound(ds: seq<nat>, b: nat)
    requires b >= 1 && Below(ds, b)
    ensures Value(ds, b) < Pow(b, |ds|)
  {
    if ds != [] {
      var front, r := ds[..|ds| - 1], ds[|ds| - 1];
      ValueBound(front, b);
      ScaledBound(Value(front, b), r, b, Pow(b, |front|));
    }
  }

  lemma ScaledBound(v: nat, r: nat, b: nat, p: nat)
    requires v < p && r < b
    ensures v * b + r < b * p
  {
    MulGrows(b, p - v);
    assert b * (p - v) == b * p - b * v;
  }

  /** The digits of a number are those of its high part, then the low ones. */
  lemma {:induction false} DigitsJoin(q: nat, r: nat, b: nat, w: nat)
    requires b >= 2 && q > 0 && r < Pow(b, w)
    ensures Digits(q * Pow(b, w) + r, b) == Digits(q, b) + Padded(r, b, w)
    decreases w
  {
    if w == 0 {
      assert q * Pow(b, w) + r == q;
    } else {
      var p := Pow(b, w - 1);
      QuotientBound(r, b, p);
      DigitsJoin(q, r / b, b, w - 1);
      Distribute(q, p, r / b, b);
      Reassemble(r, b);
      assert q * p > 0 by { PowPositive(b, w - 1); MulGrows(q, p); }
      DigitsSnoc(q * p + r / b, r % b, b);
    }
  }

  lemma {:induction false} PowPositive(b: nat, w: nat)
    requires b >= 1
    ensures Pow(b, w) >= 1
  {
    if w > 0 {
      PowPositive(b, w - 1);
      MulGrows(b, Pow(b, w - 1));
    }
  }
}
