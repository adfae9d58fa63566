/** Powers of two, division with remainder, and bitwise operations on natural numbers. */
module Bits {

  function Pow2(n: nat): (p: nat)
    ensures 0 < p
  {
    if n == 0 then 1 else 2 * Pow2(n - 1)
  }

  /** Bitwise or. */
  function Or(x: nat, y: nat): nat
    decreases x + y
  {
    if x == 0 && y == 0 then 0
    else 2 * Or(x / 2, y / 2) + (if x % 2 == 1 || y % 2 == 1 then 1 else 0)
  }

  // ----- arithmetic ----------------------------------------------------------------------------

  lemma MulSign(k: int, d: int)
    requires 0 < d
    ensures 1 <= k ==> d <= k * d
    ensures k <= 0 ==> k * d <= 0
    ensures k <= -1 ==> k * d <= -d
  {
  }

  lemma DivUnique(x: int, q: int, r: int, d: int)
    requires 0 < d && x == q * d + r && 0 <= r < d
    ensures x / d == q && x % d == r
  {
    var k := q - x / d;
    assert k * d == q * d - x / d * d;
    MulSign(k, d);
  }

  lemma DivShrinks(x: nat, d: nat)
    requires 0 < d
    ensures 0 <= x / d <= x
  {
    var q := x / d;
    assert x == q * d + x % d;
    MulSign(q, d);
    Grows(q, d);
  }

  lemma Grows(q: int, d: nat)
    requires 0 < d && 0 <= q
    ensures q <= q * d
  {
    if q > 0 {
      MulSign(d, q);
    }
  }

  /** Dividing by 2h is halving and then dividing by h. */
  lemma HalfFirst(x: nat, h: nat)
    requires 0 < h
    ensures 2 * (x / 2 / h * h) == x / (2 * h) * (2 * h)
  {
    var q, r := x / 2 / h, x / 2 % h;
    assert x / 2 == q * h + r;
    assert q * (2 * h) == 2 * (q * h);
    DivUnique(x, q, 2 * r + x % 2, 2 * h);
  }

  lemma {:induction false} Pow2Sum(m: nat, n: nat)
    ensures Pow2(m + n) == Pow2(m) * Pow2(n)
  {
    if m == 0 {
    } else {
      Pow2Sum(m - 1, n);
    }
  }

  lemma {:induction false} Pow2Grows(n: nat, m: nat)
    requires n < m
    ensures 2 * Pow2(n) <= Pow2(m)
    decreases m - n
  {
    if n + 1 < m {
      Pow2Grows(n + 1, m);
    }
  }

  lemma {:induction false} OrSelf(x: nat)
    ensures Or(x, 0) == x && Or(0, x) == x
  {
    if x == 0 {
    } else {
      OrSelf(x / 2);
    }
  }

  lemma HalfOfMultiple(k: nat, p: nat)
    ensures (k * (2 * p)) / 2 == k * p && (k * (2 * p)) % 2 == 0
  {
  }

  /** Or of a multiple of 2^n and something below 2^n is their sum. */
  lemma {:induction false} OrIsSum(k: nat, y: nat, n: nat)
    requires y < Pow2(n)
    ensures Or(k * Pow2(n), y) == k * Pow2(n) + y
  {
    if n == 0 {
      OrSelf(k);
    } else {
      OrIsSum(k, y / 2, n - 1);
      HalfOfMultiple(k, Pow2(n - 1));
    }
  }

  lemma {:induction false} OrCommutes(x: nat, y: nat)
    ensures Or(x, y) == Or(y, x)
    decreases x + y
  {
    if x == 0 && y == 0 {
    } else {
      OrCommutes(x / 2, y / 2);
    }
  }

  lemma SumIsOr(y: nat, k: nat, n: nat)
    requires y < Pow2(n)
    ensures Or(y, k * Pow2(n)) == k * Pow2(n) + y
  {
    OrIsSum(k, y, n);
    OrCommutes(k * Pow2(n), y);
  }

  lemma OrOdd(x: nat, h: nat)
    requires 1 <= h
    ensures Or(x, 2 * h - 1) == 2 * Or(x / 2, h - 1) + 1
  {
  }

  lemma LowBitsStep(x: nat, h: nat)
    requires 1 <= h && Or(x / 2, h - 1) == x / 2 / h * h + h - 1
    ensures Or(x, 2 * h - 1) == x / (2 * h) * (2 * h) + 2 * h - 1
  {
    HalfFirst(x, h);
    OrOdd(x, h);
  }

  /** Or with 2^n - 1 sets the lowest n bits. */
  lemma {:induction false} OrSetsLowBits(x: nat, n: nat)
    ensures Or(x, Pow2(n) - 1) == x / Pow2(n) * Pow2(n) + Pow2(n) - 1
  {
    if n == 0 {
      OrSelf(x);
    } else {
      var h := Pow2(n - 1);
      OrSetsLowBits(x / 2, n - 1);
      LowBitsStep(x, h);
    }
  }

  /** Bitwise and. */
  function And(x: nat, y: nat): nat {
    if x == 0 || y == 0 then 0
    else 2 * And(x / 2, y / 2) + (if x % 2 == 1 && y % 2 == 1 then 1 else 0)
  }

  lemma HalfMod(x: nat, h: nat)
    requires 0 < h
    ensures x % (2 * h) == 2 * (x / 2 % h) + x % 2
  {
    var q, r := x / 2 / h, x / 2 % h;
    assert x / 2 == q * h + r;
    assert q * (2 * h) == 2 * (q * h);
    DivUnique(x, q, 2 * r + x % 2, 2 * h);
  }

  /** And with 2^n - 1 keeps the lowest n bits. */
  lemma {:induction false} AndKeepsLowBits(x: nat, n: nat)
    ensures And(x, Pow2(n) - 1) == x % Pow2(n)
  {
    if n > 0 {
      var h := Pow2(n - 1);
      AndKeepsLowBits(x / 2, n - 1);
      HalfMod(x, h);
      AndOdd(x, h);
    }
  }

  lemma AndOdd(x: nat, h: nat)
    requires 1 <= h
    ensures And(x, 2 * h - 1) == 2 * And(x / 2, h - 1) + x % 2
  {
  }

  /** The remainder by a product: the lower part stays, the upper part loses its high bits. */
  lemma ModSplit(x: nat, p: nat, k: nat)
    requires 0 < p && 0 < k
    ensures 0 < k * p && x % (k * p) == x / p % k * p + x % p
  {
    var b, lo := x / p, x % p;
    var q, r := b / k, b % k;
    assert x == b * p + lo && b == q * k + r;
    assert b * p == q * (k * p) + r * p by {
      assert (q * k + r) * p == q * k * p + r * p;
      assert q * k * p == q * (k * p);
    }
    MulSign(k, p);
    MulSign(k - r, p);
    assert (k - r) * p == k * p - r * p;
    assert 0 <= r * p;
    DivUnique(x, q, r * p + lo, k * p);
  }

  /** Taking the remainder by a multiple of p first does not change the remainder by p. */
  lemma ModOfMod(x: nat, p: nat, k: nat)
    requires 0 < p && 0 < k
    ensures 0 < k * p && x % (k * p) % p == x % p
  {
    MulSign(k, p);
    ModSplit(x, p, k);
    DivUnique(x % (k * p), x / p % k, x % p, p);
  }

  /** And with a multiple y of p = 2^n drops the lowest n bits. */
  lemma {:induction false} AndShift(x: nat, q: nat, y: nat, k: nat, p: nat, n: nat)
    requires p == Pow2(n) && y == k * p && q == x / p
    ensures And(x, y) == And(q, k) * p
  {
    if n > 0 {
      var h := Pow2(n - 1);
      HalfOfMultiple(k, h);
      DivTwice(x, h);
      AndShift(x / 2, q, y / 2, k, h, n - 1);
      AndEven(x, y);
      Doubled(And(q, k), h, p);
    }
  }

  lemma Doubled(a: int, h: int, p: int)
    requires p == 2 * h
    ensures 2 * (a * h) == a * p
  {
  }

  lemma DivTwice(x: nat, h: nat)
    requires 0 < h
    ensures x / (2 * h) == x / 2 / h
  {
    var q, r := x / 2 / h, x / 2 % h;
    assert x / 2 == q * h + r;
    assert q * (2 * h) == 2 * (q * h);
    DivUnique(x, q, 2 * r + x % 2, 2 * h);
  }

  lemma AndEven(x: nat, y: nat)
    requires y % 2 == 0
    ensures And(x, y) == 2 * And(x / 2, y / 2)
  {
  }

  /** A multiple of p below q * p leaves room for a remainder. */
  lemma RoomAbove(x: nat, p: nat, q: nat)
    requires 0 < p && x % p == 0 && x < q * p
    ensures x + p <= q * p
  {
    var d := q - x / p;
    assert x == x / p * p;
    assert d * p == q * p - x / p * p;
    MulSign(d, p);
  }
}
