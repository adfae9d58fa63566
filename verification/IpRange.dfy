/**
 128-bit addresses kept as two 64-bit words, shifts and masks over them, and address ranges.
 Words are numbers below 2^64.  A left shift drops what leaves the word, and shifting by 64 or more
 yields 0, as in the source language.
 */
module IpRange {
  import opened Bits
  import opened Common

  type Word = x: nat | x < WORD

  lemma Pow2Word()
    ensures Pow2(64) == WORD
  {
    assert Pow2(8) == 256;
    Pow2Sum(8, 8);
    Pow2Sum(16, 16);
    Pow2Sum(32, 32);
  }

  // ----- addresses -----------------------------------------------------------------------------

  datatype IP = IP(low: Word, high: Word)

  /** The 128-bit number an address stands for. */
  function Value(i: IP): nat {
    i.high * WORD + i.low
  }

  lemma ValueOrder(a: IP, b: IP)
    ensures Value(a) < Value(b) <==> a.high < b.high || (a.high == b.high && a.low < b.low)
    ensures Value(a) == Value(b) <==> a == b
  {
  }

  function Shl(x: Word, n: nat): Word {
    x * Pow2(n) % WORD
  }

  function ShrWord(x: Word, n: nat): Word {
    DivShrinks(x, Pow2(n));
    x / Pow2(n)
  }

  // ----- shifts and masks as the source computes them ------------------------------------------

  function OrWord(x: Word, y: Word): Word {
    OrFits(x, y);
    Or(x, y)
  }

  lemma OrFits(x: Word, y: Word)
    ensures Or(x, y) < WORD
  {
    Pow2Word();
    OrBelow(x, y, 64);
  }

  lemma {:induction false} OrBelow(x: nat, y: nat, n: nat)
    requires x < Pow2(n) && y < Pow2(n)
    ensures Or(x, y) < Pow2(n)
  {
    if n == 0 {
    } else {
      OrBelow(x / 2, y / 2, n - 1);
    }
  }

  function Ones(n: nat): Word
    requires n < 64
  {
    Pow2Word();
    Pow2Grows(n, 64);
    Pow2(n) - 1
  }

  /** The address whose lowest `ones` bits are set. */
  function IPFromMask(ones: nat): IP {
    if ones >= 128 then IP(WORD - 1, WORD - 1)
    else if ones >= 64 then IP(WORD - 1, Ones(ones % 64))
    else IP(Ones(ones), 0)
  }

  function ShrWords(low: Word, high: Word, n: nat): IP
    requires n < 64
  {
    IP(OrWord(ShrWord(low, n), Shl(high, 64 - n)), ShrWord(high, n))
  }

  function Shr(i: IP, n: nat): IP {
    if n >= 64 then ShrWords(i.high, 0, n % 64) else ShrWords(i.low, i.high, n)
  }

  function BitOr(i: IP, o: IP): IP {
    IP(OrWord(i.low, o.low), OrWord(i.high, o.high))
  }

  predicate IsV4(i: IP) {
    i.high == 0 && (i.low / 0x1_0000_0000 == 0xffff || i.low == 0)
  }

  /** An address counts as IPv4 when it is 0 or lies in the block of mapped addresses. */
  lemma IsV4Iff(i: IP)
    ensures IsV4(i) <==> Value(i) == 0 || 0xffff_0000_0000 <= Value(i) < 0x1_0000_0000_0000
  {
  }

  /** A network: its address and the number of host bits, which an 8-bit field holds. */
  datatype IPNet = IPNet(ip: IP, shift: nat)

  function Limit(n: IPNet): IP {
    BitOr(n.ip, IPFromMask(n.shift))
  }

  predicate Contains(n: IPNet, o: IP) {
    Shr(n.ip, n.shift) == Shr(o, n.shift)
  }

  // ----- what they mean ------------------------------------------------------------------------

  lemma MulEqual(a: int, b: int, h: int)
    requires a == b
    ensures h * a == h * b
  {
  }

  /** Splitting h * w + l by p, for a word size w == p * q. */
  lemma SplitDivision(h: nat, l: nat, p: nat, q: nat, w: nat)
    requires 0 < p && w == p * q
    ensures (h * w + l) / p == h * q + l / p
    ensures (h * w + l) / p * p == h * w + l / p * p
  {
    MulEqual(w, p * q, h);
    assert h * (p * q) == h * q * p;
    assert (h * q + l / p) * p == h * q * p + l / p * p;
    DivUnique(h * w + l, h * q + l / p, l % p, p);
  }

  lemma SplitShift(h: nat, p: nat, q: nat, w: nat)
    requires 0 < p && 0 < q && w == p * q
    ensures h * q / w == h / p && h * q % w == h % p * q
    ensures h * q == h / p * w + h % p * q
  {
    var a, b := h / p, h % p;
    MulEqual(w, p * q, a);
    assert h == a * p + b;
    MulEqual(h, a * p + b, q);
    assert q * (a * p + b) == a * (p * q) + b * q;
    MulSign(p - b, q);
    assert (p - b) * q == p * q - b * q;
    DivUnique(h * q, a, b * q, w);
  }

  lemma DivBelow(l: nat, p: nat, q: nat)
    requires 0 < p && l < p * q
    ensures l / p < q
  {
  }

  lemma ShlValue(h: Word, n: nat)
    requires n < 64
    ensures Shl(h, 64 - n) == h % Pow2(n) * Pow2(64 - n)
  {
    WordSplits(n);
    SplitShift(h, Pow2(n), Pow2(64 - n), WORD);
  }

  lemma ShrFits(l: Word, n: nat)
    requires n < 64
    ensures ShrWord(l, n) < Pow2(64 - n)
  {
    WordSplits(n);
    DivBelow(l, Pow2(n), Pow2(64 - n));
  }

  lemma OrWordIsSum(x: Word, y: Word, k: nat, n: nat)
    requires x < Pow2(n) && y == k * Pow2(n)
    ensures OrWord(x, y) == y + x
  {
    SumIsOr(x, k, n);
  }

  lemma ShrWordsParts(l: Word, h: Word, n: nat)
    requires n < 64
    ensures ShrWords(l, h, n).low == Shl(h, 64 - n) + ShrWord(l, n)
    ensures ShrWords(l, h, n).high == ShrWord(h, n)
  {
    ShlValue(h, n);
    ShrFits(l, n);
    OrWordIsSum(ShrWord(l, n), Shl(h, 64 - n), h % Pow2(n), 64 - n);
  }

  lemma ShiftArithmetic(l: Word, h: Word, n: nat)
    requires n < 64
    ensures ShrWord(h, n) * WORD + Shl(h, 64 - n) + ShrWord(l, n) == (h * WORD + l) / Pow2(n)
  {
    WordSplits(n);
    SplitShift(h, Pow2(n), Pow2(64 - n), WORD);
    SplitDivision(h, l, Pow2(n), Pow2(64 - n), WORD);
  }

  /** A short shift of two words divides the number they stand for. */
  lemma ShrWordsDivides(l: Word, h: Word, n: nat)
    requires n < 64
    ensures Value(ShrWords(l, h, n)) == (h * WORD + l) / Pow2(n)
  {
    ShrWordsParts(l, h, n);
    ShiftArithmetic(l, h, n);
  }

  lemma WordSplits(n: nat)
    requires n <= 64
    ensures Pow2(n) * Pow2(64 - n) == WORD
  {
    Pow2Word();
    Pow2Sum(n, 64 - n);
  }

  lemma LongShrDivides(i: IP, n: nat)
    requires 64 <= n < 128
    ensures Value(Shr(i, n)) == Value(i) / Pow2(n)
  {
    var k := n - 64;
    assert n % 64 == k;
    assert Shr(i, n) == ShrWords(i.high, 0, k);
    ShrWordsDivides(i.high, 0, k);
    assert Value(Shr(i, n)) == i.high / Pow2(k);
    LongPow(k);
    DivByWords(i.high, i.low, Pow2(k), Pow2(n));
  }

  lemma LongPow(k: nat)
    ensures Pow2(k + 64) == Pow2(k) * WORD
  {
    Pow2Word();
    Pow2Sum(k, 64);
  }

  /** Shifting right by up to 127 divides the address by the power of two. */
  lemma ShrDivides(i: IP, n: nat)
    requires n < 128
    ensures Value(Shr(i, n)) == Value(i) / Pow2(n)
  {
    if n < 64 {
      ShrWordsDivides(i.low, i.high, n);
    } else {
      LongShrDivides(i, n);
    }
  }

  lemma DivByWords(h: nat, l: Word, p: nat, w: nat)
    requires 0 < p && w == p * WORD
    ensures (h * WORD + l) / w == h / p
  {
    var a, b := h / p, h % p;
    MulEqual(w, p * WORD, a);
    DivUnique(h * WORD + l, a, b * WORD + l, w);
  }

  /** Or with a mask of up to 128 ones sets the lowest bits of the address. */
  lemma LimitValue(n: IPNet)
    requires n.shift < 128
    ensures
      var p := Pow2(n.shift);
      Value(Limit(n)) == Value(n.ip) / p * p + p - 1
  {
    if n.shift < 64 {
      ShortLimit(n);
    } else {
      LongLimit(n);
    }
  }

  lemma ShortLimit(n: IPNet)
    requires n.shift < 64
    ensures
      var p := Pow2(n.shift);
      Value(Limit(n)) == Value(n.ip) / p * p + p - 1
  {
    var p := Pow2(n.shift);
    OrSetsLowBits(n.ip.low, n.shift);
    OrSelf(n.ip.high);
    WordSplits(n.shift);
    assert Limit(n) == IP(n.ip.low / p * p + p - 1, n.ip.high);
    SplitDivision(n.ip.high, n.ip.low, p, Pow2(64 - n.shift), WORD);
  }

  lemma LongLimitWords(n: IPNet)
    requires 64 <= n.shift < 128
    ensures
      var p := Pow2(n.shift - 64);
      Limit(n).low == WORD - 1 && Limit(n).high == n.ip.high / p * p + p - 1
  {
    assert IPFromMask(n.shift) == IP(WORD - 1, Ones(n.shift - 64));
    FullMask(n.ip.low);
    SetsLowWordBits(n.ip.high, n.shift - 64);
  }

  lemma SetsLowWordBits(x: Word, n: nat)
    requires n < 64
    ensures OrWord(x, Ones(n)) == x / Pow2(n) * Pow2(n) + Pow2(n) - 1
  {
    OrSetsLowBits(x, n);
  }

  lemma LongLimit(n: IPNet)
    requires 64 <= n.shift < 128
    ensures
      var p := Pow2(n.shift);
      Value(Limit(n)) == Value(n.ip) / p * p + p - 1
  {
    LongLimitWords(n);
    LongLimitValue(n.ip, n.shift, Limit(n));
  }

  lemma LongLimitValue(i: IP, shift: nat, limit: IP)
    requires 64 <= shift && limit.low == WORD - 1
    requires limit.high == i.high / Pow2(shift - 64) * Pow2(shift - 64) + Pow2(shift - 64) - 1
    ensures Value(limit) == Value(i) / Pow2(shift) * Pow2(shift) + Pow2(shift) - 1
  {
    LongPow(shift - 64);
    LongLimitNumbers(i.high, i.low, Pow2(shift - 64), Pow2(shift));
  }

  lemma LongLimitNumbers(h: nat, l: Word, p: nat, w: nat)
    requires 0 < p && w == p * WORD
    ensures (h * WORD + l) / w * w + w - 1 == (h / p * p + p - 1) * WORD + WORD - 1
  {
    DivByWords(h, l, p, w);
    LongBlock(h / p, p, w);
  }

  lemma LongBlock(a: nat, p: nat, w: nat)
    requires w == p * WORD
    ensures a * w + w - 1 == (a * p + p - 1) * WORD + WORD - 1
  {
  }

  lemma FullMask(x: Word)
    ensures OrWord(x, WORD - 1) == WORD - 1
  {
    Pow2Word();
    OrSetsLowBits(x, 64);
    assert x / WORD == 0;
  }

  /** Two numbers share the quotient exactly when one lies in the block of the other. */
  lemma SameBlock(x: nat, y: nat, p: nat)
    requires 0 < p
    ensures x / p == y / p <==> x / p * p <= y <= x / p * p + p - 1
  {
    var k := y / p - x / p;
    assert k * p == y / p * p - x / p * p;
    MulSign(k, p);
  }

  /** An address is contained exactly when it lies, as a 128-bit number, between the network address
      with its host bits cleared and the limit. */
  lemma ContainsIsRange(n: IPNet, o: IP)
    requires n.shift < 128
    ensures
      var p := Pow2(n.shift);
      Contains(n, o) <==> Value(n.ip) / p * p <= Value(o) <= Value(Limit(n))
  {
    var p := Pow2(n.shift);
    ShrDivides(n.ip, n.shift);
    ShrDivides(o, n.shift);
    ValueOrder(Shr(n.ip, n.shift), Shr(o, n.shift));
    LimitValue(n);
    SameBlock(Value(n.ip), Value(o), p);
  }

  /** The statement fails for every shift of 128 or more: the shift is then cut to 64..127, while the
      limit is the highest address of all.  Some address of the range is not contained. */
  lemma RangeHoldsIff(n: IPNet)
    requires n.shift < 256
    ensures (forall o: IP ::
               Contains(n, o) <==> Value(n.ip) / Pow2(n.shift) * Pow2(n.shift) <= Value(o) <= Value(Limit(n)))
            <==> n.shift < 128
  {
    if n.shift < 128 {
      forall o: IP
        ensures Contains(n, o) <==> Value(n.ip) / Pow2(n.shift) * Pow2(n.shift) <= Value(o) <= Value(Limit(n))
      {
        ContainsIsRange(n, o);
      }
    } else {
      var o := IP(n.ip.low, (n.ip.high + WORD / 2) % WORD);
      LongShiftMisses(n, o);
      WholeRange(n, o);
    }
  }

  lemma WholeRange(n: IPNet, o: IP)
    requires 128 <= n.shift
    ensures Value(n.ip) / Pow2(n.shift) * Pow2(n.shift) <= Value(o) <= Value(Limit(n))
  {
    DoubleWord(n.shift);
    DivUnique(Value(n.ip), 0, Value(n.ip), Pow2(n.shift));
    FullMask(n.ip.low);
    FullMask(n.ip.high);
  }

  lemma DoubleWord(n: nat)
    requires 128 <= n
    ensures WORD * WORD <= Pow2(n)
  {
    Pow2Word();
    LongPow(64);
    if 128 < n {
      Pow2Grows(128, n);
    }
  }

  lemma LongShiftMisses(n: IPNet, o: IP)
    requires 128 <= n.shift && o == IP(n.ip.low, (n.ip.high + WORD / 2) % WORD)
    ensures !Contains(n, o)
  {
    var k := n.shift % 64;
    assert o.high == n.ip.high + WORD / 2 || o.high == n.ip.high - WORD / 2;
    HighBitMoves(n.ip.high, o.high, k);
    ShrWordsDivides(n.ip.high, 0, k);
    ShrWordsDivides(o.high, 0, k);
    assert Shr(n.ip, n.shift) == ShrWords(n.ip.high, 0, k);
    assert Shr(o, n.shift) == ShrWords(o.high, 0, k);
  }

  lemma HighBitMoves(x: Word, y: Word, k: nat)
    requires k < 64 && (y == x + WORD / 2 || y == x - WORD / 2)
    ensures x / Pow2(k) != y / Pow2(k)
  {
    Pow2Word();
    Pow2Grows(k, 64);
    var start := x / Pow2(k) * Pow2(k);
    SameBlock(x, x, Pow2(k));
    SameBlock(x, y, Pow2(k));
    assert start <= x <= start + WORD / 2 - 1;
  }

  // ----- comparison ----------------------------------------------------------------------------

  /** The signed reading of a 64-bit difference. */
  function Wrap64(x: int): int {
    (x + WORD / 2) % WORD - WORD / 2
  }

  function Compare(s: IP, o: IP): int {
    if s.high != o.high then Wrap64(s.high - o.high) else Wrap64(s.low - o.low)
  }

  /** The words that decide a comparison. */
  function Deciding(s: IP, o: IP): (Word, Word) {
    if s.high != o.high then (s.high, o.high) else (s.low, o.low)
  }

  /** The deciding words are close enough for their difference to keep its sign. */
  predicate Near(s: IP, o: IP) {
    var (a, b) := Deciding(s, o);
    -(WORD / 2) <= a - b < WORD / 2
  }

  /** The sign of the wrapped difference agrees with numeric order exactly for near addresses. */
  lemma CompareAgreesIff(s: IP, o: IP)
    ensures ((Compare(s, o) < 0 <==> Value(s) < Value(o)) && (Compare(s, o) == 0 <==> s == o)) <==> Near(s, o)
  {
    ValueOrder(s, o);
  }
}
