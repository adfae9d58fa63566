/**
 Identifiers made of a millisecond, ten machine bits and a twelve-bit sequence number, and the directory
 names that builds get from them.  All words are non-negative integers below their width.
 */
module Snowflake {
  import opened Bits
  import opened Common

  const EPOCH: int := 1_704_067_200_000     // 2024-01-01T00:00:00Z
  const SEQ_MASK: nat := 0xFFF
  const MACHINE_MASK: nat := 0x3F_F000
  const SEQ_SIZE: nat := 0x1000             // 12 bits
  const LOW_SIZE: nat := 0x40_0000          // 22 bits
  const TIME_SIZE: nat := 0x400_0000_0000   // 42 bits

  type Id = x: int | 0 <= x < 0x1_0000_0000_0000_0000

  // ----- the fields -------------------------------------------------------------------------------

  function ShiftedTime(t: int): nat {
    (t - EPOCH) % WORD * LOW_SIZE % WORD
  }

  function Compose(machine: nat, s: nat, t: int): nat {
    Or(Or(And(machine, MACHINE_MASK), And(s, SEQ_MASK)), ShiftedTime(t))
  }

  /** The fields of an identifier side by side. */
  function Fields(time: nat, machine: nat, s: nat): nat {
    time * LOW_SIZE + machine * SEQ_SIZE + s
  }

  lemma Powers()
    ensures Pow2(10) == 0x400 && Pow2(12) == SEQ_SIZE && Pow2(22) == LOW_SIZE && Pow2(42) == TIME_SIZE
  {
    assert Pow2(2) == 4;
    assert Pow2(10) == 0x400;
    Pow2Sum(2, 10);
    Pow2Sum(12, 10);
    Pow2Sum(20, 22);
    Pow2Sum(10, 10);
  }

  lemma MaskedMachine(machine: nat)
    ensures And(machine, MACHINE_MASK) == machine / SEQ_SIZE % 0x400 * SEQ_SIZE
  {
    Powers();
    AndShift(machine, machine / SEQ_SIZE, MACHINE_MASK, 0x3FF, SEQ_SIZE, 12);
    AndKeepsLowBits(machine / SEQ_SIZE, 10);
  }

  lemma MaskedSequence(s: nat)
    ensures And(s, SEQ_MASK) == s % SEQ_SIZE
  {
    Powers();
    AndKeepsLowBits(s, 12);
  }

  lemma TimeBits(t: int)
    ensures ShiftedTime(t) == (t - EPOCH) % TIME_SIZE * LOW_SIZE
  {
    var x := (t - EPOCH) % WORD;
    var q, r := x / TIME_SIZE, x % TIME_SIZE;
    assert x * LOW_SIZE == q * WORD + r * LOW_SIZE;
    DivUnique(x * LOW_SIZE, q, r * LOW_SIZE, WORD);
    var p := (t - EPOCH) / WORD;
    assert t - EPOCH == p * WORD + x;
    assert p * WORD == p * LOW_SIZE * TIME_SIZE;
    DivUnique(t - EPOCH, p * LOW_SIZE + q, r, TIME_SIZE);
  }

  /** An identifier is its three fields side by side: the time of 42 bits, ten bits of the machine number
      from bit 12 up, and the lowest twelve bits of the sequence number. */
  lemma ComposeIs(machine: nat, s: nat, t: int)
    ensures Compose(machine, s, t)
            == Fields((t - EPOCH) % TIME_SIZE, machine / SEQ_SIZE % 0x400, s % SEQ_SIZE)
    ensures Compose(machine, s, t)
            == (t - 1_704_067_200_000) % 0x400_0000_0000 * 0x40_0000 + machine / 0x1000 % 0x400 * 0x1000 + s % 0x1000
    ensures Compose(machine, s, t) < WORD
  {
    Powers();
    MaskedMachine(machine);
    MaskedSequence(s);
    TimeBits(t);
    OrFields(machine / SEQ_SIZE % 0x400, s % SEQ_SIZE, (t - EPOCH) % TIME_SIZE);
  }

  lemma OrFields(machine: nat, s: nat, time: nat)
    requires machine < 0x400 && s < SEQ_SIZE && time < TIME_SIZE
    ensures Or(Or(machine * SEQ_SIZE, s), time * LOW_SIZE) == Fields(time, machine, s) < WORD
  {
    Powers();
    OrIsSum(machine, s, 12);
    SumIsOr(machine * SEQ_SIZE + s, time, 22);
  }

  function FromParts(machine: Word32, s: Word32, t: int): Id {
    ComposeIs(machine, s, t);
    Compose(machine, s, t)
  }

  function SequenceOf(id: Id): Word32 {
    MaskedSequence(id % U32);
    And(id % U32, SEQ_MASK)
  }

  function MachineOf(id: Id): Word32 {
    MaskedMachine(id % U32);
    And(id % U32, MACHINE_MASK) / SEQ_SIZE
  }

  function TimeOf(id: Id): int {
    id / LOW_SIZE + EPOCH
  }

  /** What the accessors read from an identifier. */
  lemma AccessorsAre(id: Id)
    ensures SequenceOf(id) == id % SEQ_SIZE
    ensures MachineOf(id) == id / SEQ_SIZE % 0x400
    ensures id == Fields(TimeOf(id) - EPOCH, MachineOf(id), SequenceOf(id))
  {
    MaskedMachine(id % U32);
    MaskedSequence(id % U32);
    LowWord(id);
    SplitId(id);
  }

  lemma LowWord(x: nat)
    ensures x % U32 % SEQ_SIZE == x % SEQ_SIZE
    ensures x % U32 / SEQ_SIZE % 0x400 == x / SEQ_SIZE % 0x400
  {
  }

  lemma SplitId(x: nat)
    ensures x == x / LOW_SIZE * LOW_SIZE + x / SEQ_SIZE % 0x400 * SEQ_SIZE + x % SEQ_SIZE
  {
  }

  /** The accessors give back the sequence number's twelve bits and the machine number's ten, and the
      millisecond exactly when it lies in the 42-bit range that begins in 2024. */
  lemma FieldsAreRecovered(machine: Word32, s: Word32, t: int)
    ensures SequenceOf(FromParts(machine, s, t)) == s % SEQ_SIZE
    ensures MachineOf(FromParts(machine, s, t)) == machine / SEQ_SIZE % 0x400
    ensures TimeOf(FromParts(machine, s, t)) == t <==> 0 <= t - EPOCH < TIME_SIZE
  {
    var id := FromParts(machine, s, t);
    ComposeIs(machine, s, t);
    AccessorsAre(id);
    SplitFields(id, (t - EPOCH) % TIME_SIZE, machine / SEQ_SIZE % 0x400, s % SEQ_SIZE);
  }

  lemma SplitFields(id: nat, time: nat, machine: nat, s: nat)
    requires id == Fields(time, machine, s) && machine < 0x400 && s < SEQ_SIZE
    ensures id / LOW_SIZE == time && id / SEQ_SIZE % 0x400 == machine && id % SEQ_SIZE == s
  {
    var high := time * 0x400 + machine;
    DivUnique(id, time, machine * SEQ_SIZE + s, LOW_SIZE);
    DivUnique(id, high, s, SEQ_SIZE);
    DivUnique(high, time, machine, 0x400);
  }

  /** The machine bits are read without the shift they would need to be put back: an identifier survives
      being taken apart and composed again exactly when they are zero. */
  lemma RebuiltIff(id: Id)
    ensures FromParts(MachineOf(id), SequenceOf(id), TimeOf(id)) == id <==> MachineOf(id) == 0
  {
    AccessorsAre(id);
    var t := id / LOW_SIZE;
    Smaller(t, TIME_SIZE);
    Smaller(SequenceOf(id), SEQ_SIZE);
    Recompose(MachineOf(id), SequenceOf(id), t);
  }

  lemma Smaller(x: nat, d: nat)
    requires x < d
    ensures x % d == x && x / d == 0
  {
  }

  lemma Recompose(machine: nat, s: nat, time: nat)
    requires machine < 0x400 && s < SEQ_SIZE && time < TIME_SIZE
    ensures Compose(machine, s, time + EPOCH) == Fields(time, 0, s)
  {
    ComposeIs(machine, s, time + EPOCH);
    Smaller(machine, SEQ_SIZE);
    Smaller(s, SEQ_SIZE);
    Smaller(time, TIME_SIZE);
  }

  // ----- order --------------------------------------------------------------------------------------

  lemma FieldsGrow(t1: nat, m1: nat, s1: nat, t2: nat, m2: nat, s2: nat)
    requires t1 < t2 && m1 < 0x400 && s1 < SEQ_SIZE
    ensures Fields(t1, m1, s1) < Fields(t2, m2, s2)
  {
  }

  /** A later millisecond gives a larger identifier, whatever the generators. */
  lemma LaterIsLarger(m1: Word32, s1: Word32, t1: int, m2: Word32, s2: Word32, t2: int)
    requires 0 <= t1 - EPOCH < t2 - EPOCH < TIME_SIZE
    ensures FromParts(m1, s1, t1) < FromParts(m2, s2, t2)
  {
    hide Compose, Fields;
    ComposeIs(m1, s1, t1);
    ComposeIs(m2, s2, t2);
    Smaller(t1 - EPOCH, TIME_SIZE);
    Smaller(t2 - EPOCH, TIME_SIZE);
    FieldsGrow(t1 - EPOCH, m1 / SEQ_SIZE % 0x400, s1 % SEQ_SIZE, t2 - EPOCH, m2 / SEQ_SIZE % 0x400, s2 % SEQ_SIZE);
  }

  function Lowerbound(id: Id): nat {
    And(id, WORD - 1 - (LOW_SIZE - 1))
  }

  function Upperbound(id: Id): nat {
    Or(id, LOW_SIZE - 1)
  }

  /** The bounds enclose exactly the identifiers of the same millisecond. */
  lemma BoundsEncloseMillisecond(id: Id, x: Id)
    ensures Lowerbound(id) <= x <= Upperbound(id) <==> TimeOf(x) == TimeOf(id)
  {
    Powers();
    AndShift(id, id / LOW_SIZE, WORD - 1 - (LOW_SIZE - 1), TIME_SIZE - 1, LOW_SIZE, 22);
    AndKeepsLowBits(id / LOW_SIZE, 42);
    OrSetsLowBits(id, 22);
  }

  // ----- the generator --------------------------------------------------------------------------------

  class Generator {
    const machine: Word32
    var last: Word32

    constructor (machine: Word32, last: Word32)
      ensures this.machine == machine && this.last == last
    {
      this.machine, this.last := machine, last;
    }

    method NextAtUnixMilli(t: int) returns (id: Id)
      modifies this
      ensures last == (old(last) + 1) % U32
      ensures id == Draw(machine, old(last), 0, t)
      ensures SequenceOf(id) == last % 0x1000 && MachineOf(id) == machine / 0x1000 % 0x400
      ensures 0 <= t - EPOCH < TIME_SIZE ==> TimeOf(id) == t
    {
      last := (last + 1) % U32;
      FieldsAreRecovered(machine, last, t);
      id := FromParts(machine, last, t);
    }
  }

  /** What the i-th caller after the counter showed `last` gets, for the millisecond t.  Callers are
      numbered in the order of their atomic increments. */
  function Draw(machine: Word32, last: Word32, i: nat, t: int): Id {
    FromParts(machine, (last + 1 + i) % U32, t)
  }

  lemma SequenceDiffersIff(last: nat, i: nat, j: nat)
    requires i < j
    ensures (last + 1 + i) % U32 % SEQ_SIZE == (last + 1 + j) % U32 % SEQ_SIZE <==> (j - i) % SEQ_SIZE == 0
  {
    LowWord(last + 1 + i);
    LowWord(last + 1 + j);
    SameResidueIff(last + 1 + i, j - i);
  }

  lemma SameResidueIff(x: nat, d: nat)
    ensures x % SEQ_SIZE == (x + d) % SEQ_SIZE <==> d % SEQ_SIZE == 0
  {
  }

  /** Two draws collide exactly when their milliseconds agree in 42 bits and a multiple of 4096 draws lies
      between them, also across the wrap of the counter. */
  lemma DrawsCollideIff(machine: Word32, last: Word32, i: nat, ti: int, j: nat, tj: int)
    requires i < j
    ensures Draw(machine, last, i, ti) == Draw(machine, last, j, tj)
            <==> (ti - EPOCH) % TIME_SIZE == (tj - EPOCH) % TIME_SIZE && (j - i) % SEQ_SIZE == 0
  {
    var si, sj := (last + 1 + i) % U32, (last + 1 + j) % U32;
    ComposeIs(machine, si, ti);
    ComposeIs(machine, sj, tj);
    SplitFields(FromParts(machine, si, ti), (ti - EPOCH) % TIME_SIZE, machine / SEQ_SIZE % 0x400, si % SEQ_SIZE);
    SplitFields(FromParts(machine, sj, tj), (tj - EPOCH) % TIME_SIZE, machine / SEQ_SIZE % 0x400, sj % SEQ_SIZE);
    SequenceDiffersIff(last, i, j);
  }

  /** While the calls of one millisecond fall within 4096 successive draws, no two identifiers agree. */
  lemma DrawsAreDistinct(machine: Word32, last: Word32, times: seq<int>)
    requires forall i :: 0 <= i < |times| ==> 0 <= times[i] - EPOCH < TIME_SIZE
    requires forall i, j :: 0 <= i < j < |times| && times[i] == times[j] ==> j - i < SEQ_SIZE
    ensures forall i, j :: 0 <= i < j < |times| ==>
      Draw(machine, last, i, times[i]) != Draw(machine, last, j, times[j])
  {
    forall i, j | 0 <= i < j < |times|
      ensures Draw(machine, last, i, times[i]) != Draw(machine, last, j, times[j])
    {
      hide Draw;
      DrawsCollideIff(machine, last, i, times[i], j, times[j]);
      Smaller(times[i] - EPOCH, TIME_SIZE);
      Smaller(times[j] - EPOCH, TIME_SIZE);
      if times[i] == times[j] {
        Smaller(j - i, SEQ_SIZE);
      }
    }
  }

  // ----- build names ------------------------------------------------------------------------------------

  function Digit(d: nat): char
    requires d < 10
  {
    '0' + d as char
  }

  /** Decimal notation without leading zeros. */
  function Decimal(n: nat): (s: string)
    ensures s != []
  {
    if n < 10 then [Digit(n)] else Decimal(n / 10) + [Digit(n % 10)]
  }

  function Zeros(k: nat): string {
    if k == 0 then "" else "0" + Zeros(k - 1)
  }

  function BuildName(id: Id): string {
    var s := Decimal(id);
    if |s| < 20 then Zeros(20 - |s|) + s else s
  }

  /** The order of directory names. */
  predicate Before(a: string, b: string) {
    b != [] && (a == [] || a[0] < b[0] || (a[0] == b[0] && Before(a[1..], b[1..])))
  }

  function Fixed(n: nat, width: nat): (s: string)
    ensures |s| == width
  {
    if width == 0 then [] else Fixed(n / 10, width - 1) + [Digit(n % 10)]
  }

  function Ten(width: nat): (p: nat)
    ensures 0 < p
  {
    if width == 0 then 1 else 10 * Ten(width - 1)
  }

  lemma {:induction false} ZerosAreFixed(k: nat)
    ensures Zeros(k) == Fixed(0, k)
    ensures Zeros(k) + "0" == Zeros(k + 1)
  {
    if k > 0 {
      ZerosAreFixed(k - 1);
      assert Zeros(k) + "0" == "0" + (Zeros(k - 1) + "0");
    }
  }

  lemma {:induction false} PaddedIsFixed(n: nat, width: nat)
    requires n < Ten(width) && 0 < width
    ensures |Decimal(n)| <= width
    ensures Zeros(width - |Decimal(n)|) + Decimal(n) == Fixed(n, width)
  {
    if n < 10 {
      ZerosAreFixed(width - 1);
    } else {
      PaddedIsFixed(n / 10, width - 1);
      var z := Zeros(width - |Decimal(n)|);
      assert z + Decimal(n) == (z + Decimal(n / 10)) + [Digit(n % 10)];
    }
  }

  lemma {:induction false} BeforeSnoc(a: string, x: char, b: string, y: char)
    requires |a| == |b|
    ensures Before(a + [x], b + [y]) <==> Before(a, b) || (a == b && x < y)
  {
    if a == [] {
      assert a + [x] == [x] && b + [y] == [y];
    } else {
      BeforeSnoc(a[1..], x, b[1..], y);
      assert (a + [x])[1..] == a[1..] + [x] && (b + [y])[1..] == b[1..] + [y];
      assert a == [a[0]] + a[1..] && b == [b[0]] + b[1..];
    }
  }

  lemma {:induction false} FixedOrder(n: nat, m: nat, width: nat)
    requires n < Ten(width) && m < Ten(width)
    ensures Before(Fixed(n, width), Fixed(m, width)) <==> n < m
    ensures Fixed(n, width) == Fixed(m, width) <==> n == m
  {
    if width > 0 {
      FixedOrder(n / 10, m / 10, width - 1);
      BeforeSnoc(Fixed(n / 10, width - 1), Digit(n % 10), Fixed(m / 10, width - 1), Digit(m % 10));
      assert Fixed(n, width)[..width - 1] == Fixed(n / 10, width - 1);
      assert Fixed(m, width)[..width - 1] == Fixed(m / 10, width - 1);
      assert Fixed(n, width)[width - 1] == Digit(n % 10) && Fixed(m, width)[width - 1] == Digit(m % 10);
    }
  }

  lemma TwentyDigits()
    ensures WORD <= Ten(20)
  {
    assert Ten(10) == 10_000_000_000;
    assert Ten(20) == 100_000_000_000_000_000_000;
  }

  lemma NameIsFixed(id: Id)
    ensures BuildName(id) == Fixed(id, 20)
  {
    TwentyDigits();
    PaddedIsFixed(id, 20);
  }

  /** The number that a string of decimal digits stands for. */
  function NumberOf(s: string): int {
    if s == [] then 0 else NumberOf(s[..|s| - 1]) * 10 + (s[|s| - 1] as int - '0' as int)
  }

  lemma {:induction false} FixedReadsBack(n: nat, width: nat)
    requires n < Ten(width)
    ensures NumberOf(Fixed(n, width)) == n
  {
    if 0 < width {
      FixedReadsBack(n / 10, width - 1);
      assert Fixed(n, width)[..width - 1] == Fixed(n / 10, width - 1);
    }
  }

  /** A build name has twenty decimal digits, which are those of the identifier. */
  lemma NameReadsBack(id: Id)
    ensures |BuildName(id)| == 20 && NumberOf(BuildName(id)) == id
  {
    NameIsFixed(id);
    TwentyDigits();
    FixedReadsBack(id, 20);
  }

  /** Build names sort as strings exactly as their identifiers sort as numbers, and differ when those do. */
  lemma NamesSortLikeIds(x: Id, y: Id)
    ensures Before(BuildName(x), BuildName(y)) <==> x < y
    ensures BuildName(x) == BuildName(y) <==> x == y
  {
    NameIsFixed(x);
    NameIsFixed(y);
    TwentyDigits();
    FixedOrder(x, y, 20);
  }

  /** A build made in a later millisecond has a later name. */
  lemma LaterBuildSortsLater(m1: Word32, s1: Word32, t1: int, m2: Word32, s2: Word32, t2: int)
    requires 0 <= t1 - EPOCH < t2 - EPOCH < TIME_SIZE
    ensures Before(BuildName(FromParts(m1, s1, t1)), BuildName(FromParts(m2, s2, t2)))
  {
    LaterIsLarger(m1, s1, t1, m2, s2, t2);
    NamesSortLikeIds(FromParts(m1, s1, t1), FromParts(m2, s2, t2));
  }
}
