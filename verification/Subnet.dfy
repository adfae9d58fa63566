/**
 The allocator of loopback addresses: a counter generates candidate addresses inside a subnet, and a
 set of taken addresses filters them.
 */
module Subnet {
  import opened Bits
  import opened Common

  /** An IPv4 address, most significant byte first. */
  datatype Address = Address(a: Byte, b: Byte, c: Byte, d: Byte)

  /** The number an address stands for. */
  function Number(x: Address): nat {
    ((x.a as int * 256 + x.b as int) * 256 + x.c as int) * 256 + x.d as int
  }

  /** The key under which an address is remembered: its bytes read least significant first. */
  function Key(x: Address): nat {
    x.a as int + 0x100 * (x.b as int) + 0x1_0000 * (x.c as int) + 0x100_0000 * (x.d as int)
  }

  function FromKey(k: nat): Address {
    Address(k % 256, k / 0x100 % 256, k / 0x1_0000 % 256, k / 0x100_0000 % 256)
  }

  lemma KeyRoundTrip(x: Address)
    ensures FromKey(Key(x)) == x
  {
    var k := Key(x);
    assert k / 0x100 == x.b as int + 0x100 * (x.c as int) + 0x1_0000 * (x.d as int);
    assert k / 0x1_0000 == x.c as int + 0x100 * (x.d as int);
    assert k / 0x100_0000 == x.d as int;
  }

  lemma KeyIsInjective(x: Address, y: Address)
    ensures Key(x) == Key(y) <==> x == y
  {
    KeyRoundTrip(x);
    KeyRoundTrip(y);
  }

  /** How many of the lowest `hostBits` bits fall into the byte that has `below` bytes under it. */
  function BitsIn(hostBits: nat, below: nat): (k: nat)
    ensures k <= 8
  {
    if hostBits <= 8 * below then 0 else if 8 <= hostBits - 8 * below then 8 else hostBits - 8 * below
  }

  /** A parsed CIDR: the mask leaves `hostBits` bits, which the address has cleared. */
  datatype Net = Net(ip: Address, mask: Address, hostBits: nat)

  predicate ByteOk(ip: Byte, mask: Byte, bits: nat) {
    mask == 256 - Pow2(bits) && ip % Pow2(bits) == 0
  }

  predicate NetOk(n: Net) {
    && n.hostBits <= 32
    && ByteOk(n.ip.a, n.mask.a, BitsIn(n.hostBits, 3))
    && ByteOk(n.ip.b, n.mask.b, BitsIn(n.hostBits, 2))
    && ByteOk(n.ip.c, n.mask.c, BitsIn(n.hostBits, 1))
    && ByteOk(n.ip.d, n.mask.d, BitsIn(n.hostBits, 0))
  }

  // ----- generation ----------------------------------------------------------------------------

  /** One byte of a candidate: the host bits of the counter, the rest of the network. */
  function MaskByte(next: Byte, ip: Byte, mask: Byte): nat {
    Or(And(next, 255 - mask), ip)
  }

  /** The host bits of the counter and the byte of the network do not overlap. */
  lemma MaskByteIs(next: Byte, ip: Byte, mask: Byte, bits: nat)
    requires bits <= 8 && ByteOk(ip, mask, bits)
    ensures MaskByte(next, ip, mask) == ip + And(next, 255 - mask) < 256
  {
    HostByteIs(next, mask, bits);
    OrByte(next % Pow2(bits), ip, bits);
    ByteRoom(ip, bits);
  }

  lemma HostByteIs(next: Byte, mask: Byte, bits: nat)
    requires bits <= 8 && mask == 256 - Pow2(bits)
    ensures And(next, 255 - mask) == next % Pow2(bits)
  {
    AndKeepsLowBits(next, bits);
  }

  lemma OrByte(y: nat, ip: Byte, bits: nat)
    requires y < Pow2(bits) && ip % Pow2(bits) == 0
    ensures Or(y, ip) == ip + y
  {
    ExactDivision(ip, Pow2(bits));
    OrMultiple(y, ip, ip / Pow2(bits), bits);
  }

  lemma ByteRoom(ip: Byte, bits: nat)
    requires bits <= 8 && ip % Pow2(bits) == 0
    ensures ip + Pow2(bits) <= 256
  {
    assert Pow2(8) == 256;
    Pow2Sum(8 - bits, bits);
    RoomAbove(ip, Pow2(bits), Pow2(8 - bits));
  }

  lemma ExactDivision(x: nat, p: nat)
    requires 0 < p && x % p == 0
    ensures x == x / p * p
  {
  }

  lemma OrMultiple(y: nat, x: nat, k: nat, n: nat)
    requires y < Pow2(n) && x == k * Pow2(n)
    ensures Or(y, x) == x + y
  {
    SumIsOr(y, k, n);
  }

  function ByteAt(next: nat, below: nat): Byte {
    match below
    case 0 => next % 256
    case 1 => next / 0x100 % 256
    case 2 => next / 0x1_0000 % 256
    case _ => next / 0x100_0000 % 256
  }

  /** The candidate for a value of the counter. */
  function Candidate(n: Net, next: nat): Address
    requires NetOk(n)
  {
    MaskByteIs(ByteAt(next, 3), n.ip.a, n.mask.a, BitsIn(n.hostBits, 3));
    MaskByteIs(ByteAt(next, 2), n.ip.b, n.mask.b, BitsIn(n.hostBits, 2));
    MaskByteIs(ByteAt(next, 1), n.ip.c, n.mask.c, BitsIn(n.hostBits, 1));
    MaskByteIs(ByteAt(next, 0), n.ip.d, n.mask.d, BitsIn(n.hostBits, 0));
    Address(MaskByte(ByteAt(next, 3), n.ip.a, n.mask.a), MaskByte(ByteAt(next, 2), n.ip.b, n.mask.b),
            MaskByte(ByteAt(next, 1), n.ip.c, n.mask.c), MaskByte(ByteAt(next, 0), n.ip.d, n.mask.d))
  }

  /** The lowest byte of the host part, and the rest of it. */
  lemma HostSplit(x: nat, h: nat)
    ensures x % Pow2(h) == x / 256 % Pow2(if h <= 8 then 0 else h - 8) * 256 + x % 256 % Pow2(BitsIn(h, 0))
  {
    assert Pow2(8) == 256;
    if h <= 8 {
      Pow2Sum(8 - h, h);
      ModSplit(x, Pow2(h), Pow2(8 - h));
      ModOfMod(x, Pow2(h), Pow2(8 - h));
      assert x / 256 % Pow2(0) == 0;
    } else {
      Pow2Sum(h - 8, 8);
      ModSplit(x, 256, Pow2(h - 8));
      assert x % 256 % 256 == x % 256;
    }
  }

  /** The host part of a counter value, byte by byte. */
  lemma HostParts(next: nat, h: nat)
    requires next < U32
    ensures next % Pow2(h) == ((ByteAt(next, 3) % Pow2(BitsIn(h, 3)) * 256 + ByteAt(next, 2) % Pow2(BitsIn(h, 2))) * 256
                               + ByteAt(next, 1) % Pow2(BitsIn(h, 1))) * 256 + ByteAt(next, 0) % Pow2(BitsIn(h, 0))
  {
    hide Pow2, ByteAt;
    var h1 := if h <= 8 then 0 else h - 8;
    var h2 := if h1 <= 8 then 0 else h1 - 8;
    var h3 := if h2 <= 8 then 0 else h2 - 8;
    ShiftedBytes(next);
    HostSplit(next, h);
    HostSplit(next / 0x100, h1);
    HostSplit(next / 0x1_0000, h2);
    HostSplit(next / 0x100_0000, h3);
    NoRest(Pow2(if h3 <= 8 then 0 else h3 - 8));
  }

  lemma NoRest(p: nat)
    requires 0 < p
    ensures 0 % p == 0
  {
  }

  lemma ShiftedBytes(next: nat)
    requires next < U32
    ensures next % 256 == ByteAt(next, 0) && next / 0x100 % 256 == ByteAt(next, 1)
    ensures next / 0x1_0000 % 256 == ByteAt(next, 2) && next / 0x100_0000 % 256 == ByteAt(next, 3)
    ensures next / 256 == next / 0x100 && next / 0x100 / 256 == next / 0x1_0000
    ensures next / 0x1_0000 / 256 == next / 0x100_0000 && next / 0x100_0000 / 256 == 0
  {
  }

  /** Every generated address is the network address plus the counter modulo the size of the net. */
  lemma CandidateIs(n: Net, next: nat)
    requires NetOk(n) && next < U32
    ensures Number(n.ip) + next % Pow2(n.hostBits) == Number(Candidate(n, next))
  {
    hide ByteAt, MaskByte, BitsIn, And, Pow2;
    MaskByteIs(ByteAt(next, 3), n.ip.a, n.mask.a, BitsIn(n.hostBits, 3));
    MaskByteIs(ByteAt(next, 2), n.ip.b, n.mask.b, BitsIn(n.hostBits, 2));
    MaskByteIs(ByteAt(next, 1), n.ip.c, n.mask.c, BitsIn(n.hostBits, 1));
    MaskByteIs(ByteAt(next, 0), n.ip.d, n.mask.d, BitsIn(n.hostBits, 0));
    HostByteIs(ByteAt(next, 3), n.mask.a, BitsIn(n.hostBits, 3));
    HostByteIs(ByteAt(next, 2), n.mask.b, BitsIn(n.hostBits, 2));
    HostByteIs(ByteAt(next, 1), n.mask.c, BitsIn(n.hostBits, 1));
    HostByteIs(ByteAt(next, 0), n.mask.d, BitsIn(n.hostBits, 0));
    HostParts(next, n.hostBits);
  }

  /** Candidates closer together than the size of the net differ. */
  lemma CandidatesDiffer(n: Net, step: nat, i: nat, j: nat)
    requires NetOk(n) && i < j && j - i < Pow2(n.hostBits)
    ensures Candidate(n, (step + i) % U32) != Candidate(n, (step + j) % U32)
  {
    hide Candidate;
    CandidateIs(n, (step + i) % U32);
    CandidateIs(n, (step + j) % U32);
    ResidueOfStep(step + i, n.hostBits);
    ResidueOfStep(step + j, n.hostBits);
    NearbyDiffer(step + i, j - i, Pow2(n.hostBits));
  }

  /** The counter's wrap-around does not disturb the residue. */
  lemma ResidueOfStep(x: nat, h: nat)
    requires h <= 32
    ensures x % U32 % Pow2(h) == x % Pow2(h)
  {
    PowerOf32();
    Pow2Sum(32 - h, h);
    ModOfMod(x, Pow2(h), Pow2(32 - h));
  }

  lemma PowerOf32()
    ensures Pow2(32) == U32
  {
    assert Pow2(8) == 256;
    Pow2Sum(8, 8);
    Pow2Sum(16, 16);
  }

  lemma NearbyDiffer(x: nat, d: nat, p: nat)
    requires 0 < d < p
    ensures x % p != (x + d) % p
  {
    var k := (x + d) / p - x / p;
    assert k * p == (x + d) / p * p - x / p * p;
    MulSign(k, p);
    if k >= 2 {
      MulSign(k - 1, p);
      assert (k - 1) * p == k * p - p;
    }
  }

  // ----- searching a list of keys --------------------------------------------------------------

  /** The caller stops at key i: nobody holds it, it did not occur earlier in this call, and, where
      that is checked, it can be listened on. */
  predicate Stops(keys: seq<nat>, taken: set<nat>, listens: seq<bool>, i: nat)
    requires i < |keys| == |listens|
  {
    keys[i] !in taken && keys[i] !in keys[..i] && listens[i]
  }

  function KeySet(keys: seq<nat>): (s: set<nat>)
    ensures forall x :: x in s <==> x in keys
  {
    set x | x in keys
  }

  lemma OneMoreKey(keys: seq<nat>, i: nat)
    requires i < |keys|
    ensures KeySet(keys[..i + 1]) == KeySet(keys[..i]) + {keys[i]}
  {
    assert keys[..i + 1] == keys[..i] + [keys[i]];
  }

  predicate Distinct(keys: seq<nat>) {
    forall i, j :: 0 <= i < j < |keys| ==> keys[i] != keys[j]
  }

  lemma {:induction false} DistinctCount(keys: seq<nat>)
    requires Distinct(keys)
    ensures |KeySet(keys)| == |keys|
  {
    if keys != [] {
      var n := |keys| - 1;
      DistinctCount(keys[..n]);
      assert KeySet(keys) == KeySet(keys[..n]) + {keys[n]};
    }
  }

  /** Pigeonhole: fewer taken keys than candidates leave a candidate free. */
  lemma SomeKeyIsFree(keys: seq<nat>, taken: set<nat>)
    requires Distinct(keys) && |taken| < |keys|
    ensures exists i :: 0 <= i < |keys| && keys[i] !in taken
  {
    if forall i :: 0 <= i < |keys| ==> keys[i] in taken {
      DistinctCount(keys);
      SubsetIsSmaller(KeySet(keys), taken);
    }
  }

  /** A free key is a stop at its first occurrence, unless the check there fails. */
  lemma {:induction false} FreeKeyStops(keys: seq<nat>, taken: set<nat>, listens: seq<bool>, i: nat)
    returns (k: nat)
    requires i < |keys| == |listens| && keys[i] !in taken
    requires forall j :: 0 <= j < |listens| ==> listens[j]
    ensures k < |keys| && Stops(keys, taken, listens, k)
  {
    if keys[i] in keys[..i] {
      var j: nat :| j < i && keys[..i][j] == keys[i];
      k := FreeKeyStops(keys, taken, listens, j);
    } else {
      k := i;
    }
  }

  /** The index at which a search stops, |keys| if nowhere, and the taken set it leaves. */
  datatype Outcome = Outcome(stop: nat, taken: set<nat>)

  function Search(keys: seq<nat>, taken: set<nat>, listens: seq<bool>, i: nat): (o: Outcome)
    requires i <= |keys| == |listens|
    ensures i <= o.stop <= |keys|
    decreases |keys| - i
  {
    if i == |keys| then Outcome(i, taken)
    else if keys[i] !in taken && listens[i] then Outcome(i, taken + {keys[i]})
    else Search(keys, taken + {keys[i]}, listens, i + 1)
  }

  /** A search stops at the first possible index and takes every key it looked at, no other. */
  lemma {:induction false} SearchFinds(keys: seq<nat>, was: set<nat>, now: set<nat>, listens: seq<bool>, i: nat)
    requires i <= |keys| == |listens| && now == was + KeySet(keys[..i])
    ensures var o := Search(keys, now, listens, i);
      && (forall j :: i <= j < o.stop ==> !Stops(keys, was, listens, j))
      && (o.stop < |keys| ==> Stops(keys, was, listens, o.stop))
      && o.taken == was + KeySet(if o.stop < |keys| then keys[..o.stop + 1] else keys)
    decreases |keys| - i
  {
    if i < |keys| {
      assert keys[..i + 1] == keys[..i] + [keys[i]];
      if keys[i] in now || !listens[i] {
        SearchFinds(keys, was, now + {keys[i]}, listens, i + 1);
      }
    } else {
      assert keys[..i] == keys;
    }
  }

  // ----- allocation ----------------------------------------------------------------------------

  const TRIES: nat := 64

  function CandidateKey(n: Net, next: nat): nat
    requires NetOk(n)
  {
    Key(Candidate(n, next))
  }

  /** The keys of the first k candidates of a call that finds the counter at `step`. */
  function Keys(n: Net, step: nat, k: nat): (keys: seq<nat>)
    requires NetOk(n)
    ensures |keys| == k
  {
    hide CandidateKey, NetOk;
    seq<nat>(k, i requires 0 <= i < k => CandidateKey(n, (step + 1 + i) % U32))
  }

  lemma KeyAt(n: Net, step: nat, k: nat, i: nat)
    requires NetOk(n) && i < k
    ensures Keys(n, step, k)[i] == CandidateKey(n, (step + 1 + i) % U32)
  {
    hide CandidateKey, NetOk;
  }

  lemma KeysDiffer(n: Net, step: nat, i: nat, j: nat)
    requires NetOk(n) && i < j && j - i < Pow2(n.hostBits)
    ensures CandidateKey(n, (step + 1 + i) % U32) != CandidateKey(n, (step + 1 + j) % U32)
  {
    hide Candidate;
    CandidatesDiffer(n, step + 1, i, j);
    KeyIsInjective(Candidate(n, (step + 1 + i) % U32), Candidate(n, (step + 1 + j) % U32));
  }

  lemma KeysAreDistinct(n: Net, step: nat, k: nat)
    requires NetOk(n) && k <= Pow2(n.hostBits)
    ensures Distinct(Keys(n, step, k))
  {
    var keys := Keys(n, step, k);
    forall i, j | 0 <= i < j < k ensures keys[i] != keys[j] {
      KeyAt(n, step, k, i);
      KeyAt(n, step, k, j);
      KeysDiffer(n, step, i, j);
    }
  }

  /** With at least 6 host bits and fewer than 64 taken addresses, one of 64 candidates is free. */
  lemma SomeCandidateIsFree(n: Net, step: nat, taken: set<nat>)
    requires NetOk(n) && 6 <= n.hostBits && |taken| < TRIES
    ensures exists i :: 0 <= i < TRIES && Keys(n, step, TRIES)[i] !in taken
  {
    assert Pow2(6) == 64;
    if 6 < n.hostBits {
      Pow2Grows(6, n.hostBits);
    }
    KeysAreDistinct(n, step, TRIES);
    SomeKeyIsFree(Keys(n, step, TRIES), taken);
  }

  /** A call that checks nothing, or whose checks all pass, succeeds exactly when some candidate is
      free; and that is certain while fewer than 64 addresses of a net with 6 host bits are taken. */
  lemma AllocationSucceedsIff(n: Net, step: nat, taken: set<nat>, listens: seq<bool>)
    requires NetOk(n) && |listens| == TRIES && forall j :: 0 <= j < TRIES ==> listens[j]
    ensures Search(Keys(n, step, TRIES), taken, listens, 0).stop < TRIES
            <==> exists i :: 0 <= i < TRIES && Keys(n, step, TRIES)[i] !in taken
    ensures 6 <= n.hostBits && |taken| < TRIES ==> Search(Keys(n, step, TRIES), taken, listens, 0).stop < TRIES
  {
    hide CandidateKey;
    var keys := Keys(n, step, TRIES);
    SearchFinds(keys, taken, taken, listens, 0);
    if i: nat :| i < TRIES && keys[i] !in taken {
      var k := FreeKeyStops(keys, taken, listens, i);
    }
    if 6 <= n.hostBits && |taken| < TRIES {
      SomeCandidateIsFree(n, step, taken);
    }
  }

  /** The counter after i draws. */
  function After(from: nat, i: nat): nat {
    (from + i) % U32
  }

  lemma NoStep(from: nat)
    requires from < U32
    ensures After(from, 0) == from && KeySet([]) == {}
  {
  }

  lemma NextStep(n: Net, from: nat, i: nat)
    requires NetOk(n) && i < TRIES
    ensures After(from, i + 1) == (After(from, i) + 1) % U32
    ensures CandidateKey(n, After(from, i + 1)) == Keys(n, from, TRIES)[i]
  {
    hide CandidateKey, NetOk;
    Increment(from + i);
    KeyAt(n, from, TRIES, i);
    assert from + (i + 1) == from + 1 + i;
  }

  lemma Increment(x: nat)
    ensures (x + 1) % U32 == (x % U32 + 1) % U32
  {
    var q, r := x / U32, x % U32;
    if r + 1 < U32 {
      DivUnique(x + 1, q, r + 1, U32);
    } else {
      DivUnique(x + 1, q + 1, 0, U32);
    }
  }

  class Allocator {
    const net: Net
    const paranoid: bool
    var step: nat
    var taken: set<nat>
    var bound: set<nat>

    ghost predicate Valid()
      reads this
    {
      NetOk(net) && step < U32
    }

    constructor (net: Net, paranoid: bool)
      requires NetOk(net)
      ensures Valid() && this.net == net && this.paranoid == paranoid
      ensures taken == {} && bound == {} && step == 1
    {
      this.net, this.paranoid, step, taken, bound := net, paranoid, 1, {}, {};
    }

    method Deallocate(ip: Address)
      requires Valid()
      modifies this`taken
      ensures Valid() && taken == old(taken) - {Key(ip)}
    {
      taken := taken - {Key(ip)};
    }

    method Generate() returns (ip: Address)
      requires Valid()
      modifies this`step
      ensures Valid() && step == (old(step) + 1) % U32
      ensures Key(ip) == CandidateKey(net, step)
    {
      step := (step + 1) % U32;
      ip := Candidate(net, step);
    }

    /** Generates a candidate and marks it taken and bound; tells whether it was free before. */
    method Draw() returns (ip: Address, free: bool)
      requires Valid()
      modifies this
      ensures Valid() && step == (old(step) + 1) % U32
      ensures Key(ip) == CandidateKey(net, step)
      ensures free == (CandidateKey(net, step) !in old(taken))
      ensures taken == old(taken) + {CandidateKey(net, step)}
      ensures bound == old(bound) + {CandidateKey(net, step)}
    {
      ip := Generate();
      var r := Key(ip);
      free := r !in taken;
      if free {
        taken := taken + {r};
      }
      if r !in bound {
        bound := bound + {r};
      }
    }

    /** Tries up to 64 candidates.  `listens[i]` says whether the i-th candidate can be listened on;
        only a paranoid allocator asks.  The first candidate at which the search stops is returned.
        Every candidate looked at is taken afterwards, also one that was free but failed the check. */
    method Allocate(listens: seq<bool>) returns (ip: Option<Address>, ghost k: nat)
      requires Valid() && |listens| == TRIES
      requires !paranoid ==> forall i :: 0 <= i < TRIES ==> listens[i]
      modifies this
      ensures Valid()
      ensures Search(Keys(net, old(step), TRIES), old(taken), listens, 0) == Outcome(k, taken)
      ensures bound == old(bound) + KeySet(Keys(net, old(step), TRIES)[..if k < TRIES then k + 1 else k])
      ensures ip.Some? <==> k < TRIES
      ensures ip.Some? ==> Key(ip.value) == Keys(net, old(step), TRIES)[k]
    {
      hide CandidateKey, NetOk, KeySet, After;
      NoStep(step);
      ghost var from, was := step, taken;
      ghost var keys := Keys(net, from, TRIES);
      var i: nat := 0;
      while i < TRIES
        invariant Valid() && i <= TRIES && step == After(from, i)
        invariant Search(keys, taken, listens, i) == Search(keys, was, listens, 0)
        invariant bound == old(bound) + KeySet(keys[..i])
      {
        NextStep(net, from, i);
        OneMoreKey(keys, i);
        var candidate, free := Draw();
        if free {
          if !paranoid || listens[i] {
            return Some(candidate), i;
          }
        }
        i := i + 1;
      }
      return None, TRIES;
    }
  }

  // ----- what a paranoid allocator leaks ---------------------------------------------------------

  lemma NumberIsInjective(x: Address, y: Address)
    requires Number(x) == Number(y)
    ensures x == y
  {
    LastDigit((x.a as int * 256 + x.b as int) * 256 + x.c as int, x.d,
              (y.a as int * 256 + y.b as int) * 256 + y.c as int, y.d);
    LastDigit(x.a as int * 256 + x.b as int, x.c, y.a as int * 256 + y.b as int, y.c);
    LastDigit(x.a as int, x.b, y.a as int, y.b);
  }

  lemma LastDigit(p: nat, x: Byte, q: nat, y: Byte)
    requires p * 256 + x == q * 256 + y
    ensures p == q && x == y
  {
  }

  /** In a net of at most 64 addresses the candidates of one call are all there is. */
  lemma SmallNetIsCovered(n: Net, step: nat, next: nat)
    requires NetOk(n) && n.hostBits <= 6 && next < U32
    ensures CandidateKey(n, next) in Keys(n, step, TRIES)
  {
    hide Candidate;
    var p := Pow2(n.hostBits);
    assert Pow2(6) == 64;
    if n.hostBits < 6 {
      Pow2Grows(n.hostBits, 6);
    }
    var i := (next - (step + 1)) % p;
    SameResidue(next, step + 1, i, p);
    ResidueOfStep(step + 1 + i, n.hostBits);
    var other := (step + 1 + i) % U32;
    CandidateIs(n, next);
    CandidateIs(n, other);
    NumberIsInjective(Candidate(n, next), Candidate(n, other));
    KeyAt(n, step, TRIES, i);
  }

  lemma SameResidue(x: nat, y: nat, i: int, p: nat)
    requires 0 < p && i == (x - y) % p
    ensures 0 <= i < p && x % p == (y + i) % p
  {
    var d := (x - y) / p;
    assert x == y + i + d * p;
    var q, r := (y + i) / p, (y + i) % p;
    assert x == (q + d) * p + r;
    DivUnique(x, q + d, r, p);
  }

  /** A failed call leaves every one of its candidates taken although nobody holds them.  In a net of
      at most 64 addresses no later call can succeed, whatever can be listened on by then. */
  lemma FailedCallExhaustsSmallNet(n: Net, step: nat, taken: set<nat>, listens: seq<bool>,
                                   later: nat, since: set<nat>, listensLater: seq<bool>)
    requires NetOk(n) && n.hostBits <= 6 && |listens| == |listensLater| == TRIES
    ensures var first := Search(Keys(n, step, TRIES), taken, listens, 0);
      first.stop == TRIES && first.taken <= since
      ==> Search(Keys(n, later, TRIES), since, listensLater, 0).stop == TRIES
  {
    hide CandidateKey;
    var keys, next := Keys(n, step, TRIES), Keys(n, later, TRIES);
    var first := Search(keys, taken, listens, 0);
    if first.stop == TRIES && first.taken <= since {
      forall k | 0 <= k < TRIES ensures next[k] in keys {
        KeyAt(n, later, TRIES, k);
        SmallNetIsCovered(n, step, (later + 1 + k) % U32);
      }
      FailedSearchTakesAll(keys, taken, listens);
      NoSearchStops(next, since, listensLater);
    }
  }

  lemma FailedSearchTakesAll(keys: seq<nat>, taken: set<nat>, listens: seq<bool>)
    requires |keys| == |listens| && Search(keys, taken, listens, 0).stop == |keys|
    ensures KeySet(keys) <= Search(keys, taken, listens, 0).taken
  {
    SearchFinds(keys, taken, taken, listens, 0);
  }

  lemma NoSearchStops(keys: seq<nat>, taken: set<nat>, listens: seq<bool>)
    requires |keys| == |listens| && forall k :: 0 <= k < |keys| ==> keys[k] in taken
    ensures Search(keys, taken, listens, 0).stop == |keys|
  {
    SearchFinds(keys, taken, taken, listens, 0);
  }

  /** Nothing can be listened on, or everything. */
  function AllListen(can: bool): seq<bool> {
    seq(TRIES, _ => can)
  }

  /** In a net of more than 64 addresses the call after a failed one draws other candidates: of a fresh allocator
      the first call fails when nothing can be listened on, and the second succeeds when everything can. */
  lemma LargeNetRecovers(n: Net, step: nat)
    requires NetOk(n) && 7 <= n.hostBits
    ensures var first := Search(Keys(n, step, TRIES), {}, AllListen(false), 0);
      && first.stop == TRIES
      && Search(Keys(n, step + TRIES, TRIES), first.taken, AllListen(true), 0).stop < TRIES
  {
    hide CandidateKey, NetOk, Keys;
    var keys, next := Keys(n, step, TRIES), Keys(n, step + TRIES, TRIES);
    SearchFinds(keys, {}, {}, AllListen(false), 0);
    var first := Search(keys, {}, AllListen(false), 0);
    assert Stops(next, first.taken, AllListen(true), 0) by {
      NextIsNew(n, step);
    }
    SearchFinds(next, first.taken, first.taken, AllListen(true), 0);
  }

  /** The 65th candidate is none of the first 64. */
  lemma NextIsNew(n: Net, step: nat)
    requires NetOk(n) && 7 <= n.hostBits
    ensures Keys(n, step + TRIES, TRIES)[0] !in Keys(n, step, TRIES)
  {
    hide CandidateKey, NetOk;
    assert Pow2(7) == 128;
    if 7 < n.hostBits {
      Pow2Grows(7, n.hostBits);
    }
    KeyAt(n, step + TRIES, TRIES, 0);
    forall i | 0 <= i < TRIES ensures Keys(n, step, TRIES)[i] != Keys(n, step + TRIES, TRIES)[0] {
      KeyAt(n, step, TRIES, i);
      KeysDiffer(n, step, i, TRIES);
    }
  }

  /** After every failed call all later ones fail, as long as nothing is deallocated. */
  ghost predicate FailuresLast(n: Net)
    requires NetOk(n)
  {
    forall step: nat, taken: set<nat>, listens: seq<bool>, later: nat, since: set<nat>, listensLater: seq<bool> ::
      |listens| == |listensLater| == TRIES
      && Search(Keys(n, step, TRIES), taken, listens, 0).stop == TRIES
      && Search(Keys(n, step, TRIES), taken, listens, 0).taken <= since
      ==> Search(Keys(n, later, TRIES), since, listensLater, 0).stop == TRIES
  }

  /** A failed call is final exactly in nets of at most 64 addresses. */
  lemma FailuresLastIff(n: Net)
    requires NetOk(n)
    ensures FailuresLast(n) <==> n.hostBits <= 6
  {
    hide Search, Keys, NetOk;
    if n.hostBits <= 6 {
      forall step: nat, taken: set<nat>, listens: seq<bool>, later: nat, since: set<nat>, listensLater: seq<bool>
        | |listens| == |listensLater| == TRIES
          && Search(Keys(n, step, TRIES), taken, listens, 0).stop == TRIES
          && Search(Keys(n, step, TRIES), taken, listens, 0).taken <= since
        ensures Search(Keys(n, later, TRIES), since, listensLater, 0).stop == TRIES
      {
        FailedCallExhaustsSmallNet(n, step, taken, listens, later, since, listensLater);
      }
    } else {
      LargeNetRecovers(n, 1);
    }
  }

  // ----- concurrent callers ------------------------------------------------------------------------

  /** `held` are the allocations in use or about to be returned, `leaked` the keys marked by calls
      that then could not listen on them. */
  datatype State = State(taken: set<nat>, held: map<nat, nat>, leaked: set<nat>)

  /** The critical sections of any number of callers.  `caller` names one allocation: it enters the
      section with the key it generated, may find that it cannot listen on it, and releases it. */
  datatype Event =
    | Enter(caller: nat, key: nat)
    | Refused(caller: nat)
    | Release(caller: nat)

  predicate CanStep(s: State, e: Event) {
    match e
    case Enter(c, _) => c !in s.held
    case Refused(c) => c in s.held
    case Release(c) => c in s.held
  }

  function Step(s: State, e: Event): State {
    if !CanStep(s, e) then s
    else match e
      case Enter(c, key) =>
        if key in s.taken then s else s.(taken := s.taken + {key}, held := s.held[c := key])
      case Refused(c) => s.(held := s.held - {c}, leaked := s.leaked + {s.held[c]})
      case Release(c) => s.(taken := s.taken - {s.held[c]}, held := s.held - {c})
  }

  function Run(s: State, es: seq<Event>): State
    decreases |es|
  {
    if es == [] then s else Run(Step(s, es[0]), es[1..])
  }

  ghost predicate Inv(s: State) {
    && (forall c, d :: c in s.held && d in s.held && c != d ==> s.held[c] != s.held[d])
    && (forall c :: c in s.held ==> s.held[c] !in s.leaked)
    && s.taken == s.held.Values + s.leaked
  }

  /** A caller that enters with a key gets it exactly when nobody holds it and it did not leak.  Releasing it makes
      it free again; finding that one cannot listen on it makes it leak. */
  lemma AllocatesIff(s: State, c: nat, key: nat)
    requires Inv(s) && c !in s.held
    ensures
      var s' := Step(s, Enter(c, key));
      && (c in s'.held <==> key !in s.held.Values && key !in s.leaked)
      && (c in s'.held ==>
            && s'.held[c] == key
            && Step(s', Release(c)) == s
            && var gone := Step(s', Refused(c));
               gone.taken == s.taken + {key} && gone.leaked == s.leaked + {key} && gone.held == s.held)
      && (c !in s'.held ==> s' == s)
  {
    if key !in s.taken {
      var held := s.held[c := key];
      assert held - {c} == s.held;
      assert s.taken + {key} - {key} == s.taken;
    }
  }

  lemma StepKeepsInv(s: State, e: Event)
    requires Inv(s)
    ensures Inv(Step(s, e))
  {
    if CanStep(s, e) {
      match e
      case Enter(c, key) => EnterKeepsInv(s, c, key);
      case Refused(c) => LeaveKeepsValues(s.held, c);
      case Release(c) => LeaveKeepsValues(s.held, c);
    }
  }

  lemma EnterKeepsInv(s: State, c: nat, key: nat)
    requires Inv(s) && c !in s.held
    ensures Inv(Step(s, Enter(c, key)))
  {
    if key in s.taken {
      return;
    }
    var held := s.held[c := key];
    forall x | x in held.Values ensures x in s.held.Values + {key} {
    }
    forall x | x in s.held.Values + {key} ensures x in held.Values {
      if x == key {
        assert held[c] == key;
      } else {
        var d :| d in s.held && s.held[d] == x;
        assert held[d] == x;
      }
    }
    assert held.Values == s.held.Values + {key};
  }

  lemma LeaveKeepsValues(held: map<nat, nat>, c: nat)
    requires c in held
    requires forall a, b :: a in held && b in held && a != b ==> held[a] != held[b]
    ensures (held - {c}).Values == held.Values - {held[c]}
  {
    forall x | x in held.Values - {held[c]} ensures x in (held - {c}).Values {
      var d :| d in held && held[d] == x;
      assert (held - {c})[d] == x;
    }
  }

  lemma {:induction false} RunKeepsInv(s: State, es: seq<Event>)
    requires Inv(s)
    ensures Inv(Run(s, es))
    decreases |es|
  {
    if es != [] {
      StepKeepsInv(s, es[0]);
      RunKeepsInv(Step(s, es[0]), es[1..]);
    }
  }

  /** However the callers interleave, no two allocations in use share an address, and an address is
      taken exactly when it is in use or was leaked by a call that could not listen on it. */
  lemma LiveAllocationsDiffer(es: seq<Event>, c: nat, d: nat)
    ensures var s := Run(State({}, map[], {}), es);
      && (c in s.held && d in s.held && c != d ==> s.held[c] != s.held[d])
      && s.taken == s.held.Values + s.leaked
      && s.held.Values !! s.leaked
  {
    RunKeepsInv(State({}, map[], {}), es);
  }
}
