/**
 How the load balancer picks an upstream, on a snapshot of which upstreams are healthy and how many
 requests each of them serves.
 */
module LoadBalancer {
  import opened Bits
  import opened Common

  const NO_LOAD: int := 0x7fff_ffff

  type Int32 = x: int | -0x8000_0000 <= x < 0x8000_0000

  /** `id` is the identity of the upstream. */
  datatype Upstream = Upstream(id: nat, healthy: bool, load: Int32)

  datatype Strategy = LeastConn | Random | Hash | RoundRobin

  /** The healthy upstreams other than `bad`, in order. */
  function Good(us: seq<Upstream>, bad: Option<nat>): seq<Upstream> {
    if us == [] then []
    else
      var g, u := Good(us[..|us| - 1], bad), us[|us| - 1];
      if u.healthy && bad != Some(u.id) then g + [u] else g
  }

  lemma {:induction false} GoodAre(us: seq<Upstream>, bad: Option<nat>, u: Upstream)
    ensures u in Good(us, bad) <==> u in us && u.healthy && bad != Some(u.id)
  {
    if us != [] {
      GoodAre(us[..|us| - 1], bad, u);
      assert us == us[..|us| - 1] + [us[|us| - 1]];
    }
  }

  predicate DistinctIds(us: seq<Upstream>) {
    forall i, j :: 0 <= i < j < |us| ==> us[i].id != us[j].id
  }

  lemma NoneAreGood(us: seq<Upstream>, bad: Option<nat>)
    requires us == []
    ensures Good(us, bad) == []
  {
  }

  lemma GoodPrefix(us: seq<Upstream>, bad: Option<nat>, i: nat)
    requires i < |us|
    ensures Good(us[..i + 1], bad)
            == if us[i].healthy && bad != Some(us[i].id) then Good(us[..i], bad) + [us[i]] else Good(us[..i], bad)
  {
    assert us[..i + 1][..i] == us[..i];
  }

  lemma {:induction false} GoodOfPrefix(us: seq<Upstream>, bad: Option<nat>, i: nat)
    requires i <= |us|
    ensures Good(us[..i], bad) <= Good(us, bad)
    decreases |us| - i
  {
    if i == |us| {
      assert us[..i] == us;
    } else {
      GoodPrefix(us, bad, i);
      GoodOfPrefix(us, bad, i + 1);
    }
  }

  // ----- least connections ------------------------------------------------------------------------

  /** Nothing healthy serves less than i, and nothing healthy before i serves as little. */
  predicate FirstLeast(us: seq<Upstream>, i: nat) {
    && i < |us| && us[i].healthy
    && (forall j :: 0 <= j < |us| && us[j].healthy ==> us[i].load <= us[j].load)
    && (forall j :: 0 <= j < i && us[j].healthy ==> us[i].load < us[j].load)
  }

  /** Some healthy upstream is a candidate for the least load. */
  predicate HasLeast(us: seq<Upstream>) {
    us != [] && (us[0].healthy || exists j :: 0 <= j < |us| && us[j].healthy && us[j].load < NO_LOAD)
  }

  /** The choice by least load falls back on the first upstream. */
  predicate IsLeast(us: seq<Upstream>, k: nat) {
    k < |us| && if HasLeast(us) then FirstLeast(us, k) else k == 0
  }

  // ----- the balancer -----------------------------------------------------------------------------

  class Balancer {
    const strategy: Strategy
    var upstreams: seq<Upstream>
    var counter: nat

    constructor (strategy: Strategy)
      ensures this.strategy == strategy && upstreams == [] && counter == 0
    {
      this.strategy, upstreams, counter := strategy, [], 0;
    }

    /** The n-th healthy upstream that is not bad, the last one if there are fewer, `bad` if there is none. */
    method GetHealthyIdx(n: nat, bad: Option<nat>) returns (res: Option<nat>)
      ensures res == if Good(upstreams, bad) == [] then bad
                     else Some(Good(upstreams, bad)[Min(n, |Good(upstreams, bad)| - 1)].id)
    {
      res := None;
      var i, k := 0, n;
      hide Good;
      NoneAreGood(upstreams[..i], bad);
      while i < |upstreams|
        invariant i <= |upstreams|
        invariant |Good(upstreams[..i], bad)| + k == n
        invariant Good(upstreams[..i], bad) == [] ==> res == None
        invariant Good(upstreams[..i], bad) != []
                  ==> res == Some(Good(upstreams[..i], bad)[|Good(upstreams[..i], bad)| - 1].id)
      {
        var u := upstreams[i];
        GoodPrefix(upstreams, bad, i);
        if u.healthy && bad != Some(u.id) {
          res := Some(u.id);
          if k == 0 {
            GoodOfPrefix(upstreams, bad, i + 1);
            return;
          }
          k := k - 1;
        }
        i := i + 1;
      }
      assert upstreams[..i] == upstreams;
      if res == None {
        res := bad;
      }
    }

    method PickLeast() returns (k: nat)
      requires upstreams != []
      ensures IsLeast(upstreams, k)
    {
      k := 0;
      var best: int := upstreams[0].load;
      if !upstreams[0].healthy {
        best := NO_LOAD;
      }
      var i := 1;
      while i < |upstreams|
        invariant 1 <= i <= |upstreams| && k < i
        invariant best == if upstreams[k].healthy then upstreams[k].load else NO_LOAD
        invariant !upstreams[k].healthy ==> k == 0
        invariant k != 0 && !upstreams[0].healthy ==> best < NO_LOAD
        invariant forall j :: 0 <= j < i && upstreams[j].healthy ==> best <= upstreams[j].load
        invariant forall j :: 0 <= j < k && upstreams[j].healthy ==> best < upstreams[j].load
      {
        if upstreams[i].healthy && upstreams[i].load < best {
          k, best := i, upstreams[i].load;
        }
        i := i + 1;
      }
    }

    /** The number the choice is made by.  `ipHash` is what a remote session hashes to. */
    method Entropy(strat: Strategy, ipHash: Option<nat>, random: nat) returns (e: nat)
      requires counter < U32
      modifies this`counter
      ensures counter == if Counts(strat, ipHash) then (old(counter) + 1) % U32 else old(counter)
      ensures e == match strat
                   case LeastConn => 0
                   case Random => random
                   case Hash => if ipHash == None then counter else ipHash.value
                   case RoundRobin => counter
    {
      e := 0;
      match strat {
        case Hash =>
          if ipHash == None {
            counter := (counter + 1) % U32;
            e := counter;
          } else {
            e := ipHash.value;
          }
        case Random =>
          e := random;
        case RoundRobin =>
          counter := (counter + 1) % U32;
          e := counter;
        case LeastConn =>
      }
    }

    /** How many upstreams are healthy, and the first of them. */
    method CountHealthy() returns (n: nat, first: Option<nat>)
      ensures n == |Good(upstreams, None)|
      ensures first == if n == 0 then None else Some(Good(upstreams, None)[0].id)
    {
      n, first := 0, None;
      var i := 0;
      while i < |upstreams|
        invariant i <= |upstreams| && n == |Good(upstreams[..i], None)|
        invariant first == if n == 0 then None else Some(Good(upstreams[..i], None)[0].id)
      {
        GoodPrefix(upstreams, None, i);
        if upstreams[i].healthy {
          if n == 0 {
            first := Some(upstreams[i].id);
          }
          n := n + 1;
        }
        i := i + 1;
      }
      assert upstreams[..i] == upstreams;
    }

    /** A retry names the `bad` upstream that failed before; it never uses the least-load strategy. */
    method NextUpstream(bad: Option<nat>, ipHash: Option<nat>, random: nat) returns (result: Option<nat>)
      requires counter < U32
      modifies this`counter
      ensures counter == if bad == None && Counts(strategy, ipHash) then (old(counter) + 1) % U32 else old(counter)
      ensures |upstreams| == 0 ==> result == None
      ensures |upstreams| == 1 ==> result == Some(upstreams[0].id)
      ensures |upstreams| >= 2 && bad == None && strategy.LeastConn? ==>
        exists k: nat :: IsLeast(upstreams, k) && result == Some(upstreams[k].id)
      ensures |upstreams| >= 2 && bad == None && strategy.RoundRobin? ==> result == Pick(upstreams, None, counter)
      ensures |upstreams| >= 2 && bad == None && strategy.Hash? ==>
        result == Pick(upstreams, None, if ipHash == None then counter else ipHash.value)
      ensures |upstreams| >= 2 && (bad != None || strategy.Random?) ==> result == Pick(upstreams, bad, random)
    {
      var strat := if bad != None then Random else strategy;
      var entropy := Entropy(strat, ipHash, random);
      var count := |upstreams|;
      if count == 0 {
        return None;
      } else if count == 1 {
        return Some(upstreams[0].id);
      }
      if strat.LeastConn? {
        var k := PickLeast();
        return Some(upstreams[k].id);
      }
      var healthyN, first := CountHealthy();
      if healthyN <= 1 {
        return first;
      }
      result := GetHealthyIdx(entropy % healthyN, bad);
    }
  }

  predicate Counts(strategy: Strategy, ipHash: Option<nat>) {
    strategy.RoundRobin? || (strategy.Hash? && ipHash == None)
  }

  /** The choice by entropy among at least two upstreams. */
  function Pick(us: seq<Upstream>, bad: Option<nat>, entropy: nat): Option<nat> {
    var healthy, good := Good(us, None), Good(us, bad);
    if healthy == [] then None
    else if |healthy| == 1 then Some(healthy[0].id)
    else if good == [] then bad
    else Some(good[Min(entropy % |healthy|, |good| - 1)].id)
  }

  // ----- least load -------------------------------------------------------------------------------

  /** The least-load choice is unhealthy although something is healthy exactly when the first upstream is
      unhealthy and every healthy one serves the largest 32-bit number of requests. */
  lemma LeastLoadMissesIff(us: seq<Upstream>, k: nat)
    requires IsLeast(us, k) && Good(us, None) != []
    ensures !us[k].healthy
            <==> !us[0].healthy && forall j :: 0 <= j < |us| && us[j].healthy ==> us[j].load == NO_LOAD
  {
  }

  // ----- every choice ------------------------------------------------------------------------------

  /** Without a bad upstream a choice names a healthy one exactly when there is one, and else none. */
  lemma ChoiceIsHealthyIff(us: seq<Upstream>, entropy: nat)
    ensures Pick(us, None, entropy).Some? <==> exists u :: u in us && u.healthy
    ensures Pick(us, None, entropy).Some? ==>
      exists u :: u in us && u.healthy && Pick(us, None, entropy) == Some(u.id)
  {
    var good := Good(us, None);
    if u :| u in us && u.healthy {
      GoodAre(us, None, u);
    }
    if good != [] {
      var i := if |good| == 1 then 0 else Min(entropy % |good|, |good| - 1);
      GoodAre(us, None, good[i]);
      assert Pick(us, None, entropy) == Some(good[i].id);
    }
  }

  // ----- retries ----------------------------------------------------------------------------------

  /** A choice names a healthy upstream other than `b`. */
  ghost predicate Avoids(us: seq<Upstream>, b: nat, choice: Option<nat>) {
    exists u :: u in us && u.healthy && u.id != b && choice == Some(u.id)
  }

  /** A retry gets a healthy upstream other than the bad one exactly when there is one. */
  lemma RetryAvoidsBadIff(us: seq<Upstream>, b: nat, entropy: nat)
    ensures Avoids(us, b, Pick(us, Some(b), entropy)) <==> exists u :: u in us && u.healthy && u.id != b
  {
    var healthy, good := Good(us, None), Good(us, Some(b));
    if u :| u in us && u.healthy && u.id != b {
      GoodAre(us, None, u);
      GoodAre(us, Some(b), u);
      if |healthy| == 1 {
        assert healthy == [u];
      } else {
        var pick := good[Min(entropy % |healthy|, |good| - 1)];
        GoodAre(us, Some(b), pick);
        assert Avoids(us, b, Some(pick.id));
      }
    }
  }

  lemma {:induction false} DropOne(us: seq<Upstream>, b: nat)
    requires DistinctIds(us)
    ensures |Good(us, Some(b))|
            == |Good(us, None)| - if exists u :: u in us && u.healthy && u.id == b then 1 else 0
  {
    if us != [] {
      var rest, last := us[..|us| - 1], us[|us| - 1];
      DropOne(rest, b);
      assert us == rest + [last];
      if last.healthy && last.id == b {
        assert last in us;
        assert !exists u :: u in rest && u.healthy && u.id == b;
      } else {
        assert (exists u :: u in us && u.healthy && u.id == b) <==> exists u :: u in rest && u.healthy && u.id == b;
      }
    }
  }

  /** With no other healthy upstream a retry gets the bad one again if it still counts as healthy, and else none. */
  lemma RetryFallsBack(us: seq<Upstream>, b: nat, entropy: nat)
    requires DistinctIds(us) && forall u :: u in us && u.healthy ==> u.id == b
    ensures Pick(us, Some(b), entropy) == if exists u :: u in us && u.healthy then Some(b) else None
  {
    var healthy, good := Good(us, None), Good(us, Some(b));
    DropOne(us, b);
    if good != [] {
      GoodAre(us, Some(b), good[0]);
    }
    if healthy != [] {
      GoodAre(us, None, healthy[0]);
    }
    forall u | u in us && u.healthy ensures u in healthy {
      GoodAre(us, None, u);
    }
  }

  /** Of the m residues of the random number, the last two both choose the last upstream when the bad one
      still counts as healthy; every other remaining upstream is chosen by one residue. */
  lemma RetryIsBiased(us: seq<Upstream>, b: nat, j: nat, entropy: nat)
    requires DistinctIds(us) && j < |Good(us, Some(b))| && 2 <= |Good(us, None)|
    requires exists u :: u in us && u.healthy && u.id == b
    ensures Pick(us, Some(b), entropy) == Some(Good(us, Some(b))[j].id)
            <==> entropy % |Good(us, None)| == j
                 || (j == |Good(us, None)| - 2 && entropy % |Good(us, None)| == |Good(us, None)| - 1)
  {
    DropOne(us, b);
    GoodIdsDiffer(us, Some(b));
  }

  lemma {:induction false} GoodIdsDiffer(us: seq<Upstream>, bad: Option<nat>)
    requires DistinctIds(us)
    ensures DistinctIds(Good(us, bad))
  {
    if us != [] {
      var rest, last := us[..|us| - 1], us[|us| - 1];
      GoodIdsDiffer(rest, bad);
      var g := Good(rest, bad);
      forall i | 0 <= i < |g| ensures g[i].id != last.id {
        GoodAre(rest, bad, g[i]);
      }
    }
  }

  // ----- round robin --------------------------------------------------------------------------------

  /** How many of n successive picks that find the counter at c choose the upstream `id`. */
  function PickCount(us: seq<Upstream>, c: nat, n: nat, id: nat): nat {
    if n == 0 then 0
    else PickCount(us, c, n - 1, id) + if Pick(us, None, (c + n) % U32) == Some(id) then 1 else 0
  }

  lemma PickIsResidue(us: seq<Upstream>, j: nat, entropy: nat)
    requires DistinctIds(us) && 2 <= |Good(us, None)| && j < |Good(us, None)|
    ensures Pick(us, None, entropy) == Some(Good(us, None)[j].id) <==> entropy % |Good(us, None)| == j
  {
    GoodIdsDiffer(us, None);
  }

  lemma FloorStep(x: int, j: nat, m: nat)
    requires j < m
    ensures (x - j) / m == (x - 1 - j) / m + if x % m == j then 1 else 0
  {
    var q, r := x / m, x % m;
    assert x == q * m + r;
    assert (q - 1) * m == q * m - m;
    if r >= j {
      DivUnique(x - j, q, r - j, m);
    } else {
      DivUnique(x - j, q - 1, r - j + m, m);
    }
    if r >= j + 1 {
      DivUnique(x - 1 - j, q, r - j - 1, m);
    } else {
      DivUnique(x - 1 - j, q - 1, r - j - 1 + m, m);
    }
  }

  /** The counter does not wrap, or wraps at a multiple of m. */
  predicate Unwrapped(c: nat, n: nat, m: nat) {
    c + n < U32 || (0 < m && U32 % m == 0)
  }

  lemma WrapKeepsResidue(x: nat, m: nat)
    requires 0 < m && (x < U32 || U32 % m == 0)
    ensures x % U32 % m == x % m
  {
    if x >= U32 {
      var k := U32 / m;
      assert U32 == k * m;
      MulSign(k, m);
      ModOfMod(x, m, k);
    }
  }

  lemma {:induction false} CountIsQuotient(us: seq<Upstream>, c: nat, n: nat, j: nat)
    requires DistinctIds(us) && 2 <= |Good(us, None)| && j < |Good(us, None)|
    requires Unwrapped(c, n, |Good(us, None)|)
    ensures PickCount(us, c, n, Good(us, None)[j].id)
            == (c + n - j) / |Good(us, None)| - (c - j) / |Good(us, None)|
  {
    if n > 0 {
      CountIsQuotient(us, c, n - 1, j);
      WrapKeepsResidue(c + n, |Good(us, None)|);
      PickIsResidue(us, j, (c + n) % U32);
      FloorStep(c + n, j, |Good(us, None)|);
    }
  }

  lemma QuotientSpread(x: int, n: nat, m: nat)
    requires 0 < m
    ensures n / m <= (x + n) / m - x / m <= n / m + 1
    ensures n % m == 0 ==> (x + n) / m - x / m == n / m
  {
    var r := x % m + n % m;
    assert x + n == (x / m + n / m) * m + r;
    if r < m {
      DivUnique(x + n, x / m + n / m, r, m);
    } else {
      assert (x / m + n / m + 1) * m == (x / m + n / m) * m + m;
      DivUnique(x + n, x / m + n / m + 1, r - m, m);
    }
  }

  /** While health does not change, n successive round-robin picks among m healthy upstreams choose each of
      them n / m times, at most once more, and exactly n / m times when m divides n. */
  lemma RoundRobinIsFair(us: seq<Upstream>, c: nat, n: nat, j: nat)
    requires DistinctIds(us) && 2 <= |Good(us, None)| && j < |Good(us, None)|
    requires Unwrapped(c, n, |Good(us, None)|)
    ensures var m, count := |Good(us, None)|, PickCount(us, c, n, Good(us, None)[j].id);
      n / m <= count <= n / m + 1 && (n % m == 0 ==> count == n / m)
  {
    hide Good, PickCount;
    CountIsQuotient(us, c, n, j);
    QuotientSpread(c - j, n, |Good(us, None)|);
  }

  /** A round of m picks that begins just before the wrap never gets to the last upstream, unless m
      divides 2^32. */
  lemma {:induction false} LastIsSkipped(us: seq<Upstream>, n: nat)
    requires DistinctIds(us) && 2 <= |Good(us, None)| && U32 % |Good(us, None)| != 0
    requires n <= |Good(us, None)|
    ensures PickCount(us, U32 - 2, n, Good(us, None)[|Good(us, None)| - 1].id) == 0
  {
    hide Pick, Good;
    if n > 0 {
      LastIsSkipped(us, n - 1);
      NeverLast(n, |Good(us, None)|);
      PickIsResidue(us, |Good(us, None)| - 1, (U32 - 2 + n) % U32);
    }
  }

  lemma NeverLast(n: nat, m: nat)
    requires 1 <= n <= m && 2 <= m && U32 % m != 0
    ensures (U32 - 2 + n) % U32 % m != m - 1
  {
    if n == 1 {
      BeforeWrap(m);
    } else {
      assert (U32 - 2 + n) % U32 == (n - 2) % U32 <= n - 2;
      SmallResidue((n - 2) % U32, m);
    }
  }

  lemma BeforeWrap(m: nat)
    requires 2 <= m && U32 % m != 0
    ensures (U32 - 1) % m != m - 1
  {
    if (U32 - 1) % m == m - 1 {
      var q := (U32 - 1) / m;
      assert U32 - 1 == q * m + m - 1;
      assert (q + 1) * m == q * m + m;
      DivUnique(U32, q + 1, 0, m);
    }
  }

  lemma SmallResidue(x: nat, m: nat)
    requires x + 1 < m
    ensures x % m == x
  {
  }

  /** Every whole number of rounds is shared out evenly. */
  ghost predicate AlwaysFair(us: seq<Upstream>) {
    forall c: nat, k: nat, j: nat :: c < U32 && j < |Good(us, None)| ==>
      PickCount(us, c, k * |Good(us, None)|, Good(us, None)[j].id) == k
  }

  /** Whatever the counter shows, rounds are shared out evenly exactly when the number of healthy upstreams
      divides 2^32: otherwise the wrap of the counter skips one. */
  lemma AlwaysFairIff(us: seq<Upstream>)
    requires DistinctIds(us) && 2 <= |Good(us, None)|
    ensures AlwaysFair(us) <==> U32 % |Good(us, None)| == 0
  {
    var m := |Good(us, None)|;
    if U32 % m == 0 {
      forall c: nat, k: nat, j: nat | c < U32 && j < m
        ensures PickCount(us, c, k * m, Good(us, None)[j].id) == k
      {
        assert k * m >= 0;
        DivUnique(k * m, k, 0, m);
        RoundRobinIsFair(us, c, k * m, j);
      }
    } else {
      LastIsSkipped(us, m);
      assert PickCount(us, U32 - 2, 1 * m, Good(us, None)[m - 1].id) == 0;
    }
  }
}
