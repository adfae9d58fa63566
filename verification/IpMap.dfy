/**
 A map from address ranges to information: ranges are added, sorted by their first address, and then
 looked up by binary search.  IPv4 and IPv6 ranges live in separate lists; an IPv4 address is a
 number below 2^32, while IPv6 addresses are compared by the wrapped difference of their words.
 */
module IpMap {
  import opened Bits
  import opened Common
  import opened IpRange

  datatype Range<A, I> = Range(beg: A, end: A, info: I)

  /** A range of numbers. */
  type Span<I> = Range<nat, I>

  predicate Covers<I>(r: Span<I>, x: nat) {
    r.beg <= x <= r.end
  }

  predicate Apart<I>(r: Span<I>, s: Span<I>) {
    r.end < s.beg || s.end < r.beg
  }

  /** Every range is nonempty and no two overlap. */
  predicate Disjoint<I>(a: seq<Span<I>>) {
    && (forall i :: 0 <= i < |a| ==> a[i].beg <= a[i].end)
    && (forall i, j :: 0 <= i < j < |a| ==> Apart(a[i], a[j]))
  }

  predicate Sorted<I>(a: seq<Span<I>>) {
    forall i, j :: 0 <= i < j < |a| ==> a[i].beg <= a[j].beg
  }

  /** What a scan from the front finds. */
  function LinearScan<I>(a: seq<Span<I>>, x: nat): Option<I> {
    if a == [] then None
    else if Covers(a[0], x) then Some(a[0].info)
    else LinearScan(a[1..], x)
  }

  lemma {:induction false} ScanFinds<I>(a: seq<Span<I>>, x: nat, h: nat)
    requires Disjoint(a) && h < |a| && Covers(a[h], x)
    ensures LinearScan(a, x) == Some(a[h].info)
  {
    if h > 0 {
      assert Apart(a[0], a[h]);
      RestIsDisjoint(a);
      ScanFinds(a[1..], x, h - 1);
    }
  }

  lemma {:induction false} ScanFindsNothing<I>(a: seq<Span<I>>, x: nat)
    requires forall i :: 0 <= i < |a| ==> !Covers(a[i], x)
    ensures LinearScan(a, x) == None
  {
    if a == [] {
    } else {
      ScanFindsNothing(a[1..], x);
    }
  }

  /** Disjoint ranges give the same answer in any order. */
  lemma ScanIgnoresOrder<I>(a: seq<Span<I>>, b: seq<Span<I>>, x: nat)
    requires Disjoint(a) && Disjoint(b) && multiset(a) == multiset(b)
    ensures LinearScan(a, x) == LinearScan(b, x)
  {
    if h :| 0 <= h < |a| && Covers(a[h], x) {
      assert a[h] in multiset(b);
      var k :| 0 <= k < |b| && b[k] == a[h];
      ScanFinds(a, x, h);
      ScanFinds(b, x, k);
    } else {
      forall k | 0 <= k < |b| ensures !Covers(b[k], x) {
        assert b[k] in multiset(a);
      }
      ScanFindsNothing(a, x);
      ScanFindsNothing(b, x);
    }
  }

  // ----- sorting -------------------------------------------------------------------------------

  /** A stable insertion, standing for one step of any sort by first address. */
  function Insert<I>(a: seq<Span<I>>, r: Span<I>): seq<Span<I>> {
    if a == [] || r.beg < a[0].beg then [r] + a else [a[0]] + Insert(a[1..], r)
  }

  lemma {:induction false} InsertPermutes<I>(a: seq<Span<I>>, r: Span<I>)
    ensures multiset(Insert(a, r)) == multiset(a) + multiset{r}
  {
    if a == [] || r.beg < a[0].beg {
    } else {
      assert a == [a[0]] + a[1..];
      InsertPermutes(a[1..], r);
    }
  }

  lemma {:induction false} InsertSorts<I>(a: seq<Span<I>>, r: Span<I>)
    requires Sorted(a)
    ensures Sorted(Insert(a, r))
  {
    if a == [] || r.beg < a[0].beg {
    } else {
      InsertSorts(a[1..], r);
      InsertPermutes(a[1..], r);
      var rest := Insert(a[1..], r);
      forall j | 0 <= j < |rest| ensures a[0].beg <= rest[j].beg {
        assert rest[j] in multiset(a[1..]) + multiset{r};
      }
    }
  }

  lemma {:induction false} InsertKeepsDisjoint<I>(a: seq<Span<I>>, r: Span<I>)
    requires Disjoint(a) && r.beg <= r.end && forall i :: 0 <= i < |a| ==> Apart(a[i], r)
    ensures Disjoint(Insert(a, r))
  {
    if a == [] || r.beg < a[0].beg {
      assert forall i :: 0 <= i < |a| ==> Apart(r, a[i]);
    } else {
      InsertKeepsDisjoint(a[1..], r);
      InsertPermutes(a[1..], r);
      var rest := Insert(a[1..], r);
      forall j | 0 <= j < |rest| ensures Apart(a[0], rest[j]) {
        assert rest[j] in multiset(a[1..]) + multiset{r};
      }
    }
  }

  /** Where a scan puts the new range. */
  lemma {:induction false} InsertAt<I>(a: seq<Span<I>>, r: Span<I>, j: nat)
    requires j <= |a| && forall k :: 0 <= k < j ==> a[k].beg <= r.beg
    requires j < |a| ==> r.beg < a[j].beg
    ensures Insert(a, r) == a[..j] + [r] + a[j..]
  {
    if j > 0 {
      InsertAt(a[1..], r, j - 1);
      assert a[..j] == [a[0]] + a[1..][..j - 1] && a[j..] == a[1..][j - 1..];
    }
  }

  function InsertAll<I>(a: seq<Span<I>>): seq<Span<I>> {
    if a == [] then [] else Insert(InsertAll(a[..|a| - 1]), a[|a| - 1])
  }

  lemma {:induction false} InsertAllSorts<I>(a: seq<Span<I>>)
    ensures Sorted(InsertAll(a)) && multiset(InsertAll(a)) == multiset(a)
  {
    if a == [] {
    } else {
      var rest, last := a[..|a| - 1], a[|a| - 1];
      assert a == rest + [last];
      InsertAllSorts(rest);
      InsertSorts(InsertAll(rest), last);
      InsertPermutes(InsertAll(rest), last);
    }
  }

  lemma {:induction false} InsertAllKeepsDisjoint<I>(a: seq<Span<I>>)
    requires Disjoint(a)
    ensures Disjoint(InsertAll(a))
  {
    if a == [] {
    } else {
      var rest, last := a[..|a| - 1], a[|a| - 1];
      InsertAllKeepsDisjoint(rest);
      InsertAllSorts(rest);
      forall i | 0 <= i < |InsertAll(rest)| ensures Apart(InsertAll(rest)[i], last) {
        assert InsertAll(rest)[i] in multiset(rest);
      }
      InsertKeepsDisjoint(InsertAll(rest), last);
    }
  }

  // ----- IPv6 ranges as numbers ----------------------------------------------------------------

  function AsSpan<I>(r: Range<IP, I>): Span<I> {
    Range(Value(r.beg), Value(r.end), r.info)
  }

  function AsSpans<I>(a: seq<Range<IP, I>>): seq<Span<I>> {
    seq(|a|, i requires 0 <= i < |a| => AsSpan(a[i]))
  }

  /** The wrapped comparison is exact between any two of the addresses involved. */
  predicate AllNear<I>(a: seq<Range<IP, I>>) {
    forall i, j :: 0 <= i < |a| && 0 <= j < |a| ==> Near(a[i].beg, a[j].beg)
  }

  lemma NearCompare(s: IP, o: IP)
    requires Near(s, o)
    ensures Compare(s, o) < 0 <==> Value(s) < Value(o)
    ensures Compare(s, o) == 0 <==> Value(s) == Value(o)
  {
  }

  lemma InsertedSpan<I>(a: seq<Range<IP, I>>, r: Range<IP, I>, j: nat)
    requires forall i :: 0 <= i < |a| ==> Near(r.beg, a[i].beg)
    requires j <= |a| && forall k :: 0 <= k < j ==> Compare(r.beg, a[k].beg) >= 0
    requires j < |a| ==> Compare(r.beg, a[j].beg) < 0
    ensures AsSpans(a[..j] + [r] + a[j..]) == Insert(AsSpans(a), AsSpan(r))
  {
    forall k | 0 <= k < |a| ensures Compare(r.beg, a[k].beg) < 0 <==> Value(r.beg) < Value(a[k].beg) {
      NearCompare(r.beg, a[k].beg);
    }
    InsertAt(AsSpans(a), AsSpan(r), j);
    assert AsSpans(a[..j] + [r] + a[j..]) == AsSpans(a)[..j] + [AsSpan(r)] + AsSpans(a)[j..];
  }

  // ----- when the wrapped comparison can be trusted --------------------------------------------

  /** Where the wrapped comparison sends the search at one range. */
  datatype Turn = Left | Hit | Right

  function TurnAt<I>(r: Range<IP, I>, ip: IP): Turn {
    if Compare(r.end, ip) < 0 then Right
    else if Compare(r.end, ip) != 0 && Compare(r.beg, ip) > 0 then Left
    else Hit
  }

  /** Where numeric order sends it. */
  function TrueTurn<I>(r: Range<IP, I>, ip: IP): Turn {
    if Value(r.end) < Value(ip) then Right else if Value(ip) < Value(r.beg) then Left else Hit
  }

  /** The turn agrees with numeric order. */
  predicate TurnsRight<I>(r: Range<IP, I>, ip: IP) {
    match TrueTurn(r, ip)
    case Left => Near(r.end, ip) && Near(r.beg, ip)
    case Hit => Near(r.end, ip) && (ip == r.end || Near(r.beg, ip))
    case Right => Near(r.end, ip)
  }

  /** The range is neither missed nor hit wrongly. */
  predicate JudgedRight<I>(r: Range<IP, I>, ip: IP) {
    match TrueTurn(r, ip)
    case Left => Near(r.end, ip) ==> Near(r.beg, ip)
    case Hit => Near(r.end, ip) && (ip == r.end || Near(r.beg, ip))
    case Right => Near(r.beg, ip) ==> Near(r.end, ip)
  }

  /** The sign of the wrapped comparison: right for near addresses, the opposite for all others. */
  lemma CompareIs(s: IP, o: IP)
    ensures Value(s) < Value(o) ==> if Near(s, o) then Compare(s, o) < 0 else Compare(s, o) > 0
    ensures Value(o) < Value(s) ==> if Near(s, o) then Compare(s, o) > 0 else Compare(s, o) < 0
    ensures Value(s) == Value(o) ==> s == o && Near(s, o)
    ensures s == o ==> Compare(s, o) == 0
  {
    ValueOrder(s, o);
    ValueOrder(o, s);
  }

  predicate ComparesAsOrder(s: IP, o: IP) {
    Compare(s, o) < 0 <==> Value(s) < Value(o)
  }

  /** What the sort compares by is numeric order exactly when all first addresses are near each other. */
  lemma SortComparesAsOrderIff<I>(a: seq<Range<IP, I>>)
    ensures (forall i, j :: 0 <= i < |a| && 0 <= j < |a| ==> ComparesAsOrder(a[i].beg, a[j].beg)) <==> AllNear(a)
  {
    hide Compare, Near, Value;
    forall i, j | 0 <= i < |a| && 0 <= j < |a|
      ensures ComparesAsOrder(a[i].beg, a[j].beg) <==> Near(a[i].beg, a[j].beg)
    {
      CompareIs(a[i].beg, a[j].beg);
    }
  }

  lemma TurnIff<I>(r: Range<IP, I>, ip: IP)
    requires Value(r.beg) <= Value(r.end)
    ensures TurnAt(r, ip) == TrueTurn(r, ip) <==> TurnsRight(r, ip)
    ensures (TurnAt(r, ip).Hit? <==> TrueTurn(r, ip).Hit?) <==> JudgedRight(r, ip)
  {
    hide Compare, Near, Value;
    CompareIs(r.end, ip);
    CompareIs(r.beg, ip);
  }

  /** The binary search over a[i..j]: the position it hits. */
  function Search<I>(a: seq<Range<IP, I>>, ip: IP, i: nat, j: nat): (at: Option<nat>)
    requires i <= j <= |a|
    ensures at.Some? ==> i <= at.value < j
    decreases j - i
  {
    if i == j then None
    else
      var h := (i + j) / 2;
      match TurnAt(a[h], ip)
      case Right => Search(a, ip, h + 1, j)
      case Left => Search(a, ip, i, h)
      case Hit => Some(h)
  }

  /** The comparisons can be trusted at every range the search meets: to go the right way if some range
      holds the address, and else not to take it for held. */
  predicate Trusted<I>(a: seq<Range<IP, I>>, ip: IP, i: nat, j: nat, held: bool)
    requires i <= j <= |a|
    decreases j - i
  {
    if i == j then true
    else
      var h := (i + j) / 2;
      && (if held then TurnsRight(a[h], ip) else JudgedRight(a[h], ip))
      && match TurnAt(a[h], ip)
         case Right => Trusted(a, ip, h + 1, j, held)
         case Left => Trusted(a, ip, i, h, held)
         case Hit => true
  }

  /** Disjoint ranges in numeric order. */
  predicate InOrder<I>(a: seq<Range<IP, I>>) {
    Disjoint(AsSpans(a)) && Sorted(AsSpans(a))
  }

  lemma TurnsByPosition<I>(a: seq<Range<IP, I>>, ip: IP, h: nat, t: nat)
    requires InOrder(a) && h < |a| && t < |a| && TrueTurn(a[t], ip).Hit?
    ensures TrueTurn(a[h], ip) == if h < t then Right else if h == t then Hit else Left
    ensures Value(a[h].beg) <= Value(a[h].end)
  {
    var spans := AsSpans(a);
    assert spans[h].beg <= spans[h].end && spans[t].beg <= spans[t].end;
    if h < t {
      assert Apart(spans[h], spans[t]) && spans[h].beg <= spans[t].beg;
    } else if t < h {
      assert Apart(spans[t], spans[h]) && spans[t].beg <= spans[h].beg;
    }
  }

  lemma {:induction false} SearchHeld<I>(a: seq<Range<IP, I>>, ip: IP, i: nat, j: nat, t: nat)
    requires InOrder(a) && i <= t < j <= |a| && TrueTurn(a[t], ip).Hit?
    ensures Search(a, ip, i, j) == Some(t) <==> Trusted(a, ip, i, j, true)
    decreases j - i
  {
    hide TurnAt, TrueTurn, TurnsRight, JudgedRight, InOrder;
    var h := (i + j) / 2;
    TurnsByPosition(a, ip, h, t);
    TurnIff(a[h], ip);
    if TurnsRight(a[h], ip) {
      if h < t {
        SearchHeld(a, ip, h + 1, j, t);
      } else if t < h {
        SearchHeld(a, ip, i, h, t);
      }
    }
  }

  lemma {:induction false} SearchFree<I>(a: seq<Range<IP, I>>, ip: IP, i: nat, j: nat)
    requires InOrder(a) && i <= j <= |a|
    requires forall t :: 0 <= t < |a| ==> !TrueTurn(a[t], ip).Hit?
    ensures Search(a, ip, i, j) == None <==> Trusted(a, ip, i, j, false)
    decreases j - i
  {
    hide TurnAt, TrueTurn, TurnsRight, JudgedRight;
    if i < j {
      var h := (i + j) / 2;
      assert AsSpans(a)[h].beg <= AsSpans(a)[h].end;
      TurnIff(a[h], ip);
      match TurnAt(a[h], ip)
      case Right => SearchFree(a, ip, h + 1, j);
      case Left => SearchFree(a, ip, i, h);
      case Hit =>
    }
  }

  predicate Held<I>(a: seq<Range<IP, I>>, ip: IP) {
    exists t :: 0 <= t < |a| && TrueTurn(a[t], ip).Hit?
  }

  predicate Trustworthy<I>(a: seq<Range<IP, I>>, ip: IP) {
    Trusted(a, ip, 0, |a|, Held(a, ip))
  }

  ghost predicate DistinctInfos<I>(a: seq<Range<IP, I>>) {
    forall i, j :: 0 <= i < j < |a| ==> a[i].info != a[j].info
  }

  function InfoAt<I>(a: seq<Range<IP, I>>, at: Option<nat>): Option<I>
    requires at.Some? ==> at.value < |a|
  {
    if at.Some? then Some(a[at.value].info) else None
  }

  /** On disjoint ranges in numeric order the search answers what a scan answers if the comparisons can be
      trusted along its way, and with information of its own for each range only if they can. */
  lemma LookupIsRightIff<I>(a: seq<Range<IP, I>>, ip: IP)
    requires InOrder(a)
    ensures Trustworthy(a, ip) ==> InfoAt(a, Search(a, ip, 0, |a|)) == LinearScan(AsSpans(a), Value(ip))
    ensures DistinctInfos(a) && InfoAt(a, Search(a, ip, 0, |a|)) == LinearScan(AsSpans(a), Value(ip))
            ==> Trustworthy(a, ip)
  {
    hide TurnAt, TurnsRight, JudgedRight, Search, Trusted, Value;
    var spans, x := AsSpans(a), Value(ip);
    if t: nat :| t < |a| && TrueTurn(a[t], ip).Hit? {
      SearchHeld(a, ip, 0, |a|, t);
      assert Covers(spans[t], x);
      ScanFinds(spans, x, t);
    } else {
      SearchFree(a, ip, 0, |a|);
      assert forall i :: 0 <= i < |spans| ==> !Covers(spans[i], x);
      ScanFindsNothing(spans, x);
    }
  }

  // ----- which ranges are always judged right --------------------------------------------------

  const HALF: nat := 0x8000_0000_0000_0000

  predicate Compact<I>(r: Range<IP, I>) {
    if r.beg.high == r.end.high then r.end.low - r.beg.low < HALF
    else r.end.high - r.beg.high < HALF && r.beg.low == r.end.low == HALF - 1
  }

  /** An address at which a range that is not compact is misjudged. */
  function Misjudged<I>(r: Range<IP, I>): IP {
    if r.beg.high == r.end.high || HALF <= r.end.high - r.beg.high then r.beg
    else if r.beg.low < HALF - 1 then IP(WORD - 1, r.beg.high)
    else if HALF - 1 < r.beg.low then IP(0, r.beg.high)
    else if HALF - 1 < r.end.low then IP(0, r.end.high)
    else IP(WORD - 1, r.end.high)
  }

  lemma CompactIsJudged<I>(r: Range<IP, I>, ip: IP)
    requires Value(r.beg) <= Value(r.end) && Compact(r)
    ensures JudgedRight(r, ip)
  {
    ValueOrder(r.beg, r.end);
    ValueOrder(ip, r.beg);
    ValueOrder(r.end, ip);
  }

  lemma OthersAreMisjudged<I>(r: Range<IP, I>)
    requires Value(r.beg) <= Value(r.end) && !Compact(r)
    ensures !JudgedRight(r, Misjudged(r))
  {
    ValueOrder(r.beg, r.end);
    ValueOrder(Misjudged(r), r.beg);
    ValueOrder(r.end, Misjudged(r));
  }

  /** A range on its own is judged right for every address exactly when it stays within one high word and
      less than 2^63 addresses, or spans fewer than 2^63 high words from middle to middle. */
  lemma AlwaysJudgedIff<I>(r: Range<IP, I>)
    requires Value(r.beg) <= Value(r.end)
    ensures (forall ip :: TurnAt(r, ip).Hit? <==> Covers(AsSpan(r), Value(ip))) <==> Compact(r)
  {
    hide JudgedRight, TurnAt, TurnsRight, Compact;
    forall ip ensures (TurnAt(r, ip).Hit? <==> Covers(AsSpan(r), Value(ip))) <==> JudgedRight(r, ip) {
      TurnIff(r, ip);
    }
    if Compact(r) {
      forall ip ensures JudgedRight(r, ip) {
        CompactIsJudged(r, ip);
      }
    } else {
      OthersAreMisjudged(r);
    }
  }

  /** The range of a network: 2^shift addresses that begin at a multiple of 2^shift. */
  predicate IsCidr<I>(r: Range<IP, I>, shift: nat) {
    Value(r.beg) % Pow2(shift) == 0 && Value(r.end) == Value(r.beg) + Pow2(shift) - 1
  }

  /** The range of a network is judged right for every address exactly when it is smaller than a /64. */
  lemma CidrIsJudgedIff<I>(r: Range<IP, I>, shift: nat)
    requires IsCidr(r, shift) && shift <= 128
    ensures (forall ip :: TurnAt(r, ip).Hit? <==> Covers(AsSpan(r), Value(ip))) <==> shift < 64
  {
    AlwaysJudgedIff(r);
    if shift < 64 {
      SmallCidr(r, shift);
    } else {
      LargeCidr(r, shift);
    }
  }

  lemma SmallCidr<I>(r: Range<IP, I>, shift: nat)
    requires IsCidr(r, shift) && shift < 64
    ensures r.beg.high == r.end.high && Compact(r)
  {
    var p := Pow2(shift);
    Pow2Word();
    assert Pow2(64) == 2 * Pow2(63);
    Pow2Sum(64 - shift, shift);
    if shift < 63 {
      Pow2Grows(shift, 63);
    }
    SameHigh(r.beg.high, r.beg.low, r.end.high, r.end.low, p, Pow2(64 - shift));
  }

  /** A block of p addresses, p a divisor of the word size, does not leave its high word. */
  lemma SameHigh(bh: nat, bl: Word, eh: nat, el: Word, p: nat, q: nat)
    requires 0 < p && 0 < q && q * p == WORD && (bh * WORD + bl) % p == 0
    requires eh * WORD + el == bh * WORD + bl + p - 1
    ensures eh == bh && el == bl + p - 1
  {
    LowIsMultiple(bh, bl, p, q);
    RoomAbove(bl, p, q);
    DivUnique(eh * WORD + el, eh, el, WORD);
    DivUnique(eh * WORD + el, bh, bl + p - 1, WORD);
  }

  lemma LowIsMultiple(h: nat, l: nat, p: nat, q: nat)
    requires 0 < p && q * p == WORD && (h * WORD + l) % p == 0
    ensures l % p == 0
  {
    var m := (h * WORD + l) / p;
    assert h * WORD + l == m * p;
    assert h * WORD == (h * q) * p by {
      assert h * (q * p) == (h * q) * p;
    }
    assert (m - h * q) * p == m * p - (h * q) * p;
    DivUnique(l, m - h * q, 0, p);
  }

  lemma LargeCidr<I>(r: Range<IP, I>, shift: nat)
    requires IsCidr(r, shift) && 64 <= shift <= 128
    ensures r.beg.low == 0 && r.end.low == WORD - 1 && !Compact(r)
  {
    var k := Pow2(shift - 64);
    Pow2Word();
    Pow2Sum(shift - 64, 64);
    WholeWords(r.beg.high, r.beg.low, r.end.high, r.end.low, k, k * WORD);
  }

  lemma WholeWords(bh: nat, bl: Word, eh: nat, el: Word, k: nat, p: nat)
    requires 0 < k && p == k * WORD && 0 < p && (bh * WORD + bl) % p == 0
    requires eh * WORD + el == bh * WORD + bl + p - 1
    ensures bl == 0 && el == WORD - 1
  {
    var x := bh * WORD + bl;
    var m := x / p;
    assert x == m * p && m * p == (m * k) * WORD;
    DivUnique(x, bh, bl, WORD);
    DivUnique(x, m * k, 0, WORD);
    assert eh * WORD + el == (bh + k - 1) * WORD + WORD - 1;
    DivUnique(eh * WORD + el, eh, el, WORD);
    DivUnique(eh * WORD + el, bh + k - 1, WORD - 1, WORD);
  }

  /** In a /64 two addresses are found, the middle one and the last. */
  lemma Slash64FindsTwo<I>(r: Range<IP, I>, ip: IP)
    requires r.beg == IP(0, ip.high) && r.end == IP(WORD - 1, ip.high)
    ensures Covers(AsSpan(r), Value(ip))
    ensures TurnAt(r, ip).Hit? <==> ip.low == HALF || ip.low == WORD - 1
  {
  }

  // ----- which lists are always answered right ---------------------------------------------------

  predicate OneWord<I>(r: Range<IP, I>) {
    r.beg.high == r.end.high
  }

  /** The search finds the range at its first and at its last address. */
  predicate EndsFound<I>(a: seq<Range<IP, I>>, t: nat)
    requires t < |a|
  {
    Search(a, a[t].beg, 0, |a|) == Some(t) == Search(a, a[t].end, 0, |a|)
  }

  ghost predicate AlwaysRight<I>(a: seq<Range<IP, I>>) {
    forall ip: IP :: InfoAt(a, Search(a, ip, 0, |a|)) == LinearScan(AsSpans(a), Value(ip))
  }

  /** Within one high word, an address is near whenever both ends of a range around it are. */
  lemma NearBetween(s: IP, lo: IP, ip: IP, hi: IP)
    requires lo.high == ip.high == hi.high && lo.low <= ip.low <= hi.low
    requires Near(s, lo) && Near(s, hi)
    ensures Near(s, ip)
  {
  }

  lemma Inside<I>(r: Range<IP, I>, ip: IP)
    requires OneWord(r) && Value(r.beg) <= Value(ip) <= Value(r.end)
    ensures ip.high == r.beg.high && r.beg.low <= ip.low <= r.end.low
  {
    ValueOrder(ip, r.beg);
    ValueOrder(r.end, ip);
  }

  lemma NearItself(s: IP)
    ensures Near(s, s)
  {
  }

  /** The addresses of one range turn alike at any range h of the list. */
  lemma TurnsAlike<I>(a: seq<Range<IP, I>>, ip: IP, h: nat, t: nat)
    requires InOrder(a) && h < |a| && t < |a| && OneWord(a[t]) && TrueTurn(a[t], ip).Hit?
    requires TurnsRight(a[h], a[t].beg) && TurnsRight(a[h], a[t].end)
    ensures TurnsRight(a[h], ip)
  {
    hide InOrder, Near;
    var r := a[t];
    TurnsByPosition(a, ip, t, t);
    TurnsByPosition(a, ip, h, t);
    TurnsByPosition(a, r.beg, h, t);
    TurnsByPosition(a, r.end, h, t);
    Inside(r, ip);
    NearItself(r.beg);
    NearItself(r.end);
    if Near(a[h].end, r.beg) && Near(a[h].end, r.end) {
      NearBetween(a[h].end, r.beg, ip, r.end);
    }
    if h <= t || (Near(a[h].beg, r.beg) && Near(a[h].beg, r.end)) {
      if h == t {
        NearFromBelow(r, ip);
      } else if t < h {
        NearBetween(a[h].beg, r.beg, ip, r.end);
      }
    }
  }

  /** If the first address is near the last, every address between them is near both. */
  lemma NearFromBelow<I>(r: Range<IP, I>, ip: IP)
    requires OneWord(r) && ip.high == r.beg.high && r.beg.low <= ip.low <= r.end.low
    ensures Near(r.end, r.beg) ==> Near(r.beg, ip) && Near(r.end, ip)
  {
  }

  lemma {:induction false} TrustedBetween<I>(a: seq<Range<IP, I>>, ip: IP, i: nat, j: nat, t: nat)
    requires InOrder(a) && i <= t < j <= |a| && OneWord(a[t]) && TrueTurn(a[t], ip).Hit?
    requires Trusted(a, a[t].beg, i, j, true) && Trusted(a, a[t].end, i, j, true)
    ensures Trusted(a, ip, i, j, true)
    decreases j - i
  {
    hide TurnAt, TrueTurn, TurnsRight, JudgedRight, InOrder, OneWord;
    var h := (i + j) / 2;
    EndsAreHit(a, ip, t);
    TurnsAlike(a, ip, h, t);
    TurnsByPosition(a, ip, h, t);
    TurnsByPosition(a, a[t].beg, h, t);
    TurnsByPosition(a, a[t].end, h, t);
    TurnIff(a[h], a[t].beg);
    TurnIff(a[h], a[t].end);
    TurnIff(a[h], ip);
    if h < t {
      TrustedBetween(a, ip, h + 1, j, t);
    } else if t < h {
      TrustedBetween(a, ip, i, h, t);
    }
  }

  lemma EndsAreHit<I>(a: seq<Range<IP, I>>, ip: IP, t: nat)
    requires InOrder(a) && t < |a|
    ensures Value(a[t].beg) <= Value(a[t].end)
    ensures TrueTurn(a[t], a[t].beg).Hit? && TrueTurn(a[t], a[t].end).Hit?
  {
    assert AsSpans(a)[t].beg <= AsSpans(a)[t].end;
  }

  lemma {:induction false} SearchHits<I>(a: seq<Range<IP, I>>, ip: IP, i: nat, j: nat)
    requires i <= j <= |a|
    ensures var at := Search(a, ip, i, j);
      at.Some? ==> TurnAt(a[at.value], ip).Hit?
    decreases j - i
  {
    hide TurnAt;
    if i < j {
      var h := (i + j) / 2;
      match TurnAt(a[h], ip)
      case Right => SearchHits(a, ip, h + 1, j);
      case Left => SearchHits(a, ip, i, h);
      case Hit =>
    }
  }

  /** A range found at its first address is compact, if it lies within one high word. */
  lemma FoundIsCompact<I>(a: seq<Range<IP, I>>, t: nat)
    requires InOrder(a) && t < |a| && OneWord(a[t]) && Search(a, a[t].beg, 0, |a|) == Some(t)
    ensures Compact(a[t])
  {
    hide TurnAt, InOrder;
    var r := a[t];
    EndsAreHit(a, r.beg, t);
    SearchHits(a, r.beg, 0, |a|);
    TurnIff(r, r.beg);
    ValueOrder(r.end, r.beg);
  }

  /** The answer for a held address is right exactly when its range is found. */
  lemma HeldIsRightIff<I>(a: seq<Range<IP, I>>, ip: IP, t: nat)
    requires InOrder(a) && DistinctInfos(a) && t < |a| && TrueTurn(a[t], ip).Hit?
    ensures InfoAt(a, Search(a, ip, 0, |a|)) == LinearScan(AsSpans(a), Value(ip)) <==> Search(a, ip, 0, |a|) == Some(t)
  {
    hide TurnAt, TurnsRight, JudgedRight, Search, Value;
    assert Covers(AsSpans(a)[t], Value(ip));
    ScanFinds(AsSpans(a), Value(ip), t);
  }

  /** The answer for an address that no range holds is right exactly when nothing is found. */
  lemma FreeIsRightIff<I>(a: seq<Range<IP, I>>, ip: IP)
    requires InOrder(a) && !Held(a, ip)
    ensures InfoAt(a, Search(a, ip, 0, |a|)) == LinearScan(AsSpans(a), Value(ip)) <==> Search(a, ip, 0, |a|) == None
  {
    hide TurnAt, Search, Value;
    assert forall i :: 0 <= i < |a| ==> !Covers(AsSpans(a)[i], Value(ip));
    ScanFindsNothing(AsSpans(a), Value(ip));
  }

  /** For ranges that do not leave their high word: the answers are right for all 2^128 addresses exactly when the
      first and the last address of each range are found. */
  lemma AlwaysRightIff<I>(a: seq<Range<IP, I>>)
    requires InOrder(a) && DistinctInfos(a) && forall t :: 0 <= t < |a| ==> OneWord(a[t])
    ensures AlwaysRight(a) <==> forall t :: 0 <= t < |a| ==> EndsFound(a, t)
  {
    hide TurnAt, TurnsRight, JudgedRight, Search, Trusted, Value, InfoAt, InOrder, OneWord, Compact, TrueTurn;
    if AlwaysRight(a) {
      forall t | 0 <= t < |a| ensures EndsFound(a, t) {
        EndsAreHit(a, a[t].beg, t);
        HeldIsRightIff(a, a[t].beg, t);
        HeldIsRightIff(a, a[t].end, t);
      }
    }
    if forall t :: 0 <= t < |a| ==> EndsFound(a, t) {
      forall ip: IP ensures InfoAt(a, Search(a, ip, 0, |a|)) == LinearScan(AsSpans(a), Value(ip)) {
        if t: nat :| t < |a| && TrueTurn(a[t], ip).Hit? {
          HeldIsFound(a, ip, t);
          HeldIsRightIff(a, ip, t);
        } else {
          FreeIsNotFound(a, ip);
          FreeIsRightIff(a, ip);
        }
      }
    }
  }

  lemma HeldIsFound<I>(a: seq<Range<IP, I>>, ip: IP, t: nat)
    requires InOrder(a) && t < |a| && OneWord(a[t]) && TrueTurn(a[t], ip).Hit? && EndsFound(a, t)
    ensures Search(a, ip, 0, |a|) == Some(t)
  {
    hide TurnAt, TurnsRight, JudgedRight, Search, Trusted, InOrder, OneWord, TrueTurn;
    EndsAreHit(a, ip, t);
    SearchHeld(a, a[t].beg, 0, |a|, t);
    SearchHeld(a, a[t].end, 0, |a|, t);
    TrustedBetween(a, ip, 0, |a|, t);
    SearchHeld(a, ip, 0, |a|, t);
  }

  lemma FreeIsNotFound<I>(a: seq<Range<IP, I>>, ip: IP)
    requires InOrder(a) && !Held(a, ip) && forall t :: 0 <= t < |a| ==> OneWord(a[t]) && EndsFound(a, t)
    ensures Search(a, ip, 0, |a|) == None
  {
    hide TurnAt, TurnsRight, JudgedRight, Search, InOrder, OneWord, Compact, TrueTurn;
    SearchHits(a, ip, 0, |a|);
    var at := Search(a, ip, 0, |a|);
    if at.Some? {
      FoundIsCompact(a, at.value);
      EndsAreHit(a, ip, at.value);
      CompactIsJudged(a[at.value], ip);
      TurnIff(a[at.value], ip);
    }
  }

  /** A network of 64 or more host bits holds an address that is not found in it. */
  lemma LargeCidrMisses<I>(r: Range<IP, I>, shift: nat) returns (ip: IP)
    requires IsCidr(r, shift) && 64 <= shift <= 128
    ensures Covers(AsSpan(r), Value(ip)) && !JudgedRight(r, ip)
  {
    LargeCidr(r, shift);
    ip := if OneWord(r) || HALF <= r.end.high - r.beg.high then r.beg else IP(WORD - 1, r.beg.high);
    Pow2Word();
    NotEmpty(r, shift);
    ValueOrder(r.beg, r.end);
    ValueOrder(ip, r.beg);
    ValueOrder(r.end, ip);
  }

  lemma NotEmpty<I>(r: Range<IP, I>, shift: nat)
    requires IsCidr(r, shift)
    ensures Value(r.beg) <= Value(r.end)
  {
  }

  /** A list of networks is answered right for all addresses exactly when each is smaller than a /64 and is found at
      its first and its last address. */
  lemma NetworksAreRightIff<I>(a: seq<Range<IP, I>>, shifts: seq<nat>)
    requires InOrder(a) && DistinctInfos(a) && |shifts| == |a|
    requires forall t :: 0 <= t < |a| ==> IsCidr(a[t], shifts[t]) && shifts[t] <= 128
    ensures AlwaysRight(a) <==> forall t :: 0 <= t < |a| ==> shifts[t] < 64 && EndsFound(a, t)
  {
    hide TurnAt, JudgedRight, Search, InfoAt, InOrder, IsCidr, EndsFound;
    if t: nat :| t < |a| && 64 <= shifts[t] {
      var ip := LargeCidrMisses(a[t], shifts[t]);
      NotEmpty(a[t], shifts[t]);
      TurnIff(a[t], ip);
      SearchHits(a, ip, 0, |a|);
      HeldIsRightIff(a, ip, t);
    } else {
      forall t | 0 <= t < |a| ensures OneWord(a[t]) {
        SmallCidr(a[t], shifts[t]);
      }
      AlwaysRightIff(a);
    }
  }

  // ----- the object ----------------------------------------------------------------------------

  lemma NothingSorted<I>()
    ensures AsSpans<I>([]) == InsertAll(AsSpans([]))
  {
  }

  /** The next range is near those sorted so far, and sorting them with it inserts it. */
  lemma NextSorted<I>(v: seq<Range<IP, I>>, i: nat, b: seq<Range<IP, I>>)
    requires AllNear(v) && i < |v| && multiset(b) == multiset(v[..i])
    ensures forall k :: 0 <= k < |b| ==> Near(v[i].beg, b[k].beg)
    ensures InsertAll(AsSpans(v[..i + 1])) == Insert(InsertAll(AsSpans(v[..i])), AsSpan(v[i]))
  {
    hide Near;
    assert AsSpans(v[..i + 1])[..i] == AsSpans(v[..i]);
    forall k | 0 <= k < |b| ensures Near(v[i].beg, b[k].beg) {
      assert b[k] in multiset(v[..i]);
    }
  }

  class IPMap<I> {
    var v4: seq<Span<I>>
    var v6: seq<Range<IP, I>>

    constructor ()
      ensures v4 == [] && v6 == []
    {
      v4, v6 := [], [];
    }

    /** The kind of the first address decides the list; IPv4 keeps the low 32 bits of both. */
    method Add(info: I, min: IP, max: IP)
      modifies this
      ensures IsV4(min) ==> v4 == old(v4) + [Range(min.low % 0x1_0000_0000, max.low % 0x1_0000_0000, info)]
      ensures IsV4(min) ==> v6 == old(v6)
      ensures !IsV4(min) ==> v4 == old(v4) && v6 == old(v6) + [Range(min, max, info)]
    {
      if IsV4(min) {
        v4 := v4 + [Range(min.low % 0x1_0000_0000, max.low % 0x1_0000_0000, info)];
      } else {
        v6 := v6 + [Range(min, max, info)];
      }
    }

    /** Sorts both lists by first address, IPv6 by the sign of the wrapped comparison. */
    method Sort()
      modifies this
      ensures v4 == InsertAll(old(v4))
      ensures AllNear(old(v6)) ==> AsSpans(v6) == InsertAll(AsSpans(old(v6)))
      ensures multiset(v6) == multiset(old(v6))
    {
      var a := SortV4(v4);
      var b := SortV6(v6);
      v4, v6 := a, b;
    }

    static method SortV4(v: seq<Span<I>>) returns (a: seq<Span<I>>)
      ensures a == InsertAll(v)
    {
      a := [];
      for i := 0 to |v|
        invariant a == InsertAll(v[..i])
      {
        assert v[..i + 1][..i] == v[..i];
        var j := 0;
        while j < |a| && !(v[i].beg < a[j].beg)
          invariant j <= |a| && forall k :: 0 <= k < j ==> a[k].beg <= v[i].beg
        {
          j := j + 1;
        }
        InsertAt(a, v[i], j);
        a := a[..j] + [v[i]] + a[j..];
      }
      assert v[..|v|] == v;
    }

    static method SortV6(v: seq<Range<IP, I>>) returns (b: seq<Range<IP, I>>)
      ensures multiset(b) == multiset(v)
      ensures AllNear(v) ==> AsSpans(b) == InsertAll(AsSpans(v))
    {
      hide AsSpans, InsertAll, AllNear, Near, Insert;
      b := [];
      NothingSorted<I>();
      assert v[..0] == [];
      for i := 0 to |v|
        invariant multiset(b) == multiset(v[..i])
        invariant AllNear(v) ==> AsSpans(b) == InsertAll(AsSpans(v[..i]))
      {
        assert v[..i + 1] == v[..i] + [v[i]];
        if AllNear(v) {
          NextSorted(v, i, b);
        }
        b := InsertV6(b, v[i]);
      }
      assert v[..|v|] == v;
    }

    static method InsertV6(a: seq<Range<IP, I>>, r: Range<IP, I>) returns (b: seq<Range<IP, I>>)
      ensures multiset(b) == multiset(a) + multiset{r}
      ensures (forall i :: 0 <= i < |a| ==> Near(r.beg, a[i].beg)) ==> AsSpans(b) == Insert(AsSpans(a), AsSpan(r))
    {
      var j := 0;
      while j < |a| && !(Compare(r.beg, a[j].beg) < 0)
        invariant j <= |a| && forall k :: 0 <= k < j ==> Compare(r.beg, a[k].beg) >= 0
      {
        j := j + 1;
      }
      b := a[..j] + [r] + a[j..];
      assert a == a[..j] + a[j..];
      if forall i :: 0 <= i < |a| ==> Near(r.beg, a[i].beg) {
        InsertedSpan(a, r, j);
      }
    }

    /** On sorted disjoint ranges the search finds what a scan finds. */
    method FindV4(ip: nat) returns (v: Option<I>)
      ensures Disjoint(v4) && Sorted(v4) ==> v == LinearScan(v4, ip)
    {
      ghost var sound := Disjoint(v4) && Sorted(v4);
      var i, j := 0, |v4|;
      while i < j
        invariant 0 <= i <= j <= |v4|
        invariant sound ==> forall k :: 0 <= k < i ==> v4[k].end < ip
        invariant sound ==> forall k :: j <= k < |v4| ==> ip < v4[k].beg
      {
        var h := (i + j) / 2;
        var r := v4[h].end;
        if r < ip {
          i := h + 1;
          assert sound ==> forall k :: 0 <= k < h ==> Apart(v4[k], v4[h]);
        } else if r != 0 && v4[h].beg > ip {
          j := h;
        } else {
          if sound {
            ScanFinds(v4, ip, h);
          }
          return Some(v4[h].info);
        }
      }
      if sound {
        ScanFindsNothing(v4, ip);
      }
      v := None;
    }

    method FindV6(ip: IP) returns (v: Option<I>)
      ensures v == InfoAt(v6, Search(v6, ip, 0, |v6|))
      ensures InOrder(v6) && Trustworthy(v6, ip) ==> v == LinearScan(AsSpans(v6), Value(ip))
      ensures InOrder(v6) && DistinctInfos(v6) && !Trustworthy(v6, ip) ==> v != LinearScan(AsSpans(v6), Value(ip))
    {
      hide Compare, Trustworthy, InOrder, LinearScan;
      ghost var goal := Search(v6, ip, 0, |v6|);
      if InOrder(v6) {
        LookupIsRightIff(v6, ip);
      }
      var i, j := 0, |v6|;
      while i < j
        invariant 0 <= i <= j <= |v6|
        invariant Search(v6, ip, i, j) == goal
      {
        var h := (i + j) / 2;
        var r := Compare(v6[h].end, ip);
        if r < 0 {
          i := h + 1;
        } else if r != 0 && Compare(v6[h].beg, ip) > 0 {
          j := h;
        } else {
          return Some(v6[h].info);
        }
      }
      v := None;
    }

    method Find(ip: IP) returns (v: Option<I>)
      ensures IsV4(ip) && Disjoint(v4) && Sorted(v4) ==> v == LinearScan(v4, ip.low % 0x1_0000_0000)
      ensures !IsV4(ip) && InOrder(v6) && Trustworthy(v6, ip) ==> v == LinearScan(AsSpans(v6), Value(ip))
      ensures !IsV4(ip) && InOrder(v6) && DistinctInfos(v6) && !Trustworthy(v6, ip)
              ==> v != LinearScan(AsSpans(v6), Value(ip))
      ensures !IsV4(ip) ==> v == InfoAt(v6, Search(v6, ip, 0, |v6|))
    {
      if IsV4(ip) {
        v := FindV4(ip.low % 0x1_0000_0000);
      } else {
        v := FindV6(ip);
      }
    }
  }

  /** Sorting disjoint ranges makes them searchable without changing what any lookup answers: after
      it, binary search agrees with a scan of the ranges in the order they were added. */
  lemma SortedLookup<I>(added: seq<Span<I>>, x: nat)
    requires Disjoint(added)
    ensures Disjoint(InsertAll(added)) && Sorted(InsertAll(added))
    ensures LinearScan(InsertAll(added), x) == LinearScan(added, x)
  {
    InsertAllSorts(added);
    InsertAllKeepsDisjoint(added);
    ScanIgnoresOrder(added, InsertAll(added), x);
  }

  lemma ScanAlone<I>(a: seq<Span<I>>, x: nat)
    requires |a| == 1
    ensures LinearScan(a, x) == if Covers(a[0], x) then Some(a[0].info) else None
  {
    assert a[1..] == [];
  }

  /** A lookup in a map that holds one IPv6 range, and what a scan says. */
  method LookUpAlone(r: Range<IP, int>, ip: IP) returns (found: bool, covered: bool)
    requires !IsV4(r.beg) && !IsV4(ip)
    ensures found <==> TurnAt(r, ip).Hit?
    ensures covered <==> Covers(AsSpan(r), Value(ip))
  {
    var m := new IPMap<int>();
    m.Add(r.info, r.beg, r.end);
    assert m.v6 == [r];
    var v := m.Find(ip);
    ScanAlone(AsSpans(m.v6), Value(ip));
    return v.Some?, LinearScan(AsSpans(m.v6), Value(ip)).Some?;
  }

  /** Two addresses that are missed, in an ordinary /64 and half the number space from the end of their
      range, and one that is found although nothing holds it. */
  method WrongAnswers() returns (missed: bool, far: bool, wrongHit: bool)
    ensures missed && far && wrongHit
  {
    var prefix := 0x2001_0db8_0000_0000;
    var found, covered := LookUpAlone(Range(IP(0, prefix), IP(WORD - 1, prefix), 7), IP(1, prefix));
    missed := !found && covered;
    found, covered := LookUpAlone(Range(IP(0, 0x2000_0000_0000_0000), IP(0, 0xfe80_0000_0000_0000), 7), IP(1, prefix));
    far := !found && covered;
    found, covered := LookUpAlone(Range(IP(0, prefix), IP(5, prefix + 1), 7), IP(HALF + 16, prefix + 1));
    wrongHit := found && !covered;
  }

  /** Sorted arrangements of the same disjoint ranges are equal, so any sort gives what insertion gives. */
  lemma AnySortAgrees<I>(a: seq<Span<I>>, b: seq<Span<I>>)
    requires Disjoint(a) && Sorted(b) && multiset(a) == multiset(b)
    ensures b == InsertAll(a)
  {
    InsertAllSorts(a);
    InsertAllKeepsDisjoint(a);
    SortedIsUnique(InsertAll(a), b);
  }

  lemma {:induction false} SortedIsUnique<I>(a: seq<Span<I>>, b: seq<Span<I>>)
    requires Disjoint(a) && Sorted(a) && Sorted(b) && multiset(a) == multiset(b)
    ensures a == b
  {
    hide Disjoint, Sorted;
    assert |a| == |multiset(a)| == |b|;
    if a != [] {
      SameFirst(a, b);
      RestIsDisjoint(a);
      RestIsSorted(a);
      RestIsSorted(b);
      assert multiset(a) == multiset{a[0]} + multiset(a[1..]) by {
        assert a == [a[0]] + a[1..];
      }
      assert multiset(b) == multiset{b[0]} + multiset(b[1..]) by {
        assert b == [b[0]] + b[1..];
      }
      SameRest(multiset(a), multiset(a[1..]), multiset(b[1..]), a[0]);
      SortedIsUnique(a[1..], b[1..]);
    }
  }

  lemma SameRest<T>(m: multiset<T>, a: multiset<T>, b: multiset<T>, x: T)
    requires m == multiset{x} + a && m == multiset{x} + b
    ensures a == b
  {
    assert a == m - multiset{x} && b == m - multiset{x};
  }

  lemma RestIsDisjoint<I>(a: seq<Span<I>>)
    requires Disjoint(a) && a != []
    ensures Disjoint(a[1..])
  {
    forall i, j | 0 <= i < j < |a| - 1 ensures Apart(a[1..][i], a[1..][j]) {
      assert Apart(a[i + 1], a[j + 1]);
    }
  }

  lemma RestIsSorted<I>(a: seq<Span<I>>)
    requires Sorted(a) && a != []
    ensures Sorted(a[1..])
  {
  }

  lemma SameFirst<I>(a: seq<Span<I>>, b: seq<Span<I>>)
    requires Disjoint(a) && Sorted(a) && Sorted(b) && multiset(a) == multiset(b)
    requires a != [] && b != []
    ensures a[0] == b[0]
  {
    assert b[0] in multiset(a) && a[0] in multiset(b);
    var i :| 0 <= i < |a| && a[i] == b[0];
    if i > 0 {
      assert Apart(a[0], a[i]);
    }
  }
}
