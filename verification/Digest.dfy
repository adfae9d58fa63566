/**
 The binary form of a signed-URL digest: the expiry as a zigzag varint, two header maps and a
 rewrite target as NUL-terminated strings.  Strings are sequences of bytes.
 */
module Digest {
  import opened Common

  datatype Error = Eof | Overflow

  datatype Result<+T> = Ok(value: T) | Err(error: Error)

  // ----- varints -------------------------------------------------------------------------------

  /** A signed 64-bit number. */
  predicate IsInt64(x: int) {
    -(WORD / 2) <= x < WORD / 2
  }

  function ZigZag(x: int): nat {
    if x < 0 then -2 * x - 1 else 2 * x
  }

  function UnZigZag(u: nat): int {
    if u % 2 == 1 then -(u / 2) - 1 else u / 2
  }

  function PutUvarint(u: nat): Bytes {
    if u < 128 then [u] else [u % 128 + 128] + PutUvarint(u / 128)
  }

  /** The weight of the i-th group of seven bits. */
  function Weight(i: nat): (w: nat)
    ensures 0 < w
  {
    if i == 0 then 1 else 128 * Weight(i - 1)
  }

  const MAX_GROUPS: nat := 10

  function AddGroup(x: nat, b: nat, i: nat): nat {
    x + b * Weight(i)
  }

  /** Reads group `i` and those after it: a group below 128 is the last one, the tenth group holds a
      single bit. */
  function ReadGroups(data: Bytes, i: nat, x: nat): Result<(nat, Bytes)>
    decreases |data|
  {
    if i == MAX_GROUPS then Err(Overflow)
    else if data == [] then Err(Eof)
    else if data[0] < 128 then
      if i == MAX_GROUPS - 1 && data[0] > 1 then Err(Overflow)
      else Ok((AddGroup(x, data[0], i), data[1..]))
    else ReadGroups(data[1..], i + 1, AddGroup(x, data[0] - 128, i))
  }

  lemma GroupRead(data: Bytes, i: nat, x: nat)
    requires i < MAX_GROUPS && data != []
    ensures 128 <= data[0] ==> ReadGroups(data, i, x) == ReadGroups(data[1..], i + 1, AddGroup(x, data[0] - 128, i))
    ensures data[0] < 128 ==>
      ReadGroups(data, i, x) ==
      if i == MAX_GROUPS - 1 && data[0] > 1 then Err(Overflow) else Ok((AddGroup(x, data[0], i), data[1..]))
  {
  }

  function WriteVarint(x: int): Bytes {
    PutUvarint(ZigZag(x))
  }

  function ReadVarint(data: Bytes): Result<(int, Bytes)> {
    match ReadGroups(data, 0, 0)
    case Err(e) => Err(e)
    case Ok((u, rest)) => Ok((UnZigZag(u), rest))
  }

  lemma WeightBounds(i: nat)
    ensures Weight(9) == WORD / 2
    ensures MAX_GROUPS <= i ==> WORD < Weight(i)
  {
  }

  lemma GroupStep(v: nat, w: nat)
    ensures v / 128 * (128 * w) <= v * w
    ensures (v % 128) * w + v / 128 * (128 * w) == v * w
  {
  }

  /** Ten groups are enough for every 64-bit number. */
  lemma FewGroups(v: nat, i: nat)
    requires v * Weight(i) < WORD && 1 <= v
    ensures i < MAX_GROUPS && (i == MAX_GROUPS - 1 ==> v == 1)
  {
    WeightBounds(i);
    assert Weight(i) <= v * Weight(i) by {
      assert 0 <= (v - 1) * Weight(i);
    }
  }

  lemma {:induction false} GroupsRoundTrip(v: nat, rest: Bytes, i: nat, x: nat)
    requires i < MAX_GROUPS && v * Weight(i) < WORD
    ensures ReadGroups(PutUvarint(v) + rest, i, x) == Ok((x + v * Weight(i), rest))
    decreases v
  {
    var data := PutUvarint(v) + rest;
    if v < 128 {
      if 1 <= v {
        FewGroups(v, i);
      }
      assert data[0] == v && data[1..] == rest;
    } else {
      FewGroups(v, i);
      GroupStep(v, Weight(i));
      FewGroups(v / 128, i + 1);
      GroupsRoundTrip(v / 128, rest, i + 1, x + (v % 128) * Weight(i));
      assert data[0] == v % 128 + 128 && data[1..] == PutUvarint(v / 128) + rest;
    }
  }

  lemma VarintRoundTrip(x: int, rest: Bytes)
    requires IsInt64(x)
    ensures ReadVarint(WriteVarint(x) + rest) == Ok((x, rest))
  {
    GroupsRoundTrip(ZigZag(x), rest, 0, 0);
  }

  /** Where the last group of a readable number stands. */
  predicate EndsAt(data: Bytes, i: nat, n: nat) {
    && n < |data| && i + n < MAX_GROUPS
    && (forall k :: 0 <= k < n ==> 128 <= data[k])
    && data[n] < 128
    && (i + n == MAX_GROUPS - 1 ==> data[n] <= 1)
  }

  lemma {:induction false} GroupsReadableIff(data: Bytes, i: nat, x: nat)
    requires i <= MAX_GROUPS
    ensures ReadGroups(data, i, x).Ok? <==> exists n: nat :: EndsAt(data, i, n)
    decreases |data|
  {
    if i == MAX_GROUPS || data == [] {
    } else if data[0] < 128 {
      if i < MAX_GROUPS - 1 || data[0] <= 1 {
        assert EndsAt(data, i, 0);
      }
      if n: nat :| EndsAt(data, i, n) {
        assert n == 0;
      }
    } else {
      var next := i + 1;
      GroupsReadableIff(data[1..], next, AddGroup(x, data[0] - 128, i));
      if n: nat :| EndsAt(data[1..], next, n) {
        assert EndsAt(data, i, n + 1);
      }
      if n: nat :| EndsAt(data, i, n) {
        assert EndsAt(data[1..], next, n - 1);
      }
    }
  }

  // ----- strings and maps ----------------------------------------------------------------------

  /** Up to the first NUL, which is dropped.  Without a NUL the rest of the data is consumed and the
      string is empty. */
  function CutString(data: Bytes): (Bytes, Bytes) {
    if data == [] then ([], [])
    else if data[0] == 0 then ([], data[1..])
    else if 0 !in data then ([], [])
    else
      var (s, rest) := CutString(data[1..]);
      ([data[0]] + s, rest)
  }

  predicate NulFree(s: Bytes) {
    0 !in s
  }

  lemma {:induction false} CutStringShrinks(data: Bytes)
    ensures NulFree(CutString(data).0)
    ensures |CutString(data).0| + |CutString(data).1| <= |data|
    ensures CutString(data).0 != [] ==> |CutString(data).1| < |data|
  {
    if data == [] || data[0] == 0 || 0 !in data {
    } else {
      CutStringShrinks(data[1..]);
    }
  }

  lemma {:induction false} StringRoundTrip(s: Bytes, rest: Bytes)
    requires NulFree(s)
    ensures CutString(s + [0] + rest) == (s, rest)
  {
    if s == [] {
      assert s + [0] + rest == [0] + rest;
    } else {
      StringRoundTrip(s[1..], rest);
      var data := s + [0] + rest;
      assert data[0] == s[0] && s[0] in s && data[|s|] == 0;
      assert data[1..] == s[1..] + [0] + rest && [s[0]] + s[1..] == s;
    }
  }

  lemma CutStringAt(data: Bytes, k: nat)
    requires k < |data| && data[k] == 0 && NulFree(data[..k])
    ensures CutString(data) == (data[..k], data[k + 1..])
  {
    assert data == data[..k] + [0] + data[k + 1..];
    StringRoundTrip(data[..k], data[k + 1..]);
  }

  function WriteString(s: Bytes): Bytes {
    s + [0]
  }

  type Headers = map<Bytes, Bytes>

  /** The entries in the order the map is walked; an entry without a name is skipped. */
  function WriteEntries(m: Headers, order: seq<Bytes>): Bytes {
    if order == [] then [] else WriteEntry(m, order[0]) + WriteEntries(m, order[1..])
  }

  function WriteEntry(m: Headers, k: Bytes): Bytes {
    if k == [] || k !in m then [] else WriteString(k) + WriteString(m[k])
  }

  function WriteMap(m: Headers, order: seq<Bytes>): Bytes {
    WriteEntries(m, order) + [0]
  }

  function ReadEntries(data: Bytes, m: Headers): (Headers, Bytes)
    decreases |data|
  {
    var (k, rest) := CutString(data);
    CutStringShrinks(data);
    if k == [] then (m, rest)
    else
      var (v, rest') := CutString(rest);
      CutStringShrinks(rest);
      ReadEntries(rest', m[k := v])
  }

  /** An order in which a map can be walked: every key once. */
  predicate IsOrder(m: Headers, order: seq<Bytes>) {
    && (forall k :: k in order ==> k in m)
    && (forall k :: k in m ==> k in order)
    && (forall i, j :: 0 <= i < j < |order| ==> order[i] != order[j])
  }

  predicate CleanMap(m: Headers) {
    forall k :: k in m ==> k != [] && NulFree(k) && NulFree(m[k])
  }

  /** Reading back the entries adds them to what was read before. */
  lemma {:induction false} EntriesRoundTrip(m: Headers, order: seq<Bytes>, rest: Bytes, before: Headers)
    requires CleanMap(m) && forall k :: k in order ==> k in m
    ensures
      var entries := map k | k in order :: m[k];
      ReadEntries(WriteMap(m, order) + rest, before) == (before + entries, rest)
    decreases |order|
  {
    hide CutString, WriteMap, ReadEntries;
    var entries := map k | k in order :: m[k];
    if order == [] {
      NoEntries(m, rest, before);
      assert before + entries == before;
    } else {
      var k, tail := order[0], order[1..];
      var v := m[k];
      var written := WriteMap(m, tail) + rest;
      MapSplits(m, order, rest);
      FirstEntry(k, v, written, before);
      EntriesRoundTrip(m, tail, rest, before[k := v]);
      EntriesUnfold(m, order, before);
    }
  }

  lemma {:induction false} EntriesAppend(m: Headers, order: seq<Bytes>, k: Bytes)
    ensures WriteEntries(m, order + [k]) == WriteEntries(m, order) + WriteEntry(m, k)
  {
    if order == [] {
    } else {
      assert (order + [k])[1..] == order[1..] + [k];
      EntriesAppend(m, order[1..], k);
    }
  }

  lemma NoEntries(m: Headers, rest: Bytes, before: Headers)
    ensures ReadEntries(WriteMap(m, []) + rest, before) == (before, rest)
  {
    assert WriteMap(m, []) + rest == [] + [0] + rest;
    StringRoundTrip([], rest);
  }

  lemma MapSplits(m: Headers, order: seq<Bytes>, rest: Bytes)
    requires order != [] && order[0] in m && order[0] != []
    ensures WriteMap(m, order) + rest == order[0] + [0] + (m[order[0]] + [0] + (WriteMap(m, order[1..]) + rest))
  {
    Regroup(order[0], m[order[0]], WriteEntries(m, order[1..]), rest);
  }

  lemma Regroup(k: Bytes, v: Bytes, es: Bytes, rest: Bytes)
    ensures (k + [0]) + (v + [0]) + es + [0] + rest == k + [0] + (v + [0] + (es + [0] + rest))
  {
  }

  lemma FirstEntry(k: Bytes, v: Bytes, rest: Bytes, before: Headers)
    requires k != [] && NulFree(k) && NulFree(v)
    ensures ReadEntries(k + [0] + (v + [0] + rest), before) == ReadEntries(rest, before[k := v])
  {
    hide CutString;
    StringRoundTrip(k, v + [0] + rest);
    StringRoundTrip(v, rest);
  }

  lemma EntriesUnfold(m: Headers, order: seq<Bytes>, before: Headers)
    requires order != [] && forall k :: k in order ==> k in m
    ensures before[order[0] := m[order[0]]] + (map k | k in order[1..] :: m[k]) == before + (map k | k in order :: m[k])
  {
  }

  lemma MapRoundTrip(m: Headers, order: seq<Bytes>, rest: Bytes)
    requires CleanMap(m) && IsOrder(m, order)
    ensures ReadEntries(WriteMap(m, order) + rest, map[]) == (m, rest)
  {
    EntriesRoundTrip(m, order, rest, map[]);
    assert map[] + (map k | k in order :: m[k]) == m;
  }

  lemma {:induction false} ReadEntriesClean(data: Bytes, m: Headers)
    requires CleanMap(m)
    ensures CleanMap(ReadEntries(data, m).0)
    decreases |data|
  {
    var (k, rest) := CutString(data);
    CutStringShrinks(data);
    if k != [] {
      CutStringShrinks(rest);
      ReadEntriesClean(CutString(rest).1, m[k := CutString(rest).0]);
    }
  }

  // ----- the digest ----------------------------------------------------------------------------

  const MILLI: int := 1_000_000

  /** `expires` is an instant in nanoseconds since 1970. */
  datatype Digest = Digest(expires: Option<int>, headers: Headers, secrets: Headers, rewrite: Bytes)

  function WriteTime(t: Option<int>): Bytes {
    WriteVarint(if t.Some? then t.value / MILLI else -1)
  }

  function ReadTime(data: Bytes): Result<(Option<int>, Bytes)> {
    match ReadVarint(data)
    case Err(e) => Err(e)
    case Ok((ms, rest)) => Ok((if ms < 0 then None else Some(ms * MILLI), rest))
  }

  function Marshal(d: Digest, headerOrder: seq<Bytes>, secretOrder: seq<Bytes>): Bytes
    requires IsOrder(d.headers, headerOrder) && IsOrder(d.secrets, secretOrder)
  {
    WriteTime(d.expires) + WriteMap(d.headers, headerOrder) + WriteMap(d.secrets, secretOrder) + WriteString(d.rewrite)
  }

  function Unmarshal(data: Bytes): Result<Digest> {
    match ReadTime(data)
    case Err(e) => Err(e)
    case Ok((expires, r0)) =>
      var (headers, r1) := ReadEntries(r0, map[]);
      var (secrets, r2) := ReadEntries(r1, map[]);
      Ok(Digest(expires, headers, secrets, CutString(r2).0))
  }

  /** The layout on an example: the expiry of 300 milliseconds as a zigzag varint, one header from A to B, no secret
      headers, the rewrite R.  Without an expiry the first byte is 1. */
  lemma LayoutExample()
    ensures Marshal(Digest(Some(300_999_999), map[[65] := [66]], map[], [82]), [[65]], [])
            == [0xd8, 0x04, 65, 0, 66, 0, 0, 0, 82, 0]
    ensures Marshal(Digest(None, map[], map[[65] := [66]], []), [], [[65]]) == [1, 0, 65, 0, 66, 0, 0, 0]
  {
    assert PutUvarint(4) == [4];
    assert PutUvarint(600) == [0xd8, 0x04];
    assert WriteTime(Some(300_999_999)) == [0xd8, 0x04] && WriteTime(None) == [1];
    var m: Headers := map[[65] := [66]];
    OneEntry(m);
    NoEntry(map[]);
    assert WriteString([82]) == [82, 0] && WriteString([]) == [0];
  }

  lemma OneEntry(m: Headers)
    requires m == map[[65] := [66]]
    ensures WriteMap(m, [[65]]) == [65, 0, 66, 0, 0]
  {
    assert [[65]][1..] == [];
    assert WriteEntries(m, []) == [];
  }

  lemma NoEntry(m: Headers)
    ensures WriteMap(m, []) == [0]
  {
  }

  /** What the format can carry: whole milliseconds since 1970, names, and no NUL bytes. */
  predicate Representable(d: Digest) {
    && (d.expires.Some? ==> 0 <= d.expires.value && d.expires.value % MILLI == 0)
    && CleanMap(d.headers) && CleanMap(d.secrets) && NulFree(d.rewrite)
  }

  lemma TimeRoundTrip(t: Option<int>, rest: Bytes)
    requires t.Some? ==> IsInt64(t.value / MILLI) && 0 <= t.value && t.value % MILLI == 0
    ensures ReadTime(WriteTime(t) + rest) == Ok((t, rest))
  {
    VarintRoundTrip(if t.Some? then t.value / MILLI else -1, rest);
  }

  /** Everything before the rewrite comes back, whatever follows it. */
  lemma DecodesTo(d: Digest, headerOrder: seq<Bytes>, secretOrder: seq<Bytes>, tail: Bytes)
    requires IsOrder(d.headers, headerOrder) && IsOrder(d.secrets, secretOrder)
    requires d.expires.Some? ==> IsInt64(d.expires.value / MILLI)
    requires Representable(d)
    ensures
      Unmarshal(WriteTime(d.expires) + WriteMap(d.headers, headerOrder) + WriteMap(d.secrets, secretOrder) + tail)
      == Ok(d.(rewrite := CutString(tail).0))
  {
    var secrets := WriteMap(d.secrets, secretOrder) + tail;
    var headers := WriteMap(d.headers, headerOrder) + secrets;
    assert WriteTime(d.expires) + WriteMap(d.headers, headerOrder) + WriteMap(d.secrets, secretOrder) + tail
           == WriteTime(d.expires) + headers;
    TimeRoundTrip(d.expires, headers);
    MapRoundTrip(d.headers, headerOrder, secrets);
    MapRoundTrip(d.secrets, secretOrder, tail);
  }

  lemma RoundTrip(d: Digest, headerOrder: seq<Bytes>, secretOrder: seq<Bytes>)
    requires IsOrder(d.headers, headerOrder) && IsOrder(d.secrets, secretOrder)
    requires d.expires.Some? ==> IsInt64(d.expires.value / MILLI)
    requires Representable(d)
    ensures Unmarshal(Marshal(d, headerOrder, secretOrder)) == Ok(d)
  {
    DecodesTo(d, headerOrder, secretOrder, WriteString(d.rewrite));
    assert WriteString(d.rewrite) == d.rewrite + [0] + [];
    StringRoundTrip(d.rewrite, []);
  }

  /** Whatever bytes are decoded, the result is one that the format can carry. */
  lemma DecodedIsRepresentable(data: Bytes)
    requires Unmarshal(data).Ok?
    ensures Representable(Unmarshal(data).value)
  {
    var (_, r0) := ReadTime(data).value;
    var (_, r1) := ReadEntries(r0, map[]);
    var (_, r2) := ReadEntries(r1, map[]);
    ReadEntriesClean(r0, map[]);
    ReadEntriesClean(r1, map[]);
    CutStringShrinks(r2);
  }

  /** For every order in which the maps are walked, decoding gives back the digest exactly when the
      format can carry it. */
  lemma RoundTripIff(d: Digest, headerOrder: seq<Bytes>, secretOrder: seq<Bytes>)
    requires IsOrder(d.headers, headerOrder) && IsOrder(d.secrets, secretOrder)
    requires d.expires.Some? ==> IsInt64(d.expires.value / MILLI)
    ensures Unmarshal(Marshal(d, headerOrder, secretOrder)) == Ok(d) <==> Representable(d)
  {
    if Representable(d) {
      RoundTrip(d, headerOrder, secretOrder);
    } else if Unmarshal(Marshal(d, headerOrder, secretOrder)).Ok? {
      DecodedIsRepresentable(Marshal(d, headerOrder, secretOrder));
    }
  }

  /** Arbitrary bytes are rejected exactly when no varint of at most 64 bits stands at their front. */
  lemma DecodesIff(data: Bytes)
    ensures Unmarshal(data).Ok? <==> exists n: nat :: EndsAt(data, 0, n)
  {
    GroupsReadableIff(data, 0, 0);
  }

  /** Cutting the last byte off is not noticed: the rewrite comes back empty. */
  lemma LostTerminator(d: Digest, headerOrder: seq<Bytes>, secretOrder: seq<Bytes>)
    requires IsOrder(d.headers, headerOrder) && IsOrder(d.secrets, secretOrder)
    requires d.expires.Some? ==> IsInt64(d.expires.value / MILLI)
    requires Representable(d)
    ensures
      var data := Marshal(d, headerOrder, secretOrder);
      data != [] && Unmarshal(data[..|data| - 1]) == Ok(d.(rewrite := []))
  {
    var data := Marshal(d, headerOrder, secretOrder);
    DecodesTo(d, headerOrder, secretOrder, d.rewrite);
    assert data == WriteTime(d.expires) + WriteMap(d.headers, headerOrder) + WriteMap(d.secrets, secretOrder)
                   + d.rewrite + [0];
    assert data[..|data| - 1]
           == WriteTime(d.expires) + WriteMap(d.headers, headerOrder) + WriteMap(d.secrets, secretOrder) + d.rewrite;
    assert CutString(d.rewrite).0 == [];
  }

  // ----- the buffer, as the source drives it ---------------------------------------------------

  class Buffer {
    var data: Bytes

    constructor (data: Bytes)
      ensures this.data == data
    {
      this.data := data;
    }

    method PutString(s: Bytes)
      modifies this
      ensures data == old(data) + WriteString(s)
    {
      data := data + s;
      data := data + [0];
    }

    method PutEntry(m: Headers, k: Bytes)
      modifies this
      ensures data == old(data) + WriteEntry(m, k)
    {
      if k == [] || k !in m {
        return;
      }
      PutString(k);
      PutString(m[k]);
    }

    method PutMap(m: Headers, order: seq<Bytes>)
      modifies this
      ensures data == old(data) + WriteMap(m, order)
    {
      hide WriteEntry;
      for i := 0 to |order|
        invariant data == old(data) + WriteEntries(m, order[..i])
      {
        assert order[..i + 1] == order[..i] + [order[i]];
        EntriesAppend(m, order[..i], order[i]);
        PutEntry(m, order[i]);
      }
      assert order[..|order|] == order;
      data := data + [0];
    }

    method PutTime(t: Option<int>)
      modifies this
      ensures data == old(data) + WriteTime(t)
    {
      var u := ZigZag(if t.Some? then t.value / MILLI else -1);
      ghost var goal := data + PutUvarint(u);
      while u >= 128
        invariant goal == data + PutUvarint(u)
      {
        data := data + [u % 128 + 128];
        u := u / 128;
      }
      data := data + [u];
    }

    method TakeString() returns (s: Bytes)
      modifies this
      ensures (s, data) == CutString(old(data))
    {
      var k := 0;
      while k < |data| && data[k] != 0
        invariant k <= |data| && NulFree(data[..k])
      {
        k := k + 1;
      }
      if k == |data| {
        assert data[..k] == data;
        s, data := [], [];
      } else {
        CutStringAt(data, k);
        s, data := data[..k], data[k + 1..];
      }
    }

    method TakeMap() returns (m: Headers)
      modifies this
      ensures (m, data) == ReadEntries(old(data), map[])
    {
      m := map[];
      ghost var goal := ReadEntries(data, map[]);
      while true
        invariant ReadEntries(data, m) == goal
        decreases |data|
      {
        CutStringShrinks(data);
        var k := TakeString();
        if k == [] {
          break;
        }
        CutStringShrinks(data);
        var v := TakeString();
        m := m[k := v];
      }
    }

    method TakeUvarint() returns (r: Result<nat>)
      modifies this
      ensures r.Err? <==> ReadGroups(old(data), 0, 0).Err?
      ensures r.Ok? ==> ReadGroups(old(data), 0, 0) == Ok((r.value, data))
    {
      var x: nat, i := 0, 0;
      while i < MAX_GROUPS
        invariant i <= MAX_GROUPS && ReadGroups(data, i, x) == ReadGroups(old(data), 0, 0)
      {
        if data == [] {
          return Err(Eof);
        }
        GroupRead(data, i, x);
        var b := data[0];
        data := data[1..];
        if b < 128 {
          if i == MAX_GROUPS - 1 && b > 1 {
            return Err(Overflow);
          }
          return Ok(AddGroup(x, b, i));
        }
        x, i := AddGroup(x, b - 128, i), i + 1;
      }
      r := Err(Overflow);
    }

    method TakeTime() returns (t: Result<Option<int>>)
      modifies this
      ensures t.Err? <==> ReadTime(old(data)).Err?
      ensures t.Ok? ==> (t.value, data) == ReadTime(old(data)).value
    {
      var u := TakeUvarint();
      if u.Err? {
        return Err(u.error);
      }
      var ms := UnZigZag(u.value);
      t := Ok(if ms < 0 then None else Some(ms * MILLI));
    }
  }

  method MarshalBinary(d: Digest, headerOrder: seq<Bytes>, secretOrder: seq<Bytes>) returns (data: Bytes)
    requires IsOrder(d.headers, headerOrder) && IsOrder(d.secrets, secretOrder)
    ensures data == Marshal(d, headerOrder, secretOrder)
  {
    var buf := new Buffer([]);
    buf.PutTime(d.expires);
    buf.PutMap(d.headers, headerOrder);
    buf.PutMap(d.secrets, secretOrder);
    buf.PutString(d.rewrite);
    data := buf.data;
  }

  method UnmarshalBinary(data: Bytes) returns (r: Result<Digest>)
    ensures r.Ok? <==> Unmarshal(data).Ok?
    ensures r.Ok? ==> r == Unmarshal(data)
  {
    var buf := new Buffer(data);
    var expires := buf.TakeTime();
    if expires.Err? {
      return Err(expires.error);
    }
    var headers := buf.TakeMap();
    var secrets := buf.TakeMap();
    var rewrite := buf.TakeString();
    r := Ok(Digest(expires.value, headers, secrets, rewrite));
  }
}
