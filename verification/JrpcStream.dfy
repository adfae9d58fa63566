/**
 The wire format of the RPC connection: a 32-bit little-endian header, an identifier ended by a NUL
 byte and a body ended by a newline.
 */
module JrpcStream {
  import opened Common

  const NEWLINE: Byte := 10

  /** What is written when a packet has no body: an empty JSON object. */
  const NO_BODY: Bytes := [123, 125, 10]

  datatype Frame = Frame(header: nat, id: Bytes, body: Bytes)

  predicate HeaderOk(f: Frame) {
    f.header < 0x1_0000_0000
  }

  // ----- the format as functions ---------------------------------------------------------------

  function PutU32(h: nat): Bytes
    requires h < 0x1_0000_0000
  {
    [h % 0x100, h / 0x100 % 0x100, h / 0x1_0000 % 0x100, h / 0x100_0000]
  }

  function GetU32(d: Bytes): nat
    requires 4 <= |d|
  {
    (d[0] as int) + 0x100 * (d[1] as int) + 0x1_0000 * (d[2] as int) + 0x100_0000 * (d[3] as int)
  }

  /** The body as it arrives: an empty one as an empty object, a missing final newline added. */
  function Terminated(body: Bytes): Bytes {
    if body == [] then NO_BODY
    else if body[|body| - 1] == NEWLINE then body
    else body + [NEWLINE]
  }

  function Normal(f: Frame): Frame {
    f.(body := Terminated(f.body))
  }

  function Encode(f: Frame): Bytes
    requires HeaderOk(f)
  {
    PutU32(f.header) + f.id + [0] + Terminated(f.body)
  }

  /** Splits after the first delimiter; fails when there is none. */
  function SplitAfter(d: Bytes, delimiter: Byte): Option<(Bytes, Bytes)> {
    if d == [] then None
    else if d[0] == delimiter then Some(([d[0]], d[1..]))
    else
      match SplitAfter(d[1..], delimiter)
      case None => None
      case Some((front, rest)) => Some(([d[0]] + front, rest))
  }

  function Decode(d: Bytes): Option<(Frame, Bytes)> {
    if |d| < 4 then None
    else
      match SplitAfter(d[4..], 0)
      case None => None
      case Some((id, r)) =>
        SplitAfterShape(d[4..], 0);
        match SplitAfter(r, NEWLINE)
        case None => None
        case Some((body, rest)) => Some((Frame(GetU32(d), id[..|id| - 1], body), rest))
  }

  lemma {:induction false} SplitAfterShape(d: Bytes, delimiter: Byte)
    ensures SplitAfter(d, delimiter).None? <==> delimiter !in d
    ensures SplitAfter(d, delimiter).Some? ==>
      var (front, rest) := SplitAfter(d, delimiter).value;
      && 0 < |front| && front[|front| - 1] == delimiter && delimiter !in front[..|front| - 1]
      && d == front + rest
  {
    if d == [] || d[0] == delimiter {
    } else {
      SplitAfterShape(d[1..], delimiter);
      assert d == [d[0]] + d[1..];
      if SplitAfter(d[1..], delimiter).Some? {
        var front := SplitAfter(d[1..], delimiter).value.0;
        assert ([d[0]] + front)[..|front|] == [d[0]] + front[..|front| - 1];
      }
    }
  }

  lemma {:induction false} SplitAfterAt(front: Bytes, delimiter: Byte, rest: Bytes)
    requires delimiter !in front
    ensures SplitAfter(front + [delimiter] + rest, delimiter) == Some((front + [delimiter], rest))
  {
    var d := front + [delimiter] + rest;
    if front == [] {
      assert d[1..] == rest && [d[0]] == front + [delimiter];
    } else {
      SplitAfterAt(front[1..], delimiter, rest);
      assert d[1..] == front[1..] + [delimiter] + rest;
      assert [front[0]] + (front[1..] + [delimiter]) == front + [delimiter];
    }
  }

  function EncodeAll(fs: seq<Frame>): Bytes
    requires forall i :: 0 <= i < |fs| ==> HeaderOk(fs[i])
  {
    if fs == [] then [] else Encode(fs[0]) + EncodeAll(fs[1..])
  }

  /** Decodes to the end; None when some frame cannot be decoded. */
  function DecodeAll(d: Bytes): Option<seq<Frame>>
    decreases |d|
  {
    if d == [] then Some([])
    else
      match Decode(d)
      case None => None
      case Some((f, rest)) =>
        DecodeShrinks(d);
        match DecodeAll(rest)
        case None => None
        case Some(fs) => Some([f] + fs)
  }

  lemma DecodeShrinks(d: Bytes)
    ensures Decode(d).Some? ==> |Decode(d).value.1| < |d|
  {
    if 4 <= |d| {
      SplitAfterShape(d[4..], 0);
      if SplitAfter(d[4..], 0).Some? {
        SplitAfterShape(SplitAfter(d[4..], 0).value.1, NEWLINE);
      }
    }
  }

  /** The layout on an example: the reply to call 1 with the identifier A, without a body and with one. */
  lemma LayoutExample()
    ensures Encode(Frame(0x8000_0002, [65], [])) == [2, 0, 0, 0x80, 65, 0, 123, 125, 10]
    ensures Encode(Frame(0x0403_0201, [65], [66])) == [1, 2, 3, 4, 65, 0, 66, 10]
    ensures Encode(Frame(0x0403_0201, [65], [66, 10])) == [1, 2, 3, 4, 65, 0, 66, 10]
  {
  }

  // ----- round trip ----------------------------------------------------------------------------

  /** What the format can carry: no NUL in the identifier, no newline inside the body. */
  predicate Framable(f: Frame) {
    && 0 !in f.id
    && (f.body != [] ==> NEWLINE !in f.body[..|f.body| - 1])
  }

  lemma HeaderRoundTrip(h: nat)
    requires h < 0x1_0000_0000
    ensures GetU32(PutU32(h)) == h
  {
    assert h / 0x1_0000 == h / 0x100 / 0x100;
    assert h / 0x100_0000 == h / 0x1_0000 / 0x100;
  }

  lemma EncodeSplits(f: Frame, rest: Bytes)
    requires HeaderOk(f)
    ensures
      var d := Encode(f) + rest;
      && |d| >= 4 && GetU32(d) == f.header
      && d[4..] == f.id + [0] + (Terminated(f.body) + rest)
  {
    HeaderRoundTrip(f.header);
    var d := Encode(f) + rest;
    assert d == PutU32(f.header) + (f.id + [0] + (Terminated(f.body) + rest));
  }

  lemma FrameRoundTrip(f: Frame, rest: Bytes)
    requires HeaderOk(f) && Framable(f)
    ensures Decode(Encode(f) + rest) == Some((Normal(f), rest))
  {
    var body := Terminated(f.body);
    EncodeSplits(f, rest);
    SplitAfterAt(f.id, 0, body + rest);
    var front := body[..|body| - 1];
    assert NEWLINE !in front;
    assert body == front + [NEWLINE] && body + rest == front + [NEWLINE] + rest;
    SplitAfterAt(front, NEWLINE, rest);
    assert (f.id + [0])[..|f.id|] == f.id;
  }

  /** Only a frame that the format can carry is read back as it was written. */
  lemma KeptIsFramable(f: Frame, rest: Bytes)
    requires HeaderOk(f)
    requires Decode(Encode(f) + rest).Some? && Decode(Encode(f) + rest).value.0 == Normal(f)
    ensures Framable(f)
  {
    var d := Encode(f) + rest;
    EncodeSplits(f, rest);
    SplitAfterShape(d[4..], 0);
    var (id, r) := SplitAfter(d[4..], 0).value;
    SplitAfterShape(r, NEWLINE);
    assert id[..|id| - 1] == f.id;
    var got := SplitAfter(r, NEWLINE).value.0;
    assert got == Terminated(f.body);
    if f.body != [] {
      assert forall i :: 0 <= i < |f.body| - 1 ==> f.body[i] == got[..|got| - 1][i];
    }
  }

  predicate AllFramable(fs: seq<Frame>) {
    forall i :: 0 <= i < |fs| ==> Framable(fs[i])
  }

  function AllNormal(fs: seq<Frame>): seq<Frame> {
    seq(|fs|, i requires 0 <= i < |fs| => Normal(fs[i]))
  }

  lemma EncodeIsNonempty(f: Frame)
    requires HeaderOk(f)
    ensures Encode(f) != []
  {
  }

  lemma NormalSplits(fs: seq<Frame>)
    requires fs != []
    ensures AllNormal(fs) == [Normal(fs[0])] + AllNormal(fs[1..])
  {
  }

  /** The first frame of a stream and the rest. */
  lemma HeadRoundTripIff(fs: seq<Frame>)
    requires fs != [] && forall i :: 0 <= i < |fs| ==> HeaderOk(fs[i])
    ensures DecodeAll(EncodeAll(fs)) == Some(AllNormal(fs))
            <==> Framable(fs[0]) && DecodeAll(EncodeAll(fs[1..])) == Some(AllNormal(fs[1..]))
  {
    hide Encode, Decode, HeaderOk, Framable, Normal, AllNormal;
    var f, rest := fs[0], EncodeAll(fs[1..]);
    EncodeIsNonempty(f);
    NormalSplits(fs);
    if Framable(f) {
      FrameRoundTrip(f, rest);
      if DecodeAll(EncodeAll(fs)) == Some(AllNormal(fs)) {
        assert DecodeAll(rest).value == AllNormal(fs)[1..];
      }
    } else if DecodeAll(EncodeAll(fs)) == Some(AllNormal(fs)) {
      assert Decode(Encode(f) + rest).value.0 == AllNormal(fs)[0];
      KeptIsFramable(f, rest);
    }
  }

  /** Whatever was written one after the other is read back frame by frame, headers, identifiers and
      normalised bodies, exactly when every frame fits the format. */
  lemma {:induction false} StreamRoundTripIff(fs: seq<Frame>)
    requires forall i :: 0 <= i < |fs| ==> HeaderOk(fs[i])
    ensures DecodeAll(EncodeAll(fs)) == Some(AllNormal(fs)) <==> AllFramable(fs)
  {
    hide Encode, Framable, Normal;
    if fs == [] {
      assert AllNormal(fs) == [];
    } else {
      StreamRoundTripIff(fs[1..]);
      HeadRoundTripIff(fs);
      assert fs == [fs[0]] + fs[1..];
    }
  }

  // ----- the object ----------------------------------------------------------------------------

  /** `sent` is what went out on the connection, `received` what is still to be read from it. */
  class Stream {
    var sent: Bytes
    var received: Bytes
    var open: bool

    constructor (received: Bytes)
      ensures sent == [] && this.received == received && open
    {
      sent, this.received, open := [], received, true;
    }

    method Close()
      modifies this
      ensures !open && sent == old(sent) && received == old(received)
    {
      open := false;
    }

    method Write(h: nat, id: Bytes, body: Bytes) returns (ok: bool)
      requires h < 0x1_0000_0000
      modifies this
      ensures ok == old(open) && open == old(open) && received == old(received)
      ensures sent == if ok then old(sent) + Encode(Frame(h, id, body)) else old(sent)
    {
      if !open {
        return false;
      }
      var out := PutU32(h) + id;
      if |body| == 0 {
        out := out + [0] + NO_BODY;
      } else {
        out := out + [0] + body;
        if body[|body| - 1] != NEWLINE {
          out := out + [NEWLINE];
        }
      }
      assert out == Encode(Frame(h, id, body));
      sent := sent + out;
      ok := true;
    }

    method ReadUntil(delimiter: Byte) returns (front: Option<Bytes>)
      modifies this`received
      ensures front.Some? <==> SplitAfter(old(received), delimiter).Some?
      ensures front.Some? ==> SplitAfter(old(received), delimiter) == Some((front.value, received))
    {
      var k := 0;
      SplitAfterShape(received, delimiter);
      while k < |received| && received[k] != delimiter
        invariant k <= |received| && delimiter !in received[..k]
      {
        k := k + 1;
      }
      if k == |received| {
        assert received[..k] == received;
        received := [];
        return None;
      }
      assert received == received[..k] + [delimiter] + received[k + 1..];
      SplitAfterAt(received[..k], delimiter, received[k + 1..]);
      assert received[..k + 1] == received[..k] + [delimiter];
      front, received := Some(received[..k + 1]), received[k + 1..];
    }

    /** Reads one header and body, as the input loop does. */
    method ReadFrame() returns (f: Option<Frame>)
      modifies this`received
      ensures f.Some? <==> Decode(old(received)).Some?
      ensures f.Some? ==> Decode(old(received)) == Some((f.value, received))
    {
      if |received| < 4 {
        return None;
      }
      var h := GetU32(received);
      received := received[4..];
      SplitAfterShape(received, 0);
      var id := ReadUntil(0);
      if id.None? {
        return None;
      }
      var name := id.value;
      if |name| > 0 && name[|name| - 1] == 0 {
        name := name[..|name| - 1];
      }
      var body := ReadUntil(NEWLINE);
      if body.None? {
        return None;
      }
      f := Some(Frame(h, name, body.value));
    }
  }
}
