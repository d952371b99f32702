/** The IPC wire format: src/transports/ipc.rs, `encode`, `decode` and `read_frame`. */
module Codec {
  import opened Wrappers

  type Byte = b: int | 0 <= b < 256
  type Bytes = seq<Byte>

  const TWO31: int := 0x8000_0000
  const TWO32: int := 0x1_0000_0000
  const TWO63: int := 0x8000_0000_0000_0000
  const TWO64: int := 0x1_0000_0000_0000_0000

  type I32 = i: int | -0x8000_0000 <= i < 0x8000_0000

  datatype Frame = Frame(opcode: I32, body: Bytes)

  // Two's complement: the 32 bits of a signed number, and back.
  function Bits(i: I32): int {
    if i < 0 then i + TWO32 else i
  }

  function Signed(u: int): I32
    requires 0 <= u < TWO32
  {
    if u < TWO31 then u else u - TWO32
  }

  function Le4(u: int): (r: Bytes)
    requires 0 <= u < TWO32
    ensures |r| == 4
  {
    [u % 256, u / 256 % 256, u / 256 / 256 % 256, u / 256 / 256 / 256]
  }

  function FromLe4(b: Bytes): (u: int)
    requires |b| >= 4
    ensures 0 <= u < TWO32
  {
    var b0: int, b1: int, b2: int, b3: int := b[0], b[1], b[2], b[3];
    b0 + 256 * (b1 + 256 * (b2 + 256 * b3))
  }

  // The length is cast to i32, so a body of 2^32 bytes or more loses the high bits.
  function Encode(opcode: I32, body: Bytes): Bytes {
    Le4(Bits(opcode)) + Le4(|body| % TWO32) + body
  }

  function EncodeAll(frames: seq<Frame>): Bytes {
    if frames == [] then [] else Encode(frames[0].opcode, frames[0].body) + EncodeAll(frames[1..])
  }

  function LengthBits(data: Bytes): (u: int)
    requires |data| >= 8
    ensures 0 <= u < TWO32
  {
    FromLe4(data[4..8])
  }

  datatype Decoded = NoFrame | Got(frame: Frame) | Fault

  // `decode` reads the length as signed and widens it to usize; the sum that checks the
  // size leaves usize when the length is between -8 and -1.
  function Decode(data: Bytes, isUtf8: Bytes -> bool): Decoded {
    if |data| < 8 then NoFrame
    else
      var signed := Signed(LengthBits(data));
      var length := if signed < 0 then TWO64 + signed else signed;
      if 8 + length >= TWO64 then Fault
      else if |data| < 8 + length then NoFrame
      else
        var body := data[8..8 + length];
        if isUtf8(body) then Got(Frame(Signed(FromLe4(data[0..4])), body)) else NoFrame
  }

  // `read_frame` reads the length as unsigned. What it leaves of the stream comes second.
  function ReadFrame(data: Bytes): Option<(Frame, Bytes)> {
    if |data| < 8 || |data| < 8 + LengthBits(data) then None
    else Some((Frame(Signed(FromLe4(data[0..4])), data[8..8 + LengthBits(data)]), data[8 + LengthBits(data)..]))
  }

  // What giving up a read leaves that had taken some bytes: never all of a frame, or it
  // would have been done.
  function GiveUp(data: Bytes, taken: nat): Bytes {
    var limit := if ReadFrame(data).Some? then 8 + LengthBits(data) - 1 else |data|;
    data[if taken < limit then taken else limit..]
  }

  function ReadAll(data: Bytes): seq<Frame>
    decreases |data|
  {
    match ReadFrame(data)
    case None => []
    case Some((frame, rest)) => [frame] + ReadAll(rest)
  }

  class Stream {
    var rest: Bytes

    constructor (data: Bytes)
      ensures rest == data
    {
      rest := data;
    }

    method ReadExact(n: nat) returns (r: Option<Bytes>)
      modifies this
      ensures n <= |old(rest)| ==> r == Some(old(rest)[..n]) && rest == old(rest)[n..]
      ensures n > |old(rest)| ==> r == None && rest == []
    {
      if n <= |rest| {
        r := Some(rest[..n]);
        rest := rest[n..];
      } else {
        r := None;
        rest := [];
      }
    }

    /** A read that is given up half-way keeps nothing of what it took. */
    method Cancel(taken: nat)
      modifies this
      ensures rest == GiveUp(old(rest), taken)
    {
      rest := GiveUp(rest, taken);
    }

    /** Header, then body; a stream that ends first yields nothing and is used up. */
    method Next() returns (r: Option<Frame>)
      modifies this
      ensures match ReadFrame(old(rest))
              case None => r == None && rest == []
              case Some((frame, after)) => r == Some(frame) && rest == after
    {
      var header := ReadExact(8);
      if header.None? { return None; }
      var h := header.value;
      assert h[4..8] == old(rest)[4..8] && h[0..4] == old(rest)[0..4];
      var length := FromLe4(h[4..8]);
      var body := ReadExact(length);
      if body.None? { return None; }
      assert old(rest)[8..][..length] == old(rest)[8..8 + length];
      assert old(rest)[8..][length..] == old(rest)[8 + length..];
      r := Some(Frame(Signed(FromLe4(h[0..4])), body.value));
    }
  }

  // ─── Numbers ────────────────────────────────────────────────────────────────

  lemma Le4RoundTrip(u: int)
    requires 0 <= u < TWO32
    ensures FromLe4(Le4(u)) == u
  {
    var a := u / 256;
    var b := a / 256;
    assert u == u % 256 + 256 * a && a == a % 256 + 256 * b && b == b % 256 + 256 * (b / 256);
  }

  lemma FromLe4RoundTrip(b: Bytes)
    requires |b| == 4
    ensures Le4(FromLe4(b)) == b
  {
    var b0: int, b1: int, b2: int, b3: int := b[0], b[1], b[2], b[3];
    var c := b2 + 256 * b3;
    var d := b1 + 256 * c;
    var u := b0 + 256 * d;
    assert u / 256 == d && u % 256 == b[0];
    assert d / 256 == c && d % 256 == b[1];
    assert c / 256 == b[3] && c % 256 == b[2];
  }

  lemma HeaderOf(opcode: I32, body: Bytes, extra: Bytes)
    ensures var data := Encode(opcode, body) + extra;
            && |data| == 8 + |body| + |extra|
            && Signed(FromLe4(data[0..4])) == opcode
            && LengthBits(data) == |body| % TWO32
            && data[8..8 + |body|] == body && data[8 + |body|..] == extra
  {
    var data := Encode(opcode, body) + extra;
    Le4RoundTrip(Bits(opcode));
    Le4RoundTrip(|body| % TWO32);
    assert data[0..4] == Le4(Bits(opcode));
    assert data[4..8] == Le4(|body| % TWO32);
  }

  // A number of four bytes, least significant first.
  function Number(b: Bytes): int
    requires |b| == 4
  {
    var b0: int, b1: int, b2: int, b3: int := b[0], b[1], b[2], b[3];
    b0 + 0x100 * b1 + 0x1_0000 * b2 + 0x100_0000 * b3
  }

  lemma FourBytes(u: int)
    requires 0 <= u < TWO32
    ensures Number(Le4(u)) == u
  {
    Le4RoundTrip(u);
  }

  /** The layout of a frame: the opcode in two's complement and the length of the body, four
      bytes each, least significant first, then the body. */
  lemma FrameLayout(opcode: I32, body: Bytes)
    requires |body| < 0x1_0000_0000
    ensures var data := Encode(opcode, body);
            && |data| == 8 + |body| && data[8..] == body
            && Number(data[0..4]) == (if opcode < 0 then opcode + 0x1_0000_0000 else opcode)
            && Number(data[4..8]) == |body|
  {
    var data := Encode(opcode, body);
    FourBytes(Bits(opcode));
    FourBytes(|body|);
    assert data[0..4] == Le4(Bits(opcode)) && data[4..8] == Le4(|body|);
  }

  // ─── Framing ────────────────────────────────────────────────────────────────

  lemma ReadEncoded(opcode: I32, body: Bytes, extra: Bytes)
    requires |body| < TWO32
    ensures ReadFrame(Encode(opcode, body) + extra) == Some((Frame(opcode, body), extra))
  {
    HeaderOf(opcode, body, extra);
  }

  /** Framing is uniquely decodable: what was written one by one is read one by one. */
  lemma {:induction false} ReadAllEncoded(frames: seq<Frame>)
    requires forall i :: 0 <= i < |frames| ==> |frames[i].body| < TWO32
    ensures ReadAll(EncodeAll(frames)) == frames
  {
    if frames != [] {
      ReadEncoded(frames[0].opcode, frames[0].body, EncodeAll(frames[1..]));
      ReadAllEncoded(frames[1..]);
    }
  }

  /** Decoding an encoded frame, whatever follows it, works exactly for bodies whose length
      fits a signed 32-bit number; up to 2^32 the stream reader still takes them. */
  lemma DecodeEncoded(opcode: I32, body: Bytes, extra: Bytes, isUtf8: Bytes -> bool)
    requires isUtf8(body) && |body| < TWO32 && |body| + |extra| < TWO63 - 8
    ensures Decode(Encode(opcode, body) + extra, isUtf8) == Got(Frame(opcode, body)) <==> |body| < TWO31
    ensures ReadFrame(Encode(opcode, body) + extra) == Some((Frame(opcode, body), extra))
  {
    HeaderOf(opcode, body, extra);
    ReadEncoded(opcode, body, extra);
  }

  // The stream reader finds no frame in a proper prefix of one.
  lemma PrefixReadsNothing(opcode: I32, body: Bytes, n: nat)
    requires |body| < TWO32 && n < |Encode(opcode, body)|
    ensures ReadFrame(Encode(opcode, body)[..n]) == None
  {
    var data := Encode(opcode, body);
    HeaderOf(opcode, body, []);
    assert data + [] == data;
    if n >= 8 {
      assert data[..n][4..8] == data[4..8];
    }
  }

  /** No proper prefix of an encoded frame decodes. */
  lemma ProperPrefixYieldsNothing(opcode: I32, body: Bytes, n: nat, isUtf8: Bytes -> bool)
    requires |body| < TWO31 && n < |Encode(opcode, body)|
    ensures Decode(Encode(opcode, body)[..n], isUtf8) == NoFrame
    ensures ReadFrame(Encode(opcode, body)[..n]) == None
  {
    var data := Encode(opcode, body);
    PrefixReadsNothing(opcode, body, n);
    HeaderOf(opcode, body, []);
    assert data + [] == data;
    if n >= 8 {
      assert data[..n][4..8] == data[4..8];
    }
  }

  // A frame read one byte late: its length field becomes 256 times the length.
  lemma ShiftedFrame(byte: Byte, opcode: I32, body: Bytes)
    requires 1 <= |body| < 0x100_0000 && 0 <= opcode < 0x100_0000
    ensures ReadFrame([byte] + Encode(opcode, body)) == None
  {
    var data := [byte] + Encode(opcode, body);
    assert |data| == 9 + |body|;
    assert Le4(Bits(opcode))[3] == 0;
    assert data[4] == Le4(Bits(opcode))[3] && data[5] == |body| % 256;
    assert data[6] == |body| / 256 % 256 && data[7] == |body| / 256 / 256 % 256;
    assert LengthBits(data) == 256 * |body|;
  }

  lemma Reassemble(data: Bytes, n: nat)
    requires 8 <= n <= |data| && LengthBits(data) == n - 8
    ensures Encode(Signed(FromLe4(data[0..4])), data[8..n]) == data[..n]
  {
    FromLe4RoundTrip(data[0..4]);
    FromLe4RoundTrip(data[4..8]);
    assert data[..n] == data[0..4] + data[4..8] + data[8..n];
  }

  /** Whatever decodes starts with the re-encoding of what it decodes to. */
  lemma DecodedStartsWithEncoding(data: Bytes, isUtf8: Bytes -> bool)
    requires |data| < TWO63 && Decode(data, isUtf8).Got?
    ensures var f := Decode(data, isUtf8).frame;
            Encode(f.opcode, f.body) <= data && isUtf8(f.body) && ReadFrame(data).Some? && ReadFrame(data).value.0 == f
  {
    var n := 8 + LengthBits(data);
    assert LengthBits(data) < TWO31;
    Reassemble(data, n);
  }

  /** The two readings of the length agree on every buffer whose length field is not
      negative; on the others `decode` yields nothing, or faults exactly from -8 to -1. */
  lemma DecodeAgainstReadFrame(data: Bytes, isUtf8: Bytes -> bool)
    requires |data| < TWO63
    ensures |data| >= 8 && Signed(LengthBits(data)) >= 0 && ReadFrame(data).Some? ==>
              Decode(data, isUtf8) == if isUtf8(ReadFrame(data).value.0.body) then Got(ReadFrame(data).value.0) else NoFrame
    ensures |data| >= 8 && Signed(LengthBits(data)) >= 0 && ReadFrame(data).None? ==> Decode(data, isUtf8) == NoFrame
    ensures Decode(data, isUtf8) == Fault <==> |data| >= 8 && -8 <= Signed(LengthBits(data)) < 0
    ensures |data| >= 8 && Signed(LengthBits(data)) < -8 ==> Decode(data, isUtf8) == NoFrame
  {
  }
}
