/** The 16-byte little-endian header that prefixes every command sent to the
    device and every response read back (usb/src/device/usb.rs). */
module UsbFrame {
  import opened Ints

  const HEADER_LEN: nat := 16

  /** `LittleEndian::write_u16`: the two bytes of `v`, low byte first. */
  function U16Bytes(v: u16): (b: seq<byte>)
    ensures |b| == 2
  {
    [v % 0x100, v / 0x100]
  }

  /** `LittleEndian::read_u16`. */
  function ReadU16(b: seq<byte>): u16
    requires |b| == 2
  {
    b[0] as int + 0x100 * (b[1] as int)
  }

  /** `LittleEndian::write_u32`. */
  function U32Bytes(v: u32): (b: seq<byte>)
    ensures |b| == 4
  {
    [v % 0x100, v / 0x100 % 0x100, v / 0x1_0000 % 0x100, v / 0x100_0000]
  }

  /** `LittleEndian::read_u32`. */
  function ReadU32(b: seq<byte>): u32
    requires |b| == 4
  {
    b[0] as int + 0x100 * (b[1] as int) + 0x1_0000 * (b[2] as int) + 0x100_0000 * (b[3] as int)
  }

  function Zeros(n: nat): (z: seq<byte>)
    ensures |z| == n && forall k :: 0 <= k < n ==> z[k] == 0
  {
    seq(n, _ => 0)
  }

  /** The body length as stored in bytes 4-5: `body.len() as u16`, a truncating cast. */
  function LengthField(body: seq<byte>): u16
  {
    |body| % 0x1_0000
  }

  /** The frame `perform_request` sends: command id, body length, command
      index, eight reserved zero bytes, then the body. */
  function Frame(id: u32, index: u16, body: seq<byte>): (f: seq<byte>)
    ensures |f| == HEADER_LEN + |body|
    ensures f[HEADER_LEN..] == body
  {
    U32Bytes(id) + U16Bytes(LengthField(body)) + U16Bytes(index) + Zeros(8) + body
  }

  /** Header fields of a frame or response, as `perform_request` reads them. */
  function HeaderCommand(h: seq<byte>): u32
    requires |h| >= HEADER_LEN
  {
    ReadU32(h[0..4])
  }

  function HeaderLength(h: seq<byte>): u16
    requires |h| >= HEADER_LEN
  {
    ReadU16(h[4..6])
  }

  function HeaderIndex(h: seq<byte>): u16
    requires |h| >= HEADER_LEN
  {
    ReadU16(h[6..8])
  }

  lemma U16RoundTrip(v: u16)
    ensures ReadU16(U16Bytes(v)) == v
  {
  }

  lemma U32RoundTrip(v: u32)
    ensures ReadU32(U32Bytes(v)) == v
  {
    var q1 := v / 0x100;
    var q2 := q1 / 0x100;
    var q3 := q2 / 0x100;
    assert v / 0x1_0000 == q2;
    assert v / 0x100_0000 == q3;
    assert q1 == 0x100 * q2 + q1 % 0x100;
    assert q2 == 0x100 * q3 + q2 % 0x100;
  }

  /** Decoding the header of a frame gives back the command id, the body
      length cast to u16 and the command index; the reserved bytes are zero
      and the tail is the body. */
  lemma {:induction false} FrameDecodes(id: u32, index: u16, body: seq<byte>)
    ensures HeaderCommand(Frame(id, index, body)) == id
    ensures HeaderLength(Frame(id, index, body)) == |body| % 0x1_0000
    ensures HeaderIndex(Frame(id, index, body)) == index
    ensures Frame(id, index, body)[8..HEADER_LEN] == Zeros(8)
    ensures Frame(id, index, body)[HEADER_LEN..] == body
  {
    var f := Frame(id, index, body);
    assert f[0..4] == U32Bytes(id);
    assert f[4..6] == U16Bytes(LengthField(body));
    assert f[6..8] == U16Bytes(index);
    assert f[8..16] == Zeros(8);
    U32RoundTrip(id);
    U16RoundTrip(LengthField(body));
    U16RoundTrip(index);
  }

  /** For bodies that fit the 16-bit length field the frame round-trips
      exactly; a longer body is not rejected, its length field wraps. */
  lemma FrameRoundTrip(id: u32, index: u16, body: seq<byte>)
    ensures |body| <= 0xFFFF ==> HeaderLength(Frame(id, index, body)) == |body|
    ensures |body| > 0xFFFF ==> HeaderLength(Frame(id, index, body)) != |body|
    ensures HeaderCommand(Frame(id, index, body)) == id
    ensures HeaderIndex(Frame(id, index, body)) == index
    ensures Frame(id, index, body)[HEADER_LEN..] == body
  {
    FrameDecodes(id, index, body);
  }
}
