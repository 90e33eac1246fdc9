/** The 12-byte frame header of the in-tree yamux multiplexer (`src/tunnel/yamux.{hpp,cpp}`). */
module YamuxCodec {
  type Byte = b: int | 0 <= b < 256

  const VERSION: Byte := 0
  const TYPE_DATA: Byte := 0
  const TYPE_WINDOW_UPDATE: Byte := 1
  const TYPE_PING: Byte := 2
  const TYPE_GO_AWAY: Byte := 3
  const FLAG_SYN := 1
  const FLAG_ACK := 2
  const FLAG_FIN := 4
  const HEADER_SIZE: nat := 12
  const DATA_FRAME_CAP: nat := 16384
  const MAX_INBUF: nat := 8388608
  const RECV_SIZE: nat := 65536

  datatype Frame = Frame(typ: Byte, flags: nat, sid: nat, payload: seq<Byte>) {
    predicate Valid() {
      flags < 0x1_0000 && sid < 0x1_0000_0000 && |payload| < 0x1_0000_0000
    }

    predicate HasSyn() { flags % 2 == 1 }

    predicate HasFin() { flags / 4 % 2 == 1 }
  }

  /** `htons`: big-endian. */
  function PutU16(v: nat): (b: seq<Byte>)
    requires v < 0x1_0000
    ensures |b| == 2
  {
    [v / 0x100, v % 0x100]
  }

  /** `htonl`: big-endian. */
  function PutU32(v: nat): (b: seq<Byte>)
    requires v < 0x1_0000_0000
    ensures |b| == 4
  {
    PutU16(v / 0x1_0000) + PutU16(v % 0x1_0000)
  }

  function GetU16(b: seq<Byte>, at: nat): (v: nat)
    requires at + 2 <= |b|
    ensures v < 0x1_0000
  {
    (b[at] as int) * 0x100 + b[at + 1]
  }

  function GetU32(b: seq<Byte>, at: nat): (v: nat)
    requires at + 4 <= |b|
    ensures v < 0x1_0000_0000
  {
    GetU16(b, at) * 0x1_0000 + GetU16(b, at + 2)
  }

  function Header(typ: Byte, flags: nat, sid: nat, len: nat): (h: seq<Byte>)
    requires flags < 0x1_0000 && sid < 0x1_0000_0000 && len < 0x1_0000_0000
    ensures |h| == HEADER_SIZE
  {
    [VERSION, typ] + PutU16(flags) + PutU32(sid) + PutU32(len)
  }

  /** What `send_frame` puts on the wire. */
  function Encode(f: Frame): (b: seq<Byte>)
    requires f.Valid()
    ensures |b| == HEADER_SIZE + |f.payload|
  {
    Header(f.typ, f.flags, f.sid, |f.payload|) + f.payload
  }

  datatype Parsed = NeedMore | BadVersion | Got(frame: Frame)

  /** What the read loop makes of the front of its buffer. */
  function ParseOne(buf: seq<Byte>): (p: Parsed)
    ensures p.Got? ==> p.frame.Valid() && HEADER_SIZE + |p.frame.payload| <= |buf|
  {
    if |buf| < HEADER_SIZE then NeedMore
    else if buf[0] != VERSION then BadVersion
    else
      var plen := GetU32(buf, 8);
      if |buf| - HEADER_SIZE < plen then NeedMore
      else Got(Frame(buf[1], GetU16(buf, 2), GetU32(buf, 4), buf[HEADER_SIZE..HEADER_SIZE + plen]))
  }

  lemma U16RoundTrip(v: nat, before: seq<Byte>, after: seq<Byte>)
    requires v < 0x1_0000
    ensures GetU16(before + PutU16(v) + after, |before|) == v
  {
  }

  lemma U32RoundTrip(v: nat, before: seq<Byte>, after: seq<Byte>)
    requires v < 0x1_0000_0000
    ensures GetU32(before + PutU32(v) + after, |before|) == v
  {
    var b := before + PutU32(v) + after;
    var hi, lo := PutU16(v / 0x1_0000), PutU16(v % 0x1_0000);
    assert b == before + hi + (lo + after);
    assert b == (before + hi) + lo + after;
    U16RoundTrip(v / 0x1_0000, before, lo + after);
    U16RoundTrip(v % 0x1_0000, before + hi, after);
  }

  lemma HeaderRoundTrip(typ: Byte, flags: nat, sid: nat, len: nat, rest: seq<Byte>)
    requires flags < 0x1_0000 && sid < 0x1_0000_0000 && len < 0x1_0000_0000
    ensures var b := Header(typ, flags, sid, len) + rest;
      b[0] == VERSION && b[1] == typ && GetU16(b, 2) == flags && GetU32(b, 4) == sid && GetU32(b, 8) == len
  {
    var b := Header(typ, flags, sid, len) + rest;
    assert b == [VERSION, typ] + PutU16(flags) + (PutU32(sid) + PutU32(len) + rest);
    U16RoundTrip(flags, [VERSION, typ], PutU32(sid) + PutU32(len) + rest);
    assert b == ([VERSION, typ] + PutU16(flags)) + PutU32(sid) + (PutU32(len) + rest);
    U32RoundTrip(sid, [VERSION, typ] + PutU16(flags), PutU32(len) + rest);
    assert b == ([VERSION, typ] + PutU16(flags) + PutU32(sid)) + PutU32(len) + rest;
    U32RoundTrip(len, [VERSION, typ] + PutU16(flags) + PutU32(sid), rest);
  }

  /** Each field of the header, most significant byte first. */
  lemma HeaderLayout(f: Frame)
    requires f.Valid()
    ensures var b := Encode(f);
      && b[0] == 0 && b[1] == f.typ
      && (b[2] as int) * 0x100 + b[3] == f.flags
      && (b[4] as int) * 0x100_0000 + (b[5] as int) * 0x1_0000 + (b[6] as int) * 0x100 + b[7] == f.sid
      && (b[8] as int) * 0x100_0000 + (b[9] as int) * 0x1_0000 + (b[10] as int) * 0x100 + b[11] == |f.payload|
      && b[12..] == f.payload
  {
    HeaderRoundTrip(f.typ, f.flags, f.sid, |f.payload|, f.payload);
  }

  /** A frame sent is the frame parsed, whatever follows it. */
  lemma ParseInvertsEncode(f: Frame, rest: seq<Byte>)
    requires f.Valid()
    ensures ParseOne(Encode(f) + rest) == Got(f)
  {
    HeaderRoundTrip(f.typ, f.flags, f.sid, |f.payload|, f.payload + rest);
    assert Encode(f) + rest == Header(f.typ, f.flags, f.sid, |f.payload|) + (f.payload + rest);
  }

  lemma PutInvertsGet16(b: seq<Byte>, at: nat)
    requires at + 2 <= |b|
    ensures PutU16(GetU16(b, at)) == b[at..at + 2]
  {
    assert b[at..at + 2] == [b[at], b[at + 1]];
  }

  lemma PutInvertsGet32(b: seq<Byte>, at: nat)
    requires at + 4 <= |b|
    ensures PutU32(GetU32(b, at)) == b[at..at + 4]
  {
    PutInvertsGet16(b, at);
    PutInvertsGet16(b, at + 2);
    assert b[at..at + 4] == b[at..at + 2] + b[at + 2..at + 4];
  }

  lemma PutInvertsGet(b: seq<Byte>)
    requires |b| >= HEADER_SIZE && b[0] == VERSION
    ensures Header(b[1], GetU16(b, 2), GetU32(b, 4), GetU32(b, 8)) == b[..HEADER_SIZE]
  {
    PutInvertsGet16(b, 2);
    PutInvertsGet32(b, 4);
    PutInvertsGet32(b, 8);
    assert b[..HEADER_SIZE] == [b[0], b[1]] + b[2..4] + b[4..8] + b[8..12];
  }

  /** A frame parsed is, byte for byte, the front of the buffer. */
  lemma EncodeInvertsParse(buf: seq<Byte>)
    requires ParseOne(buf).Got?
    ensures var f := ParseOne(buf).frame;
      Encode(f) == buf[..HEADER_SIZE + |f.payload|]
  {
    PutInvertsGet(buf);
  }

  /** An incomplete frame: no proper prefix of an encoded frame parses, nor is it taken for a bad one. */
  lemma PrefixNeedsMore(f: Frame, k: nat)
    requires f.Valid() && k < |Encode(f)|
    ensures ParseOne(Encode(f)[..k]) == NeedMore
  {
    if k >= HEADER_SIZE {
      HeaderRoundTrip(f.typ, f.flags, f.sid, |f.payload|, f.payload);
      HeaderRoundTrip(f.typ, f.flags, f.sid, |f.payload|, f.payload[..k - HEADER_SIZE]);
      assert Encode(f)[..k] == Header(f.typ, f.flags, f.sid, |f.payload|) + f.payload[..k - HEADER_SIZE];
    }
  }
}
