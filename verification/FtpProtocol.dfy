/** The FTP payload, its 251-byte wire layout, and NAK decoding (mavftp/protocol.rs). */
module FtpProtocol {
  import opened Wrappers
  import opened Bytes

  const FTP_HEADER_LEN := 12
  const FTP_MESSAGE_PAYLOAD := 251
  const FTP_DATA_MAX_LEN := 239

  predicate IsOpcode(b: U8) {
    b <= 15 || b == 128 || b == 129
  }

  /** An opcode is its `u8` representation. */
  type FtpOpcode = b: U8 | IsOpcode(b)

  const NO_OPCODE: FtpOpcode := 0
  const TERMINATE_SESSION: FtpOpcode := 1
  const RESET_SESSIONS: FtpOpcode := 2
  const LIST_DIRECTORY: FtpOpcode := 3
  const OPEN_FILE_RO: FtpOpcode := 4
  const READ_FILE: FtpOpcode := 5
  const CREATE_FILE: FtpOpcode := 6
  const WRITE_FILE: FtpOpcode := 7
  const BURST_READ_FILE: FtpOpcode := 15
  const ACK: FtpOpcode := 128
  const NAK: FtpOpcode := 129

  function OpcodeFromByte(b: U8): Option<FtpOpcode> {
    if IsOpcode(b) then Some(b) else None
  }

  /** An error code is its `u8` representation. */
  type FtpError = b: U8 | b <= 10

  const FAIL: FtpError := 1
  const FAIL_ERRNO: FtpError := 2
  const INVALID_SESSION: FtpError := 4
  const EOF: FtpError := 6
  const UNKNOWN_COMMAND: FtpError := 7
  const FILE_NOT_FOUND: FtpError := 10

  function ErrorFromByte(b: U8): Option<FtpError> {
    if b <= 10 then Some(b) else None
  }

  datatype FtpNakError = FtpNakError(errCode: FtpError, errno: Option<U8>)

  datatype FtpPayload = FtpPayload(
    seqNumber: U16,
    session: U8,
    opcode: FtpOpcode,
    size: U8,
    reqOpcode: FtpOpcode,
    burstComplete: U8,
    offset: U32,
    data: seq<U8>)

  function NewRequest(opcode: FtpOpcode, seqNumber: U16): FtpPayload {
    FtpPayload(seqNumber, 0, opcode, 0, NO_OPCODE, 0, 0, [])
  }

  function CheckNak(resp: FtpPayload): Option<FtpNakError> {
    if resp.opcode != NAK then None
    else
      var errCode :=
        if resp.data == [] then FAIL
        else match ErrorFromByte(resp.data[0]) case Some(e) => e case None => FAIL;
      var errno := if errCode == FAIL_ERRNO && |resp.data| > 1 then Some(resp.data[1]) else None;
      Some(FtpNakError(errCode, errno))
  }

  /** The twelve header bytes of a payload; byte 7 is padding. */
  function Header(p: FtpPayload): (h: seq<U8>)
    ensures |h| == FTP_HEADER_LEN
  {
    Le16(p.seqNumber)
    + [p.session, p.opcode, p.size, p.reqOpcode, p.burstComplete, 0]
    + Le32(p.offset)
  }

  /** What `Encode` puts on the wire. */
  function Encoded(p: FtpPayload): (b: seq<U8>)
    ensures |b| == FTP_MESSAGE_PAYLOAD
  {
    var copyLen := Min(|p.data|, FTP_DATA_MAX_LEN);
    Header(p) + p.data[..copyLen] + Zeros(FTP_DATA_MAX_LEN - copyLen)
  }

  /** What `Decode` makes of a 251-byte payload. */
  function Decoded(b: seq<U8>): Option<FtpPayload>
    requires |b| == FTP_MESSAGE_PAYLOAD
  {
    var opcode, reqOpcode := OpcodeFromByte(b[3]), OpcodeFromByte(b[5]);
    if opcode.None? || reqOpcode.None? then None
    else
      var dataLen := Min(b[4], FTP_DATA_MAX_LEN);
      Some(FtpPayload(
        FromLe16(b[0], b[1]), b[2], opcode.value, b[4], reqOpcode.value, b[6],
        FromLe32(b[8], b[9], b[10], b[11]), b[FTP_HEADER_LEN..FTP_HEADER_LEN + dataLen]))
  }

  /** The data a receiver sees: zero-extended, then cut to the declared size and to 239 bytes. */
  function NormalData(p: FtpPayload): (d: seq<U8>)
    ensures |d| == Min(p.size, FTP_DATA_MAX_LEN)
    ensures forall i :: 0 <= i < |d| ==> d[i] == if i < |p.data| then p.data[i] else 0
  {
    (p.data + Zeros(FTP_DATA_MAX_LEN))[..Min(p.size, FTP_DATA_MAX_LEN)]
  }

  function Normalized(p: FtpPayload): FtpPayload {
    p.(data := NormalData(p))
  }

  /** A payload whose declared size is the length of its data, and fits. */
  predicate WellFormed(p: FtpPayload) {
    p.size == |p.data| <= FTP_DATA_MAX_LEN
  }

  lemma HeaderBytes(p: FtpPayload)
    ensures var b := Encoded(p);
            && b[0] == Le16(p.seqNumber)[0] && b[1] == Le16(p.seqNumber)[1]
            && b[2] == p.session && b[3] == p.opcode && b[4] == p.size
            && b[5] == p.reqOpcode && b[6] == p.burstComplete && b[7] == 0
            && b[8..12] == Le32(p.offset)
    ensures forall i :: 12 <= i < FTP_MESSAGE_PAYLOAD ==>
              Encoded(p)[i] == if i - 12 < |p.data| then p.data[i - 12] else 0
  {
    var h := Header(p);
    var b := Encoded(p);
    assert b[..12] == h;
    assert forall i :: 0 <= i < 12 ==> b[i] == h[i];
  }

  lemma DecodeEncode(p: FtpPayload)
    ensures Decoded(Encoded(p)) == Some(Normalized(p))
    ensures WellFormed(p) ==> Normalized(p) == p
  {
    HeaderBytes(p);
    Le16Inverse(p.seqNumber);
    Le32Inverse(p.offset);
    var b := Encoded(p);
    assert forall i :: 8 <= i < 12 ==> b[i] == b[8..12][i - 8];
    var n := Min(p.size, FTP_DATA_MAX_LEN);
    assert b[FTP_HEADER_LEN..FTP_HEADER_LEN + n] == NormalData(p);
    if WellFormed(p) {
      assert NormalData(p) == p.data;
    }
  }

  /** The canonical form of a wire image: padding and everything past the data are zero. */
  function Canonical(b: seq<U8>): (c: seq<U8>)
    requires |b| == FTP_MESSAGE_PAYLOAD
    ensures |c| == FTP_MESSAGE_PAYLOAD
  {
    seq(FTP_MESSAGE_PAYLOAD, i requires 0 <= i < FTP_MESSAGE_PAYLOAD =>
      if i == 7 || i >= FTP_HEADER_LEN + Min(b[4], FTP_DATA_MAX_LEN) then 0 else b[i])
  }

  lemma EncodeDecode(b: seq<U8>)
    requires |b| == FTP_MESSAGE_PAYLOAD
    requires Decoded(b).Some?
    ensures Encoded(Decoded(b).value) == Canonical(b)
  {
    var p := Decoded(b).value;
    HeaderBytes(p);
    FromLe16Inverse(b[0], b[1]);
    FromLe32Inverse(b[8], b[9], b[10], b[11]);
    var e := Encoded(p);
    assert forall i :: 8 <= i < 12 ==> e[i] == e[8..12][i - 8];
    forall i | 0 <= i < FTP_MESSAGE_PAYLOAD
      ensures e[i] == Canonical(b)[i]
    {
    }
  }

  lemma DecodeFailsExactly(b: seq<U8>)
    requires |b| == FTP_MESSAGE_PAYLOAD
    ensures Decoded(b).None? <==> !IsOpcode(b[3]) || !IsOpcode(b[5])
  {
  }

  /** A cursor that writes through a fixed buffer. */
  class WriteCursor {
    const buf: array<U8>
    var pos: nat

    constructor (buf: array<U8>)
      ensures this.buf == buf && pos == 0
    {
      this.buf := buf;
      pos := 0;
    }

    method WriteU8(b: U8)
      requires pos < buf.Length
      modifies this`pos, buf
      ensures pos == old(pos) + 1
      ensures buf[..pos] == old(buf[..pos]) + [b]
      ensures forall i :: pos <= i < buf.Length ==> buf[i] == old(buf[i])
    {
      buf[pos] := b;
      pos := pos + 1;
    }

    method WriteAll(s: seq<U8>)
      requires pos + |s| <= buf.Length
      modifies this`pos, buf
      ensures pos == old(pos) + |s|
      ensures buf[..pos] == old(buf[..pos]) + s
      ensures forall i :: pos <= i < buf.Length ==> buf[i] == old(buf[i])
    {
      forall i | 0 <= i < |s| {
        buf[pos + i] := s[i];
      }
      pos := pos + |s|;
    }
  }

  /** The seven fields before the padding byte, then the padding, then the offset. */
  method EncodeHeader(p: FtpPayload, cursor: WriteCursor)
    requires cursor.pos == 0 && cursor.buf.Length == FTP_MESSAGE_PAYLOAD
    modifies cursor`pos, cursor.buf
    ensures cursor.pos == FTP_HEADER_LEN && cursor.buf[..FTP_HEADER_LEN] == Header(p)
    ensures forall i :: FTP_HEADER_LEN <= i < cursor.buf.Length ==> cursor.buf[i] == old(cursor.buf[i])
  {
    hide Le16, Le32;
    cursor.WriteAll(Le16(p.seqNumber));
    cursor.WriteU8(p.session);
    cursor.WriteU8(p.opcode);
    cursor.WriteU8(p.size);
    assert cursor.buf[..cursor.pos] == Le16(p.seqNumber) + [p.session, p.opcode, p.size];
    cursor.WriteU8(p.reqOpcode);
    cursor.WriteU8(p.burstComplete);
    cursor.WriteU8(0);
    cursor.WriteAll(Le32(p.offset));
  }

  method Encode(p: FtpPayload) returns (bytes: seq<U8>)
    ensures bytes == Encoded(p)
  {
    var buf := new U8[FTP_MESSAGE_PAYLOAD](_ => 0);
    var cursor := new WriteCursor(buf);
    EncodeHeader(p, cursor);
    var copyLen := Min(|p.data|, FTP_DATA_MAX_LEN);
    cursor.WriteAll(p.data[..copyLen]);
    assert buf[..FTP_HEADER_LEN + copyLen] == Header(p) + p.data[..copyLen];
    bytes := buf[..];
    assert bytes == bytes[..FTP_HEADER_LEN + copyLen] + bytes[FTP_HEADER_LEN + copyLen..];
  }

  /** A cursor that reads through a fixed payload. */
  class ReadCursor {
    const bytes: seq<U8>
    var pos: nat

    constructor (bytes: seq<U8>)
      ensures this.bytes == bytes && pos == 0
    {
      this.bytes := bytes;
      pos := 0;
    }

    method ReadU8() returns (b: U8)
      requires pos < |bytes|
      modifies this`pos
      ensures pos == old(pos) + 1 && b == bytes[old(pos)]
    {
      b := bytes[pos];
      pos := pos + 1;
    }

    method ReadU16() returns (x: U16)
      requires pos + 2 <= |bytes|
      modifies this`pos
      ensures pos == old(pos) + 2 && x == FromLe16(bytes[old(pos)], bytes[old(pos) + 1])
    {
      x := FromLe16(bytes[pos], bytes[pos + 1]);
      pos := pos + 2;
    }

    method ReadU32() returns (x: U32)
      requires pos + 4 <= |bytes|
      modifies this`pos
      ensures pos == old(pos) + 4
      ensures x == FromLe32(bytes[pos - 4], bytes[pos - 3], bytes[pos - 2], bytes[pos - 1])
    {
      x := FromLe32(bytes[pos], bytes[pos + 1], bytes[pos + 2], bytes[pos + 3]);
      pos := pos + 4;
    }
  }

  method Decode(payload: seq<U8>) returns (r: Option<FtpPayload>)
    requires |payload| == FTP_MESSAGE_PAYLOAD
    ensures r == Decoded(payload)
  {
    var cursor := new ReadCursor(payload);
    var seqNumber := cursor.ReadU16();
    var session := cursor.ReadU8();
    var opcodeByte := cursor.ReadU8();
    var opcode := OpcodeFromByte(opcodeByte);
    if opcode.None? {
      return None;
    }
    var size := cursor.ReadU8();
    var reqOpcodeByte := cursor.ReadU8();
    var reqOpcode := OpcodeFromByte(reqOpcodeByte);
    if reqOpcode.None? {
      return None;
    }
    var burstComplete := cursor.ReadU8();
    var _ := cursor.ReadU8();
    var offset := cursor.ReadU32();
    var dataLen := Min(size, FTP_DATA_MAX_LEN);
    var data := payload[FTP_HEADER_LEN..FTP_HEADER_LEN + dataLen];
    r := Some(FtpPayload(seqNumber, session, opcode.value, size, reqOpcode.value, burstComplete, offset, data));
  }
}
