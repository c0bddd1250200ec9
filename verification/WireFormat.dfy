/**
 What is on the wire and on disk, number by number: payload fields, requests, listing texts and log
 timestamps, told without the functions that write and read them.
 */
module WireFormat {
  import opened Wrappers
  import opened Bytes
  import opened FtpProtocol
  import opened FtpServer
  import opened Transport
  import BurstRead
  import Upload
  import DirectoryListing
  import Listing
  import Tlog

  function TwoBytes(low: int, high: int): int {
    low + 0x100 * high
  }

  function FourBytes(lowest: int, low: int, high: int, highest: int): int {
    lowest + 0x100 * low + 0x1_0000 * high + 0x100_0000 * highest
  }

  // ---- FTP payloads ----

  /** Header fields stand at fixed bytes, the multi-byte ones with the low byte first. */
  lemma PayloadLayout(p: FtpPayload)
    ensures var b := Encoded(p);
            && TwoBytes(b[0], b[1]) == p.seqNumber
            && b[2] == p.session && b[3] == p.opcode && b[4] == p.size && b[5] == p.reqOpcode
            && b[6] == p.burstComplete && b[7] == 0
            && FourBytes(b[8], b[9], b[10], b[11]) == p.offset
    ensures forall i :: 0 <= i < 239 ==> Encoded(p)[12 + i] == if i < |p.data| then p.data[i] else 0
  {
    HeaderBytes(p);
    Le16Inverse(p.seqNumber);
    Le32Inverse(p.offset);
    var b := Encoded(p);
    assert forall i :: 8 <= i < 12 ==> b[i] == b[8..12][i - 8];
  }

  /** The same fields, read back. */
  lemma FieldsAreRead(b: seq<U8>)
    requires |b| == 251 && Decoded(b).Some?
    ensures var p := Decoded(b).value;
            && p.seqNumber == TwoBytes(b[0], b[1])
            && p.session == b[2] && p.opcode == b[3] && p.size == b[4] && p.reqOpcode == b[5]
            && p.burstComplete == b[6]
            && p.offset == FourBytes(b[8], b[9], b[10], b[11])
            && p.data == b[12..12 + Min(b[4], 239)]
  {
  }

  // ---- Requests ----

  function Request(number: U16, session: U8, opcode: FtpOpcode, size: U8, offset: U32, data: seq<U8>): FtpPayload {
    FtpPayload(number, session, opcode, size, 0, 0, offset, data)
  }

  /** Each operation's requests: their opcodes, and where session, offset, path and data go. */
  lemma RequestsExactly(l: Link, target: Target, number: U16, session: U8, path: Path, offset: U32, chunk: seq<U8>)
    requires |chunk| <= 239
    ensures ResetCall(l, target) == Call(Draw(l).1, target, Request(Draw(l).0, 0, 2, 0, 0, []))
    ensures TerminateCall(l, target, session) == Call(Draw(l).1, target, Request(Draw(l).0, session, 1, 0, 0, []))
    ensures DirectoryListing.ListRequest(number, path, offset) == Request(number, 0, 3, |path| % 0x100, offset, path)
    ensures PathRequest(OPEN_FILE_RO, number, path) == Request(number, 0, 4, |path| % 0x100, 0, path)
    ensures PathRequest(CREATE_FILE, number, path) == Request(number, 0, 6, |path| % 0x100, 0, path)
    ensures Upload.WriteRequest(number, session, offset, chunk) == Request(number, session, 7, |chunk|, offset, chunk)
    ensures BurstRead.BurstRequest(number, session, offset) == Request(number, session, 15, 239, offset, [])
  {
    hide Call;
  }

  // ---- Listing texts ----

  /** A text is an entry exactly when it starts with D, F or S. */
  lemma EntriesExactly(text: seq<U8>)
    ensures Listing.ParseEntry(text).Some? <==>
              text != [] && (text[0] == 'D' as int || text[0] == 'F' as int || text[0] == 'S' as int)
  {
  }

  lemma DirectoryText(name: seq<U8>)
    ensures Listing.ParseEntry(['D' as int] + name) == Some(Listing.ListingEntry(Listing.Directory, name, None))
    ensures Listing.ParseEntry(['S' as int] + name) == Some(Listing.ListingEntry(Listing.Skip, name, None))
  {
    assert (['D' as int] + name)[1..] == name && (['S' as int] + name)[1..] == name;
  }

  /** A file's name goes up to the first tab; what is behind it is the size, if it is a number. */
  lemma FileText(name: seq<U8>, size: seq<U8>)
    requires '\t' as int !in name
    ensures Listing.ParseEntry(['F' as int] + name) == Some(Listing.ListingEntry(Listing.File, name, None))
    ensures Listing.ParseEntry(['F' as int] + name + ['\t' as int] + size)
         == Some(Listing.ListingEntry(Listing.File, name, Listing.ParseU64(size)))
  {
    assert (['F' as int] + name)[1..] == name;
    Listing.IndexOfUnique(name, Listing.TAB, |name|);
    var rest := name + ['\t' as int] + size;
    assert (['F' as int] + name + ['\t' as int] + size)[1..] == rest;
    assert forall i :: 0 <= i < |name| ==> rest[i] == name[i];
    Listing.IndexOfUnique(rest, Listing.TAB, |name|);
    assert rest[..|name|] == name && rest[|name| + 1..] == size;
  }

  /** A size is a run of digits below 2^64, in front of it at most one plus sign. */
  lemma SizesExactly(size: seq<U8>)
    ensures Listing.ParseU64(size).Some? ==>
              && Listing.ParseU64(size).value < 0x1_0000_0000_0000_0000
              && forall i :: 0 <= i < |size| ==>
                   '0' as int <= size[i] <= '9' as int || (i == 0 && size[0] == '+' as int)
  {
    if Listing.ParseU64(size).Some? {
      var digits := if |size| > 1 && size[0] == '+' as int then size[1..] else size;
      DigitsOnly(digits);
      assert forall i :: 0 < i < |size| && digits != size ==> size[i] == digits[i - 1];
    }
  }

  lemma {:induction false} DigitsOnly(s: seq<U8>)
    requires Listing.DigitsValue(s).Some?
    ensures forall i :: 0 <= i < |s| ==> '0' as int <= s[i] <= '9' as int
    decreases |s|
  {
    if s != [] {
      DigitsOnly(s[..|s| - 1]);
      assert forall i :: 0 <= i < |s| - 1 ==> s[i] == s[..|s| - 1][i];
    }
  }

  /** A number is read back whatever its size, and is no size from 2^64 on; a plus sign changes nothing. */
  lemma SizesAreRead(n: nat)
    ensures var digits := Listing.PrintNat(n);
            && Listing.ParseU64(digits) == (if n < 0x1_0000_0000_0000_0000 then Some(n) else None)
            && Listing.ParseU64(['+' as int] + digits) == Listing.ParseU64(digits)
  {
    var digits := Listing.PrintNat(n);
    assert digits[0] in digits;
    assert (['+' as int] + digits)[1..] == digits;
  }

  // ---- Log timestamps ----

  lemma FromBeLast(s: seq<U8>)
    requires s != []
    ensures Tlog.FromBe(s) == 0x100 * Tlog.FromBe(s[..|s| - 1]) + s[|s| - 1]
  {
  }

  /** The eight bytes before a record's frame are its time, the highest byte first. */
  lemma TimestampLayout(b: seq<U8>)
    requires |b| == 8
    ensures Tlog.Timestamp(b)
         == 0x1_0000_0000 * FourBytes(b[3], b[2], b[1], b[0]) + FourBytes(b[7], b[6], b[5], b[4])
  {
    hide Tlog.FromBe;
    FromBeLast(b);
    FromBeLast(b[..7]);
    FromBeLast(b[..6]);
    FromBeLast(b[..5]);
    FromBeLast(b[..4]);
    FromBeLast(b[..3]);
    FromBeLast(b[..2]);
    FromBeLast(b[..1]);
    FromBeNone();
    assert b[..7][..6] == b[..6] && b[..6][..5] == b[..5] && b[..5][..4] == b[..4] && b[..4][..3] == b[..3];
    assert b[..3][..2] == b[..2] && b[..2][..1] == b[..1] && b[..1][..0] == [];
  }

  lemma FromBeNone()
    ensures Tlog.FromBe([]) == 0
  {
  }

  /** A record of a log: eight bytes of time, and the frame behind them. */
  lemma RecordLayout(r: Tlog.Record)
    ensures var b := Tlog.WrittenRecord(r);
            && |b| == 8 + |r.packet| && b[8..] == r.packet
            && 0x1_0000_0000 * FourBytes(b[3], b[2], b[1], b[0]) + FourBytes(b[7], b[6], b[5], b[4])
               == r.timestamp
  {
    hide Tlog.Be;
    var time := Tlog.Be(r.timestamp, 8);
    Tlog.TimestampInverse(r.timestamp);
    TimestampLayout(time);
    assert Tlog.WrittenRecord(r)[..8] == time;
    assert forall i :: 0 <= i < 8 ==> Tlog.WrittenRecord(r)[i] == time[i];
  }
}
