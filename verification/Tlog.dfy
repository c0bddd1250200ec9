/**
 Telemetry logs: the record format the writer produces (tlog/writer.rs) and the reader that scans
 it, skipping what it cannot use (tlog/reader.rs).
 */
module Tlog {
  import opened Wrappers
  import opened Bytes

  const STX: U8 := 0xFD
  const HEADER_LEN := 10

  datatype Record = Record(timestamp: U64, packet: seq<U8>)

  // ---- Big-endian timestamps ----

  function Be(x: nat, n: nat): (s: seq<U8>)
    ensures |s| == n
  {
    if n == 0 then [] else Be(x / 0x100, n - 1) + [x % 0x100]
  }

  function FromBe(s: seq<U8>): nat {
    if s == [] then 0 else 0x100 * FromBe(s[..|s| - 1]) + s[|s| - 1]
  }

  function Pow256(n: nat): nat {
    if n == 0 then 1 else 0x100 * Pow256(n - 1)
  }

  lemma {:induction false} BeInverse(x: nat, n: nat)
    requires x < Pow256(n)
    ensures FromBe(Be(x, n)) == x
  {
    if n > 0 {
      BeInverse(x / 0x100, n - 1);
      assert Be(x, n)[..n - 1] == Be(x / 0x100, n - 1);
    }
  }

  lemma {:induction false} FromBeBound(s: seq<U8>)
    ensures FromBe(s) < Pow256(|s|)
  {
    if s != [] {
      FromBeBound(s[..|s| - 1]);
    }
  }

  lemma Pow256Of8()
    ensures Pow256(8) == 0x1_0000_0000_0000_0000
  {
    assert Pow256(4) == 0x1_0000_0000;
    assert Pow256(6) == 0x1_0000_0000_0000;
  }

  function Timestamp(bytes: seq<U8>): U64
    requires |bytes| == 8
  {
    FromBeBound(bytes);
    Pow256Of8();
    FromBe(bytes)
  }

  lemma TimestampInverse(t: U64)
    ensures Timestamp(Be(t, 8)) == t
  {
    Pow256Of8();
    BeInverse(t, 8);
  }

  // ---- MAVLink 2 frames ----

  /** The length a MAVLink 2 header announces: payload, checksum, and a signature when flagged. */
  function PacketLength(header: seq<U8>): nat
    requires |header| >= 3
  {
    HEADER_LEN + header[1] + 2 + (if header[2] % 2 == 1 then 13 else 0)
  }

  predicate Framed(packet: seq<U8>) {
    |packet| >= HEADER_LEN && packet[0] == STX && |packet| == PacketLength(packet)
  }

  /** What the library needs to accept a frame: known flags and a right checksum. */
  type Validity = seq<U8> -> bool

  /** Which microsecond timestamps are dates. */
  type Dates = U64 -> bool

  datatype LibraryRead = ReadOk(packet: seq<U8>, rest: seq<U8>) | ReadError(rest: seq<U8>)

  /**
   The library's read: looks for a magic byte, peeks at the frame behind it, and returns it when
   valid. It consumes what it skips and the magic byte, and leaves the frame to the caller.
   */
  function LibraryReads(valid: Validity, data: seq<U8>): (r: LibraryRead)
    ensures |r.rest| <= |data| && (data != [] ==> |r.rest| < |data|)
    ensures r.ReadOk? ==> Framed(r.packet) && |r.packet| <= |r.rest| + 1
    decreases |data|
  {
    if data == [] then ReadError([])
    else if data[0] != STX then LibraryReads(valid, data[1..])
    else if |data| < HEADER_LEN || |data| < PacketLength(data) then ReadError(data[1..])
    else if valid(data[..PacketLength(data)]) then ReadOk(data[..PacketLength(data)], data[1..])
    else LibraryReads(valid, data[1..])
  }

  // ---- The reader ----

  /** The messages of one pass over the data, until it runs out. */
  function Scan(valid: Validity, isDate: Dates, data: seq<U8>): seq<Record>
    decreases |data|
  {
    if |data| < 9 then []
    else if data[8] != STX then Scan(valid, isDate, data[1..])
    else if !isDate(Timestamp(data[..8])) then Scan(valid, isDate, data[1..])
    else
      match LibraryReads(valid, data[8..])
      case ReadError(rest) => Scan(valid, isDate, rest)
      case ReadOk(packet, rest) =>
        [Record(Timestamp(data[..8]), packet)] + Scan(valid, isDate, rest[|packet| - 1..])
  }

  class PeekReader {
    var bytes: seq<U8>

    constructor (bytes: seq<U8>)
      ensures this.bytes == bytes
    {
      this.bytes := bytes;
    }

    method PeekExact(n: nat) returns (r: Option<seq<U8>>)
      ensures r == if n <= |bytes| then Some(bytes[..n]) else None
    {
      r := if n <= |bytes| then Some(bytes[..n]) else None;
    }

    method Consume(n: nat)
      requires n <= |bytes|
      modifies this
      ensures bytes == old(bytes)[n..]
    {
      bytes := bytes[n..];
    }

    /** The library's read; not the repository's code. */
    method ReadV2(valid: Validity) returns (r: Option<seq<U8>>)
      modifies this
      ensures match LibraryReads(valid, old(bytes))
              case ReadOk(packet, rest) => r == Some(packet) && bytes == rest
              case ReadError(rest) => r == None && bytes == rest
    {
      match LibraryReads(valid, bytes)
      case ReadOk(packet, rest) => r, bytes := Some(packet), rest;
      case ReadError(rest) => r, bytes := None, rest;
    }
  }

  /** A byte that starts no record is skipped. */
  lemma ScanSkips(valid: Validity, isDate: Dates, data: seq<U8>)
    requires |data| >= 9 && (data[8] != STX || !isDate(Timestamp(data[..8])))
    ensures Scan(valid, isDate, data) == Scan(valid, isDate, data[1..])
  {
    hide Timestamp;
  }

  /** Behind a timestamp that is a date, the scan goes on where the library's read and the skip leave it. */
  lemma ScanReads(valid: Validity, isDate: Dates, data: seq<U8>)
    requires |data| >= 9 && data[8] == STX && isDate(Timestamp(data[..8]))
    ensures match LibraryReads(valid, data[8..])
            case ReadError(rest) => Scan(valid, isDate, data) == Scan(valid, isDate, rest)
            case ReadOk(packet, rest) =>
              Scan(valid, isDate, data)
                == [Record(Timestamp(data[..8]), packet)] + Scan(valid, isDate, rest[|packet| - 1..])
  {
    hide Timestamp, LibraryReads;
  }

  /** What the input callbacks say of the n-th message read: whether none refuses it. */
  type Callbacks = nat -> bool

  /** The records no callback refuses. */
  function Kept(records: seq<Record>, allowed: Callbacks): seq<Record> {
    if records == [] then []
    else
      var n := |records| - 1;
      Kept(records[..n], allowed) + (if allowed(n) then [records[n]] else [])
  }

  lemma KeptNone(allowed: Callbacks)
    ensures Kept([], allowed) == []
  {
  }

  lemma KeptNext(records: seq<Record>, allowed: Callbacks, r: Record)
    ensures Kept(records + [r], allowed)
         == if allowed(|records|) then Kept(records, allowed) + [r] else Kept(records, allowed)
  {
    assert (records + [r])[..|records|] == records;
  }

  /** When no callback refuses a record, all of them are kept. */
  lemma {:induction false} KeptAll(records: seq<Record>, allowed: Callbacks)
    requires forall n: nat :: allowed(n)
    ensures Kept(records, allowed) == records
    decreases |records|
  {
    if records != [] {
      KeptAll(records[..|records| - 1], allowed);
    }
  }

  /**
   `handle_file`: reads every record it finds, sends those no callback refuses, and fails when the
   file runs out.
   */
  method HandleFile(valid: Validity, isDate: Dates, allowed: Callbacks, reader: PeekReader)
    returns (sent: seq<Record>)
    modifies reader
    ensures sent == Kept(Scan(valid, isDate, old(reader.bytes)), allowed)
  {
    hide Timestamp, LibraryReads, Scan, Kept;
    ghost var all := Scan(valid, isDate, reader.bytes);
    sent := [];
    ghost var found: seq<Record> := [];
    var count: nat := 0;
    KeptNone(allowed);
    while true
      invariant found + Scan(valid, isDate, reader.bytes) == all && |found| == count
      invariant sent == Kept(found, allowed)
      decreases |reader.bytes|
    {
      var peeked := reader.PeekExact(9);
      while peeked.Some? && peeked.value[8] != STX
        invariant peeked == if 9 <= |reader.bytes| then Some(reader.bytes[..9]) else None
        invariant found + Scan(valid, isDate, reader.bytes) == all
        decreases |reader.bytes|
      {
        ScanSkips(valid, isDate, reader.bytes);
        reader.Consume(1);
        peeked := reader.PeekExact(9);
      }
      if peeked.None? {
        ScanEnds(valid, isDate, reader.bytes);
        assert found == all;
        return;
      }
      assert peeked.value[..8] == reader.bytes[..8];
      var time := Timestamp(peeked.value[..8]);
      if !isDate(time) {
        ScanSkips(valid, isDate, reader.bytes);
        reader.Consume(1);
        continue;
      }
      ScanReads(valid, isDate, reader.bytes);
      reader.Consume(8);
      var message := reader.ReadV2(valid);
      if message.None? {
        continue;
      }
      reader.Consume(|message.value| - 1);
      var record := Record(time, message.value);
      assert all == found + [record] + Scan(valid, isDate, reader.bytes);
      KeptNext(found, allowed, record);
      found := found + [record];
      if allowed(count) {
        sent := sent + [record];
      }
      count := count + 1;
    }
  }

  lemma ScanEnds(valid: Validity, isDate: Dates, data: seq<U8>)
    requires |data| < 9
    ensures Scan(valid, isDate, data) == []
  {
  }

  // ---- The writer's records ----

  function WrittenRecord(r: Record): seq<U8> {
    Be(r.timestamp, 8) + r.packet
  }

  function Written(records: seq<Record>): seq<U8> {
    if records == [] then [] else WrittenRecord(records[0]) + Written(records[1..])
  }

  /** A record the reader accepts: a valid frame and a timestamp that is a date. */
  predicate Good(valid: Validity, isDate: Dates, r: Record) {
    Framed(r.packet) && valid(r.packet) && isDate(r.timestamp)
  }

  predicate AllGood(valid: Validity, isDate: Dates, records: seq<Record>) {
    forall i :: 0 <= i < |records| ==> Good(valid, isDate, records[i])
  }

  lemma ReadsFrame(valid: Validity, packet: seq<U8>, more: seq<U8>)
    requires Framed(packet) && valid(packet)
    ensures LibraryReads(valid, packet + more) == ReadOk(packet, (packet + more)[1..])
    ensures (packet + more)[1..][|packet| - 1..] == more
  {
    assert PacketLength(packet + more) == PacketLength(packet);
    assert (packet + more)[..|packet|] == packet;
  }

  /** A reader at the start of a good record returns it and is then at the next. */
  lemma ScanRecord(valid: Validity, isDate: Dates, r: Record, more: seq<U8>)
    requires Good(valid, isDate, r)
    ensures Scan(valid, isDate, WrittenRecord(r) + more) == [r] + Scan(valid, isDate, more)
  {
    var data := WrittenRecord(r) + more;
    assert data[..8] == Be(r.timestamp, 8) && data[8..] == r.packet + more;
    TimestampInverse(r.timestamp);
    ReadsFrame(valid, r.packet, more);
  }

  /** Reading what was written gives the same records, whatever bytes follow. */
  lemma {:induction false} RoundTrip(valid: Validity, isDate: Dates, records: seq<Record>, more: seq<U8>)
    requires AllGood(valid, isDate, records)
    ensures Scan(valid, isDate, Written(records) + more) == records + Scan(valid, isDate, more)
    decreases |records|
  {
    hide Scan;
    if records == [] {
      assert Written(records) + more == more;
    } else {
      RoundTrip(valid, isDate, records[1..], more);
      ScanRecord(valid, isDate, records[0], Written(records[1..]) + more);
      assert records + Scan(valid, isDate, more) == [records[0]] + (records[1..] + Scan(valid, isDate, more));
      assert Written(records) + more == WrittenRecord(records[0]) + (Written(records[1..]) + more);
    }
  }

  /** Positions without a magic byte are skipped one by one. */
  lemma {:induction false} ScanSkipsTo(valid: Validity, isDate: Dates, data: seq<U8>, k: nat)
    requires 8 + k <= |data| && forall j :: 8 <= j < 8 + k ==> data[j] != STX
    ensures Scan(valid, isDate, data) == Scan(valid, isDate, data[k..])
    decreases k
  {
    hide Scan;
    if k > 0 {
      ScanSkips(valid, isDate, data);
      assert forall j :: 8 <= j < 8 + k - 1 ==> data[1..][j] == data[j + 1];
      ScanSkipsTo(valid, isDate, data[1..], k - 1);
      assert data[1..][k - 1..] == data[k..];
    }
  }

  /**
   Stray bytes before a record are skipped, losing nothing, when no magic byte is where the scan
   looks for one: behind the first eight bytes of the stray ones and the timestamp together.
   */
  lemma Resynchronizes(
      valid: Validity, isDate: Dates, garbage: seq<U8>, records: seq<Record>, more: seq<U8>)
    requires AllGood(valid, isDate, records) && records != []
    requires STX !in (garbage + Be(records[0].timestamp, 8))[8..]
    ensures Scan(valid, isDate, garbage + Written(records) + more) == records + Scan(valid, isDate, more)
  {
    hide Scan, Be;
    var data := garbage + Written(records) + more;
    var looked := garbage + Be(records[0].timestamp, 8);
    assert looked <= data;
    assert forall j :: 8 <= j < |looked| ==> looked[j] == looked[8..][j - 8];
    ScanSkipsTo(valid, isDate, data, |garbage|);
    assert data[|garbage|..] == Written(records) + more;
    RoundTrip(valid, isDate, records, more);
  }

  lemma {:induction false} ScanFits(valid: Validity, isDate: Dates, data: seq<U8>)
    ensures Scan(valid, isDate, data) != [] ==>
              |data| >= 8 + |Scan(valid, isDate, data)[0].packet|
    decreases |data|
  {
    if |data| >= 9 {
      if data[8] != STX || !isDate(Timestamp(data[..8])) {
        ScanFits(valid, isDate, data[1..]);
      } else {
        var r := LibraryReads(valid, data[8..]);
        if r.ReadError? {
          ScanFits(valid, isDate, r.rest);
        }
      }
    }
  }

  // ---- Exactly when stray bytes are harmless ----

  lemma {:induction false} FromBeZeros(k: nat, s: seq<U8>)
    ensures FromBe(Zeros(k) + s) == FromBe(s)
    decreases |s|, k
  {
    if s != [] {
      assert (Zeros(k) + s)[..k + |s| - 1] == Zeros(k) + s[..|s| - 1];
      FromBeZeros(k, s[..|s| - 1]);
    } else if k > 0 {
      assert Zeros(k) + s == Zeros(k) && Zeros(k)[..k - 1] == Zeros(k - 1) + s;
      FromBeZeros(k - 1, s);
    }
  }

  /** Leaving out a non-zero byte and all behind it makes the value smaller. */
  lemma {:induction false} FromBePrefix(s: seq<U8>, i: nat)
    requires i < |s| && s[i] > 0
    ensures FromBe(s[..i]) < FromBe(s)
    decreases |s|
  {
    if i < |s| - 1 {
      FromBePrefix(s[..|s| - 1], i);
      assert s[..|s| - 1][..i] == s[..i];
    }
  }

  /** What the reader takes for the time when `8 - i` zeros come before a timestamp whose byte i is magic. */
  function ShiftedTime(t: U64, i: nat): U64
    requires i <= 8
  {
    Timestamp(Zeros(8 - i) + Be(t, 8)[..i])
  }

  lemma {:induction false} Pow256Grows(a: nat, b: nat)
    requires a <= b
    ensures Pow256(a) <= Pow256(b)
  {
    if a < b {
      Pow256Grows(a, b - 1);
    }
  }

  lemma ShiftedIsEarlier(t: U64, i: nat)
    requires i < 8 && Be(t, 8)[i] == STX
    ensures ShiftedTime(t, i) < t && ShiftedTime(t, i) < 0x100_0000_0000_0000
  {
    hide Be;
    var s := Be(t, 8);
    FromBeZeros(8 - i, s[..i]);
    FromBePrefix(s, i);
    TimestampInverse(t);
    FromBeBound(s[..i]);
    Pow256Grows(i, 7);
    Pow256Of8();
  }

  /**
   A record whose timestamp has a magic byte is lost, or comes back with another time, behind
   just as many zeros as it takes to move that byte to where the scan looks first.
   */
  lemma MagicInTimestampConfuses(valid: Validity, isDate: Dates, r: Record, i: nat)
    requires Good(valid, isDate, r) && i < 8 && Be(r.timestamp, 8)[i] == STX
    requires isDate(ShiftedTime(r.timestamp, i))
    ensures Scan(valid, isDate, Zeros(8 - i) + WrittenRecord(r)) != [r]
  {
    hide Be, Scan, LibraryReads, Timestamp;
    var data := Zeros(8 - i) + WrittenRecord(r);
    assert data[..8] == Zeros(8 - i) + Be(r.timestamp, 8)[..i];
    assert data[8] == Be(r.timestamp, 8)[i];
    ShiftedIsEarlier(r.timestamp, i);
    ScanReads(valid, isDate, data);
    var read := LibraryReads(valid, data[8..]);
    if read.ReadError? {
      ScanFits(valid, isDate, read.rest);
      assert |read.rest| < |data| - 8;
    } else {
      assert Scan(valid, isDate, data)[0].timestamp == ShiftedTime(r.timestamp, i);
    }
  }

  /** For one: the time 0xFD behind a single zero byte. */
  lemma StrayZeroConfuses(valid: Validity, isDate: Dates, r: Record)
    requires Good(valid, isDate, r) && r.timestamp == 0xFD && isDate(0)
    ensures Scan(valid, isDate, [0] + WrittenRecord(r)) != [r]
  {
    hide Scan;
    assert Be(0xFD, 8) == Be(0, 7) + [STX];
    assert Be(0xFD, 8)[..7] == Be(0, 7);
    FromBeZeros(1, Be(0, 7));
    BeInverse(0, 7);
    MagicInTimestampConfuses(valid, isDate, r, 7);
    assert Zeros(1) == [0];
  }

  /** Any `strays` bytes without a magic byte before the record are skipped, losing nothing. */
  ghost predicate SkipsStrays(valid: Validity, isDate: Dates, r: Record, strays: nat) {
    forall garbage: seq<U8>, more: seq<U8> | |garbage| == strays && STX !in garbage ::
      Scan(valid, isDate, garbage + WrittenRecord(r) + more) == [r] + Scan(valid, isDate, more)
  }

  lemma MagicMisleads(valid: Validity, isDate: Dates, r: Record, strays: nat, i: nat)
    requires Good(valid, isDate, r) && i < 8 && Be(r.timestamp, 8)[i] == STX && i + strays >= 8
    requires forall j :: 8 - strays <= j < i && 0 <= j ==> Be(r.timestamp, 8)[j] != STX
    requires isDate(ShiftedTime(r.timestamp, i))
    ensures !SkipsStrays(valid, isDate, r, strays)
  {
    hide Be, Scan;
    var k := i + strays - 8;
    var data := Zeros(strays) + WrittenRecord(r);
    ScanSkipsTo(valid, isDate, data, k);
    assert data[k..] == Zeros(8 - i) + WrittenRecord(r);
    MagicInTimestampConfuses(valid, isDate, r, i);
    assert data + [] == data;
    ScanEnds(valid, isDate, []);
    assert Scan(valid, isDate, Zeros(strays) + WrittenRecord(r) + []) != [r] + Scan(valid, isDate, []);
  }

  lemma WrittenOne(r: Record)
    ensures Written([r]) == WrittenRecord(r)
  {
    assert [r][1..] == [];
  }

  /**
   Exactly when `strays` stray bytes are always harmless: when the last `strays` bytes of the
   timestamp hold no magic byte (all eight of them from eight strays on). Times below 2^56
   microseconds, the year 4253, have to be dates, as they are.
   */
  lemma SkipsStraysExactly(valid: Validity, isDate: Dates, r: Record, strays: nat)
    requires Good(valid, isDate, r)
    requires forall t: U64 :: t < 0x100_0000_0000_0000 ==> isDate(t)
    ensures SkipsStrays(valid, isDate, r, strays) <==> STX !in Be(r.timestamp, 8)[Max(0, 8 - strays)..]
  {
    hide Be, Scan;
    var from := Max(0, 8 - strays);
    var tail := Be(r.timestamp, 8)[from..];
    if STX in tail {
      var i := FirstMagic(tail);
      ShiftedIsEarlier(r.timestamp, from + i);
      assert forall j :: from <= j < from + i ==> Be(r.timestamp, 8)[j] == tail[j - from];
      MagicMisleads(valid, isDate, r, strays, from + i);
    } else {
      forall garbage: seq<U8>, more: seq<U8> | |garbage| == strays && STX !in garbage
        ensures Scan(valid, isDate, garbage + WrittenRecord(r) + more) == [r] + Scan(valid, isDate, more)
      {
        var looked := garbage + Be(r.timestamp, 8);
        forall j | 8 <= j < |looked| ensures looked[j] != STX {
          if j >= strays {
            assert looked[j] == tail[j - strays - from];
          }
        }
        WrittenOne(r);
        Resynchronizes(valid, isDate, garbage, [r], more);
      }
    }
  }

  lemma {:induction false} FirstMagic(s: seq<U8>) returns (i: nat)
    requires STX in s
    ensures i < |s| && s[i] == STX && forall j :: 0 <= j < i ==> s[j] != STX
  {
    i := 0;
    while s[i] != STX
      invariant i < |s| && STX in s[i..] && forall j :: 0 <= j < i ==> s[j] != STX
      decreases |s| - i
    {
      i := i + 1;
    }
  }
}
