/**
 Downloads from the vehicle's own server: what it is asked for is what it sends, so a repair read
 brings the file's bytes for its hole, and a download with lost packets is made whole.
 */
module VehicleDownload {
  import opened Wrappers
  import opened Bytes
  import opened FtpProtocol
  import opened FtpServer
  import opened Transport
  import opened ReceiveFilter
  import opened InOrderLink
  import opened BurstRead
  import opened BurstCorrectness
  import opened BurstEvents
  import opened HonestVehicle
  import opened Upload

  /** The session reads the file. */
  predicate OpenOn(srv: Server, session: U8, file: seq<U8>) {
    session in srv.sessions && srv.sessions[session] in srv.files && srv.files[srv.sessions[session]] == file
  }

  predicate SameStore(a: Server, b: Server) {
    a.files == b.files && a.sessions == b.sessions
  }

  lemma StillOpenOn(a: Server, b: Server, session: U8, file: seq<U8>)
    requires OpenOn(a, session, file) && SameStore(a, b)
    ensures OpenOn(b, session, file)
  {
  }

  // ---- Opening ----

  /**
   A successful open leaves the one session open on the file the path names on the vehicle, and tells
   the file's size modulo 2^32; with nothing but repeats in flight before, the files are as they were.
   */
  lemma OpenOverLink(l: Link, path: Path, maxSize: Option<nat>)
    requires Startable(l)
    ensures var (r, l') := OpenForRead(l, l.vehicle, path, maxSize);
            r.Success? ==>
              && Ready(l') && l'.vehicle == l.vehicle
              && l'.net.server.sessions == map[r.value.session := WirePath(path)]
              && WirePath(path) in l'.net.server.files
              && r.value.fileSize == |l'.net.server.files[WirePath(path)]| % 0x1_0000_0000
              && (Settled(l.net) ==> l'.net.server.files == l.net.server.files)
  {
    hide Call, TerminateCall, AdvertisedSize, Ready;
    var earlier := ResetStep(l);
    var (reset, l1) := ResetCall(l, l.vehicle);
    if reset.Success? {
      OpenStep(l1, path);
    }
  }

  lemma OpenStep(l: Link, path: Path)
    requires Ready(l) && l.net.server.sessions == map[]
    ensures var (r, l') := Call(Draw(l).1, l.vehicle, PathRequest(OPEN_FILE_RO, Draw(l).0, path));
            r.Success? ==>
              && Ready(l') && l'.vehicle == l.vehicle
              && l'.net.server.sessions == map[r.value.session := WirePath(path)]
              && l'.net.server.files == l.net.server.files
              && WirePath(path) in l'.net.server.files
              && AdvertisedSize(r.value) == |l'.net.server.files[WirePath(path)]| % 0x1_0000_0000
  {
    hide Call, AdvertisedSize, Ready, Le32;
    var p := PathRequest(OPEN_FILE_RO, Draw(l).0, path);
    assert NormalData(p) == WirePath(path);
    var choice := ReadyCall(l, p);
    if Call(Draw(l).1, l.vehicle, p).0.Success? {
      OpenAnswer(l.net.server, Normalized(p), choice);
    }
  }

  lemma OpenAnswer(srv: Server, req: FtpPayload, choice: Choice)
    requires req.opcode == OPEN_FILE_RO && choice.Proceed?
    ensures var (after, reply) := Execute(srv, req, choice);
            reply.opcode == ACK ==>
              && req.data in srv.files && reply.session == choice.session
              && after == srv.(sessions := srv.sessions[choice.session := req.data])
              && AdvertisedSize(reply) == |srv.files[req.data]| % 0x1_0000_0000
  {
    hide AdvertisedSize, Le32;
    if req.data in srv.files {
      AdvertisedSizeIsRead(srv, req, choice.session, choice.count);
    }
  }

  // ---- One repair read ----

  /** The bytes of the file a read brings, from `offset` on and at most `size` and 239 of them. */
  function Stretch(file: seq<U8>, offset: nat, size: nat): (data: seq<U8>)
    requires offset < |file|
    ensures size > 0 ==> data != []
    ensures |data| <= FTP_DATA_MAX_LEN && |data| <= size
  {
    file[offset..offset + Min(Min(size, FTP_DATA_MAX_LEN), |file| - offset)]
  }

  /** What the vehicle answers to a read, unless it refuses: the stretch asked for, or the end of the file. */
  lemma ReadAnswer(srv: Server, req: FtpPayload, choice: Choice, file: seq<U8>)
    requires req.opcode == READ_FILE && req.size > 0 && OpenOn(srv, req.session, file)
    ensures var (after, reply) := Execute(srv, req, choice);
            && after == srv
            && (choice.Refuse? ==> reply.opcode == NAK && !SaysEndOfFile(reply))
            && (choice.Proceed? && req.offset >= |file| ==> SaysEndOfFile(reply))
            && (choice.Proceed? && req.offset < |file| ==>
                  && reply.opcode == ACK && reply.data == Stretch(file, req.offset, req.size)
                  && reply.size == |reply.data|)
  {
  }

  /** What a repair read brings that ended without an error. */
  predicate BroughtRight(
    p: PieceRead, l: Link, hole: MissingBlock, filled: U32, file: seq<U8>)
  {
    var offset, left := hole.offset + filled, hole.size - filled;
    && (p.Piece? ==>
          && Ready(p.link) && p.link.vehicle == l.vehicle && SameStore(p.link.net.server, l.net.server)
          && offset < |file| && left > 0
          && p.packet.size == |p.packet.data| && p.packet.data == Stretch(file, offset, left))
    && (p.Stopped? && p.end.failure.None? ==>
          && Ready(p.end.link) && p.end.link.vehicle == l.vehicle
          && SameStore(p.end.link.net.server, l.net.server) && offset >= |file|)
  }

  lemma PieceOverLink(l: Link, session: U8, s: BurstState, hole: MissingBlock, filled: U32, file: seq<U8>)
    requires filled < hole.size && hole.offset + hole.size < 0x1_0000_0000
    requires Ready(l) && OpenOn(l.net.server, session, file)
    ensures BroughtRight(ReadPiece(l, l.vehicle, session, s, hole, filled), l, hole, filled, file)
  {
    hide SendReceive, TerminateCall, Ready, Execute, SaysEndOfFile, OpenOn;
    var readSize := Min(hole.size - filled, FTP_DATA_MAX_LEN);
    Add32Exact(hole.offset, filled);
    var p := ReadRequest(Draw(l).0, session, hole.offset + filled, readSize);
    var choice := ReadySend(l, p);
    ReadAnswer(l.net.server, Normalized(p), choice, file);
    RepairExactly(l, l.vehicle, session, s, hole, filled);
  }

  // ---- A hole ----

  /** From `from` to `to` the buffer now has the file's bytes; everything else is as it was. */
  predicate Repaired(s: BurstState, s': BurstState, from: nat, to: int, file: seq<U8>) {
    && to <= |file|
    && |s'.fileData| == Max(|s.fileData|, if from < to then to else 0)
    && (forall i :: 0 <= i < |s'.fileData| ==>
          s'.fileData[i] == if from <= i < to then file[i] else if i < |s.fileData| then s.fileData[i] else 0)
  }

  /** Copies were only added, each the file's own bytes at its offset. */
  predicate AddsTrue(s: BurstState, s': BurstState, file: seq<U8>) {
    && s.writes <= s'.writes
    && forall k :: |s.writes| <= k < |s'.writes| ==> TrueTo(s'.writes[k], file)
  }

  lemma StretchRepairs(s: BurstState, hole: MissingBlock, filled: U32, p: FtpPayload, file: seq<U8>)
    requires filled < hole.size && hole.offset + hole.size < 0x1_0000_0000 && hole.offset + filled < |file|
    requires p.size == |p.data| && p.data == Stretch(file, hole.offset + filled, hole.size - filled)
    ensures var s', offset := PieceCopied(s, hole, filled, p), hole.offset + filled;
            && AddsTrue(s, s', file) && Repaired(s, s', offset, offset + p.size, file)
            && Add32(filled, p.size) == filled + p.size <= hole.size && p.size > 0
  {
    Add32Exact(hole.offset, filled);
    Add32Exact(filled, p.size);
    assert p.data[..p.size] == p.data;
  }

  lemma RepairedFurther(
      s: BurstState, s1: BurstState, s2: BurstState, from: nat, mid: nat, to: int, file: seq<U8>)
    requires from < mid <= to && Repaired(s, s1, from, mid, file) && Repaired(s1, s2, mid, to, file)
    ensures Repaired(s, s2, from, to, file)
  {
  }

  lemma AddsMore(s: BurstState, s1: BurstState, s2: BurstState, file: seq<U8>)
    requires AddsTrue(s, s1, file) && AddsTrue(s1, s2, file)
    ensures AddsTrue(s, s2, file)
  {
    hide TrueTo;
    assert forall k :: 0 <= k < |s1.writes| ==> s2.writes[k] == s1.writes[k];
  }

  lemma NothingRepaired(s: BurstState, from: nat, to: int, file: seq<U8>)
    requires to <= from && to <= |file|
    ensures Repaired(s, s, from, to, file) && AddsTrue(s, s, file)
  {
  }

  lemma NothingAdded(s: BurstState, file: seq<U8>)
    ensures AddsTrue(s, s, file)
  {
  }

  /** The end of what a hole and the file have in common. */
  function HoleEnd(hole: MissingBlock, file: seq<U8>): nat {
    Min(hole.offset + hole.size, |file|)
  }

  /** A hole repaired without an error: true bytes up to its end or the file's, and complete if it is the hole's. */
  predicate HoleRepaired(
      e: FillEnd, s: BurstState, hole: MissingBlock, filled: U32, file: seq<U8>)
  {
    && AddsTrue(s, e.state, file)
    && Repaired(s, e.state, hole.offset + filled, HoleEnd(hole, file), file)
    && (e.complete <==> filled >= hole.size || hole.offset + hole.size <= |file|)
  }

  /**
   Repairing a hole over an in-order link, with the session open on the file, makes none but true
   copies; without an error it fills the hole with the file's bytes, and is complete exactly when
   the hole lies within the file.
   */
  lemma {:induction false} RepairOverLink(
      l: Link, session: U8, s: BurstState, hole: MissingBlock, filled: U32, file: seq<U8>)
    requires filled <= hole.size && hole.offset + hole.size < 0x1_0000_0000
    requires Ready(l) && OpenOn(l.net.server, session, file)
    ensures var e := FillHole(l, l.vehicle, session, s, hole, filled);
            AddsTrue(s, e.state, file)
    ensures var e := FillHole(l, l.vehicle, session, s, hole, filled);
            e.failure.None? ==>
              && HoleRepaired(e, s, hole, filled, file)
              && Ready(e.link) && e.link.vehicle == l.vehicle && SameStore(e.link.net.server, l.net.server)
    decreases |l.schedule|
  {
    hide ReadPiece, Ready, Repaired, AddsTrue, Stretch;
    if filled == hole.size {
      NothingRepaired(s, hole.offset + filled, HoleEnd(hole, file), file);
    } else {
      PieceOverLink(l, session, s, hole, filled, file);
      var p := ReadPiece(l, l.vehicle, session, s, hole, filled);
      match p
      case Stopped(end) =>
        NothingAdded(s, file);
        if end.failure.None? {
          NothingRepaired(s, hole.offset + filled, HoleEnd(hole, file), file);
        }
      case Piece(packet, l') =>
        var s' := PieceCopied(s, hole, filled, packet);
        StretchRepairs(s, hole, filled, packet, file);
        RepairOverLink(l', session, s', hole, filled + packet.size, file);
        var e := FillHole(l', l'.vehicle, session, s', hole, filled + packet.size);
        AddsMore(s, s', e.state, file);
        if e.failure.None? {
          PieceAndRest(e, s, hole, filled, packet, file);
        }
    }
  }

  lemma PieceAndRest(e: FillEnd, s: BurstState, hole: MissingBlock, filled: U32, p: FtpPayload, file: seq<U8>)
    requires filled < hole.size && hole.offset + hole.size < 0x1_0000_0000 && hole.offset + filled < |file|
    requires p.size == |p.data| && p.data == Stretch(file, hole.offset + filled, hole.size - filled)
    requires filled + p.size <= hole.size
    requires HoleRepaired(e, PieceCopied(s, hole, filled, p), hole, filled + p.size, file)
    ensures HoleRepaired(e, s, hole, filled, file)
  {
    hide PieceCopied, AddsTrue, Repaired, Stretch;
    var s', offset := PieceCopied(s, hole, filled, p), hole.offset + filled;
    StretchRepairs(s, hole, filled, p, file);
    StretchWithin(hole, filled, p, file);
    AddsMore(s, s', e.state, file);
    RepairedFurther(s, s', e.state, offset, offset + p.size, HoleEnd(hole, file), file);
  }

  lemma StretchWithin(hole: MissingBlock, filled: U32, p: FtpPayload, file: seq<U8>)
    requires filled < hole.size && hole.offset + filled < |file|
    requires p.size == |p.data| && p.data == Stretch(file, hole.offset + filled, hole.size - filled)
    ensures hole.offset + filled + p.size <= HoleEnd(hole, file)
  {
  }

  /** In every hole, up to the file's end, the buffer has the file's bytes; elsewhere it is as it was. */
  predicate HolesRepaired(s: BurstState, s': BurstState, holes: seq<MissingBlock>, file: seq<U8>) {
    && |s'.fileData| >= |s.fileData|
    && (forall i :: 0 <= i < |file| && InHoles(holes, i) ==> i < |s'.fileData| && s'.fileData[i] == file[i])
    && (forall i :: 0 <= i < |s.fileData| && !(i < |file| && InHoles(holes, i)) ==> s'.fileData[i] == s.fileData[i])
  }

  predicate WithinFile(holes: seq<MissingBlock>, file: seq<U8>) {
    forall k :: 0 <= k < |holes| ==> holes[k].size == 0 || holes[k].offset + holes[k].size <= |file|
  }

  lemma FirstHoleRepaired(
      s: BurstState, s1: BurstState, s2: BurstState, holes: seq<MissingBlock>, file: seq<U8>)
    requires holes != [] && Repaired(s, s1, holes[0].offset, HoleEnd(holes[0], file), file)
    requires HolesRepaired(s1, s2, holes[1..], file)
    ensures HolesRepaired(s, s2, holes, file)
  {
    forall i | 0 <= i
      ensures InHoles(holes, i) <==> InHole(holes[0], i) || InHoles(holes[1..], i)
    {
      InHolesFirst(holes, i);
    }
  }

  lemma InHolesFirst(holes: seq<MissingBlock>, i: nat)
    requires holes != []
    ensures InHoles(holes, i) <==> InHole(holes[0], i) || InHoles(holes[1..], i)
  {
    if InHoles(holes[1..], i) {
      var k :| 0 <= k < |holes[1..]| && InHole(holes[1..][k], i);
      assert holes[k + 1] == holes[1..][k];
    }
    if InHoles(holes, i) && !InHole(holes[0], i) {
      var k :| 0 <= k < |holes| && InHole(holes[k], i);
      assert holes[1..][k - 1] == holes[k];
    }
  }

  /**
   Every hole is repaired, also behind one that cannot be: without an error the buffer has the file's
   bytes in all of them, and the repair is complete exactly when they all lie within the file.
   */
  lemma {:induction false} RepairsOverLink(
      l: Link, session: U8, s: BurstState, holes: seq<MissingBlock>, file: seq<U8>)
    requires forall k :: 0 <= k < |holes| ==> holes[k].offset + holes[k].size < 0x1_0000_0000
    requires Ready(l) && OpenOn(l.net.server, session, file)
    ensures var e := FillAll(l, l.vehicle, session, s, holes);
            && AddsTrue(s, e.state, file)
            && (e.failure.None? ==>
                  && HolesRepaired(s, e.state, holes, file) && (e.complete <==> WithinFile(holes, file))
                  && Ready(e.link) && SameStore(e.link.net.server, l.net.server))
    decreases |holes|
  {
    hide FillHole, Ready, Repaired, AddsTrue, OpenOn, HolesRepaired, WithinFile;
    if holes == [] {
      NothingAdded(s, file);
      NoHoles(s, file);
    } else {
      RepairOverLink(l, session, s, holes[0], 0, file);
      var e := FillHole(l, l.vehicle, session, s, holes[0], 0);
      if e.failure.None? {
        StillOpenOn(l.net.server, e.link.net.server, session, file);
        RepairsOverLink(e.link, session, e.state, holes[1..], file);
        var rest := FillAll(e.link, l.vehicle, session, e.state, holes[1..]);
        AddsMore(s, e.state, rest.state, file);
        WithinFirst(holes, file);
        if rest.failure.None? {
          FirstHoleRepaired(s, e.state, rest.state, holes, file);
        }
      }
    }
  }

  lemma WithinFirst(holes: seq<MissingBlock>, file: seq<U8>)
    requires holes != []
    ensures WithinFile(holes, file) <==>
              (holes[0].size == 0 || holes[0].offset + holes[0].size <= |file|) && WithinFile(holes[1..], file)
  {
    assert forall k :: 0 < k < |holes| ==> holes[k] == holes[1..][k - 1];
  }

  lemma NoHoles(s: BurstState, file: seq<U8>)
    ensures HolesRepaired(s, s, [], file) && WithinFile([], file)
  {
  }

  // ---- Repairs that succeed ----

  /** How many reads a stretch takes. */
  function Reads(size: nat): nat {
    if size == 0 then 0 else 1 + Reads(size - Min(size, FTP_DATA_MAX_LEN))
  }

  function ReadsOf(holes: seq<MissingBlock>): nat {
    if holes == [] then 0 else Reads(holes[0].size) + ReadsOf(holes[1..])
  }

  /** The link is still idle, with `n` requests less to answer, and the vehicle stores what it did. */
  predicate StillIdle(l': Link, l: Link, n: nat) {
    IdleLink(l', n) && l'.vehicle == l.vehicle && SameStore(l'.net.server, l.net.server)
  }

  lemma PromptPiece(l: Link, session: U8, s: BurstState, hole: MissingBlock, filled: U32, file: seq<U8>, n: nat)
    requires filled < hole.size && hole.offset + hole.size < 0x1_0000_0000 && hole.offset + hole.size <= |file|
    requires IdleLink(l, n) && n > 0 && OpenOn(l.net.server, session, file)
    ensures var p := ReadPiece(l, l.vehicle, session, s, hole, filled);
            && p.Piece? && StillIdle(p.link, l, n - 1)
            && p.packet.size == |p.packet.data| == Min(hole.size - filled, FTP_DATA_MAX_LEN)
            && p.packet.data == Stretch(file, hole.offset + filled, hole.size - filled)
  {
    hide SendReceive, TerminateCall, IdleLink, Execute, SaysEndOfFile, OpenOn;
    var readSize := Min(hole.size - filled, FTP_DATA_MAX_LEN);
    Add32Exact(hole.offset, filled);
    var p := ReadRequest(Draw(l).0, session, hole.offset + filled, readSize);
    PromptSend(l, p, n);
    ReadAnswer(l.net.server, Normalized(p), PROMPT, file);
    RepairExactly(l, l.vehicle, session, s, hole, filled);
  }

  /**
   Over an idle link a hole within the file is repaired whole, by as many reads as it takes when
   each brings 239 bytes or the rest.
   */
  lemma {:induction false} RepairSucceeds(
      l: Link, session: U8, s: BurstState, hole: MissingBlock, filled: U32, file: seq<U8>, n: nat)
    requires filled <= hole.size && hole.offset + hole.size < 0x1_0000_0000 && hole.offset + hole.size <= |file|
    requires IdleLink(l, n) && n >= Reads(hole.size - filled) && OpenOn(l.net.server, session, file)
    ensures var e := FillHole(l, l.vehicle, session, s, hole, filled);
            && e.failure.None? && e.complete && StillIdle(e.link, l, n - Reads(hole.size - filled))
            && AddsTrue(s, e.state, file)
            && Repaired(s, e.state, hole.offset + filled, hole.offset + hole.size, file)
    decreases hole.size - filled
  {
    hide ReadPiece, IdleLink, Repaired, AddsTrue, Stretch, PieceCopied, OpenOn, Add32;
    if filled == hole.size {
      NothingRepaired(s, hole.offset + filled, hole.offset + hole.size, file);
    } else {
      PromptPiece(l, session, s, hole, filled, file, n);
      var p := ReadPiece(l, l.vehicle, session, s, hole, filled);
      var s' := PieceCopied(s, hole, filled, p.packet);
      StretchRepairs(s, hole, filled, p.packet, file);
      StillOpenOn(l.net.server, p.link.net.server, session, file);
      RepairSucceeds(p.link, session, s', hole, filled + p.packet.size, file, n - 1);
      var e := FillHole(p.link, l.vehicle, session, s', hole, filled + p.packet.size);
      PieceAndRest(e, s, hole, filled, p.packet, file);
    }
  }

  lemma {:induction false} RepairsSucceed(
      l: Link, session: U8, s: BurstState, holes: seq<MissingBlock>, file: seq<U8>, n: nat)
    requires |file| < 0x1_0000_0000 && IdleLink(l, n) && n >= ReadsOf(holes) && OpenOn(l.net.server, session, file)
    requires forall k :: 0 <= k < |holes| ==> holes[k].offset + holes[k].size <= |file|
    ensures var e := FillAll(l, l.vehicle, session, s, holes);
            && e.failure.None? && e.complete && StillIdle(e.link, l, n - ReadsOf(holes))
            && AddsTrue(s, e.state, file)
    decreases |holes|
  {
    hide FillHole, IdleLink, Repaired, AddsTrue, Reads;
    if holes == [] {
      NothingAdded(s, file);
    } else {
      RepairSucceeds(l, session, s, holes[0], 0, file, n);
      var e := FillHole(l, l.vehicle, session, s, holes[0], 0);
      RepairsSucceed(e.link, session, e.state, holes[1..], file, n - Reads(holes[0].size));
      var rest := FillAll(e.link, l.vehicle, session, e.state, holes[1..]);
      AddsMore(s, e.state, rest.state, file);
    }
  }

  // ---- A burst with packets missing ----

  /** A packet of a burst, with the file's own bytes at its offset. */
  predicate IsChunkOf(p: FtpPayload, file: seq<U8>) {
    WellFormed(p) && IsBurstChunk(p) && p.burstComplete != 1 && Truthful(p, file)
  }

  predicate AreChunksOf(chunks: seq<FtpPayload>, file: seq<U8>) {
    forall k :: 0 <= k < |chunks| ==> IsChunkOf(chunks[k], file)
  }

  /** One of them brings the file's last byte, and none before it reaches into it. */
  predicate BringEnd(chunks: seq<FtpPayload>, file: seq<U8>, last: nat) {
    && last < |chunks| && chunks[last].data != [] && chunks[last].offset + |chunks[last].data| == |file|
    && forall k :: 0 <= k < last ==> chunks[k].offset + |chunks[k].data| <= chunks[last].offset
  }

  /** The state after the packets that are not behind what is there. */
  function AfterChunks(s: BurstState, chunks: seq<FtpPayload>, file: seq<U8>): BurstState
    requires AreChunksOf(chunks, file)
    decreases |chunks|
  {
    if chunks == [] then s
    else AfterChunks(if IsNewChunk(s, chunks[0]) then BurstEvents.Taken(s, chunks[0]) else s, chunks[1..], file)
  }

  /** The packets arrive from the vehicle one after another. */
  function Sent(vehicle: Target, packets: seq<FtpPayload>): (schedule: seq<Action>)
    ensures |schedule| == |packets|
  {
    seq(|packets|, i requires 0 <= i < |packets| =>
      Arrive(HubMessage(110, vehicle, Some(Encoded(packets[i])))))
  }

  lemma SentNext(vehicle: Target, p: FtpPayload, rest: seq<FtpPayload>)
    ensures Sent(vehicle, [p] + rest) == [Arrive(HubMessage(110, vehicle, Some(Encoded(p))))] + Sent(vehicle, rest)
  {
    hide Encoded;
    assert ([p] + rest)[1..] == rest;
  }

  /** The next event brings the packet, and leaves the network as it is. */
  lemma SentIsHeard(l: Link, p: FtpPayload, rest: seq<Action>)
    requires l.schedule == [Arrive(HubMessage(110, l.vehicle, Some(Encoded(p))))] + rest && WellFormed(p)
    ensures PacketOf(l, l.vehicle) == Some(p) && Behind(l) == l.(schedule := rest)
  {
    DecodeEncode(p);
    hide Encoded;
  }

  lemma TakenIsApplied(s: BurstState, p: FtpPayload)
    requires IsNewChunk(s, p) && p.size <= |p.data|
    ensures ApplyChunk(s, p) == Accepted(BurstEvents.Taken(s, p)) && IsBurstChunk(p)
  {
  }

  /** The cycle takes the packets in, and ends at the end of file. */
  lemma {:induction false} BurstTakes(
      l: Link, session: U8, s: BurstState, chunks: seq<FtpPayload>, eof: FtpPayload, rest: seq<Action>, file: seq<U8>)
    requires AreChunksOf(chunks, file) && WellFormed(eof) && SaysEndOfFile(eof)
    requires l.schedule == Sent(l.vehicle, chunks + [eof]) + rest
    ensures CycleLoop(l, l.vehicle, session, s, 0)
         == CycleEnd(AtEof, AfterChunks(s, chunks, file), 0, l.(schedule := rest))
    decreases |chunks|
  {
    hide CycleLoop, Encoded, BurstEvents.Taken, Sent, PacketOf, Behind, SaysEndOfFile, TerminateCall, Truthful;
    if chunks == [] {
      assert chunks + [eof] == [eof] + [];
      SentNext(l.vehicle, eof, []);
      assert l.schedule[1..] == rest;
      SentIsHeard(l, eof, rest);
      NakExactly(eof);
      EventDecides(l, l.vehicle, session, s, 0);
    } else {
      var p, later := chunks[0], chunks[1..] + [eof];
      assert chunks + [eof] == [p] + later;
      SentNext(l.vehicle, p, later);
      assert l.schedule[1..] == Sent(l.vehicle, later) + rest;
      SentIsHeard(l, p, Sent(l.vehicle, later) + rest);
      var l' := l.(schedule := Sent(l.vehicle, later) + rest);
      if IsNewChunk(s, p) {
        EventDecides(l, l.vehicle, session, s, 0);
        BurstTakes(l', session, BurstEvents.Taken(s, p), chunks[1..], eof, rest, file);
      } else {
        EventPasses(l, l.vehicle, session, s, 0);
        BurstTakes(l', session, s, chunks[1..], eof, rest, file);
      }
    }
  }

  lemma {:induction false} ChunksSound(s: BurstState, chunks: seq<FtpPayload>, file: seq<U8>)
    requires AreChunksOf(chunks, file) && BurstSound(s, file)
    ensures BurstSound(AfterChunks(s, chunks, file), file)
    decreases |chunks|
  {
    hide BurstSound, Truthful, ApplyChunk, BurstEvents.Taken;
    if chunks != [] {
      var p := chunks[0];
      if IsNewChunk(s, p) {
        TakenIsApplied(s, p);
        ChunkSound(s, p, file);
        ChunksSound(BurstEvents.Taken(s, p), chunks[1..], file);
      } else {
        ChunksSound(s, chunks[1..], file);
      }
    }
  }

  /** A packet with data ends within the file; taken, it moves the end there. */
  lemma ChunkWithin(s: BurstState, p: FtpPayload, file: seq<U8>)
    requires IsChunkOf(p, file) && p.size > 0 && |file| < 0x1_0000_0000
    ensures p.offset + p.size <= |file|
    ensures IsNewChunk(s, p) ==> BurstEvents.Taken(s, p).contiguousEnd == p.offset + p.size
  {
  }

  /** Nothing is new behind the file's last byte. */
  lemma {:induction false} NothingNew(s: BurstState, chunks: seq<FtpPayload>, file: seq<U8>)
    requires AreChunksOf(chunks, file) && |file| < 0x1_0000_0000 && s.contiguousEnd == |file|
    ensures AfterChunks(s, chunks, file) == s
    decreases |chunks|
  {
    hide Truthful, BurstEvents.Taken;
    if chunks != [] {
      if IsNewChunk(s, chunks[0]) {
        ChunkWithin(s, chunks[0], file);
      }
      NothingNew(s, chunks[1..], file);
    }
  }

  lemma {:induction false} ChunksReachEnd(s: BurstState, chunks: seq<FtpPayload>, file: seq<U8>, last: nat)
    requires AreChunksOf(chunks, file) && |file| < 0x1_0000_0000 && BringEnd(chunks, file, last)
    requires s.contiguousEnd <= chunks[last].offset
    ensures AfterChunks(s, chunks, file).contiguousEnd == |file|
    decreases |chunks|
  {
    hide Truthful, BurstEvents.Taken;
    var p := chunks[0];
    if p.size > 0 {
      ChunkWithin(s, p, file);
    }
    var s' := if IsNewChunk(s, p) then BurstEvents.Taken(s, p) else s;
    if last == 0 {
      NothingNew(s', chunks[1..], file);
    } else {
      ChunksReachEnd(s', chunks[1..], file, last - 1);
    }
  }

  // ---- A whole download with packets missing ----

  predicate Stores(srv: Server, path: Path, file: seq<U8>) {
    WirePath(path) in srv.files && srv.files[WirePath(path)] == file
  }

  /** The prompt vehicle has the file open, in the only session, and served the client's last request last. */
  predicate JustOpened(l: Link, path: Path, files: map<Path, seq<U8>>) {
    && Still(l) && l.net.server.last.Some? && l.seqNumber == Add16(l.net.server.last.value.0, 1)
    && l.net.server.sessions == map[PROMPT.session := WirePath(path)] && l.net.server.files == files
  }

  lemma TwoAnswered(rest: seq<Action>)
    ensures PromptSchedule(2) + rest
         == [ServeNext(PROMPT), DeliverReply] + ([ServeNext(PROMPT), DeliverReply] + rest)
    ensures PromptSchedule(3) + rest
         == PromptSchedule(2) + ([ServeNext(PROMPT), DeliverReply] + rest)
  {
    assert PromptSchedule(1) == [ServeNext(PROMPT), DeliverReply] + PromptSchedule(0);
  }

  /** The prompt vehicle opens the file; whether it is read on depends on its size alone. */
  lemma OpenPromptly(l: Link, path: Path, file: seq<U8>, rest: seq<Action>) returns (l': Link, r: FtpPayload)
    requires Still(l) && Stores(l.net.server, path, file) && |file| < 0x1_0000_0000
    requires l.schedule == PromptSchedule(2) + rest
    ensures ResetCall(l, l.vehicle).0.Success?
    ensures var l1 := ResetCall(l, l.vehicle).1;
            Call(Draw(l1).1, l.vehicle, PathRequest(OPEN_FILE_RO, Draw(l1).0, path)) == (Success(r), l')
    ensures r.session == PROMPT.session && AdvertisedSize(r) == |file|
    ensures JustOpened(l', path, l.net.server.files) && l'.vehicle == l.vehicle && l'.schedule == rest
  {
    hide SendReceive, Still, AdvertisedSize;
    TwoAnswered(rest);
    NextAnswered(l, NewRequest(RESET_SESSIONS, Draw(l).0), PROMPT, [ServeNext(PROMPT), DeliverReply] + rest);
    var l1 := ResetCall(l, l.vehicle).1;
    var p := PathRequest(OPEN_FILE_RO, Draw(l1).0, path);
    NextAnswered(l1, p, PROMPT, rest);
    OpenAnswer(l1.net.server, Normalized(p), PROMPT);
    r := SendReceive(Draw(l1).1, l.vehicle, p).0.value;
    l' := SendReceive(Draw(l1).1, l.vehicle, p).1;
  }

  lemma EndOfFileEndsBurst(l: Link, target: Target, session: U8, s: BurstState)
    requires Cycle(l, target, session, s, 0).outcome == AtEof
    ensures var e := Cycle(l, target, session, s, 0);
            BurstPhase(l, target, session, s, 0) == PhaseEnd(None, e.state, e.link, 1)
  {
    hide Cycle;
  }

  /** The request is lost before it reaches the vehicle. */
  lemma RequestIsLost(l: Link, session: U8, s: BurstState, rest: seq<Action>) returns (l': Link)
    requires Still(l) && l.net.server.last.Some? && l.seqNumber == Add16(l.net.server.last.value.0, 1)
    requires l.schedule == [LoseRequest] + rest
    ensures Cycle(l, l.vehicle, session, s, 0) == CycleLoop(l', l.vehicle, session, s, 0)
    ensures Still(l') && l'.vehicle == l.vehicle && l'.schedule == rest && l'.net.server == l.net.server
  {
    hide CycleLoop, Sane, Cycle;
    var asked, q := CycleAsks(l, session, s, 0);
    assert asked.schedule[1..] == rest;
    EventPasses(asked, l.vehicle, session, s, 0);
    l' := Behind(asked);
  }

  /** The burst request is lost; the packets of the burst that do arrive are taken in. */
  lemma LostBurstRuns(
      l: Link, path: Path, files: map<Path, seq<U8>>, s: BurstState,
      chunks: seq<FtpPayload>, eof: FtpPayload, rest: seq<Action>, file: seq<U8>)
    requires JustOpened(l, path, files)
    requires AreChunksOf(chunks, file) && WellFormed(eof) && SaysEndOfFile(eof)
    requires l.schedule == [LoseRequest] + (Sent(l.vehicle, chunks + [eof]) + rest)
    ensures var e := BurstPhase(l, l.vehicle, PROMPT.session, s, 0);
            && e.failure == None && e.state == AfterChunks(s, chunks, file)
            && Still(e.link) && e.link.vehicle == l.vehicle && e.link.schedule == rest
            && SameStore(e.link.net.server, l.net.server)
  {
    hide CycleLoop, Cycle, BurstPhase, Sent, SaysEndOfFile, Sane, IsChunkOf;
    var l' := RequestIsLost(l, PROMPT.session, s, Sent(l.vehicle, chunks + [eof]) + rest);
    BurstTakes(l', PROMPT.session, s, chunks, eof, rest, file);
    EndOfFileEndsBurst(l, l.vehicle, PROMPT.session, s);
  }

  /**
   A file of the prompt vehicle is opened exactly when it is no larger than the limit; if it is larger,
   the session opened for it is closed again.
   */
  lemma SizeLimitExactly(l: Link, path: Path, file: seq<U8>, maxSize: Option<nat>, rest: seq<Action>)
    requires Still(l) && Stores(l.net.server, path, file) && |file| < 0x1_0000_0000
    requires l.schedule == PromptSchedule(3) + rest
    ensures var (r, l') := OpenForRead(l, l.vehicle, path, maxSize);
            && (r.Success? <==> maxSize.None? || |file| <= maxSize.value)
            && (r.Success? ==>
                  && r.value == Opened(PROMPT.session, |file|) && JustOpened(l', path, l.net.server.files)
                  && l'.schedule == [ServeNext(PROMPT), DeliverReply] + rest)
            && (r.Failure? ==>
                  && r.error == TooLarge && l'.net.server.sessions == map[]
                  && l'.net.server.files == l.net.server.files && l'.schedule == rest)
  {
    hide Call, ResetCall, TerminateCall, AdvertisedSize, Still, PromptSchedule;
    TwoAnswered(rest);
    var l', r := OpenPromptly(l, path, file, [ServeNext(PROMPT), DeliverReply] + rest);
    TerminatesPromptly(l', WirePath(path), rest);
  }

  /** A refused open is the download's error, and leaves no session open. */
  lemma RefusedOpenFails(l: Link, path: Path, maxSize: Option<nat>, code: U8, later: seq<Action>)
    requires Still(l)
    requires l.schedule
          == [ServeNext(PROMPT), DeliverReply] + ([ServeNext(Refuse(code)), DeliverReply] + later)
    ensures var d := Download(l, l.vehicle, path, maxSize);
            && d.result == Failure(RefusalOf(code)) && d.link.schedule == later
            && d.link.net.server.sessions == map[] && d.link.net.server.files == l.net.server.files
  {
    hide SendReceive, Still, ReadOpened;
    var reset := NewRequest(RESET_SESSIONS, Draw(l).0);
    NextAnswered(l, reset, PROMPT, [ServeNext(Refuse(code)), DeliverReply] + later);
    hide Call;
    var l1 := ResetCall(l, l.vehicle).1;
    NextRefused(l1, PathRequest(OPEN_FILE_RO, Draw(l1).0, path), code, later);
  }

  /** The state the burst ends in: true copies up to the file's end, and holes within it. */
  lemma BurstReachesEnd(l: Link, session: U8, chunks: seq<FtpPayload>, file: seq<U8>, last: nat)
    requires AreChunksOf(chunks, file) && |file| < 0x1_0000_0000 && (file == [] || BringEnd(chunks, file, last))
    requires var e := BurstPhase(l, l.vehicle, session, NewState(|file|), 0);
             e.failure == None && e.state == AfterChunks(NewState(|file|), chunks, file)
    ensures var s := AfterChunks(NewState(|file|), chunks, file);
            && s.contiguousEnd == |file| && AllTrue(s.writes, file)
            && forall k :: 0 <= k < |s.missingBlocks| ==>
                 s.missingBlocks[k].offset + s.missingBlocks[k].size <= |file|
  {
    hide BurstPhase, AfterChunks, AreChunksOf, Partitions, Counts, ProgressRises, AllSound, TrueTo;
    var s := AfterChunks(NewState(|file|), chunks, file);
    NothingCopied(|file|, file);
    ChunksSound(NewState(|file|), chunks, file);
    if file == [] {
      NothingNew(NewState(0), chunks, file);
    } else {
      ChunksReachEnd(NewState(|file|), chunks, file, last);
    }
    BurstBooks(l, l.vehicle, session, |file|);
    TrueNeverWraps(s.writes, file);
  }

  /** How many reads repair what the packets leave missing. */
  function RepairReads(chunks: seq<FtpPayload>, file: seq<U8>): nat
    requires AreChunksOf(chunks, file)
  {
    ReadsOf(AfterChunks(NewState(|file|), chunks, file).missingBlocks)
  }

  /** What happens during the download: two answers, a lost burst request, packets of the burst, and answers. */
  predicate BurstWithLosses(l: Link, chunks: seq<FtpPayload>, eof: FtpPayload, file: seq<U8>) {
    && AreChunksOf(chunks, file) && WellFormed(eof) && SaysEndOfFile(eof)
    && var answers := PromptSchedule(RepairReads(chunks, file) + 1);
       l.schedule == PromptSchedule(2) + ([LoseRequest] + (Sent(l.vehicle, chunks + [eof]) + answers))
  }

  /** Burst and repairs. */
  lemma LossesAreRepaired(
      l: Link, path: Path, files: map<Path, seq<U8>>, file: seq<U8>,
      chunks: seq<FtpPayload>, eof: FtpPayload, last: nat)
    returns (phase: PhaseEnd, fill: FillEnd)
    requires JustOpened(l, path, files) && Stores(l.net.server, path, file) && |file| < 0x1_0000_0000
    requires AreChunksOf(chunks, file) && WellFormed(eof) && SaysEndOfFile(eof)
    requires file == [] || BringEnd(chunks, file, last)
    requires l.schedule
          == [LoseRequest] + (Sent(l.vehicle, chunks + [eof]) + PromptSchedule(RepairReads(chunks, file) + 1))
    ensures phase == BurstPhase(l, l.vehicle, PROMPT.session, NewState(|file|), 0) && phase.failure == None
    ensures fill == FillAll(phase.link, l.vehicle, PROMPT.session, phase.state, phase.state.missingBlocks)
    ensures fill.failure == None && fill.complete && StillIdle(fill.link, l.(schedule := fill.link.schedule), 1)
    ensures AllTrue(fill.state.writes, file) && fill.state.contiguousEnd == |file|
  {
    hide FillAll, BurstPhase, Sent, SaysEndOfFile, Still, IsChunkOf, AfterChunks, TrueTo, BringEnd, PromptSchedule;
    var session, s := PROMPT.session, AfterChunks(NewState(|file|), chunks, file);
    var n := ReadsOf(s.missingBlocks);
    LostBurstRuns(l, path, files, NewState(|file|), chunks, eof, PromptSchedule(n + 1), file);
    phase := BurstPhase(l, l.vehicle, session, NewState(|file|), 0);
    BurstReachesEnd(l, session, chunks, file, last);
    RepairsSucceed(phase.link, session, s, s.missingBlocks, file, n + 1);
    fill := FillAll(phase.link, l.vehicle, session, s, s.missingBlocks);
    FillAllExtends(phase.link, l.vehicle, session, s, s.missingBlocks);
    assert forall k :: 0 <= k < |s.writes| ==> fill.state.writes[k] == s.writes[k];
  }

  /**
   Whatever packets of a burst are missing, repeated or out of place, a download from the vehicle's
   server is the whole file if one packet brings the file's last byte and none before it reaches
   into that one: the holes are read again, and the session is closed at the end.
   */
  lemma DownloadRepairs(
      l: Link, path: Path, file: seq<U8>, maxSize: Option<nat>,
      chunks: seq<FtpPayload>, eof: FtpPayload, last: nat)
    requires Still(l) && Stores(l.net.server, path, file) && |file| < 0x1_0000_0000
    requires maxSize.Some? ==> |file| <= maxSize.value
    requires file == [] || BringEnd(chunks, file, last)
    requires BurstWithLosses(l, chunks, eof, file)
    ensures var d := Download(l, l.vehicle, path, maxSize);
            && d.result == Success(file) && d.complete
            && d.link.net.server.sessions == map[] && d.link.net.server.files == l.net.server.files
  {
    hide Call, ResetCall, TerminateCall, FillAll, BurstPhase, Sent, SaysEndOfFile, Still, AreChunksOf, BringEnd;
    hide AdvertisedSize, AllTrue, Covered;
    var rest := [LoseRequest] + (Sent(l.vehicle, chunks + [eof]) + PromptSchedule(RepairReads(chunks, file) + 1));
    var l', r := OpenPromptly(l, path, file, rest);
    var phase, fill := LossesAreRepaired(l', path, l.net.server.files, file, chunks, eof, last);
    TerminatesPromptly(fill.link, WirePath(path), []);
    DownloadComplete(l, l.vehicle, path, maxSize, file);
    DownloadCorrect(l, l.vehicle, path, maxSize, file);
  }

  lemma OneHoleReads(chunk: FtpPayload, file: seq<U8>)
    requires IsChunkOf(chunk, file) && chunk.size > 0
    ensures AreChunksOf([chunk], file) && RepairReads([chunk], file) == Reads(chunk.offset)
  {
    var s := BurstEvents.Taken(NewState(|file|), chunk);
    assert [chunk][1..] == [];
    assert AfterChunks(NewState(|file|), [chunk], file) == AfterChunks(s, [], file) == s;
    assert s.missingBlocks == NewHole(0, chunk.offset);
    if chunk.offset > 0 {
      var hole := MissingBlock(0, chunk.offset);
      assert [hole][1..] == [];
      assert ReadsOf([hole]) == Reads(hole.size) + ReadsOf([]);
    }
  }

  /** One byte of a burst, the file's last, is enough: every byte before it is read again. */
  lemma LastByteSuffices(path: Path, file: seq<U8>) returns (l: Link)
    requires 0 < |file| < 0x1_0000_0000
    ensures var last := |file| - 1;
            var burst := [Ack(3, BURST_READ_FILE, last, [file[last]]), HonestVehicle.EndOfFile(4, BURST_READ_FILE)];
            && Stores(l.net.server, path, file)
            && l.schedule == PromptSchedule(2)
                             + ([LoseRequest] + (Sent(l.vehicle, burst) + PromptSchedule(Reads(last) + 1)))
            && Download(l, l.vehicle, path, None).result == Success(file)
  {
    hide Download, AfterChunks, Sent, PromptSchedule, Reads;
    var last := |file| - 1;
    var chunk, eof := Ack(3, BURST_READ_FILE, last, [file[last]]), HonestVehicle.EndOfFile(4, BURST_READ_FILE);
    var srv := Server(map[WirePath(path) := file], map[], map[], None);
    assert IsChunkOf(chunk, file);
    OneHoleReads(chunk, file);
    l := Link(VEHICLE, 0, [], Net([], [], srv),
              PromptSchedule(2) + ([LoseRequest] + (Sent(VEHICLE, [chunk, eof]) + PromptSchedule(Reads(last) + 1))));
    assert [chunk] + [eof] == [chunk, eof];
    DownloadRepairs(l, path, file, None, [chunk], eof, 0);
  }
}
