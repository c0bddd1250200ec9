/**
 Downloads from a vehicle whose packets tell the truth: what its packets on the wire say about the
 bytes the client returns, and how a truthful packet can still end up in the wrong place.
 */
module HonestVehicle {
  import opened Wrappers
  import opened Bytes
  import opened FtpProtocol
  import opened FtpServer
  import opened Transport
  import opened BurstRead
  import opened BurstCorrectness

  predicate CarriesFile(p: FtpPayload) {
    p.opcode == ACK && (p.reqOpcode == READ_FILE || p.reqOpcode == BURST_READ_FILE) && p.size > 0
  }

  /** File data is the file's own, at the packet's own offset; other packets say what they like. */
  predicate Truthful(p: FtpPayload, file: seq<U8>) {
    CarriesFile(p) ==> Honest(p, file)
  }

  predicate TruthfulMessage(msg: HubMessage, target: Target, file: seq<U8>) {
    PayloadFrom(msg, target).Some? ==> Truthful(PayloadFrom(msg, target).value, file)
  }

  /** Any packets in any order, repeated or missing, as long as each tells the truth. */
  predicate TruthfulSchedule(schedule: seq<Action>, target: Target, file: seq<U8>) {
    forall i :: 0 <= i < |schedule| ==>
      && !schedule[i].DeliverReply?
      && (schedule[i].Arrive? ==> TruthfulMessage(schedule[i].msg, target, file))
  }

  /** The copy is the data of a packet that told the truth. */
  predicate Sound(w: Write, file: seq<U8>) {
    && Truthful(w.packet, file) && 0 < w.packet.size <= |w.packet.data|
    && w.data == w.packet.data[..w.packet.size]
  }

  predicate AllSound(writes: seq<Write>, file: seq<U8>) {
    forall k :: 0 <= k < |writes| ==> Sound(writes[k], file)
  }

  /** The packet carried file data for the place where it was stored. */
  predicate AnswersItsRead(w: Write) {
    CarriesFile(w.packet) && w.packet.offset == w.offset
  }

  lemma AnsweredIsTrue(w: Write, file: seq<U8>)
    requires Sound(w, file) && AnswersItsRead(w)
    ensures TrueTo(w, file)
  {
  }

  // ---- From the wire to the copies ----

  lemma {:induction false} RecvTruthful(l: Link, target: Target, expected: Option<U16>, file: seq<U8>)
    requires TruthfulSchedule(l.schedule, target, file)
    ensures var (r, l') := Recv(l, target, expected);
            TruthfulSchedule(l'.schedule, target, file) && (r.Got? ==> Truthful(r.payload, file))
    decreases |l.schedule|
  {
    hide Truthful, TruthfulMessage, FtpServer.Serve;
    if l.schedule != [] && !l.schedule[0].TimeUp? && !l.schedule[0].Closed? {
      var a := l.schedule[0];
      var (net, msg) := Happen(l, a);
      if msg.Some? && Filter(msg.value, target, expected).Taken? {
        FilterTruthful(msg.value, target, expected, file);
      }
      RecvTruthful(l.(schedule := l.schedule[1..], net := net), target, expected, file);
    }
  }

  lemma FilterTruthful(msg: HubMessage, target: Target, expected: Option<U16>, file: seq<U8>)
    requires TruthfulMessage(msg, target, file) && Filter(msg, target, expected).Taken?
    ensures Truthful(Filter(msg, target, expected).payload, file)
  {
  }

  lemma {:induction false} ExchangeTruthful(
      l: Link, target: Target, p: FtpPayload, attempts: nat, last: FtpFailure, file: seq<U8>)
    requires TruthfulSchedule(l.schedule, target, file)
    ensures var (r, l') := Exchange(l, target, p, attempts, last);
            TruthfulSchedule(l'.schedule, target, file) && (r.Success? ==> Truthful(r.value, file))
    decreases attempts
  {
    hide Truthful, TruthfulSchedule, Recv;
    if attempts > 0 {
      var l1 := Submit(l, target, p);
      RecvTruthful(l1, target, Some(p.seqNumber), file);
      var (r, l') := Recv(l1, target, Some(p.seqNumber));
      if !r.Got? {
        ExchangeTruthful(l', target, p, attempts - 1, if r.Broken? then r.failure else TimedOut, file);
      }
    }
  }

  lemma CallTruthful(l: Link, target: Target, p: FtpPayload, file: seq<U8>)
    requires TruthfulSchedule(l.schedule, target, file)
    ensures TruthfulSchedule(Call(l, target, p).1.schedule, target, file)
  {
    hide Exchange, TruthfulSchedule;
    ExchangeTruthful(l, target, p, FTP_MAX_RETRIES, TimedOut, file);
  }

  /** What the burst phase keeps: one true copy for each packet counted. */
  predicate BurstSound(s: BurstState, file: seq<U8>) {
    |s.writes| == s.totalPackets && AllTrue(s.writes, file) && AllSound(s.writes, file)
  }

  lemma ChunkSound(s: BurstState, p: FtpPayload, file: seq<U8>)
    requires BurstSound(s, file) && Truthful(p, file) && IsBurstChunk(p)
    ensures ApplyChunk(s, p).Accepted? ==> BurstSound(ApplyChunk(s, p).state, file)
  {
    if ApplyChunk(s, p).Accepted? {
      var w := CopyOf(p, p.offset, p.size);
      AnsweredIsTrue(w, file);
    }
  }

  lemma {:induction false} CycleLoopSound(
      l: Link, target: Target, session: U8, s: BurstState, retries: nat, file: seq<U8>)
    requires retries <= FTP_MAX_RETRIES && TruthfulSchedule(l.schedule, target, file) && BurstSound(s, file)
    ensures var e := CycleLoop(l, target, session, s, retries);
            !e.outcome.Aborted? ==> TruthfulSchedule(e.link.schedule, target, file) && BurstSound(e.state, file)
    decreases |l.schedule|
  {
    hide Recv, TerminateCall, BurstSound, TruthfulSchedule, Truthful, ApplyChunk;
    RecvTruthful(l, target, None, file);
    var (r, l') := Recv(l, target, None);
    match r
    case Expired =>
    case Broken(_) => CycleLoopSound(l', target, session, s, retries, file);
    case Got(p) =>
      if CheckNak(p).None? {
        var chunk := ApplyChunk(s, p);
        if !IsBurstChunk(p) || chunk.Dropped? {
          CycleLoopSound(l', target, session, s, retries, file);
        } else if chunk.Accepted? {
          ChunkSound(s, p, file);
          if p.burstComplete != 1 {
            CycleLoopSound(l', target, session, chunk.state, 0, file);
          }
        }
      }
  }

  lemma {:induction false} BurstPhaseSound(
      l: Link, target: Target, session: U8, s: BurstState, retries: nat, file: seq<U8>)
    requires retries <= FTP_MAX_RETRIES && TruthfulSchedule(l.schedule, target, file) && BurstSound(s, file)
    ensures var e := BurstPhase(l, target, session, s, retries);
            e.failure.None? ==> TruthfulSchedule(e.link.schedule, target, file) && BurstSound(e.state, file)
    decreases |l.schedule|, FTP_MAX_RETRIES - retries
  {
    hide CycleLoop, BurstSound, TruthfulSchedule;
    var (seqNumber, l1) := Draw(l);
    var request := BurstRequest(seqNumber, session, s.contiguousEnd);
    CycleLoopSound(Submit(l1, target, request), target, session, s, retries, file);
    var e := Cycle(l, target, session, s, retries);
    if e.outcome.Continue? {
      BurstPhaseSound(e.link, target, session, e.state, e.retries, file);
    }
  }

  /** What the repairs keep: the copies of the burst stay true, those after them are of truthful packets. */
  predicate RepairSound(s: BurstState, file: seq<U8>) {
    && s.totalPackets <= |s.writes| && AllSound(s.writes, file)
    && AllTrue(s.writes[..s.totalPackets], file)
  }

  lemma PieceSound(
      l: Link, target: Target, session: U8, s: BurstState, hole: MissingBlock, filled: U32, file: seq<U8>)
    requires filled < hole.size && TruthfulSchedule(l.schedule, target, file) && RepairSound(s, file)
    ensures var p := ReadPiece(l, target, session, s, hole, filled);
            && (p.Piece? ==>
                  && TruthfulSchedule(p.link.schedule, target, file)
                  && RepairSound(PieceCopied(s, hole, filled, p.packet), file))
            && (p.Stopped? && p.end.failure.None? ==> TruthfulSchedule(p.end.link.schedule, target, file))
  {
    hide Exchange, TruthfulSchedule, Truthful, TerminateCall, AllTrue;
    var (seqNumber, l1) := Draw(l);
    var readSize := Min(hole.size - filled, FTP_DATA_MAX_LEN);
    var request := ReadRequest(seqNumber, session, Add32(hole.offset, filled), readSize);
    ExchangeTruthful(l1, target, request, FTP_MAX_RETRIES, TimedOut, file);
    var p := ReadPiece(l, target, session, s, hole, filled);
    if p.Piece? {
      var s' := PieceCopied(s, hole, filled, p.packet);
      assert s'.writes[..s'.totalPackets] == s.writes[..s.totalPackets];
    }
  }

  lemma {:induction false} FillHoleSound(
      l: Link, target: Target, session: U8, s: BurstState, hole: MissingBlock, filled: U32, file: seq<U8>)
    requires TruthfulSchedule(l.schedule, target, file) && RepairSound(s, file)
    ensures var e := FillHole(l, target, session, s, hole, filled);
            e.failure.None? ==> TruthfulSchedule(e.link.schedule, target, file) && RepairSound(e.state, file)
    decreases |l.schedule|
  {
    hide ReadPiece, RepairSound, TruthfulSchedule;
    if filled < hole.size {
      PieceSound(l, target, session, s, hole, filled, file);
      var p := ReadPiece(l, target, session, s, hole, filled);
      if p.Piece? {
        FillHoleSound(p.link, target, session, PieceCopied(s, hole, filled, p.packet), hole,
                      Add32(filled, p.packet.size), file);
      }
    }
  }

  lemma {:induction false} FillAllSound(
      l: Link, target: Target, session: U8, s: BurstState, holes: seq<MissingBlock>, file: seq<U8>)
    requires TruthfulSchedule(l.schedule, target, file) && RepairSound(s, file)
    ensures var e := FillAll(l, target, session, s, holes);
            e.failure.None? ==> RepairSound(e.state, file)
    decreases |holes|
  {
    hide FillHole, RepairSound, TruthfulSchedule;
    if holes != [] {
      FillHoleSound(l, target, session, s, holes[0], 0, file);
      var e := FillHole(l, target, session, s, holes[0], 0);
      if e.failure.None? {
        FillAllSound(e.link, target, session, e.state, holes[1..], file);
      }
    }
  }

  lemma OpenTruthful(l: Link, target: Target, path: Path, maxSize: Option<nat>, file: seq<U8>)
    requires TruthfulSchedule(l.schedule, target, file)
    ensures var (r, l') := OpenForRead(l, target, path, maxSize);
            r.Success? ==> TruthfulSchedule(l'.schedule, target, file)
  {
    hide Call, TruthfulSchedule;
    var (s0, l0) := Draw(l);
    CallTruthful(l0, target, NewRequest(RESET_SESSIONS, s0), file);
    var (_, l1) := ResetCall(l, target);
    var (s, l2) := Draw(l1);
    CallTruthful(l2, target, PathRequest(OPEN_FILE_RO, s, path), file);
  }

  lemma DownloadSound(l: Link, target: Target, path: Path, maxSize: Option<nat>, file: seq<U8>)
    requires TruthfulSchedule(l.schedule, target, file)
    ensures var d := Download(l, target, path, maxSize);
            d.result.Success? ==>
              && RepairSound(d.state, file)
              && (d.state.missingBlocks == [] ==> d.complete && |d.state.writes| == d.state.totalPackets)
  {
    hide OpenForRead, BurstPhase, FillAll, Call, TruthfulSchedule, AllSound, AllTrue;
    OpenTruthful(l, target, path, maxSize, file);
    var (handle, l1) := OpenForRead(l, target, path, maxSize);
    if handle.Success? {
      var session := handle.value.session;
      NothingCopied(handle.value.fileSize, file);
      BurstPhaseSound(l1, target, session, NewState(handle.value.fileSize), 0, file);
      var phase := BurstPhase(l1, target, session, NewState(handle.value.fileSize), 0);
      if phase.failure.None? {
        var s := phase.state;
        assert s.writes[..s.totalPackets] == s.writes;
        FillAllSound(phase.link, target, session, s, s.missingBlocks, file);
        FillAllExtends(phase.link, target, session, s, s.missingBlocks);
        NoHolesNothingFilled(phase.link, target, session, s);
      }
    }
  }

  lemma NothingCopied(fileSize: nat, file: seq<U8>)
    ensures BurstSound(NewState(fileSize), file)
  {
  }

  lemma NoHolesNothingFilled(l: Link, target: Target, session: U8, s: BurstState)
    ensures FillAll(l, target, session, s, []) == FillEnd(None, s, l, true)
  {
  }

  /**
   From a truthful vehicle, whatever its packets suffer on the way, a successful download is a
   prefix of the file, with zeros where a hole was never repaired, provided each accepted repair
   reply carried file data for the place it was stored. A download without holes needs no proviso.
   */
  lemma TruthfulDownload(l: Link, target: Target, path: Path, maxSize: Option<nat>, file: seq<U8>)
    requires |file| < 0x1_0000_0000 && TruthfulSchedule(l.schedule, target, file)
    ensures var d := Download(l, target, path, maxSize);
            && (d.result.Success?
                && (forall k :: d.state.totalPackets <= k < |d.state.writes| ==> AnswersItsRead(d.state.writes[k])) ==>
                  var got := d.result.value;
                  && |got| <= |file|
                  && (forall i :: 0 <= i < |got| ==> got[i] == if Covered(d.state.writes, i) then file[i] else 0)
                  && (d.complete ==> got == file[..|got|]))
            && (d.result.Success? && d.state.missingBlocks == [] ==>
                  |d.result.value| <= |file| && d.result.value == file[..|d.result.value|])
  {
    hide Download, TruthfulSchedule, AnswersItsRead, Covered;
    DownloadSound(l, target, path, maxSize, file);
    DownloadCorrect(l, target, path, maxSize, file);
    var d := Download(l, target, path, maxSize);
    if d.result.Success?
      && (forall k :: d.state.totalPackets <= k < |d.state.writes| ==> AnswersItsRead(d.state.writes[k])) {
      AnsweredAreTrue(d.state, file);
    }
  }

  lemma AnsweredAreTrue(s: BurstState, file: seq<U8>)
    requires RepairSound(s, file)
    requires forall k :: s.totalPackets <= k < |s.writes| ==> AnswersItsRead(s.writes[k])
    ensures AllTrue(s.writes, file)
  {
    hide TrueTo, Sound, AnswersItsRead;
    forall k | 0 <= k < |s.writes| ensures TrueTo(s.writes[k], file) {
      if k < s.totalPackets {
        assert s.writes[..s.totalPackets][k] == s.writes[k];
      } else {
        AnsweredIsTrue(s.writes[k], file);
      }
    }
  }

  /**
   From a truthful vehicle a download without holes is the whole file exactly when a packet of the
   burst brought the file's last byte; an end-of-file reply before that one cuts the file short.
   */
  lemma TruthfulWholeFile(l: Link, target: Target, path: Path, maxSize: Option<nat>, file: seq<U8>)
    requires |file| < 0x1_0000_0000 && TruthfulSchedule(l.schedule, target, file)
    ensures var d := Download(l, target, path, maxSize);
            d.result.Success? && d.state.missingBlocks == [] ==>
              (d.result.value == file <==> file == [] || BurstCovered(d.state, |file| - 1))
  {
    hide Download, TruthfulSchedule, AnswersItsRead, Covered;
    DownloadSound(l, target, path, maxSize, file);
    WholeFileExactly(l, target, path, maxSize, file);
    DownloadCorrect(l, target, path, maxSize, file);
    var d := Download(l, target, path, maxSize);
    if d.result.Success? && d.state.missingBlocks == [] {
      AnsweredAreTrue(d.state, file);
      DownloadComplete(l, target, path, maxSize, file);
    }
  }

  /** A complete download has copied every byte it returns. */
  lemma DownloadComplete(l: Link, target: Target, path: Path, maxSize: Option<nat>, file: seq<U8>)
    requires |file| < 0x1_0000_0000
    ensures var d := Download(l, target, path, maxSize);
            d.result.Success? && d.complete && AllTrue(d.state.writes, file) ==>
              && BurstEndsAtEnd(d.state) && |d.result.value| == d.state.contiguousEnd
              && forall i :: 0 <= i < |d.result.value| ==> Covered(d.state.writes, i)
  {
    hide Download, Covered, BurstEndsAtEnd;
    DownloadReturns(l, target, path, maxSize);
    var d := Download(l, target, path, maxSize);
    if AllTrue(d.state.writes, file) {
      TrueNeverWraps(d.state.writes, file);
    }
  }

  // ---- Runs that go wrong although every packet tells the truth ----

  const VEHICLE := Target(1, 1)

  function FromVehicle(p: FtpPayload): Action {
    Arrive(HubMessage(FTP_MESSAGE_ID, VEHICLE, Some(Encoded(p))))
  }

  /** The packets arrive one after another, and nothing else happens. */
  function Arrivals(packets: seq<FtpPayload>): (schedule: seq<Action>)
    ensures |schedule| == |packets|
  {
    if packets == [] then [] else [FromVehicle(packets[0])] + Arrivals(packets[1..])
  }

  lemma ArrivalsNext(p: FtpPayload, rest: seq<FtpPayload>)
    ensures Arrivals([p] + rest)[0] == FromVehicle(p) && Arrivals([p] + rest)[1..] == Arrivals(rest)
  {
    assert ([p] + rest)[1..] == rest;
  }

  /** A new client, which draws its numbers from 0, before these arrivals. */
  function NewClient(packets: seq<FtpPayload>): Link {
    Link(VEHICLE, 0, [], Net([], [], Server(map[], map[], map[], None)), Arrivals(packets))
  }

  /** The client has drawn its numbers up to `seqNumber`, and these packets are still to arrive. */
  predicate ClientAt(l: Link, seqNumber: U16, packets: seq<FtpPayload>) {
    l.vehicle == VEHICLE && l.seqNumber == seqNumber && l.gaps == [] && l.schedule == Arrivals(packets)
  }

  lemma RecvArrival(l: Link, p: FtpPayload, expected: Option<U16>)
    requires l.schedule != [] && l.schedule[0] == FromVehicle(p) && WellFormed(p) && Matches(p, expected)
    ensures Recv(l, VEHICLE, expected) == (Got(p), l.(schedule := l.schedule[1..]))
  {
    DecodeEncode(p);
  }

  /** A request whose reply is next to arrive is answered by it. */
  lemma AnsweredNext(l: Link, request: FtpPayload, p: FtpPayload)
    requires l.schedule != [] && l.schedule[0] == FromVehicle(p) && WellFormed(p)
    requires Matches(p, Some(request.seqNumber))
    ensures var (r, l') := SendReceive(l, VEHICLE, request);
            && r == Success(p) && l' == l.(net := l'.net, schedule := l.schedule[1..])
  {
    RecvArrival(Submit(l, VEHICLE, request), p, Some(request.seqNumber));
  }

  function Ack(seqNumber: U16, reqOpcode: FtpOpcode, offset: U32, data: seq<U8>): FtpPayload
    requires |data| <= FTP_DATA_MAX_LEN
  {
    FtpPayload(seqNumber, 0, ACK, |data|, reqOpcode, 0, offset, data)
  }

  function EndOfFile(seqNumber: U16, reqOpcode: FtpOpcode): FtpPayload {
    FtpPayload(seqNumber, 0, NAK, 1, reqOpcode, 0, 0, [EOF])
  }

  lemma ArrivalTruthful(p: FtpPayload, file: seq<U8>)
    requires WellFormed(p) && Truthful(p, file)
    ensures TruthfulMessage(FromVehicle(p).msg, VEHICLE, file)
  {
    DecodeEncode(p);
  }

  lemma {:induction false} ArrivalsTruthful(packets: seq<FtpPayload>, file: seq<U8>)
    requires forall i :: 0 <= i < |packets| ==> WellFormed(packets[i]) && Truthful(packets[i], file)
    ensures TruthfulSchedule(Arrivals(packets), VEHICLE, file)
    decreases |packets|
  {
    hide TruthfulMessage, Truthful, Encoded;
    if packets != [] {
      ArrivalTruthful(packets[0], file);
      ArrivalsTruthful(packets[1..], file);
    }
  }

  const TWO_BYTES: seq<U8> := [1, 2]

  /** The replies to the reset, numbered 0, and to the open, numbered 1. */
  const OPENING: seq<FtpPayload> := [Ack(1, RESET_SESSIONS, 0, []), Ack(2, OPEN_FILE_RO, 0, [])]

  /** The packets of the burst that request 2 asks for, each with one byte of the file. */
  const FIRST_OF_BURST := Ack(3, BURST_READ_FILE, 0, [1])
  const SECOND_OF_BURST := Ack(4, BURST_READ_FILE, 1, [2])

  const END_OF_BURST := EndOfFile(5, BURST_READ_FILE)

  lemma ClientOpens(l: Link, rest: seq<FtpPayload>)
    requires ClientAt(l, 0, OPENING + rest)
    ensures var (r, l') := OpenForRead(l, VEHICLE, [], None);
            r == Success(Opened(0, 0)) && ClientAt(l', 2, rest)
  {
    hide SendReceive, Arrivals, FromVehicle;
    assert OPENING + rest == [OPENING[0]] + ([OPENING[1]] + rest);
    ArrivalsNext(OPENING[0], [OPENING[1]] + rest);
    ArrivalsNext(OPENING[1], rest);
    var (s0, l0) := Draw(l);
    AnsweredNext(l0, NewRequest(RESET_SESSIONS, s0), OPENING[0]);
    var (_, l1) := ResetCall(l, VEHICLE);
    var (s1, l2) := Draw(l1);
    AnsweredNext(l2, PathRequest(OPEN_FILE_RO, s1, []), OPENING[1]);
  }

  /** The burst brings one packet and ends. */
  lemma ClientBursts(l: Link, chunk: FtpPayload, rest: seq<FtpPayload>)
    requires ClientAt(l, 2, [chunk, END_OF_BURST] + rest)
    requires WellFormed(chunk) && IsBurstChunk(chunk) && chunk.burstComplete == 0
    requires ApplyChunk(NewState(0), chunk).Accepted?
    ensures var e := BurstPhase(l, VEHICLE, 0, NewState(0), 0);
            && e.failure == None && e.state == ApplyChunk(NewState(0), chunk).state
            && ClientAt(e.link, 3, rest)
  {
    hide Recv, ApplyChunk, Arrivals, FromVehicle;
    assert [chunk, END_OF_BURST] + rest == [chunk] + ([END_OF_BURST] + rest);
    ArrivalsNext(chunk, [END_OF_BURST] + rest);
    ArrivalsNext(END_OF_BURST, rest);
    var (s, l0) := Draw(l);
    var l1 := Submit(l0, VEHICLE, BurstRequest(s, 0, 0));
    RecvArrival(l1, chunk, None);
    var l2 := l1.(schedule := l1.schedule[1..]);
    RecvArrival(l2, END_OF_BURST, None);
    var after := ApplyChunk(NewState(0), chunk).state;
    assert CycleLoop(l2, VEHICLE, 0, after, 0) == CycleEnd(AtEof, after, 0, l2.(schedule := l2.schedule[1..]));
  }

  lemma ClientTerminates(l: Link, seqNumber: U16)
    requires seqNumber < 0xFFFF && ClientAt(l, seqNumber, [Ack(seqNumber + 1, TERMINATE_SESSION, 0, [])])
    ensures TerminateCall(l, VEHICLE, 0).0.Success?
  {
    hide SendReceive;
    var (s, l') := Draw(l);
    AnsweredNext(l', NewRequest(TERMINATE_SESSION, s), Ack(seqNumber + 1, TERMINATE_SESSION, 0, []));
  }

  /** A download whose burst and repairs are known, up to its truncation. */
  lemma ClientDownloads(packets: seq<FtpPayload>, phase: PhaseEnd, fill: FillEnd)
    requires var (r, l') := OpenForRead(NewClient(packets), VEHICLE, [], None);
             r == Success(Opened(0, 0)) && phase == BurstPhase(l', VEHICLE, 0, NewState(0), 0)
    requires phase.failure.None? && fill == FillAll(phase.link, VEHICLE, 0, phase.state, phase.state.missingBlocks)
    requires fill.failure.None? && TerminateCall(fill.link, VEHICLE, 0).0.Success?
    ensures var d := Download(NewClient(packets), VEHICLE, [], None);
            && d.result == Success(Truncated(fill.state)) && d.complete == fill.complete
            && d.state.missingBlocks == fill.state.missingBlocks
  {
    hide OpenForRead, BurstPhase, FillAll, TerminateCall;
  }

  // ---- Downloads that succeed ----

  /** The packets of a burst over the file from `offset` on, numbered on. */
  function Chunks(file: seq<U8>, offset: nat, number: nat): seq<FtpPayload>
    requires offset <= |file| < 0x1_0000_0000
    decreases |file| - offset
  {
    if offset == |file| then []
    else
      var n := Min(|file| - offset, FTP_DATA_MAX_LEN);
      [Ack(number % 0x1_0000, BURST_READ_FILE, offset, file[offset..offset + n])] + Chunks(file, offset + n, number + 1)
  }

  /** The file up to `offset` is there, with no hole. */
  predicate ReadUpTo(s: BurstState, file: seq<U8>, offset: nat) {
    offset <= |file| && s.fileData == file[..offset] && s.contiguousEnd == offset && s.missingBlocks == []
  }

  lemma ChunkReads(s: BurstState, file: seq<U8>, offset: nat, n: nat, p: FtpPayload)
    requires ReadUpTo(s, file, offset) && |file| < 0x1_0000_0000
    requires 0 < n <= FTP_DATA_MAX_LEN && offset + n <= |file|
    requires p.offset == offset && p.size == n && p.data == file[offset..offset + n]
    ensures ApplyChunk(s, p).Accepted? && ReadUpTo(ApplyChunk(s, p).state, file, offset + n)
  {
    assert p.data[..n] == p.data;
    Add32Exact(offset, n);
    assert Overwrite(file[..offset], offset, p.data) == file[..offset + n];
  }

  lemma {:induction false} ReadsChunks(
      l: Link, file: seq<U8>, offset: nat, number: nat, s: BurstState, rest: seq<FtpPayload>)
    requires offset <= |file| < 0x1_0000_0000 && ReadUpTo(s, file, offset)
    requires l.schedule == Arrivals(Chunks(file, offset, number) + ([END_OF_BURST] + rest))
    ensures var e := CycleLoop(l, VEHICLE, 0, s, 0);
            e.outcome == AtEof && ReadUpTo(e.state, file, |file|) && e.link == l.(schedule := Arrivals(rest))
    decreases |file| - offset
  {
    hide Recv, ApplyChunk, Arrivals, FromVehicle, ReadUpTo;
    if offset == |file| {
      assert Chunks(file, offset, number) + ([END_OF_BURST] + rest) == [END_OF_BURST] + rest;
      ArrivalsNext(END_OF_BURST, rest);
      RecvArrival(l, END_OF_BURST, None);
    } else {
      var n := Min(|file| - offset, FTP_DATA_MAX_LEN);
      var p := Ack(number % 0x1_0000, BURST_READ_FILE, offset, file[offset..offset + n]);
      var later := Chunks(file, offset + n, number + 1) + ([END_OF_BURST] + rest);
      assert Chunks(file, offset, number) + ([END_OF_BURST] + rest) == [p] + later;
      ArrivalsNext(p, later);
      RecvArrival(l, p, None);
      ChunkReads(s, file, offset, n, p);
      ReadsChunks(l.(schedule := Arrivals(later)), file, offset + n, number + 1, ApplyChunk(s, p).state, rest);
    }
  }

  /** A vehicle's whole side of a download: the opening, the burst, its end, and the termination. */
  function WholeDownload(file: seq<U8>): seq<FtpPayload>
    requires |file| < 0x1_0000_0000
  {
    OPENING + (Chunks(file, 0, 3) + ([END_OF_BURST] + [Ack(4, TERMINATE_SESSION, 0, [])]))
  }

  predicate AllTruthful(packets: seq<FtpPayload>, file: seq<U8>) {
    forall i :: 0 <= i < |packets| ==> WellFormed(packets[i]) && Truthful(packets[i], file)
  }

  lemma AllTruthfulConcat(a: seq<FtpPayload>, b: seq<FtpPayload>, file: seq<U8>)
    requires AllTruthful(a, file) && AllTruthful(b, file)
    ensures AllTruthful(a + b, file)
  {
    hide WellFormed, Truthful;
  }

  lemma {:induction false} ChunksTruthful(file: seq<U8>, offset: nat, number: nat)
    requires offset <= |file| < 0x1_0000_0000
    ensures AllTruthful(Chunks(file, offset, number), file)
    decreases |file| - offset
  {
    hide AllTruthful;
    if offset == |file| {
      NoneTruthful(file);
    } else {
      var n := Min(|file| - offset, FTP_DATA_MAX_LEN);
      OneTruthful(Ack(number % 0x1_0000, BURST_READ_FILE, offset, file[offset..offset + n]), file);
      ChunksTruthful(file, offset + n, number + 1);
      AllTruthfulConcat([Ack(number % 0x1_0000, BURST_READ_FILE, offset, file[offset..offset + n])],
                        Chunks(file, offset + n, number + 1), file);
    }
  }

  lemma NoneTruthful(file: seq<U8>)
    ensures AllTruthful([], file)
  {
  }

  lemma OneTruthful(p: FtpPayload, file: seq<U8>)
    requires WellFormed(p) && Truthful(p, file)
    ensures AllTruthful([p], file)
  {
  }

  lemma WholeIsTruthful(file: seq<U8>)
    requires |file| < 0x1_0000_0000
    ensures TruthfulSchedule(Arrivals(WholeDownload(file)), VEHICLE, file)
  {
    hide Chunks, Arrivals;
    var last := [Ack(4, TERMINATE_SESSION, 0, [])];
    ChunksTruthful(file, 0, 3);
    AllTruthfulConcat([END_OF_BURST], last, file);
    AllTruthfulConcat(Chunks(file, 0, 3), [END_OF_BURST] + last, file);
    AllTruthfulConcat(OPENING, Chunks(file, 0, 3) + ([END_OF_BURST] + last), file);
    ArrivalsTruthful(WholeDownload(file), file);
  }

  lemma WholeBurst(l: Link, file: seq<U8>, rest: seq<FtpPayload>)
    requires |file| < 0x1_0000_0000 && ClientAt(l, 2, Chunks(file, 0, 3) + ([END_OF_BURST] + rest))
    ensures var e := BurstPhase(l, VEHICLE, 0, NewState(0), 0);
            e.failure == None && ReadUpTo(e.state, file, |file|) && ClientAt(e.link, 3, rest)
  {
    hide CycleLoop, Chunks, Arrivals;
    var (s, l0) := Draw(l);
    ReadsChunks(Submit(l0, VEHICLE, BurstRequest(s, 0, 0)), file, 0, 3, NewState(0), rest);
  }

  /** Every file can be downloaded whole from a truthful vehicle. */
  lemma DownloadSucceeds(file: seq<U8>)
    requires |file| < 0x1_0000_0000
    ensures TruthfulSchedule(NewClient(WholeDownload(file)).schedule, VEHICLE, file)
    ensures var d := Download(NewClient(WholeDownload(file)), VEHICLE, [], None);
            d.result == Success(file) && d.complete
  {
    hide OpenForRead, BurstPhase, FillAll, TerminateCall, Download, Arrivals, Chunks;
    WholeIsTruthful(file);
    var last := [Ack(4, TERMINATE_SESSION, 0, [])];
    ClientOpens(NewClient(WholeDownload(file)), Chunks(file, 0, 3) + ([END_OF_BURST] + last));
    var (_, l1) := OpenForRead(NewClient(WholeDownload(file)), VEHICLE, [], None);
    WholeBurst(l1, file, last);
    var phase := BurstPhase(l1, VEHICLE, 0, NewState(0), 0);
    NoHolesNothingFilled(phase.link, VEHICLE, 0, phase.state);
    ClientTerminates(phase.link, 3);
    ClientDownloads(WholeDownload(file), phase, FillEnd(None, phase.state, phase.link, true));
    assert Truncated(phase.state) == file;
  }

  // ---- Downloads that go wrong ----

  /** The burst's first packet, its end too early, and no second packet. */
  const EARLY_END := OPENING + ([FIRST_OF_BURST, END_OF_BURST] + [Ack(4, TERMINATE_SESSION, 0, [])])

  lemma FirstLeavesNoHole()
    ensures var c := ApplyChunk(NewState(0), FIRST_OF_BURST);
            c.Accepted? && c.state.missingBlocks == [] && Truncated(c.state) == [1]
  {
  }

  /** An early end of file: from a vehicle holding 1, 2 the client returns 1, complete and without holes. */
  lemma EarlyEndTruncates()
    ensures TruthfulSchedule(NewClient(EARLY_END).schedule, VEHICLE, TWO_BYTES)
    ensures var d := Download(NewClient(EARLY_END), VEHICLE, [], None);
            d.result == Success([1]) && d.complete && d.state.missingBlocks == []
  {
    hide OpenForRead, BurstPhase, FillAll, TerminateCall, Download, ApplyChunk, Arrivals, Truncated;
    FirstLeavesNoHole();
    ArrivalsTruthful(EARLY_END, TWO_BYTES);
    ClientOpens(NewClient(EARLY_END), [FIRST_OF_BURST, END_OF_BURST] + [Ack(4, TERMINATE_SESSION, 0, [])]);
    var (_, l1) := OpenForRead(NewClient(EARLY_END), VEHICLE, [], None);
    ClientBursts(l1, FIRST_OF_BURST, [Ack(4, TERMINATE_SESSION, 0, [])]);
    var phase := BurstPhase(l1, VEHICLE, 0, NewState(0), 0);
    NoHolesNothingFilled(phase.link, VEHICLE, 0, phase.state);
    ClientTerminates(phase.link, 3);
    ClientDownloads(EARLY_END, phase, FillEnd(None, phase.state, phase.link, true));
  }

  const REFUSAL := FtpPayload(4, 0, NAK, 1, BURST_READ_FILE, 0, 0, [FAIL])

  /** The burst's first packet, a refusal, and the reply to the termination. */
  const REFUSED_BURST := OPENING + ([FIRST_OF_BURST, REFUSAL] + [Ack(4, TERMINATE_SESSION, 0, [])])

  lemma ClientRefused(l: Link)
    requires ClientAt(l, 2, [FIRST_OF_BURST, REFUSAL] + [Ack(4, TERMINATE_SESSION, 0, [])])
    ensures BurstPhase(l, VEHICLE, 0, NewState(0), 0).failure == Some(Refused(FtpNakError(1, None)))
  {
    hide Recv, ApplyChunk, Arrivals, FromVehicle, TerminateCall;
    var last := [Ack(4, TERMINATE_SESSION, 0, [])];
    assert [FIRST_OF_BURST, REFUSAL] + last == [FIRST_OF_BURST] + ([REFUSAL] + last);
    ArrivalsNext(FIRST_OF_BURST, [REFUSAL] + last);
    ArrivalsNext(REFUSAL, last);
    var (s, l0) := Draw(l);
    var l1 := Submit(l0, VEHICLE, BurstRequest(s, 0, 0));
    FirstLeavesNoHole();
    RecvArrival(l1, FIRST_OF_BURST, None);
    var l2 := l1.(schedule := l1.schedule[1..]);
    RecvArrival(l2, REFUSAL, None);
    var after := ApplyChunk(NewState(0), FIRST_OF_BURST).state;
    assert CycleLoop(l2, VEHICLE, 0, after, 0).outcome == Aborted(Refused(FtpNakError(1, None)));
  }

  /** A refusal in the middle of a burst is the download's error, although a first byte had come. */
  lemma RefusedBurstFails()
    ensures Download(NewClient(REFUSED_BURST), VEHICLE, [], None).result == Failure(Refused(FtpNakError(1, None)))
  {
    hide OpenForRead, BurstPhase, FillAll, TerminateCall, Arrivals;
    ClientOpens(NewClient(REFUSED_BURST), [FIRST_OF_BURST, REFUSAL] + [Ack(4, TERMINATE_SESSION, 0, [])]);
    var (_, l1) := OpenForRead(NewClient(REFUSED_BURST), VEHICLE, [], None);
    ClientRefused(l1);
  }

  /** What the client knows when only the burst's second packet arrived: a hole of one byte before it. */
  function AfterSecond(): BurstState {
    ApplyChunk(NewState(0), SECOND_OF_BURST).state
  }

  const HOLE := MissingBlock(0, 1)

  lemma SecondLeavesHole()
    ensures AfterSecond().missingBlocks == [HOLE] && AfterSecond().fileData == [0, 2]
    ensures AfterSecond().contiguousEnd == 2
  {
  }

  /** The burst's second packet, its end, a reply to the repair read, and the reply to the termination. */
  function OneHole(reply: FtpPayload): seq<FtpPayload> {
    OPENING + ([SECOND_OF_BURST, END_OF_BURST] + ([reply] + [Ack(5, TERMINATE_SESSION, 0, [])]))
  }

  /** With the first packet lost, the download is decided by how the repair read ends. */
  lemma OneHoleRun(reply: FtpPayload, l: Link) returns (fill: FillEnd)
    requires WellFormed(reply) && Matches(reply, Some(3)) && l == NewClient(OneHole(reply))
    requires CheckNak(reply).Some? ==> CheckNak(reply).value.errCode == EOF
    ensures fill.failure.None?
    ensures fill.complete == (CheckNak(reply).None? && reply.size > 0)
    ensures fill.state == if fill.complete then PieceCopied(AfterSecond(), HOLE, 0, reply) else AfterSecond()
    ensures var d := Download(l, VEHICLE, [], None);
            d.result == Success(Truncated(fill.state)) && d.complete == fill.complete
  {
    hide OpenForRead, BurstPhase, FillAll, TerminateCall, Download;
    var last := [Ack(5, TERMINATE_SESSION, 0, [])];
    ClientOpens(l, [SECOND_OF_BURST, END_OF_BURST] + ([reply] + last));
    var (_, l1) := OpenForRead(l, VEHICLE, [], None);
    ClientBursts(l1, SECOND_OF_BURST, [reply] + last);
    var phase := BurstPhase(l1, VEHICLE, 0, NewState(0), 0);
    SecondLeavesHole();
    fill := OneHoleFilled(reply, phase.link);
    ClientTerminates(fill.link, 4);
    ClientDownloads(OneHole(reply), phase, fill);
  }

  lemma OneHoleFilled(reply: FtpPayload, l: Link) returns (fill: FillEnd)
    requires WellFormed(reply) && Matches(reply, Some(3))
    requires ClientAt(l, 3, [reply] + [Ack(5, TERMINATE_SESSION, 0, [])])
    requires CheckNak(reply).Some? ==> CheckNak(reply).value.errCode == EOF
    ensures fill == FillAll(l, VEHICLE, 0, AfterSecond(), [HOLE]) && fill.failure.None?
    ensures fill.complete == (CheckNak(reply).None? && reply.size > 0)
    ensures fill.state == if fill.complete then PieceCopied(AfterSecond(), HOLE, 0, reply) else AfterSecond()
    ensures ClientAt(fill.link, 4, [Ack(5, TERMINATE_SESSION, 0, [])])
  {
    hide SendReceive, AfterSecond, Arrivals, FromVehicle;
    var (s, l1) := Draw(l);
    ArrivalsNext(reply, [Ack(5, TERMINATE_SESSION, 0, [])]);
    AnsweredNext(l1, ReadRequest(s, 0, 0, 1), reply);
    var p := ReadPiece(l, VEHICLE, 0, AfterSecond(), HOLE, 0);
    fill := FillHole(l, VEHICLE, 0, AfterSecond(), HOLE, 0);
    if p.Piece? {
      assert p.packet == reply;
      Add32Exact(0, reply.size);
      assert FillHole(p.link, VEHICLE, 0, PieceCopied(AfterSecond(), HOLE, 0, reply), HOLE, reply.size)
          == FillEnd(None, PieceCopied(AfterSecond(), HOLE, 0, reply), p.link, true);
      assert fill == FillEnd(None, PieceCopied(AfterSecond(), HOLE, 0, reply), p.link, true);
    }
    assert [HOLE][1..] == [];
    NoHolesNothingFilled(fill.link, VEHICLE, 0, fill.state);
  }

  lemma OneHoleTruthful(reply: FtpPayload)
    requires WellFormed(reply) && Truthful(reply, TWO_BYTES)
    ensures TruthfulSchedule(NewClient(OneHole(reply)).schedule, VEHICLE, TWO_BYTES)
  {
    hide Arrivals;
    ArrivalsTruthful(OneHole(reply), TWO_BYTES);
  }

  /**
   The burst's packets are numbered on from its request, so a repeated one can pass for the reply
   to a repair read: from a truthful vehicle holding 1, 2 the client returns 2, 2 as complete.
   */
  lemma RepeatedPacketMisplaced()
    ensures TruthfulSchedule(NewClient(OneHole(SECOND_OF_BURST)).schedule, VEHICLE, TWO_BYTES)
    ensures var d := Download(NewClient(OneHole(SECOND_OF_BURST)), VEHICLE, [], None);
            d.result == Success([2, 2]) && d.complete && d.result.value != TWO_BYTES
  {
    hide Download, NewClient, OneHole, TruthfulSchedule;
    OneHoleTruthful(SECOND_OF_BURST);
    SecondLeavesHole();
    var fill := OneHoleRun(SECOND_OF_BURST, NewClient(OneHole(SECOND_OF_BURST)));
    assert Truncated(fill.state) == [2, 2];
  }

  /**
   A repair read answered by an end of file, or by nothing, is given up: from a truthful vehicle
   holding 1, 2 the client returns 0, 2 and reports success.
   */
  lemma UnrepairedHoleIsZero(reply: FtpPayload)
    requires reply == EndOfFile(4, READ_FILE) || reply == Ack(4, READ_FILE, 0, [])
    ensures TruthfulSchedule(NewClient(OneHole(reply)).schedule, VEHICLE, TWO_BYTES)
    ensures var d := Download(NewClient(OneHole(reply)), VEHICLE, [], None);
            d.result == Success([0, 2]) && !d.complete
  {
    hide Download, NewClient, OneHole, TruthfulSchedule;
    OneHoleTruthful(reply);
    SecondLeavesHole();
    var fill := OneHoleRun(reply, NewClient(OneHole(reply)));
    assert Truncated(fill.state) == [0, 2];
  }
}
