/** `burst_read_file_inner` (mavftp/client.rs): burst download, hole repair, truncation. */
module BurstRead {
  import opened Wrappers
  import opened Bytes
  import opened FtpProtocol
  import opened FtpServer
  import opened Transport

  datatype MissingBlock = MissingBlock(offset: U32, size: U32)

  /** A copy made into the file: where, what, how many bytes had been asked for, and the packet it came in. */
  datatype Write = Write(offset: U32, data: seq<U8>, asked: nat, packet: FtpPayload)

  /**
   `BurstReadState`, with two logs: the progress values published and the copies made, in order.
   */
  datatype BurstState = BurstState(
    fileData: seq<U8>,
    contiguousEnd: U32,
    bytesWritten: U32,
    missingBlocks: seq<MissingBlock>,
    totalPackets: nat,
    published: seq<nat>,
    writes: seq<Write>)

  function NewState(fileSize: nat): BurstState {
    BurstState(Zeros(fileSize), 0, 0, [], 0, [], [])
  }

  /** Makes a copy into the file and publishes the new count. */
  function Copied(s: BurstState, w: Write): BurstState {
    var count := Add32(s.bytesWritten, |w.data|);
    s.(fileData := Overwrite(s.fileData, w.offset, w.data),
       bytesWritten := count,
       published := s.published + [count],
       writes := s.writes + [w])
  }

  /** The copy of a packet's data, as long as its size field says, made at the given offset. */
  function CopyOf(p: FtpPayload, offset: U32, asked: nat): Write
    requires p.size <= |p.data|
  {
    Write(offset, p.data[..p.size], asked, p)
  }

  // ---- Burst phase ----

  datatype Chunk = Dropped | Accepted(state: BurstState) | Malformed(state: BurstState)

  /** The hole a chunk leaves before it, if it is ahead of the end. */
  function NewHole(end: U32, chunkOffset: U32): seq<MissingBlock> {
    if chunkOffset > end then [MissingBlock(end, chunkOffset - end)] else []
  }

  function NoteHole(s: BurstState, chunkOffset: U32): BurstState {
    s.(missingBlocks := s.missingBlocks + NewHole(s.contiguousEnd, chunkOffset))
  }

  function ApplyChunk(s: BurstState, resp: FtpPayload): (c: Chunk)
    ensures c.Accepted? ==> c.state.totalPackets == s.totalPackets + 1
  {
    if resp.size == 0 || resp.offset < s.contiguousEnd then Dropped
    else if |resp.data| < resp.size then Malformed(NoteHole(s, resp.offset))
    else
      var s' := Copied(NoteHole(s, resp.offset), CopyOf(resp, resp.offset, resp.size));
      Accepted(s'.(contiguousEnd := Add32(resp.offset, resp.size), totalPackets := s'.totalPackets + 1))
  }

  datatype CycleOutcome = Continue | AtEof | Aborted(failure: FtpFailure)

  datatype CycleEnd = CycleEnd(outcome: CycleOutcome, state: BurstState, retries: nat, link: Link)

  predicate IsBurstChunk(p: FtpPayload) {
    p.opcode == ACK && p.reqOpcode == BURST_READ_FILE
  }

  /** Receives the packets of one burst until it is complete, refused, or silent. */
  function CycleLoop(l: Link, target: Target, session: U8, s: BurstState, retries: nat): (e: CycleEnd)
    requires retries <= FTP_MAX_RETRIES
    ensures |e.link.schedule| <= |l.schedule|
    ensures e.outcome.Continue? ==>
              && e.retries <= FTP_MAX_RETRIES
              && (|e.link.schedule| < |l.schedule| || e.retries == retries + 1)
    decreases |l.schedule|
  {
    var (r, l') := Recv(l, target, None);
    match r
    case Expired =>
      if retries + 1 > FTP_MAX_RETRIES
      then CycleEnd(Aborted(TimedOut), s, retries + 1, TerminateCall(l', target, session).1)
      else CycleEnd(Continue, s, retries + 1, l')
    case Broken(_) => CycleLoop(l', target, session, s, retries)
    case Got(p) =>
      var nak := CheckNak(p);
      if nak.Some? then
        if nak.value.errCode == EOF then CycleEnd(AtEof, s, retries, l')
        else CycleEnd(Aborted(Refused(nak.value)), s, retries, TerminateCall(l', target, session).1)
      else if !IsBurstChunk(p) then CycleLoop(l', target, session, s, retries)
      else
        match ApplyChunk(s, p)
        case Dropped => CycleLoop(l', target, session, s, retries)
        case Malformed(s') => CycleEnd(Aborted(ShortData), s', retries, l')
        case Accepted(s') =>
          if p.burstComplete == 1 then CycleEnd(Continue, s', 0, l')
          else CycleLoop(l', target, session, s', 0)
  }

  function BurstRequest(seqNumber: U16, session: U8, offset: U32): FtpPayload {
    NewRequest(BURST_READ_FILE, seqNumber).(session := session, offset := offset, size := FTP_DATA_MAX_LEN)
  }

  function Cycle(l: Link, target: Target, session: U8, s: BurstState, retries: nat): (e: CycleEnd)
    requires retries <= FTP_MAX_RETRIES
    ensures e.outcome.Continue? ==>
              && e.retries <= FTP_MAX_RETRIES
              && (|e.link.schedule| < |l.schedule| || (|e.link.schedule| == |l.schedule| && e.retries == retries + 1))
  {
    var (seqNumber, l1) := Draw(l);
    CycleLoop(Submit(l1, target, BurstRequest(seqNumber, session, s.contiguousEnd)), target, session, s, retries)
  }

  datatype PhaseEnd = PhaseEnd(failure: Option<FtpFailure>, state: BurstState, link: Link, cycles: nat)

  function BurstPhase(l: Link, target: Target, session: U8, s: BurstState, retries: nat): PhaseEnd
    requires retries <= FTP_MAX_RETRIES
    decreases |l.schedule|, FTP_MAX_RETRIES - retries
  {
    var e := Cycle(l, target, session, s, retries);
    match e.outcome
    case AtEof => PhaseEnd(None, e.state, e.link, 1)
    case Aborted(failure) => PhaseEnd(Some(failure), e.state, e.link, 1)
    case Continue =>
      var rest := BurstPhase(e.link, target, session, e.state, e.retries);
      rest.(cycles := rest.cycles + 1)
  }

  // ---- Repair phase ----

  datatype FillEnd = FillEnd(failure: Option<FtpFailure>, state: BurstState, link: Link, complete: bool)

  function ReadRequest(seqNumber: U16, session: U8, offset: U32, size: U8): FtpPayload {
    NewRequest(READ_FILE, seqNumber).(session := session, offset := offset, size := size)
  }

  datatype PieceRead = Piece(packet: FtpPayload, link: Link) | Stopped(end: FillEnd)

  /** One read of a hole: some bytes, or the reason to stop reading it. */
  function ReadPiece(l: Link, target: Target, session: U8, s: BurstState, hole: MissingBlock, filled: U32)
    : (p: PieceRead)
    requires filled < hole.size
    ensures p.Piece? ==> 0 < p.packet.size <= |p.packet.data| && |p.link.schedule| < |l.schedule|
    ensures p.Stopped? ==> p.end.state == s && !p.end.complete
  {
    var readSize := Min(hole.size - filled, FTP_DATA_MAX_LEN);
    var (seqNumber, l1) := Draw(l);
    var (r, l2) := SendReceive(l1, target, ReadRequest(seqNumber, session, Add32(hole.offset, filled), readSize));
    if r.Failure? then Stopped(FillEnd(Some(r.error), s, TerminateCall(l2, target, session).1, false))
    else
      var resp, nak := r.value, CheckNak(r.value);
      if nak.Some? then
        if nak.value.errCode == EOF then Stopped(FillEnd(None, s, l2, false))
        else Stopped(FillEnd(Some(Refused(nak.value)), s, TerminateCall(l2, target, session).1, false))
      else if resp.size == 0 then Stopped(FillEnd(None, s, l2, false))
      else if |resp.data| < resp.size then Stopped(FillEnd(Some(ShortData), s, l2, false))
      else Piece(resp, l2)
  }

  /** The state after a piece of a hole is copied in. */
  function PieceCopied(s: BurstState, hole: MissingBlock, filled: U32, p: FtpPayload): BurstState
    requires filled < hole.size && p.size <= |p.data|
  {
    Copied(s, CopyOf(p, Add32(hole.offset, filled), Min(hole.size - filled, FTP_DATA_MAX_LEN)))
  }

  /** Reads one hole piece by piece; `complete` says it was read to its end. */
  function FillHole(l: Link, target: Target, session: U8, s: BurstState, hole: MissingBlock, filled: U32): (e: FillEnd)
    ensures e.failure.Some? ==> !e.complete
    decreases |l.schedule|
  {
    if filled >= hole.size then FillEnd(None, s, l, true)
    else
      match ReadPiece(l, target, session, s, hole, filled)
      case Stopped(end) => end
      case Piece(p, l') =>
        FillHole(l', target, session, PieceCopied(s, hole, filled, p), hole, Add32(filled, p.size))
  }

  function FillAll(l: Link, target: Target, session: U8, s: BurstState, holes: seq<MissingBlock>): (e: FillEnd)
    ensures e.failure.Some? ==> !e.complete
    decreases |holes|
  {
    if holes == [] then FillEnd(None, s, l, true)
    else
      var e := FillHole(l, target, session, s, holes[0], 0);
      if e.failure.Some? then e
      else
        var rest := FillAll(e.link, target, session, e.state, holes[1..]);
        rest.(complete := e.complete && rest.complete)
  }

  // ---- The whole download ----

  datatype Opened = Opened(session: U8, fileSize: nat)

  /** The size an open reply advertises: little-endian, when four bytes are there. */
  function AdvertisedSize(resp: FtpPayload): nat {
    if resp.size >= 4 && |resp.data| >= 4
    then FromLe32(resp.data[0], resp.data[1], resp.data[2], resp.data[3]) else 0
  }

  function OpenForRead(l: Link, target: Target, path: Path, maxSize: Option<nat>): (Result<Opened, FtpFailure>, Link) {
    var (reset, l1) := ResetCall(l, target);
    if reset.Failure? then (Failure(reset.error), l1)
    else
      var (s, l2) := Draw(l1);
      var (r, l3) := Call(l2, target, PathRequest(OPEN_FILE_RO, s, path));
      if r.Failure? then (Failure(r.error), l3)
      else
        var fileSize := AdvertisedSize(r.value);
        if maxSize.Some? && fileSize > maxSize.value
        then (Failure(TooLarge), TerminateCall(l3, target, r.value.session).1)
        else (Success(Opened(r.value.session, fileSize)), l3)
  }

  /** Bursts, repairs, terminates and truncates; `complete` says every hole was read to its end. */
  datatype DownloadEnd = DownloadEnd(
    result: Result<seq<U8>, FtpFailure>, state: BurstState, link: Link, complete: bool, cycles: nat)

  function Truncated(s: BurstState): seq<U8> {
    s.fileData[..Min(|s.fileData|, s.contiguousEnd)]
  }

  function Published(s: BurstState, value: nat): BurstState {
    s.(published := s.published + [value])
  }

  function ReadOpened(l: Link, target: Target, handle: Opened): DownloadEnd {
    var phase := BurstPhase(l, target, handle.session, NewState(handle.fileSize), 0);
    if phase.failure.Some?
    then DownloadEnd(Failure(phase.failure.value), phase.state, phase.link, false, phase.cycles)
    else
      var fill := FillAll(phase.link, target, handle.session, phase.state, phase.state.missingBlocks);
      if fill.failure.Some?
      then DownloadEnd(Failure(fill.failure.value), fill.state, fill.link, false, phase.cycles)
      else
        var (r, l') := TerminateCall(fill.link, target, handle.session);
        if r.Failure? then DownloadEnd(Failure(r.error), fill.state, l', fill.complete, phase.cycles)
        else
          var file := Truncated(fill.state);
          DownloadEnd(Success(file), Published(fill.state, |file|), l', fill.complete, phase.cycles)
  }

  function Download(l: Link, target: Target, path: Path, maxSize: Option<nat>): DownloadEnd {
    var (handle, l1) := OpenForRead(l, target, path, maxSize);
    if handle.Failure? then DownloadEnd(Failure(handle.error), NewState(0), l1, false, 0)
    else ReadOpened(l1, target, handle.value)
  }

  // ---- The imperative client ----

  class Progress {
    var value: nat
  }

  class BurstReadState {
    var fileData: seq<U8>
    var contiguousEnd: U32
    var bytesWritten: U32
    var missingBlocks: seq<MissingBlock>
    var totalPackets: nat
    ghost var published: seq<nat>
    ghost var writes: seq<Write>

    constructor (fileSize: nat)
      ensures View() == NewState(fileSize)
    {
      fileData := Zeros(fileSize);
      contiguousEnd, bytesWritten, missingBlocks, totalPackets := 0, 0, [], 0;
      published, writes := [], [];
    }

    ghost function View(): BurstState
      reads this
    {
      BurstState(fileData, contiguousEnd, bytesWritten, missingBlocks, totalPackets, published, writes)
    }

    /** The shared progress cell holds the last published value. */
    ghost predicate Synced(progress: Progress?)
      reads this, progress
    {
      progress != null && published != [] ==> progress.value == published[|published| - 1]
    }

    method CopyChunkIntoBuffer(offset: U32, size: nat, data: seq<U8>) returns (ok: bool)
      modifies this`fileData
      ensures ok == (|data| >= size)
      ensures fileData == if ok then Overwrite(old(fileData), offset, data[..size]) else old(fileData)
    {
      if |data| < size {
        return false;
      }
      var end := offset + size;
      if end > |fileData| {
        fileData := fileData + Zeros(end - |fileData|);
      }
      fileData := fileData[..offset] + data[..size] + fileData[end..];
      ok := true;
    }

    method RecordBytesWritten(size: nat, progress: Progress?)
      modifies this`bytesWritten, this`published, progress
      ensures bytesWritten == Add32(old(bytesWritten), size)
      ensures published == old(published) + [bytesWritten]
      ensures Synced(progress)
    {
      bytesWritten := Add32(bytesWritten, size);
      published := published + [bytesWritten];
      if progress != null {
        progress.value := bytesWritten;
      }
    }

    method ApplyBurstChunk(resp: FtpPayload, progress: Progress?) returns (applied: Result<bool, FtpFailure>)
      requires Synced(progress)
      modifies this, progress
      ensures Synced(progress)
      ensures match ApplyChunk(old(View()), resp)
              case Dropped => applied == Success(false) && View() == old(View())
              case Malformed(s) => applied == Failure(ShortData) && View() == s
              case Accepted(s) => applied == Success(true) && View() == s.(totalPackets := old(totalPackets))
    {
      var chunkSize := resp.size;
      if chunkSize == 0 {
        return Success(false);
      }
      if resp.offset > contiguousEnd {
        missingBlocks := missingBlocks + [MissingBlock(contiguousEnd, resp.offset - contiguousEnd)];
      } else if resp.offset < contiguousEnd {
        return Success(false);
      }
      assert missingBlocks == old(missingBlocks) + NewHole(old(contiguousEnd), resp.offset);
      var ok := CopyChunkIntoBuffer(resp.offset, chunkSize, resp.data);
      if !ok {
        return Failure(ShortData);
      }
      contiguousEnd := Add32(resp.offset, chunkSize);
      writes := writes + [CopyOf(resp, resp.offset, chunkSize)];
      RecordBytesWritten(chunkSize, progress);
      applied := Success(true);
    }
  }

  method RunBurstCycle(hub: Hub, target: Target, session: U8, state: BurstReadState, retries: nat, progress: Progress?)
    returns (outcome: CycleOutcome, retries': nat)
    requires retries <= FTP_MAX_RETRIES && state.Synced(progress)
    modifies hub, state, progress
    ensures state.Synced(progress)
    ensures CycleEnd(outcome, state.View(), retries', hub.View())
         == Cycle(old(hub.View()), target, session, old(state.View()), retries)
  {
    hide Transport.Recv, Transport.TerminateCall, ApplyChunk, Transport.Submit, BurstRequest;
    ghost var whole := Cycle(hub.View(), target, session, state.View(), retries);
    retries' := retries;
    var s := hub.NextSeq();
    hub.SendFtpMessage(target, BurstRequest(s, session, state.contiguousEnd));
    while true
      invariant state.Synced(progress) && retries' <= FTP_MAX_RETRIES
      invariant CycleLoop(hub.View(), target, session, state.View(), retries') == whole
      decreases |hub.schedule|
    {
      var received := hub.RecvFtp(target, None);
      match received
      case Expired =>
        retries' := retries' + 1;
        if retries' > FTP_MAX_RETRIES {
          var _ := hub.Terminate(target, session);
          return Aborted(TimedOut), retries';
        }
        return Continue, retries';
      case Broken(_) =>
      case Got(resp) =>
        var nak := CheckNak(resp);
        if nak.Some? {
          if nak.value.errCode == EOF {
            return AtEof, retries';
          }
          var _ := hub.Terminate(target, session);
          return Aborted(Refused(nak.value)), retries';
        }
        if !IsBurstChunk(resp) {
          continue;
        }
        ghost var chunk := ApplyChunk(state.View(), resp);
        var applied := state.ApplyBurstChunk(resp, progress);
        if applied.Failure? {
          assert chunk == Malformed(state.View());
          return Aborted(applied.error), retries';
        }
        if !applied.value {
          continue;
        }
        retries' := 0;
        state.totalPackets := state.totalPackets + 1;
        if resp.burstComplete == 1 {
          return Continue, retries';
        }
    }
  }

  datatype GapFillOutcome = Filled(size: U8) | NoData | EndOfFile

  method ReadMissingBlockChunk(
      hub: Hub, target: Target, session: U8, missing: MissingBlock, filled: U32,
      state: BurstReadState, progress: Progress?)
    returns (r: Result<GapFillOutcome, FtpFailure>)
    requires filled < missing.size && state.Synced(progress)
    modifies hub, state, progress
    ensures state.Synced(progress)
    ensures FillHole(old(hub.View()), target, session, old(state.View()), missing, filled)
         == match r
            case Failure(e) => FillEnd(Some(e), state.View(), hub.View(), false)
            case Success(Filled(n)) =>
              FillHole(hub.View(), target, session, state.View(), missing, Add32(filled, n))
            case Success(_) => FillEnd(None, state.View(), hub.View(), false)
    ensures r.Success? ==> |hub.schedule| < |old(hub.schedule)|
    ensures state.missingBlocks == old(state.missingBlocks)
  {
    hide Transport.SendReceive, Transport.TerminateCall;
    var readOffset := Add32(missing.offset, filled);
    var readSize := Min(missing.size - filled, FTP_DATA_MAX_LEN);
    var s := hub.NextSeq();
    var sent := hub.SendAndReceive(target, ReadRequest(s, session, readOffset, readSize));
    if sent.Failure? {
      var _ := hub.Terminate(target, session);
      return Failure(sent.error);
    }
    var resp := sent.value;
    var nak := CheckNak(resp);
    if nak.Some? {
      if nak.value.errCode == EOF {
        return Success(EndOfFile);
      }
      var _ := hub.Terminate(target, session);
      return Failure(Refused(nak.value));
    }
    if resp.size == 0 {
      return Success(NoData);
    }
    var ok := state.CopyChunkIntoBuffer(readOffset, resp.size, resp.data);
    if !ok {
      return Failure(ShortData);
    }
    state.writes := state.writes + [CopyOf(resp, readOffset, readSize)];
    state.RecordBytesWritten(resp.size, progress);
    r := Success(Filled(resp.size));
  }

  method FillMissingBlocks(hub: Hub, target: Target, session: U8, state: BurstReadState, progress: Progress?)
    returns (failure: Option<FtpFailure>, ghost complete: bool)
    requires state.Synced(progress)
    modifies hub, state, progress
    ensures state.Synced(progress)
    ensures FillEnd(failure, state.View(), hub.View(), complete)
         == FillAll(old(hub.View()), target, session, old(state.View()), old(state.missingBlocks))
  {
    hide ReadPiece, PieceCopied;
    ghost var whole := FillAll(hub.View(), target, session, state.View(), state.missingBlocks);
    var holes := state.missingBlocks;
    complete := true;
    var i := 0;
    while i < |holes|
      invariant i <= |holes| && state.Synced(progress)
      invariant var rest := FillAll(hub.View(), target, session, state.View(), holes[i..]);
                rest.(complete := complete && rest.complete) == whole
    {
      var filled: U32 := 0;
      ghost var hole := FillHole(hub.View(), target, session, state.View(), holes[i], 0);
      ghost var pieces := true;
      while filled < holes[i].size
        invariant state.Synced(progress)
        invariant pieces ==> FillHole(hub.View(), target, session, state.View(), holes[i], filled) == hole
        invariant !pieces ==> FillEnd(None, state.View(), hub.View(), false) == hole
        decreases |hub.schedule|
      {
        var outcome := ReadMissingBlockChunk(hub, target, session, holes[i], filled, state, progress);
        match outcome
        case Failure(e) => return Some(e), false;
        case Success(Filled(n)) => filled := Add32(filled, n);
        case Success(_) =>
          pieces := false;
          break;
      }
      complete := complete && pieces;
      i := i + 1;
    }
    failure := None;
  }

  method FinishReadSession(hub: Hub, target: Target, session: U8, state: BurstReadState, progress: Progress?)
    returns (r: Result<seq<U8>, FtpFailure>)
    modifies hub, state, progress
    ensures var (t, l') := TerminateCall(old(hub.View()), target, session);
            && hub.View() == l'
            && (t.Failure? ==> r == Failure(t.error) && state.View() == old(state.View()))
            && (t.Success? ==>
                  && r == Success(Truncated(old(state.View())))
                  && state.View() == Published(old(state.View()), |r.value|).(fileData := r.value)
                  && (progress != null ==> progress.value == |r.value|))
  {
    var t := hub.Terminate(target, session);
    if t.Failure? {
      return Failure(t.error);
    }
    state.fileData := state.fileData[..Min(|state.fileData|, state.contiguousEnd)];
    state.published := state.published + [|state.fileData|];
    if progress != null {
      progress.value := |state.fileData|;
    }
    r := Success(state.fileData);
  }

  method OpenReadSession(hub: Hub, target: Target, path: Path, maxSize: Option<nat>)
    returns (r: Result<Opened, FtpFailure>)
    modifies hub
    ensures (r, hub.View()) == OpenForRead(old(hub.View()), target, path, maxSize)
  {
    var reset := hub.Reset(target);
    if reset.Failure? {
      return Failure(reset.error);
    }
    var s := hub.NextSeq();
    var resp := hub.CallOnce(target, PathRequest(OPEN_FILE_RO, s, path));
    if resp.Failure? {
      return Failure(resp.error);
    }
    var fileSize := AdvertisedSize(resp.value);
    if maxSize.Some? && fileSize > maxSize.value {
      var _ := hub.Terminate(target, resp.value.session);
      return Failure(TooLarge);
    }
    r := Success(Opened(resp.value.session, fileSize));
  }

  method BurstReadFileInner(hub: Hub, target: Target, path: Path, maxSize: Option<nat>, progress: Progress?)
    returns (r: Result<seq<U8>, FtpFailure>)
    modifies hub, progress
    ensures r == Download(old(hub.View()), target, path, maxSize).result
    ensures hub.View() == Download(old(hub.View()), target, path, maxSize).link
    ensures progress != null && r.Success? ==> progress.value == |r.value|
  {
    hide Cycle, FillAll, OpenForRead, Transport.Call;
    var handle := OpenReadSession(hub, target, path, maxSize);
    if handle.Failure? {
      return Failure(handle.error);
    }
    var session := handle.value.session;
    var state := new BurstReadState(handle.value.fileSize);
    ghost var phase := BurstPhase(hub.View(), target, session, state.View(), 0);
    var retries: nat := 0;
    ghost var cycles := 0;
    var running := true;
    while running
      invariant fresh(state) && state.Synced(progress)
      invariant running ==> retries <= FTP_MAX_RETRIES
      invariant running ==>
                  var rest := BurstPhase(hub.View(), target, session, state.View(), retries);
                  rest.(cycles := rest.cycles + cycles) == phase
      invariant !running ==> phase == PhaseEnd(None, state.View(), hub.View(), cycles)
      decreases running, |hub.schedule|, FTP_MAX_RETRIES - retries
    {
      var outcome;
      outcome, retries := RunBurstCycle(hub, target, session, state, retries, progress);
      cycles := cycles + 1;
      match outcome
      case Continue =>
      case AtEof => running := false;
      case Aborted(failure) => return Failure(failure);
    }
    var failure, complete := FillMissingBlocks(hub, target, session, state, progress);
    if failure.Some? {
      return Failure(failure.value);
    }
    r := FinishReadSession(hub, target, session, state, progress);
  }
}
