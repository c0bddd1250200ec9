/**
 Other vehicles' traffic: no operation notices it. Each returns the same result, and leaves the same
 state behind, when every message that is not the vehicle's own FTP message is replaced by a lag.
 */
module ForeignTraffic {
  import opened Wrappers
  import opened Bytes
  import opened FtpProtocol
  import opened FtpServer
  import opened Transport
  import opened ReceiveFilter
  import opened BurstRead
  import opened Upload
  import opened DirectoryListing
  import Listing

  // ---- Download ----

  lemma {:induction false} CycleLoopIgnoresForeign(l: Link, target: Target, session: U8, s: BurstState, retries: nat)
    requires retries <= FTP_MAX_RETRIES
    ensures var e := CycleLoop(l, target, session, s, retries);
            CycleLoop(Quiet(l, target), target, session, s, retries) == e.(link := Quiet(e.link, target))
    decreases |l.schedule|
  {
    hide Recv, TerminateCall, ApplyChunk, Quiet;
    RecvIgnoresForeign(l, target, None);
    var (r, l') := Recv(l, target, None);
    TerminateIgnoresForeign(l', target, session);
    match r
    case Expired =>
    case Broken(_) => CycleLoopIgnoresForeign(l', target, session, s, retries);
    case Got(p) =>
      if CheckNak(p).None? {
        var chunk := ApplyChunk(s, p);
        if !IsBurstChunk(p) || chunk.Dropped? {
          CycleLoopIgnoresForeign(l', target, session, s, retries);
        } else if chunk.Accepted? && p.burstComplete != 1 {
          CycleLoopIgnoresForeign(l', target, session, chunk.state, 0);
        }
      }
  }

  lemma CycleIgnoresForeign(l: Link, target: Target, session: U8, s: BurstState, retries: nat)
    requires retries <= FTP_MAX_RETRIES
    ensures var e := Cycle(l, target, session, s, retries);
            Cycle(Quiet(l, target), target, session, s, retries) == e.(link := Quiet(e.link, target))
  {
    hide CycleLoop, Muted;
    var (number, l1) := Draw(l);
    CycleLoopIgnoresForeign(
      Submit(l1, target, BurstRequest(number, session, s.contiguousEnd)), target, session, s, retries);
  }

  lemma {:induction false} BurstIgnoresForeign(l: Link, target: Target, session: U8, s: BurstState, retries: nat)
    requires retries <= FTP_MAX_RETRIES
    ensures var e := BurstPhase(l, target, session, s, retries);
            BurstPhase(Quiet(l, target), target, session, s, retries) == e.(link := Quiet(e.link, target))
    decreases |l.schedule|, FTP_MAX_RETRIES - retries
  {
    hide Cycle, Quiet;
    CycleIgnoresForeign(l, target, session, s, retries);
    var e := Cycle(l, target, session, s, retries);
    if e.outcome.Continue? {
      BurstIgnoresForeign(e.link, target, session, e.state, e.retries);
    }
  }

  function QuietEnd(e: FillEnd, target: Target): FillEnd {
    e.(link := Quiet(e.link, target))
  }

  lemma PieceIgnoresForeign(l: Link, target: Target, session: U8, s: BurstState, hole: MissingBlock, filled: U32)
    requires filled < hole.size
    ensures ReadPiece(Quiet(l, target), target, session, s, hole, filled)
         == match ReadPiece(l, target, session, s, hole, filled)
            case Piece(p, l') => Piece(p, Quiet(l', target))
            case Stopped(end) => Stopped(QuietEnd(end, target))
  {
    hide SendReceive, TerminateCall, Muted;
    var (number, l1) := Draw(l);
    var request :=
      ReadRequest(number, session, Add32(hole.offset, filled), Min(hole.size - filled, FTP_DATA_MAX_LEN));
    SendReceiveIgnoresForeign(l1, target, request);
    TerminateIgnoresForeign(SendReceive(l1, target, request).1, target, session);
  }

  lemma {:induction false} HoleIgnoresForeign(
      l: Link, target: Target, session: U8, s: BurstState, hole: MissingBlock, filled: U32)
    ensures FillHole(Quiet(l, target), target, session, s, hole, filled)
         == QuietEnd(FillHole(l, target, session, s, hole, filled), target)
    decreases |l.schedule|
  {
    hide ReadPiece, Quiet;
    if filled < hole.size {
      PieceIgnoresForeign(l, target, session, s, hole, filled);
      var p := ReadPiece(l, target, session, s, hole, filled);
      if p.Piece? {
        HoleIgnoresForeign(p.link, target, session, PieceCopied(s, hole, filled, p.packet), hole,
                           Add32(filled, p.packet.size));
      }
    }
  }

  lemma {:induction false} RepairIgnoresForeign(
      l: Link, target: Target, session: U8, s: BurstState, holes: seq<MissingBlock>)
    ensures FillAll(Quiet(l, target), target, session, s, holes)
         == QuietEnd(FillAll(l, target, session, s, holes), target)
    decreases |holes|
  {
    hide FillHole, Quiet;
    if holes != [] {
      HoleIgnoresForeign(l, target, session, s, holes[0], 0);
      var e := FillHole(l, target, session, s, holes[0], 0);
      if e.failure.None? {
        RepairIgnoresForeign(e.link, target, session, e.state, holes[1..]);
      }
    }
  }

  lemma OpenIgnoresForeign(l: Link, target: Target, path: Path, maxSize: Option<nat>)
    ensures var (r, l') := OpenForRead(l, target, path, maxSize);
            OpenForRead(Quiet(l, target), target, path, maxSize) == (r, Quiet(l', target))
  {
    hide Call, ResetCall, TerminateCall, Muted;
    ResetIgnoresForeign(l, target);
    var (_, l1) := ResetCall(l, target);
    var (s, l2) := Draw(l1);
    CallIgnoresForeign(l2, target, PathRequest(OPEN_FILE_RO, s, path));
    var (r, l3) := Call(l2, target, PathRequest(OPEN_FILE_RO, s, path));
    if r.Success? {
      TerminateIgnoresForeign(l3, target, r.value.session);
    }
  }

  lemma ReadIgnoresForeign(l: Link, target: Target, handle: Opened)
    ensures var d := ReadOpened(l, target, handle);
            ReadOpened(Quiet(l, target), target, handle) == d.(link := Quiet(d.link, target))
  {
    hide BurstPhase, FillAll, TerminateCall, Quiet;
    BurstIgnoresForeign(l, target, handle.session, NewState(handle.fileSize), 0);
    var phase := BurstPhase(l, target, handle.session, NewState(handle.fileSize), 0);
    if phase.failure.None? {
      RepairIgnoresForeign(phase.link, target, handle.session, phase.state, phase.state.missingBlocks);
      var fill := FillAll(phase.link, target, handle.session, phase.state, phase.state.missingBlocks);
      TerminateIgnoresForeign(fill.link, target, handle.session);
    }
  }

  /** A download brings the same bytes, by the same copies, or fails alike. */
  lemma DownloadIgnoresForeign(l: Link, target: Target, path: Path, maxSize: Option<nat>)
    ensures var d := Download(l, target, path, maxSize);
            Download(Quiet(l, target), target, path, maxSize) == d.(link := Quiet(d.link, target))
  {
    hide OpenForRead, ReadOpened, Quiet;
    OpenIgnoresForeign(l, target, path, maxSize);
    var (handle, l1) := OpenForRead(l, target, path, maxSize);
    if handle.Success? {
      ReadIgnoresForeign(l1, target, handle.value);
    }
  }

  // ---- Upload and listing ----

  lemma {:induction false} ChunksIgnoreForeign(l: Link, target: Target, session: U8, offset: U32, rest: seq<U8>)
    ensures var (r, l') := WriteChunks(l, target, session, offset, rest);
            WriteChunks(Quiet(l, target), target, session, offset, rest) == (r, Quiet(l', target))
    decreases |rest|
  {
    hide Call, TerminateCall, Muted;
    if rest == [] {
      TerminateIgnoresForeign(l, target, session);
    } else {
      var n := Min(|rest|, FTP_DATA_MAX_LEN);
      var (s, l1) := Draw(l);
      CallIgnoresForeign(l1, target, WriteRequest(s, session, offset, rest[..n]));
      var (r, l2) := Call(l1, target, WriteRequest(s, session, offset, rest[..n]));
      if r.Failure? {
        TerminateIgnoresForeign(l2, target, session);
      } else {
        ChunksIgnoreForeign(l2, target, session, Add32(offset, n), rest[n..]);
      }
    }
  }

  /** An upload sends the same and leaves the same on the vehicle. */
  lemma UploadIgnoresForeign(l: Link, target: Target, path: Path, data: seq<U8>)
    ensures var (r, l') := WriteWhole(l, target, path, data);
            WriteWhole(Quiet(l, target), target, path, data) == (r, Quiet(l', target))
  {
    hide Call, ResetCall, WriteChunks, Muted;
    ResetIgnoresForeign(l, target);
    var (_, l1) := ResetCall(l, target);
    var (s, l2) := Draw(l1);
    CallIgnoresForeign(l2, target, PathRequest(CREATE_FILE, s, path));
    var (created, l3) := Call(l2, target, PathRequest(CREATE_FILE, s, path));
    if created.Success? {
      ChunksIgnoreForeign(l3, target, created.value.session, 0, data);
    }
  }

  /** A listing has the same entries, after as many requests. */
  lemma {:induction false} ListingIgnoresForeign(l: Link, target: Target, path: Path, offset: U32, found: Entries)
    ensures var e := ListFrom(l, target, path, offset, found);
            ListFrom(Quiet(l, target), target, path, offset, found) == e.(link := Quiet(e.link, target))
    decreases |l.schedule|
  {
    hide SendReceive, Muted, Listing.Parse;
    var (s, l1) := Draw(l);
    SendReceiveIgnoresForeign(l1, target, ListRequest(s, path, offset));
    var (r, l2) := SendReceive(l1, target, ListRequest(s, path, offset));
    if r.Success? && CheckNak(r.value).None? {
      var entries := Listing.Parse(r.value.data);
      if entries != [] {
        ListingIgnoresForeign(l2, target, path, Add32(offset, |entries|), found + entries);
      }
    }
  }
}
