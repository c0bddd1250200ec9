/**
 What each event does to a burst cycle and to a repair read (mavftp/client.rs `run_burst_cycle`,
 `read_missing_block_chunk`), told from the fields of the packets that arrive.
 */
module BurstEvents {
  import opened Wrappers
  import opened Bytes
  import opened FtpProtocol
  import opened FtpServer
  import opened Transport
  import opened ReceiveFilter
  import opened BurstRead

  // ---- The fields of a packet ----

  /** The code in the first byte of a NAK; a failure when it is missing or unknown. */
  function NakCode(p: FtpPayload): FtpError {
    if p.data == [] || p.data[0] > 10 then 1 else p.data[0]
  }

  /** The system's own error number, behind code 2. */
  function Errno(p: FtpPayload): Option<U8> {
    if NakCode(p) == 2 && |p.data| > 1 then Some(p.data[1]) else None
  }

  predicate SaysEndOfFile(p: FtpPayload) {
    p.opcode == 129 && p.data != [] && p.data[0] == 6
  }

  lemma NakExactly(p: FtpPayload)
    ensures CheckNak(p) == if p.opcode == 129 then Some(FtpNakError(NakCode(p), Errno(p))) else None
    ensures SaysEndOfFile(p) <==> p.opcode == 129 && NakCode(p) == 6
  {
  }

  /** An ACK to a burst read with data, not behind what is there already. */
  predicate IsNewChunk(s: BurstState, p: FtpPayload) {
    p.opcode == 128 && p.reqOpcode == 15 && p.size > 0 && p.offset >= s.contiguousEnd
  }

  // ---- One event of a burst cycle ----

  /** The packet the next event brings from the vehicle, if it brings one that decodes. */
  function PacketOf(l: Link, target: Target): Option<FtpPayload>
    requires l.schedule != []
  {
    match Heard(l)
    case None => None
    case Some(msg) => PayloadFrom(msg, target)
  }

  /** The next event is a timeout, or brings a NAK or a new chunk. */
  predicate Decides(l: Link, target: Target, s: BurstState)
    requires l.schedule != []
  {
    || l.schedule[0].TimeUp?
    || (PacketOf(l, target).Some? &&
          var p := PacketOf(l, target).value;
          p.opcode == 129 || IsNewChunk(s, p))
  }

  /** What the receive loop of a burst makes of the next event. */
  lemma RecvNext(l: Link, target: Target)
    requires l.schedule != []
    ensures var a, r := l.schedule[0], Recv(l, target, None);
            if a.TimeUp? then r == (Expired, Behind(l))
            else
              match PacketOf(l, target)
              case Some(p) => r == (Got(p), Behind(l))
              case None => r == Recv(Behind(l), target, None) || (r.0.Broken? && r.1 == Behind(l))
  {
    hide Recv, Behind, Encoded;
    RecvExactly(l, target, None);
  }

  /** Any other event, a lag, a closed channel, a malformed payload or a foreign or old packet, is waited through. */
  lemma EventPasses(l: Link, target: Target, session: U8, s: BurstState, retries: nat)
    requires retries <= FTP_MAX_RETRIES && l.schedule != [] && !Decides(l, target, s)
    ensures CycleLoop(l, target, session, s, retries) == CycleLoop(Behind(l), target, session, s, retries)
  {
    hide TerminateCall, Recv, Behind, PacketOf;
    RecvNext(l, target);
  }

  /** Where a new chunk leaves the state: a hole noted before it, its data copied in, one packet more. */
  function Taken(s: BurstState, p: FtpPayload): BurstState
    requires p.size <= |p.data|
  {
    Copied(NoteHole(s, p.offset), CopyOf(p, p.offset, p.size))
      .(contiguousEnd := (p.offset + p.size) % 0x1_0000_0000, totalPackets := s.totalPackets + 1)
  }

  /**
   Exactly what an event does that decides. A timeout ends the cycle, the sixth in a row the download; an
   end-of-file NAK ends the burst; any other NAK closes the session and is the error; a chunk with less
   data than it declares is an error; and a good one is taken and the cycle goes on, or is over when
   the packet says so.
   */
  lemma EventDecides(l: Link, target: Target, session: U8, s: BurstState, retries: nat)
    requires retries <= FTP_MAX_RETRIES && l.schedule != [] && Decides(l, target, s)
    ensures var e, rest := CycleLoop(l, target, session, s, retries), Behind(l);
            var closed := TerminateCall(rest, target, session).1;
            if l.schedule[0].TimeUp? then
              e == if retries < 5 then CycleEnd(Continue, s, retries + 1, rest)
                   else CycleEnd(Aborted(TimedOut), s, retries + 1, closed)
            else
              var p := PacketOf(l, target).value;
              if p.opcode == 129 then
                e == if SaysEndOfFile(p) then CycleEnd(AtEof, s, retries, rest)
                     else CycleEnd(Aborted(Refused(FtpNakError(NakCode(p), Errno(p)))), s, retries, closed)
              else if |p.data| < p.size then
                e == CycleEnd(Aborted(ShortData), NoteHole(s, p.offset), retries, rest)
              else
                e == if p.burstComplete == 1 then CycleEnd(Continue, Taken(s, p), 0, rest)
                     else CycleLoop(rest, target, session, Taken(s, p), 0)
  {
    hide TerminateCall, Recv, Behind, PacketOf, Copied;
    RecvNext(l, target);
    if !l.schedule[0].TimeUp? {
      NakExactly(PacketOf(l, target).value);
    }
  }

  // ---- Runs of events ----

  /** The next `k` events decide nothing. */
  predicate NothingDecided(l: Link, target: Target, s: BurstState, k: nat)
    decreases k
  {
    k == 0 || (l.schedule != [] && !Decides(l, target, s) && NothingDecided(Behind(l), target, s, k - 1))
  }

  function BehindAll(l: Link, k: nat): (l': Link)
    requires k <= |l.schedule|
    ensures l'.schedule == l.schedule[k..]
    decreases k
  {
    if k == 0 then l else BehindAll(Behind(l), k - 1)
  }

  /**
   A cycle goes on through any number of events that decide nothing, with its state and its
   retries as they were.
   */
  lemma {:induction false} EventsPass(l: Link, target: Target, session: U8, s: BurstState, retries: nat, k: nat)
    requires retries <= FTP_MAX_RETRIES && k <= |l.schedule| && NothingDecided(l, target, s, k)
    ensures CycleLoop(l, target, session, s, retries) == CycleLoop(BehindAll(l, k), target, session, s, retries)
    decreases k
  {
    hide CycleLoop, Decides, Happen;
    if k > 0 {
      EventPasses(l, target, session, s, retries);
      EventsPass(Behind(l), target, session, s, retries, k - 1);
    }
  }

  /** A closed channel is waited through for ever: the cycle is no further after any number of its errors. */
  lemma {:induction false} ClosedChannelWaits(
      l: Link, target: Target, session: U8, s: BurstState, retries: nat, n: nat, rest: seq<Action>)
    requires retries <= FTP_MAX_RETRIES && l.schedule == seq(n, i => Closed) + rest
    ensures CycleLoop(l, target, session, s, retries)
         == CycleLoop(l.(schedule := rest), target, session, s, retries)
    decreases n
  {
    hide CycleLoop;
    if n == 0 {
      assert l.schedule == rest;
    } else {
      EventPasses(l, target, session, s, retries);
      assert Behind(l).schedule == seq(n - 1, i => Closed) + rest;
      ClosedChannelWaits(Behind(l), target, session, s, retries, n - 1, rest);
    }
  }

  // ---- How a burst ends ----

  /** Some event of the schedule brought the packet, and the link is what it left behind. */
  predicate BroughtBy(at: Link, l: Link, target: Target, p: FtpPayload, after: Link) {
    && at.schedule != [] && |at.schedule| <= |l.schedule|
    && at.schedule == l.schedule[|l.schedule| - |at.schedule|..]
    && PacketOf(at, target) == Some(p) && Behind(at) == after
  }

  lemma {:induction false} GotIsBrought(l: Link, target: Target) returns (at: Link)
    ensures var (r, l') := Recv(l, target, None); r.Got? ==> BroughtBy(at, l, target, r.payload, l')
    decreases |l.schedule|
  {
    hide Recv, PacketOf, Happen;
    at := l;
    if l.schedule == [] {
      NothingComes(l, target);
    } else {
      RecvNext(l, target);
      if !l.schedule[0].TimeUp? && PacketOf(l, target).None? {
        at := GotIsBrought(Behind(l), target);
      }
    }
  }

  lemma NothingComes(l: Link, target: Target)
    requires l.schedule == []
    ensures Recv(l, target, None) == (Expired, l)
  {
  }

  lemma LaterBrought(at: Link, l: Link, l': Link, target: Target, p: FtpPayload, after: Link)
    requires BroughtBy(at, l', target, p, after)
    requires |l'.schedule| <= |l.schedule| && l'.schedule == l.schedule[|l.schedule| - |l'.schedule|..]
    ensures BroughtBy(at, l, target, p, after)
  {
    hide PacketOf, Behind;
  }

  /** What is left of a schedule is its end. */
  predicate EndOf(rest: Link, l: Link) {
    |rest.schedule| <= |l.schedule| && rest.schedule == l.schedule[|l.schedule| - |rest.schedule|..]
  }

  lemma {:induction false} RecvLeavesEnd(l: Link, target: Target, expected: Option<U16>)
    ensures EndOf(Recv(l, target, expected).1, l)
    decreases |l.schedule|
  {
    hide FtpServer.Serve, Filter;
    if l.schedule != [] {
      var (net, _) := Happen(l, l.schedule[0]);
      RecvLeavesEnd(l.(schedule := l.schedule[1..], net := net), target, expected);
    }
  }

  lemma {:induction false} ExchangeLeavesEnd(l: Link, target: Target, p: FtpPayload, attempts: nat, last: FtpFailure)
    ensures EndOf(Exchange(l, target, p, attempts, last).1, l)
    decreases attempts
  {
    hide Recv;
    if attempts > 0 {
      RecvLeavesEnd(Submit(l, target, p), target, Some(p.seqNumber));
      var (r, l') := Recv(Submit(l, target, p), target, Some(p.seqNumber));
      if !r.Got? {
        ExchangeLeavesEnd(l', target, p, attempts - 1, if r.Broken? then r.failure else TimedOut);
      }
    }
  }

  lemma OpenLeavesEnd(l: Link, target: Target, path: Path, maxSize: Option<nat>)
    ensures OpenForRead(l, target, path, maxSize).0.Success? ==> EndOf(OpenForRead(l, target, path, maxSize).1, l)
  {
    hide Exchange;
    var (s0, l0) := Draw(l);
    ExchangeLeavesEnd(l0, target, NewRequest(RESET_SESSIONS, s0), FTP_MAX_RETRIES, TimedOut);
    var (_, l1) := ResetCall(l, target);
    var (s, l2) := Draw(l1);
    ExchangeLeavesEnd(l2, target, PathRequest(OPEN_FILE_RO, s, path), FTP_MAX_RETRIES, TimedOut);
  }

  lemma {:induction false} CycleEndsAtEof(l: Link, target: Target, session: U8, s: BurstState, retries: nat)
    returns (at: Link, p: FtpPayload)
    requires retries <= FTP_MAX_RETRIES
    ensures var e := CycleLoop(l, target, session, s, retries);
            && (e.outcome == AtEof ==> BroughtBy(at, l, target, p, e.link) && SaysEndOfFile(p))
            && (e.outcome == Continue ==> EndOf(e.link, l))
    decreases |l.schedule|
  {
    hide Recv, TerminateCall, ApplyChunk, PacketOf, Behind;
    at := GotIsBrought(l, target);
    p := NewRequest(NO_OPCODE, 0);
    RecvLeavesEnd(l, target, None);
    var (r, l') := Recv(l, target, None);
    match r
    case Expired =>
    case Broken(_) =>
      at, p := CycleEndsAtEof(l', target, session, s, retries);
    case Got(q) =>
      p := q;
      NakExactly(q);
      if CheckNak(q).None? {
        var chunk := ApplyChunk(s, q);
        if !IsBurstChunk(q) || chunk.Dropped? {
          at, p := CycleEndsAtEof(l', target, session, s, retries);
        } else if chunk.Accepted? && q.burstComplete != 1 {
          at, p := CycleEndsAtEof(l', target, session, chunk.state, 0);
        }
      }
  }

  /** A burst ends without an error only at a packet from the vehicle that says end of file. */
  lemma {:induction false} BurstEndsAtEof(l: Link, target: Target, session: U8, s: BurstState, retries: nat)
    returns (at: Link, p: FtpPayload)
    requires retries <= FTP_MAX_RETRIES
    ensures var e := BurstPhase(l, target, session, s, retries);
            e.failure.None? ==> BroughtBy(at, l, target, p, e.link) && SaysEndOfFile(p)
    decreases |l.schedule|, FTP_MAX_RETRIES - retries
  {
    hide CycleLoop, BroughtBy;
    var (seqNumber, l1) := Draw(l);
    var sent := Submit(l1, target, BurstRequest(seqNumber, session, s.contiguousEnd));
    at, p := CycleEndsAtEof(sent, target, session, s, retries);
    SameSchedule(at, sent, l, target, p, Cycle(l, target, session, s, retries).link);
    var e := Cycle(l, target, session, s, retries);
    if e.outcome.Continue? {
      at, p := BurstEndsAtEof(e.link, target, session, e.state, e.retries);
      if BurstPhase(e.link, target, session, e.state, e.retries).failure.None? {
        LaterBrought(at, l, e.link, target, p, BurstPhase(e.link, target, session, e.state, e.retries).link);
      }
    }
  }

  lemma SameSchedule(at: Link, sent: Link, l: Link, target: Target, p: FtpPayload, after: Link)
    requires sent.schedule == l.schedule
    ensures BroughtBy(at, sent, target, p, after) ==> BroughtBy(at, l, target, p, after)
  {
  }

  /** So a download succeeds only if the vehicle said end of file; whatever else ended its burst is its error. */
  lemma DownloadEndsAtEof(l: Link, target: Target, path: Path, maxSize: Option<nat>)
    returns (at: Link, p: FtpPayload, after: Link)
    ensures Download(l, target, path, maxSize).result.Success? ==>
              BroughtBy(at, l, target, p, after) && SaysEndOfFile(p)
  {
    hide OpenForRead, BurstPhase, FillAll, TerminateCall, PacketOf;
    at, p, after := l, NewRequest(NO_OPCODE, 0), l;
    OpenLeavesEnd(l, target, path, maxSize);
    var (handle, l1) := OpenForRead(l, target, path, maxSize);
    if handle.Success? {
      at, p := BurstEndsAtEof(l1, target, handle.value.session, NewState(handle.value.fileSize), 0);
      var phase := BurstPhase(l1, target, handle.value.session, NewState(handle.value.fileSize), 0);
      after := phase.link;
      if phase.failure.None? {
        LaterBrought(at, l, l1, target, p, phase.link);
      }
    }
  }

  /** The error of the burst is the error of the download, and nothing more is asked. */
  lemma BurstErrorIsReturned(l: Link, target: Target, handle: Opened)
    ensures var phase := BurstPhase(l, target, handle.session, NewState(handle.fileSize), 0);
            var d := ReadOpened(l, target, handle);
            phase.failure.Some? ==> d.result == Failure(phase.failure.value) && d.link == phase.link
  {
    hide BurstPhase;
  }

  /** A NAK that does not say end of file ends the cycle with its code, and the session is closed. */
  lemma RefusalEndsCycle(l: Link, target: Target, session: U8, s: BurstState, retries: nat, k: nat, p: FtpPayload)
    requires retries <= FTP_MAX_RETRIES && k < |l.schedule| && NothingDecided(l, target, s, k)
    requires !BehindAll(l, k).schedule[0].TimeUp? && PacketOf(BehindAll(l, k), target) == Some(p)
    requires p.opcode == 129 && !SaysEndOfFile(p)
    ensures CycleLoop(l, target, session, s, retries)
         == CycleEnd(Aborted(Refused(FtpNakError(NakCode(p), Errno(p)))), s, retries,
                     TerminateCall(Behind(BehindAll(l, k)), target, session).1)
  {
    hide CycleLoop, PacketOf, Behind, TerminateCall, NothingDecided;
    EventsPass(l, target, session, s, retries, k);
    EventDecides(BehindAll(l, k), target, session, s, retries);
  }

  // ---- One repair read ----

  /**
   Exactly what a repair read makes of its answer: no answer closes the session and is the error; an
   end-of-file NAK or an empty reply gives the hole up; any other NAK closes the session and is the
   error; too little data is an error; and the rest is a piece of the hole.
   */
  lemma RepairExactly(l: Link, target: Target, session: U8, s: BurstState, hole: MissingBlock, filled: U32)
    requires filled < hole.size
    ensures var (number, l1) := Draw(l);
            var offset, size := Add32(hole.offset, filled), Min(hole.size - filled, 239);
            var request := FtpPayload(number, session, 5, size, 0, 0, offset, []);
            var (r, l2) := SendReceive(l1, target, request);
            var closed := TerminateCall(l2, target, session).1;
            ReadPiece(l, target, session, s, hole, filled) ==
              if r.Failure? then Stopped(FillEnd(Some(r.error), s, closed, false))
              else if r.value.opcode == 129 then
                if SaysEndOfFile(r.value) then Stopped(FillEnd(None, s, l2, false))
                else Stopped(FillEnd(Some(Refused(FtpNakError(NakCode(r.value), Errno(r.value)))), s, closed, false))
              else if r.value.size == 0 then Stopped(FillEnd(None, s, l2, false))
              else if |r.value.data| < r.value.size then Stopped(FillEnd(Some(ShortData), s, l2, false))
              else Piece(r.value, l2)
  {
    hide SendReceive, TerminateCall;
    var (number, l1) := Draw(l);
    var offset, size := Add32(hole.offset, filled), Min(hole.size - filled, 239);
    var request := FtpPayload(number, session, 5, size, 0, 0, offset, []);
    assert ReadRequest(number, session, offset, size) == request;
    var (r, l2) := SendReceive(l1, target, request);
    if r.Success? {
      NakExactly(r.value);
    }
  }

  // ---- The requests of a burst ----

  /** Each cycle begins by asking for the burst that starts where the file so far ends. */
  lemma CycleAsks(l: Link, session: U8, s: BurstState, retries: nat) returns (asked: Link, q: FtpPayload)
    requires retries <= FTP_MAX_RETRIES
    ensures Cycle(l, l.vehicle, session, s, retries) == CycleLoop(asked, l.vehicle, session, s, retries)
    ensures asked == Draw(l).1.(net := l.net.(toServer := l.net.toServer + [q]))
    ensures q.seqNumber == Draw(l).0 && q.opcode == 15 && q.session == session
    ensures q.offset == s.contiguousEnd && q.size == 239
  {
    hide CycleLoop;
    var (number, l1) := Draw(l);
    q := Normalized(BurstRequest(number, session, s.contiguousEnd));
    asked := l1.(net := l.net.(toServer := l.net.toServer + [q]));
  }

  // ---- The size limit ----

  /**
   A limit changes an open only by the size the vehicle advertises: up to the limit nothing, and above
   it the session is closed again and the error is that the file is too large.
   */
  lemma LimitExactly(l: Link, target: Target, path: Path, maxSize: nat)
    ensures var (r, l') := OpenForRead(l, target, path, None);
            OpenForRead(l, target, path, Some(maxSize)) ==
              if r.Success? && r.value.fileSize > maxSize
              then (Failure(TooLarge), TerminateCall(l', target, r.value.session).1)
              else (r, l')
    ensures var (r, l') := OpenForRead(l, target, path, Some(maxSize));
            r.Success? ==> r.value.fileSize <= maxSize
  {
    hide Call, ResetCall, TerminateCall, AdvertisedSize;
  }
}
