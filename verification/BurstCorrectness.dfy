/** What a burst download returns, for every pattern of loss, reordering and duplication. */
module BurstCorrectness {
  import opened Wrappers
  import opened Bytes
  import opened FtpProtocol
  import opened FtpServer
  import opened Transport
  import opened BurstRead

  // ---- Copies and the bytes they leave ----

  predicate Covers(w: Write, i: int) {
    w.offset <= i < w.offset + |w.data|
  }

  predicate Covered(writes: seq<Write>, i: int) {
    exists k :: 0 <= k < |writes| && Covers(writes[k], i)
  }

  /** The last byte copied to position i, or the initial zero. */
  function ValueAt(writes: seq<Write>, i: nat): U8 {
    if writes == [] then 0
    else
      var last := writes[|writes| - 1];
      if Covers(last, i) then last.data[i - last.offset] else ValueAt(writes[..|writes| - 1], i)
  }

  /** No copy reaches past the 32-bit offsets of the protocol. */
  predicate NoWrap(writes: seq<Write>) {
    forall k :: 0 <= k < |writes| ==> writes[k].offset + |writes[k].data| < 0x1_0000_0000
  }

  /** No reply brought more bytes than were asked for. */
  predicate Short(writes: seq<Write>) {
    forall k :: 0 <= k < |writes| ==> |writes[k].data| <= writes[k].asked
  }

  /** Every byte of the file buffer is the last one copied there. */
  predicate HoldsLastCopies(s: BurstState) {
    && (forall k :: 0 <= k < |s.writes| ==> s.writes[k].offset + |s.writes[k].data| <= |s.fileData|)
    && (forall i :: 0 <= i < |s.fileData| ==> s.fileData[i] == ValueAt(s.writes, i))
  }

  lemma {:induction false} UncoveredIsZero(writes: seq<Write>, i: nat)
    requires !Covered(writes, i)
    ensures ValueAt(writes, i) == 0
    decreases |writes|
  {
    if writes != [] {
      var front := writes[..|writes| - 1];
      assert forall k :: 0 <= k < |front| ==> front[k] == writes[k];
      UncoveredIsZero(front, i);
    }
  }

  lemma CoveredStep(writes: seq<Write>, w: Write, i: int)
    ensures Covered(writes + [w], i) <==> Covered(writes, i) || Covers(w, i)
  {
    var writes' := writes + [w];
    if Covered(writes, i) {
      var k :| 0 <= k < |writes| && Covers(writes[k], i);
      assert writes'[k] == writes[k];
    }
    assert writes'[|writes|] == w;
    if Covered(writes', i) {
      var k :| 0 <= k < |writes'| && Covers(writes'[k], i);
      assert k < |writes| ==> writes'[k] == writes[k];
    }
  }

  lemma CopyKeeps(s: BurstState, w: Write)
    requires HoldsLastCopies(s)
    ensures HoldsLastCopies(Copied(s, w))
  {
    var s' := Copied(s, w);
    assert s'.writes[..|s'.writes| - 1] == s.writes;
    forall i | 0 <= i < |s'.fileData| ensures s'.fileData[i] == ValueAt(s'.writes, i) {
      if i >= |s.fileData| && !Covers(w, i) {
        UncoveredIsZero(s.writes, i);
      }
    }
  }

  // ---- Bookkeeping of the burst phase ----

  predicate InHole(hole: MissingBlock, i: int) {
    hole.offset <= i < hole.offset + hole.size
  }

  predicate InHoles(holes: seq<MissingBlock>, i: int) {
    exists k :: 0 <= k < |holes| && InHole(holes[k], i)
  }

  function HoleSum(holes: seq<MissingBlock>): nat {
    if holes == [] then 0 else holes[0].size + HoleSum(holes[1..])
  }

  /** Holes are non-empty, strictly ascending, apart from each other, and followed by received bytes. */
  predicate HolesAscend(holes: seq<MissingBlock>, end: nat) {
    && (forall k :: 0 <= k < |holes| ==> holes[k].size > 0 && holes[k].offset + holes[k].size < end)
    && (forall j, k :: 0 <= j < k < |holes| ==> holes[j].offset + holes[j].size < holes[k].offset)
  }

  /** Received ranges and holes partition everything before the end. */
  predicate Partitions(s: BurstState) {
    && (forall i :: 0 <= i < s.contiguousEnd ==> (Covered(s.writes, i) <==> !InHoles(s.missingBlocks, i)))
    && (forall k :: 0 <= k < |s.writes| ==> s.writes[k].offset + |s.writes[k].data| <= s.contiguousEnd)
  }

  predicate Counts(s: BurstState) {
    && s.bytesWritten + HoleSum(s.missingBlocks) == s.contiguousEnd <= |s.fileData|
    && |s.writes| == s.totalPackets <= s.bytesWritten
    && (s.contiguousEnd > 0 ==> Covered(s.writes, s.contiguousEnd - 1))
  }

  /** Progress never went down, never passed the end, and is the number of bytes written. */
  predicate ProgressRises(s: BurstState) {
    && (forall j, k :: 0 <= j < k < |s.published| ==> s.published[j] <= s.published[k])
    && (forall k :: 0 <= k < |s.published| ==> s.published[k] <= s.contiguousEnd)
    && s.bytesWritten == if s.published == [] then 0 else s.published[|s.published| - 1]
  }

  predicate Book(s: BurstState) {
    && HolesAscend(s.missingBlocks, s.contiguousEnd) && Partitions(s) && Counts(s) && ProgressRises(s)
  }

  lemma HoleSumAppend(holes: seq<MissingBlock>, hole: MissingBlock)
    ensures HoleSum(holes + [hole]) == HoleSum(holes) + hole.size
  {
    if holes == [] {
      assert [hole][1..] == [];
    } else {
      assert (holes + [hole])[1..] == holes[1..] + [hole];
      HoleSumAppend(holes[1..], hole);
    }
  }

  lemma InHolesStep(holes: seq<MissingBlock>, hole: MissingBlock, i: int)
    ensures InHoles(holes + [hole], i) <==> InHoles(holes, i) || InHole(hole, i)
  {
    var holes' := holes + [hole];
    if InHoles(holes, i) {
      var k :| 0 <= k < |holes| && InHole(holes[k], i);
      assert holes'[k] == holes[k];
    }
    assert holes'[|holes|] == hole;
    if InHoles(holes', i) {
      var k :| 0 <= k < |holes'| && InHole(holes'[k], i);
      assert k < |holes| ==> holes'[k] == holes[k];
    }
  }

  lemma NoWrapFront(writes: seq<Write>, w: Write)
    requires NoWrap(writes + [w])
    ensures NoWrap(writes) && w.offset + |w.data| < 0x1_0000_0000
  {
    assert forall k :: 0 <= k < |writes| ==> (writes + [w])[k] == writes[k];
    assert (writes + [w])[|writes|] == w;
  }

  /** An accepted chunk in terms of the old state: an optional hole, then the chunk. */
  lemma AcceptedShape(s: BurstState, p: FtpPayload) returns (w: Write)
    requires ApplyChunk(s, p).Accepted?
    ensures var s' := ApplyChunk(s, p).state;
            && w.data != [] && w.offset >= s.contiguousEnd && w.asked == |w.data|
            && s'.writes == s.writes + [w] && w == CopyOf(p, p.offset, p.size)
            && s'.contiguousEnd == (w.offset + |w.data|) % 0x1_0000_0000
            && s'.bytesWritten == Add32(s.bytesWritten, |w.data|)
            && s'.published == s.published + [s'.bytesWritten]
            && s'.fileData == Overwrite(s.fileData, w.offset, w.data)
            && s'.totalPackets == s.totalPackets + 1
            && s'.missingBlocks == s.missingBlocks + NewHole(s.contiguousEnd, w.offset)
  {
    w := CopyOf(p, p.offset, p.size);
  }

  lemma PartitionStep(s: BurstState, s': BurstState, w: Write)
    requires HolesAscend(s.missingBlocks, s.contiguousEnd) && Partitions(s)
    requires w.offset >= s.contiguousEnd && s'.writes == s.writes + [w]
    requires s'.contiguousEnd == w.offset + |w.data|
    requires s'.missingBlocks == s.missingBlocks + NewHole(s.contiguousEnd, w.offset)
    ensures Partitions(s')
  {
    forall i | 0 <= i < s'.contiguousEnd
      ensures Covered(s'.writes, i) <==> !InHoles(s'.missingBlocks, i)
    {
      CoveredStep(s.writes, w, i);
      if w.offset > s.contiguousEnd {
        InHolesStep(s.missingBlocks, MissingBlock(s.contiguousEnd, w.offset - s.contiguousEnd), i);
      } else {
        assert s'.missingBlocks == s.missingBlocks;
      }
    }
  }

  /** Accepting a chunk keeps the books. */
  lemma AcceptKeeps(s: BurstState, p: FtpPayload)
    requires ApplyChunk(s, p).Accepted? && Book(s)
    requires NoWrap(ApplyChunk(s, p).state.writes)
    ensures Book(ApplyChunk(s, p).state)
  {
    hide Partitions, Counts, HolesAscend, Covered;
    var s' := ApplyChunk(s, p).state;
    var w := AcceptedShape(s, p);
    NoWrapFront(s.writes, w);
    HolesStep(s.missingBlocks, s.contiguousEnd, w);
    PartitionStep(s, s', w);
    CountStep(s, s', w);
    ProgressStep(s, s', |w.data|);
  }

  lemma HolesStep(holes: seq<MissingBlock>, end: U32, w: Write)
    requires HolesAscend(holes, end) && w.offset >= end && w.data != []
    ensures HolesAscend(holes + NewHole(end, w.offset), w.offset + |w.data|)
  {
    assert w.offset <= end ==> holes + NewHole(end, w.offset) == holes;
  }

  lemma ProgressStep(s: BurstState, s': BurstState, n: nat)
    requires ProgressRises(s) && s'.bytesWritten == s.bytesWritten + n <= s'.contiguousEnd
    requires s.contiguousEnd <= s'.contiguousEnd
    requires s'.published == s.published + [s'.bytesWritten]
    ensures ProgressRises(s')
  {
  }

  lemma CountStep(s: BurstState, s': BurstState, w: Write)
    requires Counts(s) && w.data != [] && w.offset >= s.contiguousEnd
    requires w.offset + |w.data| < 0x1_0000_0000
    requires s'.writes == s.writes + [w] && s'.contiguousEnd == w.offset + |w.data|
    requires s'.bytesWritten == Add32(s.bytesWritten, |w.data|) && s'.totalPackets == s.totalPackets + 1
    requires s'.fileData == Overwrite(s.fileData, w.offset, w.data)
    requires s'.missingBlocks == s.missingBlocks + NewHole(s.contiguousEnd, w.offset)
    ensures Counts(s')
  {
    CoveredStep(s.writes, w, s'.contiguousEnd - 1);
    Add32Exact(s.bytesWritten, |w.data|);
    if w.offset > s.contiguousEnd {
      HoleSumAppend(s.missingBlocks, MissingBlock(s.contiguousEnd, w.offset - s.contiguousEnd));
    } else {
      assert s'.missingBlocks == s.missingBlocks;
    }
  }

  /** The invariant of the burst phase: the books are right unless an offset passed 32 bits. */
  predicate BurstInv(s: BurstState) {
    && HoldsLastCopies(s)
    && (NoWrap(s.writes) ==> Book(s))
  }

  /** There are no more accepted packets than bytes before the end, and the last byte was received. */
  predicate PacketsFit(s: BurstState) {
    NoWrap(s.writes) ==>
      s.totalPackets <= s.contiguousEnd && (s.contiguousEnd > 0 ==> Covered(s.writes, s.contiguousEnd - 1))
  }

  lemma NewStateInv(fileSize: nat)
    ensures BurstInv(NewState(fileSize))
  {
  }

  lemma AcceptInv(s: BurstState, p: FtpPayload)
    requires ApplyChunk(s, p).Accepted? && BurstInv(s)
    ensures BurstInv(ApplyChunk(s, p).state)
    ensures s.writes <= ApplyChunk(s, p).state.writes
  {
    var s' := ApplyChunk(s, p).state;
    var w := AcceptedShape(s, p);
    CopyKeeps(NoteHole(s, p.offset), w);
    if NoWrap(s'.writes) {
      NoWrapFront(s.writes, w);
      AcceptKeeps(s, p);
    }
  }

  lemma InvFits(s: BurstState)
    requires BurstInv(s)
    ensures PacketsFit(s)
  {
  }

  lemma MalformedFits(s: BurstState, p: FtpPayload)
    requires ApplyChunk(s, p).Malformed? && PacketsFit(s)
    ensures var s' := ApplyChunk(s, p).state;
            PacketsFit(s') && s'.writes == s.writes && s'.totalPackets == s.totalPackets
  {
  }

  /** What a number of accepted packets and retries have used up of the cycle budget. */
  function Spent(packets: nat, retries: nat): nat {
    (FTP_MAX_RETRIES + 1) * packets + retries
  }

  /** A cycle keeps the invariant; a cycle that continues uses up budget. */
  lemma {:induction false} CycleLoopKeeps(l: Link, target: Target, session: U8, s: BurstState, retries: nat)
    requires retries <= FTP_MAX_RETRIES && BurstInv(s)
    ensures var e := CycleLoop(l, target, session, s, retries);
            && (!e.outcome.Aborted? ==> BurstInv(e.state)) && PacketsFit(e.state) && s.writes <= e.state.writes
            && (if e.outcome.Continue?
                then Spent(s.totalPackets, retries) < Spent(e.state.totalPackets, e.retries)
                else Spent(s.totalPackets, retries) <= Spent(e.state.totalPackets, FTP_MAX_RETRIES))
    decreases |l.schedule|
  {
    hide Transport.Recv, Transport.Call, ApplyChunk, BurstInv, PacketsFit;
    InvFits(s);
    var (r, l') := Recv(l, target, None);
    match r
    case Expired =>
    case Broken(_) => CycleLoopKeeps(l', target, session, s, retries);
    case Got(p) =>
      if CheckNak(p).None? {
        var chunk := ApplyChunk(s, p);
        if !IsBurstChunk(p) || chunk.Dropped? {
          CycleLoopKeeps(l', target, session, s, retries);
        } else if chunk.Accepted? {
          AcceptInv(s, p);
          InvFits(chunk.state);
          if p.burstComplete != 1 {
            CycleLoopKeeps(l', target, session, chunk.state, 0);
          }
        } else {
          MalformedFits(s, p);
        }
      }
  }

  /** The burst phase keeps the invariant and runs a bounded number of cycles. */
  lemma {:induction false} BurstPhaseKeeps(l: Link, target: Target, session: U8, s: BurstState, retries: nat)
    requires retries <= FTP_MAX_RETRIES && BurstInv(s)
    ensures var e := BurstPhase(l, target, session, s, retries);
            && (e.failure.None? ==> BurstInv(e.state)) && PacketsFit(e.state) && s.writes <= e.state.writes
            && e.cycles + Spent(s.totalPackets, retries) <= Spent(e.state.totalPackets, FTP_MAX_RETRIES + 1)
    decreases |l.schedule|, FTP_MAX_RETRIES - retries
  {
    hide Transport.Recv, Transport.Call, CycleLoop;
    var (seqNumber, l1) := Draw(l);
    CycleLoopKeeps(Submit(l1, target, BurstRequest(seqNumber, session, s.contiguousEnd)), target, session, s, retries);
    var e := Cycle(l, target, session, s, retries);
    if e.outcome.Continue? {
      BurstPhaseKeeps(e.link, target, session, e.state, e.retries);
    }
  }

  /**
   The books at the end of the burst phase: holes ascend and are apart, received ranges and holes
   partition the file so far, byte counts add up, and the buffer holds the last copies.
   */
  lemma BurstBooks(l: Link, target: Target, session: U8, fileSize: nat)
    ensures var e := BurstPhase(l, target, session, NewState(fileSize), 0);
            e.failure.None? && NoWrap(e.state.writes) ==> Book(e.state) && HoldsLastCopies(e.state)
  {
    hide BurstPhase;
    NewStateInv(fileSize);
    BurstPhaseKeeps(l, target, session, NewState(fileSize), 0);
  }

  // ---- Repair ----

  /** Repairs only add copies. */
  predicate Extends(s: BurstState, s': BurstState) {
    && s.writes <= s'.writes
    && s'.contiguousEnd == s.contiguousEnd && s'.missingBlocks == s.missingBlocks
    && s'.totalPackets == s.totalPackets && |s'.fileData| >= |s.fileData|
  }

  /** With short replies, progress rises and `owed` more bytes stay within the end. */
  predicate Budget(s: BurstState, owed: nat) {
    ProgressRises(s) && s.bytesWritten + owed <= s.contiguousEnd
  }

  lemma CoveredMonotone(a: seq<Write>, b: seq<Write>, i: int)
    requires a <= b && Covered(a, i)
    ensures Covered(b, i)
  {
    var k :| 0 <= k < |a| && Covers(a[k], i);
    assert b[k] == a[k];
  }

  lemma PrefixChecks(a: seq<Write>, b: seq<Write>)
    requires a <= b
    ensures NoWrap(b) ==> NoWrap(a)
    ensures Short(b) ==> Short(a)
  {
    assert forall k :: 0 <= k < |a| ==> a[k] == b[k];
  }

  /** One repaired piece: the copy covers its range and, when short, stays within the budget. */
  lemma PieceKeeps(s: BurstState, hole: MissingBlock, filled: U32, p: FtpPayload, owed: nat)
    requires filled < hole.size && hole.offset + hole.size < 0x1_0000_0000 && 0 < p.size <= |p.data|
    requires HoldsLastCopies(s)
    ensures var s' := PieceCopied(s, hole, filled, p);
            && HoldsLastCopies(s') && Extends(s, s')
            && (NoWrap(s'.writes) ==>
                  && Add32(filled, p.size) == filled + p.size
                  && forall i :: hole.offset + filled <= i < hole.offset + filled + p.size ==> Covered(s'.writes, i))
            && (NoWrap(s'.writes) && Short(s'.writes) && Budget(s, hole.size - filled + owed) ==>
                  filled + p.size <= hole.size && s'.bytesWritten == s.bytesWritten + p.size
                  && Budget(s', hole.size - (filled + p.size) + owed))
  {
    hide HoldsLastCopies, Covered, Add32;
    var offset := hole.offset + filled;
    Add32Exact(hole.offset, filled);
    var s' := PieceCopied(s, hole, filled, p);
    var w := CopyOf(p, offset, Min(hole.size - filled, FTP_DATA_MAX_LEN));
    CopyKeeps(s, w);
    assert s'.writes[|s.writes|] == w;
    if NoWrap(s'.writes) {
      Add32Exact(filled, p.size);
      forall i | offset <= i < offset + p.size ensures Covered(s'.writes, i) {
        CoveredStep(s.writes, w, i);
      }
      if Short(s'.writes) && Budget(s, hole.size - filled + owed) {
        Add32Exact(s.bytesWritten, p.size);
        ProgressStep(s, s', p.size);
      }
    }
  }

  lemma {:induction false} FillHoleExtends(
      l: Link, target: Target, session: U8, s: BurstState, hole: MissingBlock, filled: U32)
    ensures Extends(s, FillHole(l, target, session, s, hole, filled).state)
    decreases |l.schedule|
  {
    hide ReadPiece;
    if filled < hole.size {
      var p := ReadPiece(l, target, session, s, hole, filled);
      if p.Piece? {
        var s' := PieceCopied(s, hole, filled, p.packet);
        FillHoleExtends(p.link, target, session, s', hole, Add32(filled, p.packet.size));
      }
    }
  }

  lemma {:induction false} FillAllExtends(
      l: Link, target: Target, session: U8, s: BurstState, holes: seq<MissingBlock>)
    ensures Extends(s, FillAll(l, target, session, s, holes).state)
    decreases |holes|
  {
    hide FillHole;
    if holes != [] {
      FillHoleExtends(l, target, session, s, holes[0], 0);
      var e := FillHole(l, target, session, s, holes[0], 0);
      if e.failure.None? {
        FillAllExtends(e.link, target, session, e.state, holes[1..]);
      }
    }
  }

  lemma {:induction false} FillHoleKeeps(
      l: Link, target: Target, session: U8, s: BurstState, hole: MissingBlock, filled: U32, owed: nat)
    requires hole.offset + hole.size < 0x1_0000_0000 && HoldsLastCopies(s)
    ensures var e := FillHole(l, target, session, s, hole, filled);
            && HoldsLastCopies(e.state) && Extends(s, e.state)
            && (e.complete && NoWrap(e.state.writes) ==>
                  forall i :: hole.offset + filled <= i < hole.offset + hole.size ==> Covered(e.state.writes, i))
            && (NoWrap(e.state.writes) && Short(e.state.writes) && filled <= hole.size
                && Budget(s, hole.size - filled + owed) ==>
                  && Budget(e.state, owed)
                  && (e.complete ==> e.state.bytesWritten == s.bytesWritten + hole.size - filled))
    decreases |l.schedule|
  {
    hide ReadPiece;
    if filled < hole.size {
      var p := ReadPiece(l, target, session, s, hole, filled);
      if p.Piece? {
        var s' := PieceCopied(s, hole, filled, p.packet);
        PieceKeeps(s, hole, filled, p.packet, owed);
        FillHoleKeeps(p.link, target, session, s', hole, Add32(filled, p.packet.size), owed);
        var e := FillHole(p.link, target, session, s', hole, Add32(filled, p.packet.size));
        PrefixChecks(s'.writes, e.state.writes);
        if NoWrap(e.state.writes) {
          forall i | hole.offset + filled <= i < hole.offset + filled + p.packet.size
            ensures Covered(e.state.writes, i)
          {
            CoveredMonotone(s'.writes, e.state.writes, i);
          }
        }
      }
    }
  }

  lemma {:induction false} FillAllKeeps(
      l: Link, target: Target, session: U8, s: BurstState, holes: seq<MissingBlock>)
    requires HolesAscend(holes, s.contiguousEnd) && HoldsLastCopies(s)
    ensures var e := FillAll(l, target, session, s, holes);
            && HoldsLastCopies(e.state) && Extends(s, e.state)
            && (e.complete && NoWrap(e.state.writes) ==>
                  forall i :: InHoles(holes, i) ==> Covered(e.state.writes, i))
            && (NoWrap(e.state.writes) && Short(e.state.writes) && Budget(s, HoleSum(holes)) ==>
                  && Budget(e.state, 0)
                  && (e.complete ==> e.state.bytesWritten == s.bytesWritten + HoleSum(holes)))
    decreases |holes|
  {
    hide FillHole;
    if holes != [] {
      FillHoleKeeps(l, target, session, s, holes[0], 0, HoleSum(holes[1..]));
      var e1 := FillHole(l, target, session, s, holes[0], 0);
      if e1.failure.None? {
        assert HolesAscend(holes[1..], s.contiguousEnd);
        FillAllKeeps(e1.link, target, session, e1.state, holes[1..]);
        var e := FillAll(e1.link, target, session, e1.state, holes[1..]);
        PrefixChecks(e1.state.writes, e.state.writes);
        if e1.complete && e.complete && NoWrap(e.state.writes) {
          AllHolesCovered(holes, e1.state.writes, e.state.writes);
        }
      }
    }
  }

  /** Each accepted repair reply leaves strictly less of its hole to ask for, unless its copy passes 32 bits. */
  lemma PieceShrinksHole(l: Link, target: Target, session: U8, s: BurstState, hole: MissingBlock, filled: U32)
    requires filled < hole.size && hole.offset + hole.size < 0x1_0000_0000
    ensures var p := ReadPiece(l, target, session, s, hole, filled);
            p.Piece? && NoWrap(PieceCopied(s, hole, filled, p.packet).writes) ==>
              hole.size - Add32(filled, p.packet.size) < hole.size - filled
  {
    hide ReadPiece, NoWrap;
    var p := ReadPiece(l, target, session, s, hole, filled);
    if p.Piece? && NoWrap(PieceCopied(s, hole, filled, p.packet).writes) {
      Add32Exact(hole.offset, filled);
      NoWrapFront(s.writes, CopyOf(p.packet, hole.offset + filled, Min(hole.size - filled, FTP_DATA_MAX_LEN)));
      Add32Exact(filled, p.packet.size);
    }
  }

  /** So a hole is repaired by no more replies than it has bytes left. */
  lemma {:induction false} FillHoleBounded(
      l: Link, target: Target, session: U8, s: BurstState, hole: MissingBlock, filled: U32)
    requires hole.offset + hole.size < 0x1_0000_0000
    ensures var e := FillHole(l, target, session, s, hole, filled);
            NoWrap(e.state.writes) ==> |e.state.writes| <= |s.writes| + Max(0, hole.size - filled)
    decreases |l.schedule|
  {
    hide ReadPiece, NoWrap;
    if filled < hole.size {
      var p := ReadPiece(l, target, session, s, hole, filled);
      if p.Piece? {
        var s' := PieceCopied(s, hole, filled, p.packet);
        FillHoleBounded(p.link, target, session, s', hole, Add32(filled, p.packet.size));
        FillHoleExtends(p.link, target, session, s', hole, Add32(filled, p.packet.size));
        var e := FillHole(p.link, target, session, s', hole, Add32(filled, p.packet.size));
        PrefixChecks(s'.writes, e.state.writes);
        if NoWrap(e.state.writes) {
          Add32Exact(hole.offset, filled);
          NoWrapFront(s.writes, CopyOf(p.packet, hole.offset + filled, Min(hole.size - filled, FTP_DATA_MAX_LEN)));
          Add32Exact(filled, p.packet.size);
        }
      }
    }
  }

  lemma {:induction false} FillAllBounded(
      l: Link, target: Target, session: U8, s: BurstState, holes: seq<MissingBlock>)
    requires HolesAscend(holes, s.contiguousEnd)
    ensures var e := FillAll(l, target, session, s, holes);
            NoWrap(e.state.writes) ==> |e.state.writes| <= |s.writes| + HoleSum(holes)
    decreases |holes|
  {
    hide FillHole, NoWrap;
    if holes != [] {
      FillHoleBounded(l, target, session, s, holes[0], 0);
      FillHoleExtends(l, target, session, s, holes[0], 0);
      var e1 := FillHole(l, target, session, s, holes[0], 0);
      if e1.failure.None? {
        FillAllBounded(e1.link, target, session, e1.state, holes[1..]);
        FillAllExtends(e1.link, target, session, e1.state, holes[1..]);
        PrefixChecks(e1.state.writes, FillAll(e1.link, target, session, e1.state, holes[1..]).state.writes);
      }
    }
  }

  lemma AllHolesCovered(holes: seq<MissingBlock>, first: seq<Write>, all: seq<Write>)
    requires holes != [] && first <= all
    requires forall i :: holes[0].offset <= i < holes[0].offset + holes[0].size ==> Covered(first, i)
    requires forall i :: InHoles(holes[1..], i) ==> Covered(all, i)
    ensures forall i :: InHoles(holes, i) ==> Covered(all, i)
  {
    forall i | InHoles(holes, i) ensures Covered(all, i) {
      var k :| 0 <= k < |holes| && InHole(holes[k], i);
      if k == 0 {
        CoveredMonotone(first, all, i);
      } else {
        assert InHole(holes[1..][k - 1], i);
      }
    }
  }

  // ---- The whole download ----

  /** The copy is the file's own bytes at its offset. */
  predicate TrueTo(w: Write, file: seq<U8>) {
    && w.offset + |w.data| <= |file|
    && w.data == file[w.offset..w.offset + |w.data|]
  }

  predicate AllTrue(writes: seq<Write>, file: seq<U8>) {
    forall k :: 0 <= k < |writes| ==> TrueTo(writes[k], file)
  }

  lemma {:induction false} CoveredIsTrue(writes: seq<Write>, file: seq<U8>, i: nat)
    requires AllTrue(writes, file) && Covered(writes, i)
    ensures i < |file| && ValueAt(writes, i) == file[i]
    decreases |writes|
  {
    var last := writes[|writes| - 1];
    var front := writes[..|writes| - 1];
    if !Covers(last, i) {
      var k :| 0 <= k < |writes| && Covers(writes[k], i);
      assert front[k] == writes[k];
      CoveredIsTrue(front, file, i);
    } else {
      assert TrueTo(last, file);
      assert last.data[i - last.offset] == file[last.offset..last.offset + |last.data|][i - last.offset];
    }
  }

  /** One of the first `packets` copies, those of the burst, covers the position. */
  predicate BurstCovered(s: BurstState, i: int) {
    exists k :: 0 <= k < |s.writes| && k < s.totalPackets && Covers(s.writes[k], i)
  }

  /** The burst's copies end where the file so far ends. */
  predicate BurstEndsAtEnd(s: BurstState) {
    && (forall k :: 0 <= k < |s.writes| && k < s.totalPackets ==>
          s.writes[k].offset + |s.writes[k].data| <= s.contiguousEnd)
    && (s.contiguousEnd > 0 ==> BurstCovered(s, s.contiguousEnd - 1))
  }

  lemma BookEndsAtEnd(s: BurstState, s': BurstState)
    requires Book(s) && Extends(s, s')
    ensures BurstEndsAtEnd(s')
  {
    assert forall k :: 0 <= k < |s.writes| ==> s'.writes[k] == s.writes[k];
    if s.contiguousEnd > 0 {
      var k :| 0 <= k < |s.writes| && Covers(s.writes[k], s.contiguousEnd - 1);
      assert Covers(s'.writes[k], s'.contiguousEnd - 1);
    }
  }

  /** The state a successful download ends in, before the session is closed and the file cut. */
  predicate Finished(s: BurstState, complete: bool) {
    && HoldsLastCopies(s)
    && (NoWrap(s.writes) ==>
          && |s.writes| <= s.contiguousEnd <= |s.fileData| && BurstEndsAtEnd(s)
          && (s.contiguousEnd > 0 ==> Covered(s.writes, s.contiguousEnd - 1))
          && (complete ==> forall i :: 0 <= i < s.contiguousEnd ==> Covered(s.writes, i))
          && (Short(s.writes) ==>
                ProgressRises(s) && s.bytesWritten <= s.contiguousEnd
                && (complete ==> s.bytesWritten == s.contiguousEnd)))
  }

  lemma FillFinishes(l: Link, target: Target, session: U8, s: BurstState)
    requires BurstInv(s)
    ensures NoWrap(FillAll(l, target, session, s, s.missingBlocks).state.writes) ==>
              var e := FillAll(l, target, session, s, s.missingBlocks); Finished(e.state, e.complete)
  {
    hide FillAll;
    var e := FillAll(l, target, session, s, s.missingBlocks);
    if NoWrap(e.state.writes) {
      FillAllExtends(l, target, session, s, s.missingBlocks);
      PrefixChecks(s.writes, e.state.writes);
      FillAllKeeps(l, target, session, s, s.missingBlocks);
      FillAllBounded(l, target, session, s, s.missingBlocks);
      BookEndsAtEnd(s, e.state);
      if s.contiguousEnd > 0 {
        CoveredMonotone(s.writes, e.state.writes, s.contiguousEnd - 1);
      }
      forall i | 0 <= i < s.contiguousEnd && e.complete ensures Covered(e.state.writes, i) {
        if Covered(s.writes, i) {
          CoveredMonotone(s.writes, e.state.writes, i);
        }
      }
    }
  }

  /** What a successful download returns, in terms of the copies made. */
  predicate Returned(d: DownloadEnd, got: seq<U8>) {
    && |d.state.writes| <= |got| == d.state.contiguousEnd && BurstEndsAtEnd(d.state)
    && (forall i :: 0 <= i < |got| ==> got[i] == ValueAt(d.state.writes, i))
    && (got != [] ==> Covered(d.state.writes, |got| - 1))
    && (d.complete ==> forall i :: 0 <= i < |got| ==> Covered(d.state.writes, i))
    && (Short(d.state.writes) ==>
          && (forall j, k :: 0 <= j < k < |d.state.published| ==> d.state.published[j] <= d.state.published[k])
          && (forall k :: 0 <= k < |d.state.published| ==> d.state.published[k] <= |got|)
          && d.state.published != [] && d.state.published[|d.state.published| - 1] == |got|
          && (d.complete ==> d.state.bytesWritten == |got|))
  }

  lemma FinishedReturns(s: BurstState, complete: bool, d: DownloadEnd)
    requires NoWrap(s.writes) && Finished(s, complete)
    requires d.result == Success(Truncated(s)) && d.complete == complete
    requires d.state == Published(s, |Truncated(s)|)
    ensures Returned(d, Truncated(s))
  {
  }

  lemma ReadOpenedReturns(l: Link, target: Target, handle: Opened)
    ensures var d := ReadOpened(l, target, handle);
            && (d.result.Success? && NoWrap(d.state.writes) ==> Returned(d, d.result.value))
            && PacketsFit(d.state)
            && d.cycles <= (FTP_MAX_RETRIES + 1) * (d.state.totalPackets + 1)
  {
    hide Transport.Call, BurstPhase, FillAll, Returned;
    NewStateInv(handle.fileSize);
    BurstPhaseKeeps(l, target, handle.session, NewState(handle.fileSize), 0);
    var phase := BurstPhase(l, target, handle.session, NewState(handle.fileSize), 0);
    if phase.failure.None? {
      var s := phase.state;
      FillFinishes(phase.link, target, handle.session, s);
      FillAllExtends(phase.link, target, handle.session, s, s.missingBlocks);
      var fill := FillAll(phase.link, target, handle.session, s, s.missingBlocks);
      FitExtends(s, fill.state);
      var d := ReadOpened(l, target, handle);
      if d.result.Success? && NoWrap(d.state.writes) {
        FinishedReturns(fill.state, fill.complete, d);
      }
    }
  }

  lemma FitExtends(s: BurstState, s': BurstState)
    requires PacketsFit(s) && Extends(s, s')
    ensures PacketsFit(s')
  {
    if NoWrap(s'.writes) {
      PrefixChecks(s.writes, s'.writes);
      if s.contiguousEnd > 0 {
        CoveredMonotone(s.writes, s'.writes, s.contiguousEnd - 1);
      }
    }
  }

  lemma DownloadReturns(l: Link, target: Target, path: Path, maxSize: Option<nat>)
    ensures var d := Download(l, target, path, maxSize);
            && (d.result.Success? && NoWrap(d.state.writes) ==> Returned(d, d.result.value))
            && PacketsFit(d.state)
            && d.cycles <= (FTP_MAX_RETRIES + 1) * (d.state.totalPackets + 1)
  {
    hide OpenForRead, ReadOpened, Returned;
    var (r, l1) := OpenForRead(l, target, path, maxSize);
    if r.Success? {
      ReadOpenedReturns(l1, target, r.value);
    }
  }

  lemma TrueNeverWraps(writes: seq<Write>, file: seq<U8>)
    requires AllTrue(writes, file) && |file| < 0x1_0000_0000
    ensures NoWrap(writes)
  {
    forall k | 0 <= k < |writes| ensures writes[k].offset + |writes[k].data| < 0x1_0000_0000 {
      assert TrueTo(writes[k], file);
    }
  }

  /**
   If every copied chunk carries the file's own bytes for its offset, a successful download is
   a prefix of the file with zeros in the holes that were never repaired. It is exactly the
   prefix when those holes are zero in the file, so always when every hole was repaired, and it
   is the whole file when it is also as long. The advertised size plays no part.
   */
  lemma DownloadCorrect(l: Link, target: Target, path: Path, maxSize: Option<nat>, file: seq<U8>)
    requires |file| < 0x1_0000_0000
    ensures var d := Download(l, target, path, maxSize);
            d.result.Success? && AllTrue(d.state.writes, file) ==>
              var got := d.result.value;
              && |got| <= |file|
              && (forall i :: 0 <= i < |got| ==> got[i] == if Covered(d.state.writes, i) then file[i] else 0)
              && (got == file[..|got|] <==>
                    forall i :: 0 <= i < |got| && !Covered(d.state.writes, i) ==> file[i] == 0)
              && (d.complete ==> got == file[..|got|])
              && (d.complete && |got| == |file| ==> got == file)
  {
    hide Download;
    DownloadReturns(l, target, path, maxSize);
    var d := Download(l, target, path, maxSize);
    if d.result.Success? && AllTrue(d.state.writes, file) {
      TrueNeverWraps(d.state.writes, file);
      ReturnedIsFile(d, d.result.value, file);
    }
  }

  /**
   Exactly when a successful download from true copies is the whole file: a packet of the burst
   brought the file's last byte, and the holes left unrepaired are zero in the file. Anything
   else ends the burst too early or leaves the wrong byte in a hole.
   */
  lemma WholeFileExactly(l: Link, target: Target, path: Path, maxSize: Option<nat>, file: seq<U8>)
    requires |file| < 0x1_0000_0000
    ensures var d := Download(l, target, path, maxSize);
            d.result.Success? && AllTrue(d.state.writes, file) ==>
              (d.result.value == file <==>
                && (file == [] || BurstCovered(d.state, |file| - 1))
                && forall i :: 0 <= i < |file| && !Covered(d.state.writes, i) ==> file[i] == 0)
  {
    hide Download, AllTrue, Covered;
    DownloadReturns(l, target, path, maxSize);
    var d := Download(l, target, path, maxSize);
    if d.result.Success? && AllTrue(d.state.writes, file) {
      TrueNeverWraps(d.state.writes, file);
      ReturnedIsFile(d, d.result.value, file);
      assert d.result.value == file <==> |d.result.value| == |file| && d.result.value == file[..|d.result.value|];
    }
  }

  lemma ReturnedIsFile(d: DownloadEnd, got: seq<U8>, file: seq<U8>)
    requires Returned(d, got) && AllTrue(d.state.writes, file)
    ensures |got| <= |file|
    ensures forall i :: 0 <= i < |got| ==> got[i] == if Covered(d.state.writes, i) then file[i] else 0
    ensures got == file[..|got|] <==>
              forall i :: 0 <= i < |got| && !Covered(d.state.writes, i) ==> file[i] == 0
  {
    if got != [] {
      CoveredIsTrue(d.state.writes, file, |got| - 1);
    }
    forall i | 0 <= i < |got|
      ensures got[i] == if Covered(d.state.writes, i) then file[i] else 0
    {
      if Covered(d.state.writes, i) {
        CoveredIsTrue(d.state.writes, file, i);
      } else {
        UncoveredIsZero(d.state.writes, i);
      }
    }
    if got == file[..|got|] {
      assert forall i :: 0 <= i < |got| ==> got[i] == file[i];
    }
  }

  /**
   Whatever is lost, the burst phase asks at most six times per accepted packet and six times
   more; and no more packets are ever accepted, repairs included, than the file has bytes.
   */
  lemma DownloadBounded(l: Link, target: Target, path: Path, maxSize: Option<nat>, file: seq<U8>)
    requires |file| < 0x1_0000_0000
    ensures var d := Download(l, target, path, maxSize);
            && d.cycles <= (FTP_MAX_RETRIES + 1) * (d.state.totalPackets + 1)
            && (AllTrue(d.state.writes, file) ==> d.state.totalPackets <= |file|)
            && (AllTrue(d.state.writes, file) && d.result.Success? ==> |d.state.writes| <= |file|)
  {
    hide Download;
    DownloadReturns(l, target, path, maxSize);
    var d := Download(l, target, path, maxSize);
    if AllTrue(d.state.writes, file) {
      TrueNeverWraps(d.state.writes, file);
      if d.state.contiguousEnd > 0 {
        CoveredIsTrue(d.state.writes, file, d.state.contiguousEnd - 1);
      }
    }
  }

  /** With replies no longer than asked for, published progress only rises, up to the returned length. */
  lemma DownloadProgress(l: Link, target: Target, path: Path, maxSize: Option<nat>)
    ensures var d := Download(l, target, path, maxSize);
            d.result.Success? && NoWrap(d.state.writes) && Short(d.state.writes) ==>
              var got, published := d.result.value, d.state.published;
              && (forall j, k :: 0 <= j < k < |published| ==> published[j] <= published[k])
              && (forall k :: 0 <= k < |published| ==> published[k] <= |got|)
              && published != [] && published[|published| - 1] == |got|
              && (d.complete ==> d.state.bytesWritten == |got|)
  {
    hide Download;
    DownloadReturns(l, target, path, maxSize);
  }

  /** The client reads the size the vehicle advertises when it opens a file. */
  lemma AdvertisedSizeIsRead(srv: Server, req: FtpPayload, session: U8, count: nat)
    requires req.opcode == OPEN_FILE_RO && req.data in srv.files
    ensures AdvertisedSize(Execute(srv, req, Proceed(session, count)).1) == |srv.files[req.data]| % 0x1_0000_0000
  {
    Le32Inverse(|srv.files[req.data]| % 0x1_0000_0000);
  }

  /** The bound on cycles is reached: over a silent link the burst gives up after exactly six. */
  lemma {:induction false} BoundIsReached(l: Link, target: Target, session: U8, s: BurstState, retries: nat)
    requires l.schedule == [] && retries <= FTP_MAX_RETRIES
    ensures var e := BurstPhase(l, target, session, s, retries);
            e.failure == Some(TimedOut) && e.state == s && e.cycles == FTP_MAX_RETRIES + 1 - retries
    decreases FTP_MAX_RETRIES - retries
  {
    var e := Cycle(l, target, session, s, retries);
    if retries < FTP_MAX_RETRIES {
      BoundIsReached(e.link, target, session, s, retries + 1);
    }
  }

  // ---- When a repair reply can be trusted ----

  /** The packet tells the truth about the file, at its own offset. */
  predicate Honest(p: FtpPayload, file: seq<U8>) {
    && p.size == |p.data| && p.offset + |p.data| <= |file|
    && p.data == file[p.offset..p.offset + |p.data|]
  }

  /**
   The client stores a repair reply at the offset it asked for without looking at the reply's own
   offset. For a truthful packet that is right, whatever the file is, exactly when the two are equal.
   */
  lemma RepairTrustedExactly(p: FtpPayload, readOffset: U32)
    requires p.data != [] && p.size == |p.data|
    ensures (forall file :: Honest(p, file) ==> TrueTo(CopyOf(p, readOffset, p.size), file))
       <==> p.offset == readOffset
  {
    if p.offset != readOffset {
      var file := seq(p.offset, i => if p.data[0] == 0 then 1 else 0) + p.data;
      assert file[p.offset..p.offset + |p.data|] == p.data;
      assert Honest(p, file);
      if readOffset < p.offset && readOffset + |p.data| <= |file| {
        assert file[readOffset..readOffset + |p.data|][0] != p.data[0];
      }
    }
  }
}
