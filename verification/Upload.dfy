/** `write_file` (mavftp/client.rs): reset, create, write in 239-byte chunks, terminate. */
module Upload {
  import opened Wrappers
  import opened Bytes
  import opened FtpProtocol
  import opened FtpServer
  import opened Transport
  import opened InOrderLink

  function WriteRequest(s: U16, session: U8, offset: U32, chunk: seq<U8>): FtpPayload
    requires |chunk| <= FTP_DATA_MAX_LEN
  {
    NewRequest(WRITE_FILE, s).(session := session, offset := offset, data := chunk, size := |chunk|)
  }

  function Done(r: Result<FtpPayload, FtpFailure>): Result<(), FtpFailure> {
    match r case Success(_) => Success(()) case Failure(e) => Failure(e)
  }

  /** Writes the rest of the data chunk by chunk and terminates the session. */
  function WriteChunks(l: Link, target: Target, session: U8, offset: U32, rest: seq<U8>)
    : (Result<(), FtpFailure>, Link)
    decreases |rest|
  {
    if rest == [] then
      var (r, l') := TerminateCall(l, target, session);
      (Done(r), l')
    else
      var n := Min(|rest|, FTP_DATA_MAX_LEN);
      var (s, l1) := Draw(l);
      var (r, l2) := Call(l1, target, WriteRequest(s, session, offset, rest[..n]));
      if r.Failure? then (Failure(r.error), TerminateCall(l2, target, session).1)
      else WriteChunks(l2, target, session, Add32(offset, n), rest[n..])
  }

  function WriteWhole(l: Link, target: Target, path: Path, data: seq<U8>): (Result<(), FtpFailure>, Link) {
    var (reset, l1) := ResetCall(l, target);
    if reset.Failure? then (Failure(reset.error), l1)
    else
      var (s, l2) := Draw(l1);
      var (created, l3) := Call(l2, target, PathRequest(CREATE_FILE, s, path));
      if created.Failure? then (Failure(created.error), l3)
      else WriteChunks(l3, target, created.value.session, 0, data)
  }

  // ---- Correctness over an in-order link ----

  /** The session is open on the file, which holds `written` so far. */
  predicate Writing(srv: Server, base: map<Path, seq<U8>>, session: U8, path: Path, written: seq<U8>) {
    srv.sessions == map[session := path] && srv.files == base[path := written]
  }

  lemma TerminateStep(l: Link, session: U8, path: Path, base: map<Path, seq<U8>>, data: seq<U8>)
    requires Ready(l) && Writing(l.net.server, base, session, path, data)
    ensures var (r, l') := TerminateCall(l, l.vehicle, session);
            r.Success? ==> l'.net.server.files == base[path := data] && l'.net.server.sessions == map[]
  {
    var choice := ReadyCall(l, NewRequest(TERMINATE_SESSION, Draw(l).0).(session := session));
  }

  lemma WriteExecuted(srv: Server, base: map<Path, seq<U8>>, session: U8, path: Path, written: seq<U8>,
                      p: FtpPayload, choice: Choice)
    requires Writing(srv, base, session, path, written)
    requires p.opcode == WRITE_FILE && p.session == session && choice.Proceed?
    ensures Writing(Execute(srv, p, choice).0, base, session, path, Overwrite(written, p.offset, p.data))
  {
  }

  lemma WriteStep(
      l: Link, session: U8, path: Path, base: map<Path, seq<U8>>, written: seq<U8>, offset: U32, chunk: seq<U8>)
    requires Ready(l) && Writing(l.net.server, base, session, path, written)
    requires |chunk| <= FTP_DATA_MAX_LEN
    ensures var (r, l') := Call(Draw(l).1, l.vehicle, WriteRequest(Draw(l).0, session, offset, chunk));
            r.Success? ==>
              && Ready(l') && l'.vehicle == l.vehicle
              && Writing(l'.net.server, base, session, path, Overwrite(written, offset, chunk))
              && (offset == |written| ==> Overwrite(written, offset, chunk) == written + chunk)
  {
    var p := WriteRequest(Draw(l).0, session, offset, chunk);
    var choice := ReadyCall(l, p);
    DecodeEncode(p);
    if choice.Proceed? {
      WriteExecuted(l.net.server, base, session, path, written, p, choice);
    }
    assert offset == |written| ==> Overwrite(written, offset, chunk) == written + chunk;
  }

  /** The end of the last chunk that starts below 2^32, the offsets a request can name. */
  const MAX_UPLOAD := 239 * 17970575

  lemma {:induction false} ChunksCorrect(
      l: Link, base: map<Path, seq<U8>>, session: U8, path: Path,
      written: seq<U8>, k: nat, offset: U32, rest: seq<U8>)
    requires Ready(l) && |written + rest| <= MAX_UPLOAD
    requires rest != [] ==> offset == |written| == FTP_DATA_MAX_LEN * k
    requires Writing(l.net.server, base, session, path, written)
    ensures var (r, l') := WriteChunks(l, l.vehicle, session, offset, rest);
            r.Success? ==> l'.net.server.files == base[path := written + rest] && l'.net.server.sessions == map[]
    decreases |rest|
  {
    hide Transport.SendReceive;
    if rest == [] {
      assert written + rest == written;
      TerminateStep(l, session, path, base, written);
    } else {
      var n := Min(|rest|, FTP_DATA_MAX_LEN);
      WriteStep(l, session, path, base, written, offset, rest[..n]);
      var (r, l2) := Call(Draw(l).1, l.vehicle, WriteRequest(Draw(l).0, session, offset, rest[..n]));
      if r.Success? {
        var written' := written + rest[..n];
        assert written' + rest[n..] == written + rest;
        if rest[n..] != [] {
          Add32Exact(offset, n);
        }
        ChunksCorrect(l2, base, session, path, written', k + 1, Add32(offset, n), rest[n..]);
      }
    }
  }

  // ---- Longer data ----

  /** How long the vehicle's file can get when the offsets wrap. */
  function LongestFile(total: nat): nat {
    if total > 0x1_0000_0000 + FTP_DATA_MAX_LEN - 1 then 0x1_0000_0000 + FTP_DATA_MAX_LEN - 1 else MAX_UPLOAD
  }

  lemma OffsetWraps(sent: nat, n: nat)
    ensures Add32(sent % 0x1_0000_0000, n) == (sent + n) % 0x1_0000_0000
  {
  }

  /** A chunk at a wrapped offset does not make the file longer than that. */
  lemma WrappedChunkFits(k: nat, n: nat, total: nat)
    requires 0 < n <= FTP_DATA_MAX_LEN && FTP_DATA_MAX_LEN * k + n <= total && total > MAX_UPLOAD
    ensures FTP_DATA_MAX_LEN * k % 0x1_0000_0000 + n <= LongestFile(total) < total
  {
    var sent := FTP_DATA_MAX_LEN * k;
    if total <= 0x1_0000_0000 + FTP_DATA_MAX_LEN - 1 {
      if k < 17970575 {
        assert sent % 0x1_0000_0000 == sent;
      } else {
        assert sent % 0x1_0000_0000 == sent - 0x1_0000_0000;
      }
    }
  }

  lemma {:induction false} ChunksBounded(
      l: Link, base: map<Path, seq<U8>>, session: U8, path: Path,
      written: seq<U8>, k: nat, offset: U32, rest: seq<U8>, total: nat)
    requires Ready(l) && Writing(l.net.server, base, session, path, written)
    requires total > MAX_UPLOAD && |written| <= LongestFile(total)
    requires rest != [] ==>
               FTP_DATA_MAX_LEN * k + |rest| == total && offset == FTP_DATA_MAX_LEN * k % 0x1_0000_0000
    ensures var (r, l') := WriteChunks(l, l.vehicle, session, offset, rest);
            r.Success? ==>
              path in l'.net.server.files && |l'.net.server.files[path]| <= LongestFile(total)
    decreases |rest|
  {
    hide Transport.SendReceive, LongestFile;
    if rest == [] {
      TerminateStep(l, session, path, base, written);
    } else {
      var n := Min(|rest|, FTP_DATA_MAX_LEN);
      WriteStep(l, session, path, base, written, offset, rest[..n]);
      var (r, l2) := Call(Draw(l).1, l.vehicle, WriteRequest(Draw(l).0, session, offset, rest[..n]));
      if r.Success? {
        WrappedChunkFits(k, n, total);
        OffsetWraps(FTP_DATA_MAX_LEN * k, n);
        ChunksBounded(l2, base, session, path, Overwrite(written, offset, rest[..n]), k + 1,
                      Add32(offset, n), rest[n..], total);
      }
    }
  }

  /** The opening reset: afterwards only its leftovers are in flight and no session is open. */
  lemma ResetStep(l: Link) returns (earlier: seq<Leftover>)
    requires Startable(l)
    ensures AllFrom(earlier, l.net.toServer) || ResetCall(l, l.vehicle).0.Failure?
    ensures var (r, l') := ResetCall(l, l.vehicle);
            r.Success? ==>
              && Ready(l') && l'.vehicle == l.vehicle && l'.net.server.sessions == map[]
              && l'.net.server.files == ServedAll(l.net.server, earlier).files
              && (Settled(l.net) ==> l'.net.server.files == l.net.server.files)
  {
    hide ServedAll, AllFrom;
    var p := NewRequest(RESET_SESSIONS, Draw(l).0);
    var c := ExactlyOnce(Draw(l).1, p);
    earlier := c.earlier;
    GapsShrink(l);
  }

  lemma CreateStep(l: Link, path: Path)
    requires Ready(l) && l.net.server.sessions == map[]
    ensures var p := PathRequest(CREATE_FILE, Draw(l).0, path);
            var (r, l') := Call(Draw(l).1, l.vehicle, p);
            r.Success? ==>
              && Ready(l') && l'.vehicle == l.vehicle
              && Writing(l'.net.server, l.net.server.files, r.value.session, WirePath(path), [])
  {
    var p := PathRequest(CREATE_FILE, Draw(l).0, path);
    assert NormalData(p) == WirePath(path);
    var choice := ReadyCall(l, p);
  }

  /** From the open session on: the data is there if it is not too long, and cannot be there if it is. */
  lemma SessionExactly(l: Link, base: map<Path, seq<U8>>, session: U8, path: Path, data: seq<U8>)
    requires Ready(l) && Writing(l.net.server, base, session, path, [])
    ensures var (r, l') := WriteChunks(l, l.vehicle, session, 0, data);
            r.Success? ==>
              && path in l'.net.server.files
              && (l'.net.server.files[path] == data <==> |data| <= MAX_UPLOAD)
              && (|data| <= MAX_UPLOAD ==>
                    l'.net.server.files == base[path := data] && l'.net.server.sessions == map[])
  {
    hide WriteChunks, Ready, Writing;
    if |data| <= MAX_UPLOAD {
      assert [] + data == data;
      ChunksCorrect(l, base, session, path, [], 0, 0, data);
    } else {
      ChunksBounded(l, base, session, path, [], 0, 0, data, |data|);
      WrappedChunkFits(0, 1, |data|);
    }
  }

  /**
   An upload that reports success leaves exactly the data under the path the server read, for
   every pattern of lost, repeated and late packets, exactly when the data is not longer than
   the offsets of the protocol reach; no session is open then. Every other file is as it was, but
   for requests of before that were still in flight; when those were only repeats, as it was.
   */
  lemma UploadCorrect(l: Link, path: Path, data: seq<U8>) returns (earlier: seq<Leftover>)
    requires Startable(l)
    ensures var (r, l') := WriteWhole(l, l.vehicle, path, data);
            r.Success? ==>
              && WirePath(path) in l'.net.server.files
              && (l'.net.server.files[WirePath(path)] == data <==> |data| <= MAX_UPLOAD)
              && (|data| <= MAX_UPLOAD ==>
                    && l'.net.server.sessions == map[]
                    && AllFrom(earlier, l.net.toServer)
                    && l'.net.server.files == ServedAll(l.net.server, earlier).files[WirePath(path) := data])
              && (|data| <= MAX_UPLOAD && Settled(l.net) ==>
                    l'.net.server.files == l.net.server.files[WirePath(path) := data])
  {
    hide WriteChunks, Call, Startable, Settled, ServedAll, AllFrom;
    earlier := ResetStep(l);
    var (reset, l1) := ResetCall(l, l.vehicle);
    if reset.Success? {
      CreateStep(l1, path);
      var (created, l3) := Call(Draw(l1).1, l.vehicle, PathRequest(CREATE_FILE, Draw(l1).0, path));
      if created.Success? {
        SessionExactly(l3, l1.net.server.files, created.value.session, WirePath(path), data);
      }
    }
  }

  method WriteFile(hub: Hub, target: Target, path: Path, data: seq<U8>) returns (r: Result<(), FtpFailure>)
    modifies hub
    ensures (r, hub.View()) == WriteWhole(old(hub.View()), target, path, data)
    ensures r.Success? && target == hub.vehicle && old(Startable(hub.View())) ==>
              && WirePath(path) in hub.net.server.files
              && (hub.net.server.files[WirePath(path)] == data <==> |data| <= MAX_UPLOAD)
  {
    hide Transport.Call, Startable;
    ghost var start := hub.View();
    if target == hub.vehicle && Startable(start) {
      var _ := UploadCorrect(start, path, data);
    }
    var reset := hub.Reset(target);
    if reset.Failure? {
      return Failure(reset.error);
    }
    var s := hub.NextSeq();
    var created := hub.CallOnce(target, PathRequest(CREATE_FILE, s, path));
    if created.Failure? {
      return Failure(created.error);
    }
    var session := created.value.session;
    var offset: U32 := 0;
    var rest := data;
    while rest != []
      invariant WriteChunks(hub.View(), target, session, offset, rest) == WriteWhole(start, target, path, data)
      decreases |rest|
    {
      var n := Min(|rest|, FTP_DATA_MAX_LEN);
      s := hub.NextSeq();
      var written := hub.CallOnce(target, WriteRequest(s, session, offset, rest[..n]));
      if written.Failure? {
        var _ := hub.Terminate(target, session);
        return Failure(written.error);
      }
      offset := Add32(offset, n);
      rest := rest[n..];
    }
    var terminated := hub.Terminate(target, session);
    r := Done(terminated);
  }

  // ---- Uploads that succeed ----

  function ChunkCount(data: seq<U8>): nat {
    if data == [] then 0 else 1 + ChunkCount(data[Min(|data|, FTP_DATA_MAX_LEN)..])
  }

  /** The session is the one the prompt vehicle opens, on a file that exists. */
  predicate PromptSession(srv: Server, path: Path) {
    srv.sessions == map[PROMPT.session := path] && path in srv.files
  }

  lemma SessionServes(srv: Server, p: FtpPayload, path: Path)
    requires PromptSession(srv, path) && p.session == PROMPT.session
    requires p.opcode == WRITE_FILE || p.opcode == TERMINATE_SESSION
    ensures var (after, reply) := Execute(srv, p, PROMPT);
            && CheckNak(reply) == None
            && (p.opcode == WRITE_FILE ==> PromptSession(after, path))
  {
  }

  lemma {:induction false} ChunksSucceed(l: Link, path: Path, offset: U32, rest: seq<U8>)
    requires IdleLink(l, 1 + ChunkCount(rest)) && PromptSession(l.net.server, path)
    ensures WriteChunks(l, l.vehicle, PROMPT.session, offset, rest).0 == Success(())
    decreases |rest|
  {
    hide SendReceive, IdleLink, Execute, CheckNak;
    if rest == [] {
      var p := NewRequest(TERMINATE_SESSION, Draw(l).0).(session := PROMPT.session);
      PromptSend(l, p, 1);
      SessionServes(l.net.server, Normalized(p), path);
    } else {
      var n := Min(|rest|, FTP_DATA_MAX_LEN);
      var p := WriteRequest(Draw(l).0, PROMPT.session, offset, rest[..n]);
      PromptSend(l, p, 1 + ChunkCount(rest));
      SessionServes(l.net.server, Normalized(p), path);
      ChunksSucceed(SendReceive(Draw(l).1, l.vehicle, p).1, path, Add32(offset, n), rest[n..]);
    }
  }

  /** Over an idle link to a vehicle that answers at once and refuses nothing, every upload succeeds. */
  lemma UploadSucceeds(l: Link, path: Path, data: seq<U8>)
    requires IdleLink(l, 3 + ChunkCount(data))
    ensures Startable(l) && WriteWhole(l, l.vehicle, path, data).0 == Success(())
  {
    hide SendReceive, IdleLink;
    IdleIsStartable(l, 3 + ChunkCount(data));
    PromptSend(l, NewRequest(RESET_SESSIONS, Draw(l).0), 3 + ChunkCount(data));
    var l1 := ResetCall(l, l.vehicle).1;
    var p := PathRequest(CREATE_FILE, Draw(l1).0, path);
    PromptSend(l1, p, 2 + ChunkCount(data));
    var l3 := SendReceive(Draw(l1).1, l.vehicle, p).1;
    ChunksSucceed(l3, NormalData(p), 0, data);
  }

  /** So longer data is uploaded with success and is not there afterwards. */
  lemma LongUploadDiffers(l: Link, path: Path, data: seq<U8>)
    requires IdleLink(l, 3 + ChunkCount(data)) && |data| > MAX_UPLOAD
    ensures var (r, l') := WriteWhole(l, l.vehicle, path, data);
            && r == Success(()) && WirePath(path) in l'.net.server.files
            && l'.net.server.files[WirePath(path)] != data
  {
    hide WriteWhole, IdleLink, ChunkCount, Startable;
    UploadSucceeds(l, path, data);
    var _ := UploadCorrect(l, path, data);
  }

  // ---- Uploads that are refused ----

  /** A refused write ends the upload with the refusal, and the session is closed all the same. */
  lemma RefusedWriteCloses(l: Link, path: Path, offset: U32, rest: seq<U8>, code: U8, later: seq<Action>)
    requires Still(l) && PromptSession(l.net.server, path) && rest != []
    requires l.schedule
          == [ServeNext(Refuse(code)), DeliverReply] + ([ServeNext(PROMPT), DeliverReply] + later)
    ensures var (r, l') := WriteChunks(l, l.vehicle, PROMPT.session, offset, rest);
            && r == Failure(RefusalOf(code)) && l'.schedule == later
            && l'.net.server.sessions == map[] && l'.net.server.files == l.net.server.files
  {
    hide SendReceive, Call, Still;
    var p := WriteRequest(Draw(l).0, PROMPT.session, offset, rest[..Min(|rest|, FTP_DATA_MAX_LEN)]);
    NextRefused(l, p, code, [ServeNext(PROMPT), DeliverReply] + later);
    TerminatesPromptly(Call(Draw(l).1, l.vehicle, p).1, path, later);
  }

  /** A refused creation is the upload's error, and leaves the files as they were and no session open. */
  lemma RefusedCreateFails(l: Link, path: Path, data: seq<U8>, code: U8, later: seq<Action>)
    requires Still(l)
    requires l.schedule
          == [ServeNext(PROMPT), DeliverReply] + ([ServeNext(Refuse(code)), DeliverReply] + later)
    ensures var (r, l') := WriteWhole(l, l.vehicle, path, data);
            && r == Failure(RefusalOf(code)) && l'.schedule == later
            && l'.net.server.sessions == map[] && l'.net.server.files == l.net.server.files
  {
    hide SendReceive, Still, WriteChunks;
    var reset := NewRequest(RESET_SESSIONS, Draw(l).0);
    NextAnswered(l, reset, PROMPT, [ServeNext(Refuse(code)), DeliverReply] + later);
    hide Call;
    var l1 := ResetCall(l, l.vehicle).1;
    NextRefused(l1, PathRequest(CREATE_FILE, Draw(l1).0, path), code, later);
  }

  /** A prompt vehicle closes the only session. */
  lemma TerminatesPromptly(l: Link, path: Path, later: seq<Action>)
    requires Still(l) && l.net.server.sessions == map[PROMPT.session := path]
    requires l.schedule == [ServeNext(PROMPT), DeliverReply] + later
    ensures var (r, l') := TerminateCall(l, l.vehicle, PROMPT.session);
            && r.Success? && l'.schedule == later
            && l'.net.server.sessions == map[] && l'.net.server.files == l.net.server.files
  {
    hide SendReceive, Still;
    NextAnswered(l, NewRequest(TERMINATE_SESSION, Draw(l).0).(session := PROMPT.session), PROMPT, later);
  }
}
