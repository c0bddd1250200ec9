/**
 An upload behind an unfinished download: late packets of a burst are numbered on from its request
 and pass for the replies to the reset and to the create, so the data goes into the wrong file.
 */
module Misdirected {
  import opened Wrappers
  import opened Bytes
  import opened FtpProtocol
  import opened FtpServer
  import opened Transport
  import opened InOrderLink
  import opened Upload
  import HonestVehicle

  const VEHICLE := HonestVehicle.VEHICLE
  const OLD: Path := [79]
  const NEW: Path := [78]

  /** A packet of the burst that read the old file, on session 0; the burst's request had number 4. */
  function BurstPacket(number: U16): FtpPayload {
    HonestVehicle.Ack(number, BURST_READ_FILE, 0, [7])
  }

  /** An event that brings the receiver nothing only moves the network on. */
  lemma RecvQuiet(l: Link, a: Action, rest: seq<Action>, expected: U16)
    requires l.schedule == [a] + rest && !a.TimeUp? && !a.Closed? && Happen(l, a).1.None?
    ensures Recv(l, VEHICLE, Some(expected))
         == Recv(l.(net := Happen(l, a).0, schedule := rest), VEHICLE, Some(expected))
  {
    hide Happen;
    assert l.schedule[1..] == rest;
  }

  lemma RecvPacket(l: Link, p: FtpPayload, rest: seq<Action>, expected: U16)
    requires l.schedule == [HonestVehicle.FromVehicle(p)] + rest && WellFormed(p) && Matches(p, Some(expected))
    ensures Recv(l, VEHICLE, Some(expected)) == (Got(p), l.(schedule := rest))
  {
    hide HonestVehicle.FromVehicle;
    assert l.schedule[1..] == rest;
    HonestVehicle.RecvArrival(l, p, Some(expected));
  }

  /** The request is lost, and a burst packet with the reply's number comes in. */
  lemma LostButAnswered(l: Link, request: FtpPayload, p: FtpPayload, rest: seq<Action>)
    requires l.vehicle == VEHICLE && l.net.toServer == []
    requires l.schedule == [LoseRequest] + ([HonestVehicle.FromVehicle(p)] + rest)
    requires WellFormed(p) && Matches(p, Some(request.seqNumber))
    ensures SendReceive(l, VEHICLE, request) == (Success(p), l.(schedule := rest))
  {
    hide Recv, HonestVehicle.FromVehicle;
    var l1 := Submit(l, VEHICLE, request);
    assert l1.net.toServer == [Normalized(request)] && [Normalized(request)][1..] == [];
    RecvQuiet(l1, LoseRequest, [HonestVehicle.FromVehicle(p)] + rest, request.seqNumber);
    RecvPacket(l.(schedule := [HonestVehicle.FromVehicle(p)] + rest), p, rest, request.seqNumber);
  }

  /** The request is served, but a burst packet with the reply's number comes in before the reply, which is lost. */
  lemma ServedButAnswered(l: Link, request: FtpPayload, choice: Choice, p: FtpPayload, rest: seq<Action>)
    requires l.vehicle == VEHICLE && l.net.toServer == [] && l.net.toClient == []
    requires l.schedule == [ServeNext(choice)] + ([LoseReply] + ([HonestVehicle.FromVehicle(p)] + rest))
    requires WellFormed(p) && Matches(p, Some(request.seqNumber))
    ensures var (after, _) := Serve(l.net.server, Normalized(request), choice);
            SendReceive(l, VEHICLE, request) == (Success(p), l.(net := Net([], [], after), schedule := rest))
  {
    hide Recv, Serve, HonestVehicle.FromVehicle;
    var (after, reply) := Serve(l.net.server, Normalized(request), choice);
    var l1 := Submit(l, VEHICLE, request);
    assert l1.net.toServer == [Normalized(request)];
    PromptServe(l1, Normalized(request), choice, [LoseReply] + ([HonestVehicle.FromVehicle(p)] + rest),
                Some(request.seqNumber));
    var l2 := l1.(net := Net([], [reply], after), schedule := [LoseReply] + ([HonestVehicle.FromVehicle(p)] + rest));
    assert [reply][1..] == [];
    RecvQuiet(l2, LoseReply, [HonestVehicle.FromVehicle(p)] + rest, request.seqNumber);
    var l3 := l2.(net := Net([], [], after), schedule := [HonestVehicle.FromVehicle(p)] + rest);
    RecvPacket(l3, p, rest, request.seqNumber);
  }

  /** The download left session 0 open on the old file; four numbers have been drawn, then a fifth. */
  const SERVER := Server(map[OLD := [7]], map[], map[0 := OLD], None)

  const SCHEDULE: seq<Action> :=
    [LoseRequest] + ([HonestVehicle.FromVehicle(BurstPacket(6))]
    + ([ServeNext(Proceed(1, 0))] + ([LoseReply] + ([HonestVehicle.FromVehicle(BurstPacket(7))]
    + PromptSchedule(2)))))

  const LINK := Link(VEHICLE, 5, [], Net([], [], SERVER), SCHEDULE)

  /** What the vehicle holds once the create has been executed: two open sessions. */
  function AfterCreate(): Server {
    Serve(SERVER, Normalized(PathRequest(CREATE_FILE, 6, NEW)), Proceed(1, 0)).0
  }

  lemma TwoSessionsOpen()
    ensures AfterCreate().sessions == map[0 := OLD, 1 := NEW]
    ensures AfterCreate().files == map[OLD := [7], NEW := []]
    ensures Sane(AfterCreate()) && AfterCreate().last.Some? && AfterCreate().last.value.0 == 6
  {
    assert NormalData(PathRequest(CREATE_FILE, 6, NEW)) == NEW;
  }

  /** The reset fails to arrive and is answered all the same. */
  lemma ResetIsFooled()
    ensures ResetCall(LINK, VEHICLE) ==
      (Success(BurstPacket(6)),
       LINK.(seqNumber := 6,
             schedule := [ServeNext(Proceed(1, 0))] + ([LoseReply] + ([HonestVehicle.FromVehicle(BurstPacket(7))]
                         + PromptSchedule(2)))))
  {
    hide SendReceive, HonestVehicle.FromVehicle, PromptSchedule;
    LostButAnswered(LINK.(seqNumber := 6), NewRequest(RESET_SESSIONS, 5), BurstPacket(6),
      [ServeNext(Proceed(1, 0))] + ([LoseReply] + ([HonestVehicle.FromVehicle(BurstPacket(7))] + PromptSchedule(2))));
  }

  /** The create opens session 1 and is answered as if it were session 0. */
  lemma CreateIsFooled(l: Link)
    requires l == ResetCall(LINK, VEHICLE).1
    ensures Call(Draw(l).1, VEHICLE, PathRequest(CREATE_FILE, 6, NEW)) ==
      (Success(BurstPacket(7)), Link(VEHICLE, 7, [], Net([], [], AfterCreate()), PromptSchedule(2)))
  {
    hide SendReceive, HonestVehicle.FromVehicle, PromptSchedule, AfterCreate, ResetCall;
    ResetIsFooled();
    CreateServed(Draw(l).1);
  }

  lemma CreateServed(l: Link)
    requires l.vehicle == VEHICLE && l.net == Net([], [], SERVER)
    requires l.schedule == [ServeNext(Proceed(1, 0))]
                         + ([LoseReply] + ([HonestVehicle.FromVehicle(BurstPacket(7))] + PromptSchedule(2)))
    ensures SendReceive(l, VEHICLE, PathRequest(CREATE_FILE, 6, NEW))
         == (Success(BurstPacket(7)), l.(net := Net([], [], AfterCreate()), schedule := PromptSchedule(2)))
  {
    hide Serve, HonestVehicle.FromVehicle, PromptSchedule;
    ServedButAnswered(l, PathRequest(CREATE_FILE, 6, NEW), Proceed(1, 0), BurstPacket(7), PromptSchedule(2));
  }

  lemma WritesOld(srv: Server, p: FtpPayload)
    requires srv.sessions == map[0 := OLD, 1 := NEW] && srv.files == map[OLD := [7], NEW := []]
    requires p.opcode == WRITE_FILE && p.session == 0 && p.offset == 0 && p.data == [9]
    ensures var (after, reply) := Execute(srv, p, PROMPT);
            && CheckNak(reply) == None && after.sessions == srv.sessions
            && after.files == map[OLD := [9], NEW := []]
  {
    assert Overwrite([7], 0, [9]) == [9];
  }

  lemma ClosesOld(srv: Server, p: FtpPayload)
    requires srv.sessions == map[0 := OLD, 1 := NEW]
    requires p.opcode == TERMINATE_SESSION && p.session == 0
    ensures var (after, reply) := Execute(srv, p, PROMPT);
            CheckNak(reply) == None && after.sessions == map[1 := NEW] && after.files == srv.files
  {
    assert srv.sessions - {0} == map[1 := NEW];
  }

  /** The write and the termination go to session 0. */
  lemma WriteGoesAstray(l: Link, data: seq<U8>)
    requires l == Link(VEHICLE, 7, [], Net([], [], AfterCreate()), PromptSchedule(2)) && data == [9]
    ensures var (r, l') := WriteChunks(l, VEHICLE, 0, 0, data);
            && r == Success(())
            && l'.net.server.files == map[OLD := [9], NEW := []] && l'.net.server.sessions == map[1 := NEW]
  {
    hide SendReceive, PromptSchedule, AfterCreate, Execute, CheckNak;
    TwoSessionsOpen();
    var write := WriteRequest(7, 0, 0, data);
    assert data[..1] == data && data[1..] == [];
    AstrayIdle(l);
    PromptSend(l, write, 2);
    DecodeEncode(write);
    WritesOld(l.net.server, Normalized(write));
    var l2 := SendReceive(Draw(l).1, VEHICLE, write).1;
    Terminated(l2, Add32(0, 1), data[1..]);
  }

  lemma AstrayIdle(l: Link)
    requires l == Link(VEHICLE, 7, [], Net([], [], AfterCreate()), PromptSchedule(2))
    ensures IdleLink(l, 2)
  {
    hide AfterCreate, PromptSchedule;
    TwoSessionsOpen();
  }

  lemma Terminated(l: Link, offset: U32, rest: seq<U8>)
    requires IdleLink(l, 1) && l.vehicle == VEHICLE && Draw(l).0 == 8 && rest == []
    requires l.net.server.sessions == map[0 := OLD, 1 := NEW]
    ensures var (r, l') := WriteChunks(l, VEHICLE, 0, offset, rest);
            && r == Success(())
            && l'.net.server.files == l.net.server.files && l'.net.server.sessions == map[1 := NEW]
  {
    hide SendReceive, Execute, IdleLink, CheckNak;
    var p := NewRequest(TERMINATE_SESSION, 8).(session := 0);
    PromptSend(l, p, 1);
    ClosesOld(l.net.server, Normalized(p));
  }

  /**
   The upload of `9` to the new file reports success. The new file is empty, the old one is
   overwritten, and two sessions were open on the way, one of which still is.
   */
  lemma UploadGoesAstray()
    ensures var (r, l') := WriteWhole(LINK, VEHICLE, NEW, [9]);
            && r == Success(())
            && l'.net.server.files == map[OLD := [9], NEW := []] && l'.net.server.sessions == map[1 := NEW]
  {
    hide Call, WriteChunks, PromptSchedule, AfterCreate;
    ResetIsFooled();
    var l1 := ResetCall(LINK, VEHICLE).1;
    CreateIsFooled(l1);
    WriteGoesAstray(Link(VEHICLE, 7, [], Net([], [], AfterCreate()), PromptSchedule(2)), [9]);
  }
}
