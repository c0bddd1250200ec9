/**
 The client's transport (mavftp/transport.rs, client.rs `send_and_receive`) over a schedule:
 everything the network, the vehicle, the clock and other tasks do while a request waits.
 */
module Transport {
  import opened Wrappers
  import opened Bytes
  import opened FtpProtocol
  import opened FtpServer

  const FTP_MESSAGE_ID: U32 := 110
  const FTP_MAX_RETRIES: nat := 5

  datatype Target = Target(system: U8, component: U8)

  /** A broadcast message; `ftp` is its payload when it parses as FILE_TRANSFER_PROTOCOL. */
  datatype HubMessage = HubMessage(messageId: U32, source: Target, ftp: Option<seq<U8>>)

  datatype FtpFailure =
    | TimedOut | Undecodable | ChannelClosed | Refused(nak: FtpNakError) | ShortData | TooLarge

  /** Requests and replies in flight, in order, and the server between them. */
  datatype Net = Net(toServer: seq<FtpPayload>, toClient: seq<FtpPayload>, server: Server)

  datatype Action =
    | Arrive(msg: HubMessage)      // any message, from anyone, reaches the receiver
    | Lagged                       // the receiver missed messages
    | Closed                       // the hub channel is closed
    | TimeUp                       // the pending timeout fires
    | ServeNext(choice: Choice)    // the oldest request reaches the server
    | LoseRequest | RepeatRequest  // the oldest request is lost, or duplicated
    | DeliverReply                 // the oldest reply reaches the receiver
    | LoseReply | RepeatReply

  /**
   The transport as a value. `gaps` are the numbers of sequence numbers other tasks draw
   before each draw of this task; an exhausted schedule is silence.
   */
  datatype Link = Link(
    vehicle: Target,
    seqNumber: U16,
    gaps: seq<nat>,
    net: Net,
    schedule: seq<Action>)

  datatype RecvResult = Got(payload: FtpPayload) | Broken(failure: FtpFailure) | Expired

  // ---- Receiving ----

  datatype Filtered = Ignored | Bad | Taken(payload: FtpPayload)

  predicate Matches(p: FtpPayload, expected: Option<U16>) {
    expected.Some? ==>
      p.seqNumber == Add16(expected.value, 1) && (p.opcode == ACK || p.opcode == NAK)
  }

  function Filter(msg: HubMessage, target: Target, expected: Option<U16>): Filtered {
    if msg.messageId != FTP_MESSAGE_ID || msg.source != target then Ignored
    else if msg.ftp.None? || |msg.ftp.value| != FTP_MESSAGE_PAYLOAD then Ignored
    else
      match Decoded(msg.ftp.value)
      case None => Bad
      case Some(p) => if Matches(p, expected) then Taken(p) else Ignored
  }

  /** What a message brings from a vehicle: the payload of its FTP message, if it has one that decodes. */
  function PayloadFrom(msg: HubMessage, vehicle: Target): Option<FtpPayload> {
    if msg.messageId == 110 && msg.source == vehicle && msg.ftp.Some? && |msg.ftp.value| == 251
    then Decoded(msg.ftp.value)
    else None
  }

  /** What an action does to the network, and the message it brings to the receiver, if any. */
  function Happen(l: Link, a: Action): (Net, Option<HubMessage>) {
    var n := l.net;
    match a
    case Arrive(msg) => (n, Some(msg))
    case ServeNext(choice) =>
      if n.toServer == [] then (n, None)
      else
        var (server, reply) := Serve(n.server, n.toServer[0], choice);
        (Net(n.toServer[1..], n.toClient + [reply], server), None)
    case LoseRequest => (if n.toServer == [] then n else n.(toServer := n.toServer[1..]), None)
    case RepeatRequest =>
      (if n.toServer == [] then n else n.(toServer := [n.toServer[0]] + n.toServer), None)
    case DeliverReply =>
      if n.toClient == [] then (n, None)
      else
        (n.(toClient := n.toClient[1..]),
         Some(HubMessage(FTP_MESSAGE_ID, l.vehicle, Some(Encoded(n.toClient[0])))))
    case LoseReply => (if n.toClient == [] then n else n.(toClient := n.toClient[1..]), None)
    case RepeatReply =>
      (if n.toClient == [] then n else n.(toClient := [n.toClient[0]] + n.toClient), None)
    case _ => (n, None)
  }

  /** `recv_ftp` under a timeout: runs the schedule until something is returned. */
  function Recv(l: Link, target: Target, expected: Option<U16>): (r: (RecvResult, Link))
    ensures r.1 == l.(net := r.1.net, schedule := r.1.schedule)
    ensures |r.1.schedule| <= |l.schedule|
    ensures r.1.schedule == [] == l.schedule || |r.1.schedule| < |l.schedule|
    ensures l.schedule == [] ==> r.0.Expired?
    ensures r.0.Got? ==> Matches(r.0.payload, expected)
    ensures r.0.Got? ==> |r.0.payload.data| == Min(r.0.payload.size, FTP_DATA_MAX_LEN)
    decreases |l.schedule|
  {
    if l.schedule == [] then (Expired, l)
    else
      var a, l' := l.schedule[0], l.(schedule := l.schedule[1..]);
      if a.TimeUp? then (Expired, l')
      else if a.Closed? then (Broken(ChannelClosed), l')
      else
        var (net, msg) := Happen(l, a);
        var l'' := l'.(net := net);
        if msg.None? then Recv(l'', target, expected)
        else
          match Filter(msg.value, target, expected)
          case Ignored => Recv(l'', target, expected)
          case Bad => (Broken(Undecodable), l'')
          case Taken(p) => (Got(p), l'')
  }

  // ---- Sending ----

  function Submit(l: Link, target: Target, p: FtpPayload): Link {
    if target == l.vehicle then l.(net := l.net.(toServer := l.net.toServer + [Normalized(p)])) else l
  }

  /** The next sequence number, after the draws of other tasks. */
  function Draw(l: Link): (U16, Link) {
    var gap := if l.gaps == [] then 0 else l.gaps[0];
    var s := Add16(l.seqNumber, gap);
    (s, l.(seqNumber := Add16(s, 1), gaps := if l.gaps == [] then [] else l.gaps[1..]))
  }

  /** `send_and_receive` with `attempts` attempts left: send, wait, and repeat on any failure. */
  function Exchange(l: Link, target: Target, p: FtpPayload, attempts: nat, last: FtpFailure)
    : (r: (Result<FtpPayload, FtpFailure>, Link))
    ensures r.1 == l.(net := r.1.net, schedule := r.1.schedule)
    ensures |r.1.schedule| <= |l.schedule|
    ensures r.0.Success? ==> Matches(r.0.value, Some(p.seqNumber)) && |r.1.schedule| < |l.schedule|
    ensures r.0.Success? ==> |r.0.value.data| == Min(r.0.value.size, FTP_DATA_MAX_LEN)
    decreases attempts, |l.schedule|
  {
    if attempts == 0 then (Failure(last), l)
    else
      var (r, l') := Recv(Submit(l, target, p), target, Some(p.seqNumber));
      match r
      case Got(q) => (Success(q), l')
      case Broken(failure) => Exchange(l', target, p, attempts - 1, failure)
      case Expired => Exchange(l', target, p, attempts - 1, TimedOut)
  }

  function SendReceive(l: Link, target: Target, p: FtpPayload): (r: (Result<FtpPayload, FtpFailure>, Link))
    ensures r.1 == l.(net := r.1.net, schedule := r.1.schedule)
    ensures |r.1.schedule| <= |l.schedule|
    ensures r.0.Success? ==> Matches(r.0.value, Some(p.seqNumber)) && |r.1.schedule| < |l.schedule|
    ensures r.0.Success? ==> |r.0.value.data| == Min(r.0.value.size, FTP_DATA_MAX_LEN)
  {
    Exchange(l, target, p, FTP_MAX_RETRIES, TimedOut)
  }

  function Timeouts(n: nat): seq<Action> {
    seq(n, i => TimeUp)
  }

  lemma {:induction false} ExchangeOutlasts(
      l: Link, target: Target, p: FtpPayload, attempts: nat, last: FtpFailure, timeouts: nat, msg: HubMessage)
    requires Timeouts(timeouts) + [Arrive(msg)] <= l.schedule
    requires Filter(msg, target, Some(p.seqNumber)).Taken?
    ensures Exchange(l, target, p, attempts, last).0
         == if timeouts < attempts then Success(Filter(msg, target, Some(p.seqNumber)).payload)
            else Failure(if attempts == 0 then last else TimedOut)
    decreases attempts
  {
    hide Filter;
    if attempts > 0 {
      var l1 := Submit(l, target, p);
      if timeouts > 0 {
        assert l1.schedule[0] == TimeUp;
        var rest := l1.(schedule := l1.schedule[1..]);
        assert Timeouts(timeouts - 1) + [Arrive(msg)] <= rest.schedule;
        ExchangeOutlasts(rest, target, p, attempts - 1, TimedOut, timeouts - 1, msg);
      } else {
        assert l1.schedule[0] == Arrive(msg);
      }
    }
  }

  /** The answer is waited for through four timeouts, and not through a fifth, whatever comes later. */
  lemma RetriesExactly(l: Link, target: Target, p: FtpPayload, timeouts: nat, msg: HubMessage)
    requires Timeouts(timeouts) + [Arrive(msg)] <= l.schedule
    requires Filter(msg, target, Some(p.seqNumber)).Taken?
    ensures SendReceive(l, target, p).0.Success? <==> timeouts < 5
    ensures timeouts < 5 ==> SendReceive(l, target, p).0.value == Filter(msg, target, Some(p.seqNumber)).payload
    ensures timeouts >= 5 ==> SendReceive(l, target, p).0.error == TimedOut
  {
    hide Filter;
    ExchangeOutlasts(l, target, p, FTP_MAX_RETRIES, TimedOut, timeouts, msg);
  }

  /** A request with a fresh number, sent and answered with anything but a NAK. */
  function Call(l: Link, target: Target, p: FtpPayload): (r: (Result<FtpPayload, FtpFailure>, Link))
    ensures r.1 == l.(net := r.1.net, schedule := r.1.schedule)
    ensures |r.1.schedule| <= |l.schedule|
  {
    var (r, l') := SendReceive(l, target, p);
    if r.Success? && CheckNak(r.value).Some? then (Failure(Refused(CheckNak(r.value).value)), l')
    else (r, l')
  }

  function ResetCall(l: Link, target: Target): (r: (Result<FtpPayload, FtpFailure>, Link)) {
    var (s, l') := Draw(l);
    Call(l', target, NewRequest(RESET_SESSIONS, s))
  }

  function TerminateCall(l: Link, target: Target, session: U8): (r: (Result<FtpPayload, FtpFailure>, Link)) {
    var (s, l') := Draw(l);
    Call(l', target, NewRequest(TERMINATE_SESSION, s).(session := session))
  }

  /** A path argument: the size byte keeps only the length modulo 256. */
  function PathRequest(opcode: FtpOpcode, s: U16, path: Path): FtpPayload {
    NewRequest(opcode, s).(data := path, size := |path| % 0x100)
  }

  /** The path the server reads back from a path argument. */
  function WirePath(path: Path): Path {
    NormalData(PathRequest(NO_OPCODE, 0, path))
  }

  /** A path survives the wire exactly when it is at most 239 bytes long. */
  lemma WirePathExact(path: Path)
    ensures WirePath(path) == path <==> |path| <= FTP_DATA_MAX_LEN
  {
    if |path| <= FTP_DATA_MAX_LEN {
      assert |path| % 0x100 == |path|;
      assert forall i :: 0 <= i < |path| ==> WirePath(path)[i] == path[i];
    } else {
      assert |WirePath(path)| <= FTP_DATA_MAX_LEN;
    }
  }

  class Hub {
    const vehicle: Target
    var seqNumber: U16
    var gaps: seq<nat>
    var net: Net
    var schedule: seq<Action>

    constructor (l: Link)
      ensures View() == l
    {
      vehicle, seqNumber, gaps, net, schedule := l.vehicle, l.seqNumber, l.gaps, l.net, l.schedule;
    }

    function View(): Link
      reads this
    {
      Link(vehicle, seqNumber, gaps, net, schedule)
    }

    method NextSeq() returns (s: U16)
      modifies this
      ensures (s, View()) == Draw(old(View()))
    {
      if gaps != [] {
        seqNumber := Add16(seqNumber, gaps[0]);
        gaps := gaps[1..];
      }
      s := seqNumber;
      seqNumber := Add16(seqNumber, 1);
    }

    method SendFtpMessage(target: Target, p: FtpPayload)
      modifies this`net
      ensures View() == Submit(old(View()), target, p)
    {
      var bytes := Encode(p);
      if target == vehicle {
        var arrived := Decode(bytes);
        DecodeEncode(p);
        net := net.(toServer := net.toServer + [arrived.value]);
      }
    }

    method RecvFtp(target: Target, expected: Option<U16>) returns (r: RecvResult)
      modifies this`net, this`schedule
      ensures (r, View()) == Recv(old(View()), target, expected)
    {
      while schedule != []
        invariant Recv(View(), target, expected) == Recv(old(View()), target, expected)
        decreases |schedule|
      {
        var a := schedule[0];
        var (net', msg) := Happen(View(), a);
        schedule := schedule[1..];
        if a.TimeUp? {
          return Expired;
        }
        if a.Closed? {
          return Broken(ChannelClosed);
        }
        net := net';
        if msg.None? {
          continue;
        }
        match Filter(msg.value, target, expected)
        case Ignored =>
        case Bad => return Broken(Undecodable);
        case Taken(p) => return Got(p);
      }
      r := Expired;
    }

    method SendAndReceive(target: Target, p: FtpPayload) returns (r: Result<FtpPayload, FtpFailure>)
      modifies this`net, this`schedule
      ensures (r, View()) == SendReceive(old(View()), target, p)
    {
      var lastError := TimedOut;
      for attempt := 0 to FTP_MAX_RETRIES
        invariant Exchange(View(), target, p, FTP_MAX_RETRIES - attempt, lastError)
               == SendReceive(old(View()), target, p)
      {
        SendFtpMessage(target, p);
        var result := RecvFtp(target, Some(p.seqNumber));
        match result
        case Got(q) => return Success(q);
        case Broken(failure) => lastError := failure;
        case Expired => lastError := TimedOut;
      }
      r := Failure(lastError);
    }

    method CallOnce(target: Target, p: FtpPayload) returns (r: Result<FtpPayload, FtpFailure>)
      modifies this`net, this`schedule
      ensures (r, View()) == Call(old(View()), target, p)
    {
      r := SendAndReceive(target, p);
      if r.Success? {
        var nak := CheckNak(r.value);
        if nak.Some? {
          r := Failure(Refused(nak.value));
        }
      }
    }

    method Reset(target: Target) returns (r: Result<FtpPayload, FtpFailure>)
      modifies this
      ensures (r, View()) == ResetCall(old(View()), target)
    {
      var s := NextSeq();
      r := CallOnce(target, NewRequest(RESET_SESSIONS, s));
    }

    method Terminate(target: Target, session: U8) returns (r: Result<FtpPayload, FtpFailure>)
      modifies this
      ensures (r, View()) == TerminateCall(old(View()), target, session)
    {
      var s := NextSeq();
      r := CallOnce(target, NewRequest(TERMINATE_SESSION, s).(session := session));
    }
  }
}
