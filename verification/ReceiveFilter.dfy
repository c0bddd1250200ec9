/**
 What the receiver takes and what it lets pass (mavftp/transport.rs `recv_ftp`), told from the fields
 of messages and the bytes of payloads; and how long a request waits for its reply.
 */
module ReceiveFilter {
  import opened Wrappers
  import opened Bytes
  import opened FtpProtocol
  import opened FtpServer
  import opened Transport

  // ---- One message ----

  /** From the vehicle asked, with FTP's message id, and of the right length. */
  predicate IsFtpFrom(msg: HubMessage, vehicle: Target) {
    msg.messageId == 110 && msg.source == vehicle && msg.ftp.Some? && |msg.ftp.value| == 251
  }

  /** Bytes 3 and 5 are opcodes: 0 to 15, 128 or 129. */
  predicate OpcodesKnown(b: seq<U8>)
    requires |b| == 251
  {
    (b[3] <= 15 || b[3] == 128 || b[3] == 129) && (b[5] <= 15 || b[5] == 128 || b[5] == 129)
  }

  /** The payload is an ACK or a NAK whose number, in bytes 0 and 1, is one above the request's. */
  predicate Replies(b: seq<U8>, number: U16)
    requires |b| == 251
  {
    var low: int, high: int := b[0], b[1];
    low + 0x100 * high == (number + 1) % 0x1_0000 && (b[3] == 128 || b[3] == 129)
  }

  /** Exactly which messages are taken, which are errors, and which are let pass. */
  lemma FilterExactly(msg: HubMessage, target: Target, expected: Option<U16>)
    ensures var f := Filter(msg, target, expected);
            && (f.Taken? <==>
                  && IsFtpFrom(msg, target) && OpcodesKnown(msg.ftp.value)
                  && (expected.Some? ==> Replies(msg.ftp.value, expected.value)))
            && (f.Bad? <==> IsFtpFrom(msg, target) && !OpcodesKnown(msg.ftp.value))
            && (f.Taken? ==> Decoded(msg.ftp.value) == Some(f.payload))
  {
  }

  // ---- One event ----

  /** The link behind the next event. */
  function Behind(l: Link): Link
    requires l.schedule != []
  {
    l.(net := Happen(l, l.schedule[0]).0, schedule := l.schedule[1..])
  }

  /** The message the next event brings to the receiver: an arrival, or the oldest reply of the vehicle. */
  function Heard(l: Link): Option<HubMessage>
    requires l.schedule != []
  {
    var a := l.schedule[0];
    if a.Arrive? then Some(a.msg)
    else if a.DeliverReply? && l.net.toClient != []
    then Some(HubMessage(110, l.vehicle, Some(Encoded(l.net.toClient[0]))))
    else None
  }

  /**
   What the receive loop makes of the next event: a timeout ends the wait, a closed channel and an FTP
   message of the vehicle with an unknown opcode are errors, a matching one is returned, and
   everything else, a lag and messages of others included, is waited through.
   */
  lemma RecvExactly(l: Link, target: Target, expected: Option<U16>)
    requires l.schedule != []
    ensures var a, r, rest := l.schedule[0], Recv(l, target, expected), Behind(l);
            if a.TimeUp? then r == (Expired, rest)
            else if a.Closed? then r == (Broken(ChannelClosed), rest)
            else if Heard(l).Some? && IsFtpFrom(Heard(l).value, target) then
              var b := Heard(l).value.ftp.value;
              if !OpcodesKnown(b) then r == (Broken(Undecodable), rest)
              else if expected.Some? && !Replies(b, expected.value) then r == Recv(rest, target, expected)
              else Decoded(b).Some? && r == (Got(Decoded(b).value), rest)
            else r == Recv(rest, target, expected)
  {
    hide FtpServer.Serve, Encoded;
    if Heard(l).Some? {
      FilterExactly(Heard(l).value, target, expected);
    }
  }

  // ---- Messages of others ----

  /** The message is not from the vehicle, or not of the FTP kind. */
  predicate Foreign(a: Action, target: Target) {
    a.Arrive? && (a.msg.source != target || a.msg.messageId != 110)
  }

  /** The schedule with every such message replaced by a lag. */
  function Muted(schedule: seq<Action>, target: Target): (muted: seq<Action>)
    ensures |muted| == |schedule|
  {
    seq(|schedule|, i requires 0 <= i < |schedule| =>
      if Foreign(schedule[i], target) then Lagged else schedule[i])
  }

  function Quiet(l: Link, target: Target): Link {
    l.(schedule := Muted(l.schedule, target))
  }

  lemma MutedRest(schedule: seq<Action>, target: Target)
    requires schedule != []
    ensures Muted(schedule, target)[1..] == Muted(schedule[1..], target)
  {
  }

  lemma NothingToHear(l: Link, target: Target, expected: Option<U16>)
    requires l.schedule == []
    ensures Quiet(l, target) == l && Recv(l, target, expected) == (Expired, l)
  {
    assert Muted([], target) == [];
  }

  /** The receive loop does not notice: it returns the same, and leaves the same behind. */
  lemma {:induction false} RecvIgnoresForeign(l: Link, target: Target, expected: Option<U16>)
    ensures var (r, l') := Recv(l, target, expected);
            Recv(Quiet(l, target), target, expected) == (r, Quiet(l', target))
    decreases |l.schedule|
  {
    hide FtpServer.Serve, Encoded, Decoded, Replies, IsFtpFrom, OpcodesKnown, Quiet, Heard, Happen, Recv;
    if l.schedule == [] {
      NothingToHear(l, target, expected);
    } else {
      QuietEvent(l, target);
      RecvExactly(l, target, expected);
      RecvExactly(Quiet(l, target), target, expected);
      RecvIgnoresForeign(Behind(l), target, expected);
    }
  }

  /** The event at hand moves the network alike, and brings the vehicle's own messages alike. */
  lemma QuietEvent(l: Link, target: Target)
    requires l.schedule != []
    ensures var q := Quiet(l, target);
            && q.schedule != [] && Behind(q) == Quiet(Behind(l), target)
            && (q.schedule[0].TimeUp? <==> l.schedule[0].TimeUp?)
            && (q.schedule[0].Closed? <==> l.schedule[0].Closed?)
            && (if Heard(l).Some? && IsFtpFrom(Heard(l).value, target) then Heard(q) == Heard(l)
                else Heard(q).Some? ==> !IsFtpFrom(Heard(q).value, target))
  {
    hide FtpServer.Serve, Encoded;
    MutedRest(l.schedule, target);
  }

  lemma {:induction false} ExchangeIgnoresForeign(
      l: Link, target: Target, p: FtpPayload, attempts: nat, last: FtpFailure)
    ensures var (r, l') := Exchange(l, target, p, attempts, last);
            Exchange(Quiet(l, target), target, p, attempts, last) == (r, Quiet(l', target))
    decreases attempts
  {
    hide Recv, Muted;
    if attempts > 0 {
      var l1 := Submit(l, target, p);
      RecvIgnoresForeign(l1, target, Some(p.seqNumber));
      var (r, l') := Recv(l1, target, Some(p.seqNumber));
      if !r.Got? {
        ExchangeIgnoresForeign(l', target, p, attempts - 1, if r.Broken? then r.failure else TimedOut);
      }
    }
  }

  lemma SendReceiveIgnoresForeign(l: Link, target: Target, p: FtpPayload)
    ensures var (r, l') := SendReceive(l, target, p);
            SendReceive(Quiet(l, target), target, p) == (r, Quiet(l', target))
  {
    hide Exchange, Muted;
    ExchangeIgnoresForeign(l, target, p, FTP_MAX_RETRIES, TimedOut);
  }

  lemma CallIgnoresForeign(l: Link, target: Target, p: FtpPayload)
    ensures var (r, l') := Call(l, target, p);
            Call(Quiet(l, target), target, p) == (r, Quiet(l', target))
  {
    hide SendReceive, Muted;
    SendReceiveIgnoresForeign(l, target, p);
  }

  lemma ResetIgnoresForeign(l: Link, target: Target)
    ensures var (r, l') := ResetCall(l, target); ResetCall(Quiet(l, target), target) == (r, Quiet(l', target))
  {
    hide Call, Muted;
    var (s, l1) := Draw(l);
    CallIgnoresForeign(l1, target, NewRequest(RESET_SESSIONS, s));
  }

  lemma TerminateIgnoresForeign(l: Link, target: Target, session: U8)
    ensures var (r, l') := TerminateCall(l, target, session);
            TerminateCall(Quiet(l, target), target, session) == (r, Quiet(l', target))
  {
    hide Call, Muted;
    var (s, l1) := Draw(l);
    CallIgnoresForeign(l1, target, NewRequest(TERMINATE_SESSION, s).(session := session));
  }

  // ---- How often a request is sent ----

  /** The failure an event is for a waiting request: a timeout, a closed channel, or a malformed payload. */
  function FailureOf(a: Action, target: Target): Option<FtpFailure> {
    if a.TimeUp? then Some(TimedOut)
    else if a.Closed? then Some(ChannelClosed)
    else if a.Arrive? && IsFtpFrom(a.msg, target) && !OpcodesKnown(a.msg.ftp.value) then Some(Undecodable)
    else None
  }

  predicate AllFail(events: seq<Action>, target: Target) {
    forall i :: 0 <= i < |events| ==> FailureOf(events[i], target).Some?
  }

  function Copies(p: FtpPayload, n: nat): seq<FtpPayload> {
    seq(n, i => Normalized(p))
  }

  /** The events fail one attempt each, and then the reply arrives. */
  predicate FailsThenReplies(
      l: Link, target: Target, p: FtpPayload, fails: seq<Action>, msg: HubMessage, rest: seq<Action>)
  {
    && l.schedule == fails + [Arrive(msg)] + rest && AllFail(fails, target)
    && IsFtpFrom(msg, target) && OpcodesKnown(msg.ftp.value) && Replies(msg.ftp.value, p.seqNumber)
  }

  lemma FailedAttempt(l: Link, target: Target, expected: U16)
    requires l.schedule != [] && FailureOf(l.schedule[0], target).Some?
    ensures var (r, l') := Recv(l, target, Some(expected));
            && l' == l.(schedule := l.schedule[1..])
            && r == if l.schedule[0].TimeUp? then Expired else Broken(FailureOf(l.schedule[0], target).value)
  {
    RecvExactly(l, target, Some(expected));
  }

  lemma {:induction false} AttemptsExactly(
      l: Link, target: Target, p: FtpPayload, attempts: nat, last: FtpFailure,
      fails: seq<Action>, msg: HubMessage, rest: seq<Action>)
    requires target == l.vehicle && attempts > 0 && FailsThenReplies(l, target, p, fails, msg, rest)
    ensures var (r, l') := Exchange(l, target, p, attempts, last);
            && Decoded(msg.ftp.value).Some?
            && (if |fails| < attempts
                then
                  && r == Success(Decoded(msg.ftp.value).value) && l'.schedule == rest
                  && l'.net == l.net.(toServer := l.net.toServer + Copies(p, |fails| + 1))
                else
                  && r == Failure(FailureOf(fails[attempts - 1], target).value)
                  && l'.schedule == l.schedule[attempts..]
                  && l'.net == l.net.(toServer := l.net.toServer + Copies(p, attempts)))
    decreases attempts
  {
    hide Recv, OpcodesKnown, Replies, IsFtpFrom, FailureOf, Normalized;
    var l1 := Submit(l, target, p);
    DecodedIfKnown(msg, target);
    if fails == [] {
      assert fails + [Arrive(msg)] + rest == [Arrive(msg)] + rest;
      assert l1.schedule[1..] == rest;
      ReplyTaken(l1, target, p.seqNumber, msg);
      assert Copies(p, 1) == [Normalized(p)];
    } else {
      FailedAttempt(l1, target, p.seqNumber);
      var l2 := l1.(schedule := l1.schedule[1..]);
      assert l2.schedule == fails[1..] + [Arrive(msg)] + rest;
      var failure := FailureOf(fails[0], target).value;
      TimeUpTimesOut(fails[0], target);
      if attempts == 1 {
        assert Copies(p, 1) == [Normalized(p)];
      } else {
        AttemptsExactly(l2, target, p, attempts - 1, failure, fails[1..], msg, rest);
        OneMoreCopy(l.net.toServer, p, if |fails| < attempts then |fails| + 1 else attempts);
        assert |fails| >= attempts ==> l2.schedule[attempts - 1..] == l.schedule[attempts..];
      }
    }
  }

  lemma OneMoreCopy(queue: seq<FtpPayload>, p: FtpPayload, n: nat)
    requires n > 0
    ensures (queue + [Normalized(p)]) + Copies(p, n - 1) == queue + Copies(p, n)
  {
  }

  lemma TimeUpTimesOut(a: Action, target: Target)
    requires FailureOf(a, target).Some?
    ensures a.TimeUp? ==> FailureOf(a, target) == Some(TimedOut)
  {
  }

  lemma DecodedIfKnown(msg: HubMessage, target: Target)
    requires IsFtpFrom(msg, target) && OpcodesKnown(msg.ftp.value)
    ensures Decoded(msg.ftp.value).Some?
  {
  }

  lemma ReplyTaken(l: Link, target: Target, number: U16, msg: HubMessage)
    requires l.schedule != [] && l.schedule[0] == Arrive(msg)
    requires IsFtpFrom(msg, target) && OpcodesKnown(msg.ftp.value) && Replies(msg.ftp.value, number)
    ensures Decoded(msg.ftp.value).Some?
    ensures Recv(l, target, Some(number)) == (Got(Decoded(msg.ftp.value).value), l.(schedule := l.schedule[1..]))
  {
    RecvExactly(l, target, Some(number));
  }

  /**
   A request is sent again, with the same number, after every failure whatever its kind; its reply is
   returned if and only if fewer than five attempts failed before it, and otherwise the fifth
   failure is. What was sent is one copy for each attempt.
   */
  lemma ResendsExactly(
      l: Link, p: FtpPayload, fails: seq<Action>, msg: HubMessage, rest: seq<Action>)
    requires FailsThenReplies(l, l.vehicle, p, fails, msg, rest)
    ensures var (r, l') := SendReceive(l, l.vehicle, p);
            && (r.Success? <==> |fails| < 5)
            && (r.Success? ==> Decoded(msg.ftp.value) == Some(r.value) && l'.schedule == rest)
            && (r.Failure? ==> FailureOf(fails[4], l.vehicle) == Some(r.error) && l'.schedule == l.schedule[5..])
            && l'.net == l.net.(toServer := l.net.toServer + Copies(p, Min(|fails| + 1, 5)))
  {
    hide Exchange, FailsThenReplies, FailureOf;
    AttemptsExactly(l, l.vehicle, p, 5, TimedOut, fails, msg, rest);
    FailsKnown(l, p, fails, msg, rest);
  }

  lemma FailsKnown(l: Link, p: FtpPayload, fails: seq<Action>, msg: HubMessage, rest: seq<Action>)
    requires FailsThenReplies(l, l.vehicle, p, fails, msg, rest)
    ensures AllFail(fails, l.vehicle) && IsFtpFrom(msg, l.vehicle)
  {
  }
}
