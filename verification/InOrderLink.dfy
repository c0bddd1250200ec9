/**
 At-least-once sending becomes exactly-once execution: over an in-order link that may lose and
 repeat packets, a request that gets an answer was executed once, and the answer is its own.
 */
module InOrderLink {
  import opened Wrappers
  import opened Bytes
  import opened FtpProtocol
  import opened FtpServer
  import opened Transport

  /** FTP payloads of the vehicle reach the receiver only through its own reply queue. */
  predicate Undisturbed(schedule: seq<Action>, vehicle: Target) {
    forall i :: 0 <= i < |schedule| ==>
      schedule[i].Arrive? ==> PayloadFrom(schedule[i].msg, vehicle).None?
  }

  /** Nothing in flight can be confused with a request numbered `s`. */
  predicate Fresh(net: Net, s: U16) {
    && Sane(net.server) && !JustServed(net.server, s)
    && (forall q :: q in net.toServer ==> q.seqNumber != s)
    && (forall r :: r in net.toClient ==> r.seqNumber != Add16(s, 1))
  }

  /** Everything in flight is a leftover of the request the server served last. */
  predicate Settled(net: Net) {
    && Sane(net.server) && net.server.last.Some?
    && (forall q :: q in net.toServer ==> JustServed(net.server, q.seqNumber))
    && (forall r :: r in net.toClient ==> r.seqNumber == Add16(net.server.last.value.0, 1))
  }

  lemma SettledIsFresh(net: Net, s: U16)
    requires Settled(net) && !JustServed(net.server, s)
    ensures Fresh(net, s)
  {
  }

  /** A request of before that still reached the server, and what the server chose. */
  datatype Leftover = Leftover(request: FtpPayload, choice: Choice)

  function ServedAll(srv: Server, earlier: seq<Leftover>): Server {
    if earlier == [] then srv
    else
      var last := earlier[|earlier| - 1];
      Serve(ServedAll(srv, earlier[..|earlier| - 1]), last.request, last.choice).0
  }

  predicate AllFrom(earlier: seq<Leftover>, queue: seq<FtpPayload>) {
    forall i :: 0 <= i < |earlier| ==> earlier[i].request in queue
  }

  lemma ServedMore(srv: Server, earlier: seq<Leftover>, next: Leftover)
    ensures ServedAll(srv, earlier + [next]) == Serve(ServedAll(srv, earlier), next.request, next.choice).0
  {
    hide Serve;
    assert (earlier + [next])[..|earlier|] == earlier;
  }

  /** Repeats of the last request change nothing. */
  lemma {:induction false} RepeatsChangeNothing(srv: Server, earlier: seq<Leftover>)
    requires forall i :: 0 <= i < |earlier| ==> JustServed(srv, earlier[i].request.seqNumber)
    ensures ServedAll(srv, earlier) == srv
    decreases |earlier|
  {
    hide Execute;
    if earlier != [] {
      RepeatsChangeNothing(srv, earlier[..|earlier| - 1]);
    }
  }

  lemma {:induction false} ServedKeepsListings(srv: Server, earlier: seq<Leftover>)
    requires Sane(srv)
    ensures Sane(ServedAll(srv, earlier)) && ServedAll(srv, earlier).listings == srv.listings
    decreases |earlier|
  {
    hide Serve, Sane;
    if earlier != [] {
      var front, last := earlier[..|earlier| - 1], earlier[|earlier| - 1];
      ServedKeepsListings(srv, front);
      ServeAnswers(ServedAll(srv, front), last.request, last.choice);
    }
  }

  /** The one execution of a request: what the server served before it, the server then, and what it chose. */
  datatype Cause = Cause(earlier: seq<Leftover>, before: Server, choice: Choice)

  /** The server before the execution had only served requests that were already in flight at the start. */
  predicate Explains(c: Cause, first: Net) {
    c.before == ServedAll(first.server, c.earlier) && AllFrom(c.earlier, first.toServer)
  }

  /** Copies of `p` are in flight, behind older requests; none has reached the server. */
  ghost predicate Waiting(net: Net, p: FtpPayload, first: Net, c: Cause) {
    && Sane(net.server) && !JustServed(net.server, p.seqNumber)
    && net.server == c.before && Explains(c, first)
    && (forall i :: 0 <= i < |net.toServer| ==>
          net.toServer[i] == p || (net.toServer[i].seqNumber != p.seqNumber && net.toServer[i] in first.toServer))
    && (forall i, j :: 0 <= i < j < |net.toServer| && net.toServer[i] == p ==> net.toServer[j] == p)
    && (forall i :: 0 <= i < |net.toClient| ==> net.toClient[i].seqNumber != Add16(p.seqNumber, 1))
  }

  /** `p` was executed by `c`; only its copies and, last, its replies are still in flight. */
  ghost predicate Executed(net: Net, p: FtpPayload, c: Cause) {
    var (after, reply) := Serve(c.before, p, c.choice);
    && Sane(c.before) && !JustServed(c.before, p.seqNumber) && net.server == after
    && (forall i :: 0 <= i < |net.toServer| ==> net.toServer[i] == p)
    && (forall i :: 0 <= i < |net.toClient| ==>
          net.toClient[i] == reply || net.toClient[i].seqNumber != Add16(p.seqNumber, 1))
    && (forall i, j :: 0 <= i < j < |net.toClient| && net.toClient[i] == reply ==> net.toClient[j] == reply)
  }

  ghost predicate Pending(net: Net, p: FtpPayload, first: Net, done: bool, c: Cause) {
    if done then Executed(net, p, c) && Explains(c, first) else Waiting(net, p, first, c)
  }

  lemma ServeKeeps(l: Link, choice: Choice, p: FtpPayload, first: Net, done: bool, c: Cause)
    returns (done': bool, c': Cause)
    requires Pending(l.net, p, first, done, c)
    ensures Pending(Happen(l, ServeNext(choice)).0, p, first, done', c')
  {
    hide Execute, Sane, ServedAll;
    var n := l.net;
    done', c' := done, c;
    if n.toServer != [] {
      if done {
        ServeAnswers(c.before, p, c.choice);
      } else if n.toServer[0] == p {
        done', c' := true, c.(choice := choice);
      } else {
        var next := Leftover(n.toServer[0], choice);
        ServedMore(first.server, c.earlier, next);
        c' := c.(earlier := c.earlier + [next], before := Serve(n.server, n.toServer[0], choice).0);
      }
      ServeAnswers(n.server, n.toServer[0], choice);
    }
  }

  lemma HappenKeeps(l: Link, a: Action, p: FtpPayload, first: Net, done: bool, c: Cause)
    returns (done': bool, c': Cause)
    requires Pending(l.net, p, first, done, c)
    ensures Pending(Happen(l, a).0, p, first, done', c')
    ensures !a.ServeNext? ==> done' == done && c' == c
  {
    hide Serve;
    done', c' := done, c;
    if a.ServeNext? {
      done', c' := ServeKeeps(l, a.choice, p, first, done, c);
    }
  }

  /** A reply that passes the filter is the reply of `p`, and nothing older is left behind it. */
  lemma DeliveryAnswers(l: Link, p: FtpPayload, first: Net, done: bool, c: Cause)
    requires Pending(l.net, p, first, done, c)
    requires l.net.toClient != []
    requires Filter(Happen(l, DeliverReply).1.value, l.vehicle, Some(p.seqNumber)).Taken?
    ensures done
    ensures Filter(Happen(l, DeliverReply).1.value, l.vehicle, Some(p.seqNumber)).payload
         == Serve(c.before, p, c.choice).1
    ensures Settled(Happen(l, DeliverReply).0)
  {
    var r := l.net.toClient[0];
    DecodeEncode(r);
    assert r.seqNumber == Add16(p.seqNumber, 1);
    ServeAnswers(c.before, p, c.choice);
    assert r == Serve(c.before, p, c.choice).1;
  }

  lemma {:induction false} RecvKeeps(l: Link, p: FtpPayload, first: Net, done: bool, c: Cause)
    returns (done': bool, c': Cause)
    requires Pending(l.net, p, first, done, c)
    requires Undisturbed(l.schedule, l.vehicle)
    ensures var (r, l') := Recv(l, l.vehicle, Some(p.seqNumber));
            && Pending(l'.net, p, first, done', c')
            && Undisturbed(l'.schedule, l'.vehicle)
            && (r.Got? ==> done' && r.payload == Serve(c'.before, p, c'.choice).1 && Settled(l'.net))
    decreases |l.schedule|
  {
    hide Serve, Pending, Settled;
    done', c' := done, c;
    if l.schedule != [] && !l.schedule[0].TimeUp? && !l.schedule[0].Closed? {
      var a := l.schedule[0];
      done', c' := HappenKeeps(l, a, p, first, done, c);
      var (net, msg) := Happen(l, a);
      var l'' := l.(schedule := l.schedule[1..], net := net);
      if msg.None? || Filter(msg.value, l.vehicle, Some(p.seqNumber)).Ignored? {
        done', c' := RecvKeeps(l'', p, first, done', c');
      } else if a.DeliverReply? && Filter(msg.value, l.vehicle, Some(p.seqNumber)).Taken? {
        DeliveryAnswers(l, p, first, done, c);
      }
    }
  }

  lemma SubmitKeeps(l: Link, p: FtpPayload, first: Net, done: bool, c: Cause)
    requires Normalized(p) == p
    requires Pending(l.net, p, first, done, c)
    ensures Pending(Submit(l, l.vehicle, p).net, p, first, done, c)
  {
  }

  lemma {:induction false} ExchangeKeeps(
      l: Link, p: FtpPayload, attempts: nat, last: FtpFailure,
      first: Net, done: bool, c: Cause)
    returns (done': bool, c': Cause)
    requires Normalized(p) == p
    requires Pending(l.net, p, first, done, c)
    requires Undisturbed(l.schedule, l.vehicle)
    ensures var (r, l') := Exchange(l, l.vehicle, p, attempts, last);
            && Pending(l'.net, p, first, done', c')
            && Undisturbed(l'.schedule, l'.vehicle)
            && (r.Success? ==> done' && r.value == Serve(c'.before, p, c'.choice).1 && Settled(l'.net))
    decreases attempts
  {
    hide Serve, Pending, Recv, Settled, Undisturbed;
    done', c' := done, c;
    if attempts > 0 {
      var l1 := Submit(l, l.vehicle, p);
      SubmitKeeps(l, p, first, done, c);
      done', c' := RecvKeeps(l1, p, first, done', c');
      var (r, l') := Recv(l1, l.vehicle, Some(p.seqNumber));
      if !r.Got? {
        done', c' := ExchangeKeeps(l', p, attempts - 1, if r.Broken? then r.failure else TimedOut,
                                   first, done', c');
      }
    }
  }

  lemma LeftoversChangeNothing(first: Net, c: Cause)
    requires Settled(first) && Explains(c, first)
    ensures c.before == first.server
  {
    forall i | 0 <= i < |c.earlier| ensures JustServed(first.server, c.earlier[i].request.seqNumber) {
      assert c.earlier[i].request in first.toServer;
    }
    RepeatsChangeNothing(first.server, c.earlier);
  }

  lemma NormalizedTwice(p: FtpPayload)
    ensures Normalized(Normalized(p)) == Normalized(p)
  {
    assert NormalData(Normalized(p)) == NormalData(p);
  }

  lemma ExchangeNormalized(l: Link, p: FtpPayload, attempts: nat, last: FtpFailure)
    ensures Exchange(l, l.vehicle, p, attempts, last) == Exchange(l, l.vehicle, Normalized(p), attempts, last)
    decreases attempts
  {
    NormalizedTwice(p);
    if attempts > 0 {
      var (r, l') := Recv(Submit(l, l.vehicle, p), l.vehicle, Some(p.seqNumber));
      if !r.Got? {
        ExchangeNormalized(l', p, attempts - 1, if r.Broken? then r.failure else TimedOut);
      }
    }
  }

  /**
   Exactly-once: whatever is lost, repeated or late, an answered request was executed by the
   server exactly once, the answer is that execution's, and only leftovers of it stay in flight.
   Before it the server had served nothing but requests that were in flight at the start; with
   nothing but repeats in flight there, it was executed on the server as it stood.
   */
  lemma ExactlyOnce(l: Link, p: FtpPayload) returns (c: Cause)
    requires Fresh(l.net, p.seqNumber)
    requires Undisturbed(l.schedule, l.vehicle)
    ensures Undisturbed(SendReceive(l, l.vehicle, p).1.schedule, l.vehicle)
    ensures var (r, l') := SendReceive(l, l.vehicle, p);
            r.Success? ==>
              && (l'.net.server, r.value) == Serve(c.before, Normalized(p), c.choice)
              && !JustServed(c.before, p.seqNumber)
              && c.before == ServedAll(l.net.server, c.earlier) && AllFrom(c.earlier, l.net.toServer)
              && c.before.listings == l.net.server.listings
              && (Settled(l.net) ==> c.before == l.net.server)
              && Settled(l'.net)
  {
    var np := Normalized(p);
    ExchangeNormalized(l, p, FTP_MAX_RETRIES, TimedOut);
    NormalizedTwice(p);
    var done;
    done, c := ExchangeKeeps(l, np, FTP_MAX_RETRIES, TimedOut, l.net, false, Cause([], l.net.server, Refuse(0)));
    ServedKeepsListings(l.net.server, c.earlier);
    if Settled(l.net) && done {
      LeftoversChangeNothing(l.net, c);
    }
  }

  // ---- A task's calls, one after another ----

  /** Other tasks draw fewer than 65535 sequence numbers between two of ours. */
  predicate NarrowGaps(l: Link) {
    forall i :: 0 <= i < |l.gaps| ==> l.gaps[i] < 0xFFFF
  }

  /** Between two calls: only leftovers of our last request in flight, and its number was the last we drew. */
  predicate Ready(l: Link) {
    && Settled(l.net) && Undisturbed(l.schedule, l.vehicle) && NarrowGaps(l)
    && l.seqNumber == Add16(l.net.server.last.value.0, 1)
  }

  /** A task may start: nothing in flight can be confused with its first request. */
  predicate Startable(l: Link) {
    Fresh(l.net, Draw(l).0) && Undisturbed(l.schedule, l.vehicle) && NarrowGaps(l)
  }

  lemma ReadyIsStartable(l: Link)
    requires Ready(l)
    ensures Startable(l)
  {
    SettledIsFresh(l.net, Draw(l).0);
  }

  lemma GapsShrink(l: Link)
    requires NarrowGaps(l)
    ensures NarrowGaps(Draw(l).1)
  {
  }

  /** An answered request was executed once, on the server as the last request left it. */
  lemma ReadySend(l: Link, p: FtpPayload) returns (choice: Choice)
    requires Ready(l) && p.seqNumber == Draw(l).0
    ensures var (r, l') := SendReceive(Draw(l).1, l.vehicle, p);
            r.Success? ==>
              && Ready(l') && l'.vehicle == l.vehicle
              && var (after, reply) := Execute(l.net.server, Normalized(p), choice);
                 r.value == reply && l'.net.server == after.(last := Some((p.seqNumber, reply)))
  {
    ReadyIsStartable(l);
    var c := ExactlyOnce(Draw(l).1, p);
    choice := c.choice;
    var (r, l') := SendReceive(Draw(l).1, l.vehicle, p);
    GapsShrink(l);
  }

  /** A successful call was not refused. */
  lemma ReadyCall(l: Link, p: FtpPayload) returns (choice: Choice)
    requires Ready(l) && p.seqNumber == Draw(l).0
    ensures var (r, l') := Call(Draw(l).1, l.vehicle, p);
            r.Success? ==>
              && Ready(l') && l'.vehicle == l.vehicle
              && choice.Proceed? && r.value.opcode == ACK
              && var (after, reply) := Execute(l.net.server, Normalized(p), choice);
                 r.value == reply && l'.net.server == after.(last := Some((p.seqNumber, reply)))
  {
    choice := ReadySend(l, p);
  }

  lemma PromptServe(l: Link, np: FtpPayload, choice: Choice, rest: seq<Action>, expected: Option<U16>)
    requires l.net.toServer == [np] && l.net.toClient == []
    requires l.schedule == [ServeNext(choice)] + rest
    ensures var (after, reply) := Serve(l.net.server, np, choice);
            Recv(l, l.vehicle, expected)
              == Recv(l.(net := Net([], [reply], after), schedule := rest), l.vehicle, expected)
  {
    hide Serve;
    var (after, reply) := Serve(l.net.server, np, choice);
    assert l.schedule[1..] == rest;
    assert [np][1..] == [] && l.net.toClient + [reply] == [reply];
    assert Happen(l, ServeNext(choice)) == (Net([], [reply], after), None);
  }

  lemma PromptDelivery(l: Link, reply: FtpPayload, rest: seq<Action>, expected: U16)
    requires l.net.toServer == [] && l.net.toClient == [reply]
    requires l.schedule == [DeliverReply] + rest
    requires WellFormed(reply) && Matches(reply, Some(expected))
    ensures Recv(l, l.vehicle, Some(expected))
         == (Got(reply), l.(net := Net([], [], l.net.server), schedule := rest))
  {
    DecodeEncode(reply);
    assert l.schedule[1..] == rest && [reply][1..] == [];
    var msg := HubMessage(FTP_MESSAGE_ID, l.vehicle, Some(Encoded(reply)));
    assert Happen(l, DeliverReply) == (Net([], [], l.net.server), Some(msg));
    assert Filter(msg, l.vehicle, Some(expected)) == Taken(reply);
  }

  /** On an idle link whose next two events serve and deliver, a request is answered at once. */
  lemma PromptAnswer(l: Link, p: FtpPayload, choice: Choice, rest: seq<Action>)
    requires l.net.toServer == [] && l.net.toClient == [] && Sane(l.net.server)
    requires l.schedule == [ServeNext(choice), DeliverReply] + rest
    ensures var served := Serve(l.net.server, Normalized(p), choice);
            SendReceive(l, l.vehicle, p)
              == (Success(served.1), l.(net := Net([], [], served.0), schedule := rest))
  {
    hide Serve, Recv;
    var np := Normalized(p);
    ServeAnswers(l.net.server, np, choice);
    var (after, reply) := Serve(l.net.server, np, choice);
    var l1 := Submit(l, l.vehicle, p);
    assert l1.schedule == [ServeNext(choice)] + ([DeliverReply] + rest);
    assert l1.net.toServer == [np];
    PromptServe(l1, np, choice, [DeliverReply] + rest, Some(p.seqNumber));
    PromptDelivery(l1.(net := Net([], [reply], after), schedule := [DeliverReply] + rest), reply, rest, p.seqNumber);
  }

  /** Every request is served and answered at once; the vehicle proceeds, with session 0 and pages of one text. */
  function PromptSchedule(n: nat): seq<Action> {
    if n == 0 then [] else [ServeNext(PROMPT), DeliverReply] + PromptSchedule(n - 1)
  }

  const PROMPT := Proceed(0, 1)

  /** Nothing is in flight, no other task draws numbers, and the next number is not the last one served. */
  predicate Still(l: Link) {
    && l.net.toServer == [] && l.net.toClient == [] && Sane(l.net.server) && l.gaps == []
    && (l.net.server.last.Some? ==> l.net.server.last.value.0 != l.seqNumber)
  }

  /** An idle link that will answer `n` requests at once. */
  predicate IdleLink(l: Link, n: nat) {
    Still(l) && l.schedule == PromptSchedule(n)
  }

  lemma {:induction false} PromptUndisturbed(n: nat, vehicle: Target)
    ensures Undisturbed(PromptSchedule(n), vehicle)
  {
    if n > 0 {
      PromptUndisturbed(n - 1, vehicle);
      var rest := PromptSchedule(n - 1);
      assert forall i :: 2 <= i < |PromptSchedule(n)| ==> PromptSchedule(n)[i] == rest[i - 2];
    }
  }

  lemma IdleIsStartable(l: Link, n: nat)
    requires IdleLink(l, n)
    ensures Startable(l)
  {
    PromptUndisturbed(n, l.vehicle);
  }

  /** A request is executed and answered by the next two events, whatever the rest of the schedule is. */
  lemma NextAnswered(l: Link, p: FtpPayload, choice: Choice, rest: seq<Action>)
    requires Still(l) && p.seqNumber == Draw(l).0
    requires l.schedule == [ServeNext(choice), DeliverReply] + rest
    ensures var (r, l') := SendReceive(Draw(l).1, l.vehicle, p);
            var (after, reply) := Execute(l.net.server, Normalized(p), choice);
            && r == Success(reply) && l'.net.server == after.(last := Some((p.seqNumber, reply)))
            && Still(l') && l'.schedule == rest && l'.vehicle == l.vehicle
            && l'.seqNumber == Add16(p.seqNumber, 1)
  {
    hide Execute;
    ServeAnswers(l.net.server, Normalized(p), choice);
    PromptAnswer(Draw(l).1, p, choice, rest);
  }

  /** The error of a call the vehicle refuses; the vehicle never says end of file for that. */
  function RefusalOf(code: U8): FtpFailure {
    Refused(FtpNakError(if code == 6 || code > 10 then 1 else code, None))
  }

  /** A refused call returns the refusal's code and changes nothing on the vehicle. */
  lemma NextRefused(l: Link, p: FtpPayload, code: U8, rest: seq<Action>)
    requires Still(l) && p.seqNumber == Draw(l).0
    requires l.schedule == [ServeNext(Refuse(code)), DeliverReply] + rest
    ensures var (r, l') := Call(Draw(l).1, l.vehicle, p);
            && r == Failure(RefusalOf(code))
            && Still(l') && l'.schedule == rest && l'.vehicle == l.vehicle
            && l'.net.server == l.net.server.(last := l'.net.server.last)
  {
    hide SendReceive, Still;
    NextAnswered(l, p, Refuse(code), rest);
  }

  /** On an idle link the next request is executed and answered, and the link is idle again. */
  lemma PromptSend(l: Link, p: FtpPayload, n: nat)
    requires IdleLink(l, n) && n > 0 && p.seqNumber == Draw(l).0
    ensures var (r, l') := SendReceive(Draw(l).1, l.vehicle, p);
            var (after, reply) := Execute(l.net.server, Normalized(p), PROMPT);
            && r == Success(reply) && l'.net.server == after.(last := Some((p.seqNumber, reply)))
            && IdleLink(l', n - 1) && l'.vehicle == l.vehicle
  {
    hide Execute, SendReceive, Still;
    NextAnswered(l, p, PROMPT, PromptSchedule(n - 1));
  }
}
