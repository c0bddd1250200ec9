/**
 Matching replies to requests by sequence number (mavftp/transport.rs): one 16-bit counter shared
 by every task, and a network that may delay, repeat, reorder or drop every reply.
 */
module ReplyMatching {
  import opened Wrappers
  import opened Bytes
  import opened FtpProtocol
  import opened Transport

  /** The `nth` reply to the request with this index; single-reply requests have nth == 1. */
  datatype Reply = Reply(request: nat, nth: nat, payload: FtpPayload)

  datatype Acceptance = Acceptance(request: nat, reply: Reply)

  /** The counter, the number each request drew, every reply ever sent, and what was accepted. */
  datatype State = State(counter: U16, requests: seq<U16>, sent: set<Reply>, accepted: seq<Acceptance>)

  datatype Step =
    | DrawNumber                           // some task starts a request
    | Answer(reply: Reply)                 // the server answers a request
    | Accept(request: nat, reply: Reply)   // a waiting request is handed a reply that passes its filter

  function Start(counter: U16): State {
    State(counter, [], {}, [])
  }

  predicate Enabled(s: State, step: Step) {
    match step
    case DrawNumber => true
    case Answer(reply) =>
      && reply.request < |s.requests| && reply.nth >= 1
      && reply.payload.seqNumber == Add16(s.requests[reply.request], reply.nth)
    case Accept(request, reply) =>
      && request < |s.requests| && reply in s.sent
      && Matches(reply.payload, Some(s.requests[request]))
  }

  function Next(s: State, step: Step): State {
    match step
    case DrawNumber => s.(counter := Add16(s.counter, 1), requests := s.requests + [s.counter])
    case Answer(reply) => s.(sent := s.sent + {reply})
    case Accept(request, reply) => s.(accepted := s.accepted + [Acceptance(request, reply)])
  }

  /** The steps can be taken one after another, and end here. */
  ghost predicate Reaches(start: State, steps: seq<Step>, end: State)
    decreases |steps|
  {
    if steps == [] then start == end
    else Enabled(start, steps[0]) && Reaches(Next(start, steps[0]), steps[1..], end)
  }

  /** At most `maxRequests` requests were made, and no reply is beyond the `maxReplies`th of its request. */
  predicate Within(s: State, maxRequests: nat, maxReplies: nat) {
    |s.requests| <= maxRequests && forall r :: r in s.sent ==> r.nth <= maxReplies
  }

  predicate AllMatched(s: State) {
    forall k :: 0 <= k < |s.accepted| ==> s.accepted[k].reply.request == s.accepted[k].request
  }

  predicate Inv(s: State, start: U16) {
    && s.counter == Add16(start, |s.requests|)
    && (forall i :: 0 <= i < |s.requests| ==> s.requests[i] == Add16(start, i))
    && (forall r :: r in s.sent ==>
          r.request < |s.requests| && r.nth >= 1 && r.payload.seqNumber == Add16(start, r.request + r.nth))
    && (forall k :: 0 <= k < |s.accepted| ==>
          && s.accepted[k].request < |s.requests| && s.accepted[k].reply in s.sent
          && s.accepted[k].reply.payload.seqNumber == Add16(start, s.accepted[k].request + 1))
  }

  lemma AddTwice(a: nat, i: nat, j: nat)
    ensures Add16(Add16(a, i), j) == Add16(a, i + j)
  {
  }

  lemma NextKeepsInv(s: State, step: Step, start: U16)
    requires Inv(s, start) && Enabled(s, step)
    ensures Inv(Next(s, step), start)
  {
    match step
    case DrawNumber => AddTwice(start, |s.requests|, 1);
    case Answer(reply) => AddTwice(start, reply.request, reply.nth);
    case Accept(request, reply) => AddTwice(start, request, 1);
  }

  lemma {:induction false} ReachesKeepsInv(s: State, steps: seq<Step>, end: State, start: U16)
    requires Inv(s, start) && Reaches(s, steps, end)
    ensures Inv(end, start)
    decreases |steps|
  {
    if steps != [] {
      NextKeepsInv(s, steps[0], start);
      ReachesKeepsInv(Next(s, steps[0]), steps[1..], end, start);
    }
  }

  /** Two offsets from a start that agree modulo 2^16 and are less than 2^16 apart are equal. */
  lemma CloseAndEqual(start: nat, a: nat, b: nat)
    requires Add16(start, a) == Add16(start, b)
    requires -0x1_0000 < a - b < 0x1_0000
    ensures a == b
  {
    var q := (start + a) / 0x1_0000 - (start + b) / 0x1_0000;
    assert a - b == 0x1_0000 * q;
  }

  /**
   In a run of any length, a request never accepts the single reply of another request made fewer
   than 65536 requests before or after it, however the replies are delayed, repeated or interleaved.
   */
  lemma RepliesMatchInWindow(start: U16, steps: seq<Step>, end: State, k: nat)
    requires Reaches(Start(start), steps, end) && k < |end.accepted|
    requires end.accepted[k].reply.nth == 1
    requires -0x1_0000 < end.accepted[k].request - end.accepted[k].reply.request < 0x1_0000
    ensures end.accepted[k].request == end.accepted[k].reply.request
  {
    ReachesKeepsInv(Start(start), steps, end, start);
    var a := end.accepted[k];
    assert a.reply in end.sent;
    CloseAndEqual(start, a.reply.request + a.reply.nth, a.request + 1);
  }

  lemma RepliesMatch(start: U16, steps: seq<Step>, end: State)
    requires Reaches(Start(start), steps, end) && Within(end, 0x1_0000, 1)
    ensures AllMatched(end)
  {
    ReachesKeepsInv(Start(start), steps, end, start);
    forall k | 0 <= k < |end.accepted|
      ensures end.accepted[k].reply.request == end.accepted[k].request
    {
      assert end.accepted[k].reply in end.sent;
      RepliesMatchInWindow(start, steps, end, k);
    }
  }

  ghost predicate SafeWithin(maxRequests: nat, maxReplies: nat) {
    forall start: U16, steps: seq<Step>, end: State ::
      Reaches(Start(start), steps, end) && Within(end, maxRequests, maxReplies) ==> AllMatched(end)
  }

  // ---- Runs that mix replies up ----

  function Drawn(start: U16, n: nat): State {
    State(Add16(start, n), seq(n, i => Add16(start, i)), {}, [])
  }

  lemma {:induction false} DrawMany(start: U16, n: nat, steps: seq<Step>, end: State)
    requires Reaches(Drawn(start, n), steps, end)
    ensures exists all :: Reaches(Start(start), all, end)
    decreases n
  {
    if n == 0 {
      assert Drawn(start, 0) == Start(start);
    } else {
      AddTwice(start, n - 1, 1);
      assert Next(Drawn(start, n - 1), DrawNumber).requests == Drawn(start, n).requests;
      assert ([DrawNumber] + steps)[1..] == steps;
      DrawMany(start, n - 1, [DrawNumber] + steps, end);
    }
  }

  /** Request `other` takes the `nth` reply of request 0 when the numbers collide. */
  lemma Confused(other: nat, nth: nat)
    requires other > 0 && nth >= 1 && Add16(0, nth) == Add16(0, other + 1)
    ensures !SafeWithin(other + 1, nth)
  {
    var s := Drawn(0, other + 1);
    var reply := Reply(0, nth, FtpPayload(Add16(0, nth), 0, ACK, 0, NO_OPCODE, 0, 0, []));
    var answered := Next(s, Answer(reply));
    var end := Next(answered, Accept(other, reply));
    AddTwice(0, other, 1);
    assert Enabled(answered, Accept(other, reply));
    var last := [Accept(other, reply)];
    assert last[1..] == [] && Reaches(answered, last, end);
    var steps := [Answer(reply)] + last;
    assert steps[1..] == last && Reaches(s, steps, end);
    DrawMany(0, other + 1, steps, end);
    assert end.accepted[0].reply.request != end.accepted[0].request;
    assert Within(end, other + 1, nth);
  }

  lemma SafeShrinks(n: nat, m: nat, n': nat, m': nat)
    requires n <= n' && m <= m' && SafeWithin(n', m')
    ensures SafeWithin(n, m)
  {
    forall start: U16, steps: seq<Step>, end: State
      | Reaches(Start(start), steps, end) && Within(end, n, m)
      ensures AllMatched(end)
    {
      assert Within(end, n', m');
    }
  }

  /**
   Exactly when matching is safe: with single replies up to 65536 requests; with the numbered
   replies of a burst only while no other request is made.
   */
  lemma MatchingSafeExactly(maxRequests: nat, maxReplies: nat)
    requires maxReplies >= 1
    ensures SafeWithin(maxRequests, maxReplies) <==>
              maxRequests <= 1 || (maxReplies == 1 && maxRequests <= 0x1_0000)
  {
    if maxRequests <= 1 {
      OneRequestSafe(maxReplies);
      SafeShrinks(maxRequests, maxReplies, 1, maxReplies);
    } else if maxReplies > 1 {
      Confused(1, 2);
      if SafeWithin(maxRequests, maxReplies) {
        SafeShrinks(2, 2, maxRequests, maxReplies);
      }
    } else if maxRequests > 0x1_0000 {
      Confused(0x1_0000, 1);
      if SafeWithin(maxRequests, 1) {
        SafeShrinks(0x1_0001, 1, maxRequests, 1);
      }
    } else {
      forall start: U16, steps: seq<Step>, end: State
        | Reaches(Start(start), steps, end) && Within(end, maxRequests, 1)
        ensures AllMatched(end)
      {
        RepliesMatch(start, steps, end);
      }
    }
  }

  lemma OneRequestSafe(maxReplies: nat)
    ensures SafeWithin(1, maxReplies)
  {
    forall start: U16, steps: seq<Step>, end: State
      | Reaches(Start(start), steps, end) && Within(end, 1, maxReplies)
      ensures AllMatched(end)
    {
      ReachesKeepsInv(Start(start), steps, end, start);
    }
  }
}
