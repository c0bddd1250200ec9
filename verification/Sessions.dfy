/**
 Tasks sharing vehicles (mavftp/client.rs `TARGET_LOCKS`, `target_lock`): every interleaving of
 tasks that lock a target, reset, open, use and close a session over an in-order lossy link. A
 request that uses a session may be a burst, whose replies are numbered on from its own number;
 replies are matched by their 16-bit number alone.
 */
module Sessions {
  import opened Wrappers
  import opened Bytes
  import Transport

  datatype Kind = Reset | Open | Use | Close | Plain

  /** A request: what it asks, the operation it belongs to, its serial, and the session it names. */
  datatype Request = Request(kind: Kind, op: nat, serial: nat, session: U8)

  /** A reply: the request it answers, the serial its number was counted from, and what it says. */
  datatype Reply = Reply(asked: nat, number: nat, ok: bool, session: U8)

  /** How many replies a request may bring, and how many draws of the counter a reply can outlive. */
  datatype Limits = Limits(replies: nat, lifetime: nat)

  /** One vehicle and its link: requests and replies in flight, the last request served, open sessions. */
  datatype Channel = Channel(
    queue: seq<Request>, replies: seq<Reply>,
    last: Option<Request>, lastOk: bool, lastSession: U8, open: set<U8>)

  const EMPTY_CHANNEL := Channel([], [], None, false, 0, {})

  /** What executing a request does to the open sessions; the vehicle picks the number of a new one. */
  function Executed(open: set<U8>, r: Request, ok: bool, session: U8): set<U8> {
    if !ok then open
    else
      match r.kind
      case Reset => {}
      case Open => open + {session}
      case Close => open - {r.session}
      case _ => open
  }

  predicate IsRepeat(c: Channel) {
    c.queue != [] && c.last == Some(c.queue[0])
  }

  /** The replies to one read, numbered on. */
  function Burst(r: Request, oks: seq<bool>): seq<Reply> {
    seq(|oks|, k requires 0 <= k < |oks| => Reply(r.serial, r.serial + k, oks[k], r.session))
  }

  /**
   The vehicle takes the oldest request; a repeat of the last one only repeats its reply. A use
   of a session brings any number of replies, and again when repeated.
   */
  function Serve(c: Channel, ok: bool, session: U8, burst: seq<bool>): Channel {
    if c.queue == [] then c
    else
      var r := c.queue[0];
      if r.kind == Use then
        c.(queue := c.queue[1..], replies := c.replies + Burst(r, burst), last := Some(r))
      else if IsRepeat(c) then
        c.(queue := c.queue[1..], replies := c.replies + [Reply(r.serial, r.serial, c.lastOk, c.lastSession)])
      else
        Channel(c.queue[1..], c.replies + [Reply(r.serial, r.serial, ok, session)],
                Some(r), ok, session, Executed(c.open, r, ok, session))
  }

  datatype LinkStep =
    | ServeOldest(ok: bool, session: U8, burst: seq<bool>)
    | LoseRequest | RepeatRequest
    | LoseReply | RepeatReply

  function LinkNext(c: Channel, step: LinkStep): Channel {
    match step
    case ServeOldest(ok, session, burst) => Serve(c, ok, session, burst)
    case LoseRequest => if c.queue == [] then c else c.(queue := c.queue[1..])
    case RepeatRequest => if c.queue == [] then c else c.(queue := [c.queue[0]] + c.queue)
    case LoseReply => if c.replies == [] then c else c.(replies := c.replies[1..])
    case RepeatReply => if c.replies == [] then c else c.(replies := [c.replies[0]] + c.replies)
  }

  // ---- What a channel keeps ----

  predicate Before(a: Request, b: Request) {
    a == b || a.serial < b.serial
  }

  /** Serials name requests, only grow along the link, and are below the next one to be drawn. */
  predicate QueueOrdered(queue: seq<Request>, next: nat) {
    && (forall i, j :: 0 <= i < j < |queue| ==> Before(queue[i], queue[j]))
    && (forall i :: 0 <= i < |queue| ==> queue[i].serial < next)
  }

  predicate LastBefore(last: Option<Request>, queue: seq<Request>, next: nat) {
    last.Some? ==> last.value.serial < next && forall i :: 0 <= i < |queue| ==> Before(last.value, queue[i])
  }

  /** A reply in flight answers the last request or an older one, the last one as it was answered. */
  predicate MayBeReplied(last: Request, lastOk: bool, lastSession: U8, r: Reply) {
    && r.asked <= last.serial
    && (r.asked == last.serial && last.kind != Use ==> r.ok == lastOk && r.session == lastSession)
  }

  predicate RepliesKnown(last: Option<Request>, lastOk: bool, lastSession: U8, replies: seq<Reply>) {
    forall i :: 0 <= i < |replies| ==> KnownReply(last, lastOk, lastSession, replies[i])
  }

  predicate Ordered(c: Channel, next: nat) {
    && QueueOrdered(c.queue, next) && LastBefore(c.last, c.queue, next)
    && RepliesKnown(c.last, c.lastOk, c.lastSession, c.replies)
  }

  predicate MayBeNumbered(r: Reply, replies: nat) {
    r.asked <= r.number < r.asked + Max(1, replies)
  }

  /** Replies are numbered from the request's own serial, within the limit. */
  predicate Numbered(c: Channel, replies: nat) {
    forall i :: 0 <= i < |c.replies| ==> MayBeNumbered(c.replies[i], replies)
  }

  /** Every request up to a pending open is that open or a repeat of the last one served. */
  predicate OpensGuarded(c: Channel) {
    forall j :: 0 <= j < |c.queue| && c.queue[j].kind == Open ==>
      && (c.open == {} || c.last == Some(c.queue[j]))
      && forall i :: 0 <= i < j ==> c.queue[i] == c.queue[j] || c.last == Some(c.queue[i])
  }

  predicate ChannelInv(c: Channel, next: nat) {
    Ordered(c, next) && OpensGuarded(c) && |c.open| <= 1
  }

  predicate KnownReply(last: Option<Request>, lastOk: bool, lastSession: U8, r: Reply) {
    last.Some? && MayBeReplied(last.value, lastOk, lastSession, r)
  }

  lemma FewerKnown(last: Option<Request>, lastOk: bool, lastSession: U8, replies: seq<Reply>, fewer: seq<Reply>)
    requires RepliesKnown(last, lastOk, lastSession, replies)
    requires forall i :: 0 <= i < |fewer| ==> fewer[i] in replies
    ensures RepliesKnown(last, lastOk, lastSession, fewer)
  {
    forall i | 0 <= i < |fewer| ensures KnownReply(last, lastOk, lastSession, fewer[i]) {
      assert fewer[i] in replies;
      var k :| 0 <= k < |replies| && replies[k] == fewer[i];
      assert KnownReply(last, lastOk, lastSession, replies[k]);
    }
  }

  /** Replies may get lost, or come twice. */
  lemma FewerReplies(c: Channel, replies: seq<Reply>, next: nat)
    requires Ordered(c, next) && forall i :: 0 <= i < |replies| ==> replies[i] in c.replies
    ensures Ordered(c.(replies := replies), next)
  {
    hide QueueOrdered, LastBefore, RepliesKnown;
    FewerKnown(c.last, c.lastOk, c.lastSession, c.replies, replies);
  }

  lemma LosingKeepsOrder(c: Channel, next: nat)
    requires Ordered(c, next) && c.queue != []
    ensures Ordered(c.(queue := c.queue[1..]), next)
  {
    hide RepliesKnown;
    var queue := c.queue[1..];
    assert forall i :: 0 <= i < |queue| ==> queue[i] == c.queue[i + 1];
    forall i, j | 0 <= i < j < |queue| ensures Before(queue[i], queue[j]) {
      assert Before(c.queue[i + 1], c.queue[j + 1]);
    }
  }

  lemma RepeatingKeepsOrder(c: Channel, next: nat)
    requires Ordered(c, next) && c.queue != []
    ensures Ordered(c.(queue := [c.queue[0]] + c.queue), next)
  {
    hide RepliesKnown;
    var queue := [c.queue[0]] + c.queue;
    assert forall i :: 1 <= i < |queue| ==> queue[i] == c.queue[i - 1];
    forall i, j | 0 <= i < j < |queue| ensures Before(queue[i], queue[j]) {
      if i > 0 {
        assert Before(c.queue[i - 1], c.queue[j - 1]);
      } else if j > 1 {
        assert Before(c.queue[0], c.queue[j - 1]);
      }
    }
  }

  lemma LinkKeepsOrder(c: Channel, step: LinkStep, next: nat)
    requires Ordered(c, next)
    ensures Ordered(LinkNext(c, step), next)
  {
    hide Ordered;
    match step
    case ServeOldest(ok, session, burst) => ServeKeepsOrder(c, ok, session, burst, next);
    case LoseReply => FewerReplies(c, LinkNext(c, step).replies, next);
    case RepeatReply => FewerReplies(c, LinkNext(c, step).replies, next);
    case LoseRequest => if c.queue != [] { LosingKeepsOrder(c, next); }
    case RepeatRequest => if c.queue != [] { RepeatingKeepsOrder(c, next); }
  }

  lemma ServeKeepsOrder(c: Channel, ok: bool, session: U8, burst: seq<bool>, next: nat)
    requires Ordered(c, next)
    ensures Ordered(Serve(c, ok, session, burst), next)
  {
    if c.queue != [] {
      var c' := Serve(c, ok, session, burst);
      assert forall i :: 0 <= i < |c'.queue| ==> c'.queue[i] == c.queue[i + 1];
      forall i | 0 <= i < |c'.replies|
        ensures KnownReply(c'.last, c'.lastOk, c'.lastSession, c'.replies[i])
      {
        if i < |c.replies| {
          assert c'.replies[i] == c.replies[i];
          assert KnownReply(c.last, c.lastOk, c.lastSession, c.replies[i]);
        }
      }
    }
  }

  lemma LinkKeepsNumbers(lim: Limits, c: Channel, step: LinkStep)
    requires Numbered(c, lim.replies) && LinkEnabled(lim, step)
    ensures Numbered(LinkNext(c, step), lim.replies)
  {
    hide MayBeNumbered;
    var c' := LinkNext(c, step);
    match step
    case ServeOldest(_, _, burst) => if c.queue != [] { ServeKeepsNumbers(lim, c, step.ok, step.session, burst); }
    case _ => FewerNumbers(c, c'.replies, lim.replies);
  }

  lemma FewerNumbers(c: Channel, replies: seq<Reply>, limit: nat)
    requires Numbered(c, limit) && forall i :: 0 <= i < |replies| ==> replies[i] in c.replies
    ensures Numbered(c.(replies := replies), limit)
  {
    hide MayBeNumbered;
    forall i | 0 <= i < |replies| ensures MayBeNumbered(replies[i], limit) {
      assert replies[i] in c.replies;
      var k :| 0 <= k < |c.replies| && c.replies[k] == replies[i];
    }
  }

  lemma ServeKeepsNumbers(lim: Limits, c: Channel, ok: bool, session: U8, burst: seq<bool>)
    requires Numbered(c, lim.replies) && c.queue != [] && |burst| <= lim.replies
    ensures Numbered(Serve(c, ok, session, burst), lim.replies)
  {
    var c' := Serve(c, ok, session, burst);
    forall i | 0 <= i < |c'.replies| ensures MayBeNumbered(c'.replies[i], lim.replies) {
      if i < |c.replies| {
        assert c'.replies[i] == c.replies[i];
      }
    }
  }

  predicate LinkEnabled(lim: Limits, step: LinkStep) {
    step.ServeOldest? ==> |step.burst| <= lim.replies
  }

  lemma LinkKeepsGuard(c: Channel, step: LinkStep, next: nat)
    requires ChannelInv(c, next)
    ensures OpensGuarded(LinkNext(c, step))
  {
    hide RepliesKnown, Executed, Burst;
    match step
    case ServeOldest(ok, session, burst) =>
      if c.queue != [] {
        ServeKeepsGuard(c, ok, session, burst, next);
      }
    case _ =>
  }

  lemma ServeKeepsGuard(c: Channel, ok: bool, session: U8, burst: seq<bool>, next: nat)
    requires ChannelInv(c, next) && c.queue != []
    ensures OpensGuarded(Serve(c, ok, session, burst))
  {
    hide RepliesKnown, Burst;
    var c' := Serve(c, ok, session, burst);
    assert forall i :: 0 <= i < |c'.queue| ==> c'.queue[i] == c.queue[i + 1];
    assert forall i :: 0 < i < |c.queue| ==> Before(c.queue[0], c.queue[i]);
  }

  lemma LinkKeepsChannel(c: Channel, step: LinkStep, next: nat)
    requires ChannelInv(c, next)
    ensures ChannelInv(LinkNext(c, step), next)
  {
    LinkKeepsOrder(c, step, next);
    LinkKeepsGuard(c, step, next);
    if step.ServeOldest? && c.queue != [] && c.queue[0].kind == Close {
      SubsetSize(c.open - {c.queue[0].session}, c.open);
    }
  }

  lemma SubsetSize(a: set<U8>, b: set<U8>)
    requires a <= b
    ensures |a| <= |b|
  {
    assert b == a + (b - a);
  }

  // ---- A task that holds a vehicle's lock ----

  datatype Phase = Resetting | Opening | Using | Closing | Asking

  /** An operation under way: its number, its phase, the session it uses, and the request it is sending. */
  datatype Run = Run(op: nat, phase: Phase, session: U8, current: Request)

  function KindOf(phase: Phase): Kind {
    match phase
    case Resetting => Reset
    case Opening => Open
    case Using => Use
    case Closing => Close
    case Asking => Plain
  }

  function NewRun(op: nat, phase: Phase, session: U8, serial: nat): Run {
    Run(op, phase, session, Request(KindOf(phase), op, serial, session))
  }

  /** The session an operation uses behind a reply: the one its open was answered with. */
  function SessionBehind(r: Run, reply: Reply): U8 {
    if r.phase == Opening then reply.session else r.session
  }

  /** The phases that follow an accepted reply. */
  predicate MayFollow(phase: Phase, next: Phase) {
    match phase
    case Resetting => next == Opening
    case Opening => next == Using || next == Closing
    case Using => next == Using || next == Closing
    case Closing => false
    case Asking => next == Asking
  }

  /** A request in flight while a run is under way, given the one served last. */
  predicate MayBeQueued(last: Option<Request>, r: Run, q: Request) {
    && Before(q, r.current)
    && (r.phase == Opening || r.phase == Using || r.phase == Closing ==> q.op == r.op)
    && (r.phase == Opening ==> q == r.current || last == Some(q))
    && (r.phase == Using || r.phase == Closing ==> q.kind != Reset && (q.kind == Open ==> last == Some(q)))
    && (r.phase == Using ==> q.kind != Close)
  }

  /** The session that may be open: the one named in the answer to the open, or the one in use. */
  function Own(c: Channel, r: Run): set<U8> {
    if r.phase != Opening then {r.session}
    else if c.last == Some(r.current) && c.lastOk then {c.lastSession}
    else {}
  }

  /** What was served last while a run is under way, and the session it left open. */
  predicate MayBeLast(c: Channel, r: Run) {
    && (c.last.Some? ==> Before(c.last.value, r.current))
    && match r.phase
       case Resetting => c.last == Some(r.current) && c.lastOk ==> c.open == {}
       case Opening =>
         && c.last.Some? && c.last.value.op == r.op && c.open <= Own(c, r)
         && (c.last.value == r.current || c.last.value.kind == Reset)
       case Asking => true
       case _ => c.last.Some? && c.last.value.op == r.op && c.last.value.kind != Reset && c.open <= Own(c, r)
  }

  predicate RunInv(c: Channel, r: Run, next: nat) {
    && r.current.kind == KindOf(r.phase) && r.current.op == r.op && r.current.serial < next
    && r.current.session == r.session
    && MayBeLast(c, r)
    && forall i :: 0 <= i < |c.queue| ==> MayBeQueued(c.last, r, c.queue[i])
  }

  lemma BeginKeeps(c: Channel, op: nat, phase: Phase, next: nat)
    requires ChannelInv(c, next) && (phase == Resetting || phase == Asking)
    ensures ChannelInv(c, next + 1) && RunInv(c, NewRun(op, phase, 0, next), next + 1)
  {
  }

  lemma SendKeeps(c: Channel, r: Run, next: nat)
    requires ChannelInv(c, next) && RunInv(c, r, next)
    ensures ChannelInv(c.(queue := c.queue + [r.current]), next)
    ensures RunInv(c.(queue := c.queue + [r.current]), r, next)
  {
    SendKeepsChannel(c, r, next);
    var queue := c.queue + [r.current];
    forall i | 0 <= i < |queue| ensures MayBeQueued(c.last, r, queue[i]) {
      if i < |c.queue| {
        assert queue[i] == c.queue[i];
      }
    }
  }

  lemma SendKeepsChannel(c: Channel, r: Run, next: nat)
    requires ChannelInv(c, next) && RunInv(c, r, next)
    ensures ChannelInv(c.(queue := c.queue + [r.current]), next)
  {
    var queue := c.queue + [r.current];
    assert forall i :: 0 <= i < |c.queue| ==> queue[i] == c.queue[i] && MayBeQueued(c.last, r, c.queue[i]);
  }

  /** Requests that are lost, or come twice, leave requests that may be in flight. */
  lemma FewerQueued(c: Channel, r: Run, queue: seq<Request>)
    requires forall i :: 0 <= i < |c.queue| ==> MayBeQueued(c.last, r, c.queue[i])
    requires forall i :: 0 <= i < |queue| ==> queue[i] in c.queue
    ensures forall i :: 0 <= i < |queue| ==> MayBeQueued(c.last, r, queue[i])
  {
    forall i | 0 <= i < |queue| ensures MayBeQueued(c.last, r, queue[i]) {
      assert queue[i] in c.queue;
      var k :| 0 <= k < |c.queue| && c.queue[k] == queue[i];
    }
  }

  /** What may be in flight behind a request that is now served for the first time. */
  lemma ServedNext(c: Channel, r: Run, k: nat, next: nat)
    requires Ordered(c, next) && 0 < k < |c.queue| && c.last != Some(c.queue[0])
    requires MayBeQueued(c.last, r, c.queue[0]) && MayBeQueued(c.last, r, c.queue[k])
    requires r.current.op == r.op && r.current.kind == KindOf(r.phase)
    ensures MayBeQueued(Some(c.queue[0]), r, c.queue[k])
  {
    assert Before(c.queue[0], c.queue[k]);
    if c.last.Some? {
      assert Before(c.last.value, c.queue[0]);
    }
  }

  lemma ServeKeepsRun(c: Channel, r: Run, ok: bool, session: U8, burst: seq<bool>, next: nat)
    requires ChannelInv(c, next) && RunInv(c, r, next)
    ensures RunInv(Serve(c, ok, session, burst), r, next)
  {
    if c.queue != [] {
      var c' := Serve(c, ok, session, burst);
      assert MayBeQueued(c.last, r, c.queue[0]);
      forall i | 0 <= i < |c'.queue| ensures MayBeQueued(c'.last, r, c'.queue[i]) {
        assert c'.queue[i] == c.queue[i + 1];
        if !IsRepeat(c) {
          ServedNext(c, r, i + 1, next);
        }
      }
      ServedLast(c, r, ok, session, burst);
    }
  }

  lemma ServedLast(c: Channel, r: Run, ok: bool, session: U8, burst: seq<bool>)
    requires c.queue != [] && MayBeQueued(c.last, r, c.queue[0]) && MayBeLast(c, r)
    requires r.current.op == r.op && r.current.kind == KindOf(r.phase) && r.current.session == r.session
    requires OpensGuarded(c)
    ensures MayBeLast(Serve(c, ok, session, burst), r)
  {
  }

  lemma LinkKeepsRun(c: Channel, step: LinkStep, r: Run, next: nat)
    requires ChannelInv(c, next) && RunInv(c, r, next)
    ensures RunInv(LinkNext(c, step), r, next)
  {
    hide MayBeQueued;
    match step
    case ServeOldest(ok, session, burst) => ServeKeepsRun(c, r, ok, session, burst, next);
    case _ => FewerQueued(c, r, LinkNext(c, step).queue);
  }

  /** An accepted reply is the reply of the current request, which was served last and alone is in flight. */
  lemma AcceptedWasServed(c: Channel, r: Run, next: nat)
    requires ChannelInv(c, next) && RunInv(c, r, next)
    requires c.replies != [] && c.replies[0].asked == r.current.serial
    ensures c.last == Some(r.current)
    ensures r.current.kind != Use ==> c.lastOk == c.replies[0].ok && c.lastSession == c.replies[0].session
    ensures forall i :: 0 <= i < |c.queue| ==> c.queue[i] == r.current
  {
    assert KnownReply(c.last, c.lastOk, c.lastSession, c.replies[0]);
    forall i | 0 <= i < |c.queue| ensures c.queue[i] == r.current {
      assert MayBeQueued(c.last, r, c.queue[i]);
    }
  }

  lemma AcceptKeeps(c: Channel, r: Run, phase: Phase, next: nat)
    requires ChannelInv(c, next) && RunInv(c, r, next)
    requires c.replies != [] && c.replies[0].asked == r.current.serial && c.replies[0].ok
    requires MayFollow(r.phase, phase)
    ensures var c' := c.(replies := c.replies[1..]);
            && ChannelInv(c', next + 1)
            && RunInv(c', NewRun(r.op, phase, SessionBehind(r, c.replies[0]), next), next + 1)
  {
    AcceptedWasServed(c, r, next);
    FewerReplies(c, c.replies[1..], next);
  }

  lemma DiscardKeeps(c: Channel, r: Run, next: nat)
    requires ChannelInv(c, next) && RunInv(c, r, next) && c.replies != []
    ensures var c' := c.(replies := c.replies[1..]);
            ChannelInv(c', next) && RunInv(c', r, next)
  {
    FewerReplies(c, c.replies[1..], next);
  }

  /** Moving on without a reply, which only an operation using its session does. */
  lemma MoveOnKeeps(c: Channel, r: Run, phase: Phase, next: nat)
    requires ChannelInv(c, next) && RunInv(c, r, next)
    requires r.phase == Using && (phase == Using || phase == Closing)
    ensures ChannelInv(c, next + 1) && RunInv(c, NewRun(r.op, phase, r.session, next), next + 1)
  {
  }

  // ---- All tasks and all vehicles ----

  type Target = Transport.Target
  type TaskId = nat

  datatype Task =
    | Idle
    | Wanting(target: Target, first: Phase)
    | HasMutex(target: Target, first: Phase, mutex: nat)
    | Running(target: Target, mutex: nat, run: Run)

  datatype State = State(
    locks: map<Target, nat>,        // the lock map: one mutex per target
    mutexes: nat,                   // mutexes created so far
    holders: map<nat, TaskId>,      // who holds a mutex
    tasks: map<TaskId, Task>,
    channels: map<Target, Channel>,
    operations: nat,
    serials: nat)

  datatype Step =
    | Ask(task: TaskId, target: Target, first: Phase)   // an operation is called
    | LookUp(task: TaskId)                              // `target_lock`
    | Acquire(task: TaskId)                             // `lock.lock().await`
    | Send(task: TaskId)                                // sends or resends the current request
    | Receive(task: TaskId, next: Phase)                // takes the oldest reply
    | MoveOn(task: TaskId, next: Phase)                 // goes on without a reply
    | Release(task: TaskId)                             // returns, fails or is cancelled
    | LinkMoves(target: Target, step: LinkStep)

  function TaskOf(s: State, t: TaskId): Task {
    if t in s.tasks then s.tasks[t] else Idle
  }

  function ChannelOf(s: State, target: Target): Channel {
    if target in s.channels then s.channels[target] else EMPTY_CHANNEL
  }

  /** A reply is taken for the answer to a request by its number alone, which has 16 bits. */
  predicate Matches(reply: Reply, request: Request) {
    reply.ok && reply.number % 0x1_0000 == request.serial % 0x1_0000
  }

  /** The reply may still be in flight when this request is waiting for one. */
  predicate StillFlying(lim: Limits, reply: Reply, request: Request) {
    request.serial - reply.asked <= lim.lifetime
  }

  predicate Enabled(lim: Limits, s: State, step: Step) {
    match step
    case Ask(t, _, first) => TaskOf(s, t).Idle? && (first == Resetting || first == Asking)
    case LookUp(t) => TaskOf(s, t).Wanting?
    case Acquire(t) => TaskOf(s, t).HasMutex? && TaskOf(s, t).mutex !in s.holders
    case Send(t) => TaskOf(s, t).Running?
    case Receive(t, next) =>
      && TaskOf(s, t).Running? && ChannelOf(s, TaskOf(s, t).target).replies != []
      && MayFollow(TaskOf(s, t).run.phase, next)
      && StillFlying(lim, ChannelOf(s, TaskOf(s, t).target).replies[0], TaskOf(s, t).run.current)
    case MoveOn(t, next) =>
      TaskOf(s, t).Running? && TaskOf(s, t).run.phase == Using && (next == Using || next == Closing)
    case Release(t) => !TaskOf(s, t).Idle?
    case LinkMoves(_, step) => LinkEnabled(lim, step)
  }

  function WithRun(s: State, t: TaskId, run: Run): State
    requires TaskOf(s, t).Running?
  {
    s.(tasks := s.tasks[t := TaskOf(s, t).(run := run)], serials := s.serials + 1)
  }

  function WithChannel(s: State, target: Target, c: Channel): State {
    s.(channels := s.channels[target := c])
  }

  function Next(lim: Limits, s: State, step: Step): State
    requires Enabled(lim, s, step)
  {
    match step
    case Ask(t, target, first) => s.(tasks := s.tasks[t := Wanting(target, first)])
    case LookUp(t) =>
      var task := TaskOf(s, t);
      if task.target in s.locks
      then s.(tasks := s.tasks[t := HasMutex(task.target, task.first, s.locks[task.target])])
      else s.(locks := s.locks[task.target := s.mutexes], mutexes := s.mutexes + 1,
              tasks := s.tasks[t := HasMutex(task.target, task.first, s.mutexes)])
    case Acquire(t) =>
      var task := TaskOf(s, t);
      s.(holders := s.holders[task.mutex := t],
         tasks := s.tasks[t := Running(task.target, task.mutex, NewRun(s.operations, task.first, 0, s.serials))],
         operations := s.operations + 1, serials := s.serials + 1)
    case Send(t) =>
      var task := TaskOf(s, t);
      var c := ChannelOf(s, task.target);
      WithChannel(s, task.target, c.(queue := c.queue + [task.run.current]))
    case Receive(t, next) =>
      var task := TaskOf(s, t);
      var c := ChannelOf(s, task.target);
      var s' := WithChannel(s, task.target, c.(replies := c.replies[1..]));
      if Matches(c.replies[0], task.run.current)
      then WithRun(s', t, NewRun(task.run.op, next, SessionBehind(task.run, c.replies[0]), s.serials))
      else s'
    case MoveOn(t, next) =>
      WithRun(s, t, NewRun(TaskOf(s, t).run.op, next, TaskOf(s, t).run.session, s.serials))
    case Release(t) =>
      var task := TaskOf(s, t);
      s.(holders := if task.Running? then s.holders - {task.mutex} else s.holders, tasks := s.tasks[t := Idle])
    case LinkMoves(target, step) => WithChannel(s, target, LinkNext(ChannelOf(s, target), step))
  }

  /** The lock map: entries are added on first use. */
  class TargetLocks {
    var locks: map<Target, nat>
    var mutexes: nat

    /** Stands for the map in a state of the system. */
    predicate Shows(s: State)
      reads this
    {
      locks == s.locks && mutexes == s.mutexes
    }

    method TargetLock(target: Target, ghost lim: Limits, ghost s: State, ghost t: TaskId) returns (mutex: nat)
      requires Shows(s) && TaskOf(s, t).Wanting? && TaskOf(s, t).target == target
      modifies this
      ensures Shows(Next(lim, s, LookUp(t)))
      ensures TaskOf(Next(lim, s, LookUp(t)), t) == HasMutex(target, TaskOf(s, t).first, mutex)
    {
      if target !in locks {
        locks := locks[target := mutexes];
        mutexes := mutexes + 1;
      }
      mutex := locks[target];
    }
  }

  const START := State(map[], 0, map[], map[], map[], 0, 0)

  // ---- Invariants ----

  /** A task knows the mutex of its target, and holds it while it runs. */
  predicate LocksInv(s: State) {
    forall t :: t in s.tasks ==>
      match s.tasks[t]
      case HasMutex(target, first, mutex) =>
        target in s.locks && s.locks[target] == mutex && (first == Resetting || first == Asking)
      case Running(target, mutex, _) =>
        target in s.locks && s.locks[target] == mutex && mutex in s.holders && s.holders[mutex] == t
      case Wanting(_, first) => first == Resetting || first == Asking
      case Idle => true
  }

  predicate ChannelsInv(lim: Limits, s: State) {
    forall target :: target in s.channels ==>
      ChannelInv(s.channels[target], s.serials) && Numbered(s.channels[target], lim.replies)
  }

  predicate RunsInv(s: State) {
    forall t :: t in s.tasks && s.tasks[t].Running? ==>
      RunInv(ChannelOf(s, s.tasks[t].target), s.tasks[t].run, s.serials)
  }

  predicate Inv(lim: Limits, s: State) {
    LocksInv(s) && ChannelsInv(lim, s) && RunsInv(s)
  }

  lemma ChannelOfInv(lim: Limits, s: State, target: Target)
    requires ChannelsInv(lim, s)
    ensures ChannelInv(ChannelOf(s, target), s.serials) && Numbered(ChannelOf(s, target), lim.replies)
  {
  }

  /** Two running tasks on one target are the same task. */
  lemma Exclusive(s: State, a: TaskId, b: TaskId)
    requires LocksInv(s) && TaskOf(s, a).Running? && TaskOf(s, b).Running?
    requires TaskOf(s, a).target == TaskOf(s, b).target
    ensures a == b
  {
  }

  lemma NextKeepsLocks(lim: Limits, s: State, step: Step)
    requires LocksInv(s) && Enabled(lim, s, step)
    ensures LocksInv(Next(lim, s, step))
  {
  }

  lemma MonotoneNext(c: Channel, r: Run, a: nat, b: nat)
    requires a <= b
    ensures ChannelInv(c, a) ==> ChannelInv(c, b)
    ensures RunInv(c, r, a) ==> RunInv(c, r, b)
  {
  }

  /** A step that leaves every other target's channel and every other task's run alone keeps their invariants. */
  lemma OthersKeep(lim: Limits, s: State, s': State, target: Target, t: TaskId)
    requires Inv(lim, s) && LocksInv(s')
    requires s.serials <= s'.serials && TaskOf(s', t).Running? && TaskOf(s', t).target == target
    requires forall x :: x != target ==> ChannelOf(s', x) == ChannelOf(s, x)
    requires forall u :: u != t ==> TaskOf(s', u) == TaskOf(s, u)
    requires ChannelInv(ChannelOf(s', target), s'.serials) && Numbered(ChannelOf(s', target), lim.replies)
    requires RunInv(ChannelOf(s', target), TaskOf(s', t).run, s'.serials)
    ensures Inv(lim, s')
  {
    forall x | x in s'.channels
      ensures ChannelInv(s'.channels[x], s'.serials) && Numbered(s'.channels[x], lim.replies)
    {
      assert s'.channels[x] == ChannelOf(s', x);
      if x != target {
        ChannelOfInv(lim, s, x);
        MonotoneNext(ChannelOf(s, x), TaskOf(s', t).run, s.serials, s'.serials);
      }
    }
    forall u | u in s'.tasks && s'.tasks[u].Running?
      ensures RunInv(ChannelOf(s', s'.tasks[u].target), s'.tasks[u].run, s'.serials)
    {
      assert s'.tasks[u] == TaskOf(s', u);
      if u != t {
        assert TaskOf(s, u) == s'.tasks[u];
        if s'.tasks[u].target == target {
          Exclusive(s', u, t);
        }
        MonotoneNext(ChannelOf(s, s'.tasks[u].target), s'.tasks[u].run, s.serials, s'.serials);
      }
    }
  }

  /** A step that changes no channel and starts no request. */
  lemma QuietKeeps(lim: Limits, s: State, s': State)
    requires Inv(lim, s) && LocksInv(s') && s'.channels == s.channels && s'.serials == s.serials
    requires forall u :: TaskOf(s', u).Running? ==> TaskOf(s, u) == TaskOf(s', u)
    ensures Inv(lim, s')
  {
    forall u | u in s'.tasks && s'.tasks[u].Running?
      ensures RunInv(ChannelOf(s', s'.tasks[u].target), s'.tasks[u].run, s'.serials)
    {
      assert TaskOf(s, u) == s'.tasks[u];
    }
  }

  lemma LinkMovesKeeps(lim: Limits, s: State, target: Target, step: LinkStep)
    requires Inv(lim, s) && LinkEnabled(lim, step)
    ensures Inv(lim, Next(lim, s, LinkMoves(target, step)))
  {
    var s' := Next(lim, s, LinkMoves(target, step));
    ChannelOfInv(lim, s, target);
    LinkKeepsChannel(ChannelOf(s, target), step, s.serials);
    LinkKeepsNumbers(lim, ChannelOf(s, target), step);
    forall u | u in s'.tasks && s'.tasks[u].Running?
      ensures RunInv(ChannelOf(s', s'.tasks[u].target), s'.tasks[u].run, s'.serials)
    {
      if s'.tasks[u].target == target {
        LinkKeepsRun(ChannelOf(s, target), step, s.tasks[u].run, s.serials);
      }
    }
  }

  /**
   Limits under which a reply that is taken for an answer is one: single replies that do not outlive
   a round of the 16-bit counter, or replies that do not outlive the next draw.
   */
  predicate Faithful(lim: Limits) {
    lim.lifetime == 0 || (lim.replies <= 1 && lim.lifetime < 0x1_0000)
  }

  lemma MatchesItsRequest(lim: Limits, c: Channel, r: Run, next: nat)
    requires Faithful(lim) && ChannelInv(c, next) && RunInv(c, r, next) && Numbered(c, lim.replies)
    requires c.replies != [] && Matches(c.replies[0], r.current) && StillFlying(lim, c.replies[0], r.current)
    ensures c.replies[0].asked == r.current.serial
  {
    var reply := c.replies[0];
    assert KnownReply(c.last, c.lastOk, c.lastSession, reply) && MayBeNumbered(reply, lim.replies);
    assert Before(c.last.value, r.current);
    if lim.replies <= 1 {
      assert reply.number == reply.asked;
    }
  }

  lemma ReceiveKeeps(lim: Limits, s: State, t: TaskId, next: Phase)
    requires Faithful(lim) && Inv(lim, s) && Enabled(lim, s, Receive(t, next))
    ensures Inv(lim, Next(lim, s, Receive(t, next)))
  {
    hide ChannelInv, RunInv, NewRun;
    NextKeepsLocks(lim, s, Receive(t, next));
    var task := TaskOf(s, t);
    var c := ChannelOf(s, task.target);
    ChannelOfInv(lim, s, task.target);
    DiscardKeeps(c, task.run, s.serials);
    assert Numbered(c.(replies := c.replies[1..]), lim.replies);
    if Matches(c.replies[0], task.run.current) {
      MatchesItsRequest(lim, c, task.run, s.serials);
      AcceptKeeps(c, task.run, next, s.serials);
    }
    OthersKeep(lim, s, Next(lim, s, Receive(t, next)), task.target, t);
  }

  lemma AcquireKeeps(lim: Limits, s: State, t: TaskId)
    requires Inv(lim, s) && Enabled(lim, s, Acquire(t))
    ensures Inv(lim, Next(lim, s, Acquire(t)))
  {
    hide ChannelInv, RunInv, NewRun;
    NextKeepsLocks(lim, s, Acquire(t));
    var task := TaskOf(s, t);
    ChannelOfInv(lim, s, task.target);
    BeginKeeps(ChannelOf(s, task.target), s.operations, task.first, s.serials);
    OthersKeep(lim, s, Next(lim, s, Acquire(t)), task.target, t);
  }

  lemma SendStepKeeps(lim: Limits, s: State, t: TaskId)
    requires Inv(lim, s) && Enabled(lim, s, Send(t))
    ensures Inv(lim, Next(lim, s, Send(t)))
  {
    hide ChannelInv, RunInv;
    NextKeepsLocks(lim, s, Send(t));
    var task := TaskOf(s, t);
    ChannelOfInv(lim, s, task.target);
    SendKeeps(ChannelOf(s, task.target), task.run, s.serials);
    OthersKeep(lim, s, Next(lim, s, Send(t)), task.target, t);
  }

  lemma MoveOnStepKeeps(lim: Limits, s: State, t: TaskId, next: Phase)
    requires Inv(lim, s) && Enabled(lim, s, MoveOn(t, next))
    ensures Inv(lim, Next(lim, s, MoveOn(t, next)))
  {
    hide ChannelInv, RunInv, NewRun;
    NextKeepsLocks(lim, s, MoveOn(t, next));
    var task := TaskOf(s, t);
    ChannelOfInv(lim, s, task.target);
    MoveOnKeeps(ChannelOf(s, task.target), task.run, next, s.serials);
    OthersKeep(lim, s, Next(lim, s, MoveOn(t, next)), task.target, t);
  }

  lemma NextKeepsInv(lim: Limits, s: State, step: Step)
    requires Faithful(lim) && Inv(lim, s) && Enabled(lim, s, step)
    ensures Inv(lim, Next(lim, s, step))
  {
    match step
    case LinkMoves(target, linkStep) => LinkMovesKeeps(lim, s, target, linkStep);
    case Receive(t, next) => ReceiveKeeps(lim, s, t, next);
    case Acquire(t) => AcquireKeeps(lim, s, t);
    case Send(t) => SendStepKeeps(lim, s, t);
    case MoveOn(t, next) => MoveOnStepKeeps(lim, s, t, next);
    case _ => QuietStepKeeps(lim, s, step);
  }

  lemma QuietStepKeeps(lim: Limits, s: State, step: Step)
    requires Inv(lim, s) && Enabled(lim, s, step) && (step.Ask? || step.LookUp? || step.Release?)
    ensures Inv(lim, Next(lim, s, step))
  {
    hide ChannelInv, RunInv;
    NextKeepsLocks(lim, s, step);
    QuietKeeps(lim, s, Next(lim, s, step));
  }

  // ---- Every interleaving ----

  ghost predicate Reaches(lim: Limits, from: State, steps: seq<Step>, end: State)
    decreases |steps|
  {
    if steps == [] then from == end
    else Enabled(lim, from, steps[0]) && Reaches(lim, Next(lim, from, steps[0]), steps[1..], end)
  }

  lemma {:induction false} ReachesKeepsLocks(lim: Limits, from: State, steps: seq<Step>, end: State)
    requires LocksInv(from) && Reaches(lim, from, steps, end)
    ensures LocksInv(end)
    ensures forall target :: target in from.locks ==> target in end.locks && end.locks[target] == from.locks[target]
    decreases |steps|
  {
    hide LocksInv;
    if steps != [] {
      NextKeepsLocks(lim, from, steps[0]);
      ReachesKeepsLocks(lim, Next(lim, from, steps[0]), steps[1..], end);
    }
  }

  lemma {:induction false} ReachesKeepsInv(lim: Limits, from: State, steps: seq<Step>, end: State)
    requires Faithful(lim) && Inv(lim, from) && Reaches(lim, from, steps, end)
    ensures Inv(lim, end)
    decreases |steps|
  {
    hide Inv;
    if steps != [] {
      NextKeepsInv(lim, from, steps[0]);
      ReachesKeepsInv(lim, Next(lim, from, steps[0]), steps[1..], end);
    }
  }

  ghost predicate Reachable(lim: Limits, s: State) {
    exists steps: seq<Step> :: Reaches(lim, START, steps, s)
  }

  lemma ReachableInv(lim: Limits, s: State)
    requires Faithful(lim) && Reachable(lim, s)
    ensures Inv(lim, s)
  {
    var steps: seq<Step> :| Reaches(lim, START, steps, s);
    ReachesKeepsInv(lim, START, steps, s);
  }

  /** Operations on one target never overlap, in any interleaving, however replies are taken. */
  lemma NeverOverlap(lim: Limits, s: State, a: TaskId, b: TaskId)
    requires Reachable(lim, s) && a != b && TaskOf(s, a).Running? && TaskOf(s, b).Running?
    ensures TaskOf(s, a).target != TaskOf(s, b).target
  {
    var steps: seq<Step> :| Reaches(lim, START, steps, s);
    ReachesKeepsLocks(lim, START, steps, s);
    if TaskOf(s, a).target == TaskOf(s, b).target {
      Exclusive(s, a, b);
    }
  }

  /** The mutex of a target is never replaced once it is in the map. */
  lemma LockNeverReplaced(lim: Limits, s: State, steps: seq<Step>, end: State, target: Target)
    requires Reachable(lim, s) && Reaches(lim, s, steps, end) && target in s.locks
    ensures target in end.locks && end.locks[target] == s.locks[target]
  {
    var before: seq<Step> :| Reaches(lim, START, before, s);
    ReachesKeepsLocks(lim, START, before, s);
    ReachesKeepsLocks(lim, s, steps, end);
  }

  // ---- What faithful limits give ----

  /** Each vehicle has at most one open session. */
  lemma AtMostOneSession(lim: Limits, s: State, target: Target)
    requires Faithful(lim) && Reachable(lim, s)
    ensures |ChannelOf(s, target).open| <= 1
  {
    ReachableInv(lim, s);
    ChannelOfInv(lim, s, target);
  }

  predicate InSession(run: Run) {
    run.phase == Opening || run.phase == Using || run.phase == Closing
  }

  /** The next request the vehicle takes is no reset it would execute. */
  predicate NoResetAhead(c: Channel) {
    c.queue != [] && c.queue[0].kind == Reset ==> IsRepeat(c)
  }

  /**
   A vehicle never executes a reset while a task is opening, using or closing a session there:
   the only resets still in flight are repeats of the last request served. The open session, if
   any, is the one that operation was given.
   */
  lemma ResetHitsNobody(lim: Limits, s: State, t: TaskId)
    requires Faithful(lim) && Reachable(lim, s) && TaskOf(s, t).Running? && InSession(TaskOf(s, t).run)
    ensures var c := ChannelOf(s, TaskOf(s, t).target);
            && c.open <= Own(c, TaskOf(s, t).run) && NoResetAhead(c)
            && forall i :: 0 <= i < |c.queue| && c.queue[i].kind == Reset ==> c.last == Some(c.queue[i])
  {
    ReachableInv(lim, s);
    var c, r := ChannelOf(s, TaskOf(s, t).target), TaskOf(s, t).run;
    assert RunInv(c, r, s.serials);
    forall i | 0 <= i < |c.queue| && c.queue[i].kind == Reset ensures c.last == Some(c.queue[i]) {
      assert MayBeQueued(c.last, r, c.queue[i]);
    }
  }

  /**
   While an operation opens, uses or closes a session, every request in flight to the vehicle, and
   the last one it served, is that operation's own. So no other operation's termination, whatever
   session number it names, reaches the vehicle meanwhile.
   */
  lemma OnlyOwnRequests(lim: Limits, s: State, t: TaskId)
    requires Faithful(lim) && Reachable(lim, s) && TaskOf(s, t).Running? && InSession(TaskOf(s, t).run)
    ensures var c := ChannelOf(s, TaskOf(s, t).target);
            && c.last.Some? && c.last.value.op == TaskOf(s, t).run.op
            && forall i :: 0 <= i < |c.queue| ==> c.queue[i].op == TaskOf(s, t).run.op
  {
    ReachableInv(lim, s);
    assert RunInv(ChannelOf(s, TaskOf(s, t).target), TaskOf(s, t).run, s.serials);
  }

  /** No request that reaches the vehicle opens or closes a session while one is in use. */
  lemma SessionStaysOpen(lim: Limits, s: State, t: TaskId, ok: bool, session: U8, burst: seq<bool>)
    requires Faithful(lim) && Reachable(lim, s) && TaskOf(s, t).Running? && TaskOf(s, t).run.phase == Using
    ensures var c := ChannelOf(s, TaskOf(s, t).target); Serve(c, ok, session, burst).open == c.open
  {
    ReachableInv(lim, s);
    var c := ChannelOf(s, TaskOf(s, t).target);
    assert RunInv(c, TaskOf(s, t).run, s.serials);
    if c.queue != [] {
      assert MayBeQueued(c.last, TaskOf(s, t).run, c.queue[0]);
    }
  }

  /** At most one session per vehicle, and no reset about to be executed in one. */
  predicate SafeState(s: State) {
    && (forall target :: target in s.channels ==> |s.channels[target].open| <= 1)
    && (forall t :: t in s.tasks && s.tasks[t].Running? && InSession(s.tasks[t].run) ==>
          NoResetAhead(ChannelOf(s, s.tasks[t].target)))
  }

  ghost predicate Safe(lim: Limits) {
    forall s :: Reachable(lim, s) ==> SafeState(s)
  }

  lemma FaithfulIsSafe(lim: Limits)
    requires Faithful(lim)
    ensures Safe(lim)
  {
    forall s | Reachable(lim, s) ensures SafeState(s) {
      forall target | target in s.channels ensures |s.channels[target].open| <= 1 {
        AtMostOneSession(lim, s, target);
      }
      forall t | t in s.tasks && s.tasks[t].Running? && InSession(s.tasks[t].run)
        ensures NoResetAhead(ChannelOf(s, s.tasks[t].target))
      {
        ResetHitsNobody(lim, s, t);
      }
    }
  }

  // ---- Runs in which a reply is taken for another request's ----

  lemma {:induction false} ReachesThen(lim: Limits, from: State, steps: seq<Step>, mid: State, step: Step)
    requires Reaches(lim, from, steps, mid) && Enabled(lim, mid, step)
    ensures Reaches(lim, from, steps + [step], Next(lim, mid, step))
    decreases |steps|
  {
    hide Enabled, Next;
    if steps == [] {
      assert Reaches(lim, Next(lim, mid, step), [step][1..], Next(lim, mid, step));
    } else {
      assert (steps + [step])[1..] == steps[1..] + [step];
      ReachesThen(lim, Next(lim, from, steps[0]), steps[1..], mid, step);
    }
  }

  lemma Then(lim: Limits, s: State, step: Step) returns (s': State)
    requires Reachable(lim, s) && Enabled(lim, s, step)
    ensures s' == Next(lim, s, step) && Reachable(lim, s')
  {
    s' := Next(lim, s, step);
    var steps: seq<Step> :| Reaches(lim, START, steps, s);
    ReachesThen(lim, START, steps, s, step);
  }

  const VEHICLE := Transport.Target(1, 1)

  /** One task has the vehicle's lock and is sending its current request. */
  ghost predicate Driving(lim: Limits, s: State, r: Run, c: Channel) {
    && Reachable(lim, s) && ChannelOf(s, VEHICLE) == c && s.serials == r.current.serial + 1
    && VEHICLE in s.locks && s.holders.Keys == {s.locks[VEHICLE]}
    && TaskOf(s, 0) == Running(VEHICLE, s.locks[VEHICLE], r)
  }

  /** No task holds a lock; the next number to be drawn is `next`. */
  ghost predicate Parked(lim: Limits, s: State, next: nat, c: Channel) {
    Reachable(lim, s) && ChannelOf(s, VEHICLE) == c && s.serials == next && s.holders == map[] && TaskOf(s, 0).Idle?
  }

  lemma Starts(lim: Limits, s: State, next: nat, c: Channel, first: Phase) returns (s': State, op: nat)
    requires Parked(lim, s, next, c) && (first == Resetting || first == Asking)
    ensures Driving(lim, s', NewRun(op, first, 0, next), c)
  {
    hide Reachable;
    op := s.operations;
    var s1 := Then(lim, s, Ask(0, VEHICLE, first));
    var s2 := Then(lim, s1, LookUp(0));
    s' := Then(lim, s2, Acquire(0));
  }

  lemma Stops(lim: Limits, s: State, r: Run, c: Channel) returns (s': State)
    requires Driving(lim, s, r, c)
    ensures Parked(lim, s', r.current.serial + 1, c)
  {
    s' := Then(lim, s, Release(0));
    assert s'.holders.Keys == {};
  }

  lemma Sends(lim: Limits, s: State, r: Run, c: Channel) returns (s': State)
    requires Driving(lim, s, r, c)
    ensures Driving(lim, s', r, c.(queue := c.queue + [r.current]))
  {
    s' := Then(lim, s, Send(0));
  }

  lemma Moves(lim: Limits, s: State, r: Run, c: Channel, step: LinkStep) returns (s': State)
    requires Driving(lim, s, r, c) && LinkEnabled(lim, step)
    ensures Driving(lim, s', r, LinkNext(c, step))
  {
    s' := Then(lim, s, LinkMoves(VEHICLE, step));
  }

  lemma Takes(lim: Limits, s: State, r: Run, c: Channel, next: Phase) returns (s': State)
    requires Driving(lim, s, r, c) && c.replies != [] && MayFollow(r.phase, next)
    requires Matches(c.replies[0], r.current) && StillFlying(lim, c.replies[0], r.current)
    ensures Driving(lim, s', NewRun(r.op, next, SessionBehind(r, c.replies[0]), r.current.serial + 1),
                    c.(replies := c.replies[1..]))
  {
    s' := Then(lim, s, Receive(0, next));
  }

  /** The current request is sent, served and answered. */
  lemma Asks(lim: Limits, s: State, r: Run, c: Channel, session: U8) returns (s': State)
    requires Driving(lim, s, r, c) && c.queue == [] && r.current.kind != Use
    requires c.last.Some? ==> c.last.value.serial < r.current.serial
    ensures Driving(lim, s', r, Channel([], c.replies + [Reply(r.current.serial, r.current.serial, true, session)],
                                        Some(r.current), true, session, Executed(c.open, r.current, true, session)))
  {
    var s1 := Sends(lim, s, r, c);
    var c1 := c.(queue := c.queue + [r.current]);
    assert c1.queue == [r.current] && [r.current][1..] == [];
    s' := Moves(lim, s1, r, c1, ServeOldest(true, session, []));
  }

  /** The number of a request can be drawn without anything else happening. */
  lemma {:induction false} Draws(lim: Limits, s: State, next: nat, c: Channel, k: nat) returns (s': State)
    requires Parked(lim, s, next, c)
    ensures Parked(lim, s', next + k, c)
    decreases k
  {
    if k == 0 {
      s' := s;
    } else {
      var s1, op := Starts(lim, s, next, c, Asking);
      var s2 := Stops(lim, s1, NewRun(op, Asking, 0, next), c);
      s' := Draws(lim, s2, next + 1, c, k - 1);
    }
  }

  /** A reset answered by a stale reply is lost, and the open behind it gives the vehicle a second session. */
  lemma StaleOpensSecond(lim: Limits, s: State, next: nat, c: Channel) returns (s': State)
    requires Parked(lim, s, next, c) && c.queue == [] && |c.replies| == 1 && c.open == {0}
    requires c.last.Some? && c.last.value.serial < next
    requires c.replies[0].ok && c.replies[0].number % 0x1_0000 == next % 0x1_0000
    requires next - c.replies[0].asked <= lim.lifetime
    ensures Reachable(lim, s') && !SafeState(s')
  {
    hide Driving, Parked, Reachable, SafeState, Executed;
    var s1, op := Starts(lim, s, next, c, Resetting);
    var reset := NewRun(op, Resetting, 0, next);
    var s2 := Sends(lim, s1, reset, c);
    var c2 := c.(queue := c.queue + [reset.current]);
    assert c2.queue[1..] == [];
    var s3 := Moves(lim, s2, reset, c2, LoseRequest);
    var s4 := Takes(lim, s3, reset, c, Opening);
    var open := NewRun(op, Opening, 0, next + 1);
    assert c.replies[1..] == [];
    s' := Asks(lim, s4, open, c.(replies := []), 1);
    OpensOne(c.open, open.current, 1);
    assert [] + [Reply(next + 1, next + 1, true, 1)] == [Reply(next + 1, next + 1, true, 1)];
    TwoSessionsUnsafe(lim, s', open,
      Channel([], [Reply(next + 1, next + 1, true, 1)], Some(open.current), true, 1, {0, 1}));
  }

  lemma OpensOne(open: set<U8>, r: Request, session: U8)
    requires r.kind == Open
    ensures Executed(open, r, true, session) == open + {session}
  {
  }

  lemma TwoSessionsUnsafe(lim: Limits, s: State, r: Run, c: Channel)
    requires Driving(lim, s, r, c) && c.open == {0, 1}
    ensures Reachable(lim, s) && !SafeState(s)
  {
    assert |{0, 1}| == 2;
  }

  lemma StartIsParked(lim: Limits)
    ensures Parked(lim, START, 0, EMPTY_CHANNEL)
  {
    assert Reaches(lim, START, [], START);
  }

  /** A session is opened; the reply to its open may come twice. */
  lemma Opens(lim: Limits, again: bool) returns (s: State, op: nat, c: Channel)
    ensures Driving(lim, s, NewRun(op, Using, 0, 2), c)
    ensures c.queue == [] && c.open == {0} && c.last.Some? && c.last.value.serial == 1 && c.last.value.kind == Open
    ensures c.replies == if again then [Reply(1, 1, true, 0)] else []
  {
    hide Driving, Reachable;
    StartIsParked(lim);
    var s1, o := Starts(lim, START, 0, EMPTY_CHANNEL, Resetting);
    op := o;
    var reset := NewRun(op, Resetting, 0, 0);
    var s2 := Asks(lim, s1, reset, EMPTY_CHANNEL, 0);
    var c2 := Channel([], [Reply(0, 0, true, 0)], Some(reset.current), true, 0, {});
    assert [] + [Reply(0, 0, true, 0)] == c2.replies;
    var s3 := Takes(lim, s2, reset, c2, Opening);
    var open := NewRun(op, Opening, 0, 1);
    assert c2.replies[1..] == [];
    var s4 := Asks(lim, s3, open, c2.(replies := []), 0);
    var reply := Reply(1, 1, true, 0);
    assert [] + [reply] == [reply];
    c := Channel([], [reply], Some(open.current), true, 0, {0});
    assert Executed({}, open.current, true, 0) == {0};
    if again {
      s4 := Moves(lim, s4, open, c, RepeatReply);
      c := c.(replies := [reply] + [reply]);
    }
    s := Takes(lim, s4, open, c, Using);
    c := c.(replies := c.replies[1..]);
  }

  lemma ServesBurst(c: Channel, r: Request)
    requires c.queue == [] && c.replies == [] && r.kind == Use && r.serial == 2 && r.session == 0
    ensures Serve(c.(queue := [r]), true, 0, [true, true])
         == c.(replies := [Reply(2, 2, true, 0), Reply(2, 3, true, 0)], last := Some(r))
  {
    assert [r][1..] == [];
    assert Burst(r, [true, true]) == [Reply(2, 2, true, 0), Reply(2, 3, true, 0)];
  }

  /**
   A burst read brings replies 2 and 3; the operation ends without closing its session, as it does
   on a malformed chunk; and the next operation's reset, numbered 3, is answered by the second one.
   */
  lemma BurstAnswersReset(lim: Limits) returns (s: State)
    requires lim.replies > 1 && lim.lifetime > 0
    ensures Reachable(lim, s) && !SafeState(s)
  {
    hide Driving, Parked, Reachable, SafeState, Serve, Burst;
    var s0, op, c := Opens(lim, false);
    var run := NewRun(op, Using, 0, 2);
    var s1 := Sends(lim, s0, run, c);
    var c1 := c.(queue := c.queue + [run.current]);
    assert c1.queue == [run.current] && c1.queue[1..] == [];
    var s2 := Moves(lim, s1, run, c1, ServeOldest(true, 0, [true, true]));
    var replies := [Reply(2, 2, true, 0), Reply(2, 3, true, 0)];
    var c2 := c.(replies := replies, last := Some(run.current));
    ServesBurst(c, run.current);
    var s3 := Moves(lim, s2, run, c2, LoseReply);
    var c3 := c2.(replies := [replies[1]]);
    assert replies[1..] == [replies[1]];
    var s4 := Stops(lim, s3, run, c3);
    s := StaleOpensSecond(lim, s4, 3, c3);
  }

  /** A repeated reply that outlives a whole round of the counter answers a reset with the same number. */
  lemma OldReplyAnswersReset(lim: Limits) returns (s: State)
    requires lim.lifetime >= 0x1_0000
    ensures Reachable(lim, s) && !SafeState(s)
  {
    hide Driving, Parked, Reachable, SafeState;
    var s0, op, c := Opens(lim, true);
    var s1 := Stops(lim, s0, NewRun(op, Using, 0, 2), c);
    var s2 := Draws(lim, s1, 3, c, 0x1_0001 - 3);
    s := StaleOpensSecond(lim, s2, 0x1_0001, c);
  }

  /**
   Exactly when the lock and the reset keep sessions apart: when no reply outlives the draw of
   another number, or when every request brings at most one reply, so no burst is read, and none
   outlives a round of the counter.
   */
  lemma SafeExactly(lim: Limits)
    ensures Safe(lim) <==> lim.lifetime == 0 || (lim.replies <= 1 && lim.lifetime < 0x1_0000)
  {
    if Faithful(lim) {
      FaithfulIsSafe(lim);
    } else if lim.replies > 1 {
      var s := BurstAnswersReset(lim);
    } else {
      var s := OldReplyAnswersReset(lim);
    }
  }
}
