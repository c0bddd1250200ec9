/**
 Arm-gated recording (tlog/writer.rs): wait for an arm from the expected origin, record what the
 hub broadcasts, stop at the disarm, and start over.
 */
module TlogWriter {
  import opened Wrappers
  import opened Bytes
  import opened Tlog

  const HEARTBEAT_ID: U32 := 0
  const BASE_MODE_BYTE := 6
  const SAFETY_ARMED: U8 := 128
  const HEARTBEAT_LEN := 9

  datatype Message = Message(system: U8, component: U8, id: U32, payload: seq<U8>, packet: seq<U8>)

  datatype ArmState = Disarmed | Armed

  /** The armed bit of a base mode, the highest of its eight. */
  predicate ArmedBit(baseMode: U8) {
    baseMode / SAFETY_ARMED % 2 == 1
  }

  /** `check_arm_state`: the byte where base_mode is, or empty flags when the payload stops before it. */
  function CheckArmState(m: Message): Option<ArmState> {
    if m.id != HEARTBEAT_ID then None
    else
      var baseMode := if BASE_MODE_BYTE < |m.payload| then m.payload[BASE_MODE_BYTE] else 0;
      Some(if ArmedBit(baseMode) then Armed else Disarmed)
  }

  /** A HEARTBEAT payload with the trailing zeros that MAVLink 2 cuts off put back. */
  function ZeroExtended(payload: seq<U8>): seq<U8> {
    payload + Zeros(Max(0, HEARTBEAT_LEN - |payload|))
  }

  /** Fields in wire order: custom_mode (4 bytes), type, autopilot, base_mode, ... */
  datatype Heartbeat = Heartbeat(
    customMode: U32, mavType: U8, autopilot: U8, baseMode: U8, systemStatus: U8, version: U8)

  function ParseHeartbeat(payload: seq<U8>): Heartbeat {
    var p := ZeroExtended(payload);
    Heartbeat(FromLe32(p[0], p[1], p[2], p[3]), p[4], p[5], p[6], p[7], p[8])
  }

  /** The shortcut agrees with parsing the whole heartbeat, truncated or not. */
  lemma ArmStateIsParsed(m: Message)
    ensures CheckArmState(m)
         == if m.id == HEARTBEAT_ID
            then Some(if ArmedBit(ParseHeartbeat(m.payload).baseMode) then Armed else Disarmed)
            else None
  {
  }

  // ---- The recorder ----

  datatype Condition = Always | WhileArmed(component: U8)

  datatype Ending = Ongoing | DisarmSeen | HubClosed | WriteFailed

  /**
   A log file: the messages recorded with their timestamps, the bytes of a record whose writing
   failed, how it ended, and when (in events of the run) its arm, first byte and end were.
   */
  datatype File = File(
    messages: seq<(U64, Message)>, torn: seq<U8>, ending: Ending,
    armedAt: nat, startedAt: nat, endedAt: nat)

  datatype Mode = WaitingForArm | Creating | Writing

  /** `systemId` is the latch; `armedAt` is when the gate was last opened. */
  datatype State = State(systemId: Option<U8>, mode: Mode, armedAt: nat, files: seq<File>, clock: nat)

  /** Everything the run loop meets, in order. */
  datatype Event =
    | Arrives(message: Message, timestamp: U64, allowed: bool)  // `allowed`: no callback refused it
    | ArrivesAndFails(message: Message, written: seq<U8>)       // writing its record failed part-way
    | Lagged
    | Closed
    | FileCreated
    | CreationFails

  function StartMode(cond: Condition): Mode {
    if cond.WhileArmed? then WaitingForArm else Creating
  }

  function Start(cond: Condition, expected: Option<U8>): State {
    State(expected, StartMode(cond), 0, [], 0)
  }

  predicate FromOrigin(m: Message, system: Option<U8>, component: U8) {
    system == Some(m.system) && m.component == component
  }

  /** `wait_for_arm` on one message: latch the system if there is none yet, and open the gate on a match. */
  function Await(cond: Condition, s: State, m: Message): State {
    if cond.Always? || m.component != cond.component || CheckArmState(m) != Some(Armed) then s
    else
      var system := if s.systemId.Some? then s.systemId.value else m.system;
      var s' := s.(systemId := Some(system));
      if m.system == system then s'.(mode := Creating, armedAt := s.clock) else s'
  }

  function LastFile(s: State): File
    requires s.files != []
  {
    s.files[|s.files| - 1]
  }

  function WithLast(s: State, f: File): State
    requires s.files != []
  {
    s.(files := s.files[|s.files| - 1 := f])
  }

  /** The last file is closed as `f` says, and the recorder is disarmed. */
  function EndFile(cond: Condition, s: State, f: File, ending: Ending): State
    requires s.files != []
  {
    WithLast(s, f.(ending := ending, endedAt := s.clock)).(mode := StartMode(cond))
  }

  /** A disarm heartbeat from the gated origin. */
  predicate StopsRecording(cond: Condition, system: Option<U8>, m: Message) {
    cond.WhileArmed? && FromOrigin(m, system, cond.component) && CheckArmState(m) == Some(Disarmed)
  }

  /** `handle_client` on one message: write it, and only then look whether it is the disarm. */
  function Write(cond: Condition, s: State, m: Message, timestamp: U64): State
    requires s.files != []
  {
    var f := LastFile(s);
    var f' := f.(messages := f.messages + [(timestamp, m)]);
    if StopsRecording(cond, s.systemId, m) then EndFile(cond, s, f', DisarmSeen) else WithLast(s, f')
  }

  /** What an event does in the current mode; nobody listens to the hub while a file is created. */
  function Handle(cond: Condition, s: State, e: Event): State {
    match s.mode
    case WaitingForArm => if e.Arrives? then Await(cond, s, e.message) else s
    case Creating =>
      if !e.FileCreated? then s
      else s.(mode := Writing, files := s.files + [File([], [], Ongoing, s.armedAt, s.clock, 0)])
    case Writing =>
      if s.files == [] then s
      else
        match e
        case Arrives(m, timestamp, allowed) => if allowed then Write(cond, s, m, timestamp) else s
        case ArrivesAndFails(m, written) => EndFile(cond, s, LastFile(s).(torn := written), WriteFailed)
        case Closed => EndFile(cond, s, LastFile(s), HubClosed)
        case _ => s
  }

  function Next(cond: Condition, s: State, e: Event): State {
    var s' := Handle(cond, s, e);
    s'.(clock := s.clock + 1)
  }

  function RunFrom(cond: Condition, s: State, events: seq<Event>): State
    decreases |events|
  {
    if events == [] then s else RunFrom(cond, Next(cond, s, events[0]), events[1..])
  }

  // ---- What a run has recorded, told from its events alone ----

  /** The messages of the events that reach a file: those no callback refused. */
  function Accepted(events: seq<Event>): seq<(U64, Message)> {
    if events == [] then []
    else
      var last := events[|events| - 1];
      Accepted(events[..|events| - 1])
      + (if last.Arrives? && last.allowed then [(last.timestamp, last.message)] else [])
  }

  predicate OpensGate(cond: Condition, system: Option<U8>, e: Event) {
    && e.Arrives? && cond.WhileArmed?
    && FromOrigin(e.message, system, cond.component) && CheckArmState(e.message) == Some(Armed)
  }

  predicate ClosesFile(cond: Condition, system: Option<U8>, e: Event) {
    e.Closed? || e.ArrivesAndFails? || (e.Arrives? && e.allowed && StopsRecording(cond, system, e.message))
  }

  function EndingOf(e: Event): Ending {
    match e
    case Closed => HubClosed
    case ArrivesAndFails(_, _) => WriteFailed
    case _ => DisarmSeen
  }

  /** Where a file's events stop: behind the one that closed it, or at the end of the history so far. */
  function Until(f: File, history: seq<Event>): int {
    if f.ending == Ongoing then |history| else f.endedAt + 1
  }

  /** Under WhileArmed, an arm from the origin lies after `previous` and before the file's creation. */
  predicate Gated(cond: Condition, system: Option<U8>, history: seq<Event>, f: File, previous: int) {
    && previous < f.startedAt < |history|
    && (cond.WhileArmed? ==> previous < f.armedAt < f.startedAt && OpensGate(cond, system, history[f.armedAt]))
  }

  /** The file holds exactly what arrived between its creation and its end, which was the first there was. */
  predicate Complete(cond: Condition, system: Option<U8>, history: seq<Event>, f: File) {
    && f.startedAt < Until(f, history) <= |history|
    && history[f.startedAt] == FileCreated
    && f.messages == Accepted(history[f.startedAt + 1..Until(f, history)])
    && (forall k :: f.startedAt < k < Until(f, history) && (f.ending == Ongoing || k < f.endedAt)
          ==> !ClosesFile(cond, system, history[k]))
    && (f.ending == Ongoing ==> f.torn == [])
    && (f.ending != Ongoing ==>
          var e := history[f.endedAt];
          && f.startedAt < f.endedAt && ClosesFile(cond, system, e) && f.ending == EndingOf(e)
          && f.torn == if e.ArrivesAndFails? then e.written else [])
  }

  /** When the file before the i-th ended; before the first event if there is none. */
  function PreviousEnd(files: seq<File>, i: nat): int
    requires i <= |files|
  {
    if i == 0 then -1 else files[i - 1].endedAt
  }

  predicate FilesRight(cond: Condition, s: State, history: seq<Event>) {
    forall i :: 0 <= i < |s.files| ==>
      && Gated(cond, s.systemId, history, s.files[i], PreviousEnd(s.files, i))
      && Complete(cond, s.systemId, history, s.files[i])
      && (s.files[i].ending == Ongoing <==> s.mode == Writing && i == |s.files| - 1)
  }

  /** What every run keeps. */
  predicate Recorded(cond: Condition, s: State, history: seq<Event>) {
    && s.clock == |history|
    && FilesRight(cond, s, history)
    && (s.mode == Writing ==> s.files != [])
    && (s.mode == WaitingForArm ==> cond.WhileArmed?)
    && (cond.WhileArmed? && (s.mode != WaitingForArm || s.files != []) ==> s.systemId.Some?)
    && (cond.WhileArmed? && s.mode == Creating ==>
          && PreviousEnd(s.files, |s.files|) < s.armedAt < |history|
          && OpensGate(cond, s.systemId, history[s.armedAt]))
  }

  // ---- Every run keeps it ----

  /** One event more, read from the end of the run. */
  lemma {:induction false} RunSnoc(cond: Condition, s: State, events: seq<Event>, e: Event)
    ensures RunFrom(cond, s, events + [e]) == Next(cond, RunFrom(cond, s, events), e)
    decreases |events|
  {
    hide Next;
    if events == [] {
      assert RunFrom(cond, Next(cond, s, e), []) == Next(cond, s, e);
    } else {
      assert (events + [e])[1..] == events[1..] + [e];
      RunSnoc(cond, Next(cond, s, events[0]), events[1..], e);
    }
  }

  /** What a file that ended holds does not depend on what comes later. */
  lemma EndedFileStays(cond: Condition, system: Option<U8>, history: seq<Event>, e: Event, f: File)
    requires f.ending != Ongoing && Complete(cond, system, history, f)
    ensures Complete(cond, system, history + [e], f)
  {
    hide Accepted, ClosesFile;
    var more := history + [e];
    assert more[f.startedAt + 1..f.endedAt + 1] == history[f.startedAt + 1..f.endedAt + 1];
    assert forall k :: 0 <= k < |history| ==> more[k] == history[k];
  }

  lemma AcceptedSnoc(history: seq<Event>, from: nat, e: Event)
    requires from <= |history|
    ensures Accepted((history + [e])[from..])
         == Accepted(history[from..]) + (if e.Arrives? && e.allowed then [(e.timestamp, e.message)] else [])
  {
    assert (history + [e])[from..] == history[from..] + [e];
  }

  /** The open file takes in the event: a message more, and the end if the event is one. */
  function Taken(f: File, e: Event, closes: bool, now: nat): File {
    var f' := if e.Arrives? && e.allowed then f.(messages := f.messages + [(e.timestamp, e.message)])
              else if e.ArrivesAndFails? then f.(torn := e.written) else f;
    if closes then f'.(ending := EndingOf(e), endedAt := now) else f'
  }

  lemma OpenFileGrows(cond: Condition, system: Option<U8>, history: seq<Event>, e: Event, f: File)
    requires f.ending == Ongoing && Complete(cond, system, history, f)
    ensures Complete(cond, system, history + [e], Taken(f, e, ClosesFile(cond, system, e), |history|))
  {
    hide Accepted, StopsRecording;
    AcceptedSnoc(history, f.startedAt + 1, e);
    var more := history + [e];
    assert forall k :: 0 <= k < |history| ==> more[k] == history[k];
    assert history[f.startedAt + 1..|history|] == history[f.startedAt + 1..];
    assert more[f.startedAt + 1..|history| + 1] == more[f.startedAt + 1..];
  }

  /** While a file is open, an event changes nothing but that file, the mode and the clock. */
  lemma WritingStep(cond: Condition, s: State, e: Event)
    requires s.mode == Writing && s.files != []
    ensures var closes := ClosesFile(cond, s.systemId, e);
            Next(cond, s, e) ==
            State(s.systemId, if closes then StartMode(cond) else Writing, s.armedAt,
                  s.files[|s.files| - 1 := Taken(LastFile(s), e, closes, s.clock)], s.clock + 1)
  {
    hide CheckArmState, FromOrigin;
    if !(e.Arrives? && e.allowed) && !e.ArrivesAndFails? && !e.Closed? {
      assert s.files == s.files[|s.files| - 1 := LastFile(s)];
    }
  }

  lemma GatedStays(cond: Condition, system: Option<U8>, history: seq<Event>, e: Event, f: File, previous: int)
    requires Gated(cond, system, history, f, previous)
    ensures Gated(cond, system, history + [e], f, previous)
  {
    hide OpensGate;
    assert cond.WhileArmed? ==> (history + [e])[f.armedAt] == history[f.armedAt];
  }

  /** A file before the open one: neither it nor the end before it is touched. */
  lemma EarlierFileKeeps(cond: Condition, s: State, history: seq<Event>, e: Event, f: File, i: nat)
    requires FilesRight(cond, s, history) && s.mode == Writing && i < |s.files| - 1
    ensures var files := s.files[|s.files| - 1 := f];
            && files[i] == s.files[i] && files[i].ending != Ongoing
            && Gated(cond, s.systemId, history + [e], files[i], PreviousEnd(files, i))
            && Complete(cond, s.systemId, history + [e], files[i])
  {
    hide Complete, Gated;
    GatedStays(cond, s.systemId, history, e, s.files[i], PreviousEnd(s.files, i));
    EndedFileStays(cond, s.systemId, history, e, s.files[i]);
  }

  /** The open file takes the event in. */
  lemma OpenFileKeeps(cond: Condition, s: State, history: seq<Event>, e: Event)
    requires FilesRight(cond, s, history) && s.mode == Writing && s.files != []
    ensures var closes, i := ClosesFile(cond, s.systemId, e), |s.files| - 1;
            var f := Taken(s.files[i], e, closes, |history|);
            var files := s.files[i := f];
            && (f.ending == Ongoing <==> !closes)
            && Gated(cond, s.systemId, history + [e], f, PreviousEnd(files, i))
            && Complete(cond, s.systemId, history + [e], f)
  {
    hide Complete, Gated, ClosesFile;
    var closes, i := ClosesFile(cond, s.systemId, e), |s.files| - 1;
    OpenFileGrows(cond, s.systemId, history, e, s.files[i]);
    GatedStays(cond, s.systemId, history, e, s.files[i], PreviousEnd(s.files, i));
    GatedTaken(cond, s.systemId, history + [e], s.files[i], e, closes, |history|, PreviousEnd(s.files, i));
  }

  lemma WritingKeeps(cond: Condition, s: State, history: seq<Event>, e: Event)
    requires Recorded(cond, s, history) && s.mode == Writing
    ensures Recorded(cond, Next(cond, s, e), history + [e])
  {
    hide FilesRight, ClosesFile, Next, OpensGate, Taken;
    WritingStep(cond, s, e);
    WritingFilesRight(cond, s, history, e);
  }

  lemma WritingFilesRight(cond: Condition, s: State, history: seq<Event>, e: Event)
    requires FilesRight(cond, s, history) && s.mode == Writing && s.files != [] && s.clock == |history|
    ensures FilesRight(cond, Next(cond, s, e), history + [e])
  {
    hide Complete, ClosesFile, Next, OpensGate, Gated, Taken;
    var s' := Next(cond, s, e);
    WritingStep(cond, s, e);
    OpenFileKeeps(cond, s, history, e);
    forall i | 0 <= i < |s.files| - 1
      ensures s'.files[i].ending != Ongoing
      ensures Gated(cond, s.systemId, history + [e], s'.files[i], PreviousEnd(s'.files, i))
      ensures Complete(cond, s.systemId, history + [e], s'.files[i])
    {
      EarlierFileKeeps(cond, s, history, e, s'.files[|s.files| - 1], i);
    }
  }

  lemma GatedTaken(
    cond: Condition, system: Option<U8>, history: seq<Event>, f: File, e: Event, closes: bool, now: nat, previous: int)
    requires Gated(cond, system, history, f, previous)
    ensures Gated(cond, system, history, Taken(f, e, closes, now), previous)
  {
    hide OpensGate;
  }

  /** With no file open, what is there stays as it is. */
  lemma EndedFilesStay(cond: Condition, s: State, history: seq<Event>, e: Event)
    requires Recorded(cond, s, history) && s.mode != Writing
    ensures forall i :: 0 <= i < |s.files| ==>
              && s.files[i].ending != Ongoing
              && Gated(cond, s.systemId, history + [e], s.files[i], PreviousEnd(s.files, i))
              && Complete(cond, s.systemId, history + [e], s.files[i])
  {
    hide Complete, OpensGate, Gated;
    var more := history + [e];
    forall i | 0 <= i < |s.files|
      ensures Gated(cond, s.systemId, more, s.files[i], PreviousEnd(s.files, i))
      ensures Complete(cond, s.systemId, more, s.files[i])
    {
      GatedStays(cond, s.systemId, history, e, s.files[i], PreviousEnd(s.files, i));
      EndedFileStays(cond, s.systemId, history, e, s.files[i]);
    }
  }

  lemma LastEndIsPast(cond: Condition, s: State, history: seq<Event>)
    requires Recorded(cond, s, history) && s.mode != Writing
    ensures PreviousEnd(s.files, |s.files|) < |history|
  {
    if s.files != [] {
      assert Complete(cond, s.systemId, history, s.files[|s.files| - 1]);
    }
  }

  lemma WaitingKeeps(cond: Condition, s: State, history: seq<Event>, e: Event)
    requires Recorded(cond, s, history) && s.mode == WaitingForArm
    ensures Recorded(cond, Next(cond, s, e), history + [e])
  {
    hide Complete, CheckArmState;
    EndedFilesStay(cond, s, history, e);
    LastEndIsPast(cond, s, history);
    hide Gated;
  }

  lemma NewFileIsComplete(cond: Condition, system: Option<U8>, history: seq<Event>, armedAt: nat)
    ensures Complete(cond, system, history + [FileCreated], File([], [], Ongoing, armedAt, |history|, 0))
  {
    var more := history + [FileCreated];
    assert more[|history| + 1..|history| + 1] == [];
  }

  lemma CreatingKeeps(cond: Condition, s: State, history: seq<Event>, e: Event)
    requires Recorded(cond, s, history) && s.mode == Creating
    ensures Recorded(cond, Next(cond, s, e), history + [e])
  {
    hide Complete, OpensGate;
    EndedFilesStay(cond, s, history, e);
    LastEndIsPast(cond, s, history);
    var s', more := Next(cond, s, e), history + [e];
    assert cond.WhileArmed? ==> more[s.armedAt] == history[s.armedAt];
    if e.FileCreated? {
      NewFileIsComplete(cond, s.systemId, history, s.armedAt);
      assert Gated(cond, s.systemId, more, LastFile(s'), PreviousEnd(s.files, |s.files|));
      OneFileMore(cond, s, LastFile(s'), more);
    }
  }

  lemma OneFileMore(cond: Condition, s: State, f: File, history: seq<Event>)
    requires FilesRight(cond, s, history) && s.mode != Writing && f.ending == Ongoing
    requires Complete(cond, s.systemId, history, f)
    requires Gated(cond, s.systemId, history, f, PreviousEnd(s.files, |s.files|))
    ensures FilesRight(cond, s.(mode := Writing, files := s.files + [f]), history)
  {
    hide Complete, Gated;
    var s' := s.(mode := Writing, files := s.files + [f]);
    forall i | 0 <= i < |s'.files|
      ensures PreviousEnd(s'.files, i) == PreviousEnd(s.files, i)
      ensures i < |s.files| ==> s'.files[i] == s.files[i]
    {
    }
  }

  lemma StartIsRecorded(cond: Condition, expected: Option<U8>)
    ensures Recorded(cond, Start(cond, expected), [])
  {
  }

  /**
   Whatever happens: every file was opened by an arm from the origin later than the last file's end,
   holds exactly the accepted messages up to the first event that ends it (a disarm from the origin
   included), and ended as that event says.
   */
  lemma {:induction false} RunsAreRecorded(cond: Condition, expected: Option<U8>, events: seq<Event>)
    ensures Recorded(cond, RunFrom(cond, Start(cond, expected), events), events)
    decreases |events|
  {
    hide Next, Recorded;
    if events == [] {
      StartIsRecorded(cond, expected);
    } else {
      var before, e := events[..|events| - 1], events[|events| - 1];
      RunsAreRecorded(cond, expected, before);
      RunSnoc(cond, Start(cond, expected), before, e);
      assert events == before + [e];
      var s := RunFrom(cond, Start(cond, expected), before);
      match s.mode {
        case WaitingForArm => WaitingKeeps(cond, s, before, e);
        case Creating => CreatingKeeps(cond, s, before, e);
        case Writing => WritingKeeps(cond, s, before, e);
      }
    }
  }

  // ---- What that means for the latch and for each file ----

  /** Once a system is latched, no event changes it. */
  lemma {:induction false} LatchIsKept(cond: Condition, s: State, events: seq<Event>)
    requires s.systemId.Some?
    ensures RunFrom(cond, s, events).systemId == s.systemId
    decreases |events|
  {
    hide CheckArmState;
    if events != [] {
      LatchIsKept(cond, Next(cond, s, events[0]), events[1..]);
    }
  }

  /** Wherever a run is writing under WhileArmed, the latch the source expects is there. */
  lemma LatchIsSetWhenExpected(cond: Condition, expected: Option<U8>, events: seq<Event>)
    requires cond.WhileArmed? && RunFrom(cond, Start(cond, expected), events).mode == Writing
    ensures RunFrom(cond, Start(cond, expected), events).systemId.Some?
    ensures expected.Some? ==> RunFrom(cond, Start(cond, expected), events).systemId == expected
  {
    RunsAreRecorded(cond, expected, events);
    if expected.Some? {
      LatchIsKept(cond, Start(cond, expected), events);
    }
  }

  lemma {:induction false} NoStopAccepted(cond: Condition, system: Option<U8>, events: seq<Event>)
    requires forall k :: 0 <= k < |events| ==> !ClosesFile(cond, system, events[k])
    ensures forall j :: 0 <= j < |Accepted(events)| ==> !StopsRecording(cond, system, Accepted(events)[j].1)
    decreases |events|
  {
    hide StopsRecording;
    if events != [] {
      NoStopAccepted(cond, system, events[..|events| - 1]);
    }
  }

  predicate StopsOnlyAtEnd(cond: Condition, system: Option<U8>, f: File) {
    && (f.ending == DisarmSeen ==> f.messages != [])
    && forall j :: 0 <= j < |f.messages| ==>
         (StopsRecording(cond, system, f.messages[j].1) <==> f.ending == DisarmSeen && j == |f.messages| - 1)
  }

  lemma CompleteStopsAtEnd(cond: Condition, system: Option<U8>, history: seq<Event>, f: File)
    requires Complete(cond, system, history, f)
    ensures StopsOnlyAtEnd(cond, system, f)
  {
    hide StopsRecording, Accepted;
    var from := f.startedAt + 1;
    var end := if f.ending == Ongoing then |history| else f.endedAt;
    var body := history[from..end];
    assert forall k :: 0 <= k < |body| ==> body[k] == history[from + k];
    NoStopAccepted(cond, system, body);
    if f.ending != Ongoing {
      assert (body + [history[end]])[0..] == history[from..end + 1];
      assert body[0..] == body;
      AcceptedSnoc(body, 0, history[end]);
    }
  }

  /** A disarm from the origin is the last message of its file, and only a file that ended so has one. */
  lemma DisarmIsLast(cond: Condition, expected: Option<U8>, events: seq<Event>, i: nat)
    requires i < |RunFrom(cond, Start(cond, expected), events).files|
    ensures var s := RunFrom(cond, Start(cond, expected), events);
            StopsOnlyAtEnd(cond, s.systemId, s.files[i])
  {
    hide StopsOnlyAtEnd, Complete, Gated, RunFrom;
    RunsAreRecorded(cond, expected, events);
    var s := RunFrom(cond, Start(cond, expected), events);
    CompleteStopsAtEnd(cond, s.systemId, events, s.files[i]);
  }

  function Records(messages: seq<(U64, Message)>): seq<Record> {
    seq(|messages|, i requires 0 <= i < |messages| => Record(messages[i].0, messages[i].1.packet))
  }

  /** The bytes of a file: its records, and what a failed write left behind. */
  function FileBytes(f: File): seq<U8> {
    Written(Records(f.messages)) + f.torn
  }

  /** Read back, every file gives the accepted messages of its stretch of the run, in order. */
  lemma FilesReadBack(
    valid: Validity, isDate: Dates, cond: Condition, expected: Option<U8>, events: seq<Event>, i: nat)
    requires i < |RunFrom(cond, Start(cond, expected), events).files|
    requires AllGood(valid, isDate, Records(RunFrom(cond, Start(cond, expected), events).files[i].messages))
    ensures var f := RunFrom(cond, Start(cond, expected), events).files[i];
            && 0 <= f.startedAt < Until(f, events) <= |events|
            && Scan(valid, isDate, FileBytes(f))
            == Records(Accepted(events[f.startedAt + 1..Until(f, events)])) + Scan(valid, isDate, f.torn)
  {
    hide RunFrom, Gated, Scan, Accepted, ClosesFile, Good;
    RunsAreRecorded(cond, expected, events);
    var f := RunFrom(cond, Start(cond, expected), events).files[i];
    RoundTrip(valid, isDate, Records(f.messages), f.torn);
  }

  lemma RunStep(cond: Condition, s: State, events: seq<Event>)
    ensures RunFrom(cond, s, events)
         == if events == [] then s else RunFrom(cond, Next(cond, s, events[0]), events[1..])
  {
  }

  // ---- The run loop ----

  class Recorder {
    const condition: Condition
    var systemId: Option<U8>
    var armed: bool
    var armedAt: nat
    var writing: bool
    var files: seq<File>
    var clock: nat
    var inbox: seq<Event>

    constructor (condition: Condition, expected: Option<U8>, inbox: seq<Event>)
      ensures this.condition == condition && this.inbox == inbox
      ensures Valid() && View() == Start(condition, expected)
    {
      this.condition, this.inbox := condition, inbox;
      systemId, armed, armedAt := expected, false, 0;
      writing, files, clock := false, [], 0;
    }

    ghost predicate Valid()
      reads this
    {
      (writing ==> files != []) && (writing && condition.WhileArmed? ==> armed && systemId.Some?)
    }

    ghost function View(): State
      reads this
    {
      State(systemId,
            if writing then Writing else if condition.WhileArmed? && !armed then WaitingForArm else Creating,
            armedAt, files, clock)
    }

    /** `wait_for_arm`, again after every receive error. */
    method WaitForArm()
      requires Valid() && !armed && !writing && condition.WhileArmed?
      modifies this
      ensures Valid() && !writing && |inbox| <= |old(inbox)|
      ensures RunFrom(condition, View(), inbox) == RunFrom(condition, old(View()), old(inbox))
      ensures inbox == [] || (armed && |inbox| < |old(inbox)|)
      ensures armed ==> systemId.Some?
    {
      hide RunFrom, CheckArmState;
      while inbox != [] && !armed
        invariant Valid() && !writing && |inbox| <= |old(inbox)|
        invariant armed ==> systemId.Some? && |inbox| < |old(inbox)|
        invariant RunFrom(condition, View(), inbox) == RunFrom(condition, old(View()), old(inbox))
        decreases |inbox|
      {
        var event := inbox[0];
        RunStep(condition, View(), inbox);
        if event.Arrives? && event.message.component == condition.component
           && CheckArmState(event.message) == Some(Armed) {
          if systemId.None? {
            systemId := Some(event.message.system);
          }
          if event.message.system == systemId.value {
            armed := true;
            armedAt := clock;
          }
        }
        clock := clock + 1;
        inbox := inbox[1..];
      }
    }

    /** `handle_client`. */
    method HandleClient()
      requires Valid() && writing
      modifies this
      ensures Valid() && |inbox| <= |old(inbox)|
      ensures RunFrom(condition, View(), inbox) == RunFrom(condition, old(View()), old(inbox))
      ensures inbox == [] || (!writing && |inbox| < |old(inbox)|)
      ensures writing || !armed
    {
      hide RunFrom, CheckArmState;
      while inbox != []
        invariant Valid() && writing && |inbox| <= |old(inbox)|
        invariant RunFrom(condition, View(), inbox) == RunFrom(condition, old(View()), old(inbox))
        decreases |inbox|
      {
        var event := inbox[0];
        RunStep(condition, View(), inbox);
        ghost var after := Next(condition, View(), event);
        inbox := inbox[1..];
        var file := files[|files| - 1];
        match event {
          case Arrives(m, timestamp, allowed) =>
            if allowed {
              file := file.(messages := file.messages + [(timestamp, m)]);
              files := files[|files| - 1 := file];
              if condition.WhileArmed? {
                // The source expects the latch to be set here; Valid() proves that it is.
                var system := systemId.value;
                if m.system == system && m.component == condition.component && CheckArmState(m) == Some(Disarmed) {
                  Finish(file, DisarmSeen);
                  assert files == after.files;
                  return;
                }
              }
            }
          case ArrivesAndFails(_, written) =>
            Finish(file.(torn := written), WriteFailed);
            assert files == after.files;
            return;
          case Closed =>
            Finish(file, HubClosed);
            return;
          case _ =>
        }
        clock := clock + 1;
      }
    }

    method Finish(file: File, ending: Ending)
      requires files != []
      modifies this
      ensures files == old(files)[|old(files)| - 1 := file.(ending := ending, endedAt := old(clock))]
      ensures !writing && !armed && clock == old(clock) + 1
      ensures systemId == old(systemId) && armedAt == old(armedAt) && inbox == old(inbox)
    {
      files := files[|files| - 1 := file.(ending := ending, endedAt := clock)];
      writing, armed := false, false;
      clock := clock + 1;
    }

    /** `run`, for as long as there are events. */
    method Run()
      requires Valid() && !writing && !armed
      modifies this
      ensures Valid() && inbox == []
      ensures View() == RunFrom(condition, old(View()), old(inbox))
    {
      hide RunFrom, CheckArmState;
      while inbox != []
        invariant Valid() && !writing
        invariant armed && condition.WhileArmed? ==> systemId.Some?
        invariant RunFrom(condition, View(), inbox) == RunFrom(condition, old(View()), old(inbox))
        decreases |inbox|
      {
        if !armed && condition.WhileArmed? {
          WaitForArm();
          if inbox == [] {
            break;
          }
        }
        var event := inbox[0];
        RunStep(condition, View(), inbox);
        inbox := inbox[1..];
        if event.FileCreated? {
          files := files + [File([], [], Ongoing, armedAt, clock, 0)];
          writing, clock := true, clock + 1;
          HandleClient();
          if writing {
            break;
          }
        } else {
          clock := clock + 1;
        }
      }
      RunStep(condition, View(), inbox);
    }
  }
}
