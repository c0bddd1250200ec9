/**
 The recorder misses nothing (tlog/writer.rs): the gate opens at the first arm there is, a file is begun
 at the first chance behind it, and both over and over, for as long as events come.
 */
module RecorderGate {
  import opened Wrappers
  import opened Bytes
  import opened TlogWriter

  /** An armed heartbeat of the component that gates, and of the latched system if there is one. */
  predicate Arms(cond: Condition, system: Option<U8>, e: Event) {
    && e.Arrives? && cond.WhileArmed? && e.message.component == cond.component
    && e.message.id == 0 && |e.message.payload| > 6 && e.message.payload[6] >= 128
    && (system.Some? ==> e.message.system == system.value)
  }

  /** None between the two events. */
  predicate NoArm(cond: Condition, system: Option<U8>, history: seq<Event>, from: int, to: int) {
    forall k :: 0 <= k < |history| && from < k < to ==> !Arms(cond, system, history[k])
  }

  predicate NoneCreated(history: seq<Event>, from: int, to: int) {
    forall k :: 0 <= k < |history| && from < k < to ==> !history[k].FileCreated?
  }

  /** When a file may be begun: at its arm, or without a gate as soon as the one before it ended. */
  function GateAt(cond: Condition, armedAt: nat, previous: int): int {
    if cond.WhileArmed? then armedAt else previous
  }

  /** The gate opened at the first arm behind the last file's end, and the file is the first created then. */
  predicate Prompt(
      cond: Condition, system: Option<U8>, history: seq<Event>, armedAt: nat, startedAt: int, previous: int)
  {
    && NoArm(cond, system, history, previous, GateAt(cond, armedAt, previous))
    && NoneCreated(history, GateAt(cond, armedAt, previous), startedAt)
  }

  predicate FilesPrompt(cond: Condition, s: State, history: seq<Event>) {
    forall i :: 0 <= i < |s.files| ==>
      Prompt(cond, s.systemId, history, s.files[i].armedAt, s.files[i].startedAt, PreviousEnd(s.files, i))
  }

  /** A recorder that waits has nothing to wait for: no arm came since, or no file was created. */
  predicate NothingMissed(cond: Condition, s: State, history: seq<Event>) {
    var end := PreviousEnd(s.files, |s.files|);
    match s.mode
    case WaitingForArm => cond.WhileArmed? && NoArm(cond, s.systemId, history, end, |history|)
    case Creating => Prompt(cond, s.systemId, history, s.armedAt, |history|, end)
    case Writing => true
  }

  // ---- One event ----

  /** A message opens the gate exactly when it is an arm, and then it also settles the system. */
  lemma ArmOpensExactly(cond: Condition, s: State, e: Event)
    requires cond.WhileArmed? && s.mode == WaitingForArm
    ensures var s' := Next(cond, s, e);
            && s'.mode == (if Arms(cond, s.systemId, e) then Creating else WaitingForArm)
            && (Arms(cond, s.systemId, e) ==> s'.systemId == Some(e.message.system) && s'.armedAt == s.clock)
            && (!Arms(cond, s.systemId, e) ==> s'.systemId == s.systemId)
            && s'.files == s.files
  {
  }

  /**
   A message written under the gate ends the file exactly when it is a heartbeat of the gating component
   and the latched system whose base mode is cut off or has no armed bit.
   */
  lemma DisarmEndsExactly(cond: Condition, s: State, e: Event)
    requires s.mode == Writing && s.files != [] && LastFile(s).ending == Ongoing && e.Arrives? && e.allowed
    ensures var s', m := Next(cond, s, e), e.message;
            && |s'.files| == |s.files|
            && LastFile(s').messages == LastFile(s).messages + [(e.timestamp, m)]
            && (s'.mode != Writing <==>
                  && cond.WhileArmed? && s.systemId == Some(m.system) && m.component == cond.component
                  && m.id == 0 && (|m.payload| <= 6 || m.payload[6] < 128))
            && (s'.mode != Writing ==> s'.mode == WaitingForArm && LastFile(s').ending == DisarmSeen)
  {
  }

  /** With the system known there are no more arms than before. */
  lemma FewerArms(cond: Condition, system: Option<U8>, system': Option<U8>, history: seq<Event>, from: int, to: int)
    requires system.Some? ==> system' == system
    requires NoArm(cond, system, history, from, to)
    ensures NoArm(cond, system', history, from, to)
  {
  }

  lemma PromptStays(
      cond: Condition, system: Option<U8>, history: seq<Event>, e: Event, armedAt: nat, startedAt: int, previous: int)
    requires Prompt(cond, system, history, armedAt, startedAt, previous)
    requires GateAt(cond, armedAt, previous) <= |history| && startedAt <= |history|
    ensures Prompt(cond, system, history + [e], armedAt, startedAt, previous)
  {
    hide Arms;
    assert forall k :: 0 <= k < |history| ==> (history + [e])[k] == history[k];
  }

  lemma NoArmSnoc(cond: Condition, system: Option<U8>, history: seq<Event>, e: Event, from: int)
    requires NoArm(cond, system, history, from, |history|)
    ensures NoArm(cond, system, history + [e], from, |history|)
    ensures !Arms(cond, system, e) ==> NoArm(cond, system, history + [e], from, |history| + 1)
  {
    hide Arms;
  }

  lemma NoneCreatedSnoc(history: seq<Event>, e: Event, from: int)
    requires NoneCreated(history, from, |history|) && !e.FileCreated?
    ensures NoneCreated(history + [e], from, |history| + 1)
  {
  }

  /** The files there are stay prompt while the system stays. */
  lemma FilesStayPrompt(cond: Condition, s: State, history: seq<Event>, e: Event)
    requires Recorded(cond, s, history) && FilesPrompt(cond, s, history)
    ensures FilesPrompt(cond, s, history + [e])
  {
    hide Prompt, Complete, OpensGate;
    forall i | 0 <= i < |s.files|
      ensures Prompt(cond, s.systemId, history + [e], s.files[i].armedAt, s.files[i].startedAt, PreviousEnd(s.files, i))
    {
      assert Gated(cond, s.systemId, history, s.files[i], PreviousEnd(s.files, i));
      PromptStays(cond, s.systemId, history, e, s.files[i].armedAt, s.files[i].startedAt, PreviousEnd(s.files, i));
    }
  }

  lemma WaitingStaysPrompt(cond: Condition, s: State, history: seq<Event>, e: Event)
    requires Recorded(cond, s, history) && FilesPrompt(cond, s, history)
    requires s.mode == WaitingForArm && NothingMissed(cond, s, history)
    ensures FilesPrompt(cond, Next(cond, s, e), history + [e])
    ensures NothingMissed(cond, Next(cond, s, e), history + [e])
  {
    hide Arms, Complete, Gated, Next, NoArm;
    var s', end := Next(cond, s, e), PreviousEnd(s.files, |s.files|);
    FilesStayPrompt(cond, s, history, e);
    ArmOpensExactly(cond, s, e);
    NoArmSnoc(cond, s.systemId, history, e, end);
    if Arms(cond, s.systemId, e) {
      SystemIsKept(cond, s, e);
      FewerArms(cond, s.systemId, s'.systemId, history + [e], end, |history|);
    }
  }

  lemma SystemIsKept(cond: Condition, s: State, e: Event)
    requires Arms(cond, s.systemId, e)
    ensures s.systemId.Some? ==> s.systemId == Some(e.message.system)
  {
  }

  lemma CreatingStaysPrompt(cond: Condition, s: State, history: seq<Event>, e: Event)
    requires Recorded(cond, s, history) && FilesPrompt(cond, s, history)
    requires s.mode == Creating && NothingMissed(cond, s, history)
    ensures FilesPrompt(cond, Next(cond, s, e), history + [e])
    ensures NothingMissed(cond, Next(cond, s, e), history + [e])
  {
    hide Arms, Complete, Gated, NoArm, OpensGate, NoneCreated;
    FilesStayPrompt(cond, s, history, e);
    LastEndIsPast(cond, s, history);
    PromptStays(cond, s.systemId, history, e, s.armedAt, |history|, PreviousEnd(s.files, |s.files|));
    if e.FileCreated? {
      FileJoins(cond, s, history + [e], File([], [], Ongoing, s.armedAt, |history|, 0));
    } else {
      NoneCreatedSnoc(history, e, GateAt(cond, s.armedAt, PreviousEnd(s.files, |s.files|)));
    }
  }

  lemma FileJoins(cond: Condition, s: State, history: seq<Event>, f: File)
    requires FilesPrompt(cond, s, history)
    requires Prompt(cond, s.systemId, history, f.armedAt, f.startedAt, PreviousEnd(s.files, |s.files|))
    ensures FilesPrompt(cond, s.(mode := Writing, files := s.files + [f], clock := s.clock + 1), history)
  {
    hide Prompt;
    var files := s.files + [f];
    assert forall i :: 0 <= i <= |s.files| ==> PreviousEnd(files, i) == PreviousEnd(s.files, i);
  }

  lemma WritingStaysPrompt(cond: Condition, s: State, history: seq<Event>, e: Event)
    requires Recorded(cond, s, history) && FilesPrompt(cond, s, history) && s.mode == Writing
    ensures FilesPrompt(cond, Next(cond, s, e), history + [e])
    ensures NothingMissed(cond, Next(cond, s, e), history + [e])
  {
    hide Arms, Complete, Gated, ClosesFile, Prompt;
    FilesStayPrompt(cond, s, history, e);
    WritingStep(cond, s, e);
    hide Next;
    var s' := Next(cond, s, e);
    forall i | 0 <= i < |s'.files|
      ensures PreviousEnd(s'.files, i) == PreviousEnd(s.files, i)
      ensures s'.files[i].armedAt == s.files[i].armedAt && s'.files[i].startedAt == s.files[i].startedAt
    {
    }
    JustEnded(cond, s', history + [e]);
  }

  /** Behind a file that has just ended nothing has come yet. */
  lemma JustEnded(cond: Condition, s: State, history: seq<Event>)
    requires s.mode == Writing || (s.mode == StartMode(cond) && PreviousEnd(s.files, |s.files|) == |history| - 1)
    ensures NothingMissed(cond, s, history)
  {
  }

  // ---- Whole runs ----

  /**
   In every run, told from its events alone: each file's gate opened at the first arm behind the file
   before it, and each file was begun at the first creation behind that. A run that waits for an arm
   has seen none since its last file, from the latched system or, with no latch, from any; one
   that waits for a file has seen none created; and without a gate no run waits for an arm.
   */
  lemma {:induction false} NoArmIsMissed(cond: Condition, expected: Option<U8>, events: seq<Event>)
    ensures var s := RunFrom(cond, Start(cond, expected), events);
            FilesPrompt(cond, s, events) && NothingMissed(cond, s, events)
    decreases |events|
  {
    hide Next, Recorded, FilesPrompt, Arms;
    if events == [] {
      NothingYet(cond, expected);
    } else {
      var before, e := events[..|events| - 1], events[|events| - 1];
      NoArmIsMissed(cond, expected, before);
      RunsAreRecorded(cond, expected, before);
      RunSnoc(cond, Start(cond, expected), before, e);
      assert events == before + [e];
      var s := RunFrom(cond, Start(cond, expected), before);
      match s.mode {
        case WaitingForArm => WaitingStaysPrompt(cond, s, before, e);
        case Creating => CreatingStaysPrompt(cond, s, before, e);
        case Writing => WritingStaysPrompt(cond, s, before, e);
      }
    }
  }

  lemma NothingYet(cond: Condition, expected: Option<U8>)
    ensures FilesPrompt(cond, Start(cond, expected), []) && NothingMissed(cond, Start(cond, expected), [])
  {
  }

  /** A run that waits goes on, at an arm and a creation, with one file more. */
  lemma EveryArmOpensAFile(cond: Condition, expected: Option<U8>, events: seq<Event>, arm: Event)
    requires var s := RunFrom(cond, Start(cond, expected), events);
             s.mode == WaitingForArm && Arms(cond, s.systemId, arm)
    ensures var s := RunFrom(cond, Start(cond, expected), events);
            var s' := RunFrom(cond, Start(cond, expected), events + [arm] + [FileCreated]);
            && s'.mode == Writing && s'.systemId == Some(arm.message.system)
            && s'.files == s.files + [File([], [], Ongoing, |events|, |events| + 1, 0)]
  {
    hide Recorded, RunFrom, Arms;
    RunsAreRecorded(cond, expected, events);
    RunSnoc(cond, Start(cond, expected), events, arm);
    RunSnoc(cond, Start(cond, expected), events + [arm], FileCreated);
    var s := RunFrom(cond, Start(cond, expected), events);
    WaitsUnderGate(cond, s, events);
    ArmOpensExactly(cond, s, arm);
  }

  lemma WaitsUnderGate(cond: Condition, s: State, history: seq<Event>)
    requires Recorded(cond, s, history) && s.mode == WaitingForArm
    ensures cond.WhileArmed? && s.clock == |history|
  {
    hide FilesRight;
  }
}
