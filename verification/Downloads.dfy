/**
 The download registry (mavftp/mod.rs): one worker per download, any number of pollers and
 takers, interleaved at every lock they take.
 */
module Downloads {
  import opened Wrappers
  import opened Bytes

  type Id = nat
  type Actor = nat
  type Text = seq<char>

  datatype Status = Downloading | Complete | Error

  /** The cells of a `DownloadSession` that change. */
  datatype Cells = Cells(status: Status, error: Option<Text>, data: Option<seq<U8>>)

  const FRESH_CELLS := Cells(Downloading, None, None)

  /** The worker's first write: the data, or the error text. */
  function Stored(c: Cells, result: Result<seq<U8>, Text>): Cells {
    match result
    case Success(data) => c.(data := Some(data))
    case Failure(text) => c.(error := Some(text))
  }

  /** The worker's second write: the status. */
  function Settled(c: Cells, result: Result<seq<U8>, Text>): Cells {
    c.(status := if result.Success? then Complete else Error)
  }

  datatype Worker =
    | Reading
    | Finished(result: Result<seq<U8>, Text>)   // the read has returned
    | HasStored(result: Result<seq<U8>, Text>)
    | HasSettled(result: Result<seq<U8>, Text>)

  datatype Reader = NotReading | SawStatus(id: Id, status: Status)

  datatype Taker = NotTaking | SawComplete(id: Id) | MustRemove(id: Id)

  datatype Report = Report(id: Id, status: Status, error: Option<Text>)

  datatype Handed = Handed(taker: Actor, id: Id, data: seq<U8>)

  datatype State = State(
    active: set<Id>,                // the keys of ACTIVE_DOWNLOADS
    cells: map<Id, Cells>,          // every session ever created; a task may outlive its entry
    workers: map<Id, Worker>,
    readers: map<Actor, Reader>,
    takers: map<Actor, Taker>,
    reports: seq<Report>,
    handed: seq<Handed>)

  datatype Step =
    | StartDownload(id: Id)
    | ReadReturns(id: Id, result: Result<seq<U8>, Text>)
    | WorkerStores(id: Id)
    | WorkerSettles(id: Id)
    | ReaderLooks(reader: Actor, id: Id)   // reads the status
    | ReaderReports(reader: Actor)         // reads the error and reports
    | TakerLooks(taker: Actor, id: Id)     // reads the status
    | TakerTakes(taker: Actor)             // takes the data cell
    | TakerRemoves(taker: Actor)           // removes the entry

  function ReaderOf(s: State, r: Actor): Reader {
    if r in s.readers then s.readers[r] else NotReading
  }

  function TakerOf(s: State, t: Actor): Taker {
    if t in s.takers then s.takers[t] else NotTaking
  }

  predicate WorkerIs(s: State, id: Id) {
    id in s.workers && id in s.cells
  }

  predicate Enabled(s: State, step: Step) {
    match step
    case StartDownload(id) => id !in s.cells && id !in s.workers
    case ReadReturns(id, _) => WorkerIs(s, id) && s.workers[id].Reading?
    case WorkerStores(id) => WorkerIs(s, id) && s.workers[id].Finished?
    case WorkerSettles(id) => WorkerIs(s, id) && s.workers[id].HasStored?
    case ReaderLooks(r, id) => ReaderOf(s, r).NotReading? && id in s.active && id in s.cells
    case ReaderReports(r) => ReaderOf(s, r).SawStatus? && ReaderOf(s, r).id in s.cells
    case TakerLooks(t, id) => TakerOf(s, t).NotTaking? && id in s.active && id in s.cells
    case TakerTakes(t) => TakerOf(s, t).SawComplete? && TakerOf(s, t).id in s.cells
    case TakerRemoves(t) => TakerOf(s, t).MustRemove?
  }

  function Next(s: State, step: Step): State
    requires Enabled(s, step)
  {
    match step
    case StartDownload(id) =>
      s.(active := s.active + {id}, cells := s.cells[id := FRESH_CELLS], workers := s.workers[id := Reading])
    case ReadReturns(id, result) => s.(workers := s.workers[id := Finished(result)])
    case WorkerStores(id) =>
      s.(cells := s.cells[id := Stored(s.cells[id], s.workers[id].result)],
         workers := s.workers[id := HasStored(s.workers[id].result)])
    case WorkerSettles(id) =>
      s.(cells := s.cells[id := Settled(s.cells[id], s.workers[id].result)],
         workers := s.workers[id := HasSettled(s.workers[id].result)])
    case ReaderLooks(r, id) => s.(readers := s.readers[r := SawStatus(id, s.cells[id].status)])
    case ReaderReports(r) =>
      var seen := ReaderOf(s, r);
      s.(readers := s.readers[r := NotReading],
         reports := s.reports + [Report(seen.id, seen.status, s.cells[seen.id].error)])
    case TakerLooks(t, id) =>
      if s.cells[id].status == Complete then s.(takers := s.takers[t := SawComplete(id)]) else s
    case TakerTakes(t) =>
      var id := TakerOf(s, t).id;
      (match s.cells[id].data
       case None => s.(takers := s.takers[t := NotTaking])
       case Some(data) =>
         s.(cells := s.cells[id := s.cells[id].(data := None)],
            takers := s.takers[t := MustRemove(id)],
            handed := s.handed + [Handed(t, id, data)]))
    case TakerRemoves(t) =>
      s.(active := s.active - {TakerOf(s, t).id}, takers := s.takers[t := NotTaking])
  }

  const START := State({}, map[], map[], map[], map[], [], [])

  predicate WasHanded(s: State, id: Id) {
    exists k :: 0 <= k < |s.handed| && s.handed[k].id == id
  }

  /** The cells of a download, given how far its worker is. */
  predicate CellsInv(s: State, id: Id)
    requires id in s.cells && id in s.workers
  {
    var c := s.cells[id];
    match s.workers[id]
    case Reading => c == FRESH_CELLS && !WasHanded(s, id)
    case Finished(_) => c == FRESH_CELLS && !WasHanded(s, id)
    case HasStored(result) => c == Stored(FRESH_CELLS, result) && !WasHanded(s, id)
    case HasSettled(Failure(text)) => c == Cells(Error, Some(text), None) && !WasHanded(s, id)
    case HasSettled(Success(data)) =>
      c == Cells(Complete, None, if WasHanded(s, id) then None else Some(data))
  }

  predicate AllCellsInv(s: State) {
    && s.cells.Keys == s.workers.Keys && s.active <= s.cells.Keys
    && (forall id :: id in s.cells ==> CellsInv(s, id))
    && (forall id :: id in s.cells && id !in s.active ==> WasHanded(s, id))
  }

  predicate ReadersInv(s: State) {
    && (forall r :: r in s.readers && s.readers[r].SawStatus? ==>
          && s.readers[r].id in s.cells
          && (s.readers[r].status == Error ==> s.cells[s.readers[r].id].status == Error))
    && (forall k :: 0 <= k < |s.reports| && s.reports[k].status == Error ==> s.reports[k].error.Some?)
  }

  predicate TakersInv(s: State) {
    && (forall t :: t in s.takers && s.takers[t].SawComplete? ==>
          s.takers[t].id in s.cells && s.cells[s.takers[t].id].status == Complete)
    && (forall t :: t in s.takers && s.takers[t].MustRemove? ==> WasHanded(s, s.takers[t].id))
  }

  predicate HandedInv(s: State) {
    && (forall k :: 0 <= k < |s.handed| ==>
          && s.handed[k].id in s.workers
          && s.workers[s.handed[k].id] == HasSettled(Success(s.handed[k].data)))
    && (forall j, k :: 0 <= j < k < |s.handed| ==> s.handed[j].id != s.handed[k].id)
  }

  predicate Inv(s: State) {
    AllCellsInv(s) && ReadersInv(s) && TakersInv(s) && HandedInv(s)
  }

  lemma SameHanded(s: State, s': State)
    requires s'.handed == s.handed
    ensures forall id :: WasHanded(s', id) <==> WasHanded(s, id)
  {
  }

  lemma HandedMore(s: State, s': State, h: Handed)
    requires s'.handed == s.handed + [h]
    ensures forall id :: WasHanded(s', id) <==> WasHanded(s, id) || id == h.id
  {
    forall id ensures WasHanded(s', id) <==> WasHanded(s, id) || id == h.id {
      assert s'.handed[|s.handed|] == h;
      if WasHanded(s, id) {
        var k :| 0 <= k < |s.handed| && s.handed[k].id == id;
        assert s'.handed[k] == s.handed[k];
      }
    }
  }

  lemma TakeKeepsCells(s: State, t: Actor)
    requires Inv(s) && Enabled(s, TakerTakes(t))
    ensures AllCellsInv(Next(s, TakerTakes(t)))
  {
    var id := TakerOf(s, t).id;
    var s' := Next(s, TakerTakes(t));
    if s.cells[id].data.Some? {
      HandedMore(s, s', Handed(t, id, s.cells[id].data.value));
    } else {
      SameHanded(s, s');
    }
    assert CellsInv(s, id);
    forall i | i in s'.cells ensures CellsInv(s', i) {
      assert CellsInv(s, i);
    }
  }

  lemma TakeKeepsHanded(s: State, t: Actor)
    requires Inv(s) && Enabled(s, TakerTakes(t))
    ensures HandedInv(Next(s, TakerTakes(t)))
  {
    var id := TakerOf(s, t).id;
    assert CellsInv(s, id);
    if s.cells[id].data.Some? {
      forall k | 0 <= k < |s.handed| ensures s.handed[k].id != id {
        assert WasHanded(s, s.handed[k].id);
      }
    }
  }

  lemma TakeKeepsActors(s: State, t: Actor)
    requires Inv(s) && Enabled(s, TakerTakes(t))
    ensures ReadersInv(Next(s, TakerTakes(t))) && TakersInv(Next(s, TakerTakes(t)))
  {
    var id := TakerOf(s, t).id;
    var s' := Next(s, TakerTakes(t));
    if s.cells[id].data.Some? {
      HandedMore(s, s', Handed(t, id, s.cells[id].data.value));
    } else {
      SameHanded(s, s');
    }
  }

  lemma NextKeepsCells(s: State, step: Step)
    requires Inv(s) && Enabled(s, step) && !step.TakerTakes?
    ensures AllCellsInv(Next(s, step))
  {
    var s' := Next(s, step);
    SameHanded(s, s');
    forall i | i in s'.cells ensures CellsInv(s', i) {
      if i in s.cells {
        assert CellsInv(s, i);
      }
    }
  }

  lemma NextKeepsReaders(s: State, step: Step)
    requires Inv(s) && Enabled(s, step) && !step.TakerTakes?
    ensures ReadersInv(Next(s, step))
  {
    hide TakersInv, HandedInv, AllCellsInv;
    NextMovesStatus(s, step);
    if step.ReaderReports? {
      SettledError(s, ReaderOf(s, step.reader).id);
    }
  }

  /** A session in error has its text. */
  lemma SettledError(s: State, id: Id)
    requires AllCellsInv(s) && id in s.cells
    ensures s.cells[id].status == Error ==> s.cells[id].error.Some?
  {
    assert CellsInv(s, id);
  }

  lemma NextKeepsTakers(s: State, step: Step)
    requires Inv(s) && Enabled(s, step) && !step.TakerTakes?
    ensures TakersInv(Next(s, step))
  {
    hide ReadersInv, HandedInv, AllCellsInv, WasHanded;
    SameHanded(s, Next(s, step));
    NextMovesStatus(s, step);
  }

  lemma NextKeepsHanded(s: State, step: Step)
    requires Inv(s) && Enabled(s, step) && !step.TakerTakes?
    ensures HandedInv(Next(s, step))
  {
  }

  lemma NextKeepsInv(s: State, step: Step)
    requires Inv(s) && Enabled(s, step)
    ensures Inv(Next(s, step))
  {
    if step.TakerTakes? {
      TakeKeepsCells(s, step.taker);
      TakeKeepsHanded(s, step.taker);
      TakeKeepsActors(s, step.taker);
    } else {
      NextKeepsCells(s, step);
      NextKeepsReaders(s, step);
      NextKeepsTakers(s, step);
      NextKeepsHanded(s, step);
    }
  }

  lemma NextMovesStatus(s: State, step: Step)
    requires Inv(s) && Enabled(s, step)
    ensures StatusMoves(s, Next(s, step))
  {
    hide ReadersInv, TakersInv, HandedInv;
    if step.WorkerSettles? {
      assert CellsInv(s, step.id);
    }
  }

  ghost predicate Reaches(from: State, steps: seq<Step>, end: State)
    decreases |steps|
  {
    if steps == [] then from == end
    else Enabled(from, steps[0]) && Reaches(Next(from, steps[0]), steps[1..], end)
  }

  /** A status only ever moves from Downloading to Complete or Error. */
  predicate StatusMoves(s: State, s': State) {
    forall id :: id in s.cells ==>
      && id in s'.cells
      && (s.cells[id].status != Downloading ==> s'.cells[id].status == s.cells[id].status)
  }

  lemma {:induction false} ReachesKeepsInv(from: State, steps: seq<Step>, end: State)
    requires Inv(from) && Reaches(from, steps, end)
    ensures Inv(end) && StatusMoves(from, end)
    decreases |steps|
  {
    if steps != [] {
      NextKeepsInv(from, steps[0]);
      NextMovesStatus(from, steps[0]);
      ReachesKeepsInv(Next(from, steps[0]), steps[1..], end);
    }
  }

  /** In every interleaving a download is handed out at most once, and it is what the read returned. */
  lemma HandedOnce(steps: seq<Step>, s: State, j: nat)
    requires Reaches(START, steps, s) && j < |s.handed|
    ensures s.handed[j].id in s.workers && s.workers[s.handed[j].id] == HasSettled(Success(s.handed[j].data))
    ensures forall k :: 0 <= k < |s.handed| && s.handed[k].id == s.handed[j].id ==> k == j
  {
    ReachesKeepsInv(START, steps, s);
  }

  /** A report of an error carries its text. */
  lemma ErrorReportsHaveText(steps: seq<Step>, s: State, k: nat)
    requires Reaches(START, steps, s) && k < |s.reports| && s.reports[k].status == Error
    ensures s.reports[k].error.Some?
  {
    ReachesKeepsInv(START, steps, s);
  }

  /** A finished download that nobody took is still there, complete, for the next taker. */
  lemma UntakenStaysAvailable(steps: seq<Step>, s: State, id: Id, data: seq<U8>)
    requires Reaches(START, steps, s) && id in s.workers && s.workers[id] == HasSettled(Success(data))
    requires !WasHanded(s, id)
    ensures id in s.active && id in s.cells && s.cells[id] == Cells(Complete, None, Some(data))
  {
    ReachesKeepsInv(START, steps, s);
    assert CellsInv(s, id);
  }

  /** Whatever the status was, from here on it moves only away from Downloading. */
  lemma StatusSettlesOnce(before: seq<Step>, s: State, after: seq<Step>, s': State)
    requires Reaches(START, before, s) && Reaches(s, after, s')
    ensures StatusMoves(s, s')
  {
    ReachesKeepsInv(START, before, s);
    ReachesKeepsInv(s, after, s');
  }

  // ---- What a finished download can count on ----

  /** A download that was handed out leaves the registry as soon as its taker goes on. */
  predicate TakenLeaves(s: State) {
    forall id :: id in s.active && WasHanded(s, id) ==> exists t :: t in s.takers && s.takers[t] == MustRemove(id)
  }

  lemma NextKeepsTakenLeaves(s: State, step: Step)
    requires Inv(s) && TakenLeaves(s) && Enabled(s, step)
    ensures TakenLeaves(Next(s, step))
  {
    hide ReadersInv, TakersInv, HandedInv, CellsInv;
    var s' := Next(s, step);
    forall id | id in s'.active && WasHanded(s', id)
      ensures exists t :: t in s'.takers && s'.takers[t] == MustRemove(id)
    {
      if id in s.active && WasHanded(s, id) {
        var t :| t in s.takers && s.takers[t] == MustRemove(id);
        assert s'.takers[t] == MustRemove(id);
      } else {
        NewlyHanded(s, step, id);
      }
    }
  }

  /** Only a take hands a download out, and a new download was never handed out. */
  lemma NewlyHanded(s: State, step: Step, id: Id)
    requires Inv(s) && Enabled(s, step)
    requires id in Next(s, step).active && WasHanded(Next(s, step), id) && !(id in s.active && WasHanded(s, id))
    ensures step.TakerTakes? && step.taker in Next(s, step).takers && Next(s, step).takers[step.taker] == MustRemove(id)
  {
    hide ReadersInv, TakersInv, AllCellsInv;
    var s' := Next(s, step);
    if step.TakerTakes? && s'.handed != s.handed {
      HandedMore(s, s', s'.handed[|s.handed|]);
    } else {
      SameHanded(s, s');
    }
  }

  lemma {:induction false} ReachesKeepsTakenLeaves(from: State, steps: seq<Step>, end: State)
    requires Inv(from) && TakenLeaves(from) && Reaches(from, steps, end)
    ensures TakenLeaves(end)
    decreases |steps|
  {
    hide Inv, TakenLeaves;
    if steps != [] {
      NextKeepsInv(from, steps[0]);
      NextKeepsTakenLeaves(from, steps[0]);
      ReachesKeepsTakenLeaves(Next(from, steps[0]), steps[1..], end);
    }
  }

  /** In every interleaving: what was handed out is not registered, unless its taker is about to remove it. */
  lemma HandedLeavesRegistry(steps: seq<Step>, s: State, id: Id)
    requires Reaches(START, steps, s) && WasHanded(s, id)
    ensures id !in s.active || exists t :: t in s.takers && s.takers[t] == MustRemove(id)
  {
    ReachesKeepsTakenLeaves(START, steps, s);
  }

  /** A finished download that nobody took goes to the next taker, whole, and leaves the registry. */
  lemma TakeSucceeds(steps: seq<Step>, s: State, id: Id, data: seq<U8>, t: Actor) returns (s': State)
    requires Reaches(START, steps, s) && id in s.workers && s.workers[id] == HasSettled(Success(data))
    requires !WasHanded(s, id) && TakerOf(s, t).NotTaking?
    ensures Reaches(s, [TakerLooks(t, id), TakerTakes(t), TakerRemoves(t)], s')
    ensures s'.handed == s.handed + [Handed(t, id, data)] && s'.active == s.active - {id}
  {
    UntakenStaysAvailable(steps, s, id, data);
    var s1 := Next(s, TakerLooks(t, id));
    var s2 := Next(s1, TakerTakes(t));
    s' := Next(s2, TakerRemoves(t));
    TwoSteps(s1, TakerTakes(t), TakerRemoves(t));
    assert [TakerLooks(t, id), TakerTakes(t), TakerRemoves(t)][1..] == [TakerTakes(t), TakerRemoves(t)];
  }

  lemma TwoSteps(s: State, first: Step, second: Step)
    requires Enabled(s, first) && Enabled(Next(s, first), second)
    ensures Reaches(s, [first, second], Next(Next(s, first), second))
  {
    hide Enabled, Next;
    var end := Next(Next(s, first), second);
    assert [first, second][1..] == [second] && [second][1..] == [];
    assert Reaches(end, [], end);
    assert Reaches(Next(s, first), [second], end);
  }

  lemma ReachedInv(steps: seq<Step>, s: State)
    requires Reaches(START, steps, s)
    ensures Inv(s)
  {
    ReachesKeepsInv(START, steps, s);
  }

  lemma SettledCells(s: State, id: Id, result: Result<seq<U8>, Text>)
    requires Inv(s) && id in s.workers && s.workers[id] == HasSettled(result)
    ensures id in s.cells
    ensures match result
            case Success(_) => (s.cells[id].status, s.cells[id].error) == (Complete, None)
            case Failure(text) => (s.cells[id].status, s.cells[id].error) == (Error, Some(text))
  {
    hide ReadersInv, TakersInv, HandedInv, WasHanded;
    assert CellsInv(s, id);
  }

  /** Whoever asks about a registered download that has ended is told how: its status, and the text of its error. */
  lemma EndIsReported(steps: seq<Step>, s: State, id: Id, result: Result<seq<U8>, Text>, r: Actor)
    returns (s': State)
    requires Reaches(START, steps, s) && id in s.active && id in s.workers && s.workers[id] == HasSettled(result)
    requires ReaderOf(s, r).NotReading?
    ensures Reaches(s, [ReaderLooks(r, id), ReaderReports(r)], s')
    ensures s'.reports == s.reports
                          + [match result
                             case Success(_) => Report(id, Complete, None)
                             case Failure(text) => Report(id, Error, Some(text))]
  {
    hide Inv, Reaches;
    ReachedInv(steps, s);
    SettledCells(s, id, result);
    var s1 := Next(s, ReaderLooks(r, id));
    s' := Next(s1, ReaderReports(r));
    TwoSteps(s, ReaderLooks(r, id), ReaderReports(r));
  }

  // ---- The session object ----

  class DownloadSession {
    const filename: Text
    const totalBytes: nat
    var bytesDownloaded: nat
    var status: Status
    var error: Option<Text>
    var data: Option<seq<U8>>

    constructor (filename: Text, totalBytes: nat)
      ensures View() == FRESH_CELLS && bytesDownloaded == 0
      ensures this.filename == filename && this.totalBytes == totalBytes
    {
      bytesDownloaded := 0;
      this.filename, this.totalBytes := filename, totalBytes;
      status, error, data := Downloading, None, None;
    }

    function View(): Cells
      reads this
    {
      Cells(status, error, data)
    }

    method Store(result: Result<seq<U8>, Text>)
      modifies this
      ensures View() == Stored(old(View()), result)
    {
      match result
      case Success(d) => data := Some(d);
      case Failure(text) => error := Some(text);
    }

    method Settle(result: Result<seq<U8>, Text>)
      modifies this
      ensures View() == Settled(old(View()), result)
    {
      status := if result.Success? then Complete else Error;
    }

    method Take() returns (taken: Option<seq<U8>>)
      modifies this
      ensures taken == old(data) && View() == old(View()).(data := None)
    {
      taken := data;
      data := None;
    }

    /** The spawned worker, once the read has returned. */
    method Finish(result: Result<seq<U8>, Text>)
      modifies this
      ensures View() == Settled(Stored(old(View()), result), result)
    {
      Store(result);
      Settle(result);
    }

    /** The session's part of `take_download_data`, when nobody else touches it meanwhile. */
    method TakeData() returns (taken: Option<(Text, seq<U8>)>)
      modifies this
      ensures taken == if old(status) == Complete && old(data).Some?
                       then Some((filename, old(data).value)) else None
      ensures View() == if old(status) == Complete then old(View()).(data := None) else old(View())
    {
      if status != Complete {
        return None;
      }
      var cell := Take();
      taken := match cell case Some(d) => Some((filename, d)) case None => None;
    }
  }

  // ---- The registry object ----

  /** The text behind the last slash. */
  function FileName(path: Text): (name: Text)
    ensures '/' !in name && |name| <= |path| && path[|path| - |name|..] == name
    ensures |name| < |path| ==> path[|path| - |name| - 1] == '/'
  {
    if path == [] then []
    else if path[|path| - 1] == '/' then []
    else FileName(path[..|path| - 1]) + [path[|path| - 1]]
  }

  datatype DownloadProgress = DownloadProgress(
    id: Id, filename: Text, bytesDownloaded: nat, totalBytes: nat, status: Status, error: Option<Text>)

  class Registry {
    var active: map<Id, DownloadSession>

    constructor ()
      ensures active == map[]
    {
      active := map[];
    }

    method StartDownload(id: Id, path: Text, fileSize: nat) returns (session: DownloadSession)
      modifies this
      ensures fresh(session) && active == old(active)[id := session]
      ensures session.View() == FRESH_CELLS && session.bytesDownloaded == 0
      ensures session.filename == FileName(path) && session.totalBytes == fileSize
    {
      hide FileName;
      session := new DownloadSession(FileName(path), fileSize);
      active := active[id := session];
    }

    method GetDownloadProgress(id: Id) returns (r: Option<DownloadProgress>)
      ensures r.Some? <==> id in active
      ensures r.Some? ==>
                var session := active[id];
                && r.value.id == id && r.value.filename == session.filename
                && r.value.bytesDownloaded == session.bytesDownloaded && r.value.totalBytes == session.totalBytes
                && (r.value.status, r.value.error) == (session.View().status, session.View().error)
    {
      if id !in active {
        return None;
      }
      var session := active[id];
      r := Some(DownloadProgress(id, session.filename, session.bytesDownloaded, session.totalBytes,
                                 session.status, session.error));
    }

    /** Hands out the data of a complete download, which is then no longer registered. */
    method TakeDownloadData(id: Id) returns (taken: Option<(Text, seq<U8>)>)
      modifies this, if id in active then {active[id]} else {}
      ensures taken.Some? <==> id in old(active) && old(active[id].status) == Complete && old(active[id].data).Some?
      ensures taken.Some? ==>
                && taken.value == (old(active)[id].filename, old(active[id].data).value)
                && active == old(active) - {id} && old(active)[id].data == None
      ensures taken.None? ==>
                active == old(active) && (id in active ==> active[id].View() == old(active[id].View()))
    {
      if id !in active {
        return None;
      }
      taken := active[id].TakeData();
      if taken.Some? {
        active := active - {id};
      }
    }
  }
}
