/**
 One mutex per vehicle (mavftp/client.rs `target_lock`): an operation waits for its own vehicle's
 operation and for nothing else.
 */
module TargetMutexes {
  import opened Sessions

  /** Different targets have different mutexes, all of them made by `target_lock`. */
  predicate OwnMutexes(s: State) {
    && (forall a :: a in s.locks ==> s.locks[a] < s.mutexes)
    && (forall a, b :: a in s.locks && b in s.locks && a != b ==> s.locks[a] != s.locks[b])
  }

  /** Only running tasks hold a mutex, each its own. */
  predicate HeldByRunners(s: State) {
    forall m :: m in s.holders ==> TaskOf(s, s.holders[m]).Running? && TaskOf(s, s.holders[m]).mutex == m
  }

  lemma NextKeepsMutexes(lim: Limits, s: State, step: Step)
    requires OwnMutexes(s) && Enabled(lim, s, step)
    ensures OwnMutexes(Next(lim, s, step))
  {
    hide LinkNext, Sessions.Matches;
  }

  lemma NextKeepsHolders(lim: Limits, s: State, step: Step)
    requires HeldByRunners(s) && LocksInv(s) && Enabled(lim, s, step)
    ensures HeldByRunners(Next(lim, s, step))
  {
    hide LinkNext, Sessions.Matches;
  }

  lemma {:induction false} ReachesKeepsMutexes(lim: Limits, from: State, steps: seq<Step>, end: State)
    requires OwnMutexes(from) && HeldByRunners(from) && LocksInv(from) && Reaches(lim, from, steps, end)
    ensures OwnMutexes(end) && HeldByRunners(end) && LocksInv(end)
    decreases |steps|
  {
    hide OwnMutexes, HeldByRunners, LocksInv;
    if steps != [] {
      NextKeepsMutexes(lim, from, steps[0]);
      NextKeepsHolders(lim, from, steps[0]);
      NextKeepsLocks(lim, from, steps[0]);
      ReachesKeepsMutexes(lim, Next(lim, from, steps[0]), steps[1..], end);
    }
  }

  lemma ReachableMutexes(lim: Limits, s: State)
    requires Reachable(lim, s)
    ensures OwnMutexes(s) && HeldByRunners(s) && LocksInv(s)
  {
    var steps: seq<Step> :| Reaches(lim, START, steps, s);
    ReachesKeepsMutexes(lim, START, steps, s);
  }

  /** In every interleaving each vehicle has a mutex of its own. */
  lemma MutexesDiffer(lim: Limits, s: State, a: Target, b: Target)
    requires Reachable(lim, s) && a in s.locks && b in s.locks && a != b
    ensures s.locks[a] != s.locks[b]
  {
    ReachableMutexes(lim, s);
  }

  predicate Busy(s: State, target: Target) {
    exists t :: t in s.tasks && s.tasks[t].Running? && s.tasks[t].target == target
  }

  /**
   A task that has looked its mutex up may run at once exactly when no operation runs on its vehicle,
   whatever runs on the others; and when it may not, it may as soon as that one operation ends.
   */
  lemma WaitsForItsVehicleExactly(lim: Limits, s: State, t: TaskId)
    requires Reachable(lim, s) && TaskOf(s, t).HasMutex?
    ensures Enabled(lim, s, Acquire(t)) <==> !Busy(s, TaskOf(s, t).target)
    ensures forall u :: TaskOf(s, u).Running? && TaskOf(s, u).target == TaskOf(s, t).target ==>
              Enabled(lim, Next(lim, s, Release(u)), Acquire(t))
  {
    ReachableMutexes(lim, s);
    var task := TaskOf(s, t);
    if task.mutex in s.holders {
      var holder := s.holders[task.mutex];
      assert s.tasks[holder].target == task.target;
    }
  }
}
