/** Letting go of a grant: what it leaves behind, and that the next call then has its guard at once. */
module GrantRelease {
  import opened Wrappers
  import opened GrantLocks
  import opened Sequences

  /** The step is by a task that gives up its guard, or its call before it has one. */
  predicate LetsGoOf(s: State, step: Step, task: Task) {
    || (step == DropGuard(task) && s.PhaseOf(task).Holding?)
    || (step == Cancel(task) && !s.PhaseOf(task).Holding?)
  }

  /**
   A task that drops its guard, or its call before it has one, is idle. If no task waited for its grant
   then none owns it afterwards, and no other task's phase changed.
   */
  lemma LettingGoFrees(s: State, step: Step, task: Task, grant: Grant)
    requires Valid(s) && LetsGoOf(s, step, task)
    ensures LocksKnown(s) && Next(s, step).PhaseOf(task) == Idle
    ensures OwnsGrant(s, task, grant) && (forall u: Task :: !WaitsForGrant(s, u, grant)) ==>
              && (forall u: Task :: !OwnsGrant(Next(s, step), u, grant))
              && (forall u: Task :: u != task ==> Next(s, step).PhaseOf(u) == s.PhaseOf(u))
  {
    ValidKnowsLocks(s);
    if s.PhaseOf(task).Assigned? || s.PhaseOf(task).Holding? {
      HandOverAgrees(s, task);
      if OwnsGrant(s, task, grant) && forall u: Task :: !WaitsForGrant(s, u, grant) {
        var queue := s.locks[s.PhaseOf(task).lock].queue;
        assert queue != [] ==> WaitsForGrant(s, queue[0], grant);
        forall u: Task ensures !OwnsGrant(Next(s, step), u, grant) {
          if u != task && OwnsGrant(s, u, grant) {
            OneOwner(s, task, u, grant);
          }
        }
      }
    }
  }

  /** So the guard of a dropped guard's grant is free to the next call: it has looked the grant up, and polls. */
  lemma NextPollHasGuard(s: State, step: Step, task: Task, grant: Grant, next: Task)
    requires Valid(s) && LetsGoOf(s, step, task) && OwnsGrant(s, task, grant)
    requires forall u: Task :: !WaitsForGrant(s, u, grant)
    requires next != task && s.PhaseOf(next).LookedUp? && s.PhaseOf(next).grant == grant
    ensures LocksKnown(s) && LocksKnown(Next(s, step))
    ensures Next(Next(s, step), Poll(next)).PhaseOf(next) == Holding(grant, s.PhaseOf(next).lock)
  {
    hide Valid, HandedOver;
    LettingGoFrees(s, step, task, grant);
    StepKeepsValid(s, step);
    GetsGuard(Next(s, step), next, grant);
  }

  lemma GetsGuard(s: State, task: Task, grant: Grant)
    requires Valid(s) && s.PhaseOf(task).LookedUp? && s.PhaseOf(task).grant == grant
    requires forall u: Task :: u != task ==> !OwnsGrant(s, u, grant)
    ensures LocksKnown(s) && Next(s, Poll(task)).PhaseOf(task) == Holding(grant, s.PhaseOf(task).lock)
  {
    PollAcquiresExactlyWhen(s, task);
    StepKeepsLock(s, Poll(task), task);
  }

  // ---------- schedules ----------

  /** The state in which the step at `k` is taken. */
  ghost function StateAt(s: State, steps: seq<Step>, k: nat): (at: State)
    requires Valid(s) && k <= |steps|
    ensures Valid(at)
  {
    RunFrom(s, steps[..k])
  }

  lemma {:induction false} RunFromLast(s: State, steps: seq<Step>, step: Step)
    requires Valid(s)
    ensures RunFrom(s, steps + [step]) == StepOf(RunFrom(s, steps), step)
    decreases |steps|
  {
    hide StepOf, Valid;
    if steps == [] {
      assert [step][1..] == [] && [] + [step] == [step];
    } else {
      assert (steps + [step])[1..] == steps[1..] + [step];
      RunFromLast(StepOf(s, steps[0]), steps[1..], step);
    }
  }

  lemma NextState(s: State, steps: seq<Step>, k: nat)
    requires Valid(s) && k < |steps|
    ensures StateAt(s, steps, k + 1) == StepOf(StateAt(s, steps, k), steps[k])
  {
    hide Valid, StepOf, RunFrom;
    RunFromLast(s, steps[..k], steps[k]);
    assert steps[..k + 1] == steps[..k] + [steps[k]];
  }

  /** The task lets go in step `k` of the schedule. */
  ghost predicate LetsGoAt(s: State, steps: seq<Step>, task: Task, k: int)
    requires Valid(s)
  {
    0 <= k < |steps| && LetsGoOf(StateAt(s, steps, k), steps[k], task)
  }

  /** From step `k` on the task does not let go, up to step `n`. */
  ghost predicate KeepsFrom(s: State, steps: seq<Step>, task: Task, k: int, n: nat)
    requires Valid(s)
  {
    forall m :: k <= m < n ==> !LetsGoAt(s, steps, task, m)
  }

  /** Whoever comes to be on a grant looks it up, and whoever lets go is no more on it. */
  lemma OnGrantByStep(s: State, step: Step, task: Task, grant: Grant)
    requires Valid(s) && OnGrant(StepOf(s, step), task, grant)
    ensures !LetsGoOf(s, step, task)
    ensures OnGrant(s, task, grant) || step == LookUp(task, grant)
  {
    ValidKnowsLocks(s);
    if LetsGoOf(s, step, task) {
      LettingGoFrees(s, step, task, grant);
    } else if !OnGrant(s, task, grant) && step != LookUp(task, grant) {
      if s.PhaseOf(task).Engaged() {
        StepKeepsLock(s, step, task);
      } else {
        IdleStaysIdle(s, step, task);
      }
    }
  }

  /** Only its own look-up engages a task. */
  lemma IdleStaysIdle(s: State, step: Step, task: Task)
    requires Valid(s) && !s.PhaseOf(task).Engaged() && !(step.LookUp? && step.task == task)
    ensures !StepOf(s, step).PhaseOf(task).Engaged()
  {
    hide Valid, Agrees, LocksKnown;
    ValidKnowsLocks(s);
    if step.DropGuard? && s.PhaseOf(step.task).Holding? {
      HandOverAgrees(s, step.task);
    } else if step.Cancel? && s.PhaseOf(step.task).Assigned? {
      HandOverAgrees(s, step.task);
    }
  }

  /** A task on a grant was on it from the start, or looked it up at some step, and has not let go since. */
  lemma {:induction false} OnGrantSince(s: State, steps: seq<Step>, n: nat, task: Task, grant: Grant)
    requires Valid(s) && n <= |steps| && OnGrant(StateAt(s, steps, n), task, grant)
    ensures || (OnGrant(s, task, grant) && KeepsFrom(s, steps, task, 0, n))
            || exists k :: 0 <= k < n && steps[k] == LookUp(task, grant) && KeepsFrom(s, steps, task, k + 1, n)
  {
    hide Valid, StepOf, OnGrant, LetsGoOf;
    if n == 0 {
      assert steps[..0] == [];
    } else {
      NextState(s, steps, n - 1);
      OnGrantByStep(StateAt(s, steps, n - 1), steps[n - 1], task, grant);
      if OnGrant(StateAt(s, steps, n - 1), task, grant) {
        OnGrantSince(s, steps, n - 1, task, grant);
        if k :| 0 <= k < n - 1 && steps[k] == LookUp(task, grant) && KeepsFrom(s, steps, task, k + 1, n - 1) {
          assert KeepsFrom(s, steps, task, k + 1, n);
        }
      } else {
        assert steps[n - 1] == LookUp(task, grant) && KeepsFrom(s, steps, task, n, n);
      }
    }
  }

  /**
   Once every other task that was on the grant or looked it up has let go again, whatever else happened in
   between, a task that has looked the grant up and polls has its guard at once.
   */
  lemma FreeOnceAllLetGo(s: State, steps: seq<Step>, task: Task, grant: Grant)
    requires Valid(s)
    requires forall u: Task :: u != task && OnGrant(s, u, grant) ==> exists m :: LetsGoAt(s, steps, u, m)
    requires forall u: Task, k :: u != task && 0 <= k < |steps| && steps[k] == LookUp(u, grant) ==>
               exists m :: k < m && LetsGoAt(s, steps, u, m)
    requires RunFrom(s, steps).PhaseOf(task).LookedUp? && RunFrom(s, steps).PhaseOf(task).grant == grant
    ensures LocksKnown(RunFrom(s, steps))
    ensures Next(RunFrom(s, steps), Poll(task)).PhaseOf(task) == Holding(grant, RunFrom(s, steps).PhaseOf(task).lock)
  {
    hide Valid, Next;
    var n := |steps|;
    assert steps[..n] == steps;
    forall u: Task | u != task ensures !OwnsGrant(RunFrom(s, steps), u, grant) {
      if OnGrant(StateAt(s, steps, n), u, grant) {
        OnGrantSince(s, steps, n, u, grant);
        assert false;
      }
    }
    GetsGuard(RunFrom(s, steps), task, grant);
  }

  // ---------- hand-overs ----------

  /** In step `k` of the schedule the owner of the lock lets go. */
  ghost predicate HandsOverAt(s: State, steps: seq<Step>, lock: nat, k: int)
    requires Valid(s)
  {
    && 0 <= k < |steps|
    && exists u: Task :: StateAt(s, steps, k).PhaseOf(u).Owns(lock) && LetsGoOf(StateAt(s, steps, k), steps[k], u)
  }

  lemma LetsGoIsOwner(s: State, step: Step, lock: nat)
    ensures LetsGo(s, step, lock) <==> exists u: Task :: s.PhaseOf(u).Owns(lock) && LetsGoOf(s, step, u)
  {
    if LetsGo(s, step, lock) {
      assert s.PhaseOf(step.task).Owns(lock) && LetsGoOf(s, step, step.task);
    }
  }

  lemma StateAfterFirst(s: State, steps: seq<Step>, k: nat)
    requires Valid(s) && 0 < k <= |steps|
    ensures StateAt(s, steps, k) == StateAt(StepOf(s, steps[0]), steps[1..], k - 1)
  {
    assert steps[..k][0] == steps[0] && steps[..k][1..] == steps[1..][..k - 1];
  }

  /** The hand-overs of a lock are counted at exactly the steps by which its owner lets go. */
  lemma {:induction false} HandOversAre(s: State, steps: seq<Step>, lock: nat) returns (at: seq<nat>)
    requires Valid(s)
    ensures |at| == HandOvers(s, steps, lock) && forall i, j :: 0 <= i < j < |at| ==> at[i] < at[j]
    ensures forall k: nat :: k in at <==> HandsOverAt(s, steps, lock, k)
    decreases |steps|
  {
    hide Valid, StepOf, Next, LetsGo, LetsGoOf;
    at := [];
    if steps != [] {
      var next, rest := StepOf(s, steps[0]), steps[1..];
      var later := HandOversAre(next, rest, lock);
      at := (if LetsGo(s, steps[0], lock) then [0] else []) + Shifted(later);
      CountedFirst(s, steps, lock);
      forall k: nat ensures k in at <==> HandsOverAt(s, steps, lock, k) {
        ShiftedMembers(later, k);
        if k > 0 {
          FirstOrLater(s, steps, lock, k);
        }
      }
    }
  }

  lemma CountedFirst(s: State, steps: seq<Step>, lock: nat)
    requires Valid(s) && steps != []
    ensures HandOvers(s, steps, lock) == (if LetsGo(s, steps[0], lock) then 1 else 0) + HandOvers(StepOf(s, steps[0]), steps[1..], lock)
    ensures HandsOverAt(s, steps, lock, 0) <==> LetsGo(s, steps[0], lock)
  {
    hide Valid, LetsGo, LetsGoOf;
    assert steps[..0] == [] && StateAt(s, steps, 0) == s;
    LetsGoIsOwner(s, steps[0], lock);
  }

  lemma FirstOrLater(s: State, steps: seq<Step>, lock: nat, k: nat)
    requires Valid(s) && steps != [] && k > 0
    ensures HandsOverAt(s, steps, lock, k) <==> HandsOverAt(StepOf(s, steps[0]), steps[1..], lock, k - 1)
  {
    hide Valid, LetsGoOf, StepOf;
    if k < |steps| {
      StateAfterFirst(s, steps, k);
      assert steps[k] == steps[1..][k - 1];
    }
  }
}
