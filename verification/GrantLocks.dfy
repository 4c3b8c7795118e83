/**
 `InMemoryGrantLocks`: one lock per grant in a table. A task first looks its lock up, then waits on
 it, and any number of steps of other tasks may come between. The locks hand over first come, first
 served, as the asynchronous mutex they are made of documents; a guard in hand is the phase `Holding`.
 */
module GrantLocks {
  import opened Sequences
  import opened Wrappers

  type Grant = string

  /** One call of `lock_grant`, with the guard it may return. */
  type Task = nat

  datatype Phase =
    | Idle
    | LookedUp(grant: Grant, lock: nat)
    | Waiting(grant: Grant, lock: nat)
    | Assigned(grant: Grant, lock: nat)
    | Holding(grant: Grant, lock: nat)
    | Refused
  {
    predicate Engaged() {
      !Idle? && !Refused?
    }

    /** The task owns a lock or stands in its queue. */
    predicate Queued() {
      Waiting? || Assigned? || Holding?
    }

    /** The lock is this task's: handed to it, or its guard is in hand. */
    predicate Owns(l: nat) {
      (Assigned? || Holding?) && lock == l
    }

    predicate WaitsFor(l: nat) {
      Waiting? && lock == l
    }
  }

  datatype Lock = Lock(holder: Option<Task>, queue: seq<Task>)

  datatype State = State(table: map<Grant, nat>, locks: seq<Lock>, phases: map<Task, Phase>, poisoned: bool) {
    function PhaseOf(task: Task): Phase {
      if task in phases then phases[task] else Idle
    }
  }

  datatype Step =
    | LookUp(task: Task, grant: Grant)
    | Poll(task: Task)
    | Wake(task: Task)
    | Cancel(task: Task)
    | DropGuard(task: Task)
    | Poison

  const INITIAL := State(map[], [], map[], false)

  ghost predicate NoRepeats(queue: seq<Task>) {
    forall i, j :: 0 <= i < j < |queue| ==> queue[i] != queue[j]
  }

  /** A lock and the tasks agree on who owns it and who waits for it; none waits for a free lock. */
  ghost predicate Agrees(s: State, l: nat)
    requires l < |s.locks|
  {
    var lock := s.locks[l];
    && (forall t: Task :: s.PhaseOf(t).Owns(l) <==> lock.holder == Some(t))
    && (forall t: Task :: s.PhaseOf(t).WaitsFor(l) <==> t in lock.queue)
    && NoRepeats(lock.queue)
    && (lock.holder.None? ==> lock.queue == [])
  }

  /** Different grants have different locks, and every task has the lock its grant has in the table. */
  ghost predicate Valid(s: State) {
    && (forall g :: g in s.table ==> s.table[g] < |s.locks|)
    && (forall g, h :: g in s.table && h in s.table && s.table[g] == s.table[h] ==> g == h)
    && (forall t :: t in s.phases && s.phases[t].Engaged() ==>
          s.phases[t].grant in s.table && s.table[s.phases[t].grant] == s.phases[t].lock)
    && (forall l :: 0 <= l < |s.locks| ==> Agrees(s, l))
  }

  /** `locks.entry(grant).or_default().clone()`, unless the table is poisoned. */
  function LookedUpBy(s: State, task: Task, grant: Grant): State {
    if !s.PhaseOf(task).Idle? then s
    else if s.poisoned then s.(phases := s.phases[task := Refused])
    else if grant in s.table then s.(phases := s.phases[task := LookedUp(grant, s.table[grant])])
    else
      s.(table := s.table[grant := |s.locks|], locks := s.locks + [Lock(None, [])],
      phases := s.phases[task := LookedUp(grant, |s.locks|)])
  }

  /** The first poll of `lock_owned`. */
  function PolledBy(s: State, task: Task): State
    requires s.PhaseOf(task).LookedUp? ==> s.PhaseOf(task).lock < |s.locks|
  {
    match s.PhaseOf(task)
    case LookedUp(grant, l) =>
      var lock := s.locks[l];
      if lock.holder.None? then
        s.(locks := s.locks[l := lock.(holder := Some(task))], phases := s.phases[task := Holding(grant, l)])
      else
        s.(locks := s.locks[l := lock.(queue := lock.queue + [task])], phases := s.phases[task := Waiting(grant, l)])
    case _ => s
  }

  /** An owner lets go: the lock is the first waiter's, who can go on when next polled. */
  function HandedOver(s: State, task: Task): State
    requires s.PhaseOf(task).Assigned? || s.PhaseOf(task).Holding?
    requires s.PhaseOf(task).lock < |s.locks|
  {
    var l := s.PhaseOf(task).lock;
    var queue, idle := s.locks[l].queue, s.phases[task := Idle];
    if queue == [] then s.(locks := s.locks[l := Lock(None, [])], phases := idle)
    else
      s.(locks := s.locks[l := Lock(Some(queue[0]), queue[1..])],
      phases := idle[queue[0] := Assigned(s.PhaseOf(task).grant, l)])
  }

  function Without(queue: seq<Task>, task: Task): seq<Task> {
    if queue == [] then []
    else if queue[0] == task then queue[1..] else [queue[0]] + Without(queue[1..], task)
  }

  /** The call is dropped before it has a guard. */
  function CancelledBy(s: State, task: Task): State
    requires s.PhaseOf(task).Engaged() ==> s.PhaseOf(task).lock < |s.locks|
  {
    match s.PhaseOf(task)
    case Waiting(_, l) =>
      var lock := s.locks[l];
      s.(locks := s.locks[l := lock.(queue := Without(lock.queue, task))], phases := s.phases[task := Idle])
    case Assigned(_, _) => HandedOver(s, task)
    case Holding(_, _) => s
    case _ => s.(phases := s.phases[task := Idle])
  }

  ghost predicate LocksKnown(s: State) {
    forall t: Task :: s.PhaseOf(t).Engaged() ==> s.PhaseOf(t).lock < |s.locks|
  }

  /** What a step does; one that is not enabled does nothing. */
  ghost function Next(s: State, step: Step): State
    requires LocksKnown(s)
  {
    match step
    case LookUp(task, grant) => LookedUpBy(s, task, grant)
    case Poll(task) => PolledBy(s, task)
    case Wake(task) =>
      if s.PhaseOf(task).Assigned? then
        s.(phases := s.phases[task := Holding(s.PhaseOf(task).grant, s.PhaseOf(task).lock)])
      else s
    case Cancel(task) => CancelledBy(s, task)
    case DropGuard(task) => if s.PhaseOf(task).Holding? then HandedOver(s, task) else s
    case Poison => s.(poisoned := true)
  }

  lemma ValidKnowsLocks(s: State)
    requires Valid(s)
    ensures LocksKnown(s)
  {
  }

  // ---------- every step keeps the invariant ----------

  lemma TailOf(queue: seq<Task>)
    requires NoRepeats(queue) && queue != []
    ensures forall t: Task :: t in queue[1..] <==> t in queue && t != queue[0]
    ensures NoRepeats(queue[1..])
  {
    forall k | 0 <= k < |queue[1..]| ensures queue[1..][k] != queue[0] {
      assert queue[1..][k] == queue[k + 1];
    }
    assert queue == [queue[0]] + queue[1..];
  }

  lemma ConsNoRepeats(first: Task, rest: seq<Task>)
    requires NoRepeats(rest) && first !in rest
    ensures NoRepeats([first] + rest)
    ensures forall t: Task :: t in [first] + rest <==> t == first || t in rest
  {
  }

  lemma {:induction false} WithoutRemoves(queue: seq<Task>, task: Task)
    requires NoRepeats(queue)
    ensures forall t: Task :: t in Without(queue, task) <==> t in queue && t != task
    ensures NoRepeats(Without(queue, task))
  {
    if queue != [] {
      TailOf(queue);
      if queue[0] != task {
        WithoutRemoves(queue[1..], task);
        ConsNoRepeats(queue[0], Without(queue[1..], task));
      }
    }
  }

  /** Only the phases of the tasks of one lock changed, and that lock. */
  ghost predicate OnlyLock(s: State, s': State, l: nat) {
    && s'.table == s.table && |s'.locks| == |s.locks| && l < |s.locks|
    && (forall k :: 0 <= k < |s.locks| && k != l ==> s'.locks[k] == s.locks[k])
    && (forall t: Task :: s'.PhaseOf(t) == s.PhaseOf(t) || (At(s, t, l) && (At(s', t, l) || !s'.PhaseOf(t).Engaged())))
  }

  predicate At(s: State, task: Task, l: nat) {
    s.PhaseOf(task).Engaged() && s.PhaseOf(task).lock == l
  }

  lemma OnlyLockKeepsValid(s: State, s': State, l: nat)
    requires Valid(s) && OnlyLock(s, s', l) && Agrees(s', l)
    requires forall t: Task :: At(s', t, l) ==> At(s, t, l) && s'.PhaseOf(t).grant == s.PhaseOf(t).grant
    ensures Valid(s')
  {
    forall k | 0 <= k < |s'.locks| && k != l ensures Agrees(s', k) {
      assert Agrees(s, k);
      forall t: Task ensures s'.PhaseOf(t).Owns(k) == s.PhaseOf(t).Owns(k) && s'.PhaseOf(t).WaitsFor(k) == s.PhaseOf(t).WaitsFor(k) {
      }
    }
    forall t | t in s'.phases && s'.phases[t].Engaged()
      ensures s'.phases[t].grant in s'.table && s'.table[s'.phases[t].grant] == s'.phases[t].lock
    {
      assert s'.PhaseOf(t) == s'.phases[t];
      if s'.PhaseOf(t) != s.PhaseOf(t) {
        assert At(s', t, l) && At(s, t, l);
      }
      assert t in s.phases && s.phases[t] == s.PhaseOf(t);
    }
  }

  /** A task that holds no place at any lock changes its phase, and holds none afterwards. */
  lemma UnqueuedKeepsValid(s: State, task: Task, phase: Phase)
    requires Valid(s) && !s.PhaseOf(task).Queued() && !phase.Queued()
    requires phase.Engaged() ==> phase.grant in s.table && s.table[phase.grant] == phase.lock
    ensures Valid(s.(phases := s.phases[task := phase]))
  {
    var s' := s.(phases := s.phases[task := phase]);
    forall l | 0 <= l < |s.locks| ensures Agrees(s', l) {
      assert Agrees(s, l);
      forall t: Task ensures s'.PhaseOf(t).Owns(l) == s.PhaseOf(t).Owns(l) && s'.PhaseOf(t).WaitsFor(l) == s.PhaseOf(t).WaitsFor(l) {
      }
    }
  }

  lemma NewLockKeepsValid(s: State, grant: Grant)
    requires Valid(s) && grant !in s.table
    ensures Valid(s.(table := s.table[grant := |s.locks|], locks := s.locks + [Lock(None, [])]))
  {
    var s' := s.(table := s.table[grant := |s.locks|], locks := s.locks + [Lock(None, [])]);
    forall t: Task ensures s.PhaseOf(t).Engaged() ==> s.PhaseOf(t).lock < |s.locks| {
    }
    forall l | 0 <= l < |s'.locks| ensures Agrees(s', l) {
      if l < |s.locks| {
        assert Agrees(s, l) && s'.locks[l] == s.locks[l];
      }
    }
  }

  lemma LookUpKeepsValid(s: State, task: Task, grant: Grant)
    requires Valid(s)
    ensures Valid(LookedUpBy(s, task, grant))
  {
    hide Valid;
    if s.PhaseOf(task).Idle? {
      if s.poisoned {
        UnqueuedKeepsValid(s, task, Refused);
      } else if grant in s.table {
        UnqueuedKeepsValid(s, task, LookedUp(grant, s.table[grant]));
      } else {
        NewLockKeepsValid(s, grant);
        UnqueuedKeepsValid(s.(table := s.table[grant := |s.locks|], locks := s.locks + [Lock(None, [])]),
                           task, LookedUp(grant, |s.locks|));
      }
    }
  }

  lemma PollKeepsValid(s: State, task: Task)
    requires Valid(s)
    ensures LocksKnown(s) && Valid(PolledBy(s, task))
  {
    if s.PhaseOf(task).LookedUp? {
      var s', l := PolledBy(s, task), s.PhaseOf(task).lock;
      assert Agrees(s, l);
      forall t: Task ensures s'.PhaseOf(t) == if t == task then s'.phases[task] else s.PhaseOf(t) {
      }
      assert Agrees(s', l);
      OnlyLockKeepsValid(s, s', l);
    }
  }

  lemma HandOverAgrees(s: State, task: Task)
    requires Valid(s) && (s.PhaseOf(task).Assigned? || s.PhaseOf(task).Holding?)
    ensures s.PhaseOf(task).lock < |s.locks| && Agrees(HandedOver(s, task), s.PhaseOf(task).lock)
    ensures s.locks[s.PhaseOf(task).lock].queue != [] ==>
              s.PhaseOf(s.locks[s.PhaseOf(task).lock].queue[0]) == Waiting(s.PhaseOf(task).grant, s.PhaseOf(task).lock)
  {
    var s', l := HandedOver(s, task), s.PhaseOf(task).lock;
    assert Agrees(s, l);
    var queue := s.locks[l].queue;
    if queue != [] {
      assert s.PhaseOf(queue[0]).WaitsFor(l);
      TailOf(queue);
    }
  }

  lemma HandOverKeepsValid(s: State, task: Task)
    requires Valid(s) && (s.PhaseOf(task).Assigned? || s.PhaseOf(task).Holding?)
    ensures LocksKnown(s) && Valid(HandedOver(s, task))
  {
    HandOverAgrees(s, task);
    OnlyLockKeepsValid(s, HandedOver(s, task), s.PhaseOf(task).lock);
  }

  lemma WaiterGivesUp(s: State, task: Task)
    requires Valid(s) && s.PhaseOf(task).Waiting?
    ensures LocksKnown(s) && Valid(CancelledBy(s, task))
  {
    var s', l := CancelledBy(s, task), s.PhaseOf(task).lock;
    assert Agrees(s, l);
    WithoutRemoves(s.locks[l].queue, task);
    forall t: Task ensures s'.PhaseOf(t) == if t == task then Idle else s.PhaseOf(t) {
    }
    assert Agrees(s', l);
    OnlyLockKeepsValid(s, s', l);
  }

  lemma CancelKeepsValid(s: State, task: Task)
    requires Valid(s)
    ensures LocksKnown(s) && Valid(CancelledBy(s, task))
  {
    hide Valid;
    ValidKnowsLocks(s);
    match s.PhaseOf(task)
    case Assigned(_, _) => HandOverKeepsValid(s, task);
    case Waiting(_, _) => WaiterGivesUp(s, task);
    case Holding(_, _) =>
    case _ => UnqueuedKeepsValid(s, task, Idle);
  }
  lemma WakeKeepsValid(s: State, task: Task)
    requires Valid(s)
    ensures LocksKnown(s) && Valid(Next(s, Wake(task)))
  {
    if s.PhaseOf(task).Assigned? {
      var s', l := Next(s, Wake(task)), s.PhaseOf(task).lock;
      assert Agrees(s, l);
      forall t: Task ensures s'.PhaseOf(t) == if t == task then s'.phases[task] else s.PhaseOf(t) {
      }
      assert Agrees(s', l);
      OnlyLockKeepsValid(s, s', l);
    }
  }

  lemma StepKeepsValid(s: State, step: Step)
    requires Valid(s)
    ensures LocksKnown(s) && Valid(Next(s, step))
  {
    match step
    case LookUp(task, grant) => LookUpKeepsValid(s, task, grant);
    case Poll(task) => PollKeepsValid(s, task);
    case Wake(task) => WakeKeepsValid(s, task);
    case Cancel(task) => CancelKeepsValid(s, task);
    case DropGuard(task) => if s.PhaseOf(task).Holding? { HandOverKeepsValid(s, task); }
    case Poison =>
      forall l | 0 <= l < |s.locks| ensures Agrees(Next(s, Poison), l) {
        assert Agrees(s, l);
        assert forall t: Task :: Next(s, Poison).PhaseOf(t) == s.PhaseOf(t);
      }
  }

  ghost function StepOf(s: State, step: Step): (next: State)
    requires Valid(s)
    ensures Valid(next)
  {
    StepKeepsValid(s, step);
    Next(s, step)
  }

  /** The state a schedule leads to: any steps of any tasks in any order. */
  ghost function RunFrom(s: State, steps: seq<Step>): (end: State)
    requires Valid(s)
    ensures Valid(end)
    decreases |steps|
  {
    if steps == [] then s
    else RunFrom(StepOf(s, steps[0]), steps[1..])
  }

  ghost function After(steps: seq<Step>): (s: State)
    ensures Valid(s)
  {
    InitialIsValid();
    RunFrom(INITIAL, steps)
  }

  lemma InitialIsValid()
    ensures Valid(INITIAL)
  {
  }

  // ---------- what holds under every schedule ----------

  /** A task's guard, or the hand-over of one, is for this grant. */
  predicate OwnsGrant(s: State, task: Task, grant: Grant) {
    (s.PhaseOf(task).Assigned? || s.PhaseOf(task).Holding?) && s.PhaseOf(task).grant == grant
  }

  predicate WaitsForGrant(s: State, task: Task, grant: Grant) {
    s.PhaseOf(task).Waiting? && s.PhaseOf(task).grant == grant
  }

  lemma OneOwner(s: State, t: Task, u: Task, grant: Grant)
    requires Valid(s) && OwnsGrant(s, t, grant) && OwnsGrant(s, u, grant)
    ensures t == u
  {
    var l := s.PhaseOf(t).lock;
    assert Agrees(s, l);
    assert s.PhaseOf(t).Owns(l) && s.PhaseOf(u).Owns(l);
  }

  /** At most one live guard for a grant, whatever the schedule. */
  lemma MutualExclusion(steps: seq<Step>, t: Task, u: Task)
    requires After(steps).PhaseOf(t).Holding? && After(steps).PhaseOf(u).Holding?
    requires After(steps).PhaseOf(t).grant == After(steps).PhaseOf(u).grant
    ensures t == u
  {
    OneOwner(After(steps), t, u, After(steps).PhaseOf(t).grant);
  }

  lemma StepKeepsTable(s: State, step: Step, grant: Grant)
    requires LocksKnown(s) && grant in s.table
    ensures grant in Next(s, step).table && Next(s, step).table[grant] == s.table[grant]
  {
  }

  /** An entry of the table is never removed or replaced, whatever the schedule from then on. */
  lemma {:induction false} TableOnlyGrows(s: State, steps: seq<Step>, grant: Grant)
    requires Valid(s) && grant in s.table
    ensures grant in RunFrom(s, steps).table && RunFrom(s, steps).table[grant] == s.table[grant]
    decreases |steps|
  {
    if steps != [] {
      StepKeepsValid(s, steps[0]);
      StepKeepsTable(s, steps[0], grant);
      TableOnlyGrows(Next(s, steps[0]), steps[1..], grant);
    }
  }

  /** A step by which the task itself gives up its call or its guard. */
  predicate GivesUp(step: Step, task: Task) {
    step == Cancel(task) || step == DropGuard(task)
  }

  lemma StepKeepsLock(s: State, step: Step, task: Task)
    requires Valid(s) && s.PhaseOf(task).Engaged() && !GivesUp(step, task)
    ensures LocksKnown(s)
    ensures var phase, phase' := s.PhaseOf(task), Next(s, step).PhaseOf(task);
            phase'.Engaged() && phase'.grant == phase.grant && phase'.lock == phase.lock
  {
    if step.DropGuard? && s.PhaseOf(step.task).Holding? {
      HandOverAgrees(s, step.task);
    } else if step.Cancel? && s.PhaseOf(step.task).Assigned? {
      HandOverAgrees(s, step.task);
    }
  }

  /**
   A task that looked its lock up keeps it until it gives up, whatever others do meanwhile, and it is
   still the lock the table has for the grant: whoever looks the grant up later gets the same one.
   */
  lemma {:induction false} EarlierLookupStaysCurrent(s: State, steps: seq<Step>, task: Task)
    requires Valid(s) && s.PhaseOf(task).Engaged()
    requires forall step :: step in steps ==> !GivesUp(step, task)
    ensures var end, grant := RunFrom(s, steps), s.PhaseOf(task).grant;
            && end.PhaseOf(task).Engaged() && end.PhaseOf(task).grant == grant && end.PhaseOf(task).lock == s.PhaseOf(task).lock
            && grant in end.table && end.table[grant] == s.PhaseOf(task).lock
    decreases |steps|
  {
    if steps == [] {
      assert task in s.phases;
    } else {
      StepKeepsValid(s, steps[0]);
      StepKeepsLock(s, steps[0], task);
      EarlierLookupStaysCurrent(Next(s, steps[0]), steps[1..], task);
    }
  }

  /** A task that looked its lock up gets the guard at once exactly when no task owns that grant; other grants play no part. */
  lemma PollAcquiresExactlyWhen(s: State, task: Task)
    requires Valid(s) && s.PhaseOf(task).LookedUp?
    ensures LocksKnown(s)
    ensures Next(s, Poll(task)).PhaseOf(task).Holding? <==> forall u: Task :: !OwnsGrant(s, u, s.PhaseOf(task).grant)
    ensures Next(s, Poll(task)).PhaseOf(task).Waiting? <==> exists u: Task :: OwnsGrant(s, u, s.PhaseOf(task).grant)
  {
    var grant, l := s.PhaseOf(task).grant, s.PhaseOf(task).lock;
    assert Agrees(s, l);
    if s.locks[l].holder.Some? {
      var u := s.locks[l].holder.value;
      assert s.PhaseOf(u).Owns(l);
      assert OwnsGrant(s, u, grant);
    } else {
      forall u: Task ensures !OwnsGrant(s, u, grant) {
        assert !s.PhaseOf(u).Owns(l);
      }
    }
  }

  /** The grant a step is about. */
  predicate StepConcerns(s: State, step: Step, grant: Grant) {
    match step
    case LookUp(_, g) => g == grant
    case Poison => false
    case Poll(task) => s.PhaseOf(task).Engaged() && s.PhaseOf(task).grant == grant
    case Wake(task) => s.PhaseOf(task).Engaged() && s.PhaseOf(task).grant == grant
    case Cancel(task) => s.PhaseOf(task).Engaged() && s.PhaseOf(task).grant == grant
    case DropGuard(task) => s.PhaseOf(task).Engaged() && s.PhaseOf(task).grant == grant
  }

  /** What the tasks of a grant depend on is the same in two states: their phases and their lock. */
  ghost predicate SameForGrant(s: State, s': State, grant: Grant) {
    && (forall u: Task :: s.PhaseOf(u).Engaged() && s.PhaseOf(u).grant == grant ==> s'.PhaseOf(u) == s.PhaseOf(u))
    && (forall u: Task :: s'.PhaseOf(u).Engaged() && s'.PhaseOf(u).grant == grant ==> s'.PhaseOf(u) == s.PhaseOf(u))
    && (grant in s'.table ==> grant in s.table)
    && (grant in s.table ==>
          && s.table[grant] < |s.locks| <= |s'.locks| && grant in s'.table && s'.table[grant] == s.table[grant]
          && s'.locks[s.table[grant]] == s.locks[s.table[grant]])
  }

  lemma HandOverIsLocal(s: State, task: Task, grant: Grant)
    requires Valid(s) && (s.PhaseOf(task).Assigned? || s.PhaseOf(task).Holding?) && s.PhaseOf(task).grant != grant
    ensures LocksKnown(s) && SameForGrant(s, HandedOver(s, task), grant)
  {
    HandOverAgrees(s, task);
    assert task in s.phases;
  }

  lemma LookUpIsLocal(s: State, task: Task, g: Grant, grant: Grant)
    requires Valid(s) && g != grant
    ensures SameForGrant(s, LookedUpBy(s, task, g), grant)
  {
  }

  lemma PollIsLocal(s: State, task: Task, grant: Grant)
    requires Valid(s) && (s.PhaseOf(task).Engaged() ==> s.PhaseOf(task).grant != grant)
    ensures LocksKnown(s) && SameForGrant(s, PolledBy(s, task), grant)
  {
    assert s.PhaseOf(task).Engaged() ==> task in s.phases;
  }

  lemma CancelIsLocal(s: State, task: Task, grant: Grant)
    requires Valid(s) && (s.PhaseOf(task).Engaged() ==> s.PhaseOf(task).grant != grant)
    ensures LocksKnown(s) && SameForGrant(s, CancelledBy(s, task), grant)
  {
    if s.PhaseOf(task).Assigned? {
      HandOverIsLocal(s, task, grant);
    } else {
      assert s.PhaseOf(task).Engaged() ==> task in s.phases;
    }
  }

  /** A step about another grant changes nothing for the tasks of this one. */
  lemma OtherGrantsDoNotBlock(s: State, step: Step, grant: Grant)
    requires Valid(s) && !StepConcerns(s, step, grant)
    ensures LocksKnown(s) && SameForGrant(s, Next(s, step), grant)
  {
    match step
    case LookUp(task, g) => LookUpIsLocal(s, task, g, grant);
    case Poll(task) => PollIsLocal(s, task, grant);
    case Cancel(task) => CancelIsLocal(s, task, grant);
    case DropGuard(task) => if s.PhaseOf(task).Holding? { HandOverIsLocal(s, task, grant); }
    case _ =>
  }

  lemma SameForGrantJoins(a: State, b: State, c: State, grant: Grant)
    requires SameForGrant(a, b, grant) && SameForGrant(b, c, grant)
    ensures SameForGrant(a, c, grant)
  {
  }

  /** No step of the schedule is about this grant, at the state it is taken in. */
  ghost predicate NoneConcern(s: State, steps: seq<Step>, grant: Grant)
    requires Valid(s)
    decreases |steps|
  {
    steps != [] ==>
      && !StepConcerns(s, steps[0], grant)
      && NoneConcern(StepOf(s, steps[0]), steps[1..], grant)
  }

  /** Whatever tasks do about other grants, and for however long, this grant's tasks find everything as it was. */
  lemma {:induction false} OtherSchedulesDoNotBlock(s: State, steps: seq<Step>, grant: Grant)
    requires Valid(s) && NoneConcern(s, steps, grant)
    ensures SameForGrant(s, RunFrom(s, steps), grant)
    decreases |steps|
  {
    hide Next, StepConcerns;
    if steps == [] {
      assert grant in s.table ==> s.table[grant] < |s.locks|;
    } else {
      StepKeepsValid(s, steps[0]);
      OtherGrantsDoNotBlock(s, steps[0], grant);
      OtherSchedulesDoNotBlock(Next(s, steps[0]), steps[1..], grant);
      SameForGrantJoins(s, Next(s, steps[0]), RunFrom(s, steps), grant);
    }
  }

  // ---------- a grant alone ----------

  predicate OnGrant(s: State, task: Task, grant: Grant) {
    s.PhaseOf(task).Engaged() && s.PhaseOf(task).grant == grant
  }

  function Renumbered(phase: Phase, lock: nat): Phase
    requires phase.Engaged()
  {
    phase.(lock := lock)
  }

  /**
   One state is, for a grant, like another that knows no other grant: the same tasks in the same phases,
   and the same lock, which may have another number. Who is refused there is refused for good.
   */
  ghost predicate LikeAlone(s: State, alone: State, grant: Grant) {
    && s.poisoned == alone.poisoned
    && (grant in s.table <==> grant in alone.table)
    && (grant in s.table ==>
          && s.table[grant] < |s.locks| && alone.table[grant] < |alone.locks|
          && s.locks[s.table[grant]] == alone.locks[alone.table[grant]])
    && forall u: Task :: PhaseAlike(s, alone, u, grant)
  }

  predicate PhaseAlike(s: State, alone: State, task: Task, grant: Grant) {
    if OnGrant(s, task, grant) then
      grant in alone.table && alone.PhaseOf(task) == Renumbered(s.PhaseOf(task), alone.table[grant])
    else !alone.PhaseOf(task).Engaged() && (alone.PhaseOf(task).Refused? ==> alone.poisoned)
  }

  /** What is left of a step when all that is about other grants is left out. */
  predicate Kept(s: State, step: Step, grant: Grant) {
    step.Poison? || (StepConcerns(s, step, grant) && (step.LookUp? ==> s.PhaseOf(step.task).Idle?))
  }

  lemma OtherStepStaysAlike(s: State, s': State, alone: State, grant: Grant)
    requires LikeAlone(s, alone, grant) && SameForGrant(s, s', grant) && s'.poisoned == s.poisoned
    ensures LikeAlone(s', alone, grant)
  {
    forall u: Task ensures OnGrant(s', u, grant) <==> OnGrant(s, u, grant) {
    }
    forall u: Task ensures PhaseAlike(s', alone, u, grant) {
      assert PhaseAlike(s, alone, u, grant);
    }
  }

  lemma LookUpStaysAlike(s: State, alone: State, task: Task, grant: Grant)
    requires Valid(s) && Valid(alone) && LikeAlone(s, alone, grant) && s.PhaseOf(task).Idle?
    ensures LikeAlone(LookedUpBy(s, task, grant), LookedUpBy(alone, task, grant), grant)
  {
    hide Agrees;
    assert !OnGrant(s, task, grant) && PhaseAlike(s, alone, task, grant);
    forall u: Task | OnGrant(s, u, grant) ensures grant in s.table {
      assert u in s.phases;
    }
    forall u: Task ensures PhaseAlike(LookedUpBy(s, task, grant), LookedUpBy(alone, task, grant), u, grant) {
      assert PhaseAlike(s, alone, u, grant);
    }
  }

  lemma LocksAlike(s: State, alone: State, task: Task, grant: Grant)
    requires Valid(s) && Valid(alone) && LikeAlone(s, alone, grant) && OnGrant(s, task, grant)
    ensures grant in s.table && s.PhaseOf(task).lock == s.table[grant] < |s.locks|
    ensures alone.PhaseOf(task) == Renumbered(s.PhaseOf(task), alone.table[grant]) && alone.table[grant] < |alone.locks|
    ensures s.locks[s.table[grant]] == alone.locks[alone.table[grant]]
  {
    assert task in s.phases;
    assert PhaseAlike(s, alone, task, grant);
  }

  lemma PollStaysAlike(s: State, alone: State, task: Task, grant: Grant)
    requires Valid(s) && Valid(alone) && LikeAlone(s, alone, grant) && OnGrant(s, task, grant)
    ensures LocksKnown(s) && LocksKnown(alone) && LikeAlone(PolledBy(s, task), PolledBy(alone, task), grant)
  {
    ValidKnowsLocks(s);
    ValidKnowsLocks(alone);
    LocksAlike(s, alone, task, grant);
    forall u: Task ensures PhaseAlike(PolledBy(s, task), PolledBy(alone, task), u, grant) {
      assert PhaseAlike(s, alone, u, grant);
    }
  }

  lemma HandOverStaysAlike(s: State, alone: State, task: Task, grant: Grant)
    requires Valid(s) && Valid(alone) && LikeAlone(s, alone, grant) && OwnsGrant(s, task, grant)
    ensures LocksKnown(s) && LocksKnown(alone) && (alone.PhaseOf(task).Assigned? || alone.PhaseOf(task).Holding?)
    ensures LikeAlone(HandedOver(s, task), HandedOver(alone, task), grant)
  {
    ValidKnowsLocks(s);
    ValidKnowsLocks(alone);
    LocksAlike(s, alone, task, grant);
    HandOverAgrees(s, task);
    forall u: Task ensures PhaseAlike(HandedOver(s, task), HandedOver(alone, task), u, grant) {
      assert PhaseAlike(s, alone, u, grant);
    }
  }

  lemma CancelStaysAlike(s: State, alone: State, task: Task, grant: Grant)
    requires Valid(s) && Valid(alone) && LikeAlone(s, alone, grant) && OnGrant(s, task, grant)
    ensures LocksKnown(s) && LocksKnown(alone) && LikeAlone(CancelledBy(s, task), CancelledBy(alone, task), grant)
  {
    ValidKnowsLocks(s);
    ValidKnowsLocks(alone);
    LocksAlike(s, alone, task, grant);
    if s.PhaseOf(task).Assigned? {
      HandOverStaysAlike(s, alone, task, grant);
    } else {
      forall u: Task ensures PhaseAlike(CancelledBy(s, task), CancelledBy(alone, task), u, grant) {
        assert PhaseAlike(s, alone, u, grant);
      }
    }
  }

  lemma WakeStaysAlike(s: State, alone: State, task: Task, grant: Grant)
    requires Valid(s) && Valid(alone) && LikeAlone(s, alone, grant) && OnGrant(s, task, grant)
    ensures LocksKnown(s) && LocksKnown(alone)
    ensures LikeAlone(Next(s, Wake(task)), Next(alone, Wake(task)), grant)
  {
    ValidKnowsLocks(s);
    ValidKnowsLocks(alone);
    LocksAlike(s, alone, task, grant);
    forall u: Task ensures PhaseAlike(Next(s, Wake(task)), Next(alone, Wake(task)), u, grant) {
      assert PhaseAlike(s, alone, u, grant);
    }
  }

  lemma PoisonStaysAlike(s: State, alone: State, grant: Grant)
    requires LikeAlone(s, alone, grant)
    ensures LikeAlone(s.(poisoned := true), alone.(poisoned := true), grant)
  {
    forall u: Task ensures PhaseAlike(s.(poisoned := true), alone.(poisoned := true), u, grant) {
      assert PhaseAlike(s, alone, u, grant);
    }
  }

  lemma OnlyPoisonPoisons(s: State, step: Step)
    requires LocksKnown(s) && !step.Poison?
    ensures Next(s, step).poisoned == s.poisoned
  {
  }

  lemma LookUpOfBusy(s: State, task: Task, grant: Grant)
    requires !s.PhaseOf(task).Idle?
    ensures LookedUpBy(s, task, grant) == s
  {
  }

  lemma StepStaysAlike(s: State, alone: State, step: Step, grant: Grant)
    requires Valid(s) && Valid(alone) && LikeAlone(s, alone, grant)
    ensures LocksKnown(s) && LocksKnown(alone)
    ensures LikeAlone(Next(s, step), if Kept(s, step, grant) then Next(alone, step) else alone, grant)
  {
    hide LookedUpBy, PolledBy, HandedOver, CancelledBy, LikeAlone, PhaseAlike, SameForGrant, Valid, LocksKnown;
    ValidKnowsLocks(s);
    ValidKnowsLocks(alone);
    if !step.Poison? && !StepConcerns(s, step, grant) {
      OtherGrantsDoNotBlock(s, step, grant);
      OnlyPoisonPoisons(s, step);
      OtherStepStaysAlike(s, Next(s, step), alone, grant);
    } else {
      match step
      case LookUp(task, _) =>
        if s.PhaseOf(task).Idle? {
          LookUpStaysAlike(s, alone, task, grant);
        } else {
          LookUpOfBusy(s, task, grant);
        }
      case Poll(task) => PollStaysAlike(s, alone, task, grant);
      case Wake(task) => WakeStaysAlike(s, alone, task, grant);
      case Cancel(task) => CancelStaysAlike(s, alone, task, grant);
      case DropGuard(task) =>
        LocksAlike(s, alone, task, grant);
        if s.PhaseOf(task).Holding? { HandOverStaysAlike(s, alone, task, grant); }
      case Poison => PoisonStaysAlike(s, alone, grant);
    }
  }

  /** The schedule without every step about other grants. */
  ghost function OnlyGrant(s: State, steps: seq<Step>, grant: Grant): seq<Step>
    requires Valid(s)
    decreases |steps|
  {
    if steps == [] then []
    else (if Kept(s, steps[0], grant) then [steps[0]] else []) + OnlyGrant(StepOf(s, steps[0]), steps[1..], grant)
  }

  lemma {:induction false} RunStaysAlike(s: State, alone: State, steps: seq<Step>, grant: Grant)
    requires Valid(s) && Valid(alone) && LikeAlone(s, alone, grant)
    ensures LikeAlone(RunFrom(s, steps), RunFrom(alone, OnlyGrant(s, steps, grant)), grant)
    decreases |steps|
  {
    hide Next, Kept, Valid, LikeAlone;
    if steps != [] {
      var rest := OnlyGrant(StepOf(s, steps[0]), steps[1..], grant);
      StepKeepsValid(s, steps[0]);
      StepStaysAlike(s, alone, steps[0], grant);
      if Kept(s, steps[0], grant) {
        StepKeepsValid(alone, steps[0]);
        assert ([steps[0]] + rest)[1..] == rest;
        RunStaysAlike(Next(s, steps[0]), Next(alone, steps[0]), steps[1..], grant);
      } else {
        assert [] + rest == rest;
        RunStaysAlike(Next(s, steps[0]), alone, steps[1..], grant);
      }
    }
  }

  /**
   Grants do not interfere: under every schedule this grant's tasks are in the phases, and its lock in the
   state, that the schedule without every step about other grants brings about.
   */
  lemma GrantsDoNotInterfere(steps: seq<Step>, grant: Grant)
    ensures LikeAlone(After(steps), After(OnlyGrant(INITIAL, steps, grant)), grant)
  {
    InitialIsValid();
    RunStaysAlike(INITIAL, INITIAL, steps, grant);
  }

  /** No wake-up is lost: while a task waits for a grant, some task owns it. */
  lemma WaitedForIsOwned(s: State, task: Task, grant: Grant) returns (owner: Task)
    requires Valid(s) && WaitsForGrant(s, task, grant)
    ensures OwnsGrant(s, owner, grant)
  {
    var l := s.PhaseOf(task).lock;
    assert task in s.phases && Agrees(s, l);
    assert s.PhaseOf(task).WaitsFor(l);
    owner := s.locks[l].holder.value;
    assert s.PhaseOf(owner).Owns(l);
    assert owner in s.phases;
  }

  /** Letting go, by dropping the guard or giving up a hand-over, lets some waiter of the grant go on to its guard. */
  lemma LettingGoEnablesWaiter(s: State, task: Task, grant: Grant, waiter: Task) returns (next: Task)
    requires Valid(s) && OwnsGrant(s, task, grant) && WaitsForGrant(s, waiter, grant)
    ensures LocksKnown(s) && WaitsForGrant(s, next, grant)
    ensures var s' := Next(s, if s.PhaseOf(task).Holding? then DropGuard(task) else Cancel(task));
            LocksKnown(s') && s'.PhaseOf(next).Assigned? && Next(s', Wake(next)).PhaseOf(next) == Holding(grant, s.PhaseOf(task).lock)
  {
    var l := s.PhaseOf(task).lock;
    assert Agrees(s, l) && task in s.phases && waiter in s.phases;
    assert s.PhaseOf(waiter).WaitsFor(l) && waiter in s.locks[l].queue;
    hide Valid, Agrees;
    next := s.locks[l].queue[0];
    HandOverAgrees(s, task);
    HandOverKeepsValid(s, task);
    ValidKnowsLocks(HandedOver(s, task));
  }

  // ---------- first come, first served: no waiter starves ----------

  lemma {:induction false} PlaceBehind(queue: seq<Task>, task: Task, other: Task)
    requires task in queue
    ensures IndexIn(queue + [other], task) == IndexIn(queue, task)
  {
    if queue[0] != task {
      assert (queue + [other])[1..] == queue[1..] + [other];
      PlaceBehind(queue[1..], task, other);
    }
  }

  lemma {:induction false} PlaceWithout(queue: seq<Task>, task: Task, other: Task)
    requires task in queue && task != other
    ensures task in Without(queue, other) && IndexIn(Without(queue, other), task) <= IndexIn(queue, task)
  {
    if queue[0] != task && queue[0] != other {
      PlaceWithout(queue[1..], task, other);
      var rest := Without(queue[1..], other);
      assert ([queue[0]] + rest)[1..] == rest;
    } else if queue[0] == task {
      assert Without(queue, other)[0] == task;
    }
  }

  /** The step lets the owner of this lock go. */
  predicate LetsGo(s: State, step: Step, lock: nat) {
    || (step.DropGuard? && s.PhaseOf(step.task).Holding? && s.PhaseOf(step.task).lock == lock)
    || (step.Cancel? && s.PhaseOf(step.task).Assigned? && s.PhaseOf(step.task).lock == lock)
  }

  /** A waiter is served, or waits with fewer than `left` hand-overs before its own. */
  ghost predicate InTurn(s: State, task: Task, lock: nat, left: nat) {
    || s.PhaseOf(task).Owns(lock)
    || (s.PhaseOf(task).WaitsFor(lock) && lock < |s.locks| && task in s.locks[lock].queue && IndexIn(s.locks[lock].queue, task) < left)
  }

  lemma WaitsInQueue(s: State, task: Task)
    requires Valid(s) && s.PhaseOf(task).Waiting?
    ensures s.PhaseOf(task).lock < |s.locks| && task in s.locks[s.PhaseOf(task).lock].queue
  {
    assert task in s.phases;
    var l := s.PhaseOf(task).lock;
    assert Agrees(s, l) && s.PhaseOf(task).WaitsFor(l);
  }

  /** A hand-over of the lock takes the waiter one place on, or serves it. */
  lemma HandOverServesNext(s: State, owner: Task, task: Task, left: nat)
    requires Valid(s) && (s.PhaseOf(owner).Assigned? || s.PhaseOf(owner).Holding?)
    requires s.PhaseOf(task).WaitsFor(s.PhaseOf(owner).lock) && InTurn(s, task, s.PhaseOf(owner).lock, left)
    ensures LocksKnown(s) && left > 0
    ensures if left == 1 then HandedOver(s, owner).PhaseOf(task).Owns(s.PhaseOf(owner).lock)
            else InTurn(HandedOver(s, owner), task, s.PhaseOf(owner).lock, left - 1)
  {
    hide Valid;
    ValidKnowsLocks(s);
    HandOverAgrees(s, owner);
    var queue := s.locks[s.PhaseOf(owner).lock].queue;
    if queue[0] != task {
      assert task in queue[1..];
    }
  }

  /** Any other step leaves a waiter served, or no further back. */
  lemma StepKeepsTurn(s: State, step: Step, task: Task, lock: nat, left: nat)
    requires Valid(s) && InTurn(s, task, lock, left) && !GivesUp(step, task)
    ensures LocksKnown(s)
    ensures if LetsGo(s, step, lock) && s.PhaseOf(task).WaitsFor(lock)
            then left > 0 && (if left == 1 then Next(s, step).PhaseOf(task).Owns(lock) else InTurn(Next(s, step), task, lock, left - 1))
            else InTurn(Next(s, step), task, lock, left)
  {
    ValidKnowsLocks(s);
    if s.PhaseOf(task).Owns(lock) {
      OwnerStays(s, step, task, lock);
    } else if LetsGo(s, step, lock) {
      HandOverServesNext(s, step.task, task, left);
    } else {
      WaiterStays(s, step, task, lock, left);
    }
  }

  lemma OwnerStays(s: State, step: Step, task: Task, lock: nat)
    requires Valid(s) && s.PhaseOf(task).Owns(lock) && !GivesUp(step, task)
    ensures LocksKnown(s) && Next(s, step).PhaseOf(task).Owns(lock)
  {
    if step.DropGuard? && s.PhaseOf(step.task).Holding? {
      HandOverAgrees(s, step.task);
    } else if step.Cancel? && s.PhaseOf(step.task).Assigned? {
      HandOverAgrees(s, step.task);
    }
  }

  lemma WaiterStaysOnPoll(s: State, other: Task, task: Task, lock: nat, left: nat)
    requires Valid(s) && s.PhaseOf(task).WaitsFor(lock) && InTurn(s, task, lock, left)
    ensures LocksKnown(s) && InTurn(PolledBy(s, other), task, lock, left)
  {
    hide Valid;
    ValidKnowsLocks(s);
    PlaceBehind(s.locks[lock].queue, task, other);
  }

  lemma WaiterStaysOnHandOver(s: State, owner: Task, task: Task, lock: nat, left: nat)
    requires Valid(s) && s.PhaseOf(task).WaitsFor(lock) && InTurn(s, task, lock, left)
    requires s.PhaseOf(owner).Assigned? && s.PhaseOf(owner).lock != lock
    ensures LocksKnown(s) && InTurn(HandedOver(s, owner), task, lock, left)
  {
    hide Valid, Agrees;
    ValidKnowsLocks(s);
    HandOverAgrees(s, owner);
  }

  lemma WaiterStaysOnCancel(s: State, other: Task, task: Task, lock: nat, left: nat)
    requires Valid(s) && s.PhaseOf(task).WaitsFor(lock) && InTurn(s, task, lock, left)
    requires other != task && !LetsGo(s, Cancel(other), lock)
    ensures LocksKnown(s) && InTurn(CancelledBy(s, other), task, lock, left)
  {
    hide Valid, Agrees, HandedOver, Without, IndexIn;
    ValidKnowsLocks(s);
    if s.PhaseOf(other).Assigned? {
      WaiterStaysOnHandOver(s, other, task, lock, left);
    } else {
      PlaceWithout(s.locks[lock].queue, task, other);
    }
  }
  lemma WaiterStays(s: State, step: Step, task: Task, lock: nat, left: nat)
    requires Valid(s) && s.PhaseOf(task).WaitsFor(lock) && InTurn(s, task, lock, left)
    requires !GivesUp(step, task) && !LetsGo(s, step, lock)
    ensures LocksKnown(s) && InTurn(Next(s, step), task, lock, left)
  {
    hide Valid, Agrees;
    ValidKnowsLocks(s);
    match step
    case Poll(other) => WaiterStaysOnPoll(s, other, task, lock, left);
    case Cancel(other) => WaiterStaysOnCancel(s, other, task, lock, left);
    case DropGuard(other) => if s.PhaseOf(other).Holding? { HandOverAgrees(s, other); }
    case _ =>
  }

  /** How often the lock is handed over in a schedule. */
  ghost function HandOvers(s: State, steps: seq<Step>, lock: nat): nat
    requires Valid(s)
    decreases |steps|
  {
    if steps == [] then 0
    else
      StepKeepsValid(s, steps[0]);
      (if LetsGo(s, steps[0], lock) then 1 else 0) + HandOvers(Next(s, steps[0]), steps[1..], lock)
  }

  lemma {:induction false} OwnerKeeps(s: State, steps: seq<Step>, task: Task, lock: nat)
    requires Valid(s) && s.PhaseOf(task).Owns(lock)
    requires forall step :: step in steps ==> !GivesUp(step, task)
    ensures RunFrom(s, steps).PhaseOf(task).Owns(lock)
    decreases |steps|
  {
    hide Valid, Next;
    if steps != [] {
      StepKeepsValid(s, steps[0]);
      OwnerStays(s, steps[0], task, lock);
      OwnerKeeps(Next(s, steps[0]), steps[1..], task, lock);
    }
  }

  lemma {:induction false} ServedInTurn(s: State, steps: seq<Step>, task: Task, lock: nat, left: nat)
    requires Valid(s) && InTurn(s, task, lock, left)
    requires forall step :: step in steps ==> !GivesUp(step, task)
    ensures if HandOvers(s, steps, lock) >= left then RunFrom(s, steps).PhaseOf(task).Owns(lock)
            else InTurn(RunFrom(s, steps), task, lock, left)
    decreases |steps|
  {
    hide Valid, Next;
    if steps != [] {
      StepKeepsValid(s, steps[0]);
      StepKeepsTurn(s, steps[0], task, lock, left);
      var next, rest := Next(s, steps[0]), steps[1..];
      assert forall step :: step in rest ==> step in steps;
      if s.PhaseOf(task).Owns(lock) {
        OwnerKeeps(s, steps, task, lock);
      } else if !LetsGo(s, steps[0], lock) {
        ServedInTurn(next, rest, task, lock, left);
      } else if left == 1 {
        OwnerKeeps(next, rest, task, lock);
      } else {
        ServedInTurn(next, rest, task, lock, left - 1);
      }
    }
  }

  /**
   A task at place `k` of the queue that does not give up is handed its lock after `k + 1` hand-overs at
   the latest, whatever else happens in between, and keeps it; whoever comes later cannot get in front.
   */
  lemma NoWaiterStarves(s: State, steps: seq<Step>, task: Task)
    requires Valid(s) && s.PhaseOf(task).Waiting?
    requires forall step :: step in steps ==> !GivesUp(step, task)
    ensures s.PhaseOf(task).lock < |s.locks| && task in s.locks[s.PhaseOf(task).lock].queue
    ensures var lock := s.PhaseOf(task).lock;
            HandOvers(s, steps, lock) > IndexIn(s.locks[lock].queue, task) ==> RunFrom(s, steps).PhaseOf(task).Owns(lock)
  {
    WaitsInQueue(s, task);
    var lock := s.PhaseOf(task).lock;
    ServedInTurn(s, steps, task, lock, IndexIn(s.locks[lock].queue, task) + 1);
  }

  // ---------- the table of shared locks ----------

  /** The asynchronous mutex behind one entry. `number` tells the locks apart, in the order they were made. */
  class TokioMutex {
    ghost const number: nat
    var holder: Option<Task>
    var queue: seq<Task>

    constructor (ghost number: nat)
      ensures this.number == number && Value() == Lock(None, [])
    {
      this.number := number;
      holder, queue := None, [];
    }

    function Value(): Lock
      reads this
    {
      Lock(holder, queue)
    }
  }

  datatype StoreError = TablePoisoned

  /** The table, and as ghost state all locks ever made and the phase of each call. */
  class InMemoryGrantLocks {
    var locks: map<Grant, TokioMutex>
    var poisoned: bool
    ghost var made: seq<TokioMutex>
    ghost var phases: map<Task, Phase>

    constructor ()
      ensures Linked() && Now() == INITIAL && fresh(made)
    {
      locks, poisoned, made, phases := map[], false, [], map[];
    }

    ghost predicate Linked()
      reads this, made
    {
      && (forall i :: 0 <= i < |made| ==> made[i].number == i)
      && (forall g :: g in locks ==> locks[g].number < |made| && made[locks[g].number] == locks[g])
    }

    ghost function Now(): State
      reads this, made
    {
      State(map g | g in locks :: locks[g].number,
            seq(|made|, i requires 0 <= i < |made| reads this, made => made[i].Value()), phases, poisoned)
    }

    /** `lock` is the one this task looked up, and has not let go of. */
    ghost predicate Has(task: Task, lock: TokioMutex)
      reads this
    {
      Phased(task).Engaged() && Phased(task).lock < |made| && made[Phased(task).lock] == lock
    }

    ghost function Phased(task: Task): Phase
      reads this
    {
      if task in phases then phases[task] else Idle
    }

    /** `entry(grant).or_default()`. */
    method EntryOrDefault(grant: Grant) returns (lock: TokioMutex)
      requires Linked()
      modifies this`locks, this`made
      ensures Linked() && grant in locks && locks[grant] == lock
      ensures if grant in old(locks) then locks == old(locks) && made == old(made)
              else fresh(lock) && locks == old(locks)[grant := lock] && made == old(made) + [lock] && lock.Value() == Lock(None, [])
      ensures Now().locks == old(Now()).locks + (if grant in old(locks) then [] else [Lock(None, [])])
      ensures Now().table == if grant in old(locks) then old(Now()).table else old(Now()).table[grant := |old(made)|]
    {
      if grant !in locks {
        lock := new TokioMutex(|made|);
        locks := locks[grant := lock];
        made := made + [lock];
      } else {
        lock := locks[grant];
      }
    }

    /** The first half of `lock_grant`, under the lock of the table itself. */
    method LookUpLock(task: Task, grant: Grant) returns (r: Result<TokioMutex, StoreError>)
      requires Linked() && Phased(task).Idle?
      modifies this
      ensures Linked() && Now() == LookedUpBy(old(Now()), task, grant)
      ensures r.Err? <==> old(poisoned)
      ensures r.Ok? ==> Has(task, r.value) && grant in locks && locks[grant] == r.value
    {
      if poisoned {
        phases := phases[task := Refused];
        return Err(TablePoisoned);
      }
      ghost var after := LookedUpBy(Now(), task, grant);
      var lock := EntryOrDefault(grant);
      phases := phases[task := LookedUp(grant, lock.number)];
      assert Now().table == after.table;
      assert Now().locks == after.locks;
      r := Ok(lock);
    }

    /** The second half: the first poll of `lock_owned`. It has the guard at once, or queues. */
    method LockOwned(task: Task, lock: TokioMutex) returns (held: bool)
      requires Linked() && Valid(Now()) && Has(task, lock) && Phased(task).LookedUp?
      modifies this`phases, lock
      ensures Linked() && LocksKnown(old(Now())) && Now() == Next(old(Now()), Poll(task))
      ensures held <==> Phased(task).Holding?
    {
      ghost var before, l, grant := Now(), Phased(task).lock, Phased(task).grant;
      ValidKnowsLocks(before);
      held := lock.holder.None?;
      if held {
        lock.holder := Some(task);
        phases := phases[task := Holding(grant, l)];
      } else {
        lock.queue := lock.queue + [task];
        phases := phases[task := Waiting(grant, l)];
      }
      assert Now().locks == PolledBy(before, task).locks;
    }

    /** A later poll: the call has its guard once the lock was handed to it. */
    method PollAgain(task: Task, lock: TokioMutex) returns (held: bool)
      requires Linked() && Valid(Now()) && Has(task, lock) && (Phased(task).Waiting? || Phased(task).Assigned?)
      modifies this`phases
      ensures Linked() && LocksKnown(old(Now())) && Now() == Next(old(Now()), Wake(task))
      ensures held <==> Phased(task).Holding?
    {
      ghost var before, l := Now(), Phased(task).lock;
      ValidKnowsLocks(before);
      assert Agrees(before, l) && before.locks[l] == lock.Value();
      assert before.PhaseOf(task) == Phased(task);
      assert before.PhaseOf(task).Owns(l) <==> lock.holder == Some(task);
      held := lock.holder == Some(task);
      if held {
        phases := phases[task := Holding(Phased(task).grant, l)];
      }
    }

    method HandOver(task: Task, lock: TokioMutex)
      requires Linked() && Valid(Now()) && Has(task, lock) && (Phased(task).Assigned? || Phased(task).Holding?)
      modifies this`phases, lock
      ensures Linked() && LocksKnown(old(Now())) && Now() == HandedOver(old(Now()), task)
    {
      ghost var before, l, grant := Now(), Phased(task).lock, Phased(task).grant;
      ValidKnowsLocks(before);
      phases := phases[task := Idle];
      if lock.queue == [] {
        lock.holder := None;
      } else {
        phases := phases[lock.queue[0] := Assigned(grant, l)];
        lock.holder, lock.queue := Some(lock.queue[0]), lock.queue[1..];
      }
      assert Now().locks == HandedOver(before, task).locks;
    }

    /** The drop of a `GrantLockGuard`. */
    method DropLockGuard(task: Task, lock: TokioMutex)
      requires Linked() && Valid(Now()) && Has(task, lock) && Phased(task).Holding?
      modifies this`phases, lock
      ensures Linked() && LocksKnown(old(Now())) && Now() == Next(old(Now()), DropGuard(task))
    {
      HandOver(task, lock);
    }

    /** The drop of a call that has no guard yet. */
    method DropCall(task: Task, lock: TokioMutex)
      requires Linked() && Valid(Now()) && Has(task, lock) && !Phased(task).Holding?
      modifies this`phases, lock
      ensures Linked() && LocksKnown(old(Now())) && Now() == Next(old(Now()), Cancel(task))
    {
      ghost var before, l := Now(), Phased(task).lock;
      ValidKnowsLocks(before);
      assert Agrees(before, l) && before.locks[l] == lock.Value() && before.PhaseOf(task) == Phased(task);
      assert before.PhaseOf(task).Owns(l) <==> lock.holder == Some(task);
      assert before.PhaseOf(task).WaitsFor(l) <==> task in lock.queue;
      if lock.holder == Some(task) {
        HandOver(task, lock);
      } else {
        if task in lock.queue {
          lock.queue := Without(lock.queue, task);
        }
        phases := phases[task := Idle];
        assert Now().locks == CancelledBy(before, task).locks;
      }
    }
  }
}
