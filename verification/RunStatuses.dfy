/** The status a page shows for a run: what the last event about it that the reducer took made of it. */
module RunStatuses {
  import opened Wrappers
  import opened ApiIds
  import opened Sequences
  import opened ToolStatus
  import opened RunPaging

  /** Which events the reducer takes. */
  lemma TakenExactlyWhen(s: Session, e: RunEvent)
    ensures Apply(s, e).Ok? <==>
            match e
            case Accepted(id) => id == s.runs.lastRunId + 1
            case Started(id) => s.runs.active.None? && s.runs.queued != [] && id == s.runs.queued[0]
            case Finished(id, status) =>
              && s.runs.active.Some? && s.runs.active.value.runId == id
              && (status.RunCompleted? || status.RunFailed? || status.RunCancelled?)
            case QueuedCancelled(id) => id in s.runs.queued
  {
  }

  /** What an event makes of the run it is about. */
  function StatusBy(e: RunEvent): ApiRunStatus {
    match e
    case Accepted(_) => RunQueued
    case Started(_) => RunRunning
    case Finished(_, status) => status
    case QueuedCancelled(_) => RunCancelled
  }

  ghost predicate Known(s: Session, id: RunId) {
    id in HeldIds(s.runs) || id in s.log
  }

  lemma EveryRunIsKnown(s: Session, id: RunId)
    requires Valid(s)
    ensures 1 <= id <= s.runs.lastRunId <==> Known(s, id)
  {
    assert 1 <= id <= s.runs.lastRunId ==> id in HeldIds(s.runs) || PastWindow(s, id);
  }

  lemma QueuedAfter(queued: seq<RunId>, k: nat, id: RunId)
    requires NoDup(queued) && k < |queued|
    ensures id in queued[..k] + queued[k + 1..] <==> id in queued && id != queued[k]
  {
    WithoutOne(queued, k);
    assert queued == queued[..k] + [queued[k]] + queued[k + 1..];
  }

  lemma AcceptedSets(s: Session, e: RunEvent, id: RunId)
    requires Valid(s) && LogIsOfEnded(s) && e.Accepted? && Apply(s, e).Ok? && (Known(s, id) || id == e.runId)
    ensures Known(Step(s, e), id) && StatusOf(Step(s, e), id) == if id == e.runId then RunQueued else StatusOf(s, id)
  {
    EveryRunIsKnown(s, e.runId);
    NotHeld(s.runs, e.runId);
    hide Valid, Consistent, LogIsOfEnded;
  }

  lemma StartedHeld(runs: RunsState)
    requires runs.active.None? && runs.queued != []
    ensures runs.queued[0] in HeldIds(runs)
    ensures HeldIds(runs.(active := Some(RunRecord(runs.queued[0], RunRunning)), queued := runs.queued[1..])) == HeldIds(runs)
  {
    assert runs.queued == [runs.queued[0]] + runs.queued[1..];
  }

  lemma StartedSets(s: Session, e: RunEvent, id: RunId)
    requires Valid(s) && LogIsOfEnded(s) && e.Started? && Apply(s, e).Ok? && (Known(s, id) || id == e.runId)
    ensures Known(Step(s, e), id) && StatusOf(Step(s, e), id) == if id == e.runId then RunRunning else StatusOf(s, id)
  {
    hide HeldIds, NoDup;
    var runs := s.runs;
    QueuedNoDup(runs);
    QueuedAfter(runs.queued, 0, id);
    assert runs.queued[..0] + runs.queued[1..] == runs.queued[1..];
    StartedHeld(runs);
    hide Valid, Consistent, LogIsOfEnded;
  }

  lemma FinishedSets(s: Session, e: RunEvent, id: RunId)
    requires Valid(s) && LogIsOfEnded(s) && e.Finished? && Apply(s, e).Ok? && (Known(s, id) || id == e.runId)
    ensures Known(Step(s, e), id) && StatusOf(Step(s, e), id) == if id == e.runId then e.status else StatusOf(s, id)
  {
    StepKnows(s, e, id);
    HeldApart(s.runs);
    RetireSets(s, s.runs.(active := None), RunRecord(e.runId, e.status), id);
    hide Valid, Consistent, LogIsOfEnded, Retire;
  }

  lemma QueuedCancelledSets(s: Session, e: RunEvent, id: RunId)
    requires Valid(s) && LogIsOfEnded(s) && e.QueuedCancelled? && Apply(s, e).Ok? && (Known(s, id) || id == e.runId)
    ensures Known(Step(s, e), id) && StatusOf(Step(s, e), id) == if id == e.runId then RunCancelled else StatusOf(s, id)
  {
    var runs, k := s.runs, IndexIn(s.runs.queued, e.runId);
    StepKnows(s, e, id);
    HeldApart(runs);
    QueuedNoDup(runs);
    QueuedAfter(runs.queued, k, id);
    RetireSets(s, runs.(queued := runs.queued[..k] + runs.queued[k + 1..]), RunRecord(e.runId, RunCancelled), id);
    hide Valid, Consistent, LogIsOfEnded, Retire;
  }

  lemma StepKnows(s: Session, e: RunEvent, id: RunId)
    requires Valid(s) && Apply(s, e).Ok? && (e.Finished? || e.QueuedCancelled?) && (Known(s, id) || id == e.runId)
    ensures Known(Step(s, e), id)
  {
    StepKeepsValid(s, e);
    EveryRunIsKnown(s, id);
    EveryRunIsKnown(Step(s, e), id);
    hide Valid, Prune;
    NotHeld(s.runs, e.runId);
  }

  /** An event the reducer takes sets the status of its run and of no other. */
  lemma StepSetsStatus(s: Session, e: RunEvent, id: RunId)
    requires Valid(s) && LogIsOfEnded(s) && Apply(s, e).Ok?
    requires Known(s, id) || id == e.runId
    ensures Known(Step(s, e), id)
    ensures StatusOf(Step(s, e), id) == if id == e.runId then StatusBy(e) else StatusOf(s, id)
  {
    hide Valid, LogIsOfEnded, Step, Apply, StatusOf;
    match e
    case Accepted(_) => AcceptedSets(s, e, id);
    case Started(_) => StartedSets(s, e, id);
    case Finished(_, _) => FinishedSets(s, e, id);
    case QueuedCancelled(_) => QueuedCancelledSets(s, e, id);
  }

  lemma RetireSets(s: Session, runs: RunsState, record: RunRecord, id: RunId)
    ensures var next := Retire(s, runs, record);
            && next.runs.active == runs.active && next.runs.queued == runs.queued && next.log == s.log[record.runId := record]
  {
  }

  /**
   In every session that events lead to, a run has the status that the last event about it that the reducer
   took gave it.
   */
  lemma {:induction false} StatusIsLast(events: seq<RunEvent>, k: nat)
    requires k < |events| && Apply(Steps(NEW_SESSION, events[..k]), events[k]).Ok?
    requires forall m :: k < m < |events| && events[m].runId == events[k].runId ==>
               Apply(Steps(NEW_SESSION, events[..m]), events[m]).Err?
    ensures Known(Steps(NEW_SESSION, events), events[k].runId)
    ensures StatusOf(Steps(NEW_SESSION, events), events[k].runId) == StatusBy(events[k])
  {
    hide Apply;
    var n := |events| - 1;
    var init, id := events[..n], events[k].runId;
    ReachableIsValid(init);
    ReachableLogIsOfEnded(init);
    var before := Steps(NEW_SESSION, init);
    if k < n {
      assert init[..k] == events[..k] && init[k] == events[k];
      forall m | k < m < |init| && init[m].runId == id ensures Apply(Steps(NEW_SESSION, init[..m]), init[m]).Err? {
        assert init[..m] == events[..m] && init[m] == events[m];
      }
      StatusIsLast(init, k);
      assert events[..n] == init;
    }
    if Apply(before, events[n]).Ok? {
      StepSetsStatus(before, events[n], id);
    }
  }

  /** And a page shows each of its runs with that status. */
  lemma PageShowsLast(events: seq<RunEvent>, k: nat, cursor: Option<RunId>, limit: nat, i: nat)
    requires limit > 0
    requires k < |events| && Apply(Steps(NEW_SESSION, events[..k]), events[k]).Ok?
    requires forall m :: k < m < |events| && events[m].runId == events[k].runId ==>
               Apply(Steps(NEW_SESSION, events[..m]), events[m]).Err?
    ensures Valid(Steps(NEW_SESSION, events))
    ensures var page := WholePage(Steps(NEW_SESSION, events), cursor, limit);
            i < |page.runs| && page.runs[i].id == events[k].runId ==>
              page.runs[i].status == match events[k]
                                     case Accepted(_) => RunQueued
                                     case Started(_) => RunRunning
                                     case Finished(_, status) => status
                                     case QueuedCancelled(_) => RunCancelled
  {
    hide Apply, Steps;
    ReachableIsValid(events);
    StatusIsLast(events, k);
  }
}
