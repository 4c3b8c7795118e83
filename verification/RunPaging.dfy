/**
 Newest-first paging over the runs of a session. State keeps a window of finished runs and prunes
 older records, which the gateway reads back from the log for the pages that need them.
 */
module RunPaging {
  import opened Wrappers
  import opened ApiIds
  import opened Sequences
  import opened ToolStatus

  const MAX_RETAINED_TERMINAL_RUNS := 256
  const MAX_RUN_SUMMARY_LIMIT := 100
  const DEFAULT_RUN_SUMMARY_LIMIT := 20

  datatype RunRecord = RunRecord(runId: RunId, status: ApiRunStatus)

  /** `finished` has the most recently terminal run last, so its ids need not be in order. */
  datatype RunsState = RunsState(
    lastRunId: RunId, active: Option<RunRecord>, queued: seq<RunId>,
    finished: seq<RunRecord>, prunedThrough: Option<RunId>)

  /** Reduced state, and the terminal records the log holds. */
  datatype Session = Session(runs: RunsState, log: map<RunId, RunRecord>)

  datatype RunSummary = RunSummary(id: RunId, status: ApiRunStatus)

  // ---------- the reducer's run events ----------

  datatype RunEvent =
    | Accepted(runId: RunId)
    | Started(runId: RunId)
    | Finished(runId: RunId, status: ApiRunStatus)
    | QueuedCancelled(runId: RunId)

  function Ids(records: seq<RunRecord>): (ids: seq<RunId>)
    ensures |ids| == |records|
    ensures forall i :: 0 <= i < |ids| ==> ids[i] == records[i].runId
  {
    seq(|records|, i requires 0 <= i < |records| => records[i].runId)
  }

  function HeldIds(runs: RunsState): seq<RunId> {
    Ids(runs.finished) + (if runs.active.Some? then [runs.active.value.runId] else []) + runs.queued
  }

  /** `RunsState::is_pruned`: the run reached a terminal state and only the log still holds it. */
  predicate IsPruned(runs: RunsState, id: RunId) {
    runs.prunedThrough.Some? && id <= runs.prunedThrough.value
    && id !in Ids(runs.finished) && id !in runs.queued
    && (runs.active.None? || runs.active.value.runId != id)
  }

  /** The highest of some ids and a bound. */
  function Highest(ids: seq<RunId>, bound: Option<RunId>): (r: Option<RunId>)
    ensures r.None? <==> ids == [] && bound.None?
    ensures r.Some? ==> r.value in ids || r == bound
    ensures bound.Some? ==> r.value >= bound.value
    ensures forall id :: id in ids ==> id <= r.value
  {
    if ids == [] then bound
    else
      var rest := Highest(ids[1..], bound);
      assert forall id :: id in ids ==> id == ids[0] || id in ids[1..];
      if rest.Some? && rest.value >= ids[0] then rest else Some(ids[0])
  }

  function Prune(runs: RunsState): RunsState {
    var excess := if |runs.finished| > MAX_RETAINED_TERMINAL_RUNS then |runs.finished| - MAX_RETAINED_TERMINAL_RUNS else 0;
    runs.(finished := runs.finished[excess..],
          prunedThrough := Highest(Ids(runs.finished[..excess]), runs.prunedThrough))
  }

  function Retire(s: Session, runs: RunsState, record: RunRecord): Session {
    Session(Prune(runs.(finished := runs.finished + [record])), s.log[record.runId := record])
  }

  /** An event the reducer refuses is an error and changes nothing. */
  function Apply(s: Session, e: RunEvent): Result<Session, string> {
    var runs := s.runs;
    match e
    case Accepted(id) =>
      if runs.lastRunId + 1 >= U64_LIMIT then Err("run id cursor exhausted")
      else if id != runs.lastRunId + 1 then Err("unexpected run id")
      else Ok(s.(runs := runs.(lastRunId := id, queued := runs.queued + [id])))
    case Started(id) =>
      if runs.active.Some? then Err("another run is active")
      else if runs.queued == [] then Err("no queued work")
      else if runs.queued[0] != id then Err("not the first queued run")
      else Ok(s.(runs := runs.(active := Some(RunRecord(id, RunRunning)), queued := runs.queued[1..])))
    case Finished(id, status) =>
      if runs.active.None? then Err("no active run")
      else if runs.active.value.runId != id then Err("not the active run")
      else if !status.Ended() then Err("not a terminal status")
      else Ok(Retire(s, runs.(active := None), RunRecord(id, status)))
    case QueuedCancelled(id) =>
      var k := IndexIn(runs.queued, id);
      if k == |runs.queued| then Err("queued run not found")
      else Ok(Retire(s, runs.(queued := runs.queued[..k] + runs.queued[k + 1..]), RunRecord(id, RunCancelled)))
  }

  function Step(s: Session, e: RunEvent): Session {
    match Apply(s, e) case Ok(next) => next case Err(_) => s
  }

  function Steps(s: Session, events: seq<RunEvent>): Session {
    if events == [] then s else Step(Steps(s, events[..|events| - 1]), events[|events| - 1])
  }

  const NEW_SESSION := Session(RunsState(0, None, [], [], None), map[])

  // ---------- what every session keeps ----------

  ghost predicate NoDup(ids: seq<RunId>) {
    forall i, j :: 0 <= i < j < |ids| ==> ids[i] != ids[j]
  }

  /**
   Runs are numbered from one without gaps, each is held once or is a terminal run of the log that
   `prunedThrough` covers, and that run itself is not held.
   */
  ghost predicate Consistent(s: Session) {
    var runs := s.runs;
    && NoDup(HeldIds(runs))
    && (forall id :: id in HeldIds(runs) ==> 1 <= id <= runs.lastRunId)
    && (forall id: RunId :: 1 <= id <= runs.lastRunId && id !in HeldIds(runs) ==> PastWindow(s, id))
    && (forall id :: id in s.log ==> s.log[id].runId == id && 1 <= id <= runs.lastRunId)
    && (forall r :: r in runs.finished ==> r.runId in s.log && s.log[r.runId] == r)
    && (runs.prunedThrough.Some? ==>
          1 <= runs.prunedThrough.value <= runs.lastRunId && runs.prunedThrough.value !in HeldIds(runs))
  }

  ghost predicate PastWindow(s: Session, id: RunId) {
    s.runs.prunedThrough.Some? && id <= s.runs.prunedThrough.value && id in s.log
  }

  /** And pruning starts only when the window of finished runs is full. */
  ghost predicate Valid(s: Session) {
    && Consistent(s)
    && |s.runs.finished| <= MAX_RETAINED_TERMINAL_RUNS
    && (s.runs.prunedThrough.Some? ==> |s.runs.finished| == MAX_RETAINED_TERMINAL_RUNS)
  }

  /** Retiring drops at most the oldest record, and then `prunedThrough` covers it. */
  lemma PruneDropsOldest(runs: RunsState)
    requires |runs.finished| <= MAX_RETAINED_TERMINAL_RUNS + 1
    ensures |runs.finished| <= MAX_RETAINED_TERMINAL_RUNS ==> Prune(runs) == runs
    ensures |runs.finished| > MAX_RETAINED_TERMINAL_RUNS ==>
              var oldest := runs.finished[0].runId;
              && Prune(runs) == runs.(finished := runs.finished[1..], prunedThrough := Prune(runs).prunedThrough)
              && HeldIds(runs) == [oldest] + HeldIds(Prune(runs))
              && Prune(runs).prunedThrough.Some?
              && Prune(runs).prunedThrough.value >= oldest
              && (Prune(runs).prunedThrough.value == oldest || Prune(runs).prunedThrough == runs.prunedThrough)
              && (runs.prunedThrough.Some? ==> Prune(runs).prunedThrough.value >= runs.prunedThrough.value)
  {
    if |runs.finished| <= MAX_RETAINED_TERMINAL_RUNS {
      assert Ids(runs.finished[..0]) == [];
    } else {
      assert runs.finished == [runs.finished[0]] + runs.finished[1..];
      assert Ids(runs.finished[..1]) == [runs.finished[0].runId];
      assert HeldIds(runs) == [runs.finished[0].runId] + HeldIds(runs.(finished := runs.finished[1..]));
      hide HeldIds, Ids;
    }
  }

  lemma PruneKeepsValid(s: Session)
    requires Consistent(s)
    requires |s.runs.finished| <= MAX_RETAINED_TERMINAL_RUNS + 1
    requires s.runs.prunedThrough.Some? ==> |s.runs.finished| >= MAX_RETAINED_TERMINAL_RUNS
    ensures Valid(s.(runs := Prune(s.runs)))
  {
    PruneDropsOldest(s.runs);
    if |s.runs.finished| > MAX_RETAINED_TERMINAL_RUNS {
      var oldest, before, after := s.runs.finished[0], HeldIds(s.runs), HeldIds(Prune(s.runs));
      assert oldest in s.runs.finished;
      assert before[0] == oldest.runId;
      assert forall i :: 0 <= i < |after| ==> after[i] == before[i + 1];
      assert forall id :: id in before <==> id == oldest.runId || id in after;
    }
  }

  lemma RetireKeepsValid(s: Session, runs: RunsState, record: RunRecord)
    requires Valid(s)
    requires runs.lastRunId == s.runs.lastRunId && runs.prunedThrough == s.runs.prunedThrough
    requires runs.finished == s.runs.finished
    requires NoDup(HeldIds(runs.(finished := runs.finished + [record])))
    requires forall id :: id in HeldIds(runs.(finished := runs.finished + [record])) <==> id in HeldIds(s.runs)
    requires record.runId !in Ids(runs.finished) && record.runId in HeldIds(s.runs)
    ensures Valid(Retire(s, runs, record))
  {
    var full := Session(runs.(finished := runs.finished + [record]), s.log[record.runId := record]);
    forall r | r in full.runs.finished ensures r.runId in full.log && full.log[r.runId] == r {
      if r != record {
        var k :| 0 <= k < |runs.finished| && runs.finished[k] == r;
        assert Ids(runs.finished)[k] == r.runId;
      }
    }
    forall id: RunId | 1 <= id <= runs.lastRunId && id !in HeldIds(full.runs) ensures PastWindow(full, id) {
      assert PastWindow(s, id);
    }
    PruneKeepsValid(full);
  }

  lemma NotHeld(runs: RunsState, id: RunId)
    ensures id !in HeldIds(runs) <==> id !in Ids(runs.finished) && id !in runs.queued
                                      && (runs.active.None? || runs.active.value.runId != id)
  {
  }

  lemma AcceptedKeepsValid(s: Session, id: RunId)
    requires Valid(s) && Apply(s, Accepted(id)).Ok?
    ensures Valid(Step(s, Accepted(id)))
  {
    var held := HeldIds(s.runs);
    assert HeldIds(Step(s, Accepted(id)).runs) == held + [id] && id !in held;
    forall other: RunId | 1 <= other <= id && other !in held + [id] ensures PastWindow(Step(s, Accepted(id)), other) {
      assert PastWindow(s, other);
    }
  }

  lemma StartedKeepsValid(s: Session, id: RunId)
    requires Valid(s) && Apply(s, Started(id)).Ok?
    ensures Valid(Step(s, Started(id)))
  {
    var next := Step(s, Started(id));
    assert HeldIds(next.runs) == HeldIds(s.runs);
    forall other: RunId | 1 <= other <= s.runs.lastRunId && other !in HeldIds(s.runs) ensures PastWindow(next, other) {
      assert PastWindow(s, other);
    }
  }

  lemma FinishedKeepsValid(s: Session, id: RunId, status: ApiRunStatus)
    requires Valid(s) && Apply(s, Finished(id, status)).Ok?
    ensures Valid(Step(s, Finished(id, status)))
  {
    hide Prune, Highest;
    var runs, held, record := s.runs, HeldIds(s.runs), RunRecord(id, status);
    assert HeldIds(runs.(active := None, finished := runs.finished + [record])) == held;
    assert held[|runs.finished|] == id;
    assert Ids(runs.finished) == held[..|runs.finished|];
    RetireKeepsValid(s, runs.(active := None), record);
  }

  lemma QueuedCancelledKeepsValid(s: Session, id: RunId)
    requires Valid(s) && Apply(s, QueuedCancelled(id)).Ok?
    ensures Valid(Step(s, QueuedCancelled(id)))
  {
    hide Prune, Highest;
    var runs, held, k := s.runs, HeldIds(s.runs), IndexIn(s.runs.queued, id);
    var record := RunRecord(id, RunCancelled);
    MoveKeepsNoDup(runs, k, record);
    assert held[|held| - |runs.queued| + k] == id;
    assert Ids(runs.finished) == held[..|runs.finished|];
    RetireKeepsValid(s, runs.(queued := runs.queued[..k] + runs.queued[k + 1..]), record);
  }

  lemma StepKeepsValid(s: Session, e: RunEvent)
    requires Valid(s)
    ensures Valid(Step(s, e))
  {
    if Apply(s, e).Ok? {
      match e
      case Accepted(id) => AcceptedKeepsValid(s, id);
      case Started(id) => StartedKeepsValid(s, id);
      case Finished(id, status) => FinishedKeepsValid(s, id, status);
      case QueuedCancelled(id) => QueuedCancelledKeepsValid(s, id);
    }
  }

  /** Moving a queued run to the finished ones only reorders what is held. */
  lemma MoveKeepsNoDup(runs: RunsState, k: nat, record: RunRecord)
    requires NoDup(HeldIds(runs)) && k < |runs.queued| && record.runId == runs.queued[k]
    ensures var moved := runs.(queued := runs.queued[..k] + runs.queued[k + 1..], finished := runs.finished + [record]);
            && NoDup(HeldIds(moved))
            && forall id :: id in HeldIds(moved) <==> id in HeldIds(runs)
  {
    var moved := runs.(queued := runs.queued[..k] + runs.queued[k + 1..], finished := runs.finished + [record]);
    var a, b := Ids(runs.finished), if runs.active.Some? then [runs.active.value.runId] else [];
    var q := runs.queued;
    assert Ids(moved.finished) == a + [q[k]];
    assert q == q[..k] + [q[k]] + q[k + 1..];
    assert HeldIds(runs) == a + b + (q[..k] + [q[k]] + q[k + 1..]);
    assert HeldIds(moved) == (a + [q[k]]) + b + (q[..k] + q[k + 1..]);
    assert multiset(HeldIds(moved)) == multiset(HeldIds(runs));
    NoDupIsMultisetProperty(HeldIds(runs));
    NoDupIsMultisetProperty(HeldIds(moved));
    forall id ensures id in HeldIds(moved) <==> id in HeldIds(runs) {
      assert id in HeldIds(moved) <==> id in multiset(HeldIds(moved));
      assert id in HeldIds(runs) <==> id in multiset(HeldIds(runs));
    }
  }

  lemma {:induction false} NoDupIsMultisetProperty(ids: seq<RunId>)
    ensures NoDup(ids) <==> forall id :: multiset(ids)[id] <= 1
  {
    if ids != [] {
      var n := |ids| - 1;
      assert ids == ids[..n] + [ids[n]];
      NoDupIsMultisetProperty(ids[..n]);
      if !NoDup(ids) && NoDup(ids[..n]) {
        assert ids[n] in ids[..n];
        assert multiset(ids)[ids[n]] >= 2;
      }
      if NoDup(ids) {
        assert ids[n] !in ids[..n];
      } else if !NoDup(ids[..n]) {
        var id :| multiset(ids[..n])[id] > 1;
        assert multiset(ids)[id] > 1;
      }
    }
  }

  /** Every session a sequence of events leads to is valid. */
  lemma {:induction false} ReachableIsValid(events: seq<RunEvent>)
    ensures Valid(Steps(NEW_SESSION, events))
  {
    if events != [] {
      ReachableIsValid(events[..|events| - 1]);
      StepKeepsValid(Steps(NEW_SESSION, events[..|events| - 1]), events[|events| - 1]);
    }
  }

  // ---------- one page ----------

  datatype RunPage = RunPage(runs: seq<RunSummary>, nextCursor: Option<string>, hasOlderRuns: bool)

  ghost predicate Distinct(runs: seq<RunSummary>) {
    forall i, j :: 0 <= i < j < |runs| ==> runs[i].id != runs[j].id
  }

  ghost predicate NewestFirst(runs: seq<RunSummary>) {
    forall i, j :: 0 <= i < j < |runs| ==> runs[i].id > runs[j].id
  }

  ghost predicate Lists(runs: seq<RunSummary>, id: RunId) {
    exists x :: x in runs && x.id == id
  }

  function Summaries(records: seq<RunRecord>): (r: seq<RunSummary>)
    ensures |r| == |records|
    ensures forall i :: 0 <= i < |r| ==> r[i] == RunSummary(records[i].runId, records[i].status)
  {
    seq(|records|, i requires 0 <= i < |records| => RunSummary(records[i].runId, records[i].status))
  }

  /** The runs state holds, in whichever bucket. */
  function HeldRuns(runs: RunsState): (r: seq<RunSummary>)
    ensures |r| == |HeldIds(runs)|
    ensures forall i :: 0 <= i < |r| ==> r[i].id == HeldIds(runs)[i]
  {
    Summaries(runs.finished)
    + (if runs.active.Some? then [RunSummary(runs.active.value.runId, runs.active.value.status)] else [])
    + seq(|runs.queued|, i requires 0 <= i < |runs.queued| => RunSummary(runs.queued[i], RunQueued))
  }

  function OnlyPruned(runs: RunsState, records: seq<RunRecord>): (r: seq<RunSummary>)
    ensures forall x :: x in r <==> IsPruned(runs, x.id) && RunRecord(x.id, x.status) in records
  {
    if records == [] then []
    else
      assert records == [records[0]] + records[1..];
      var rest := OnlyPruned(runs, records[1..]);
      if IsPruned(runs, records[0].runId) then [RunSummary(records[0].runId, records[0].status)] + rest else rest
  }

  function BelowCursor(runs: seq<RunSummary>, cursor: Option<RunId>): (r: seq<RunSummary>)
    ensures forall x :: x in r <==> x in runs && (cursor.None? || x.id < cursor.value)
  {
    if runs == [] then []
    else
      assert runs == [runs[0]] + runs[1..];
      var rest := BelowCursor(runs[1..], cursor);
      if cursor.None? || runs[0].id < cursor.value then [runs[0]] + rest else rest
  }

  function InsertRun(run: RunSummary, sorted: seq<RunSummary>): (r: seq<RunSummary>)
    ensures |r| == |sorted| + 1
    ensures forall x :: x in r <==> x == run || x in sorted
  {
    if sorted == [] || run.id >= sorted[0].id then [run] + sorted
    else
      assert sorted == [sorted[0]] + sorted[1..];
      [sorted[0]] + InsertRun(run, sorted[1..])
  }

  /** A stable sort by descending id. */
  function SortNewestFirst(runs: seq<RunSummary>): (r: seq<RunSummary>)
    ensures |r| == |runs|
    ensures forall x :: x in r <==> x in runs
  {
    if runs == [] then []
    else
      assert runs == [runs[0]] + runs[1..];
      InsertRun(runs[0], SortNewestFirst(runs[1..]))
  }

  lemma ConsDistinct(x: RunSummary, rest: seq<RunSummary>)
    requires Distinct(rest) && forall y :: y in rest ==> y.id != x.id
    ensures Distinct([x] + rest)
  {
    forall i, j | 0 <= i < j < |[x] + rest| ensures ([x] + rest)[i].id != ([x] + rest)[j].id {
      assert rest[j - 1] in rest;
    }
  }

  lemma {:induction false} OnlyPrunedDistinct(runs: RunsState, records: seq<RunRecord>)
    requires NoDup(Ids(records))
    ensures Distinct(OnlyPruned(runs, records))
  {
    if records != [] {
      assert Ids(records[1..]) == Ids(records)[1..];
      var rest, head := OnlyPruned(runs, records[1..]), RunSummary(records[0].runId, records[0].status);
      OnlyPrunedDistinct(runs, records[1..]);
      forall y | y in rest ensures y.id != head.id {
        var k :| 0 <= k < |records[1..]| && records[1..][k] == RunRecord(y.id, y.status);
        assert Ids(records)[0] != Ids(records)[k + 1];
      }
      ConsDistinct(head, rest);
    }
  }

  lemma {:induction false} BelowCursorDistinct(runs: seq<RunSummary>, cursor: Option<RunId>)
    requires Distinct(runs)
    ensures Distinct(BelowCursor(runs, cursor))
  {
    if runs != [] {
      var rest := BelowCursor(runs[1..], cursor);
      BelowCursorDistinct(runs[1..], cursor);
      forall y | y in rest ensures y.id != runs[0].id {
        var k :| 0 <= k < |runs[1..]| && runs[1..][k] == y;
        assert runs[k + 1] == y;
      }
      ConsDistinct(runs[0], rest);
    }
  }

  lemma {:induction false} InsertIsNewestFirst(run: RunSummary, sorted: seq<RunSummary>)
    requires NewestFirst(sorted) && forall x :: x in sorted ==> x.id != run.id
    ensures NewestFirst(InsertRun(run, sorted))
  {
    if sorted != [] && run.id < sorted[0].id {
      var rest := InsertRun(run, sorted[1..]);
      InsertIsNewestFirst(run, sorted[1..]);
      forall k | 0 <= k < |rest| ensures rest[k].id < sorted[0].id {
        assert rest[k] in rest;
        if rest[k] != run {
          var j :| 0 <= j < |sorted[1..]| && sorted[1..][j] == rest[k];
          assert sorted[j + 1] == rest[k];
        }
      }
    } else if sorted != [] {
      assert sorted[0] in sorted;
    }
  }

  lemma {:induction false} SortIsNewestFirst(runs: seq<RunSummary>)
    requires Distinct(runs)
    ensures NewestFirst(SortNewestFirst(runs))
  {
    if runs != [] {
      var rest := SortNewestFirst(runs[1..]);
      SortIsNewestFirst(runs[1..]);
      forall x | x in rest ensures x.id != runs[0].id {
        var k :| 0 <= k < |runs[1..]| && runs[1..][k] == x;
        assert runs[k + 1] == x;
      }
      InsertIsNewestFirst(runs[0], rest);
    }
  }

  function Candidates(runs: RunsState, pruned: seq<RunRecord>, cursor: Option<RunId>): seq<RunSummary> {
    SortNewestFirst(BelowCursor(HeldRuns(runs) + OnlyPruned(runs, pruned), cursor))
  }

  function SummaryPage(runs: RunsState, pruned: seq<RunRecord>, cursor: Option<RunId>, limit: nat): RunPage
    requires limit > 0 || Candidates(runs, pruned, cursor) == []
  {
    PageOf(Candidates(runs, pruned, cursor), limit)
  }

  function PageOf(sorted: seq<RunSummary>, limit: nat): RunPage
    requires limit > 0 || sorted == []
  {
    var older := |sorted| > limit;
    RunPage(if older then sorted[..limit] else sorted, if older then Some(ApiRunId(sorted[limit - 1].id)) else None, older)
  }

  /** Needs a positive limit once there is a candidate: an empty page has no last run to name. */
  method ProjectRunSummaries(runs: RunsState, pruned: seq<RunRecord>, cursor: Option<RunId>, limit: nat)
    returns (page: RunPage)
    requires limit > 0 || Candidates(runs, pruned, cursor) == []
    ensures page == SummaryPage(runs, pruned, cursor, limit)
  {
    var candidates := BelowCursor(HeldRuns(runs) + OnlyPruned(runs, pruned), cursor);
    candidates := SortNewestFirst(candidates);
    var hasOlderRuns := |candidates| > limit;
    if hasOlderRuns {
      candidates := candidates[..limit];
    }
    var nextCursor := None;
    if hasOlderRuns {
      nextCursor := Some(ApiRunId(candidates[|candidates| - 1].id));
    }
    page := RunPage(candidates, nextCursor, hasOlderRuns);
  }

  // ---------- the pruned runs a page needs ----------

  function ReadRecords(log: map<RunId, RunRecord>, from: nat, to: nat): (r: seq<RunRecord>)
    requires to <= U64_LIMIT
    requires forall id :: id in log ==> log[id].runId == id
    ensures forall x :: x in r <==> from <= x.runId < to && x.runId in log && log[x.runId] == x
    ensures NoDup(Ids(r))
    decreases if from < to then to - from else 0
  {
    if from >= to then []
    else
      var rest := ReadRecords(log, from + 1, to);
      assert forall k :: 0 <= k < |rest| ==> rest[k] in rest;
      if from in log then [log[from]] + rest else rest
  }

  /** The terminal records among the `limit` highest run ids below `before`; run ids start at one. */
  function ReadPrunedRuns(log: map<RunId, RunRecord>, before: nat, limit: nat): seq<RunRecord>
    requires before <= U64_LIMIT
    requires forall id :: id in log ==> log[id].runId == id
  {
    ReadRecords(log, if before > limit + 1 then before - limit else 1, if before > 1 then before else 1)
  }

  function CountNewer(ids: seq<RunId>, than: RunId, cursor: Option<RunId>): nat {
    if ids == [] then 0
    else (if ids[0] > than && (cursor.None? || ids[0] < cursor.value) then 1 else 0) + CountNewer(ids[1..], than, cursor)
  }

  function PrunedRunsForPage(runs: RunsState, log: map<RunId, RunRecord>, cursor: Option<RunId>, limit: nat): seq<RunRecord>
    requires forall id :: id in log ==> log[id].runId == id
  {
    if runs.prunedThrough.None? then []
    else
      var newer := CountNewer(HeldIds(runs), runs.prunedThrough.value, cursor);
      if newer > limit then []
      else
        var belowPruned := runs.prunedThrough.value + 1;
        ReadPrunedRuns(log, if cursor.Some? && cursor.value < belowPruned then cursor.value else belowPruned, limit + 1 - newer)
  }

  /** The log when it is read has every terminal record it had when state was loaded, and may have more. */
  ghost predicate LogGrew(log: map<RunId, RunRecord>, later: map<RunId, RunRecord>) {
    && (forall id :: id in log ==> id in later && later[id] == log[id])
    && (forall id :: id in later ==> later[id].runId == id)
  }

  /**
   A page as it was asked for. No limit asks for 20 runs, and none for more than 100. The page has that many
   of the runs below the cursor, or all of them; it says that there are older ones exactly when there are
   more, and its cursor is then the printed id of its last run.
   */
  ghost predicate AsAsked(page: RunPage, s: Session, after: Option<RunId>, limit: Option<nat>) {
    var last := s.runs.lastRunId;
    var below := if after.None? || after.value > last then last else if after.value == 0 then 0 else after.value - 1;
    var most := if limit.None? then 20 else if limit.value > 100 then 100 else limit.value;
    && |page.runs| == (if below < most then below else most)
    && (forall k :: 0 <= k < |page.runs| ==> page.runs[k].id == below - k)
    && (page.hasOlderRuns <==> below > most)
    && page.nextCursor == (if below > most then Some("run_" + Decimal(below - most + 1)) else None)
  }

  lemma WholePageIsAsAsked(s: Session, after: Option<RunId>, limit: Option<nat>)
    requires Valid(s) && limit != Some(0)
    ensures AsAsked(WholePage(s, after, PageLimit(limit)), s, after, limit)
  {
  }

  /** `session/runs/list`: state is loaded first, and the pruned runs are read from the log as it is by then. */
  method ListRuns(s: Session, later: map<RunId, RunRecord>, cursor: Option<string>, limit: Option<nat>)
    returns (r: Result<RunPage, string>)
    requires Valid(s) && LogGrew(s.log, later)
    ensures r.Ok? <==> limit != Some(0) && (cursor.None? || ParseApiRunId(cursor.value).Ok?)
    ensures r.Ok? ==>
              r.value == WholePage(s, if cursor.None? then None else Some(ParseApiRunId(cursor.value).value), PageLimit(limit))
    ensures r.Ok? ==> AsAsked(r.value, s, if cursor.None? then None else Some(ParseApiRunId(cursor.value).value), limit)
  {
    if limit == Some(0) {
      return Err("limit must be positive");
    }
    var after: Option<RunId> := None;
    if cursor.Some? {
      var parsed := ParseApiRunId(cursor.value);
      if parsed.Err? {
        return Err("invalid run id");
      }
      after := Some(parsed.value);
    }
    var pruned := PrunedRunsForPage(s.runs, later, after, PageLimit(limit));
    PageIsWhole(s, later, after, PageLimit(limit));
    WholePageIsAsAsked(s, after, limit);
    var page := ProjectRunSummaries(s.runs, pruned, after, PageLimit(limit));
    return Ok(page);
  }

  function PageLimit(limit: Option<nat>): nat {
    if limit.None? then DEFAULT_RUN_SUMMARY_LIMIT
    else if limit.value < MAX_RUN_SUMMARY_LIMIT then limit.value else MAX_RUN_SUMMARY_LIMIT
  }

  // ---------- the page of every run there is ----------

  /** The newest run below the cursor, zero if there is none. */
  function NewestBelow(s: Session, cursor: Option<RunId>): RunId {
    if cursor.Some? && cursor.value <= s.runs.lastRunId then (if cursor.value == 0 then cursor.value else cursor.value - 1)
    else s.runs.lastRunId
  }

  /** What a run's summary says of it: the record of state if state holds it, else the log's. */
  ghost function StatusOf(s: Session, id: RunId): ApiRunStatus
    requires id in HeldIds(s.runs) || id in s.log
  {
    if s.runs.active.Some? && s.runs.active.value.runId == id then s.runs.active.value.status
    else if id in s.runs.queued then RunQueued
    else if id in s.log then s.log[id].status
    else RunQueued
  }

  /** Runs from `newest` down, `limit` of them or all, with no gap and nothing left out. */
  ghost function WholePage(s: Session, cursor: Option<RunId>, limit: nat): RunPage
    requires Valid(s) && limit > 0
  {
    var newest := NewestBelow(s, cursor);
    RunPage(
      seq(if newest < limit then newest else limit, k requires 0 <= k < limit && k < newest =>
            assert newest - k in HeldIds(s.runs) || PastWindow(s, newest - k);
            RunSummary(newest - k, StatusOf(s, newest - k))),
      if newest > limit then Some(ApiRunId(newest - limit + 1)) else None,
      newest > limit)
  }

  /** The first `top` runs are the ids from `newest` down, or all of them if there are fewer. */
  ghost predicate StartsAtNewest(runs: seq<RunSummary>, newest: RunId, top: nat) {
    && (|runs| >= top || |runs| >= newest)
    && forall k :: 0 <= k < |runs| && k < top && k < newest ==> runs[k].id == newest - k
  }

  lemma {:induction false} TopOfSorted(runs: seq<RunSummary>, newest: RunId, top: nat)
    requires NewestFirst(runs)
    requires forall x :: x in runs ==> x.id <= newest
    requires forall id: RunId :: newest - top < id <= newest && id >= 1 ==> Lists(runs, id)
    ensures StartsAtNewest(runs, newest, top)
  {
    if top > 0 {
      TopOfSorted(runs, newest, top - 1);
      if top <= newest {
        var id: RunId := newest - top + 1;
        assert Lists(runs, id);
        var x :| x in runs && x.id == id;
        var q :| 0 <= q < |runs| && runs[q] == x;
        assert q >= top - 1;
        assert runs[top - 1] in runs;
        assert top > 1 ==> runs[top - 2].id == newest - (top - 2);
        assert q == top - 1;
      }
    }
  }

  lemma {:induction false} AtMostNewest(runs: seq<RunSummary>, newest: RunId)
    requires NewestFirst(runs)
    requires forall x :: x in runs ==> 1 <= x.id <= newest
    ensures |runs| <= newest
  {
    if runs != [] {
      assert runs[0] in runs;
      if |runs| > 1 {
        assert runs[1] in runs;
        var rest := runs[1..];
        forall x | x in rest ensures 1 <= x.id <= newest - 1 {
          var k :| 0 <= k < |rest| && rest[k] == x;
          assert runs[k + 1] == x && runs[k + 1] in runs;
        }
        AtMostNewest(rest, newest - 1);
      }
    }
  }

  /** State holds the run, or it is pruned and its record is among those read back. */
  ghost predicate Reaches(s: Session, pruned: seq<RunRecord>, id: RunId) {
    id in HeldIds(s.runs) || (IsPruned(s.runs, id) && id in s.log && s.log[id] in pruned)
  }

  /** What is held and what is read back never name the same run. */
  lemma AllDistinct(s: Session, pruned: seq<RunRecord>)
    requires NoDup(HeldIds(s.runs)) && NoDup(Ids(pruned))
    ensures Distinct(HeldRuns(s.runs) + OnlyPruned(s.runs, pruned))
  {
    var held, past := HeldRuns(s.runs), OnlyPruned(s.runs, pruned);
    OnlyPrunedDistinct(s.runs, pruned);
    hide OnlyPruned, Ids;
    var all := held + past;
    forall i, j | 0 <= i < j < |all| ensures all[i].id != all[j].id {
      if i < |held| <= j {
        assert past[j - |held|] in past;
        NotHeld(s.runs, past[j - |held|].id);
        assert HeldIds(s.runs)[i] == all[i].id;
      }
    }
  }

  lemma CandidatesSorted(s: Session, pruned: seq<RunRecord>, cursor: Option<RunId>)
    requires NoDup(HeldIds(s.runs)) && NoDup(Ids(pruned))
    ensures NewestFirst(Candidates(s.runs, pruned, cursor))
  {
    AllDistinct(s, pruned);
    BelowCursorDistinct(HeldRuns(s.runs) + OnlyPruned(s.runs, pruned), cursor);
    SortIsNewestFirst(BelowCursor(HeldRuns(s.runs) + OnlyPruned(s.runs, pruned), cursor));
  }

  /** The candidates are runs of the session below the cursor, each once, shown as the session has it. */
  lemma CandidatesAreRuns(s: Session, pruned: seq<RunRecord>, cursor: Option<RunId>)
    requires Valid(s)
    requires NoDup(Ids(pruned))
    requires forall x :: x in pruned && IsPruned(s.runs, x.runId) ==> x.runId in s.log && s.log[x.runId] == x
    ensures NewestFirst(Candidates(s.runs, pruned, cursor))
    ensures forall x :: x in Candidates(s.runs, pruned, cursor) ==>
              && 1 <= x.id <= NewestBelow(s, cursor)
              && (x.id in HeldIds(s.runs) || x.id in s.log) && x.status == StatusOf(s, x.id)
  {
    CandidatesSorted(s, pruned, cursor);
    forall x | x in Candidates(s.runs, pruned, cursor)
      ensures 1 <= x.id <= NewestBelow(s, cursor)
      ensures (x.id in HeldIds(s.runs) || x.id in s.log) && x.status == StatusOf(s, x.id)
    {
      if x in HeldRuns(s.runs) {
        HeldStatus(s, x);
      } else {
        NotHeld(s.runs, x.id);
        assert RunRecord(x.id, x.status) in pruned;
      }
    }
  }

  /** And every run below the cursor that is held or read back is among them. */
  lemma CandidatesReach(s: Session, pruned: seq<RunRecord>, cursor: Option<RunId>, id: RunId)
    requires Valid(s)
    requires 1 <= id <= NewestBelow(s, cursor) && Reaches(s, pruned, id)
    ensures Lists(Candidates(s.runs, pruned, cursor), id)
  {
    var held, past := HeldRuns(s.runs), OnlyPruned(s.runs, pruned);
    if id in HeldIds(s.runs) {
      var k :| 0 <= k < |held| && HeldIds(s.runs)[k] == id;
      assert held[k] in held + past;
      assert held[k] in Candidates(s.runs, pruned, cursor);
    } else {
      var x := RunSummary(id, s.log[id].status);
      assert x in past && x in held + past;
      assert x in Candidates(s.runs, pruned, cursor);
    }
  }

  /** A run is in one bucket only. */
  lemma HeldApart(runs: RunsState)
    requires NoDup(HeldIds(runs))
    ensures forall id :: id in Ids(runs.finished) ==> id !in runs.queued && (runs.active.None? || runs.active.value.runId != id)
    ensures runs.active.Some? ==> runs.active.value.runId !in runs.queued
  {
    var held, f := HeldIds(runs), |runs.finished|;
    var a := if runs.active.Some? then 1 else 0;
    assert forall i :: 0 <= i < f ==> held[i] == Ids(runs.finished)[i];
    assert forall q :: 0 <= q < |runs.queued| ==> held[f + a + q] == runs.queued[q];
    assert a == 1 ==> held[f] == runs.active.value.runId;
  }

  lemma HeldStatus(s: Session, x: RunSummary)
    requires Valid(s) && x in HeldRuns(s.runs)
    ensures x.id in HeldIds(s.runs) && x.status == StatusOf(s, x.id)
  {
    NotHeld(s.runs, x.id);
    HeldApart(s.runs);
    if x in Summaries(s.runs.finished) {
      var k :| 0 <= k < |s.runs.finished| && Summaries(s.runs.finished)[k] == x;
      assert s.runs.finished[k] in s.runs.finished;
      assert Ids(s.runs.finished)[k] == x.id;
    }
  }

  // ---------- counting ----------

  ghost function Newer(ids: seq<RunId>, than: RunId, cursor: Option<RunId>): set<RunId> {
    set id | id in ids && id > than && (cursor.None? || id < cursor.value)
  }

  lemma NoDupTail(ids: seq<RunId>)
    requires NoDup(ids) && ids != []
    ensures NoDup(ids[1..]) && ids[0] !in ids[1..]
  {
    assert forall i :: 0 <= i < |ids[1..]| ==> ids[1..][i] == ids[i + 1];
  }

  lemma NewerTail(ids: seq<RunId>, than: RunId, cursor: Option<RunId>)
    requires ids != []
    ensures Newer(ids, than, cursor)
         == (if ids[0] > than && (cursor.None? || ids[0] < cursor.value) then {ids[0]} else {}) + Newer(ids[1..], than, cursor)
  {
    assert forall id :: id in ids <==> id == ids[0] || id in ids[1..];
  }

  lemma {:induction false} CountNewerIsSize(ids: seq<RunId>, than: RunId, cursor: Option<RunId>)
    requires NoDup(ids)
    ensures CountNewer(ids, than, cursor) == |Newer(ids, than, cursor)|
  {
    if ids == [] {
      assert Newer(ids, than, cursor) == {};
    } else {
      NoDupTail(ids);
      NewerTail(ids, than, cursor);
      CountNewerIsSize(ids[1..], than, cursor);
      assert ids[0] !in Newer(ids[1..], than, cursor);
    }
  }

  lemma {:induction false} RangeSize(all: set<RunId>, low: RunId, high: RunId)
    requires forall id: RunId :: id in all <==> low < id <= high
    ensures |all| == if high > low then high - low else 0
    decreases high
  {
    if high > low {
      RangeSize(all - {high}, low, high - 1);
    } else {
      assert all == {};
    }
  }

  /** Above `prunedThrough` state holds every run, so the count is a difference of ids. */
  lemma NewerIsRange(s: Session, cursor: Option<RunId>)
    requires Valid(s) && s.runs.prunedThrough.Some?
    ensures var through := s.runs.prunedThrough.value;
            CountNewer(HeldIds(s.runs), through, cursor) ==
            if NewestBelow(s, cursor) > through then NewestBelow(s, cursor) - through else 0
  {
    var through, ids := s.runs.prunedThrough.value, HeldIds(s.runs);
    CountNewerIsSize(ids, through, cursor);
    forall id: RunId ensures id in Newer(ids, through, cursor) <==> through < id <= NewestBelow(s, cursor) {
      assert 1 <= id <= s.runs.lastRunId ==> id in ids || PastWindow(s, id);
    }
    RangeSize(Newer(ids, through, cursor), through, NewestBelow(s, cursor));
  }

  // ---------- the gateway's page is the whole page ----------

  /** Whatever a page needs is held or among the pruned runs read for it. */
  lemma WindowReaches(s: Session, later: map<RunId, RunRecord>, cursor: Option<RunId>, limit: nat, id: RunId)
    requires Valid(s) && LogGrew(s.log, later) && limit > 0
    requires NewestBelow(s, cursor) - limit <= id <= NewestBelow(s, cursor) && id >= 1
    ensures Reaches(s, PrunedRunsForPage(s.runs, later, cursor, limit), id)
  {
    if id !in HeldIds(s.runs) {
      assert PastWindow(s, id);
      NotHeld(s.runs, id);
      NewerIsRange(s, cursor);
    }
  }

  /** Whatever the log has by then, a record read back of a run that state calls pruned is the one it had. */
  lemma ReadBackIsOld(s: Session, later: map<RunId, RunRecord>, cursor: Option<RunId>, limit: nat, x: RunRecord)
    requires Valid(s) && LogGrew(s.log, later)
    requires x in PrunedRunsForPage(s.runs, later, cursor, limit) && IsPruned(s.runs, x.runId)
    ensures x.runId in s.log && s.log[x.runId] == x
  {
    NotHeld(s.runs, x.runId);
    assert x.runId >= 1;
    assert PastWindow(s, x.runId);
  }

  /**
   A page with the runs read back for it, from a log that may have grown since state was loaded, is the
   page of every run of the session then: the next `limit` ids in descending order, with the cursor and
   the older-runs flag they imply.
   */
  lemma PageIsWhole(s: Session, later: map<RunId, RunRecord>, cursor: Option<RunId>, limit: nat)
    requires Valid(s) && LogGrew(s.log, later) && limit > 0
    ensures SummaryPage(s.runs, PrunedRunsForPage(s.runs, later, cursor, limit), cursor, limit) == WholePage(s, cursor, limit)
  {
    var pruned, newest := PrunedRunsForPage(s.runs, later, cursor, limit), NewestBelow(s, cursor);
    var c := Candidates(s.runs, pruned, cursor);
    forall x | x in pruned && IsPruned(s.runs, x.runId) ensures x.runId in s.log && s.log[x.runId] == x {
      ReadBackIsOld(s, later, cursor, limit, x);
    }
    CandidatesAreRuns(s, pruned, cursor);
    forall id: RunId | newest - (limit + 1) < id <= newest && id >= 1 ensures Lists(c, id) {
      WindowReaches(s, later, cursor, limit, id);
      CandidatesReach(s, pruned, cursor, id);
    }
    TopOfSorted(c, newest, limit + 1);
    AtMostNewest(c, newest);
    TopIsWhole(s, c, cursor, limit);
  }

  /** A page is whole once its runs are the newest below the cursor and it knows whether more remain. */
  lemma TopIsWhole(s: Session, c: seq<RunSummary>, cursor: Option<RunId>, limit: nat)
    requires Valid(s) && limit > 0
    requires forall x :: x in c ==> (x.id in HeldIds(s.runs) || x.id in s.log) && x.status == StatusOf(s, x.id)
    requires StartsAtNewest(c, NewestBelow(s, cursor), limit)
    requires |c| > limit <==> NewestBelow(s, cursor) > limit
    requires |c| <= NewestBelow(s, cursor)
    ensures PageOf(c, limit) == WholePage(s, cursor, limit)
  {
    var page, whole := PageOf(c, limit), WholePage(s, cursor, limit);
    assert |page.runs| == |whole.runs|;
    forall k | 0 <= k < |page.runs| ensures page.runs[k] == whole.runs[k] {
      assert c[k] in c;
    }
  }

  // ---------- terminal records stay as they are ----------

  predicate IsOpen(runs: RunsState, id: RunId) {
    id in runs.queued || (runs.active.Some? && runs.active.value.runId == id)
  }

  /** The log has terminal records of runs that are over, never of a queued or active one. */
  ghost predicate LogIsOfEnded(s: Session) {
    forall id :: id in s.log ==> !IsOpen(s.runs, id)
  }

  lemma RetireKeepsLog(s: Session, runs: RunsState, record: RunRecord)
    requires Valid(s) && LogIsOfEnded(s)
    requires forall id :: IsOpen(runs, id) ==> IsOpen(s.runs, id)
    requires IsOpen(s.runs, record.runId) && !IsOpen(runs, record.runId)
    ensures LogIsOfEnded(Retire(s, runs, record)) && LogGrew(s.log, Retire(s, runs, record).log)
  {
  }

  lemma WithoutOne(queued: seq<RunId>, k: nat)
    requires NoDup(queued) && k < |queued|
    ensures queued[k] !in queued[..k] + queued[k + 1..]
    ensures forall id :: id in queued[..k] + queued[k + 1..] ==> id in queued
  {
    var rest := queued[k + 1..];
    forall id | id in rest ensures id != queued[k] {
      var i :| 0 <= i < |rest| && rest[i] == id;
      assert queued[k + 1 + i] == id;
    }
  }

  lemma QueuedNoDup(runs: RunsState)
    requires NoDup(HeldIds(runs))
    ensures NoDup(runs.queued)
  {
    var held, n := HeldIds(runs), |HeldIds(runs)| - |runs.queued|;
    assert forall q :: 0 <= q < |runs.queued| ==> held[n + q] == runs.queued[q];
  }

  lemma StepKeepsLog(s: Session, e: RunEvent)
    requires Valid(s) && LogIsOfEnded(s)
    ensures LogIsOfEnded(Step(s, e)) && LogGrew(s.log, Step(s, e).log)
  {
    var runs := s.runs;
    if Apply(s, e).Ok? {
      match e
      case Accepted(id) =>
      case Started(id) =>
      case Finished(id, status) =>
        HeldApart(runs);
        RetireKeepsLog(s, runs.(active := None), RunRecord(id, status));
      case QueuedCancelled(id) =>
        var k := IndexIn(runs.queued, id);
        HeldApart(runs);
        QueuedNoDup(runs);
        WithoutOne(runs.queued, k);
        RetireKeepsLog(s, runs.(queued := runs.queued[..k] + runs.queued[k + 1..]), RunRecord(id, RunCancelled));
    }
  }

  lemma {:induction false} ReachableLogIsOfEnded(events: seq<RunEvent>)
    ensures LogIsOfEnded(Steps(NEW_SESSION, events))
  {
    if events != [] {
      var init := events[..|events| - 1];
      ReachableIsValid(init);
      ReachableLogIsOfEnded(init);
      StepKeepsLog(Steps(NEW_SESSION, init), events[|events| - 1]);
    }
  }

  /** From any session on, a terminal record of the log stays, whatever happens. */
  lemma {:induction false} LogGrows(s: Session, events: seq<RunEvent>)
    requires Valid(s) && LogIsOfEnded(s)
    ensures Valid(Steps(s, events)) && LogIsOfEnded(Steps(s, events)) && LogGrew(s.log, Steps(s, events).log)
  {
    if events != [] {
      var init := events[..|events| - 1];
      LogGrows(s, init);
      StepKeepsLog(Steps(s, init), events[|events| - 1]);
      StepKeepsValid(Steps(s, init), events[|events| - 1]);
    }
  }
}
