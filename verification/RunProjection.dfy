/** What the projection of a run's tool batches promises, over every log. */
module RunProjection {
  import opened Wrappers
  import opened ApiIds
  import opened RunLog
  import opened ToolStatus
  import opened ToolResults
  import opened ToolBatches

  // ---------- the meaning of a call's status ----------

  /** The reducer commits a completion only with a terminal status. */
  ghost predicate ReducerCompletions(log: Log) {
    forall k :: 0 <= k < |log| && log[k].event.Tool? && log[k].event.tool.CallCompleted? ==>
      var status := log[k].event.tool.result.status;
      status.Succeeded? || status.Failed? || status.Cancelled?
  }

  ghost predicate LastDone(later: Log, key: CallKey, q: int) {
    0 <= q < |later| && Completes(later[q], key) && forall m :: q < m < |later| ==> !Completes(later[m], key)
  }

  ghost predicate HasStart(later: Log, key: CallKey) {
    exists q :: 0 <= q < |later| && Starts(later[q], key)
  }

  /**
   The last later completion decides; else the result in context; else a call that names no tool is
   unavailable; else it is running if it started; else it is requested.
   */
  ghost function Outcome(f: Facts, call: ObservedToolCall, later: Log, key: CallKey): ToolItemStatus {
    if exists q :: LastDone(later, key, q) then
      var q :| LastDone(later, key, q);
      (match later[q].event.tool.result.status
       case Succeeded => ToolItemStatus.Succeeded
       case Failed => ToolItemStatus.Failed
       case Cancelled => ToolItemStatus.Cancelled
       case Unavailable => ToolItemStatus.Unavailable
       case Accepted => Requested
       case Pending => Running)
    else if call.callId in f.results then f.results[call.callId].status
    else if call.toolId.None? then ToolItemStatus.Unavailable
    else if HasStart(later, key) then Running
    else Requested
  }

  lemma {:induction false} LastCompletionIsLast(later: Log, key: CallKey)
    ensures LastCompletion(later, key).None? <==> forall q :: 0 <= q < |later| ==> !Completes(later[q], key)
    ensures forall q :: LastDone(later, key, q) ==> LastCompletion(later, key) == Some(later[q])
    ensures LastCompletion(later, key).Some? ==> exists q :: LastDone(later, key, q)
  {
    if later != [] {
      var n := |later| - 1;
      LastCompletionIsLast(later[..n], key);
      if Completes(later[n], key) {
        assert LastDone(later, key, n);
      } else {
        forall q | LastDone(later, key, q) ensures LastDone(later[..n], key, q) {
          assert q != n;
          assert forall m :: 0 <= m < n ==> later[..n][m] == later[m];
        }
        forall q | LastDone(later[..n], key, q) ensures LastDone(later, key, q) {
          forall m | q < m < |later| ensures !Completes(later[m], key) {
            if m < n { assert later[..n][m] == later[m]; }
          }
        }
      }
    }
  }

  lemma {:induction false} StartedWithoutCompletion(later: Log, key: CallKey)
    requires forall q :: 0 <= q < |later| ==> !Completes(later[q], key)
    ensures StartedSinceCompletion(later, key) <==> HasStart(later, key)
  {
    if later != [] {
      var n := |later| - 1;
      StartedWithoutCompletion(later[..n], key);
      if HasStart(later[..n], key) {
        var q :| 0 <= q < n && Starts(later[..n][q], key);
        assert Starts(later[q], key);
      }
      if HasStart(later, key) && !Starts(later[n], key) {
        var q :| 0 <= q < |later| && Starts(later[q], key);
        assert Starts(later[..n][q], key);
      }
    }
  }

  lemma CallStatusIsOutcome(f: Facts, call: ObservedToolCall, later: Log, key: CallKey)
    requires ReducerCompletions(later)
    requires forall c :: c in f.results ==> !Live(f.results[c].status)
    ensures CallAfter(f, call, later, key, true).status == Outcome(f, call, later, key)
  {
    LastCompletionIsLast(later, key);
    if LastCompletion(later, key).None? {
      StartedWithoutCompletion(later, key);
    }
  }

  /** Where in the projection the batch started at log position `p` is. */
  ghost function BatchIndex(log: Log, p: nat, run: RunId): nat
    requires p <= |log|
  {
    if p == 0 then 0 else (if StartsBatch(log[0], run) then 1 else 0) + BatchIndex(log[1..], p - 1, run)
  }

  lemma {:induction false} BatchAt(f: Facts, log: Log, p: nat, run: RunId, taken: set<ToolBatchId>)
    requires p < |log| && StartsBatch(log[p], run)
    ensures var j, b, open := BatchIndex(log, p, run), log[p].event.tool, OpenBatches(f, log, run, taken);
            j < |open|
            && open[j] == ToolBatchView(ApiToolBatchId(b.batchId), b.turnId, Running,
                            CallsAfter(f, b.calls, log[p + 1..], run, b.batchId, b.batchId !in Taken(log[..p], run, taken)))
  {
    if p > 0 {
      var taken' := if StartsBatch(log[0], run) then taken + {log[0].event.tool.batchId} else taken;
      BatchAt(f, log[1..], p - 1, run, taken');
      assert log[1..][p..] == log[p + 1..];
      assert log[..p][1..] == log[1..][..p - 1];
    }
  }

  lemma {:induction false} TakenBefore(log: Log, run: RunId, taken: set<ToolBatchId>, batchId: ToolBatchId)
    ensures batchId in Taken(log, run, taken) <==>
            batchId in taken || exists k :: 0 <= k < |log| && StartsBatch(log[k], run) && log[k].event.tool.batchId == batchId
  {
    if log != [] {
      TakenBefore(log[1..], run, if StartsBatch(log[0], run) then taken + {log[0].event.tool.batchId} else taken, batchId);
      if exists k :: 0 <= k < |log| && StartsBatch(log[k], run) && log[k].event.tool.batchId == batchId {
        var k :| 0 <= k < |log| && StartsBatch(log[k], run) && log[k].event.tool.batchId == batchId;
        if k > 0 { assert log[1..][k - 1] == log[k]; }
      }
      if exists k :: 0 <= k < |log[1..]| && StartsBatch(log[1..][k], run) && log[1..][k].event.tool.batchId == batchId {
        var k :| 0 <= k < |log[1..]| && StartsBatch(log[1..][k], run) && log[1..][k].event.tool.batchId == batchId;
        assert log[k + 1] == log[1..][k];
      }
    }
  }

  ghost predicate FirstStart(log: Log, p: nat, run: RunId)
    requires p < |log| && StartsBatch(log[p], run)
  {
    forall k :: 0 <= k < p && StartsBatch(log[k], run) ==> log[k].event.tool.batchId != log[p].event.tool.batchId
  }

  lemma CompletesBatchByNumber(log: Log, run: RunId, batchId: ToolBatchId)
    ensures BatchCompletes(log, run, ApiToolBatchId(batchId)) <==> CompletesBatch(log, run, batchId)
  {
    if BatchCompletes(log, run, ApiToolBatchId(batchId)) {
      var k :| 0 <= k < |log| && log[k].event.Tool? && log[k].event.tool.BatchCompleted?
               && log[k].event.tool.runId == run && ApiToolBatchId(log[k].event.tool.batchId) == ApiToolBatchId(batchId);
      ToolBatchIdInjective(log[k].event.tool.batchId, batchId);
    }
  }

  /** The call at index `i` of the batch started at log position `p`, as the projection leaves it. */
  lemma ShownCall(blobs: Blobs, log: Log, run: RunId, status: ApiRunStatus, p: nat, i: nat)
    requires p < |log| && StartsBatch(log[p], run) && FirstStart(log, p, run)
    requires i < |log[p].event.tool.calls| && FirstWithId(log[p].event.tool.calls, i)
    ensures var b, batches, j := log[p].event.tool, RunBatches(blobs, log, run, status), BatchIndex(log, p, run);
            && j < |batches| && batches[j].id == ApiToolBatchId(b.batchId) && i < |batches[j].calls|
            && batches[j].calls[i] ==
               FinalCall(CallAfter(FactsOf(blobs, log, run), b.calls[i], log[p + 1..], CallKey(run, b.batchId, b.calls[i].callId), true),
                         BatchCompletes(log, run, ApiToolBatchId(b.batchId)), status.Ended())
  {
    BatchAt(FactsOf(blobs, log, run), log, p, run, {});
    TakenBefore(log[..p], run, {}, log[p].event.tool.batchId);
  }

  /** What finalisation makes of an outcome; `done` says whether the call has a completion of its own. */
  function FinalOutcome(outcome: ToolItemStatus, completed: bool, ended: bool, done: bool): ToolItemStatus {
    if completed then (if Live(outcome) then ToolItemStatus.Unavailable else outcome)
    else if ended && !done then ToolItemStatus.Cancelled
    else outcome
  }

  ghost predicate HasCompletion(later: Log, key: CallKey) {
    exists q :: LastDone(later, key, q)
  }

  lemma FinalStatus(f: Facts, call: ObservedToolCall, later: Log, key: CallKey, completed: bool, ended: bool)
    requires ReducerCompletions(later)
    requires forall c :: c in f.results ==> !Live(f.results[c].status)
    ensures FinalCall(CallAfter(f, call, later, key, true), completed, ended).status
         == FinalOutcome(Outcome(f, call, later, key), completed, ended, HasCompletion(later, key))
  {
    CallStatusIsOutcome(f, call, later, key);
    LastCompletionIsLast(later, key);
  }

  /** The log completes the batch: by its number, whatever the ids look like. */
  ghost predicate CompletesBatch(log: Log, run: RunId, batchId: ToolBatchId) {
    exists k :: 0 <= k < |log| && log[k].event.Tool? && log[k].event.tool == BatchCompleted(run, batchId)
  }

  lemma ResultsAreSettled(blobs: Blobs, log: Log, run: RunId, c: string)
    ensures c in FactsOf(blobs, log, run).results ==> !Live(FactsOf(blobs, log, run).results[c].status)
  {
  }

  /**
   The status the projection shows for each call, for every log the reducer can commit: its outcome,
   unless the batch completed with the call still live or the run ended with no completion of the call.
   */
  lemma ShownStatus(blobs: Blobs, log: Log, run: RunId, status: ApiRunStatus, p: nat, i: nat)
    requires ReducerCompletions(log)
    requires p < |log| && StartsBatch(log[p], run) && FirstStart(log, p, run)
    requires i < |log[p].event.tool.calls| && FirstWithId(log[p].event.tool.calls, i)
    ensures var b := log[p].event.tool;
            var call, later, key := b.calls[i], log[p + 1..], CallKey(run, b.batchId, b.calls[i].callId);
            var batches, j := RunBatches(blobs, log, run, status), BatchIndex(log, p, run);
            && j < |batches| && batches[j].id == ApiToolBatchId(b.batchId) && i < |batches[j].calls|
            && batches[j].calls[i].status == FinalOutcome(
                 Outcome(FactsOf(blobs, log, run), call, later, key),
                 CompletesBatch(log, run, b.batchId), status.Ended(), HasCompletion(later, key))
  {
    var b := log[p].event.tool;
    var later, completed := log[p + 1..], BatchCompletes(log, run, ApiToolBatchId(b.batchId));
    ShownCall(blobs, log, run, status, p, i);
    CompletesBatchByNumber(log, run, b.batchId);
    forall c { ResultsAreSettled(blobs, log, run, c); }
    assert ReducerCompletions(later);
    FinalStatus(FactsOf(blobs, log, run), b.calls[i], later, CallKey(run, b.batchId, b.calls[i].callId), completed, status.Ended());
  }

  // ---------- runs do not interfere ----------

  lemma {:induction false} OnlyRunAppend(a: Log, b: Log, run: RunId)
    ensures OnlyRun(a + b, run) == OnlyRun(a, run) + OnlyRun(b, run)
  {
    if a == [] {
      assert a + b == b;
    } else {
      assert (a + b)[1..] == a[1..] + b;
      OnlyRunAppend(a[1..], b, run);
    }
  }

  /** What the filter leaves of the last entry. */
  lemma OnlyRunLast(log: Log, run: RunId)
    requires log != []
    ensures var n := |log| - 1;
            OnlyRun(log, run) == OnlyRun(log[..n], run) + OnlyRun([log[n]], run)
            && |OnlyRun([log[n]], run)| <= 1
            && (log[n].event.Tool? && log[n].event.tool.runId == run ==> OnlyRun([log[n]], run) == [log[n]])
            && (log[n].event.Tool? && log[n].event.tool.runId != run ==> OnlyRun([log[n]], run) == [])
            && (!log[n].event.Tool? ==> forall e :: e in OnlyRun([log[n]], run) ==> !e.event.Tool?)
  {
    var n := |log| - 1;
    assert log == log[..n] + [log[n]];
    OnlyRunAppend(log[..n], [log[n]], run);
    assert [log[n]][1..] == [];
  }

  lemma {:induction false} CallAloneInRun(later: Log, key: CallKey)
    ensures var own := OnlyRun(later, key.runId);
            && LastCompletion(own, key) == LastCompletion(later, key)
            && LastStart(own, key) == LastStart(later, key)
            && StartedSinceCompletion(own, key) == StartedSinceCompletion(later, key)
  {
    if later != [] {
      var n := |later| - 1;
      CallAloneInRun(later[..n], key);
      OnlyRunLast(later, key.runId);
      var own, init := OnlyRun(later, key.runId), OnlyRun(later[..n], key.runId);
      if |own| == |init| {
        assert own == init;
      } else {
        assert own[..|own| - 1] == init;
        assert own[|own| - 1] in OnlyRun([later[n]], key.runId);
      }
    }
  }

  lemma {:induction false} OpenBatchesAlone(f: Facts, log: Log, run: RunId, taken: set<ToolBatchId>)
    ensures OpenBatches(f, OnlyRun(log, run), run, taken) == OpenBatches(f, log, run, taken)
  {
    if log != [] {
      var own, rest := OnlyRun(log, run), OnlyRun(log[1..], run);
      if StartsBatch(log[0], run) {
        var b := log[0].event.tool;
        OpenBatchesAlone(f, log[1..], run, taken + {b.batchId});
        assert own[1..] == rest;
        var addressed := b.batchId !in taken;
        var alone := CallsAfter(f, b.calls, rest, run, b.batchId, addressed);
        var among := CallsAfter(f, b.calls, log[1..], run, b.batchId, addressed);
        forall i | 0 <= i < |b.calls| ensures alone[i] == among[i] {
          CallAloneInRun(log[1..], CallKey(run, b.batchId, b.calls[i].callId));
        }
        assert alone == among;
      } else {
        OpenBatchesAlone(f, log[1..], run, taken);
        if own != rest {
          assert own[1..] == rest;
        }
      }
    }
  }

  lemma {:induction false} EffectsAlone(log: Log, run: RunId)
    ensures EffectsByCall(OnlyRun(log, run), run) == EffectsByCall(log, run)
    ensures AttachmentsByCall(OnlyRun(log, run), run) == AttachmentsByCall(log, run)
  {
    if log != [] {
      var n := |log| - 1;
      EffectsAlone(log[..n], run);
      OnlyRunLast(log, run);
      var own, init := OnlyRun(log, run), OnlyRun(log[..n], run);
      if |own| == |init| {
        assert own == init;
      } else {
        assert own[..|own| - 1] == init;
        assert own[|own| - 1] in OnlyRun([log[n]], run);
      }
    }
  }

  lemma {:induction false} BatchCompletesAlone(log: Log, run: RunId, id: string)
    ensures BatchCompletes(OnlyRun(log, run), run, id) <==> BatchCompletes(log, run, id)
  {
    if log != [] {
      var n := |log| - 1;
      BatchCompletesAlone(log[..n], run, id);
      OnlyRunLast(log, run);
      assert log == log[..n] + [log[n]];
      BatchCompletesOne(log[..n], log[n], run);
      var tail := OnlyRun([log[n]], run);
      if tail != [] {
        assert tail == [tail[0]];
        assert tail[0] in tail;
        BatchCompletesOne(OnlyRun(log[..n], run), tail[0], run);
      } else {
        assert OnlyRun(log, run) == OnlyRun(log[..n], run);
      }
    }
  }

  /** The log of a run alone has the run's own events and entries, and nothing else. */
  lemma {:induction false} OnlyRunIsOwn(log: Log, run: RunId, e: LogEntry)
    ensures e.event.Tool? ==> (e in OnlyRun(log, run) <==> e in log && e.event.tool.runId == run)
    ensures e.event.Approval? ==> (e in OnlyRun(log, run) <==> e in log && e.event.approval.runId == run)
    ensures e in OnlyRun(log, run) ==> !e.event.OtherEvent?
    ensures e in OnlyRun(log, run) && e.event.EntriesApplied? ==>
              e.event.entries != []
              && forall own :: own in e.event.entries ==> !own.source.ContextEdit? && !own.source.Runtime? && own.source.runId == run
  {
    if log != [] {
      OnlyRunIsOwn(log[1..], run, e);
      assert log == [log[0]] + log[1..];
    }
  }

  /** A run's batches do not depend on what other runs put in the log. */
  lemma RunsDoNotInterfere(blobs: Blobs, log: Log, run: RunId, status: ApiRunStatus)
    ensures ContextEntriesForRun(OnlyRun(log, run), run) == ContextEntriesForRun(log, run)
    ensures RunBatches(blobs, OnlyRun(log, run), run, status) == RunBatches(blobs, log, run, status)
  {
    ContextEntriesOfRunAlone(log, run);
    EffectsAlone(log, run);
    var f := FactsOf(blobs, log, run);
    OpenBatchesAlone(f, log, run, {});
    var open := OpenBatches(f, log, run, {});
    forall j | 0 <= j < |open|
      ensures BatchCompletes(OnlyRun(log, run), run, open[j].id) == BatchCompletes(log, run, open[j].id)
    {
      BatchCompletesAlone(log, run, open[j].id);
    }
    assert FinalBatches(open, OnlyRun(log, run), run, status.Ended()) == FinalBatches(open, log, run, status.Ended());
  }

  // ---------- progress never goes backwards ----------

  lemma {:induction false} ResultsGrow(entries: seq<ContextEntry>, more: seq<ContextEntry>, c: string)
    ensures ResultCount(entries, c) <= ResultCount(entries + more, c)
    decreases |more|
  {
    if more == [] {
      assert entries + more == entries;
    } else {
      var n := |more| - 1;
      ResultsGrow(entries, more[..n], c);
      assert (entries + more)[..|entries + more| - 1] == entries + more[..n];
    }
  }

  /** A longer log keeps every result it had, though a later result of a call may replace it. */
  ghost predicate KnowsMore(f: Facts, f': Facts) {
    && (forall c :: c in f.results ==> c in f'.results)
    && (forall c :: c in f'.results ==> !Live(f'.results[c].status))
  }

  lemma FactsGrow(blobs: Blobs, log: Log, more: Log, run: RunId)
    ensures KnowsMore(FactsOf(blobs, log, run), FactsOf(blobs, log + more, run))
  {
    ContextEntriesGrow(log, more, run);
    var entries, entries' := ContextEntriesForRun(log, run), ContextEntriesForRun(log + more, run);
    assert entries' == entries + entries'[|entries|..];
    forall c ensures ResultCount(entries, c) <= ResultCount(entries', c) {
      ResultsGrow(entries, entries'[|entries|..], c);
    }
  }

  lemma CallStatusCases(f: Facts, call: ObservedToolCall, later: Log, key: CallKey)
    requires ReducerCompletions(later)
    ensures var shown, initial := CallAfter(f, call, later, key, true), NewCall(f, call).status;
            && (LastCompletion(later, key).Some? ==> shown.finishedAtMs.Some? && !Live(shown.status))
            && (LastCompletion(later, key).None? ==>
                  shown.finishedAtMs.None?
                  && shown.status == if initial == Requested && HasStart(later, key) then Running else initial)
  {
    LastCompletionIsLast(later, key);
    if LastCompletion(later, key).None? {
      StartedWithoutCompletion(later, key);
    }
  }

  lemma EventsStay(later: Log, more: Log, key: CallKey)
    ensures LastCompletion(later, key).Some? ==> LastCompletion(later + more, key).Some?
    ensures HasStart(later, key) ==> HasStart(later + more, key)
  {
    LastCompletionIsLast(later, key);
    LastCompletionIsLast(later + more, key);
    forall q | 0 <= q < |later| ensures later[q] == (later + more)[q] {
    }
    if HasStart(later, key) {
      var q :| 0 <= q < |later| && Starts(later[q], key);
      assert Starts((later + more)[q], key);
    }
  }

  lemma CallProgress(f: Facts, f': Facts, call: ObservedToolCall, later: Log, more: Log, key: CallKey, addressed: bool)
    requires KnowsMore(f, f') && ReducerCompletions(later + more)
    ensures Progress(CallAfter(f, call, later, key, addressed).status)
         <= Progress(CallAfter(f', call, later + more, key, addressed).status)
  {
    forall k | 0 <= k < |later| ensures later[k] == (later + more)[k] {
    }
    CallStatusCases(f, call, later, key);
    CallStatusCases(f', call, later + more, key);
    EventsStay(later, more, key);
    assert Progress(NewCall(f, call).status) <= Progress(NewCall(f', call).status);
  }

  lemma {:induction false} OpenProgress(f: Facts, f': Facts, log: Log, more: Log, run: RunId, taken: set<ToolBatchId>, j: nat)
    requires KnowsMore(f, f') && ReducerCompletions(log + more)
    requires j < |OpenBatches(f, log, run, taken)|
    ensures var open, open' := OpenBatches(f, log, run, taken), OpenBatches(f', log + more, run, taken);
            && |open| <= |open'| && open[j].id == open'[j].id && |open[j].calls| == |open'[j].calls|
            && forall i :: 0 <= i < |open[j].calls| ==>
                 && open[j].calls[i].callId == open'[j].calls[i].callId
                 && Progress(open[j].calls[i].status) <= Progress(open'[j].calls[i].status)
  {
    assert (log + more)[1..] == log[1..] + more;
    assert ReducerCompletions((log + more)[1..]);
    hide CallAfter, KnowsMore, ReducerCompletions, Progress;
    if StartsBatch(log[0], run) {
      var b := log[0].event.tool;
      if j == 0 {
        forall i | 0 <= i < |b.calls|
          ensures var addressed := b.batchId !in taken && FirstWithId(b.calls, i);
                  var key := CallKey(run, b.batchId, b.calls[i].callId);
                  Progress(CallAfter(f, b.calls[i], log[1..], key, addressed).status)
                  <= Progress(CallAfter(f', b.calls[i], log[1..] + more, key, addressed).status)
        {
          CallProgress(f, f', b.calls[i], log[1..], more, CallKey(run, b.batchId, b.calls[i].callId),
                       b.batchId !in taken && FirstWithId(b.calls, i));
        }
        if |OpenBatches(f, log, run, taken)| > 1 {
          OpenProgress(f, f', log[1..], more, run, taken + {b.batchId}, 0);
        }
      } else {
        OpenProgress(f, f', log[1..], more, run, taken + {b.batchId}, j - 1);
      }
    } else {
      OpenProgress(f, f', log[1..], more, run, taken, j);
    }
  }

  /**
   Whatever is appended to the log, and whether or not the run ends, every call stays where it was in
   the projection and its progress never falls back.
   */
  lemma ProgressNeverFalls(blobs: Blobs, log: Log, more: Log, run: RunId, status: ApiRunStatus, status': ApiRunStatus)
    requires ReducerCompletions(log + more)
    requires status.Ended() ==> status'.Ended()
    ensures var before, after := RunBatches(blobs, log, run, status), RunBatches(blobs, log + more, run, status');
            && |before| <= |after|
            && forall j :: 0 <= j < |before| ==>
                 && before[j].id == after[j].id && |before[j].calls| == |after[j].calls|
                 && forall i :: 0 <= i < |before[j].calls| ==>
                      && before[j].calls[i].callId == after[j].calls[i].callId
                      && (after[j].calls[i].status.Requested? ==> before[j].calls[i].status.Requested?)
                      && (after[j].calls[i].status.Running? ==>
                            before[j].calls[i].status.Requested? || before[j].calls[i].status.Running?)
  {
    hide OpenBatches, FactsOf, BatchCompletes, ApiToolBatchId;
    FactsGrow(blobs, log, more, run);
    var f, f' := FactsOf(blobs, log, run), FactsOf(blobs, log + more, run);
    var open, open' := OpenBatches(f, log, run, {}), OpenBatches(f', log + more, run, {});
    var before, after := RunBatches(blobs, log, run, status), RunBatches(blobs, log + more, run, status');
    if |open| > 0 { OpenProgress(f, f', log, more, run, {}, 0); }
    forall j | 0 <= j < |before|
      ensures before[j].id == after[j].id && |before[j].calls| == |after[j].calls|
      ensures forall i :: 0 <= i < |before[j].calls| ==>
                && before[j].calls[i].callId == after[j].calls[i].callId
                && Progress(before[j].calls[i].status) <= Progress(after[j].calls[i].status)
    {
      OpenProgress(f, f', log, more, run, {}, j);
      CompletesStays(log, more, run, open[j].id);
      SettledWhenFinished(f', log + more, run, j, {});
    }
  }

  lemma CompletesStays(log: Log, more: Log, run: RunId, id: string)
    ensures BatchCompletes(log, run, id) ==> BatchCompletes(log + more, run, id)
  {
    if BatchCompletes(log, run, id) {
      var k :| 0 <= k < |log| && log[k].event.Tool? && log[k].event.tool.BatchCompleted?
               && log[k].event.tool.runId == run && ApiToolBatchId(log[k].event.tool.batchId) == id;
      assert (log + more)[k] == log[k];
    }
  }

  lemma SettledWhenCompleted(f: Facts, call: ObservedToolCall, later: Log, key: CallKey, addressed: bool)
    requires ReducerCompletions(later)
    ensures var shown := CallAfter(f, call, later, key, addressed);
            shown.finishedAtMs.Some? ==> !Live(shown.status)
  {
    LastCompletionIsLast(later, key);
  }

  /** A call with a completion of its own is settled. */
  lemma {:induction false} SettledWhenFinished(f: Facts, log: Log, run: RunId, j: nat, taken: set<ToolBatchId>)
    requires ReducerCompletions(log)
    requires j < |OpenBatches(f, log, run, taken)|
    ensures forall i :: 0 <= i < |OpenBatches(f, log, run, taken)[j].calls| ==>
              (OpenBatches(f, log, run, taken)[j].calls[i].finishedAtMs.Some? ==>
                 !Live(OpenBatches(f, log, run, taken)[j].calls[i].status))
  {
    assert ReducerCompletions(log[1..]);
    hide CallAfter, ReducerCompletions, Live;
    if StartsBatch(log[0], run) {
      var b := log[0].event.tool;
      if j == 0 {
        forall i | 0 <= i < |b.calls|
          ensures var call := OpenBatches(f, log, run, taken)[0].calls[i];
                  call.finishedAtMs.Some? ==> !Live(call.status)
        {
          SettledWhenCompleted(f, b.calls[i], log[1..], CallKey(run, b.batchId, b.calls[i].callId),
                               b.batchId !in taken && FirstWithId(b.calls, i));
        }
      } else {
        SettledWhenFinished(f, log[1..], run, j - 1, taken + {b.batchId});
      }
    } else {
      SettledWhenFinished(f, log[1..], run, j, taken);
    }
  }

  // ---------- an ended run shows no live work ----------

  /**
   Once the run has ended, a call still looks live exactly when its batch is open and its last
   completion says it is accepted or pending, which no log of the reducer's does.
   */
  lemma EndedCallLiveExactlyWhen(blobs: Blobs, log: Log, run: RunId, status: ApiRunStatus, p: nat, i: nat)
    requires status.Ended()
    requires p < |log| && StartsBatch(log[p], run) && FirstStart(log, p, run)
    requires i < |log[p].event.tool.calls| && FirstWithId(log[p].event.tool.calls, i)
    ensures var b, j := log[p].event.tool, BatchIndex(log, p, run);
            var last := LastCompletion(log[p + 1..], CallKey(run, b.batchId, b.calls[i].callId));
            && j < |RunBatches(blobs, log, run, status)| && i < |RunBatches(blobs, log, run, status)[j].calls|
            && (Live(RunBatches(blobs, log, run, status)[j].calls[i].status) <==>
                !BatchCompletes(log, run, ApiToolBatchId(b.batchId)) && last.Some?
                && (last.value.event.tool.result.status.Accepted? || last.value.event.tool.result.status.Pending?))
  {
    var b := log[p].event.tool;
    ShownCall(blobs, log, run, status, p, i);
    FinalCallLiveWhen(FactsOf(blobs, log, run), b.calls[i], log[p + 1..], CallKey(run, b.batchId, b.calls[i].callId),
                      BatchCompletes(log, run, ApiToolBatchId(b.batchId)));
  }

  lemma FinalCallLiveWhen(f: Facts, call: ObservedToolCall, later: Log, key: CallKey, completed: bool)
    ensures Live(FinalCall(CallAfter(f, call, later, key, true), completed, true).status) <==>
            !completed && LastCompletion(later, key).Some?
            && (LastCompletion(later, key).value.event.tool.result.status.Accepted?
                || LastCompletion(later, key).value.event.tool.result.status.Pending?)
  {
  }

  lemma EndedRunIsSettled(blobs: Blobs, log: Log, run: RunId, status: ApiRunStatus)
    requires ReducerCompletions(log) && status.Ended()
    ensures forall batch :: batch in RunBatches(blobs, log, run, status) ==>
              && batch.status != Running && batch.status != Requested
              && forall call :: call in batch.calls ==> !Live(call.status)
  {
    var f := FactsOf(blobs, log, run);
    var batches := RunBatches(blobs, log, run, status);
    forall j | 0 <= j < |batches|
      ensures batches[j].status != Running && batches[j].status != Requested
      ensures forall i :: 0 <= i < |batches[j].calls| ==> !Live(batches[j].calls[i].status)
    {
      SettledWhenFinished(f, log, run, j, {});
      assert forall i :: 0 <= i < |batches[j].calls| ==> !Live(batches[j].calls[i].status);
      AggregateIsMaximum(Statuses(batches[j].calls));
    }
  }
}
