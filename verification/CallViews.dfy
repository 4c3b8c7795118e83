/**
 What the projection shows of a run's batches and calls, field by field: everything in terms of the log's
 events and the run's entries, for every log.
 */
module CallViews {
  import opened Wrappers
  import opened ApiIds
  import opened RunLog
  import opened ToolStatus
  import opened ToolResults
  import opened ToolBatches
  import opened RunProjection
  import opened ResultViews
  import opened Sequences
  import opened Utf8

  // ---------- the batches ----------

  /** There is one batch for each start, in their order: none before the first, and no others. */
  lemma {:induction false} StartsCounted(f: Facts, log: Log, run: RunId, taken: set<ToolBatchId>)
    ensures |OpenBatches(f, log, run, taken)| == BatchIndex(log, |log|, run)
  {
    if log != [] {
      StartsCounted(f, log[1..], run, if StartsBatch(log[0], run) then taken + {log[0].event.tool.batchId} else taken);
    }
  }

  lemma {:induction false} IndexGrows(log: Log, p: nat, q: nat, run: RunId)
    requires p < q <= |log| && StartsBatch(log[p], run)
    ensures BatchIndex(log, p, run) < BatchIndex(log, q, run)
  {
    if p > 0 {
      IndexGrows(log[1..], p - 1, q - 1, run);
    }
  }

  lemma BatchesAreStarts(blobs: Blobs, log: Log, run: RunId, status: ApiRunStatus)
    ensures |RunBatches(blobs, log, run, status)| == BatchIndex(log, |log|, run)
    ensures forall p, q :: 0 <= p < q <= |log| && StartsBatch(log[p], run) ==> BatchIndex(log, p, run) < BatchIndex(log, q, run)
  {
    StartsCounted(FactsOf(blobs, log, run), log, run, {});
    forall p, q | 0 <= p < q <= |log| && StartsBatch(log[p], run) ensures BatchIndex(log, p, run) < BatchIndex(log, q, run) {
      IndexGrows(log, p, q, run);
    }
  }

  /** The batch started at log position `p`. */
  ghost function BatchShown(blobs: Blobs, log: Log, run: RunId, status: ApiRunStatus, p: nat): (batch: ToolBatchView)
    requires p < |log| && StartsBatch(log[p], run)
    ensures |batch.calls| == |log[p].event.tool.calls|
  {
    BatchAt(FactsOf(blobs, log, run), log, p, run, {});
    RunBatches(blobs, log, run, status)[BatchIndex(log, p, run)]
  }

  /** The status of a batch says how its calls stand, the worst first. */
  ghost predicate SumsUp(status: ToolItemStatus, calls: seq<ToolCallView>) {
    && (status.Running? <==> exists c :: c in calls && (c.status.Requested? || c.status.Running?))
    && (status.Failed? <==> !status.Running? && exists c :: c in calls && (c.status.Failed? || c.status.Unavailable?))
    && (status.Cancelled? <==> !status.Running? && !status.Failed? && exists c :: c in calls && c.status.Cancelled?)
    && (status.Succeeded? <==> calls != [] && forall c :: c in calls ==> c.status.Succeeded?)
    && (status.Unavailable? <==> calls == [])
  }

  lemma AggregateSumsUp(calls: seq<ToolCallView>)
    ensures SumsUp(Aggregate(Statuses(calls)), calls)
  {
    var statuses := Statuses(calls);
    assert forall i :: 0 <= i < |calls| ==> calls[i] in calls && statuses[i] == calls[i].status && statuses[i] in statuses;
    forall s | s in statuses ensures exists c :: c in calls && c.status == s {
      var i :| 0 <= i < |statuses| && statuses[i] == s;
      assert calls[i] in calls;
    }
    forall c | c in calls ensures c.status in statuses {
      var i :| 0 <= i < |calls| && calls[i] == c;
    }
    if calls != [] {
      assert statuses[0] in statuses;
    }
  }

  /** A batch shows its printed number, its turn, a call for each call requested, and how these stand. */
  lemma BatchShows(blobs: Blobs, log: Log, run: RunId, status: ApiRunStatus, p: nat)
    requires p < |log| && StartsBatch(log[p], run)
    ensures var batch, b := BatchShown(blobs, log, run, status, p), log[p].event.tool;
            && batch.id == "tool_batch_" + Decimal(b.batchId) && batch.turnId == b.turnId
            && SumsUp(batch.status, batch.calls)
  {
    BatchAt(FactsOf(blobs, log, run), log, p, run, {});
    AggregateSumsUp(BatchShown(blobs, log, run, status, p).calls);
  }

  // ---------- the calls ----------

  /** The call at index `i` of that batch. */
  ghost function CallShown(blobs: Blobs, log: Log, run: RunId, status: ApiRunStatus, p: nat, i: nat): ToolCallView
    requires p < |log| && StartsBatch(log[p], run) && i < |log[p].event.tool.calls|
  {
    BatchShown(blobs, log, run, status, p).calls[i]
  }

  /** Events are heard by the first call with its id in the first batch with its number. */
  ghost predicate Hears(log: Log, run: RunId, p: nat, i: nat)
    requires p < |log| && StartsBatch(log[p], run) && i < |log[p].event.tool.calls|
  {
    FirstStart(log, p, run) && FirstWithId(log[p].event.tool.calls, i)
  }

  /** The call hears that it completed at log position `q`. */
  ghost predicate CompletedAt(log: Log, run: RunId, p: nat, i: nat, q: int)
    requires p < |log| && StartsBatch(log[p], run) && i < |log[p].event.tool.calls|
  {
    && Hears(log, run, p, i) && p < q < |log|
    && log[q].event.Tool? && log[q].event.tool.CallCompleted? && log[q].event.tool.runId == run
    && log[q].event.tool.batchId == log[p].event.tool.batchId
    && log[q].event.tool.result.callId == log[p].event.tool.calls[i].callId
  }

  /** The call hears that it started at log position `q`. */
  ghost predicate StartedAt(log: Log, run: RunId, p: nat, i: nat, q: int)
    requires p < |log| && StartsBatch(log[p], run) && i < |log[p].event.tool.calls|
  {
    && Hears(log, run, p, i) && p < q < |log|
    && log[q].event == Tool(CallStarted(run, log[p].event.tool.batchId, log[p].event.tool.calls[i].callId))
  }

  /** The run has ended, and the log does not complete the batch. */
  ghost predicate LeftOpen(log: Log, run: RunId, status: ApiRunStatus, batchId: ToolBatchId) {
    && (status.RunCompleted? || status.RunFailed? || status.RunCancelled?)
    && !CompletesBatch(log, run, batchId)
  }

  ghost function KeyOf(log: Log, run: RunId, p: nat, i: nat): CallKey
    requires p < |log| && StartsBatch(log[p], run) && i < |log[p].event.tool.calls|
  {
    CallKey(run, log[p].event.tool.batchId, log[p].event.tool.calls[i].callId)
  }

  lemma CallShownIs(blobs: Blobs, log: Log, run: RunId, status: ApiRunStatus, p: nat, i: nat)
    requires p < |log| && StartsBatch(log[p], run) && i < |log[p].event.tool.calls|
    ensures var b := log[p].event.tool;
            CallShown(blobs, log, run, status, p, i) ==
            FinalCall(CallAfter(FactsOf(blobs, log, run), b.calls[i], log[p + 1..], KeyOf(log, run, p, i), Hears(log, run, p, i)),
                      CompletesBatch(log, run, b.batchId), status.Ended())
  {
    hide CallAfter, FactsOf, FinalCall;
    BatchAt(FactsOf(blobs, log, run), log, p, run, {});
    TakenBefore(log[..p], run, {}, log[p].event.tool.batchId);
    CompletesBatchByNumber(log, run, log[p].event.tool.batchId);
  }

  lemma LaterCompletions(log: Log, run: RunId, p: nat, i: nat)
    requires p < |log| && StartsBatch(log[p], run) && i < |log[p].event.tool.calls| && Hears(log, run, p, i)
    ensures var later, key := log[p + 1..], KeyOf(log, run, p, i);
            && (LastCompletion(later, key).None? <==> forall q :: !CompletedAt(log, run, p, i, q))
            && (forall q :: CompletedAt(log, run, p, i, q) && (forall m :: CompletedAt(log, run, p, i, m) ==> m <= q) ==>
                  LastCompletion(later, key) == Some(log[q]))
  {
    var later, key := log[p + 1..], KeyOf(log, run, p, i);
    LastCompletionIsLast(later, key);
    assert forall q :: 0 <= q < |later| ==> later[q] == log[p + 1 + q];
    forall q ensures CompletedAt(log, run, p, i, q) <==> 0 <= q - p - 1 < |later| && Completes(later[q - p - 1], key) {
    }
    forall q | CompletedAt(log, run, p, i, q) && forall m :: CompletedAt(log, run, p, i, m) ==> m <= q
      ensures LastDone(later, key, q - p - 1)
    {
      forall m | q - p - 1 < m < |later| ensures !Completes(later[m], key) {
        assert !CompletedAt(log, run, p, i, m + p + 1);
      }
    }
    if forall q :: !CompletedAt(log, run, p, i, q) {
      forall m | 0 <= m < |later| ensures !Completes(later[m], key) {
        assert !CompletedAt(log, run, p, i, m + p + 1);
      }
    }
  }

  /** What events and the end of the log never change in a call. */
  lemma EventsKeepRequest(f: Facts, call: ObservedToolCall, later: Log, key: CallKey, hears: bool, completed: bool, ended: bool)
    ensures var asked, shown := NewCall(f, call), FinalCall(CallAfter(f, call, later, key, hears), completed, ended);
            && shown.toolId == asked.toolId && shown.callId == asked.callId && shown.toolName == asked.toolName
            && shown.argumentsRef == asked.argumentsRef && shown.arguments == asked.arguments
            && shown.argumentsPreviewTruncated == asked.argumentsPreviewTruncated
            && shown.output == asked.output && shown.outputRef == asked.outputRef
            && shown.outputPreviewTruncated == asked.outputPreviewTruncated && shown.media == asked.media
            && shown.effects == asked.effects && shown.attachments == asked.attachments
  {
    hide NewCall;
  }

  lemma LastCompletionShows(f: Facts, call: ObservedToolCall, later: Log, key: CallKey, completed: bool, ended: bool, done: LogEntry)
    requires LastCompletion(later, key) == Some(done)
    ensures var shown, result := FinalCall(CallAfter(f, call, later, key, true), completed, ended), done.event.tool.result;
            && (shown.status.Succeeded? <==> result.status.Succeeded?)
            && (shown.status.Failed? <==> result.status.Failed?)
            && (shown.status.Cancelled? <==> result.status.Cancelled?)
            && (shown.isError <==> !shown.status.Succeeded?)
            && shown.finishedAtMs == Some(done.observedAtMs) && shown.durationMs == result.durationMs
            && shown.outputBytes == result.outputBytes && shown.truncated == result.truncated
  {
    hide NewCall;
  }

  /** A call that completed shows its last completion: how it ended, when, and how it went. */
  lemma CompletedCallShows(blobs: Blobs, log: Log, run: RunId, status: ApiRunStatus, p: nat, i: nat, q: nat)
    requires p < |log| && StartsBatch(log[p], run) && i < |log[p].event.tool.calls|
    requires CompletedAt(log, run, p, i, q) && forall m :: CompletedAt(log, run, p, i, m) ==> m <= q
    ensures var call, result := CallShown(blobs, log, run, status, p, i), log[q].event.tool.result;
            && (call.status.Succeeded? <==> result.status.Succeeded?)
            && (call.status.Failed? <==> result.status.Failed?)
            && (call.status.Cancelled? <==> result.status.Cancelled?)
            && (call.isError <==> !call.status.Succeeded?)
            && call.finishedAtMs == Some(log[q].observedAtMs) && call.durationMs == result.durationMs
            && call.outputBytes == result.outputBytes && call.truncated == result.truncated
  {
    hide FinalCall, CallAfter, CallShown, FactsOf, LastCompletion;
    var b := log[p].event.tool;
    CallShownIs(blobs, log, run, status, p, i);
    LaterCompletions(log, run, p, i);
    LastCompletionShows(FactsOf(blobs, log, run), b.calls[i], log[p + 1..], KeyOf(log, run, p, i),
                        CompletesBatch(log, run, b.batchId), status.Ended(), log[q]);
  }

  /** A call with no completion that has a result in context shows how that is, unless the run ended over it. */
  lemma AnsweredCallShows(blobs: Blobs, log: Log, run: RunId, status: ApiRunStatus, p: nat, i: nat, k: int)
    requires p < |log| && StartsBatch(log[p], run) && i < |log[p].event.tool.calls|
    requires forall q :: !CompletedAt(log, run, p, i, q)
    requires LastResultAt(ContextEntriesForRun(log, run), log[p].event.tool.calls[i].callId, k)
    ensures var call, isError := CallShown(blobs, log, run, status, p, i), ContextEntriesForRun(log, run)[k].kind.isError;
            && call.status == (if LeftOpen(log, run, status, log[p].event.tool.batchId) then ToolItemStatus.Cancelled
                               else if isError then ToolItemStatus.Failed else ToolItemStatus.Succeeded)
            && (call.isError <==> !call.status.Succeeded?)
            && call.finishedAtMs.None? && call.durationMs.None? && call.outputBytes.None? && !call.truncated
  {
    hide Truncated, Encode, ResultsByCall, EffectsByCall, AttachmentsByCall;
    CallShownIs(blobs, log, run, status, p, i);
    ResultShown(blobs, ContextEntriesForRun(log, run), log[p].event.tool.calls[i].callId, k);
    if Hears(log, run, p, i) {
      LaterCompletions(log, run, p, i);
    }
  }

  /** A call with neither: cancelled if the run ended over it, unavailable if its batch completed or it names no tool. */
  lemma UnansweredCallShows(blobs: Blobs, log: Log, run: RunId, status: ApiRunStatus, p: nat, i: nat)
    requires p < |log| && StartsBatch(log[p], run) && i < |log[p].event.tool.calls|
    requires forall q :: !CompletedAt(log, run, p, i, q)
    requires forall k :: !ResultAt(ContextEntriesForRun(log, run), log[p].event.tool.calls[i].callId, k)
    ensures var call, b := CallShown(blobs, log, run, status, p, i), log[p].event.tool;
            && call.status == (if LeftOpen(log, run, status, b.batchId) then ToolItemStatus.Cancelled
                               else if CompletesBatch(log, run, b.batchId) || b.calls[i].toolId.None? then ToolItemStatus.Unavailable
                               else if exists q :: StartedAt(log, run, p, i, q) then Running else Requested)
            && (call.isError <==> call.status.Cancelled?)
            && call.finishedAtMs.None? && call.durationMs.None? && call.outputBytes.None? && !call.truncated
  {
    hide Truncated, Encode, ResultsByCall, EffectsByCall, AttachmentsByCall;
    var callId, later, key := log[p].event.tool.calls[i].callId, log[p + 1..], KeyOf(log, run, p, i);
    CallShownIs(blobs, log, run, status, p, i);
    ResultShown(blobs, ContextEntriesForRun(log, run), callId, -1);
    if Hears(log, run, p, i) {
      LaterCompletions(log, run, p, i);
      LastCompletionIsLast(later, key);
      StartedWithoutCompletion(later, key);
      LaterStarts(log, run, p, i);
    }
  }

  lemma LaterStarts(log: Log, run: RunId, p: nat, i: nat)
    requires p < |log| && StartsBatch(log[p], run) && i < |log[p].event.tool.calls| && Hears(log, run, p, i)
    ensures HasStart(log[p + 1..], KeyOf(log, run, p, i)) <==> exists q :: StartedAt(log, run, p, i, q)
  {
    var later, key := log[p + 1..], KeyOf(log, run, p, i);
    assert forall q :: 0 <= q < |later| ==> later[q] == log[p + 1 + q];
    if HasStart(later, key) {
      var q :| 0 <= q < |later| && Starts(later[q], key);
      assert StartedAt(log, run, p, i, p + 1 + q);
    }
    if q :| StartedAt(log, run, p, i, q) {
      assert Starts(later[q - p - 1], key);
    }
  }

  lemma {:induction false} LastStartIs(later: Log, key: CallKey, q: int)
    requires 0 <= q < |later| && Starts(later[q], key) && forall m :: q < m < |later| ==> !Starts(later[m], key)
    ensures LastStart(later, key) == Some(later[q].observedAtMs)
  {
    var n := |later| - 1;
    if q < n {
      assert forall m :: 0 <= m < n ==> later[..n][m] == later[m];
      LastStartIs(later[..n], key, q);
    }
  }

  lemma {:induction false} NoStartNoTime(later: Log, key: CallKey)
    requires forall m :: 0 <= m < |later| ==> !Starts(later[m], key)
    ensures LastStart(later, key).None?
  {
    if later != [] {
      NoStartNoTime(later[..|later| - 1], key);
    }
  }

  lemma LastStartShows(f: Facts, call: ObservedToolCall, later: Log, key: CallKey, hears: bool, completed: bool, ended: bool)
    ensures FinalCall(CallAfter(f, call, later, key, hears), completed, ended).startedAtMs == if hears then LastStart(later, key) else None
  {
  }

  /** And when it was last started, if it was. */
  lemma StartShows(blobs: Blobs, log: Log, run: RunId, status: ApiRunStatus, p: nat, i: nat, q: int)
    requires p < |log| && StartsBatch(log[p], run) && i < |log[p].event.tool.calls|
    ensures var call := CallShown(blobs, log, run, status, p, i);
            && (StartedAt(log, run, p, i, q) && (forall m :: StartedAt(log, run, p, i, m) ==> m <= q) ==>
                  call.startedAtMs == Some(log[q].observedAtMs))
            && ((forall m :: !StartedAt(log, run, p, i, m)) ==> call.startedAtMs.None?)
  {
    hide FinalCall, CallAfter, FactsOf, CallShown;
    CallShownIs(blobs, log, run, status, p, i);
    var later, key := log[p + 1..], KeyOf(log, run, p, i);
    LastStartShows(FactsOf(blobs, log, run), log[p].event.tool.calls[i], later, key, Hears(log, run, p, i),
                   CompletesBatch(log, run, log[p].event.tool.batchId), status.Ended());
    assert forall m :: 0 <= m < |later| ==> later[m] == log[p + 1 + m];
    if Hears(log, run, p, i) {
      forall m | 0 <= m < |later| ensures Starts(later[m], key) <==> StartedAt(log, run, p, i, p + 1 + m) {
      }
      if StartedAt(log, run, p, i, q) && forall m :: StartedAt(log, run, p, i, m) ==> m <= q {
        LastStartIs(later, key, q - p - 1);
      }
      if forall m :: !StartedAt(log, run, p, i, m) {
        NoStartNoTime(later, key);
      }
    }
  }

  /** What was asked for, with its arguments cut to 4096 bytes, and the output its result in context has. */
  lemma CallShowsRequest(blobs: Blobs, log: Log, run: RunId, status: ApiRunStatus, p: nat, i: nat, k: int)
    requires p < |log| && StartsBatch(log[p], run) && i < |log[p].event.tool.calls|
    ensures var call, asked := CallShown(blobs, log, run, status, p, i), log[p].event.tool.calls[i];
            var entries, text := ContextEntriesForRun(log, run), blobs(asked.argumentsRef);
            && call.callId == asked.callId && call.toolId == asked.toolId && call.toolName == asked.toolName
            && call.argumentsRef == asked.argumentsRef && call.arguments == Truncated(text, 4096)
            && (call.argumentsPreviewTruncated <==> |Encode(text)| > 4096)
            && (LastResultAt(entries, asked.callId, k) ==>
                  var output := blobs(entries[k].contentRef);
                  && call.output == Some(Truncated(output, 4096)) && call.outputRef == Some(entries[k].contentRef)
                  && (call.outputPreviewTruncated <==> |Encode(output)| > 4096)
                  && (if OnlyResultAt(entries, asked.callId, k) then MediaRightAfter(call.media, entries, k) else call.media == []))
            && ((forall m :: !ResultAt(entries, asked.callId, m)) ==>
                  call.output.None? && call.outputRef.None? && !call.outputPreviewTruncated && call.media == [])
  {
    hide Truncated, Encode, ResultsByCall, EffectsByCall, AttachmentsByCall, FinalCall, CallAfter, CallShown;
    var b := log[p].event.tool;
    CallShownIs(blobs, log, run, status, p, i);
    EventsKeepRequest(FactsOf(blobs, log, run), b.calls[i], log[p + 1..], KeyOf(log, run, p, i), Hears(log, run, p, i),
                      CompletesBatch(log, run, b.batchId), status.Ended());
    ResultShown(blobs, ContextEntriesForRun(log, run), b.calls[i].callId, k);
  }

  // ---------- effects and attachments ----------

  /** The effects but the workflow tool's own. */
  lemma {:induction false} EffectsKept(effects: seq<ToolEffect>) returns (at: seq<nat>)
    ensures StandsAt(EffectsToApi(effects), effects, at)
    ensures forall k: nat :: k in at <==> k < |effects| && effects[k].kind != "lightspeed.core.workflow_tool.invoke"
  {
    at := [];
    if effects != [] {
      at := EffectsKept(effects[1..]);
      at := PlacesMove(EffectsToApi(effects[1..]), effects, at, effects[0].kind != WORKFLOW_TOOL_INVOKE_EFFECT_KIND);
    }
  }

  /** The files among the attachments, and no media. */
  lemma {:induction false} AttachmentsKept(attachments: seq<Attachment>) returns (at: seq<nat>)
    ensures StandsAt(AttachmentsToApi(attachments), attachments, at)
    ensures forall k: nat :: k in at <==> k < |attachments| && attachments[k].FileAttachment?
  {
    at := [];
    if attachments != [] {
      at := AttachmentsKept(attachments[1..]);
      at := PlacesMove(AttachmentsToApi(attachments[1..]), attachments, at, attachments[0].FileAttachment?);
    }
  }

  /** The log completes the call, in whichever batch of the run. */
  ghost predicate CompletesCall(log: Log, run: RunId, callId: string, q: int) {
    && 0 <= q < |log| && log[q].event.Tool? && log[q].event.tool.CallCompleted? && log[q].event.tool.runId == run
    && log[q].event.tool.result.callId == callId
  }

  /**
   A call shows the effects of its last completion with any, but for the workflow tool's own, in their
   order, and none if no completion has any.
   */
  lemma EffectsShow(blobs: Blobs, log: Log, run: RunId, status: ApiRunStatus, p: nat, i: nat, q: int) returns (at: seq<nat>)
    requires p < |log| && StartsBatch(log[p], run) && i < |log[p].event.tool.calls|
    ensures var call, callId := CallShown(blobs, log, run, status, p, i), log[p].event.tool.calls[i].callId;
            && (CompletesCall(log, run, callId, q) && log[q].event.tool.result.effects != []
                && (forall m :: q < m && CompletesCall(log, run, callId, m) ==> log[m].event.tool.result.effects == []) ==>
                  var effects := log[q].event.tool.result.effects;
                  && StandsAt(call.effects, effects, at)
                  && forall k: nat :: k in at <==> k < |effects| && effects[k].kind != "lightspeed.core.workflow_tool.invoke")
            && ((forall m :: CompletesCall(log, run, callId, m) ==> log[m].event.tool.result.effects == []) ==> call.effects == [])
  {
    hide FinalCall, ResultsByCall, Truncated, Encode, EffectsToApi, EffectsByCall, AttachmentsByCall;
    var callId := log[p].event.tool.calls[i].callId;
    CallShownEffects(blobs, log, run, status, p, i);
    EffectsAreLast(log, run, callId);
    at := [];
    forall m ensures CompletesCall(log, run, callId, m) && log[m].event.tool.result.effects != [] <==>
                     0 <= m < |log| && HasEffects(log[m], run, callId) {
    }
    if CompletesCall(log, run, callId, q) && log[q].event.tool.result.effects != []
       && forall m :: q < m && CompletesCall(log, run, callId, m) ==> log[m].event.tool.result.effects == [] {
      assert LastWithEffects(log, run, callId, q);
      at := EffectsKept(log[q].event.tool.result.effects);
    }
  }

  lemma CallShownEffects(blobs: Blobs, log: Log, run: RunId, status: ApiRunStatus, p: nat, i: nat)
    requires p < |log| && StartsBatch(log[p], run) && i < |log[p].event.tool.calls|
    ensures var call, callId := CallShown(blobs, log, run, status, p, i), log[p].event.tool.calls[i].callId;
            var effects, attachments := EffectsByCall(log, run), AttachmentsByCall(log, run);
            && call.effects == (if callId in effects then effects[callId] else [])
            && call.attachments == (if callId in attachments then attachments[callId] else [])
  {
    hide ResultsByCall, Truncated, Encode, EffectsByCall, AttachmentsByCall, CallShown, FinalCall, CallAfter;
    var b := log[p].event.tool;
    CallShownIs(blobs, log, run, status, p, i);
    EventsKeepRequest(FactsOf(blobs, log, run), b.calls[i], log[p + 1..], KeyOf(log, run, p, i), Hears(log, run, p, i),
                      CompletesBatch(log, run, b.batchId), status.Ended());
  }

  /** And the files among the attachments of its last completion with a file. */
  lemma AttachmentsShow(blobs: Blobs, log: Log, run: RunId, status: ApiRunStatus, p: nat, i: nat, q: int) returns (at: seq<nat>)
    requires p < |log| && StartsBatch(log[p], run) && i < |log[p].event.tool.calls|
    ensures var call, callId := CallShown(blobs, log, run, status, p, i), log[p].event.tool.calls[i].callId;
            && (CompletesCall(log, run, callId, q) && HasFile(log[q].event.tool.result.attachments)
                && (forall m :: q < m && CompletesCall(log, run, callId, m) ==> !HasFile(log[m].event.tool.result.attachments)) ==>
                  var attachments := log[q].event.tool.result.attachments;
                  && StandsAt(call.attachments, attachments, at)
                  && forall k: nat :: k in at <==> k < |attachments| && attachments[k].FileAttachment?)
            && ((forall m :: CompletesCall(log, run, callId, m) ==> !HasFile(log[m].event.tool.result.attachments)) ==> call.attachments == [])
  {
    hide FinalCall, ResultsByCall, Truncated, Encode, AttachmentsToApi, EffectsByCall, AttachmentsByCall;
    var callId := log[p].event.tool.calls[i].callId;
    CallShownEffects(blobs, log, run, status, p, i);
    AttachmentsAreLast(log, run, callId);
    at := [];
    forall m ensures CompletesCall(log, run, callId, m) && HasFile(log[m].event.tool.result.attachments) <==>
                     0 <= m < |log| && HasAttachments(log[m], run, callId) {
      if CompletesCall(log, run, callId, m) {
        FilesAreShown(log[m].event.tool.result.attachments);
      }
    }
    if CompletesCall(log, run, callId, q) && HasFile(log[q].event.tool.result.attachments)
       && forall m :: q < m && CompletesCall(log, run, callId, m) ==> !HasFile(log[m].event.tool.result.attachments) {
      assert LastWithAttachments(log, run, callId, q);
      at := AttachmentsKept(log[q].event.tool.result.attachments);
    }
  }

  ghost predicate HasFile(attachments: seq<Attachment>) {
    exists a :: a in attachments && a.FileAttachment?
  }

  lemma FilesAreShown(attachments: seq<Attachment>)
    ensures HasFile(attachments) <==> AttachmentsToApi(attachments) != []
  {
    var at := AttachmentsKept(attachments);
    if a :| a in attachments && a.FileAttachment? {
      var k :| 0 <= k < |attachments| && attachments[k] == a;
      assert k in at;
    }
    if AttachmentsToApi(attachments) != [] {
      assert at[0] in at && attachments[at[0]] in attachments;
    }
  }

  // ---------- a batch that went well ----------

  /** A batch all of whose calls last completed with success has succeeded, ended run or not. */
  lemma AllSucceeded(blobs: Blobs, log: Log, run: RunId, status: ApiRunStatus, p: nat, done: nat -> nat)
    requires p < |log| && StartsBatch(log[p], run) && log[p].event.tool.calls != []
    requires forall i :: 0 <= i < |log[p].event.tool.calls| ==>
               && CompletedAt(log, run, p, i, done(i)) && (forall m :: CompletedAt(log, run, p, i, m) ==> m <= done(i))
               && log[done(i)].event.tool.result.status.Succeeded?
    ensures BatchShown(blobs, log, run, status, p).status.Succeeded?
  {
    var batch := BatchShown(blobs, log, run, status, p);
    BatchShows(blobs, log, run, status, p);
    forall i | 0 <= i < |batch.calls| ensures batch.calls[i].status.Succeeded? {
      CompletedCallShows(blobs, log, run, status, p, i, done(i));
      assert CallShown(blobs, log, run, status, p, i) == batch.calls[i];
    }
  }
}
