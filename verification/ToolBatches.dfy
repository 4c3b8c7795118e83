/**
 The tool batches of a run, projected from its log. `ProjectToolBatches` replays the log and updates
 batches in place; `RunBatches` says what each call shows in terms of the events after its batch
 started, and the lemmas are about that.
 */
module ToolBatches {
  import opened Wrappers
  import opened ApiIds
  import opened RunLog
  import opened ToolStatus
  import opened ToolResults
  import opened Utf8

  const WORKFLOW_TOOL_INVOKE_EFFECT_KIND := "lightspeed.core.workflow_tool.invoke"

  datatype ToolCallView = ToolCallView(
    toolId: Option<string>, callId: string, toolName: string,
    argumentsRef: string, arguments: Text, argumentsPreviewTruncated: bool,
    output: Option<Text>, outputRef: Option<string>, outputPreviewTruncated: bool,
    outputBytes: Option<nat>, truncated: bool, isError: bool, status: ToolItemStatus,
    attachments: seq<Attachment>, effects: seq<ToolEffect>,
    startedAtMs: Option<nat>, finishedAtMs: Option<nat>, durationMs: Option<nat>, media: seq<MediaView>)

  datatype ToolBatchView = ToolBatchView(id: string, turnId: U64, status: ToolItemStatus, calls: seq<ToolCallView>)

  /** What the projection knows of a call by its id alone, from passes over the whole log. */
  datatype Facts = Facts(
    blobs: Blobs, results: map<string, ProjectedToolResult>,
    effects: map<string, seq<ToolEffect>>, attachments: map<string, seq<Attachment>>)

  // ---------- effects and attachments, by call id ----------

  function EffectsToApi(effects: seq<ToolEffect>): seq<ToolEffect> {
    if effects == [] then []
    else (if effects[0].kind == WORKFLOW_TOOL_INVOKE_EFFECT_KIND then [] else [effects[0]]) + EffectsToApi(effects[1..])
  }

  function AttachmentsToApi(attachments: seq<Attachment>): seq<Attachment> {
    if attachments == [] then []
    else (if attachments[0].MediaAttachment? then [] else [attachments[0]]) + AttachmentsToApi(attachments[1..])
  }

  predicate CompletesOf(e: LogEntry, run: RunId) {
    e.event.Tool? && e.event.tool.CallCompleted? && e.event.tool.runId == run
  }

  /** The effects of the last completion that has any, for each call. */
  function EffectsByCall(log: Log, run: RunId): map<string, seq<ToolEffect>> {
    if log == [] then map[]
    else
      var before, e := EffectsByCall(log[..|log| - 1], run), log[|log| - 1];
      if CompletesOf(e, run) && e.event.tool.result.effects != [] then
        before[e.event.tool.result.callId := EffectsToApi(e.event.tool.result.effects)]
      else before
  }

  function AttachmentsByCall(log: Log, run: RunId): map<string, seq<Attachment>> {
    if log == [] then map[]
    else
      var before, e := AttachmentsByCall(log[..|log| - 1], run), log[|log| - 1];
      if CompletesOf(e, run) && AttachmentsToApi(e.event.tool.result.attachments) != [] then
        before[e.event.tool.result.callId := AttachmentsToApi(e.event.tool.result.attachments)]
      else before
  }

  /** A completion of the call that has effects of any kind. */
  predicate HasEffects(e: LogEntry, run: RunId, callId: string) {
    CompletesOf(e, run) && e.event.tool.result.callId == callId && e.event.tool.result.effects != []
  }

  /** The completion at `k` is the last of the call that has effects. */
  ghost predicate LastWithEffects(log: Log, run: RunId, callId: string, k: int) {
    0 <= k < |log| && HasEffects(log[k], run, callId) && forall m :: k < m < |log| ==> !HasEffects(log[m], run, callId)
  }

  /** A completion of the call that has attachments the API shows. */
  predicate HasAttachments(e: LogEntry, run: RunId, callId: string) {
    CompletesOf(e, run) && e.event.tool.result.callId == callId && AttachmentsToApi(e.event.tool.result.attachments) != []
  }

  ghost predicate LastWithAttachments(log: Log, run: RunId, callId: string, k: int) {
    0 <= k < |log| && HasAttachments(log[k], run, callId) && forall m :: k < m < |log| ==> !HasAttachments(log[m], run, callId)
  }

  /** A call has effects exactly when some completion of it has, and they are those of the last that has. */
  lemma {:induction false} EffectsAreLast(log: Log, run: RunId, callId: string)
    ensures callId in EffectsByCall(log, run) <==> exists k :: LastWithEffects(log, run, callId, k)
    ensures forall k :: LastWithEffects(log, run, callId, k) ==>
              EffectsByCall(log, run)[callId] == EffectsToApi(log[k].event.tool.result.effects)
    ensures callId !in EffectsByCall(log, run) ==> forall k :: 0 <= k < |log| ==> !HasEffects(log[k], run, callId)
  {
    if log != [] {
      var n := |log| - 1;
      var init := log[..n];
      EffectsAreLast(init, run, callId);
      assert forall k :: 0 <= k < n ==> init[k] == log[k];
      if HasEffects(log[n], run, callId) {
        assert LastWithEffects(log, run, callId, n);
      } else {
        forall k ensures LastWithEffects(log, run, callId, k) <==> LastWithEffects(init, run, callId, k) {
          if LastWithEffects(log, run, callId, k) { assert k != n; }
        }
      }
    }
  }

  /** And so for the attachments the API shows. */
  lemma {:induction false} AttachmentsAreLast(log: Log, run: RunId, callId: string)
    ensures callId in AttachmentsByCall(log, run) <==> exists k :: LastWithAttachments(log, run, callId, k)
    ensures forall k :: LastWithAttachments(log, run, callId, k) ==>
              AttachmentsByCall(log, run)[callId] == AttachmentsToApi(log[k].event.tool.result.attachments)
    ensures callId !in AttachmentsByCall(log, run) ==> forall k :: 0 <= k < |log| ==> !HasAttachments(log[k], run, callId)
  {
    if log != [] {
      var n := |log| - 1;
      var init := log[..n];
      AttachmentsAreLast(init, run, callId);
      assert forall k :: 0 <= k < n ==> init[k] == log[k];
      if HasAttachments(log[n], run, callId) {
        assert LastWithAttachments(log, run, callId, n);
      } else {
        forall k ensures LastWithAttachments(log, run, callId, k) <==> LastWithAttachments(init, run, callId, k) {
          if LastWithAttachments(log, run, callId, k) { assert k != n; }
        }
      }
    }
  }

  method ToolEffectsForRun(log: Log, run: RunId) returns (effects: map<string, seq<ToolEffect>>)
    ensures effects == EffectsByCall(log, run)
    ensures forall callId :: callId in effects <==> exists k :: LastWithEffects(log, run, callId, k)
    ensures forall callId, k :: LastWithEffects(log, run, callId, k) ==>
              effects[callId] == EffectsToApi(log[k].event.tool.result.effects)
  {
    effects := map[];
    for k := 0 to |log|
      invariant effects == EffectsByCall(log[..k], run)
    {
      assert log[..k + 1][..k] == log[..k];
      if CompletesOf(log[k], run) && log[k].event.tool.result.effects != [] {
        var result := log[k].event.tool.result;
        effects := effects[result.callId := EffectsToApi(result.effects)];
      }
    }
    assert log[..|log|] == log;
    forall callId { EffectsAreLast(log, run, callId); }
  }

  function FactsOf(blobs: Blobs, log: Log, run: RunId): Facts {
    Facts(blobs, ResultsByCall(blobs, ContextEntriesForRun(log, run)), EffectsByCall(log, run), AttachmentsByCall(log, run))
  }

  // ---------- what a call shows, from the events after its batch started ----------

  /** Names a call within a run. */
  datatype CallKey = CallKey(runId: RunId, batchId: ToolBatchId, callId: string)

  predicate Starts(e: LogEntry, key: CallKey) {
    e.event.Tool? && e.event.tool == CallStarted(key.runId, key.batchId, key.callId)
  }

  predicate Completes(e: LogEntry, key: CallKey) {
    CompletesOf(e, key.runId) && e.event.tool.batchId == key.batchId && e.event.tool.result.callId == key.callId
  }

  function LastCompletion(later: Log, key: CallKey): (r: Option<LogEntry>)
    ensures r.Some? ==> Completes(r.value, key)
  {
    if later == [] then None
    else if Completes(later[|later| - 1], key) then Some(later[|later| - 1])
    else LastCompletion(later[..|later| - 1], key)
  }

  function LastStart(later: Log, key: CallKey): Option<nat> {
    if later == [] then None
    else if Starts(later[|later| - 1], key) then Some(later[|later| - 1].observedAtMs)
    else LastStart(later[..|later| - 1], key)
  }

  /** Some start has no completion after it. */
  predicate StartedSinceCompletion(later: Log, key: CallKey) {
    later != []
    && !Completes(later[|later| - 1], key)
    && (Starts(later[|later| - 1], key) || StartedSinceCompletion(later[..|later| - 1], key))
  }

  function NewCall(f: Facts, call: ObservedToolCall): ToolCallView {
    var result := if call.callId in f.results then Some(f.results[call.callId]) else None;
    ToolCallView(
      call.toolId, call.callId, call.toolName,
      call.argumentsRef, Truncated(f.blobs(call.argumentsRef), MAX_INLINE_TEXT_BYTES),
      |Encode(f.blobs(call.argumentsRef))| > MAX_INLINE_TEXT_BYTES,
      if result.Some? then Some(result.value.output) else None,
      if result.Some? then Some(result.value.outputRef) else None,
      result.Some? && result.value.outputPreviewTruncated,
      None, false, result.Some? && result.value.isError,
      if result.Some? then result.value.status
      else if call.toolId.Some? then Requested else ToolItemStatus.Unavailable,
      if call.callId in f.attachments then f.attachments[call.callId] else [],
      if call.callId in f.effects then f.effects[call.callId] else [],
      None, None, None, if result.Some? then result.value.media else [])
  }

  /** What `CallStarted` does to a call. */
  function Started(observedAtMs: nat): ToolCallView -> ToolCallView {
    (call: ToolCallView) =>
      call.(startedAtMs := Some(observedAtMs), status := if call.status == Requested then Running else call.status)
  }

  /** What `CallCompleted` does to a call. */
  function Completed(observedAtMs: nat, result: ToolCallResult): ToolCallView -> ToolCallView {
    (call: ToolCallView) =>
      call.(status := CoreToolStatusToApi(result.status), isError := result.status.IsError(),
            finishedAtMs := Some(observedAtMs), durationMs := result.durationMs,
            outputBytes := result.outputBytes, truncated := result.truncated)
  }

  /**
   A call that its events address shows its last completion, its last start, and that it is running if
   it is only requested and started since.
   */
  function CallAfter(f: Facts, call: ObservedToolCall, later: Log, key: CallKey, addressed: bool): ToolCallView {
    var initial := NewCall(f, call);
    if !addressed then initial
    else
      var completion := LastCompletion(later, key);
      var settled := if completion.Some? then Completed(completion.value.observedAtMs, completion.value.event.tool.result)(initial)
                     else initial;
      settled.(startedAtMs := LastStart(later, key),
               status := if settled.status == Requested && StartedSinceCompletion(later, key) then Running else settled.status)
  }

  /** The first call of a batch with its id; events reach no other. */
  predicate FirstWithId(calls: seq<ObservedToolCall>, i: nat)
    requires i < |calls|
  {
    forall j :: 0 <= j < i ==> calls[j].callId != calls[i].callId
  }

  function CallsAfter(f: Facts, calls: seq<ObservedToolCall>, later: Log, run: RunId, batchId: ToolBatchId, addressed: bool)
    : (r: seq<ToolCallView>)
    ensures |r| == |calls|
    ensures forall i :: 0 <= i < |r| ==> r[i].callId == calls[i].callId
  {
    seq(|calls|, i requires 0 <= i < |calls| =>
          CallAfter(f, calls[i], later, CallKey(run, batchId, calls[i].callId), addressed && FirstWithId(calls, i)))
  }

  predicate StartsBatch(e: LogEntry, run: RunId) {
    e.event.Tool? && e.event.tool.BatchStarted? && e.event.tool.runId == run
  }

  /** One open batch for each batch start; `taken` holds the batch ids started before. */
  function OpenBatches(f: Facts, log: Log, run: RunId, taken: set<ToolBatchId>): seq<ToolBatchView> {
    if log == [] then []
    else if StartsBatch(log[0], run) then
      var b := log[0].event.tool;
      [ToolBatchView(ApiToolBatchId(b.batchId), b.turnId, Running,
                     CallsAfter(f, b.calls, log[1..], run, b.batchId, b.batchId !in taken))]
      + OpenBatches(f, log[1..], run, taken + {b.batchId})
    else OpenBatches(f, log[1..], run, taken)
  }

  predicate BatchCompletes(log: Log, run: RunId, id: string) {
    exists k :: 0 <= k < |log| && log[k].event.Tool? && log[k].event.tool.BatchCompleted?
                && log[k].event.tool.runId == run && ApiToolBatchId(log[k].event.tool.batchId) == id
  }

  /** How a call is left once the log is read. */
  function FinalCall(call: ToolCallView, completed: bool, ended: bool): ToolCallView {
    if completed then (if Live(call.status) then call.(status := ToolItemStatus.Unavailable) else call)
    else if ended && call.finishedAtMs.None? then call.(status := ToolItemStatus.Cancelled, isError := true)
    else call
  }

  function Statuses(calls: seq<ToolCallView>): (r: seq<ToolItemStatus>)
    ensures |r| == |calls|
  {
    seq(|calls|, i requires 0 <= i < |calls| => calls[i].status)
  }

  function FinalBatch(batch: ToolBatchView, completed: bool, ended: bool): ToolBatchView {
    var calls := seq(|batch.calls|, i requires 0 <= i < |batch.calls| => FinalCall(batch.calls[i], completed, ended));
    batch.(calls := calls, status := Aggregate(Statuses(calls)))
  }

  function FinalBatches(open: seq<ToolBatchView>, log: Log, run: RunId, ended: bool): (r: seq<ToolBatchView>)
    ensures |r| == |open|
  {
    seq(|open|, j requires 0 <= j < |open| => FinalBatch(open[j], BatchCompletes(log, run, open[j].id), ended))
  }

  function RunBatches(blobs: Blobs, log: Log, run: RunId, status: ApiRunStatus): seq<ToolBatchView> {
    FinalBatches(OpenBatches(FactsOf(blobs, log, run), log, run, {}), log, run, status.Ended())
  }

  // ---------- the in-place updates ----------

  /** Change the first call with this id in the first batch with this id, if there is one. */
  function Touch(batches: seq<ToolBatchView>, id: string, callId: string, change: ToolCallView -> ToolCallView)
    : seq<ToolBatchView>
  {
    if batches == [] then []
    else if batches[0].id == id then
      [batches[0].(calls := TouchCall(batches[0].calls, callId, change))] + batches[1..]
    else [batches[0]] + Touch(batches[1..], id, callId, change)
  }

  function TouchCall(calls: seq<ToolCallView>, callId: string, change: ToolCallView -> ToolCallView): (r: seq<ToolCallView>)
    ensures |r| == |calls|
  {
    if calls == [] then []
    else if calls[0].callId == callId then [change(calls[0])] + calls[1..]
    else [calls[0]] + TouchCall(calls[1..], callId, change)
  }

  function FindBatch(batches: seq<ToolBatchView>, id: string): (k: nat)
    ensures k <= |batches|
    ensures forall j :: 0 <= j < k ==> batches[j].id != id
    ensures k < |batches| ==> batches[k].id == id
  {
    if batches == [] || batches[0].id == id then 0 else 1 + FindBatch(batches[1..], id)
  }

  function FindCall(calls: seq<ToolCallView>, callId: string): (k: nat)
    ensures k <= |calls|
    ensures forall j :: 0 <= j < k ==> calls[j].callId != callId
    ensures k < |calls| ==> calls[k].callId == callId
  {
    if calls == [] || calls[0].callId == callId then 0 else 1 + FindCall(calls[1..], callId)
  }

  lemma UpdateBehindFirst<T>(s: seq<T>, k: nat, value: T)
    requires 0 < k < |s|
    ensures s[k := value] == [s[0]] + s[1..][k - 1 := value]
    ensures s == [s[0]] + s[1..] && s[1..][k - 1] == s[k]
  {
  }

  lemma {:induction false} TouchIsUpdate(batches: seq<ToolBatchView>, id: string, callId: string, change: ToolCallView -> ToolCallView)
    ensures var k := FindBatch(batches, id);
            Touch(batches, id, callId, change) ==
            if k == |batches| then batches
            else batches[k := batches[k].(calls := TouchCall(batches[k].calls, callId, change))]
  {
    if batches != [] && batches[0].id != id {
      TouchIsUpdate(batches[1..], id, callId, change);
      var k := FindBatch(batches[1..], id);
      if k < |batches[1..]| {
        UpdateBehindFirst(batches, k + 1, batches[k + 1].(calls := TouchCall(batches[k + 1].calls, callId, change)));
      }
    }
  }

  lemma {:induction false} TouchCallIsUpdate(calls: seq<ToolCallView>, callId: string, change: ToolCallView -> ToolCallView)
    ensures var k := FindCall(calls, callId);
            TouchCall(calls, callId, change) == if k == |calls| then calls else calls[k := change(calls[k])]
  {
    if calls != [] && calls[0].callId != callId {
      TouchCallIsUpdate(calls[1..], callId, change);
      var k := FindCall(calls[1..], callId);
      if k < |calls[1..]| {
        UpdateBehindFirst(calls, k + 1, change(calls[k + 1]));
      }
    }
  }

  /** What the replay loop does at one log entry. */
  function Replayed(f: Facts, batches: seq<ToolBatchView>, e: LogEntry, run: RunId): seq<ToolBatchView> {
    if !e.event.Tool? || e.event.tool.runId != run then batches
    else
      match e.event.tool
      case BatchStarted(_, turnId, batchId, calls) =>
        batches + [ToolBatchView(ApiToolBatchId(batchId), turnId, Running,
                                 seq(|calls|, i requires 0 <= i < |calls| => NewCall(f, calls[i])))]
      case CallStarted(_, batchId, callId) =>
        Touch(batches, ApiToolBatchId(batchId), callId, Started(e.observedAtMs))
      case CallCompleted(_, batchId, result) =>
        Touch(batches, ApiToolBatchId(batchId), result.callId, Completed(e.observedAtMs, result))
      case _ => batches
  }

  // One more event changes exactly the call it addresses, in the way the loop changes it.

  lemma LatestOne(later: Log, e: LogEntry, key: CallKey)
    ensures LastCompletion(later + [e], key) == if Completes(e, key) then Some(e) else LastCompletion(later, key)
    ensures LastStart(later + [e], key) == if Starts(e, key) then Some(e.observedAtMs) else LastStart(later, key)
    ensures StartedSinceCompletion(later + [e], key) <==>
            !Completes(e, key) && (Starts(e, key) || StartedSinceCompletion(later, key))
  {
    assert (later + [e])[..|later|] == later;
  }

  lemma CallAfterOne(f: Facts, call: ObservedToolCall, later: Log, e: LogEntry, key: CallKey, addressed: bool)
    ensures var before, after := CallAfter(f, call, later, key, addressed), CallAfter(f, call, later + [e], key, addressed);
            after == if addressed && Starts(e, key) then Started(e.observedAtMs)(before)
                     else if addressed && Completes(e, key) then Completed(e.observedAtMs, e.event.tool.result)(before)
                     else before
  {
    LatestOne(later, e, key);
  }

  function ChangeBy(e: LogEntry): ToolCallView -> ToolCallView {
    if e.event.Tool? && e.event.tool.CallCompleted? then Completed(e.observedAtMs, e.event.tool.result)
    else Started(e.observedAtMs)
  }

  /** The call id of a start or completion in a batch of the run. */
  function Addresses(e: LogEntry, run: RunId, batchId: ToolBatchId): Option<string> {
    if e.event.Tool? && e.event.tool.runId == run then
      (match e.event.tool
       case CallStarted(_, b, callId) => if b == batchId then Some(callId) else None
       case CallCompleted(_, b, result) => if b == batchId then Some(result.callId) else None
       case _ => None)
    else None
  }

  /** Only the first call with an id is the one found by it. */
  lemma FirstIsFound(calls: seq<ObservedToolCall>, views: seq<ToolCallView>, callId: string, i: nat)
    requires |views| == |calls| && i < |calls|
    requires forall j :: 0 <= j < |calls| ==> views[j].callId == calls[j].callId
    ensures FirstWithId(calls, i) && calls[i].callId == callId <==> i == FindCall(views, callId)
  {
    var k := FindCall(views, callId);
    assert views[i].callId == calls[i].callId;
    if k < |calls| {
      assert views[k].callId == calls[k].callId;
    }
  }

  lemma AddressesMeans(e: LogEntry, key: CallKey)
    ensures Addresses(e, key.runId, key.batchId) == Some(key.callId) <==> Starts(e, key) || Completes(e, key)
    ensures Starts(e, key) ==> ChangeBy(e) == Started(e.observedAtMs)
    ensures Completes(e, key) ==> !Starts(e, key) && ChangeBy(e) == Completed(e.observedAtMs, e.event.tool.result)
  {
  }

  /** The first call with its id is changed by an event that addresses it, and no other is. */
  lemma CallAfterEvent(f: Facts, call: ObservedToolCall, later: Log, e: LogEntry, key: CallKey, addressed: bool)
    ensures var before, after := CallAfter(f, call, later, key, addressed), CallAfter(f, call, later + [e], key, addressed);
            after == if addressed && Addresses(e, key.runId, key.batchId) == Some(key.callId) then ChangeBy(e)(before) else before
  {
    AddressesMeans(e, key);
    CallAfterOne(f, call, later, e, key, addressed);
  }

  lemma CallsAfterOne(f: Facts, calls: seq<ObservedToolCall>, later: Log, e: LogEntry, run: RunId, batchId: ToolBatchId, addressed: bool)
    ensures var before := CallsAfter(f, calls, later, run, batchId, addressed);
            CallsAfter(f, calls, later + [e], run, batchId, addressed) ==
            if addressed && Addresses(e, run, batchId).Some?
            then TouchCall(before, Addresses(e, run, batchId).value, ChangeBy(e)) else before
  {
    var before := CallsAfter(f, calls, later, run, batchId, addressed);
    var after := CallsAfter(f, calls, later + [e], run, batchId, addressed);
    var hit := addressed && Addresses(e, run, batchId).Some?;
    var callId := if hit then Addresses(e, run, batchId).value else "";
    forall i | 0 <= i < |calls|
      ensures after[i] == if hit && i == FindCall(before, callId) then ChangeBy(e)(before[i]) else before[i]
    {
      CallAfterEvent(f, calls[i], later, e, CallKey(run, batchId, calls[i].callId), addressed && FirstWithId(calls, i));
      FirstIsFound(calls, before, callId, i);
    }
    TouchCallIsUpdate(before, callId, ChangeBy(e));
  }

  lemma ReplayCons(f: Facts, first: ToolBatchView, rest: seq<ToolBatchView>, e: LogEntry, run: RunId)
    requires AddressedBatch(e, run).Some?
    ensures Addresses(e, run, AddressedBatch(e, run).value).Some?
    ensures var id := AddressedBatch(e, run).value;
            Replayed(f, [first] + rest, e, run) ==
            if first.id == ApiToolBatchId(id)
            then [first.(calls := TouchCall(first.calls, Addresses(e, run, id).value, ChangeBy(e)))] + rest
            else [first] + Replayed(f, rest, e, run)
  {
    assert ([first] + rest)[1..] == rest;
  }

  lemma {:induction false} OpenBatchesOne(f: Facts, log: Log, e: LogEntry, run: RunId, taken: set<ToolBatchId>)
    ensures var before := OpenBatches(f, log, run, taken);
            OpenBatches(f, log + [e], run, taken) ==
            if StartsBatch(e, run) then before + OpenBatches(f, [e], run, Taken(log, run, taken))
            else if AddressedBatch(e, run).Some? && AddressedBatch(e, run).value !in taken
            then Replayed(f, before, e, run) else before
  {
    if log == [] {
      assert [] + [e] == [e];
      assert [e][1..] == [];
    } else {
      assert (log + [e])[1..] == log[1..] + [e];
      if StartsBatch(log[0], run) {
        var b := log[0].event.tool;
        var taken' := taken + {b.batchId};
        OpenBatchesOne(f, log[1..], e, run, taken');
        FirstBatchOne(f, log, e, run, taken);
        if AddressedBatch(e, run).Some? {
          ToolBatchIdInjective(b.batchId, AddressedBatch(e, run).value);
          ReplayCons(f, FirstOpened(f, log, run, taken), OpenBatches(f, log[1..], run, taken'), e, run);
        }
      } else {
        OpenBatchesOne(f, log[1..], e, run, taken);
      }
    }
  }

  /** The batch that the first event of the log starts. */
  function FirstOpened(f: Facts, log: Log, run: RunId, taken: set<ToolBatchId>): ToolBatchView
    requires log != [] && StartsBatch(log[0], run)
  {
    var b := log[0].event.tool;
    ToolBatchView(ApiToolBatchId(b.batchId), b.turnId, Running,
                  CallsAfter(f, b.calls, log[1..], run, b.batchId, b.batchId !in taken))
  }

  lemma FirstBatchOne(f: Facts, log: Log, e: LogEntry, run: RunId, taken: set<ToolBatchId>)
    requires log != [] && StartsBatch(log[0], run)
    ensures var b, first, first' := log[0].event.tool, FirstOpened(f, log, run, taken), FirstOpened(f, log + [e], run, taken);
            && OpenBatches(f, log, run, taken) == [first] + OpenBatches(f, log[1..], run, taken + {b.batchId})
            && OpenBatches(f, log + [e], run, taken) == [first'] + OpenBatches(f, log[1..] + [e], run, taken + {b.batchId})
            && first' == if b.batchId !in taken && Addresses(e, run, b.batchId).Some?
                         then first.(calls := TouchCall(first.calls, Addresses(e, run, b.batchId).value, ChangeBy(e))) else first
  {
    var b := log[0].event.tool;
    assert (log + [e])[1..] == log[1..] + [e];
    CallsAfterOne(f, b.calls, log[1..], e, run, b.batchId, b.batchId !in taken);
  }

  /** The batch a start or completion of the run names. */
  function AddressedBatch(e: LogEntry, run: RunId): Option<ToolBatchId> {
    if e.event.Tool? && e.event.tool.runId == run && (e.event.tool.CallStarted? || e.event.tool.CallCompleted?)
    then Some(e.event.tool.batchId) else None
  }

  function Taken(log: Log, run: RunId, taken: set<ToolBatchId>): set<ToolBatchId> {
    if log == [] then taken
    else Taken(log[1..], run, if StartsBatch(log[0], run) then taken + {log[0].event.tool.batchId} else taken)
  }

  lemma OpenBatchesReplay(f: Facts, log: Log, e: LogEntry, run: RunId)
    ensures OpenBatches(f, log + [e], run, {}) == Replayed(f, OpenBatches(f, log, run, {}), e, run)
  {
    OpenBatchesOne(f, log, e, run, {});
    if StartsBatch(e, run) {
      var b := e.event.tool;
      var taken := Taken(log, run, {});
      assert [e][1..] == [];
      var calls := CallsAfter(f, b.calls, [], run, b.batchId, b.batchId !in taken);
      forall i | 0 <= i < |b.calls| ensures calls[i] == NewCall(f, b.calls[i]) {
      }
      assert calls == seq(|b.calls|, i requires 0 <= i < |b.calls| => NewCall(f, b.calls[i]));
      assert OpenBatches(f, [e], run, taken) == [ToolBatchView(ApiToolBatchId(b.batchId), b.turnId, Running, calls)];
    }
  }

  // ---------- the projection ----------

  method StartCall(batches: seq<ToolBatchView>, id: string, callId: string, observedAtMs: nat)
    returns (r: seq<ToolBatchView>)
    ensures r == Touch(batches, id, callId, Started(observedAtMs))
  {
    r := batches;
    TouchIsUpdate(batches, id, callId, Started(observedAtMs));
    var b := FindBatch(r, id);
    if b < |r| {
      TouchCallIsUpdate(r[b].calls, callId, Started(observedAtMs));
      var c := FindCall(r[b].calls, callId);
      if c < |r[b].calls| {
        var call := r[b].calls[c].(startedAtMs := Some(observedAtMs));
        if call.status == Requested {
          call := call.(status := Running);
        }
        r := r[b := r[b].(calls := r[b].calls[c := call])];
      }
    }
  }

  method CompleteCall(batches: seq<ToolBatchView>, id: string, result: ToolCallResult, observedAtMs: nat)
    returns (r: seq<ToolBatchView>)
    ensures r == Touch(batches, id, result.callId, Completed(observedAtMs, result))
  {
    r := batches;
    TouchIsUpdate(batches, id, result.callId, Completed(observedAtMs, result));
    var b := FindBatch(r, id);
    if b < |r| {
      TouchCallIsUpdate(r[b].calls, result.callId, Completed(observedAtMs, result));
      var c := FindCall(r[b].calls, result.callId);
      if c < |r[b].calls| {
        var call := r[b].calls[c].(status := CoreToolStatusToApi(result.status), isError := result.status.IsError());
        call := call.(finishedAtMs := Some(observedAtMs), durationMs := result.durationMs);
        call := call.(outputBytes := result.outputBytes, truncated := result.truncated);
        r := r[b := r[b].(calls := r[b].calls[c := call])];
      }
    }
  }

  /** The pass over one batch when the log is read. */
  method FinishBatch(batch: ToolBatchView, completed: bool, status: ApiRunStatus) returns (r: ToolBatchView)
    ensures r == FinalBatch(batch, completed, status.Ended())
  {
    var calls := batch.calls;
    for i := 0 to |calls|
      invariant |calls| == |batch.calls|
      invariant forall j :: 0 <= j < i ==> calls[j] == FinalCall(batch.calls[j], completed, status.Ended())
      invariant forall j :: i <= j < |calls| ==> calls[j] == batch.calls[j]
    {
      if completed {
        if calls[i].status == Running || calls[i].status == Requested {
          calls := calls[i := calls[i].(status := ToolItemStatus.Unavailable)];
        }
      } else if status == RunCompleted || status == RunFailed || status == RunCancelled {
        if calls[i].finishedAtMs.None? {
          calls := calls[i := calls[i].(status := ToolItemStatus.Cancelled, isError := true)];
        }
      }
    }
    r := batch.(calls := calls, status := Aggregate(Statuses(calls)));
    assert calls == FinalBatch(batch, completed, status.Ended()).calls;
  }

  /** One turn of the replay loop, but for the ids of completed batches. */
  method ReplayEntry(f: Facts, batches: seq<ToolBatchView>, entry: LogEntry, run: RunId) returns (r: seq<ToolBatchView>)
    ensures r == Replayed(f, batches, entry, run)
  {
    r := batches;
    if entry.event.Tool? && entry.event.tool.runId == run {
      match entry.event.tool
      case BatchStarted(_, turnId, batchId, calls) =>
        var projected := seq(|calls|, i requires 0 <= i < |calls| => NewCall(f, calls[i]));
        r := r + [ToolBatchView(ApiToolBatchId(batchId), turnId, Running, projected)];
      case CallStarted(_, batchId, callId) =>
        r := StartCall(r, ApiToolBatchId(batchId), callId, entry.observedAtMs);
      case CallCompleted(_, batchId, result) =>
        r := CompleteCall(r, ApiToolBatchId(batchId), result, entry.observedAtMs);
      case _ =>
    }
  }

  /** The replay of the log. */
  method ReplayLog(f: Facts, log: Log, run: RunId) returns (batches: seq<ToolBatchView>, completed: set<string>)
    ensures batches == OpenBatches(f, log, run, {})
    ensures forall id :: id in completed <==> BatchCompletes(log, run, id)
  {
    hide OpenBatches, Replayed, ApiToolBatchId;
    completed := {};
    batches := [];
    NoBatchesYet(f, run);
    for k := 0 to |log|
      invariant batches == OpenBatches(f, log[..k], run, {})
      invariant forall id :: id in completed <==> BatchCompletes(log[..k], run, id)
    {
      var entry := log[k];
      assert log[..k + 1] == log[..k] + [entry];
      OpenBatchesReplay(f, log[..k], entry, run);
      BatchCompletesOne(log[..k], entry, run);
      batches := ReplayEntry(f, batches, entry, run);
      if entry.event.Tool? && entry.event.tool.runId == run && entry.event.tool.BatchCompleted? {
        completed := completed + {ApiToolBatchId(entry.event.tool.batchId)};
      }
    }
    assert log[..|log|] == log;
  }

  lemma NoBatchesYet(f: Facts, run: RunId)
    ensures OpenBatches(f, [], run, {}) == []
  {
  }

  /** The pass over the batches when the log is read. */
  method FinishBatches(open: seq<ToolBatchView>, completed: set<string>, status: ApiRunStatus) returns (batches: seq<ToolBatchView>)
    ensures |batches| == |open|
    ensures forall i :: 0 <= i < |open| ==> batches[i] == FinalBatch(open[i], open[i].id in completed, status.Ended())
  {
    hide FinalBatch;
    batches := open;
    for j := 0 to |batches|
      invariant |batches| == |open|
      invariant forall i :: 0 <= i < j ==> batches[i] == FinalBatch(open[i], open[i].id in completed, status.Ended())
      invariant forall i :: j <= i < |batches| ==> batches[i] == open[i]
    {
      var finished := FinishBatch(batches[j], batches[j].id in completed, status);
      batches := batches[j := finished];
    }
  }

  method ProjectToolBatches(blobs: Blobs, log: Log, contextEntries: seq<ContextEntry>, run: RunId, status: ApiRunStatus)
    returns (batches: seq<ToolBatchView>)
    requires contextEntries == ContextEntriesForRun(log, run)
    ensures batches == RunBatches(blobs, log, run, status)
  {
    hide OpenBatches, FinalBatch, EffectsByCall, AttachmentsByCall, BatchCompletes;
    var results := ProjectToolResults(blobs, contextEntries);
    var effects := ToolEffectsForRun(log, run);
    var open, completed := ReplayLog(Facts(blobs, results, effects, AttachmentsByCall(log, run)), log, run);
    batches := FinishBatches(open, completed, status);
    assert batches == FinalBatches(open, log, run, status.Ended());
  }

  lemma BatchCompletesOne(log: Log, e: LogEntry, run: RunId)
    ensures forall id :: BatchCompletes(log + [e], run, id) <==>
                         BatchCompletes(log, run, id) || BatchCompletes([e], run, id)
  {
    forall id ensures BatchCompletes(log + [e], run, id) <==> BatchCompletes(log, run, id) || BatchCompletes([e], run, id) {
      if BatchCompletes(log, run, id) {
        var k :| 0 <= k < |log| && log[k].event.Tool? && log[k].event.tool.BatchCompleted?
                 && log[k].event.tool.runId == run && ApiToolBatchId(log[k].event.tool.batchId) == id;
        assert (log + [e])[k] == log[k];
      }
      if BatchCompletes([e], run, id) {
        assert (log + [e])[|log|] == e;
      }
      if BatchCompletes(log + [e], run, id) {
        var k :| 0 <= k < |log + [e]| && (log + [e])[k].event.Tool? && (log + [e])[k].event.tool.BatchCompleted?
                 && (log + [e])[k].event.tool.runId == run && ApiToolBatchId((log + [e])[k].event.tool.batchId) == id;
        if k == |log| { assert [e][0] == e; }
      }
    }
  }
}
