/**
 The committed session log as the projection reads it: events with the time they were
 observed, and the context entries some of them apply.
 */
module RunLog {
  import opened Wrappers
  import opened ApiIds

  datatype ToolCallStatus = Accepted | Unavailable | Pending | Succeeded | Failed | Cancelled {
    predicate IsError() {
      !Succeeded?
    }
  }

  datatype ObservedToolCall = ObservedToolCall(
    callId: string, toolId: Option<string>, toolName: string, argumentsRef: string)

  datatype ToolEffect = ToolEffect(kind: string, data: string)

  datatype Attachment = MediaAttachment(ref: string) | FileAttachment(handle: string, ref: string)

  datatype ToolCallResult = ToolCallResult(
    callId: string, status: ToolCallStatus, effects: seq<ToolEffect>, attachments: seq<Attachment>,
    durationMs: Option<nat>, outputBytes: Option<nat>, truncated: bool)

  datatype ToolEvent =
    | BatchStarted(runId: RunId, turnId: U64, batchId: ToolBatchId, calls: seq<ObservedToolCall>)
    | CallStarted(runId: RunId, batchId: ToolBatchId, callId: string)
    | CallCompleted(runId: RunId, batchId: ToolBatchId, result: ToolCallResult)
    | BatchCompleted(runId: RunId, batchId: ToolBatchId)
    | BatchParked(runId: RunId, batchId: ToolBatchId)
    | BatchUnparked(runId: RunId, batchId: ToolBatchId)

  datatype ApprovalEvent =
    | ApprovalRequested(runId: RunId, approvalId: string, subject: string)
    | ApprovalDecided(runId: RunId, approvalId: string)
    | ApprovalCancelled(runId: RunId, approvalId: string)

  datatype Role = User | Assistant

  datatype ContextEntryKind =
    | Message(role: Role)
    | Instructions
    | Catalog(title: string)
    | ToolCall(callId: string, name: string)
    | ToolResult(callId: string, isError: bool)
    | ReasoningState
    | ProviderOpaque
    | McpApprovalResponse(approvalRequestId: string, approve: bool)

  datatype ContextEntrySource =
    | ContextEdit
    | RunInput(runId: RunId)
    | Steering(runId: RunId)
    | AssistantOutput(runId: RunId)
    | ApprovalDecision(runId: RunId)
    | ToolSource(runId: RunId)
    | Reasoning(runId: RunId)
    | Runtime(name: string)

  /** `media` says whether the content's media type is one the harness treats as media. */
  datatype ContextEntry = ContextEntry(
    entryId: U64, kind: ContextEntryKind, source: ContextEntrySource, contentRef: string, media: bool)

  datatype Event =
    | Tool(tool: ToolEvent)
    | EntriesApplied(entries: seq<ContextEntry>)
    | Approval(approval: ApprovalEvent)
    | OtherEvent(name: string)

  datatype LogEntry = LogEntry(observedAtMs: nat, event: Event)

  type Log = seq<LogEntry>

  function ContextEntryRunId(entry: ContextEntry): Option<RunId> {
    match entry.source
    case ContextEdit | Runtime(_) => None
    case RunInput(runId) => Some(runId)
    case Steering(runId) => Some(runId)
    case AssistantOutput(runId) => Some(runId)
    case ApprovalDecision(runId) => Some(runId)
    case ToolSource(runId) => Some(runId)
    case Reasoning(runId) => Some(runId)
  }

  function OfRun(entries: seq<ContextEntry>, run: RunId): (r: seq<ContextEntry>)
    ensures forall e :: e in r <==> e in entries && ContextEntryRunId(e) == Some(run)
  {
    if entries == [] then []
    else if ContextEntryRunId(entries[0]) == Some(run) then [entries[0]] + OfRun(entries[1..], run)
    else OfRun(entries[1..], run)
  }

  /** The log with every event and context entry of other runs removed. */
  function OnlyRun(log: Log, run: RunId): Log {
    if log == [] then []
    else
      match log[0].event
      case Tool(tool) =>
        if tool.runId == run then [log[0]] + OnlyRun(log[1..], run) else OnlyRun(log[1..], run)
      case Approval(approval) =>
        if approval.runId == run then [log[0]] + OnlyRun(log[1..], run) else OnlyRun(log[1..], run)
      case EntriesApplied(entries) =>
        if OfRun(entries, run) == [] then OnlyRun(log[1..], run)
        else [LogEntry(log[0].observedAtMs, EntriesApplied(OfRun(entries, run)))] + OnlyRun(log[1..], run)
      case OtherEvent(_) => OnlyRun(log[1..], run)
  }

  lemma {:induction false} OfRunIdempotent(entries: seq<ContextEntry>, run: RunId)
    ensures OfRun(OfRun(entries, run), run) == OfRun(entries, run)
  {
    if entries != [] {
      OfRunIdempotent(entries[1..], run);
      var rest := OfRun(entries[1..], run);
      assert ([entries[0]] + rest)[1..] == rest;
    }
  }

  lemma {:induction false} OfRunAppend(a: seq<ContextEntry>, b: seq<ContextEntry>, run: RunId)
    ensures OfRun(a + b, run) == OfRun(a, run) + OfRun(b, run)
  {
    if a == [] {
      assert a + b == b;
    } else {
      assert (a + b)[1..] == a[1..] + b;
      OfRunAppend(a[1..], b, run);
    }
  }
}
