/** The statuses the API shows for tool calls, and the status of a batch made from those of its calls. */
module ToolStatus {
  import RunLog

  datatype ToolItemStatus = Requested | Running | Succeeded | Failed | Cancelled | Unavailable

  datatype ApiRunStatus = RunQueued | RunRunning | RunParked | RunCancelling | RunCompleted | RunFailed | RunCancelled {
    predicate Ended() {
      RunCompleted? || RunFailed? || RunCancelled?
    }
  }

  predicate Live(status: ToolItemStatus) {
    status.Requested? || status.Running?
  }

  /** How far a call has come: requested, running, settled. */
  function Progress(status: ToolItemStatus): nat {
    match status
    case Requested => 0
    case Running => 1
    case _ => 2
  }

  function CoreToolStatusToApi(status: RunLog.ToolCallStatus): ToolItemStatus {
    match status
    case Accepted => Requested
    case Pending => Running
    case Succeeded => Succeeded
    case Failed => Failed
    case Cancelled => Cancelled
    case Unavailable => Unavailable
  }

  /** The checks of `aggregate_api_tool_status`, in its order; the last one is never reached. */
  function Aggregate(statuses: seq<ToolItemStatus>): ToolItemStatus {
    if statuses == [] then Unavailable
    else if exists s :: s in statuses && Live(s) then Running
    else if exists s :: s in statuses && (s.Failed? || s.Unavailable?) then Failed
    else if forall s :: s in statuses ==> s.Succeeded? then Succeeded
    else if Cancelled in statuses then Cancelled
    else Unavailable
  }

  /** Which of two batch outcomes wins. */
  function Weight(status: ToolItemStatus): nat {
    match status
    case Succeeded => 0
    case Cancelled => 1
    case Failed => 2
    case _ => 3
  }

  function Join(a: ToolItemStatus, b: ToolItemStatus): ToolItemStatus {
    if Weight(a) >= Weight(b) then a else b
  }

  /** What a call counts as in its batch: requested is running, unavailable is failed. */
  function Counted(status: ToolItemStatus): ToolItemStatus {
    match status
    case Requested => Running
    case Unavailable => Failed
    case s => s
  }

  /** The batch outcome is that of its weightiest call, and only an empty batch is unavailable. */
  lemma AggregateIsMaximum(statuses: seq<ToolItemStatus>)
    ensures Aggregate(statuses) == Unavailable <==> statuses == []
    ensures statuses != [] ==> exists s :: s in statuses && Aggregate(statuses) == Counted(s)
    ensures statuses != [] ==> forall s :: s in statuses ==> Weight(Counted(s)) <= Weight(Aggregate(statuses))
  {
    if statuses != [] {
      assert statuses[0] in statuses;
      if exists s :: s in statuses && Live(s) {
        var s :| s in statuses && Live(s);
        assert Counted(s) == Running;
      } else if exists s :: s in statuses && (s.Failed? || s.Unavailable?) {
        var s :| s in statuses && (s.Failed? || s.Unavailable?);
        assert Counted(s) == Failed;
      } else if forall s :: s in statuses ==> s.Succeeded? {
        assert Counted(statuses[0]) == Succeeded;
      } else {
        var s :| s in statuses && !s.Succeeded?;
        assert Counted(s) == Cancelled;
      }
    }
  }

  /** Two maxima over the same members are equal. */
  lemma AggregateOfSameMembers(a: seq<ToolItemStatus>, b: seq<ToolItemStatus>)
    requires forall s :: s in a <==> s in b
    ensures Aggregate(a) == Aggregate(b)
  {
    if |a| > 0 { assert a[0] in a; }
    if |b| > 0 { assert b[0] in b; }
  }

  lemma AggregateIsPermutationInvariant(a: seq<ToolItemStatus>, b: seq<ToolItemStatus>)
    requires multiset(a) == multiset(b)
    ensures Aggregate(a) == Aggregate(b)
  {
    forall s ensures s in a <==> s in b {
      assert s in a <==> s in multiset(a);
      assert s in b <==> s in multiset(b);
    }
    AggregateOfSameMembers(a, b);
  }

  /** The outcome of two batches put together is the join of their outcomes. */
  lemma AggregateJoins(a: seq<ToolItemStatus>, b: seq<ToolItemStatus>)
    requires a != [] && b != []
    ensures Aggregate(a + b) == Join(Aggregate(a), Aggregate(b))
  {
    AggregateIsMaximum(a);
    AggregateIsMaximum(b);
    AggregateIsMaximum(a + b);
    var best :| best in a + b && Aggregate(a + b) == Counted(best);
    var x :| x in a && Aggregate(a) == Counted(x);
    var y :| y in b && Aggregate(b) == Counted(y);
    assert best in a || best in b;
    assert x in a + b && y in a + b;
  }
}
