/** The approvals of a run that still wait for a decision. */
module Approvals {
  import opened ApiIds
  import opened RunLog
  import RunProjection

  datatype PendingApprovalView = PendingApprovalView(approvalId: string, requestedAtMs: nat, subject: string)

  predicate Requests(e: LogEntry, run: RunId, id: string) {
    e.event.Approval? && e.event.approval.ApprovalRequested?
    && e.event.approval.runId == run && e.event.approval.approvalId == id
  }

  /** A decision or a cancellation. */
  predicate Settles(e: LogEntry, run: RunId, id: string) {
    e.event.Approval? && !e.event.approval.ApprovalRequested?
    && e.event.approval.runId == run && e.event.approval.approvalId == id
  }

  /** The last event of the run about this approval is the request at `k`. */
  ghost predicate PendingSince(log: Log, run: RunId, id: string, k: int) {
    0 <= k < |log| && Requests(log[k], run, id)
    && forall m :: k < m < |log| ==> !Requests(log[m], run, id) && !Settles(log[m], run, id)
  }

  function ViewOf(e: LogEntry): PendingApprovalView
    requires e.event.Approval? && e.event.approval.ApprovalRequested?
  {
    PendingApprovalView(e.event.approval.approvalId, e.observedAtMs, e.event.approval.subject)
  }

  // ---------- the order of approval ids ----------

  /** Rust's order on strings, which by code point is its order on their UTF-8 bytes. */
  predicate Before(a: string, b: string) {
    b != [] && (a == [] || a[0] < b[0] || (a[0] == b[0] && Before(a[1..], b[1..])))
  }

  lemma {:induction false} BeforeIsTotal(a: string, b: string)
    ensures Before(a, b) || Before(b, a) || a == b
    ensures !(Before(a, b) && Before(b, a)) && !Before(a, a)
  {
    if a != [] && b != [] {
      BeforeIsTotal(a[1..], b[1..]);
      BeforeIsTotal(a[1..], a[1..]);
      assert a == [a[0]] + a[1..] && b == [b[0]] + b[1..];
    } else if a != [] {
      BeforeIsTotal(a[1..], a[1..]);
    }
  }

  lemma {:induction false} BeforeIsTransitive(a: string, b: string, c: string)
    requires Before(a, b) && Before(b, c)
    ensures Before(a, c)
  {
    if a != [] && a[0] == b[0] == c[0] {
      BeforeIsTransitive(a[1..], b[1..], c[1..]);
    }
  }

  predicate IsLeast(least: string, ids: set<string>) {
    least in ids && forall id :: id in ids ==> id == least || Before(least, id)
  }

  lemma {:induction false} LeastExists(ids: set<string>)
    requires ids != {}
    ensures exists least :: IsLeast(least, ids)
  {
    var one :| one in ids;
    var others := ids - {one};
    if others == {} {
      assert forall id :: id in ids ==> id == one || id in others;
      assert IsLeast(one, ids);
    } else {
      LeastExists(others);
      var rest :| IsLeast(rest, others);
      BeforeIsTotal(one, rest);
      if Before(one, rest) {
        forall id | id in ids ensures id == one || Before(one, id) {
          if id != one && id != rest { BeforeIsTransitive(one, rest, id); }
        }
        assert IsLeast(one, ids);
      } else {
        assert IsLeast(rest, ids);
      }
    }
  }

  ghost predicate InIdOrder(views: seq<PendingApprovalView>) {
    forall i, j :: 0 <= i < j < |views| ==> Before(views[i].approvalId, views[j].approvalId)
  }

  /** Exactly the pending approvals of the run, each with its last request, in the order of their ids. */
  ghost predicate ListsPending(views: seq<PendingApprovalView>, log: Log, run: RunId) {
    && InIdOrder(views)
    && forall v :: v in views <==> exists k :: PendingSince(log, run, v.approvalId, k) && v == ViewOf(log[k])
  }

  /**
   Requests go into a map, decisions and cancellations take them out, and what is left is listed in
   the order of the ids: exactly the approvals whose last event is a request, each with that request.
   */
  method PendingApprovalsForRun(log: Log, run: RunId) returns (views: seq<PendingApprovalView>)
    ensures ListsPending(views, log, run)
  {
    var pending: map<string, PendingApprovalView> := map[];
    for n := 0 to |log|
      invariant Tracks(pending, log[..n], run)
    {
      var e := log[n];
      ghost var before := pending;
      if e.event.Approval? && e.event.approval.runId == run {
        if e.event.approval.ApprovalRequested? {
          pending := pending[e.event.approval.approvalId := ViewOf(e)];
        } else {
          pending := pending - {e.event.approval.approvalId};
        }
      }
      TracksOne(before, pending, log[..n], e, run);
      assert log[..n + 1] == log[..n] + [e];
    }
    assert log[..|log|] == log;
    views := InOrder(pending);
    forall v ensures v in views <==> exists k :: PendingSince(log, run, v.approvalId, k) && v == ViewOf(log[k]) {
      if exists k :: PendingSince(log, run, v.approvalId, k) && v == ViewOf(log[k]) {
        var k :| PendingSince(log, run, v.approvalId, k) && v == ViewOf(log[k]);
        assert pending[v.approvalId] == ViewOf(log[k]);
      }
      if v in views {
        assert v.approvalId in pending;
      }
    }
  }

  /** The map holds exactly the pending approvals of the log so far. */
  ghost predicate Tracks(pending: map<string, PendingApprovalView>, log: Log, run: RunId) {
    && (forall id :: id in pending <==> exists k :: PendingSince(log, run, id, k))
    && (forall id, k :: PendingSince(log, run, id, k) ==> id in pending && pending[id] == ViewOf(log[k]))
    && (forall id :: id in pending ==> pending[id].approvalId == id)
  }

  lemma PendingOne(log: Log, e: LogEntry, run: RunId, id: string, k: int)
    ensures PendingSince(log + [e], run, id, k) <==>
            (k == |log| && Requests(e, run, id))
            || (k < |log| && PendingSince(log, run, id, k) && !Requests(e, run, id) && !Settles(e, run, id))
  {
    var longer := log + [e];
    if PendingSince(longer, run, id, k) && k < |log| {
      assert longer[k] == log[k] && longer[|log|] == e;
      forall m | k < m < |log| ensures !Requests(log[m], run, id) && !Settles(log[m], run, id) {
        assert longer[m] == log[m];
      }
    }
  }

  lemma TracksOne(before: map<string, PendingApprovalView>, after: map<string, PendingApprovalView>, log: Log, e: LogEntry, run: RunId)
    requires Tracks(before, log, run)
    requires after == if e.event.Approval? && e.event.approval.runId == run then
                        (if e.event.approval.ApprovalRequested? then before[e.event.approval.approvalId := ViewOf(e)]
                         else before - {e.event.approval.approvalId})
                      else before
    ensures Tracks(after, log + [e], run)
  {
    var longer := log + [e];
    forall id, k | PendingSince(longer, run, id, k) ensures id in after && after[id] == ViewOf(longer[k]) {
      PendingOne(log, e, run, id, k);
    }
    forall id | id in after ensures exists k :: PendingSince(longer, run, id, k) {
      if Requests(e, run, id) {
        PendingOne(log, e, run, id, |log|);
        assert PendingSince(longer, run, id, |log|);
      } else {
        var k :| PendingSince(log, run, id, k);
        PendingOne(log, e, run, id, k);
        assert PendingSince(longer, run, id, k);
      }
    }
  }

  method InOrder(pending: map<string, PendingApprovalView>) returns (views: seq<PendingApprovalView>)
    requires forall id :: id in pending ==> pending[id].approvalId == id
    ensures InIdOrder(views)
    ensures forall v :: v in views <==> v.approvalId in pending && pending[v.approvalId] == v
  {
    var rest := pending.Keys;
    views := [];
    while rest != {}
      invariant rest <= pending.Keys
      invariant InIdOrder(views)
      invariant forall v :: v in views <==> v.approvalId in pending.Keys - rest && pending[v.approvalId] == v
      invariant forall i, id :: 0 <= i < |views| && id in rest ==> Before(views[i].approvalId, id)
      decreases rest
    {
      LeastExists(rest);
      var id :| id in rest && IsLeast(id, rest);
      views := views + [pending[id]];
      rest := rest - {id};
    }
  }

  // ---------- what is listed, in the events' own terms ----------

  /** The log requests this approval at `k`, and nothing later in the log is about it. */
  ghost predicate LastRequestedAt(log: Log, run: RunId, v: PendingApprovalView, k: int) {
    && 0 <= k < |log| && log[k] == LogEntry(v.requestedAtMs, Approval(ApprovalRequested(run, v.approvalId, v.subject)))
    && forall m :: k < m < |log| && log[m].event.Approval? ==>
         !(log[m].event.approval.runId == run && log[m].event.approval.approvalId == v.approvalId)
  }

  /** At the first place they differ, `a` has the lower character or has ended. */
  ghost predicate FirstDiffersAt(a: string, b: string, at: int) {
    0 <= at <= |a| && at < |b| && a[..at] == b[..at] && (at == |a| || a[at] < b[at])
  }

  ghost predicate DiffersBelow(a: string, b: string) {
    exists at :: FirstDiffersAt(a, b, at)
  }

  lemma {:induction false} BeforeMeans(a: string, b: string)
    requires Before(a, b)
    ensures DiffersBelow(a, b)
  {
    if a != [] && a[0] == b[0] {
      BeforeMeans(a[1..], b[1..]);
      var k :| FirstDiffersAt(a[1..], b[1..], k);
      assert a[..k + 1] == [a[0]] + a[1..][..k] && b[..k + 1] == [b[0]] + b[1..][..k];
      assert FirstDiffersAt(a, b, k + 1);
    } else {
      assert FirstDiffersAt(a, b, 0);
    }
  }

  /** Exactly the requests that nothing later is about are listed, each with its time and subject, lowest id first. */
  lemma PendingMeans(views: seq<PendingApprovalView>, log: Log, run: RunId)
    requires ListsPending(views, log, run)
    ensures forall v :: v in views <==> exists k :: LastRequestedAt(log, run, v, k)
    ensures forall i, j :: 0 <= i < j < |views| ==> DiffersBelow(views[i].approvalId, views[j].approvalId)
  {
    forall v, k ensures LastRequestedAt(log, run, v, k) <==> PendingSince(log, run, v.approvalId, k) && v == ViewOf(log[k]) {
    }
    forall i, j | 0 <= i < j < |views| ensures DiffersBelow(views[i].approvalId, views[j].approvalId) {
      BeforeMeans(views[i].approvalId, views[j].approvalId);
    }
  }

  // ---------- runs do not interfere ----------

  /** What `PendingApprovalsForRun` lists is decided by the run's own events. */
  lemma {:induction false} PendingAlone(log: Log, run: RunId, v: PendingApprovalView)
    ensures (exists k :: PendingSince(log, run, v.approvalId, k) && v == ViewOf(log[k])) <==>
            (exists k :: PendingSince(OnlyRun(log, run), run, v.approvalId, k) && v == ViewOf(OnlyRun(log, run)[k]))
  {
    if log != [] {
      var n := |log| - 1;
      var init, e := log[..n], log[n];
      assert log == init + [e];
      RunProjection.OnlyRunAppend(init, [e], run);
      assert [e][1..] == [];
      PendingAlone(init, run, v);
      ViewPendingOne(init, e, run, v);
      var own := OnlyRun([e], run);
      if own != [] {
        assert own == [own[0]];
        ViewPendingOne(OnlyRun(init, run), own[0], run, v);
      } else {
        assert OnlyRun(log, run) == OnlyRun(init, run);
      }
    }
  }

  lemma ViewPendingOne(log: Log, e: LogEntry, run: RunId, v: PendingApprovalView)
    ensures (exists k :: PendingSince(log + [e], run, v.approvalId, k) && v == ViewOf((log + [e])[k])) <==>
            if Requests(e, run, v.approvalId) then v == ViewOf(e)
            else !Settles(e, run, v.approvalId) && exists k :: PendingSince(log, run, v.approvalId, k) && v == ViewOf(log[k])
  {
    var id, longer := v.approvalId, log + [e];
    if exists k :: PendingSince(longer, run, id, k) && v == ViewOf(longer[k]) {
      var k :| PendingSince(longer, run, id, k) && v == ViewOf(longer[k]);
      PendingOne(log, e, run, id, k);
    }
    if Requests(e, run, id) {
      PendingOne(log, e, run, id, |log|);
      assert longer[|log|] == e;
    } else if exists k :: PendingSince(log, run, id, k) && v == ViewOf(log[k]) {
      var k :| PendingSince(log, run, id, k) && v == ViewOf(log[k]);
      PendingOne(log, e, run, id, k);
      assert longer[k] == log[k];
    }
  }

  lemma FirstIsLeast(views: seq<PendingApprovalView>, v: PendingApprovalView)
    requires InIdOrder(views) && v in views
    ensures v == views[0] || Before(views[0].approvalId, v.approvalId)
  {
    var k :| 0 <= k < |views| && views[k] == v;
  }

  lemma RestInOrder(views: seq<PendingApprovalView>)
    requires InIdOrder(views) && views != []
    ensures InIdOrder(views[1..])
    ensures forall v :: v in views[1..] <==> v in views && v != views[0]
  {
    assert views == [views[0]] + views[1..];
    forall v | v in views[1..] ensures v != views[0] {
      var k :| 0 <= k < |views[1..]| && views[1..][k] == v;
      assert views[k + 1] == v;
      BeforeIsTotal(views[0].approvalId, v.approvalId);
    }
  }

  /** A list in order is determined by its members. */
  lemma {:induction false} SameMembersSameList(a: seq<PendingApprovalView>, b: seq<PendingApprovalView>)
    requires InIdOrder(a) && InIdOrder(b) && forall v :: v in a <==> v in b
    ensures a == b
  {
    assert b != [] ==> b[0] in b;
    if a != [] {
      assert a[0] in a && a[0] in b;
      FirstIsLeast(b, a[0]);
      assert b[0] in b;
      FirstIsLeast(a, b[0]);
      BeforeIsTotal(a[0].approvalId, b[0].approvalId);
      RestInOrder(a);
      RestInOrder(b);
      SameMembersSameList(a[1..], b[1..]);
      assert a == [a[0]] + a[1..] && b == [b[0]] + b[1..];
    }
  }

  /** The approvals listed for a run are the same on the full log and on the run's own. */
  lemma PendingListsAlone(log: Log, run: RunId, views: seq<PendingApprovalView>, own: seq<PendingApprovalView>)
    requires ListsPending(views, log, run) && ListsPending(own, OnlyRun(log, run), run)
    ensures views == own
  {
    forall v ensures v in views <==> v in own {
      PendingAlone(log, run, v);
    }
    SameMembersSameList(views, own);
  }
}
