/** What the projection shows of a run's entries and of each tool result among them, in their own terms. */
module ResultViews {
  import opened Wrappers
  import opened ApiIds
  import opened RunLog
  import opened ToolStatus
  import opened ToolResults
  import opened Utf8

  // ---------- which entries are the run's ----------

  /** The log applied the entry, and it says that it comes from the run; edits and the runtime's own say of none. */
  ghost predicate AppliedFor(log: Log, run: RunId, e: ContextEntry) {
    && !e.source.ContextEdit? && !e.source.Runtime? && e.source.runId == run
    && exists n :: 0 <= n < |log| && log[n].event.EntriesApplied? && e in log[n].event.entries
  }

  lemma {:induction false} AppliedOfRun(log: Log, run: RunId, e: ContextEntry)
    ensures e in OfRun(Applied(log), run) <==> AppliedFor(log, run, e)
  {
    if log != [] {
      AppliedOfRun(log[1..], run, e);
      if n :| 0 <= n < |log[1..]| && log[1..][n].event.EntriesApplied? && e in log[1..][n].event.entries {
        assert log[n + 1].event.EntriesApplied? && e in log[n + 1].event.entries;
      }
      if n :| 0 <= n < |log| && log[n].event.EntriesApplied? && e in log[n].event.entries {
        assert n > 0 ==> log[n] == log[1..][n - 1];
      }
    }
  }

  /**
   An entry the projection shows for a run was applied by the log and comes from that run, and of the
   entries applied that come from the run each id is shown, once.
   */
  lemma RunEntries(log: Log, run: RunId, e: ContextEntry)
    ensures var shown := ContextEntriesForRun(log, run);
            && (e in shown ==> AppliedFor(log, run, e))
            && (AppliedFor(log, run, e) ==> exists shownOne :: shownOne in shown && shownOne.entryId == e.entryId)
            && forall i, j :: 0 <= i < j < |shown| ==> shown[i].entryId != shown[j].entryId
  {
    var all := OfRun(Applied(log), run);
    AppliedOfRun(log, run, e);
    FirstByIdKeepsFirsts(all, {});
    if e in all {
      FirstWithEntryIdIs(all, e.entryId);
      hide FirstById;
      var k := FirstWithEntryId(all, e.entryId);
      var i :| 0 <= i < |all| && all[i] == e;
      assert all[k] in FirstById(all, {});
    }
  }

  lemma {:induction false} FirstWithEntryIdIs(entries: seq<ContextEntry>, id: U64)
    ensures var k := FirstWithEntryId(entries, id);
            && (forall m :: 0 <= m < k ==> entries[m].entryId != id)
            && (k < |entries| ==> entries[k].entryId == id)
  {
    if entries != [] && entries[0].entryId != id {
      FirstWithEntryIdIs(entries[1..], id);
      var k := FirstWithEntryId(entries[1..], id);
      assert forall m :: 0 < m <= k && m < |entries| ==> entries[m] == entries[1..][m - 1];
    }
  }

  // ---------- what a result shows ----------

  ghost predicate ResultAt(entries: seq<ContextEntry>, callId: string, k: int) {
    0 <= k < |entries| && entries[k].kind.ToolResult? && entries[k].kind.callId == callId
  }

  ghost predicate LastResultAt(entries: seq<ContextEntry>, callId: string, k: int) {
    ResultAt(entries, callId, k) && forall m :: k < m < |entries| ==> !ResultAt(entries, callId, m)
  }

  ghost predicate OnlyResultAt(entries: seq<ContextEntry>, callId: string, k: int) {
    ResultAt(entries, callId, k) && forall m :: ResultAt(entries, callId, m) ==> m == k
  }

  lemma ResultsBefore(entries: seq<ContextEntry>, init: seq<ContextEntry>, callId: string)
    requires entries != [] && init == entries[..|entries| - 1]
    ensures forall k :: ResultAt(entries, callId, k) <==> ResultAt(init, callId, k) || (k == |init| && ResultAt(entries, callId, |init|))
  {
    assert forall k :: 0 <= k < |init| ==> init[k] == entries[k];
  }

  lemma {:induction false} ResultsCounted(entries: seq<ContextEntry>, callId: string)
    ensures ResultCount(entries, callId) == 0 <==> forall k :: !ResultAt(entries, callId, k)
    ensures forall k :: LastResultAt(entries, callId, k) ==> LastResult(entries, callId) == Some(entries[k])
  {
    if entries != [] {
      var n := |entries| - 1;
      var init := entries[..n];
      ResultsCounted(init, callId);
      ResultsBefore(entries, init, callId);
      assert ResultCount(entries, callId) == ResultCount(init, callId) + (if ResultAt(entries, callId, n) then 1 else 0);
      forall k | LastResultAt(entries, callId, k) ensures LastResult(entries, callId) == Some(entries[k]) {
        assert k < n ==> LastResultAt(init, callId, k) && init[k] == entries[k];
      }
    }
  }

  lemma {:induction false} OneResultIsOnly(entries: seq<ContextEntry>, callId: string, k: int)
    requires ResultAt(entries, callId, k)
    ensures ResultCount(entries, callId) == 1 <==> OnlyResultAt(entries, callId, k)
  {
    var n := |entries| - 1;
    var init := entries[..n];
    ResultsCounted(init, callId);
    ResultsBefore(entries, init, callId);
    assert ResultCount(entries, callId) == ResultCount(init, callId) + (if ResultAt(entries, callId, n) then 1 else 0);
    if k < n {
      OneResultIsOnly(init, callId, k);
      assert ResultAt(init, callId, k);
    }
  }

  /** These are the media that stand right after the entry at `k`: messages of a tool with media, up to the next other entry. */
  ghost predicate MediaRightAfter(media: seq<MediaView>, entries: seq<ContextEntry>, k: nat) {
    && k + |media| < |entries|
    && (forall m :: k < m <= k + |media| ==>
          var e := entries[m];
          e.kind == Message(User) && e.source.ToolSource? && e.media && media[m - k - 1] == MediaView(e.entryId, e.contentRef))
    && (k + 1 + |media| < |entries| ==>
          var e := entries[k + 1 + |media|];
          !(e.kind == Message(User) && e.source.ToolSource? && e.media))
  }

  lemma MediaOneMore(media: seq<MediaView>, entries: seq<ContextEntry>, k: nat)
    requires k + 1 < |entries| && MediaRightAfter(media, entries[..|entries| - 1], k)
    ensures var e := entries[|entries| - 1];
            if k + 1 + |media| == |entries| - 1 && e.kind == Message(User) && e.source.ToolSource? && e.media
            then MediaRightAfter(media + [MediaView(e.entryId, e.contentRef)], entries, k)
            else MediaRightAfter(media, entries, k)
  {
    var init, n := entries[..|entries| - 1], |entries| - 1;
    assert forall m :: 0 <= m < n ==> init[m] == entries[m];
  }

  /** A call with one result only has the media right after it, and is the running call as long as these go on. */
  lemma {:induction false} MediaAfterOnlyResult(entries: seq<ContextEntry>, callId: string, k: nat)
    requires OnlyResultAt(entries, callId, k)
    ensures MediaRightAfter(AttachedTo(entries, callId), entries, k)
    ensures CurrentCall(entries) == Some(callId) <==> k + 1 + |AttachedTo(entries, callId)| == |entries|
  {
    var n := |entries| - 1;
    var init := entries[..n];
    ResultsBefore(entries, init, callId);
    if k == n {
      NoResultNoMedia(init, callId);
    } else {
      assert OnlyResultAt(init, callId, k) && !ResultAt(entries, callId, n);
      MediaAfterOnlyResult(init, callId, k);
      MediaOneMore(AttachedTo(init, callId), entries, k);
    }
  }

  lemma {:induction false} NoResultNoMedia(entries: seq<ContextEntry>, callId: string)
    requires forall m :: !ResultAt(entries, callId, m)
    ensures AttachedTo(entries, callId) == [] && CurrentCall(entries) != Some(callId)
  {
    if entries != [] {
      ResultsBefore(entries, entries[..|entries| - 1], callId);
      assert !ResultAt(entries, callId, |entries| - 1);
      NoResultNoMedia(entries[..|entries| - 1], callId);
    }
  }

  /**
   A call has a result exactly when an entry is one. It shows the last: its text cut to 4096 bytes, failed
   exactly when it is an error, and the media right after it if the call has no other result.
   */
  lemma ResultShown(blobs: Blobs, entries: seq<ContextEntry>, callId: string, k: int)
    ensures callId in ResultsByCall(blobs, entries) <==> exists m :: ResultAt(entries, callId, m)
    ensures LastResultAt(entries, callId, k) ==>
              var r, text := ResultsByCall(blobs, entries)[callId], blobs(entries[k].contentRef);
              && r.outputRef == entries[k].contentRef
              && r.output == Truncated(text, 4096) && (r.outputPreviewTruncated <==> |Encode(text)| > 4096)
              && r.isError == entries[k].kind.isError
              && r.status == (if entries[k].kind.isError then ToolItemStatus.Failed else ToolItemStatus.Succeeded)
              && (if OnlyResultAt(entries, callId, k) then MediaRightAfter(r.media, entries, k) else r.media == [])
  {
    hide Truncated, Encode;
    ResultsCounted(entries, callId);
    if ResultAt(entries, callId, k) {
      OneResultIsOnly(entries, callId, k);
    }
    if OnlyResultAt(entries, callId, k) {
      MediaAfterOnlyResult(entries, callId, k);
    }
  }
}
