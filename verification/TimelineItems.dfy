/** What each item of the timeline shows, in terms of the run's entries and the calls of its batches. */
module TimelineItems {
  import opened Wrappers
  import opened RunLog
  import opened ToolBatches
  import opened RunTimeline
  import ToolResults
  import ResultViews

  // ---------- the calls of the batches ----------

  ghost predicate CallAt(batches: seq<ToolBatchView>, callId: string, b: int, c: int) {
    0 <= b < |batches| && 0 <= c < |batches[b].calls| && batches[b].calls[c].callId == callId
  }

  /** The last call with this id, in the order of the batches and of the calls in them. */
  ghost predicate LastCallAt(batches: seq<ToolBatchView>, callId: string, b: int, c: int) {
    && CallAt(batches, callId, b, c)
    && forall b', c' :: CallAt(batches, callId, b', c') ==> b' < b || (b' == b && c' <= c)
  }

  lemma CallsBefore(batches: seq<ToolBatchView>, init: seq<ToolBatchView>, callId: string)
    requires batches != [] && init == batches[..|batches| - 1]
    ensures forall b, c :: CallAt(batches, callId, b, c) <==>
                           CallAt(init, callId, b, c) || (b == |init| && CallAt(batches, callId, |init|, c))
  {
    assert forall b :: 0 <= b < |init| ==> init[b] == batches[b];
  }

  lemma {:induction false} NoCallAt(batches: seq<ToolBatchView>, callId: string)
    requires forall b, c :: !CallAt(batches, callId, b, c)
    ensures forall k :: 0 <= k < |CallsOf(batches)| ==> CallsOf(batches)[k].call.callId != callId
  {
    if batches != [] {
      var n := |batches| - 1;
      CallsBefore(batches, batches[..n], callId);
      NoCallAt(batches[..n], callId);
      forall c | 0 <= c < |batches[n].calls| ensures batches[n].calls[c].callId != callId {
        assert !CallAt(batches, callId, n, c);
      }
    }
  }

  lemma LastInAdded(calls: seq<CallOfBatch>, added: seq<CallOfBatch>, c: nat)
    requires LastWithId(added, c)
    ensures LastWithId(calls + added, |calls| + c) && (calls + added)[|calls| + c] == added[c]
  {
  }

  lemma AddedBehind(calls: seq<CallOfBatch>, added: seq<CallOfBatch>, k: nat)
    requires LastWithId(calls, k) && forall i :: 0 <= i < |added| ==> added[i].call.callId != calls[k].call.callId
    ensures LastWithId(calls + added, k) && (calls + added)[k] == calls[k]
  {
  }

  /** Where the last call with an id stands among all of them. */
  lemma {:induction false} LastCallInAll(batches: seq<ToolBatchView>, callId: string, b: int, c: int) returns (k: nat)
    requires LastCallAt(batches, callId, b, c)
    ensures LastWithId(CallsOf(batches), k) && CallsOf(batches)[k] == CallOfBatch(batches[b].calls[c], batches[b].id)
  {
    var n := |batches| - 1;
    var init, added := batches[..n], CallsOfBatch(batches[n]);
    CallsBefore(batches, init, callId);
    forall i | 0 <= i < |added| && (b < n || i > c) ensures added[i].call.callId != callId {
      assert !CallAt(batches, callId, n, i);
    }
    assert CallsOf(batches) == CallsOf(init) + added;
    assert b == n ==> LastWithId(added, c);
    hide CallsOf, LastWithId;
    if b == n {
      k := |CallsOf(init)| + c;
      LastInAdded(CallsOf(init), added, c);
    } else {
      assert LastCallAt(init, callId, b, c) && init[b] == batches[b];
      k := LastCallInAll(init, callId, b, c);
      AddedBehind(CallsOf(init), added, k);
    }
  }

  // ---------- the entries about a call ----------

  ghost predicate CallEntryAt(entries: seq<ContextEntry>, callId: string, k: int) {
    0 <= k < |entries| && entries[k].kind.ToolCall? && entries[k].kind.callId == callId
  }

  /** The first entry that is a call with this id, or the result of one. */
  ghost predicate FirstAboutAt(entries: seq<ContextEntry>, callId: string, k: int) {
    && (CallEntryAt(entries, callId, k) || ResultViews.ResultAt(entries, callId, k))
    && forall m :: 0 <= m < k ==> !CallEntryAt(entries, callId, m) && !ResultViews.ResultAt(entries, callId, m)
  }

  ghost predicate LastCallEntryAt(entries: seq<ContextEntry>, callId: string, k: int) {
    CallEntryAt(entries, callId, k) && forall m :: k < m < |entries| ==> !CallEntryAt(entries, callId, m)
  }

  lemma {:induction false} LastCallEntry(entries: seq<ContextEntry>, callId: string)
    ensures forall k :: LastCallEntryAt(entries, callId, k) ==> LastCall(entries, callId) == Some(entries[k])
    ensures (forall k :: !CallEntryAt(entries, callId, k)) ==> LastCall(entries, callId).None?
  {
    if entries != [] {
      var n := |entries| - 1;
      var init := entries[..n];
      LastCallEntry(init, callId);
      assert forall k :: 0 <= k < n ==> init[k] == entries[k];
      assert forall k :: CallEntryAt(entries, callId, k) <==> CallEntryAt(init, callId, k) || (k == n && CallEntryAt(entries, callId, n));
      forall k | LastCallEntryAt(entries, callId, k) ensures LastCall(entries, callId) == Some(entries[k]) {
        if k < n {
          assert !CallEntryAt(entries, callId, n);
          assert forall m :: k < m < n ==> !CallEntryAt(entries, callId, m);
          assert LastCallEntryAt(init, callId, k) && init[k] == entries[k];
        }
      }
    }
  }

  lemma {:induction false} FirstNameAt(entries: seq<ContextEntry>, callId: string, k: int)
    requires FirstAboutAt(entries, callId, k)
    ensures FirstName(entries, callId) == Some(if entries[k].kind.ToolCall? then entries[k].kind.name else "unknown")
  {
    if k > 0 {
      var rest := entries[1..];
      assert !CallEntryAt(entries, callId, 0) && !ResultViews.ResultAt(entries, callId, 0);
      assert CallEntryAt(rest, callId, k - 1) || ResultViews.ResultAt(rest, callId, k - 1);
      forall m | 0 <= m < k - 1 ensures !CallEntryAt(rest, callId, m) && !ResultViews.ResultAt(rest, callId, m) {
        assert !CallEntryAt(entries, callId, m + 1) && !ResultViews.ResultAt(entries, callId, m + 1);
      }
      FirstNameAt(rest, callId, k - 1);
    }
  }

  /** A tool item holds the last call entry and the last result entry for its id, and none where there is none. */
  ghost predicate HoldsEntries(tool: ToolInfo, entries: seq<ContextEntry>, callId: string) {
    && (forall k :: LastCallEntryAt(entries, callId, k) ==> tool.callEntry == Some(entries[k]))
    && ((forall k :: !CallEntryAt(entries, callId, k)) ==> tool.callEntry.None?)
    && (forall k :: ResultViews.LastResultAt(entries, callId, k) ==> tool.resultEntry == Some(entries[k]))
    && ((forall k :: !ResultViews.ResultAt(entries, callId, k)) ==> tool.resultEntry.None?)
  }

  lemma ToolHoldsEntries(entries: seq<ContextEntry>, callId: string, views: Views)
    ensures HoldsEntries(ToolOf(entries, callId, views), entries, callId)
  {
    LastCallEntry(entries, callId);
    ResultViews.ResultsCounted(entries, callId);
  }

  // ---------- the items ----------

  /** The item at `at` is the only one for this call. */
  ghost predicate OnlyItem(items: seq<Item>, callId: string, at: int) {
    && 0 <= at < |items| && items[at].ToolItem? && items[at].tool.callId == callId
    && forall i :: 0 <= i < |items| && i != at && items[i].ToolItem? ==> items[i].tool.callId != callId
  }

  /** A call of the batches has one item, which shows the last call with its id, in its batch and under its name. */
  lemma CallOfBatchesShown(entries: seq<ContextEntry>, batches: seq<ToolBatchView>, callId: string, b: int, c: int) returns (at: nat)
    requires LastCallAt(batches, callId, b, c)
    ensures var items := Timeline(entries, ViewsOf(CallsOf(batches)));
            && OnlyItem(items, callId, at)
            && items[at].tool.call == Some(batches[b].calls[c]) && items[at].tool.batchId == Some(batches[b].id)
            && items[at].tool.name == batches[b].calls[c].toolName
            && HoldsEntries(items[at].tool, entries, callId)
  {
    hide Timeline, HoldsEntries;
    var views := ViewsOf(CallsOf(batches));
    var k := LastCallInAll(batches, callId, b, c);
    ViewsHoldLastCalls(CallsOf(batches), k);
    ViewsHoldAllCalls(CallsOf(batches), callId);
    at := OneItemPerCall(entries, views, callId);
    ToolHoldsEntries(entries, callId, views);
  }

  /** A call that entries name and the batches lack has one item, with the name its first entry gives it. */
  lemma CallOfEntriesShown(entries: seq<ContextEntry>, batches: seq<ToolBatchView>, callId: string, k: int) returns (at: nat)
    requires forall b, c :: !CallAt(batches, callId, b, c)
    requires FirstAboutAt(entries, callId, k)
    ensures var items := Timeline(entries, ViewsOf(CallsOf(batches)));
            && OnlyItem(items, callId, at)
            && items[at].tool.call.None? && items[at].tool.batchId.None?
            && items[at].tool.name == (if entries[k].kind.ToolCall? then entries[k].kind.name else "unknown")
            && HoldsEntries(items[at].tool, entries, callId)
  {
    hide Timeline, HoldsEntries;
    var views := ViewsOf(CallsOf(batches));
    NoCallAt(batches, callId);
    ViewsHoldAllCalls(CallsOf(batches), callId);
    FirstNameAt(entries, callId, k);
    assert CallNamed(entries[k]) == Some(callId);
    at := OneItemPerCall(entries, views, callId);
    ToolHoldsEntries(entries, callId, views);
  }

  /** There is no item for any other call. */
  lemma NoOtherCallShown(entries: seq<ContextEntry>, batches: seq<ToolBatchView>, at: nat)
    requires at < |Timeline(entries, ViewsOf(CallsOf(batches)))|
    requires Timeline(entries, ViewsOf(CallsOf(batches)))[at].ToolItem?
    ensures var callId := Timeline(entries, ViewsOf(CallsOf(batches)))[at].tool.callId;
            (exists b, c :: CallAt(batches, callId, b, c)) || (exists k :: FirstAboutAt(entries, callId, k))
  {
    var views := ViewsOf(CallsOf(batches));
    var slots, callId := Slots(entries, views.order), Timeline(entries, views)[at].tool.callId;
    TimelineInOrder(entries, views);
    assert Timeline(entries, views)[at] == ItemOf(entries, slots[at], views) && slots[at] in slots;
    if callId in views.order {
      ViewsHoldAllCalls(CallsOf(batches), callId);
      if forall b, c :: !CallAt(batches, callId, b, c) {
        NoCallAt(batches, callId);
        assert false;
      }
    } else {
      var k := FirstAbout(entries, callId);
      assert CallNamed(entries[k]) == Some(callId);
      assert forall m :: 0 <= m < k ==> CallNamed(entries[m]) != Some(callId);
      assert FirstAboutAt(entries, callId, k);
    }
  }

  /** An entry that is neither call nor result is shown as it is: a message with its role, reasoning, or other. */
  lemma PlainEntryShown(entries: seq<ContextEntry>, batches: seq<ToolBatchView>, k: nat) returns (at: nat)
    requires k < |entries| && !entries[k].kind.ToolCall? && !entries[k].kind.ToolResult?
    ensures at < |Timeline(entries, ViewsOf(CallsOf(batches)))|
    ensures Timeline(entries, ViewsOf(CallsOf(batches)))[at] ==
            if entries[k].kind.Message? then MessageItem(entries[k].kind.role, entries[k])
            else if entries[k].kind.ReasoningState? then ReasoningItem(entries[k]) else OtherItem(entries[k])
  {
    var views := ViewsOf(CallsOf(batches));
    var slots := Slots(entries, views.order);
    TimelineInOrder(entries, views);
    assert EntrySlot(k, entries[k]) in slots;
    at :| at < |slots| && slots[at] == EntrySlot(k, entries[k]);
    assert Timeline(entries, views)[at] == ItemOf(entries, slots[at], views);
  }
}
