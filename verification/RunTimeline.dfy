/**
 `runTimeline`: the entries of a run and its tool calls as one list. Each tool call is one object held
 in both the list and a map, and set through the map while later entries are read.
 */
module RunTimeline {
  import opened Wrappers
  import opened RunLog
  import opened Sequences
  import opened ToolBatches
  import ToolResults

  // ---------- the calls of the batches: a map that remembers the order of first insertion ----------

  datatype CallOfBatch = CallOfBatch(call: ToolCallView, batchId: string)

  datatype Views = Views(order: seq<string>, byCall: map<string, CallOfBatch>)

  /** `Map.set`: a key that is already there keeps its place. */
  function Put(views: Views, value: CallOfBatch): Views {
    var id := value.call.callId;
    Views(if id in views.byCall then views.order else views.order + [id], views.byCall[id := value])
  }

  function CallsOfBatch(batch: ToolBatchView): seq<CallOfBatch> {
    seq(|batch.calls|, i requires 0 <= i < |batch.calls| => CallOfBatch(batch.calls[i], batch.id))
  }

  function CallsOf(batches: seq<ToolBatchView>): seq<CallOfBatch> {
    if batches == [] then [] else CallsOf(batches[..|batches| - 1]) + CallsOfBatch(batches[|batches| - 1])
  }

  function ViewsOf(calls: seq<CallOfBatch>): Views {
    if calls == [] then Views([], map[]) else Put(ViewsOf(calls[..|calls| - 1]), calls[|calls| - 1])
  }

  lemma {:induction false} ViewsHoldAllCalls(calls: seq<CallOfBatch>, id: string)
    ensures id in ViewsOf(calls).byCall <==> exists k :: 0 <= k < |calls| && calls[k].call.callId == id
    ensures id in ViewsOf(calls).byCall <==> id in ViewsOf(calls).order
  {
    if calls != [] {
      var n := |calls| - 1;
      ViewsHoldAllCalls(calls[..n], id);
      if exists k :: 0 <= k < |calls| && calls[k].call.callId == id {
        var k :| 0 <= k < |calls| && calls[k].call.callId == id;
        assert k < n ==> calls[..n][k] == calls[k];
      }
    }
  }

  /** The call at `k` is the last with its id. */
  predicate LastWithId(calls: seq<CallOfBatch>, k: nat) {
    k < |calls| && forall j :: k < j < |calls| ==> calls[j].call.callId != calls[k].call.callId
  }

  lemma {:induction false} ViewsHoldLastCalls(calls: seq<CallOfBatch>, k: nat)
    requires LastWithId(calls, k)
    ensures calls[k].call.callId in ViewsOf(calls).byCall && ViewsOf(calls).byCall[calls[k].call.callId] == calls[k]
  {
    var n := |calls| - 1;
    if k < n {
      assert forall j :: k < j < n ==> calls[..n][j] == calls[j];
      ViewsHoldLastCalls(calls[..n], k);
    }
  }

  /** Where a call id first comes up among the calls, or their number. */
  function FirstCall(calls: seq<CallOfBatch>, id: string): (k: nat)
    ensures k <= |calls|
    ensures k < |calls| ==> calls[k].call.callId == id
    ensures forall j :: 0 <= j < k ==> calls[j].call.callId != id
  {
    if calls == [] || calls[0].call.callId == id then 0
    else
      var k := FirstCall(calls[1..], id);
      assert forall j :: 0 < j < k + 1 ==> calls[j] == calls[1..][j - 1];
      k + 1
  }

  lemma FirstCallIn(calls: seq<CallOfBatch>, init: seq<CallOfBatch>, id: string)
    requires calls != [] && init == calls[..|calls| - 1]
    ensures FirstCall(init, id) < |init| ==> FirstCall(calls, id) == FirstCall(init, id)
    ensures FirstCall(init, id) == |init| ==> FirstCall(calls, id) >= |init|
    ensures FirstCall(init, id) == |init| && calls[|init|].call.callId == id ==> FirstCall(calls, id) == |init|
  {
    assert forall j :: 0 <= j < |init| ==> init[j] == calls[j];
    var k, m := FirstCall(init, id), FirstCall(calls, id);
    assert m < |init| ==> init[m].call.callId == id;
    assert k < |init| ==> calls[k].call.callId == id;
  }

  /** The keys stand in the order in which they first come up, so none stands twice. */
  lemma {:induction false} ViewsInFirstOrder(calls: seq<CallOfBatch>, i: nat, j: nat)
    requires i < j < |ViewsOf(calls).order|
    ensures FirstCall(calls, ViewsOf(calls).order[i]) < FirstCall(calls, ViewsOf(calls).order[j]) < |calls|
  {
    var n := |calls| - 1;
    var init, last := calls[..n], calls[n].call.callId;
    var before := ViewsOf(init);
    FirstCallIn(calls, init, ViewsOf(calls).order[i]);
    FirstCallIn(calls, init, ViewsOf(calls).order[j]);
    ViewsHoldAllCalls(init, last);
    assert before.order[i] in before.order;
    ViewsHoldAllCalls(init, before.order[i]);
    if j < |before.order| {
      ViewsInFirstOrder(init, i, j);
    } else {
      FirstCallIsFirst(init, before.order[i]);
      FirstCallIsFirst(init, last);
    }
  }

  lemma FirstCallIsFirst(calls: seq<CallOfBatch>, id: string)
    ensures id in ViewsOf(calls).byCall <==> FirstCall(calls, id) < |calls|
  {
    ViewsHoldAllCalls(calls, id);
  }

  /** The inner loop, over the calls of one batch. */
  method PutBatch(batch: ToolBatchView, start: Views, ghost before: seq<CallOfBatch>) returns (views: Views)
    requires start == ViewsOf(before)
    ensures views == ViewsOf(before + CallsOfBatch(batch))
  {
    ghost var added := CallsOfBatch(batch);
    views := start;
    assert before + added[..0] == before;
    for c := 0 to |batch.calls|
      invariant views == ViewsOf(before + added[..c])
    {
      assert (before + added[..c + 1])[..|before| + c] == before + added[..c];
      views := Put(views, CallOfBatch(batch.calls[c], batch.id));
    }
    assert added[..|batch.calls|] == added;
  }

  method CollectViews(batches: seq<ToolBatchView>) returns (views: Views)
    ensures views == ViewsOf(CallsOf(batches))
  {
    views := Views([], map[]);
    for b := 0 to |batches|
      invariant views == ViewsOf(CallsOf(batches[..b]))
    {
      assert batches[..b + 1][..b] == batches[..b];
      views := PutBatch(batches[b], views, CallsOf(batches[..b]));
    }
    assert batches[..|batches|] == batches;
  }

  // ---------- what the list is ----------

  /** A tool item, as a value. */
  datatype ToolInfo = ToolInfo(
    callId: string, name: string, batchId: Option<string>, call: Option<ToolCallView>,
    callEntry: Option<ContextEntry>, resultEntry: Option<ContextEntry>)

  datatype Item =
    | MessageItem(role: Role, entry: ContextEntry)
    | ReasoningItem(entry: ContextEntry)
    | ToolItem(tool: ToolInfo)
    | OtherItem(entry: ContextEntry)

  /** The call an entry is about, when it is a call or a result. */
  function CallNamed(e: ContextEntry): Option<string> {
    match e.kind
    case ToolCall(callId, _) => Some(callId)
    case ToolResult(callId, _) => Some(callId)
    case _ => None
  }

  function PlainItem(e: ContextEntry): Item {
    match e.kind
    case Message(role) => MessageItem(role, e)
    case ReasoningState => ReasoningItem(e)
    case _ => OtherItem(e)
  }

  /** A place in the list: an entry by its index, or a call by its id. */
  datatype Slot = EntrySlot(index: nat, entry: ContextEntry) | ToolSlot(callId: string)

  function SlotOf(entries: seq<ContextEntry>, k: nat): Slot
    requires k < |entries|
  {
    match CallNamed(entries[k])
    case Some(callId) => ToolSlot(callId)
    case None => EntrySlot(k, entries[k])
  }

  function Include(slots: seq<Slot>, slot: Slot): seq<Slot> {
    if slot in slots then slots else slots + [slot]
  }

  function EntrySlots(entries: seq<ContextEntry>): seq<Slot> {
    if entries == [] then []
    else Include(EntrySlots(entries[..|entries| - 1]), SlotOf(entries, |entries| - 1))
  }

  /** The places for the entries, then those for the calls of the batches that no entry is about. */
  function Slots(entries: seq<ContextEntry>, order: seq<string>): seq<Slot> {
    if order == [] then EntrySlots(entries)
    else Include(Slots(entries, order[..|order| - 1]), ToolSlot(order[|order| - 1]))
  }

  function LastCall(entries: seq<ContextEntry>, callId: string): Option<ContextEntry> {
    if entries == [] then None
    else
      var e := entries[|entries| - 1];
      if e.kind.ToolCall? && e.kind.callId == callId then Some(e) else LastCall(entries[..|entries| - 1], callId)
  }

  function NameGiven(e: ContextEntry): string {
    if e.kind.ToolCall? then e.kind.name else "unknown"
  }

  /** The name given by the first entry about a call. */
  function FirstName(entries: seq<ContextEntry>, callId: string): Option<string> {
    if entries == [] then None
    else if CallNamed(entries[0]) == Some(callId) then Some(NameGiven(entries[0]))
    else FirstName(entries[1..], callId)
  }

  /** What a new tool item knows of its call: from the batches if they have it, else only a name. */
  function NewTool(callId: string, name: string, views: Views): ToolInfo {
    if callId in views.byCall then
      var view := views.byCall[callId];
      ToolInfo(callId, view.call.toolName, Some(view.batchId), Some(view.call), None, None)
    else ToolInfo(callId, name, None, None, None, None)
  }

  function ToolOf(entries: seq<ContextEntry>, callId: string, views: Views): ToolInfo {
    var first := FirstName(entries, callId);
    NewTool(callId, if first.Some? then first.value else "unknown", views)
      .(callEntry := LastCall(entries, callId), resultEntry := ToolResults.LastResult(entries, callId))
  }

  function ItemOf(entries: seq<ContextEntry>, slot: Slot, views: Views): Item {
    match slot
    case EntrySlot(_, entry) => PlainItem(entry)
    case ToolSlot(callId) => ToolItem(ToolOf(entries, callId, views))
  }

  function Shown(entries: seq<ContextEntry>, slots: seq<Slot>, views: Views): (items: seq<Item>)
    ensures |items| == |slots|
  {
    seq(|slots|, i requires 0 <= i < |slots| => ItemOf(entries, slots[i], views))
  }

  function Timeline(entries: seq<ContextEntry>, views: Views): (items: seq<Item>)
    ensures |items| == |Slots(entries, views.order)|
  {
    Shown(entries, Slots(entries, views.order), views)
  }

  // ---------- its order ----------

  /** Where a call first comes up: the index of its first entry, or the number of entries. */
  function FirstAbout(entries: seq<ContextEntry>, callId: string): (k: nat)
    ensures k <= |entries|
    ensures k < |entries| ==> CallNamed(entries[k]) == Some(callId)
    ensures forall j :: 0 <= j < k ==> CallNamed(entries[j]) != Some(callId)
  {
    if entries == [] || CallNamed(entries[0]) == Some(callId) then 0
    else
      var k := FirstAbout(entries[1..], callId);
      assert forall j :: 0 < j < k + 1 ==> entries[j] == entries[1..][j - 1];
      k + 1
  }

  /** When a slot first comes up: entries in their order, then the calls of the batches in theirs. */
  function Origin(entries: seq<ContextEntry>, order: seq<string>, slot: Slot): nat {
    match slot
    case EntrySlot(index, _) => index
    case ToolSlot(callId) =>
      if FirstAbout(entries, callId) < |entries| then FirstAbout(entries, callId) else |entries| + IndexIn(order, callId)
  }

  lemma EntrySlotsLast(entries: seq<ContextEntry>, n: nat)
    requires 0 < n <= |entries|
    ensures EntrySlots(entries[..n]) == Include(EntrySlots(entries[..n - 1]), SlotOf(entries, n - 1))
  {
    assert entries[..n][..n - 1] == entries[..n - 1];
  }

  /** The slots of the first entries are those of each of them. */
  lemma {:induction false} EntrySlotsAreOfEntries(entries: seq<ContextEntry>, n: nat)
    requires n <= |entries|
    ensures forall s :: s in EntrySlots(entries[..n]) <==> exists k :: 0 <= k < n && s == SlotOf(entries, k)
  {
    if n > 0 {
      EntrySlotsAreOfEntries(entries, n - 1);
      EntrySlotsLast(entries, n);
    }
  }

  lemma NewSlotOrigin(entries: seq<ContextEntry>, order: seq<string>, n: nat)
    requires 0 < n <= |entries| && SlotOf(entries, n - 1) !in EntrySlots(entries[..n - 1])
    ensures Origin(entries, order, SlotOf(entries, n - 1)) == n - 1
  {
    EntrySlotsAreOfEntries(entries, n - 1);
    var slot := SlotOf(entries, n - 1);
    if slot.ToolSlot? {
      SlotAtFirst(entries, slot.callId);
    }
  }

  lemma SlotAtFirst(entries: seq<ContextEntry>, callId: string)
    ensures FirstAbout(entries, callId) < |entries| ==> SlotOf(entries, FirstAbout(entries, callId)) == ToolSlot(callId)
  {
  }

  /** And they stand in the order they come up. */
  lemma {:induction false} EntrySlotsInOrder(entries: seq<ContextEntry>, order: seq<string>, n: nat)
    requires n <= |entries|
    ensures forall i :: 0 <= i < |EntrySlots(entries[..n])| ==> Origin(entries, order, EntrySlots(entries[..n])[i]) < n
    ensures forall i, j :: 0 <= i < j < |EntrySlots(entries[..n])| ==>
              Origin(entries, order, EntrySlots(entries[..n])[i]) < Origin(entries, order, EntrySlots(entries[..n])[j])
  {
    if n > 0 {
      EntrySlotsInOrder(entries, order, n - 1);
      EntrySlotsLast(entries, n);
      if SlotOf(entries, n - 1) !in EntrySlots(entries[..n - 1]) {
        NewSlotOrigin(entries, order, n);
      }
    }
  }

  lemma {:induction false} SlotsInOrder(entries: seq<ContextEntry>, order: seq<string>, n: nat)
    requires n <= |order|
    ensures forall s :: s in Slots(entries, order[..n]) <==>
              (exists k :: 0 <= k < |entries| && s == SlotOf(entries, k)) || (exists k :: 0 <= k < n && s == ToolSlot(order[k]))
    ensures forall i :: 0 <= i < |Slots(entries, order[..n])| ==> Origin(entries, order, Slots(entries, order[..n])[i]) < |entries| + n
    ensures forall i, j :: 0 <= i < j < |Slots(entries, order[..n])| ==>
              Origin(entries, order, Slots(entries, order[..n])[i]) < Origin(entries, order, Slots(entries, order[..n])[j])
  {
    if n == 0 {
      EntrySlotsAreOfEntries(entries, |entries|);
      EntrySlotsInOrder(entries, order, |entries|);
      assert entries[..|entries|] == entries;
    } else {
      SlotsInOrder(entries, order, n - 1);
      assert order[..n][..n - 1] == order[..n - 1];
      var before, slot := Slots(entries, order[..n - 1]), ToolSlot(order[n - 1]);
      assert Slots(entries, order[..n]) == Include(before, slot);
      var k, p := FirstAbout(entries, slot.callId), IndexIn(order, slot.callId);
      SlotAtFirst(entries, slot.callId);
      hide Slots, EntrySlots, SlotOf;
      assert p < |order| ==> slot == ToolSlot(order[p]);
      assert slot !in before ==> Origin(entries, order, slot) == |entries| + n - 1;
    }
  }

  /**
   The list is an order-preserving merge: an entry about no call has a place, a call that entries or
   batches name has one, and there are no others. They stand in the order they first come up, so none
   stands twice, and the calls that no entry is about come last in the order of the batches.
   */
  lemma TimelineInOrder(entries: seq<ContextEntry>, views: Views)
    ensures var slots := Slots(entries, views.order);
            && (forall s :: s in slots <==>
                  || (s.EntrySlot? && s.index < |entries| && entries[s.index] == s.entry && CallNamed(s.entry).None?)
                  || (s.ToolSlot? && (s.callId in views.order || FirstAbout(entries, s.callId) < |entries|)))
            && (forall i, j :: 0 <= i < j < |slots| ==> Origin(entries, views.order, slots[i]) < Origin(entries, views.order, slots[j]))
  {
    var slots, order := Slots(entries, views.order), views.order;
    SlotsInOrder(entries, order, |order|);
    assert order[..|order|] == order;
    forall s: Slot
      ensures (exists k :: 0 <= k < |entries| && s == SlotOf(entries, k)) <==>
              || (s.EntrySlot? && s.index < |entries| && entries[s.index] == s.entry && CallNamed(s.entry).None?)
              || (s.ToolSlot? && FirstAbout(entries, s.callId) < |entries|)
    {
      SlotOfSomeEntry(entries, s);
    }
  }

  lemma SlotOfSomeEntry(entries: seq<ContextEntry>, s: Slot)
    ensures (exists k :: 0 <= k < |entries| && s == SlotOf(entries, k)) <==>
            || (s.EntrySlot? && s.index < |entries| && entries[s.index] == s.entry && CallNamed(s.entry).None?)
            || (s.ToolSlot? && FirstAbout(entries, s.callId) < |entries|)
  {
    if s.ToolSlot? {
      var k := FirstAbout(entries, s.callId);
      assert k < |entries| ==> s == SlotOf(entries, k);
    } else {
      assert s.index < |entries| && entries[s.index] == s.entry && CallNamed(s.entry).None? ==> s == SlotOf(entries, s.index);
    }
  }

  /** The entries of the items that are not tools. */
  function PlainEntries(items: seq<Item>): seq<ContextEntry> {
    if items == [] then []
    else
      var n := |items| - 1;
      PlainEntries(items[..n]) + (if items[n].ToolItem? then [] else [items[n].entry])
  }

  function EntriesAboutNoCall(entries: seq<ContextEntry>): seq<ContextEntry> {
    if entries == [] then []
    else
      var n := |entries| - 1;
      EntriesAboutNoCall(entries[..n]) + (if CallNamed(entries[n]).None? then [entries[n]] else [])
  }

  lemma ShownOneMore(all: seq<ContextEntry>, slots: seq<Slot>, slot: Slot, views: Views)
    ensures PlainEntries(Shown(all, slots + [slot], views))
         == PlainEntries(Shown(all, slots, views)) + (if slot.ToolSlot? then [] else [slot.entry])
  {
    var items := Shown(all, slots + [slot], views);
    assert items[..|slots|] == Shown(all, slots, views);
  }

  lemma {:induction false} EntrySlotsConserve(all: seq<ContextEntry>, entries: seq<ContextEntry>, views: Views)
    ensures PlainEntries(Shown(all, EntrySlots(entries), views)) == EntriesAboutNoCall(entries)
  {
    if entries != [] {
      var n := |entries| - 1;
      EntrySlotsConserve(all, entries[..n], views);
      var before, slot := EntrySlots(entries[..n]), SlotOf(entries, n);
      if slot !in before {
        ShownOneMore(all, before, slot, views);
      } else {
        EntrySlotsAreOfEntries(entries, n);
        assert slot.ToolSlot?;
      }
    }
  }

  lemma {:induction false} SlotsConserve(entries: seq<ContextEntry>, order: seq<string>, views: Views)
    ensures PlainEntries(Shown(entries, Slots(entries, order), views)) == EntriesAboutNoCall(entries)
  {
    if order == [] {
      EntrySlotsConserve(entries, entries, views);
    } else {
      var n := |order| - 1;
      SlotsConserve(entries, order[..n], views);
      if ToolSlot(order[n]) !in Slots(entries, order[..n]) {
        ShownOneMore(entries, Slots(entries, order[..n]), ToolSlot(order[n]), views);
      }
    }
  }

  /** The items that are not tools are exactly the entries about no call, once each and in their order. */
  lemma PlainEntriesOnceInOrder(entries: seq<ContextEntry>, views: Views)
    ensures PlainEntries(Timeline(entries, views)) == EntriesAboutNoCall(entries)
  {
    SlotsConserve(entries, views.order, views);
    assert Timeline(entries, views) == Shown(entries, Slots(entries, views.order), views);
  }

  /** Each call that entries or batches name is exactly one item, and that holds its last call and last result. */
  lemma OneItemPerCall(entries: seq<ContextEntry>, views: Views, callId: string)
    returns (at: nat)
    requires callId in views.order || FirstAbout(entries, callId) < |entries|
    ensures at < |Timeline(entries, views)|
    ensures Timeline(entries, views)[at] == ToolItem(ToolOf(entries, callId, views))
    ensures forall i :: 0 <= i < |Timeline(entries, views)| && i != at ==>
              var item := Timeline(entries, views)[i];
              item.ToolItem? ==> item.tool.callId != callId
  {
    at := SlotOfCall(entries, views, callId);
    assert Timeline(entries, views)[at] == ItemOf(entries, Slots(entries, views.order)[at], views);
  }

  lemma SlotOfCall(entries: seq<ContextEntry>, views: Views, callId: string) returns (at: nat)
    requires callId in views.order || FirstAbout(entries, callId) < |entries|
    ensures at < |Slots(entries, views.order)| && Slots(entries, views.order)[at] == ToolSlot(callId)
    ensures forall i :: 0 <= i < |Slots(entries, views.order)| && i != at ==> Slots(entries, views.order)[i] != ToolSlot(callId)
  {
    TimelineInOrder(entries, views);
    var slots, order := Slots(entries, views.order), views.order;
    assert ToolSlot(callId) in slots;
    at :| 0 <= at < |slots| && slots[at] == ToolSlot(callId);
    forall i | 0 <= i < |slots| && i != at ensures slots[i] != slots[at] {
      var early, late := if i < at then i else at, if i < at then at else i;
      assert Origin(entries, order, slots[early]) < Origin(entries, order, slots[late]);
    }
  }

  /** The last entry of its kind about a call is the one its item holds. */
  lemma {:induction false} ItemHoldsLast(entries: seq<ContextEntry>, k: nat, callId: string, views: Views)
    requires k < |entries| && CallNamed(entries[k]) == Some(callId)
    requires forall j :: k < j < |entries| && CallNamed(entries[j]) == Some(callId) ==>
               entries[j].kind.ToolCall? != entries[k].kind.ToolCall?
    ensures var tool := ToolOf(entries, callId, views);
            (if entries[k].kind.ToolCall? then tool.callEntry else tool.resultEntry) == Some(entries[k])
  {
    var n := |entries| - 1;
    if k < n {
      assert forall j :: k < j < n ==> entries[..n][j] == entries[j];
      ItemHoldsLast(entries[..n], k, callId, views);
    }
  }

  // ---------- how it is built ----------

  lemma {:induction false} FirstNameStep(entries: seq<ContextEntry>, e: ContextEntry, callId: string)
    ensures FirstName(entries + [e], callId)
         == if FirstName(entries, callId).Some? then FirstName(entries, callId)
            else if CallNamed(e) == Some(callId) then Some(NameGiven(e)) else None
  {
    if entries == [] {
      assert FirstName([e][1..], callId) == None;
    } else {
      assert (entries + [e])[1..] == entries[1..] + [e];
      FirstNameStep(entries[1..], e, callId);
    }
  }

  /** A call has a slot once an entry is about it, and nothing before that. */
  lemma {:induction false} SlotOnceNamed(entries: seq<ContextEntry>, callId: string)
    ensures ToolSlot(callId) in EntrySlots(entries) <==> FirstName(entries, callId).Some?
    ensures FirstName(entries, callId).None? ==> LastCall(entries, callId).None? && ToolResults.LastResult(entries, callId).None?
  {
    if entries != [] {
      var n := |entries| - 1;
      SlotOnceNamed(entries[..n], callId);
      assert entries == entries[..n] + [entries[n]];
      FirstNameStep(entries[..n], entries[n], callId);
    }
  }

  /** The tool item an entry about a call is put in: the one there is, or a new one. */
  function ToolFound(entries: seq<ContextEntry>, e: ContextEntry, callId: string, views: Views): ToolInfo {
    if ToolSlot(callId) in EntrySlots(entries) then ToolOf(entries, callId, views) else NewTool(callId, NameGiven(e), views)
  }

  /** What one more entry changes in the tool item of a call. */
  lemma ToolOfStep(entries: seq<ContextEntry>, e: ContextEntry, callId: string, views: Views)
    ensures ToolOf(entries + [e], callId, views)
         == if CallNamed(e) != Some(callId) then ToolOf(entries, callId, views)
            else if e.kind.ToolCall? then ToolFound(entries, e, callId, views).(callEntry := Some(e))
            else ToolFound(entries, e, callId, views).(resultEntry := Some(e))
  {
    assert (entries + [e])[..|entries|] == entries;
    FirstNameStep(entries, e, callId);
    SlotOnceNamed(entries, callId);
  }

  /** The object of one tool item. */
  class RunTimelineTool {
    const callId: string
    const name: string
    const batchId: Option<string>
    const call: Option<ToolCallView>
    var callEntry: Option<ContextEntry>
    var resultEntry: Option<ContextEntry>

    constructor (info: ToolInfo)
      ensures Value() == info
    {
      callId, name, batchId, call := info.callId, info.name, info.batchId, info.call;
      callEntry, resultEntry := info.callEntry, info.resultEntry;
    }

    function Value(): (info: ToolInfo)
      reads this
      ensures info.callId == callId
    {
      ToolInfo(callId, name, batchId, call, callEntry, resultEntry)
    }
  }

  /** An element of the list: an entry shown as it is, or a reference to a tool object. */
  datatype TimelineItem = PlainRef(entry: ContextEntry) | ToolRef(tool: RunTimelineTool)

  /** The local state of `runTimeline`, which its inner `toolFor` closes over. */
  class TimelineBuilder {
    const views: Views
    var items: seq<TimelineItem>
    var tools: map<string, RunTimelineTool>

    constructor (views: Views)
      ensures this.views == views && items == [] && tools == map[]
    {
      this.views, items, tools := views, [], map[];
    }

    /** The list has an item for each slot, and map and list hold the same object for each call. */
    ghost predicate Linked(slots: seq<Slot>)
      reads this
    {
      && |items| == |slots|
      && (forall i :: 0 <= i < |slots| ==>
            if slots[i].EntrySlot? then items[i] == PlainRef(slots[i].entry)
            else slots[i].callId in tools && items[i] == ToolRef(tools[slots[i].callId]))
      && (forall callId :: callId in tools ==> tools[callId].callId == callId && ToolSlot(callId) in slots)
    }

    /** Each tool object holds what the entries so far say of its call. */
    ghost predicate UpToDate(entries: seq<ContextEntry>)
      reads this, tools.Values
    {
      forall callId :: callId in tools ==> tools[callId].Value() == ToolOf(entries, callId, views)
    }

    method ToolFor(callId: string, name: string, ghost slots: seq<Slot>) returns (tool: RunTimelineTool)
      requires Linked(slots)
      modifies this
      ensures Linked(Include(slots, ToolSlot(callId)))
      ensures callId in tools && tools[callId] == tool
      ensures if callId in old(tools) then tools == old(tools)
              else fresh(tool) && tools == old(tools)[callId := tool] && tool.Value() == NewTool(callId, name, views)
    {
      if callId in tools {
        return tools[callId];
      }
      tool := new RunTimelineTool(NewTool(callId, name, views));
      tools := tools[callId := tool];
      items := items + [ToolRef(tool)];
    }

    /** `toolFor` for an entry: the object it returns, and that nothing else is new. */
    method ToolForEntry(callId: string, entry: ContextEntry, ghost before: seq<ContextEntry>) returns (tool: RunTimelineTool)
      requires Linked(EntrySlots(before)) && UpToDate(before) && CallNamed(entry) == Some(callId)
      modifies this
      ensures Linked(EntrySlots(before + [entry])) && fresh(tools.Values - old(tools.Values))
      ensures callId in tools && tools[callId] == tool && tool.Value() == ToolFound(before, entry, callId, views)
      ensures forall id :: id in tools && id != callId ==> tools[id] != tool && tools[id].Value() == ToolOf(before, id, views)
    {
      assert (before + [entry])[..|before|] == before;
      tool := ToolFor(callId, NameGiven(entry), EntrySlots(before));
    }

    /** The object for an entry's call found or made, and its entry set through the reference. */
    method SetEntry(callId: string, entry: ContextEntry, ghost before: seq<ContextEntry>)
      requires Linked(EntrySlots(before)) && UpToDate(before) && CallNamed(entry) == Some(callId)
      modifies this, tools.Values
      ensures Linked(EntrySlots(before + [entry])) && UpToDate(before + [entry])
      ensures fresh(tools.Values - old(tools.Values))
    {
      var tool := ToolForEntry(callId, entry, before);
      if entry.kind.ToolCall? {
        tool.callEntry := Some(entry);
      } else {
        tool.resultEntry := Some(entry);
      }
      EntryUpdates(callId, entry, before);
    }

    /** Once the object of the call an entry is about has the entry, all objects are up to date. */
    lemma EntryUpdates(callId: string, entry: ContextEntry, before: seq<ContextEntry>)
      requires CallNamed(entry) == Some(callId)
      requires forall id :: id in tools && id != callId ==> tools[id].Value() == ToolOf(before, id, views)
      requires callId in tools ==>
                 var found := ToolFound(before, entry, callId, views);
                 tools[callId].Value() == if entry.kind.ToolCall? then found.(callEntry := Some(entry)) else found.(resultEntry := Some(entry))
      ensures UpToDate(before + [entry])
    {
      forall id | id in tools ensures tools[id].Value() == ToolOf(before + [entry], id, views) {
        ToolOfStep(before, entry, id, views);
      }
    }

    method PushEntry(entry: ContextEntry, ghost before: seq<ContextEntry>)
      requires Linked(EntrySlots(before)) && UpToDate(before) && CallNamed(entry).None?
      modifies this
      ensures Linked(EntrySlots(before + [entry])) && UpToDate(before + [entry])
      ensures tools == old(tools)
    {
      ghost var slot := EntrySlot(|before|, entry);
      assert (before + [entry])[..|before|] == before;
      EntrySlotsAreOfEntries(before, |before|);
      assert before[..|before|] == before;
      assert EntrySlots(before + [entry]) == EntrySlots(before) + [slot];
      items := items + [PlainRef(entry)];
      forall id | id in tools ensures tools[id].Value() == ToolOf(before + [entry], id, views) {
        ToolOfStep(before, entry, id, views);
      }
    }

    /** One turn of the loop over the entries. */
    method ReadEntry(entry: ContextEntry, ghost before: seq<ContextEntry>)
      requires Linked(EntrySlots(before)) && UpToDate(before)
      modifies this, tools.Values
      ensures Linked(EntrySlots(before + [entry])) && UpToDate(before + [entry])
      ensures fresh(tools.Values - old(tools.Values))
    {
      match entry.kind
      case ToolCall(callId, _) => SetEntry(callId, entry, before);
      case ToolResult(callId, _) => SetEntry(callId, entry, before);
      case _ => PushEntry(entry, before);
    }

    /** One turn of the loop over the calls of the batches. */
    method ReadView(k: nat, ghost entries: seq<ContextEntry>)
      requires k < |views.order| && views.order[k] in views.byCall
      requires Linked(Slots(entries, views.order[..k])) && UpToDate(entries)
      modifies this
      ensures Linked(Slots(entries, views.order[..k + 1])) && UpToDate(entries)
      ensures fresh(tools.Values - old(tools.Values))
    {
      var callId := views.order[k];
      ghost var order := views.order[..k];
      assert views.order[..k + 1] == order + [callId] && (order + [callId])[..k] == order;
      ghost var slots := Slots(entries, order);
      if callId !in tools {
        assert ToolSlot(callId) !in slots;
        EntrySlotsKept(entries, order);
        SlotOnceNamed(entries, callId);
        assert NewTool(callId, views.byCall[callId].call.toolName, views) == ToolOf(entries, callId, views);
      }
      var tool := ToolFor(callId, views.byCall[callId].call.toolName, slots);
    }

    method ReadEntries(entries: seq<ContextEntry>)
      requires items == [] && tools == map[]
      modifies this
      ensures Linked(EntrySlots(entries)) && UpToDate(entries) && fresh(tools.Values)
    {
      for k := 0 to |entries|
        invariant fresh(tools.Values) && Linked(EntrySlots(entries[..k])) && UpToDate(entries[..k])
      {
        ToolResults.Snoc(entries, k);
        ReadEntry(entries[k], entries[..k]);
      }
      assert entries[..|entries|] == entries;
    }

    method ReadViews(ghost entries: seq<ContextEntry>)
      requires Linked(EntrySlots(entries)) && UpToDate(entries)
      requires forall callId :: callId in views.order ==> callId in views.byCall
      modifies this
      ensures Linked(Slots(entries, views.order)) && UpToDate(entries)
      ensures fresh(tools.Values - old(tools.Values))
    {
      assert Slots(entries, views.order[..0]) == EntrySlots(entries);
      hide Slots, EntrySlots, ToolOf, Linked, UpToDate;
      for k := 0 to |views.order|
        invariant Linked(Slots(entries, views.order[..k])) && UpToDate(entries)
        invariant fresh(tools.Values - old(tools.Values))
      {
        ReadView(k, entries);
      }
      assert views.order[..|views.order|] == views.order;
    }

    /** The list shows these items. */
    ghost predicate Shows(expected: seq<Item>)
      reads this, set item | item in items && item.ToolRef? :: item.tool
    {
      |items| == |expected| && forall i :: 0 <= i < |items| ==> ValueOf(items[i]) == expected[i]
    }

    /** The tool items are exactly the objects of the map, each under the id of its call. */
    ghost predicate Shares()
      reads this
    {
      && (forall i :: 0 <= i < |items| && items[i].ToolRef? ==>
            var callId := items[i].tool.callId;
            callId in tools && tools[callId] == items[i].tool)
      && (forall callId :: callId in tools ==> ToolRef(tools[callId]) in items)
    }

    lemma LinkedShows(entries: seq<ContextEntry>)
      requires Linked(Slots(entries, views.order)) && UpToDate(entries)
      ensures Shows(Timeline(entries, views)) && Shares()
    {
      var slots := Slots(entries, views.order);
      forall i | 0 <= i < |items| ensures ValueOf(items[i]) == Timeline(entries, views)[i] {
        assert Timeline(entries, views)[i] == ItemOf(entries, slots[i], views);
      }
      forall callId | callId in tools ensures ToolRef(tools[callId]) in items {
        var i :| 0 <= i < |slots| && slots[i] == ToolSlot(callId);
        assert items[i] == ToolRef(tools[callId]);
      }
    }
  }

  lemma {:induction false} EntrySlotsKept(entries: seq<ContextEntry>, order: seq<string>)
    ensures forall s :: s in EntrySlots(entries) ==> s in Slots(entries, order)
  {
    if order != [] {
      EntrySlotsKept(entries, order[..|order| - 1]);
    }
  }

  ghost function ValueOf(item: TimelineItem): Item
    reads if item.ToolRef? then {item.tool} else {}
  {
    if item.ToolRef? then ToolItem(item.tool.Value()) else PlainItem(item.entry)
  }

  /** The list it builds is the timeline, and list and map share their objects. */
  method RunTimeline(entries: seq<ContextEntry>, batches: seq<ToolBatchView>) returns (timeline: TimelineBuilder)
    ensures fresh(timeline) && fresh(timeline.tools.Values)
    ensures timeline.Shows(Timeline(entries, ViewsOf(CallsOf(batches))))
    ensures timeline.Shares()
  {
    var views := CollectViews(batches);
    timeline := new TimelineBuilder(views);
    timeline.ReadEntries(entries);
    forall callId ensures callId in views.order ==> callId in views.byCall {
      ViewsHoldAllCalls(CallsOf(batches), callId);
    }
    timeline.ReadViews(entries);
    timeline.LinkedShows(entries);
  }
}
