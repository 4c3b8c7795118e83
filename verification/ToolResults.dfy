/**
 The context entries of a run, and the tool results among them with the media each tool
 appended after its result.
 */
module ToolResults {
  import opened Wrappers
  import opened ApiIds
  import opened RunLog
  import opened ToolStatus
  import opened Utf8

  const MAX_INLINE_TEXT_BYTES := 4096

  type Blobs = string -> Text

  datatype MediaView = MediaView(entryId: U64, blobRef: string)

  datatype ProjectedToolResult = ProjectedToolResult(
    output: Text, outputRef: string, outputPreviewTruncated: bool,
    isError: bool, status: ToolItemStatus, media: seq<MediaView>)

  // ---------- context entries of a run ----------

  function Applied(log: Log): seq<ContextEntry> {
    if log == [] then []
    else (if log[0].event.EntriesApplied? then log[0].event.entries else []) + Applied(log[1..])
  }

  /** Each entry the first time its id comes up; `seen` holds the ids that already did. */
  function FirstById(entries: seq<ContextEntry>, seen: set<U64>): (r: seq<ContextEntry>)
  {
    if entries == [] then []
    else if entries[0].entryId in seen then FirstById(entries[1..], seen)
    else [entries[0]] + FirstById(entries[1..], seen + {entries[0].entryId})
  }

  function ContextEntriesForRun(log: Log, run: RunId): seq<ContextEntry> {
    FirstById(OfRun(Applied(log), run), {})
  }

  /** `FirstById` keeps one entry for each id not seen before, and each is the earliest with its id. */
  lemma {:induction false} FirstByIdKeepsFirsts(entries: seq<ContextEntry>, seen: set<U64>)
    ensures var r := FirstById(entries, seen);
            && (forall i, j :: 0 <= i < j < |r| ==> r[i].entryId != r[j].entryId)
            && (forall e :: e in r <==>
                  exists k :: 0 <= k < |entries| && entries[k] == e && e.entryId !in seen
                              && forall m :: 0 <= m < k ==> entries[m].entryId != e.entryId)
  {
    if entries != [] {
      var rest := entries[1..];
      var head := entries[0];
      var seen' := if head.entryId in seen then seen else seen + {head.entryId};
      FirstByIdKeepsFirsts(rest, seen');
      var r, r' := FirstById(entries, seen), FirstById(rest, seen');
      forall e | e in r
        ensures exists k :: 0 <= k < |entries| && entries[k] == e && e.entryId !in seen
                            && forall m :: 0 <= m < k ==> entries[m].entryId != e.entryId
      {
        if e in r' {
          var k :| 0 <= k < |rest| && rest[k] == e && e.entryId !in seen'
                   && forall m :: 0 <= m < k ==> rest[m].entryId != e.entryId;
          assert entries[k + 1] == e && e.entryId !in seen;
          forall m | 0 <= m < k + 1 ensures entries[m].entryId != e.entryId {
            if m > 0 { assert entries[m] == rest[m - 1]; }
          }
        } else {
          assert entries[0] == e;
        }
      }
      forall k | 0 <= k < |entries| && entries[k].entryId !in seen
                 && forall m :: 0 <= m < k ==> entries[m].entryId != entries[k].entryId
        ensures entries[k] in r
      {
        if k > 0 {
          assert entries[0].entryId != entries[k].entryId;
          assert rest[k - 1] == entries[k];
          forall m | 0 <= m < k - 1 ensures rest[m].entryId != rest[k - 1].entryId {
            assert rest[m] == entries[m + 1];
          }
          assert entries[k] in r';
        }
      }
    }
  }

  /** Where an id first comes up, or the number of entries. */
  function FirstWithEntryId(entries: seq<ContextEntry>, id: U64): (k: nat)
    ensures k <= |entries|
  {
    if entries == [] || entries[0].entryId == id then 0 else 1 + FirstWithEntryId(entries[1..], id)
  }

  /** And the entries it keeps stand in the order in which they first came up. */
  lemma {:induction false} FirstByIdKeepsOrder(entries: seq<ContextEntry>, seen: set<U64>, i: nat, j: nat)
    requires i < j < |FirstById(entries, seen)|
    ensures var r := FirstById(entries, seen);
            FirstWithEntryId(entries, r[i].entryId) < FirstWithEntryId(entries, r[j].entryId) < |entries|
  {
    var head := entries[0].entryId;
    if head in seen {
      FirstByIdKeepsOrder(entries[1..], seen, i, j);
      FirstByIdFresh(entries[1..], seen, i);
      FirstByIdFresh(entries[1..], seen, j);
    } else {
      FirstByIdFresh(entries[1..], seen + {head}, j - 1);
      if i > 0 {
        FirstByIdKeepsOrder(entries[1..], seen + {head}, i - 1, j - 1);
        FirstByIdFresh(entries[1..], seen + {head}, i - 1);
      }
    }
  }

  lemma {:induction false} FirstByIdFresh(entries: seq<ContextEntry>, seen: set<U64>, i: nat)
    requires i < |FirstById(entries, seen)|
    ensures FirstById(entries, seen)[i].entryId !in seen
    ensures FirstWithEntryId(entries, FirstById(entries, seen)[i].entryId) < |entries|
  {
    var head := entries[0].entryId;
    if head in seen {
      FirstByIdFresh(entries[1..], seen, i);
    } else if i > 0 {
      FirstByIdFresh(entries[1..], seen + {head}, i - 1);
    }
  }

  lemma {:induction false} AppliedAppend(a: Log, b: Log)
    ensures Applied(a + b) == Applied(a) + Applied(b)
  {
    if a == [] {
      assert a + b == b;
    } else {
      assert (a + b)[1..] == a[1..] + b;
      AppliedAppend(a[1..], b);
    }
  }

  lemma {:induction false} FirstByIdAppend(a: seq<ContextEntry>, b: seq<ContextEntry>, seen: set<U64>)
    ensures FirstById(a, seen) <= FirstById(a + b, seen)
  {
    if a != [] {
      assert (a + b)[1..] == a[1..] + b;
      FirstByIdAppend(a[1..], b, if a[0].entryId in seen then seen else seen + {a[0].entryId});
    }
  }

  /** A longer log only adds context entries at the end. */
  lemma ContextEntriesGrow(log: Log, more: Log, run: RunId)
    ensures ContextEntriesForRun(log, run) <= ContextEntriesForRun(log + more, run)
  {
    AppliedAppend(log, more);
    OfRunAppend(Applied(log), Applied(more), run);
    FirstByIdAppend(OfRun(Applied(log), run), OfRun(Applied(more), run), {});
  }

  lemma {:induction false} AppliedOnlyRun(log: Log, run: RunId)
    ensures Applied(OnlyRun(log, run)) == OfRun(Applied(log), run)
  {
    if log != [] {
      AppliedOnlyRun(log[1..], run);
      var head := if log[0].event.EntriesApplied? then log[0].event.entries else [];
      OfRunAppend(head, Applied(log[1..]), run);
      var rest := OnlyRun(log[1..], run);
      if OnlyRun(log, run) != rest {
        assert OnlyRun(log, run)[1..] == rest;
      }
    }
  }

  /** Entries of other runs have no part in which entries a run shows. */
  lemma ContextEntriesOfRunAlone(log: Log, run: RunId)
    ensures ContextEntriesForRun(OnlyRun(log, run), run) == ContextEntriesForRun(log, run)
  {
    AppliedOnlyRun(log, run);
    OfRunIdempotent(Applied(log), run);
  }

  // ---------- media groups ----------

  /** A media message a tool put into the context. */
  predicate IsToolMedia(e: ContextEntry) {
    e.kind == Message(User) && e.source.ToolSource? && e.media
  }

  function ToolCallMediaView(e: ContextEntry): MediaView {
    MediaView(e.entryId, e.contentRef)
  }

  /** The call whose result is the nearest before the end with only tool media after it. */
  ghost predicate FollowsResultOf(entries: seq<ContextEntry>, callId: string) {
    exists k :: 0 <= k < |entries| && entries[k].kind.ToolResult? && entries[k].kind.callId == callId
                && forall m :: k < m < |entries| ==> IsToolMedia(entries[m])
  }

  function CurrentCall(entries: seq<ContextEntry>): Option<string> {
    if entries == [] then None
    else
      var e := entries[|entries| - 1];
      if e.kind.ToolResult? then Some(e.kind.callId)
      else if IsToolMedia(e) then CurrentCall(entries[..|entries| - 1])
      else None
  }

  lemma {:induction false} CurrentCallIsNearestResult(entries: seq<ContextEntry>, callId: string)
    ensures CurrentCall(entries) == Some(callId) <==> FollowsResultOf(entries, callId)
  {
    if entries != [] {
      var n := |entries| - 1;
      var init := entries[..n];
      CurrentCallIsNearestResult(init, callId);
      if FollowsResultOf(entries, callId) {
        var k :| 0 <= k < |entries| && entries[k].kind.ToolResult? && entries[k].kind.callId == callId
                 && forall m :: k < m < |entries| ==> IsToolMedia(entries[m]);
        if k < n {
          assert init[k] == entries[k];
          assert FollowsResultOf(init, callId);
        }
      }
      if CurrentCall(entries) == Some(callId) && !entries[n].kind.ToolResult? {
        var k :| 0 <= k < |init| && init[k].kind.ToolResult? && init[k].kind.callId == callId
                 && forall m :: k < m < |init| ==> IsToolMedia(init[m]);
        assert entries[k] == init[k];
        forall m | k < m < |entries| ensures IsToolMedia(entries[m]) {
          if m < n { assert entries[m] == init[m]; }
        }
      }
    }
  }

  /** The media attached to one call, in order. */
  function AttachedTo(entries: seq<ContextEntry>, callId: string): seq<MediaView> {
    if entries == [] then []
    else
      var init, e := entries[..|entries| - 1], entries[|entries| - 1];
      AttachedTo(init, callId)
      + (if IsToolMedia(e) && CurrentCall(init) == Some(callId) then [ToolCallMediaView(e)] else [])
  }

  /** The entry at `k` is media of a tool and the nearest result before it, past media only, is of this call. */
  ghost predicate MediaOf(entries: seq<ContextEntry>, callId: string, k: int) {
    0 <= k < |entries| && IsToolMedia(entries[k]) && FollowsResultOf(entries[..k], callId)
  }

  /** Exactly the media whose nearest result is of the call are attached to it, and no other entry is. */
  lemma {:induction false} AttachedIsNearest(entries: seq<ContextEntry>, callId: string, v: MediaView)
    ensures v in AttachedTo(entries, callId) <==>
            exists k :: MediaOf(entries, callId, k) && v == ToolCallMediaView(entries[k])
  {
    if entries != [] {
      var n := |entries| - 1;
      var init := entries[..n];
      AttachedIsNearest(init, callId, v);
      CurrentCallIsNearestResult(init, callId);
      forall k ensures MediaOf(entries, callId, k) <==> (k == n && MediaOf(entries, callId, n)) || MediaOf(init, callId, k) {
        if 0 <= k < n {
          assert init[..k] == entries[..k] && init[k] == entries[k];
        }
      }
      if MediaOf(entries, callId, n) && v == ToolCallMediaView(entries[n]) {
        assert v in AttachedTo(entries, callId);
      }
      if k :| MediaOf(init, callId, k) && v == ToolCallMediaView(init[k]) {
        assert MediaOf(entries, callId, k) && v == ToolCallMediaView(entries[k]);
      }
    }
  }

  /** How many media entries follow some result, whichever. */
  function AttachedCount(entries: seq<ContextEntry>): nat {
    if entries == [] then 0
    else
      var init, e := entries[..|entries| - 1], entries[|entries| - 1];
      AttachedCount(init) + (if IsToolMedia(e) && CurrentCall(init).Some? then 1 else 0)
  }

  function ResultCount(entries: seq<ContextEntry>, callId: string): nat {
    if entries == [] then 0
    else
      var e := entries[|entries| - 1];
      ResultCount(entries[..|entries| - 1], callId)
      + (if e.kind.ToolResult? && e.kind.callId == callId then 1 else 0)
  }

  function LastResult(entries: seq<ContextEntry>, callId: string): (r: Option<ContextEntry>)
    ensures r.Some? <==> ResultCount(entries, callId) > 0
    ensures r.Some? ==> r.value in entries && r.value.kind.ToolResult? && r.value.kind.callId == callId
  {
    if entries == [] then None
    else
      var e := entries[|entries| - 1];
      if e.kind.ToolResult? && e.kind.callId == callId then Some(e)
      else LastResult(entries[..|entries| - 1], callId)
  }

  function ResultCallIds(entries: seq<ContextEntry>): (ids: set<string>)
    ensures forall c :: c in ids <==> ResultCount(entries, c) > 0
  {
    if entries == [] then {}
    else
      var e := entries[|entries| - 1];
      ResultCallIds(entries[..|entries| - 1]) + (if e.kind.ToolResult? then {e.kind.callId} else {})
  }

  function ProjectedResult(blobs: Blobs, e: ContextEntry, media: seq<MediaView>): ProjectedToolResult
    requires e.kind.ToolResult?
  {
    var output := blobs(e.contentRef);
    ProjectedToolResult(
      Truncated(output, MAX_INLINE_TEXT_BYTES), e.contentRef, |Encode(output)| > MAX_INLINE_TEXT_BYTES,
      e.kind.isError, if e.kind.isError then ToolItemStatus.Failed else ToolItemStatus.Succeeded, media)
  }

  /** The last result of each call, with the call's media if it has one result only. */
  function ResultsByCall(blobs: Blobs, entries: seq<ContextEntry>): (r: map<string, ProjectedToolResult>)
    ensures forall c :: c in r <==> ResultCount(entries, c) > 0
  {
    map c | c in ResultCallIds(entries) ::
      ProjectedResult(blobs, LastResult(entries, c).value,
                      if ResultCount(entries, c) == 1 then AttachedTo(entries, c) else [])
  }

  lemma Snoc<T>(s: seq<T>, k: nat)
    requires k < |s|
    ensures s[..k + 1] == s[..k] + [s[k]]
    ensures s[..k + 1][..k] == s[..k]
  {
  }

  lemma ResultStep(entries: seq<ContextEntry>, k: nat, c: string)
    requires k < |entries|
    ensures var hit := entries[k].kind.ToolResult? && entries[k].kind.callId == c;
            && ResultCount(entries[..k + 1], c) == ResultCount(entries[..k], c) + (if hit then 1 else 0)
            && LastResult(entries[..k + 1], c) == if hit then Some(entries[k]) else LastResult(entries[..k], c)
  {
    Snoc(entries, k);
  }

  /** The first pass: media under the call whose result they follow. */
  method GroupMedia(entries: seq<ContextEntry>) returns (mediaByCall: map<string, seq<MediaView>>)
    ensures forall c :: c in mediaByCall ==> mediaByCall[c] == AttachedTo(entries, c)
    ensures forall c :: c !in mediaByCall ==> AttachedTo(entries, c) == []
  {
    mediaByCall := map[];
    var currentCall: Option<string> := None;
    for k := 0 to |entries|
      invariant currentCall == CurrentCall(entries[..k])
      invariant forall c :: c in mediaByCall ==> mediaByCall[c] == AttachedTo(entries[..k], c)
      invariant forall c :: c !in mediaByCall ==> AttachedTo(entries[..k], c) == []
    {
      var item := entries[k];
      Snoc(entries, k);
      if item.kind.ToolResult? {
        currentCall := Some(item.kind.callId);
      } else if IsToolMedia(item) {
        if currentCall.Some? {
          var soFar := if currentCall.value in mediaByCall then mediaByCall[currentCall.value] else [];
          mediaByCall := mediaByCall[currentCall.value := soFar + [ToolCallMediaView(item)]];
        }
      } else {
        currentCall := None;
      }
    }
    assert entries[..|entries|] == entries;
  }

  /**
   The second pass over a run's entries takes each group out of the map as it meets a result of that
   call, and a later result of the same call replaces an earlier one.
   */
  method ProjectToolResults(blobs: Blobs, entries: seq<ContextEntry>)
    returns (results: map<string, ProjectedToolResult>)
    ensures results == ResultsByCall(blobs, entries)
  {
    assert entries[..0] == [];
    assert forall c :: ResultCount(entries[..0], c) == 0;
    assert ResultsSoFar(blobs, entries, 0) == map[];
    hide AttachedTo, LastResult, ResultCount, Truncated, Encode, ResultsSoFar, ResultCallIds;
    var mediaByCall := GroupMedia(entries);
    results := map[];
    for k := 0 to |entries|
      invariant forall c :: c in mediaByCall ==>
                  ResultCount(entries[..k], c) == 0 && mediaByCall[c] == AttachedTo(entries, c)
      invariant forall c :: c !in mediaByCall && ResultCount(entries[..k], c) == 0 ==> AttachedTo(entries, c) == []
      invariant results == ResultsSoFar(blobs, entries, k)
    {
      var item := entries[k];
      ResultsStep(blobs, entries, k);
      forall c { ResultStep(entries, k, c); }
      if item.kind.ToolResult? {
        var callId := item.kind.callId;
        var media := if callId in mediaByCall then mediaByCall[callId] else [];
        mediaByCall := mediaByCall - {callId};
        results := results[callId := ProjectedResult(blobs, item, media)];
      }
    }
    assert entries[..|entries|] == entries;
  }

  /** The map after the first `k` entries, with the media of the whole list. */
  ghost function ResultsSoFar(blobs: Blobs, entries: seq<ContextEntry>, k: nat): map<string, ProjectedToolResult>
    requires k <= |entries|
  {
    map c | c in ResultCallIds(entries[..k]) ::
      ProjectedResult(blobs, LastResult(entries[..k], c).value,
                      if ResultCount(entries[..k], c) == 1 then AttachedTo(entries, c) else [])
  }

  lemma ResultsStep(blobs: Blobs, entries: seq<ContextEntry>, k: nat)
    requires k < |entries|
    ensures var e, before := entries[k], ResultsSoFar(blobs, entries, k);
            ResultsSoFar(blobs, entries, k + 1) ==
            if e.kind.ToolResult? then
              before[e.kind.callId := ProjectedResult(blobs, e,
                if ResultCount(entries[..k], e.kind.callId) == 0 then AttachedTo(entries, e.kind.callId) else [])]
            else before
  {
    hide AttachedTo, Truncated, Encode;
    forall c { ResultStep(entries, k, c); }
  }

  // ---------- conservation ----------

  /** The number of media views in a set of groups. */
  ghost function GroupSizes(ids: set<string>, size: string -> nat): nat {
    if ids == {} then 0 else var c :| c in ids; size(c) + GroupSizes(ids - {c}, size)
  }

  lemma {:induction false} GroupSizesSplit(ids: set<string>, size: string -> nat, c: string)
    requires c in ids
    ensures GroupSizes(ids, size) == size(c) + GroupSizes(ids - {c}, size)
  {
    var d :| d in ids && GroupSizes(ids, size) == size(d) + GroupSizes(ids - {d}, size);
    if d != c {
      GroupSizesSplit(ids - {d}, size, c);
      GroupSizesSplit(ids - {c}, size, d);
      assert ids - {d} - {c} == ids - {c} - {d};
    }
  }

  /** Sums of pointwise ordered sizes are ordered, and are equal only where the sizes are. */
  lemma {:induction false} GroupSizesCompare(ids: set<string>, less: string -> nat, more: string -> nat)
    requires forall c :: c in ids ==> less(c) <= more(c)
    ensures GroupSizes(ids, less) <= GroupSizes(ids, more)
    ensures GroupSizes(ids, less) == GroupSizes(ids, more) <==> forall c :: c in ids ==> less(c) == more(c)
  {
    if ids != {} {
      var c :| c in ids;
      GroupSizesSplit(ids, less, c);
      GroupSizesSplit(ids, more, c);
      GroupSizesCompare(ids - {c}, less, more);
    }
  }

  ghost function AttachedSize(entries: seq<ContextEntry>): string -> nat {
    c => |AttachedTo(entries, c)|
  }

  ghost function HeldSize(results: map<string, ProjectedToolResult>): string -> nat {
    c => if c in results then |results[c].media| else 0
  }

  lemma {:induction false} GroupsHoldAllAttached(entries: seq<ContextEntry>, ids: set<string>)
    requires forall c :: ResultCount(entries, c) > 0 ==> c in ids
    ensures GroupSizes(ids, AttachedSize(entries)) == AttachedCount(entries)
  {
    var size := AttachedSize(entries);
    if entries == [] {
      AllEmpty(ids, size);
    } else {
      var init, e := entries[..|entries| - 1], entries[|entries| - 1];
      var before := AttachedSize(init);
      GroupsHoldAllAttached(init, ids);
      if IsToolMedia(e) && CurrentCall(init).Some? {
        var c := CurrentCall(init).value;
        CurrentHasResult(init, c);
        GroupSizesSplit(ids, size, c);
        GroupSizesSplit(ids, before, c);
        GroupSizesCompare(ids - {c}, before, size);
      } else {
        GroupSizesCompare(ids, before, size);
      }
    }
  }

  lemma {:induction false} AllEmpty(ids: set<string>, size: string -> nat)
    requires forall c :: c in ids ==> size(c) == 0
    ensures GroupSizes(ids, size) == 0
  {
    if ids != {} {
      var c :| c in ids && GroupSizes(ids, size) == size(c) + GroupSizes(ids - {c}, size);
      AllEmpty(ids - {c}, size);
    }
  }

  lemma {:induction false} CurrentHasResult(entries: seq<ContextEntry>, callId: string)
    requires CurrentCall(entries) == Some(callId)
    ensures ResultCount(entries, callId) > 0
  {
    var e := entries[|entries| - 1];
    if !e.kind.ToolResult? {
      CurrentHasResult(entries[..|entries| - 1], callId);
    }
  }

  /** How many media views the results carry between them. */
  ghost function MediaHeld(results: map<string, ProjectedToolResult>): nat {
    GroupSizes(results.Keys, HeldSize(results))
  }

  predicate HasRepeatedResult(entries: seq<ContextEntry>, callId: string) {
    ResultCount(entries, callId) > 1
  }

  /**
   The results carry as many media as the run's entries attach to a result exactly when no call with
   more than one result has media: the first of two results takes the media out of the map and the
   second replaces the first.
   */
  lemma MediaConserved(blobs: Blobs, entries: seq<ContextEntry>)
    ensures MediaHeld(ResultsByCall(blobs, entries)) <= AttachedCount(entries)
    ensures MediaHeld(ResultsByCall(blobs, entries)) == AttachedCount(entries)
            <==> forall c :: HasRepeatedResult(entries, c) ==> AttachedTo(entries, c) == []
  {
    var ids, held := ResultsByCall(blobs, entries).Keys, HeldSize(ResultsByCall(blobs, entries));
    var all, single := AttachedSize(entries), HasOneResult(entries);
    forall c | c in ids ensures held(c) == if single(c) then all(c) else 0 {
      HeldByCall(blobs, entries, c);
    }
    GroupsHoldAllAttached(entries, ids);
    GroupSizesOfSingles(ids, held, all, single);
    RepeatedHaveNone(entries, ids, all, single);
  }

  lemma RepeatedHaveNone(entries: seq<ContextEntry>, ids: set<string>, all: string -> nat, single: string -> bool)
    requires all == AttachedSize(entries) && single == HasOneResult(entries)
    requires forall c :: c in ids <==> ResultCount(entries, c) > 0
    ensures (forall c :: c in ids && !single(c) ==> all(c) == 0) <==>
            (forall c :: HasRepeatedResult(entries, c) ==> AttachedTo(entries, c) == [])
  {
    if forall c :: c in ids && !single(c) ==> all(c) == 0 {
      forall c | HasRepeatedResult(entries, c) ensures AttachedTo(entries, c) == [] {
        assert c in ids && !single(c);
        assert all(c) == 0;
      }
    }
    if forall c :: HasRepeatedResult(entries, c) ==> AttachedTo(entries, c) == [] {
      forall c | c in ids && !single(c) ensures all(c) == 0 {
        assert HasRepeatedResult(entries, c);
      }
    }
  }

  ghost function HasOneResult(entries: seq<ContextEntry>): string -> bool {
    c => ResultCount(entries, c) == 1
  }

  lemma HeldByCall(blobs: Blobs, entries: seq<ContextEntry>, c: string)
    requires ResultCount(entries, c) > 0
    ensures HeldSize(ResultsByCall(blobs, entries))(c) ==
            if HasOneResult(entries)(c) then AttachedSize(entries)(c) else 0
  {
  }

  lemma GroupSizesOfSingles(ids: set<string>, kept: string -> nat, all: string -> nat, single: string -> bool)
    requires forall c :: c in ids ==> kept(c) == if single(c) then all(c) else 0
    ensures GroupSizes(ids, kept) <= GroupSizes(ids, all)
    ensures GroupSizes(ids, kept) == GroupSizes(ids, all) <==> forall c :: c in ids && !single(c) ==> all(c) == 0
  {
    GroupSizesCompare(ids, kept, all);
  }

  lemma OneMoreEntry(entries: seq<ContextEntry>, e: ContextEntry, c: string)
    ensures CurrentCall(entries + [e])
         == if e.kind.ToolResult? then Some(e.kind.callId) else if IsToolMedia(e) then CurrentCall(entries) else None
    ensures AttachedTo(entries + [e], c)
         == AttachedTo(entries, c) + (if IsToolMedia(e) && CurrentCall(entries) == Some(c) then [ToolCallMediaView(e)] else [])
    ensures AttachedCount(entries + [e]) == AttachedCount(entries) + (if IsToolMedia(e) && CurrentCall(entries).Some? then 1 else 0)
    ensures ResultCount(entries + [e], c) == ResultCount(entries, c) + (if e.kind.ToolResult? && e.kind.callId == c then 1 else 0)
  {
    assert (entries + [e])[..|entries|] == entries;
  }

  /** A call with more than one result has none of its media on the result that is kept, whatever the log. */
  lemma RepeatedResultLosesMedia(blobs: Blobs, log: Log, run: RunId, callId: string)
    requires HasRepeatedResult(ContextEntriesForRun(log, run), callId)
    ensures callId in ResultsByCall(blobs, ContextEntriesForRun(log, run))
    ensures ResultsByCall(blobs, ContextEntriesForRun(log, run))[callId].media == []
    ensures AttachedTo(ContextEntriesForRun(log, run), callId) != [] ==>
              MediaHeld(ResultsByCall(blobs, ContextEntriesForRun(log, run))) < AttachedCount(ContextEntriesForRun(log, run))
  {
    MediaConserved(blobs, ContextEntriesForRun(log, run));
  }

  const FIRST_RESULT := ContextEntry(1, ContextEntryKind.ToolResult("c", true), ToolSource(1), "r1", false)
  const IMAGE := ContextEntry(2, ContextEntryKind.Message(User), ToolSource(1), "i", true)
  const SECOND_RESULT := ContextEntry(3, ContextEntryKind.ToolResult("c", false), ToolSource(1), "r2", false)

  lemma AllThreeAreOfTheRun()
    ensures OfRun([FIRST_RESULT, IMAGE, SECOND_RESULT], 1) == [FIRST_RESULT, IMAGE, SECOND_RESULT]
  {
    var all, last := [FIRST_RESULT, IMAGE, SECOND_RESULT], [IMAGE, SECOND_RESULT];
    assert all[1..] == last && last[1..] == [SECOND_RESULT] && [SECOND_RESULT][1..] == [];
    assert OfRun([SECOND_RESULT], 1) == [SECOND_RESULT];
    assert OfRun(last, 1) == last;
  }

  lemma AllThreeAreFirst()
    ensures FirstById([FIRST_RESULT, IMAGE, SECOND_RESULT], {}) == [FIRST_RESULT, IMAGE, SECOND_RESULT]
  {
    var all, last := [FIRST_RESULT, IMAGE, SECOND_RESULT], [IMAGE, SECOND_RESULT];
    assert all[1..] == last && last[1..] == [SECOND_RESULT] && [SECOND_RESULT][1..] == [];
    assert FirstById([SECOND_RESULT], {1, 2}) == [SECOND_RESULT];
    assert {1} + {2} == {1, 2} && {} + {1} == {1};
    assert FirstById(last, {1}) == last;
  }

  lemma AllThreeAreShown()
    ensures ContextEntriesForRun([LogEntry(0, EntriesApplied([FIRST_RESULT, IMAGE, SECOND_RESULT]))], 1)
         == [] + [FIRST_RESULT] + [IMAGE] + [SECOND_RESULT]
  {
    var log := [LogEntry(0, EntriesApplied([FIRST_RESULT, IMAGE, SECOND_RESULT]))];
    hide OfRun, FirstById;
    assert Applied(log[1..]) == [] && Applied(log) == [FIRST_RESULT, IMAGE, SECOND_RESULT];
    AllThreeAreOfTheRun();
    AllThreeAreFirst();
  }

  /** It happens: an image between a failed and a successful result of call "c". */
  lemma RepeatedResultHappens()
    ensures var entries := ContextEntriesForRun([LogEntry(0, EntriesApplied([FIRST_RESULT, IMAGE, SECOND_RESULT]))], 1);
            HasRepeatedResult(entries, "c") && AttachedTo(entries, "c") == [ToolCallMediaView(IMAGE)]
  {
    hide Applied, OfRun, FirstById;
    AllThreeAreShown();
    OneMoreEntry([], FIRST_RESULT, "c");
    OneMoreEntry([] + [FIRST_RESULT], IMAGE, "c");
    OneMoreEntry([] + [FIRST_RESULT] + [IMAGE], SECOND_RESULT, "c");
  }
}
