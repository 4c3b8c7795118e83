/** Walking the pages of a session's runs while runs are accepted, started, finished and pruned. */
module RunWalk {
  import opened Wrappers
  import opened ApiIds
  import opened Sequences
  import opened ToolStatus
  import opened RunPaging

  lemma {:induction false} StepsKeepValid(s: Session, events: seq<RunEvent>)
    requires Valid(s)
    ensures Valid(Steps(s, events))
    ensures Steps(s, events).runs.lastRunId >= s.runs.lastRunId
  {
    if events != [] {
      StepsKeepValid(s, events[..|events| - 1]);
      StepKeepsValid(Steps(s, events[..|events| - 1]), events[|events| - 1]);
    }
  }

  /** Every run id from `newest` down to one. */
  function Descending(newest: RunId): seq<RunId> {
    seq(newest, k requires 0 <= k < newest => newest - k)
  }

  function PageIds(page: RunPage): (ids: seq<RunId>)
    ensures |ids| == |page.runs|
  {
    seq(|page.runs|, k requires 0 <= k < |page.runs| => page.runs[k].id)
  }

  function Times(pages: nat, size: nat): nat {
    pages * size
  }

  lemma OneMorePage(pages: nat, size: nat)
    ensures Times(pages + 1, size) == Times(pages, size) + size
  {
  }

  /** The cursor of the next read, after the first `taken` runs. */
  ghost predicate CursorAfter(cursor: Option<string>, newest: RunId, taken: nat) {
    0 < taken < newest && cursor == Some(ApiRunId(newest - taken + 1))
  }

  lemma CursorReadsBack(cursor: Option<string>, newest: RunId, taken: nat)
    requires CursorAfter(cursor, newest, taken)
    ensures ParseApiRunId(cursor.value) == Ok(newest - taken + 1)
  {
    PrintedReadsBack("run_", newest - taken + 1);
  }

  /** A page goes on where the first `taken` runs end, and ends the walk or leads on from its own end. */
  ghost predicate Continues(page: RunPage, newest: RunId, taken: nat, limit: nat) {
    && taken + |page.runs| <= newest && |page.runs| <= limit
    && Descending(newest)[..taken] + PageIds(page) == Descending(newest)[..taken + |page.runs|]
    && (page.nextCursor.Some? ==> |page.runs| == limit && CursorAfter(page.nextCursor, newest, taken + |page.runs|))
    && (page.nextCursor.None? ==> taken + |page.runs| == newest)
  }

  /**
   One read of the walk: state is loaded, events happen, and the log is read as it is then. What comes
   of the session meanwhile is returned with the page.
   */
  method ReadNextPage(s: Session, during: seq<RunEvent>, cursor: Option<string>, limit: Option<nat>,
                      ghost history: seq<RunEvent>, ghost newest: RunId, ghost taken: nat)
    returns (page: RunPage, next: Session)
    requires s == Steps(NEW_SESSION, history) && limit != Some(0) && s.runs.lastRunId >= newest
    requires if cursor.None? then taken == 0 && s.runs.lastRunId == newest else CursorAfter(cursor, newest, taken)
    ensures Continues(page, newest, taken, PageLimit(limit))
    ensures next == Steps(NEW_SESSION, history + during) && next.runs.lastRunId >= s.runs.lastRunId
  {
    next := Proceed(s, during, history);
    StepsAppend(NEW_SESSION, history, during);
    ReachableIsValid(history);
    ReachableLogIsOfEnded(history);
    LogGrows(s, during);
    if cursor.Some? {
      CursorReadsBack(cursor, newest, taken);
    }
    PageContinues(s, if cursor.None? then None else Some(newest - taken + 1), PageLimit(limit), newest, taken);
    var listed := ListRuns(s, next.log, cursor, limit);
    page := listed.value;
  }

  /** The runs listed so far are the newest of those there were. */
  ghost predicate Listed(ids: seq<RunId>, newest: RunId) {
    |ids| <= newest && ids == Descending(newest)[..|ids|]
  }

  lemma ListedGoesOn(ids: seq<RunId>, page: RunPage, newest: RunId, pages: nat, limit: nat)
    requires Listed(ids, newest) && Continues(page, newest, |ids|, limit) && |ids| == Times(pages, limit)
    ensures Listed(ids + PageIds(page), newest)
    ensures |ids + PageIds(page)| <= Times(pages + 1, limit)
    ensures page.nextCursor.Some? ==> |ids + PageIds(page)| == Times(pages + 1, limit)
    ensures page.nextCursor.None? ==> |ids + PageIds(page)| == newest
  {
    OneMorePage(pages, limit);
  }

  lemma {:induction false} StepsAppend(s: Session, a: seq<RunEvent>, b: seq<RunEvent>)
    ensures Steps(Steps(s, a), b) == Steps(s, a + b)
    decreases |b|
  {
    if b == [] {
      assert a + b == a;
    } else {
      StepsAppend(s, a, b[..|b| - 1]);
      assert (a + b)[..|a + b| - 1] == a + b[..|b| - 1];
    }
  }

  /** What happens to the session between two reads. */
  method Proceed(s: Session, events: seq<RunEvent>, ghost history: seq<RunEvent>) returns (next: Session)
    requires s == Steps(NEW_SESSION, history)
    ensures next == Steps(NEW_SESSION, history + events) && next.runs.lastRunId >= s.runs.lastRunId
  {
    ReachableIsValid(history);
    StepsKeepValid(s, events);
    StepsAppend(NEW_SESSION, history, events);
    next := Steps(s, events);
  }

  /** Where the walk has come to: the runs listed, the pages read, and the cursor of the next if there is one. */
  datatype Walk = Walk(session: Session, ids: seq<RunId>, pages: nat, cursor: Option<string>, more: bool)

  ghost predicate OnItsWay(walk: Walk, history: seq<RunEvent>, newest: RunId, limit: nat) {
    && walk.session == Steps(NEW_SESSION, history) && walk.session.runs.lastRunId >= newest
    && Listed(walk.ids, newest)
    && (if walk.more then
          && |walk.ids| == Times(walk.pages, limit)
          && (if walk.cursor.None? then walk.ids == [] && walk.pages == 0 && walk.session.runs.lastRunId == newest
              else CursorAfter(walk.cursor, newest, |walk.ids|))
        else |walk.ids| == newest && FewestPages(newest, walk.pages, limit))
  }

  /** No fewer pages of `limit` hold so many runs; no runs still take one page. */
  ghost predicate FewestPages(runs: nat, pages: nat, limit: nat) {
    && pages > 0 && runs <= Times(pages, limit)
    && (if runs == 0 then pages == 1 else Times(pages - 1, limit) < runs)
  }

  /** One page of the walk, with what happens while it is read, and what happens after it. */
  method WalkOn(walk: Walk, limit: Option<nat>, during: seq<RunEvent>, events: seq<RunEvent>,
                ghost history: seq<RunEvent>, ghost newest: RunId)
    returns (next: Walk)
    requires limit != Some(0) && walk.more && OnItsWay(walk, history, newest, PageLimit(limit))
    ensures OnItsWay(next, history + during + events, newest, PageLimit(limit))
    ensures next.more ==> |walk.ids| < |next.ids|
  {
    hide Steps, Descending;
    var page, session := ReadNextPage(walk.session, during, walk.cursor, limit, history, newest, |walk.ids|);
    ListedGoesOn(walk.ids, page, newest, walk.pages, PageLimit(limit));
    session := Proceed(session, events, history + during);
    next := Walk(session, walk.ids + PageIds(page), walk.pages + 1, page.nextCursor, page.nextCursor.Some?);
  }

  /**
   Follow `nextCursor` until there is none, with any events while a page is read and between one read and
   the next. Every run that existed at the first read is returned once, newest first, and no other is, in
   as few pages as the limit allows.
   */
  method WalkRuns(before: seq<RunEvent>, limit: Option<nat>, during: nat -> seq<RunEvent>, between: nat -> seq<RunEvent>)
    returns (ids: seq<RunId>, pages: nat)
    requires limit != Some(0)
    ensures ids == Descending(Steps(NEW_SESSION, before).runs.lastRunId)
    ensures FewestPages(|ids|, pages, if limit.None? then 20 else if limit.value > 100 then 100 else limit.value)
  {
    var walk := Walk(Steps(NEW_SESSION, before), [], 0, None, true);
    ghost var history, newest := before, walk.session.runs.lastRunId;
    while walk.more
      invariant OnItsWay(walk, history, newest, PageLimit(limit))
      decreases newest - |walk.ids|, walk.more
    {
      var inside, after := during(walk.pages), between(walk.pages);
      walk := WalkOn(walk, limit, inside, after, history, newest);
      history := history + inside + after;
    }
    assert Descending(newest)[..newest] == Descending(newest);
    ids, pages := walk.ids, walk.pages;
  }

  /** A page picks up at the id below those already listed. */
  lemma PageContinues(s: Session, cursor: Option<RunId>, limit: nat, newest: RunId, taken: nat)
    requires Valid(s) && limit > 0
    requires taken <= newest && NewestBelow(s, cursor) == newest - taken
    ensures Continues(WholePage(s, cursor, limit), newest, taken, limit)
  {
  }

  // ---------- a windowed history suffices ----------

  lemma HeadIsNewest(runs: seq<RunSummary>, x: RunSummary)
    requires NewestFirst(runs) && x in runs
    ensures runs != [] && x.id <= runs[0].id && (x.id == runs[0].id ==> x == runs[0])
  {
    var k :| 0 <= k < |runs| && runs[k] == x;
  }

  lemma TailMembers(runs: seq<RunSummary>)
    requires NewestFirst(runs) && runs != []
    ensures NewestFirst(runs[1..])
    ensures forall x :: x in runs[1..] <==> x in runs && x.id < runs[0].id
  {
    assert runs == [runs[0]] + runs[1..];
    forall x | x in runs[1..] ensures x.id < runs[0].id {
      var k :| 0 <= k < |runs[1..]| && runs[1..][k] == x;
      assert runs[k + 1] == x;
    }
  }

  /** What `some` lacks of `all` is below `n` runs that it has. */
  ghost predicate LacksOnlyBelow(some: seq<RunSummary>, all: seq<RunSummary>, n: nat) {
    forall x :: x in all && x !in some ==> |some| >= n && (n > 0 ==> some[n - 1].id > x.id)
  }

  lemma SameHead(some: seq<RunSummary>, all: seq<RunSummary>, n: nat)
    requires NewestFirst(some) && NewestFirst(all) && all != [] && n > 0
    requires forall x :: x in some ==> x in all
    requires LacksOnlyBelow(some, all, n)
    ensures some != [] && some[0] == all[0]
  {
    assert all[0] in all;
    if all[0] in some {
      HeadIsNewest(some, all[0]);
      assert some[0] in some;
    } else {
      assert some[n - 1] in some;
    }
    HeadIsNewest(all, some[0]);
    if all[0] !in some { HeadIsNewest(all, some[n - 1]); }
  }

  lemma TailsLack(some: seq<RunSummary>, all: seq<RunSummary>, n: nat)
    requires some != [] && all != [] && some[0] == all[0] && n > 0
    requires NewestFirst(some) && NewestFirst(all) && LacksOnlyBelow(some, all, n)
    ensures LacksOnlyBelow(some[1..], all[1..], n - 1)
  {
    TailMembers(some);
    TailMembers(all);
    forall x | x in all[1..] && x !in some[1..] ensures |some[1..]| >= n - 1 && (n > 1 ==> some[1..][n - 2].id > x.id) {
      assert x in all && x !in some;
    }
  }

  lemma {:induction false} PrefixesAgree(some: seq<RunSummary>, all: seq<RunSummary>, n: nat)
    requires NewestFirst(some) && NewestFirst(all)
    requires forall x :: x in some ==> x in all
    requires LacksOnlyBelow(some, all, n)
    ensures |all| >= n ==> |some| >= n && some[..n] == all[..n]
    ensures |all| <= n ==> some == all
  {
    assert forall k :: 0 <= k < |some| ==> some[k] in all;
    if all != [] && n > 0 {
      SameHead(some, all, n);
      TailMembers(some);
      TailMembers(all);
      TailsLack(some, all, n);
      PrefixesAgree(some[1..], all[1..], n - 1);
      ConsPrefix(some, n);
      ConsPrefix(all, n);
    }
  }

  lemma ConsPrefix(runs: seq<RunSummary>, n: nat)
    requires runs != [] && n > 0
    ensures runs == [runs[0]] + runs[1..]
    ensures |runs| >= n ==> runs[..n] == [runs[0]] + runs[1..][..n - 1]
  {
  }

  /** The `k`th newest of more runs is no older than the `k`th newest of fewer. */
  lemma {:induction false} MoreRunsAreNewer(fewer: seq<RunSummary>, more: seq<RunSummary>, k: nat)
    requires NewestFirst(fewer) && NewestFirst(more) && k < |fewer|
    requires forall x :: x in fewer ==> x in more
    ensures k < |more| && more[k].id >= fewer[k].id
  {
    assert fewer[0] in fewer;
    HeadIsNewest(more, fewer[0]);
    if k > 0 {
      TailMembers(fewer);
      TailMembers(more);
      MoreRunsAreNewer(fewer[1..], more[1..], k - 1);
    }
  }

  lemma CandidatesMembers(runs: RunsState, history: seq<RunRecord>, cursor: Option<RunId>, x: RunSummary)
    ensures x in Candidates(runs, history, cursor) <==>
            x in PrunedBelow(runs, history, cursor) || (x in HeldRuns(runs) && (cursor.None? || x.id < cursor.value))
  {
    assert x in HeldRuns(runs) + OnlyPruned(runs, history) <==> x in HeldRuns(runs) || x in OnlyPruned(runs, history);
  }

  lemma CandidatesLack(runs: RunsState, whole: seq<RunRecord>, window: seq<RunRecord>, cursor: Option<RunId>, n: nat)
    requires n > 0 && NoDup(HeldIds(runs)) && NoDup(Ids(window))
    requires LacksOnlyBelow(PrunedBelow(runs, window, cursor), PrunedBelow(runs, whole, cursor), n)
    ensures LacksOnlyBelow(Candidates(runs, window, cursor), Candidates(runs, whole, cursor), n)
  {
    var some, windowed := Candidates(runs, window, cursor), PrunedBelow(runs, window, cursor);
    CandidatesSorted(Session(runs, map[]), window, cursor);
    PrunedSorted(runs, window, cursor);
    forall x ensures x in windowed ==> x in some {
      CandidatesMembers(runs, window, cursor, x);
    }
    forall x | x in Candidates(runs, whole, cursor) && x !in some ensures |some| >= n && some[n - 1].id > x.id {
      CandidatesMembers(runs, whole, cursor, x);
      CandidatesMembers(runs, window, cursor, x);
      MoreRunsAreNewer(windowed, some, n - 1);
    }
  }

  /**
   Two histories of pruned runs give the same page when what one leaves out lies below more than
   `limit` pruned runs that it has.
   */
  lemma WindowSuffices(runs: RunsState, whole: seq<RunRecord>, window: seq<RunRecord>, cursor: Option<RunId>, limit: nat)
    requires limit > 0
    requires NoDup(HeldIds(runs)) && NoDup(Ids(whole)) && NoDup(Ids(window))
    requires forall r :: r in window ==> r in whole
    requires LacksOnlyBelow(PrunedBelow(runs, window, cursor), PrunedBelow(runs, whole, cursor), limit + 1)
    ensures SummaryPage(runs, window, cursor, limit) == SummaryPage(runs, whole, cursor, limit)
  {
    var some, all := Candidates(runs, window, cursor), Candidates(runs, whole, cursor);
    CandidatesSorted(Session(runs, map[]), whole, cursor);
    CandidatesSorted(Session(runs, map[]), window, cursor);
    CandidatesLack(runs, whole, window, cursor, limit + 1);
    PrefixesAgree(some, all, limit + 1);
    PagesAgree(some, all, limit);
  }

  /** The pruned runs of a history below the cursor, newest first. */
  ghost function PrunedBelow(runs: RunsState, history: seq<RunRecord>, cursor: Option<RunId>): seq<RunSummary> {
    SortNewestFirst(BelowCursor(OnlyPruned(runs, history), cursor))
  }

  lemma PrunedSorted(runs: RunsState, history: seq<RunRecord>, cursor: Option<RunId>)
    requires NoDup(Ids(history))
    ensures NewestFirst(PrunedBelow(runs, history, cursor))
  {
    OnlyPrunedDistinct(runs, history);
    BelowCursorDistinct(OnlyPruned(runs, history), cursor);
    SortIsNewestFirst(BelowCursor(OnlyPruned(runs, history), cursor));
  }

  lemma PagesAgree(some: seq<RunSummary>, all: seq<RunSummary>, limit: nat)
    requires limit > 0
    requires |all| >= limit + 1 ==> |some| >= limit + 1 && some[..limit + 1] == all[..limit + 1]
    requires |all| <= limit + 1 ==> some == all
    ensures PageOf(some, limit) == PageOf(all, limit)
  {
    if |all| > limit {
      assert some[..limit] == some[..limit + 1][..limit] && all[..limit] == all[..limit + 1][..limit];
      assert some[limit - 1] == some[..limit][limit - 1];
    }
  }

  // ---------- session/read ----------

  /** The first page `session/read` shows: it reads no pruned runs back. */
  function SessionReadPage(s: Session, limit: nat): RunPage
    requires limit > 0
  {
    SummaryPage(s.runs, [], None, limit)
  }

  /**
   `session/read` shows the newest runs, with a cursor that leads to the rest, exactly when nothing is
   pruned or the newest pruned run is older than the page.
   */
  lemma SessionReadWholeExactlyWhen(s: Session, limit: nat)
    requires Valid(s) && 0 < limit <= MAX_RUN_SUMMARY_LIMIT
    ensures SessionReadPage(s, limit) == WholePage(s, None, limit) <==>
            s.runs.prunedThrough.None? || s.runs.lastRunId - s.runs.prunedThrough.value >= limit
  {
    var last, c := s.runs.lastRunId, Candidates(s.runs, [], None);
    CandidatesAreRuns(s, [], None);
    AtMostNewest(c, last);
    assert HeldRuns(s.runs) + OnlyPruned(s.runs, []) == HeldRuns(s.runs);
    AllBelow(HeldRuns(s.runs));
    assert |c| == |HeldIds(s.runs)|;
    if s.runs.prunedThrough.None? || last - s.runs.prunedThrough.value >= limit {
      forall id: RunId | last - limit < id <= last && id >= 1 ensures Lists(c, id) {
        assert id in HeldIds(s.runs) || PastWindow(s, id);
        CandidatesReach(s, [], None, id);
      }
      TopOfSorted(c, last, limit);
      if s.runs.prunedThrough.None? && last > limit {
        forall id: RunId | last - (limit + 1) < id <= last && id >= 1 ensures Lists(c, id) {
          assert id in HeldIds(s.runs) || PastWindow(s, id);
          CandidatesReach(s, [], None, id);
        }
        TopOfSorted(c, last, limit + 1);
      }
      TopIsWhole(s, c, None, limit);
    } else {
      SessionReadMisses(s, limit);
    }
  }

  lemma SessionReadMisses(s: Session, limit: nat)
    requires Valid(s) && limit > 0
    requires s.runs.prunedThrough.Some? && s.runs.lastRunId - s.runs.prunedThrough.value < limit
    ensures SessionReadPage(s, limit) != WholePage(s, None, limit)
  {
    var c, page, whole := Candidates(s.runs, [], None), SessionReadPage(s, limit), WholePage(s, None, limit);
    var through := s.runs.prunedThrough.value;
    assert whole.runs[s.runs.lastRunId - through].id == through;
    assert HeldRuns(s.runs) + OnlyPruned(s.runs, []) == HeldRuns(s.runs);
    forall k | 0 <= k < |page.runs| ensures page.runs[k].id != through {
      assert page.runs[k] == c[k] && c[k] in c && c[k] in HeldRuns(s.runs);
      var j :| 0 <= j < |HeldRuns(s.runs)| && HeldRuns(s.runs)[j] == c[k];
      assert HeldIds(s.runs)[j] == c[k].id;
    }
  }

  lemma {:induction false} AllBelow(runs: seq<RunSummary>)
    ensures BelowCursor(runs, None) == runs
  {
    if runs != [] {
      AllBelow(runs[1..]);
    }
  }

  function AcceptEvents(n: nat): (r: seq<RunEvent>)
    requires n < U64_LIMIT
    ensures |r| == n
  {
    if n == 0 then [] else AcceptEvents(n - 1) + [Accepted(n)]
  }

  /** `n` runs accepted, the first started, and then the newest `m` cancelled from the top down. */
  function CancelledFromTop(n: nat, m: nat): (r: seq<RunEvent>)
    requires 1 <= n < U64_LIMIT && m < n
    ensures |r| > 0
  {
    if m == 0 then AcceptEvents(n) + [Started(1)]
    else CancelledFromTop(n, m - 1) + [QueuedCancelled(n - m + 1)]
  }

  function IdsUpTo(first: nat, last: nat): (r: seq<RunId>)
    requires last < U64_LIMIT
    ensures first <= last + 1 ==> |r| == last + 1 - first && forall i :: 0 <= i < |r| ==> r[i] == first + i
    decreases last
  {
    if first > last then [] else if last == 0 then [0] else IdsUpTo(first, last - 1) + [last]
  }

  function CancelledRecords(n: nat, m: nat): (r: seq<RunRecord>)
    requires n < U64_LIMIT && m <= n
    ensures |r| == m && (m > 0 ==> r[0].runId == n)
  {
    if m == 0 then [] else CancelledRecords(n, m - 1) + [RunRecord(n - m + 1, RunCancelled)]
  }

  function StateAfter(n: nat, m: nat): RunsState
    requires 1 <= n < U64_LIMIT && m < n
  {
    RunsState(n, Some(RunRecord(1, RunRunning)), IdsUpTo(2, n - m), CancelledRecords(n, m), None)
  }

  lemma {:induction false} AcceptedInOrder(n: nat)
    requires n < U64_LIMIT
    ensures Steps(NEW_SESSION, AcceptEvents(n)) == Session(RunsState(n, None, IdsUpTo(1, n), [], None), map[])
  {
    if n > 0 {
      AcceptedInOrder(n - 1);
      assert AcceptEvents(n)[..n - 1] == AcceptEvents(n - 1);
    }
  }

  lemma StateWhenStarted(n: nat)
    requires 1 <= n < U64_LIMIT
    ensures Steps(NEW_SESSION, AcceptEvents(n) + [Started(1)]).runs == StateAfter(n, 0)
  {
    AcceptedInOrder(n);
    assert (AcceptEvents(n) + [Started(1)])[..n] == AcceptEvents(n);
    assert IdsUpTo(1, n)[1..] == IdsUpTo(2, n);
  }

  lemma {:induction false} StateWhenCancelled(n: nat, m: nat)
    requires 1 <= n < U64_LIMIT && m < n && m <= MAX_RETAINED_TERMINAL_RUNS + 1
    ensures Steps(NEW_SESSION, CancelledFromTop(n, m)).runs == Prune(StateAfter(n, m))
  {
    if m == 0 {
      StateWhenStarted(n);
      PruneDropsOldest(StateAfter(n, m));
    } else {
      var before := CancelledFromTop(n, m - 1);
      StateWhenCancelled(n, m - 1);
      PruneDropsOldest(StateAfter(n, m - 1));
      assert CancelledFromTop(n, m)[..|before|] == before;
      CancelNext(Steps(NEW_SESSION, before), n, m);
    }
  }

  lemma LastOfIds(last: nat)
    requires 2 <= last < U64_LIMIT
    ensures var ids := IdsUpTo(2, last);
            IndexIn(ids, last) == last - 2 && ids[..last - 2] + ids[last - 1..] == IdsUpTo(2, last - 1)
  {
    var ids := IdsUpTo(2, last);
    assert ids[last - 2] == last;
    assert ids[last - 1..] == [];
  }

  lemma CancelNext(s: Session, n: nat, m: nat)
    requires 1 <= m < n < U64_LIMIT && s.runs == StateAfter(n, m - 1)
    ensures Step(s, QueuedCancelled(n - m + 1)).runs == Prune(StateAfter(n, m))
  {
    hide Prune, IdsUpTo, IndexIn;
    LastOfIds(n - m + 1);
  }

  /** A session whose newest run `session/read` leaves out, whatever the limit. */
  lemma SessionReadMissesNewest(limit: nat)
    requires 0 < limit <= MAX_RUN_SUMMARY_LIMIT
    ensures Valid(Steps(NEW_SESSION, CancelledFromTop(258, 257)))
    ensures Steps(NEW_SESSION, CancelledFromTop(258, 257)).runs.lastRunId == 258
    ensures SessionReadPage(Steps(NEW_SESSION, CancelledFromTop(258, 257)), limit)
         != WholePage(Steps(NEW_SESSION, CancelledFromTop(258, 257)), None, limit)
  {
    var n := 258;
    var s := Steps(NEW_SESSION, CancelledFromTop(n, n - 1));
    ReachableIsValid(CancelledFromTop(n, n - 1));
    StateWhenCancelled(n, n - 1);
    PruneDropsOldest(StateAfter(n, n - 1));
    assert s.runs.prunedThrough == Some(n);
    SessionReadWholeExactlyWhen(s, limit);
  }
}
