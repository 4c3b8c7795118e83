/**
 `awaitRun`: a reader with a cursor against a log that others append to between any two requests.
 A `Round` holds what the world does around one page read, and any finite list of rounds is a run
 of the protocol so far.
 */
module AwaitRun {
  import opened Wrappers
  import opened ToolStatus
  import opened RetryTransient

  const DEFAULT_EVENT_PAGE_LIMIT := 128
  const MAX_EVENT_PAGE_LIMIT := 512

  // ---------- the server's log ----------

  datatype EventKind = RunCompletedEvent(runId: string) | RunFailedEvent(runId: string) | RunCancelledEvent(runId: string) | OtherKind

  datatype Event = Event(position: nat, joinsRun: Option<string>, kind: EventKind)

  type Log = seq<Event>

  /** An event someone appends: the server gives it the next sequence number, or a later one. */
  datatype Draft = Draft(gap: nat, joinsRun: Option<string>, kind: EventKind)

  predicate Earlier(log: Log, i: nat, j: nat)
    requires i < |log| && j < |log|
  {
    log[i].position < log[j].position
  }

  ghost predicate Increasing(log: Log) {
    forall i, j :: 0 <= i < j < |log| ==> Earlier(log, i, j)
  }

  function Head(log: Log): nat {
    if log == [] then 0 else log[|log| - 1].position
  }

  function Append(log: Log, drafts: seq<Draft>): (r: Log)
    ensures log <= r && |r| == |log| + |drafts|
    ensures Increasing(log) ==> Increasing(r)
    ensures forall i :: |log| <= i < |r| ==> r[i].joinsRun == drafts[i - |log|].joinsRun && r[i].kind == drafts[i - |log|].kind
    ensures drafts == [] ==> r == log
    decreases drafts
  {
    if drafts == [] then log
    else
      var d := drafts[0];
      var longer := log + [Event(Head(log) + 1 + d.gap, d.joinsRun, d.kind)];
      assert Increasing(log) ==> Increasing(longer) by {
        if Increasing(log) {
          forall i, j | 0 <= i < j < |longer| ensures Earlier(longer, i, j) {
            var last := |log| - 1;
            assert Earlier(log, i, if j < |log| then j else if i < last then last else i) || i == last;
          }
        }
      }
      Append(longer, drafts[1..])
  }

  /** How many events of the log are at or before a cursor, given that the first `n` are. */
  function BehindFrom(log: Log, cursor: Option<nat>, n: nat): (m: nat)
    requires n <= |log|
    ensures n <= m <= |log|
    decreases |log| - n
  {
    if n < |log| && cursor.Some? && log[n].position <= cursor.value then BehindFrom(log, cursor, n + 1) else n
  }

  /** How many events of the log are at or before a cursor. */
  function Behind(log: Log, cursor: Option<nat>): (n: nat)
    ensures n <= |log|
  {
    BehindFrom(log, cursor, 0)
  }

  lemma {:induction false} BehindFromMeans(log: Log, cursor: Option<nat>, n: nat)
    requires n <= |log|
    ensures cursor.None? ==> BehindFrom(log, cursor, n) == n
    ensures cursor.Some? ==> forall i :: n <= i < BehindFrom(log, cursor, n) ==> log[i].position <= cursor.value
    ensures cursor.Some? && BehindFrom(log, cursor, n) < |log| ==> cursor.value < log[BehindFrom(log, cursor, n)].position
    decreases |log| - n
  {
    if n < |log| && cursor.Some? && log[n].position <= cursor.value {
      BehindFromMeans(log, cursor, n + 1);
    }
  }

  lemma BehindMeans(log: Log, cursor: Option<nat>)
    ensures cursor.None? ==> Behind(log, cursor) == 0
    ensures cursor.Some? ==> forall i :: 0 <= i < Behind(log, cursor) ==> log[i].position <= cursor.value
    ensures cursor.Some? && Behind(log, cursor) < |log| ==> cursor.value < log[Behind(log, cursor)].position
  {
    BehindFromMeans(log, cursor, 0);
  }

  datatype Page = Page(events: seq<Event>, nextCursor: Option<nat>)

  /**
   A forward page: a block of at most `limit` events next after the cursor, empty only if there are
   none. `size` and `bare` are the server's choices: how long a block, and whether `nextCursor` is left out.
   */
  function ReadPage(log: Log, cursor: Option<nat>, limit: nat, size: nat, bare: bool): (page: Page)
    requires limit > 0
    ensures |page.events| <= limit && Behind(log, cursor) + |page.events| <= |log|
    ensures page.events == log[Behind(log, cursor)..Behind(log, cursor) + |page.events|]
    ensures page.events == [] <==> Behind(log, cursor) == |log|
    ensures 1 <= size <= limit && Behind(log, cursor) + size <= |log| ==> |page.events| == size
    ensures NextAfter(page, cursor) && (bare ==> page.nextCursor.None?)
  {
    var from := Behind(log, cursor);
    var most := if |log| - from < limit then |log| - from else limit;
    var n := if size < 1 then (if most < 1 then most else 1) else if size < most then size else most;
    var events := log[from..from + n];
    Page(events, if bare then None else if events == [] then cursor else Some(events[n - 1].position))
  }

  /** `nextCursor` is left out, or names the last event of the page, or the old cursor when there is none. */
  predicate NextAfter(page: Page, cursor: Option<nat>) {
    page.nextCursor.Some? ==>
      page.nextCursor == if page.events == [] then cursor else Some(page.events[|page.events| - 1].position)
  }

  // ---------- the client ----------

  predicate IsTerminalEventFor(e: Event, runId: string) {
    !e.kind.OtherKind? && e.kind.runId == runId
  }

  /** The index of the run's first terminal event from `n` on, or the length if there is none. */
  function FirstTerminalFrom(events: seq<Event>, runId: string, n: nat): (k: nat)
    requires n <= |events|
    ensures n <= k <= |events|
    decreases |events| - n
  {
    if n < |events| && !IsTerminalEventFor(events[n], runId) then FirstTerminalFrom(events, runId, n + 1) else n
  }

  lemma {:induction false} FirstTerminalMeans(events: seq<Event>, runId: string, n: nat)
    requires n <= |events|
    ensures forall i :: n <= i < FirstTerminalFrom(events, runId, n) ==> !IsTerminalEventFor(events[i], runId)
    ensures FirstTerminalFrom(events, runId, n) < |events| ==>
              IsTerminalEventFor(events[FirstTerminalFrom(events, runId, n)], runId)
    decreases |events| - n
  {
    if n < |events| && !IsTerminalEventFor(events[n], runId) {
      FirstTerminalMeans(events, runId, n + 1);
    }
  }

  lemma FirstTerminalIs(events: seq<Event>, runId: string, k: nat)
    requires k <= |events| && (forall i :: 0 <= i < k ==> !IsTerminalEventFor(events[i], runId))
    requires k < |events| ==> IsTerminalEventFor(events[k], runId)
    ensures FirstTerminalFrom(events, runId, 0) == k
  {
    FirstTerminalMeans(events, runId, 0);
  }

  /** The run's own among the events from `start` up to `end`, which `onEvent` is called for. */
  function Own(events: seq<Event>, start: nat, end: nat, runId: string): seq<Event>
    requires start <= end <= |events|
    decreases end
  {
    if start == end then []
    else Own(events, start, end - 1, runId) + (if events[end - 1].joinsRun == Some(runId) then [events[end - 1]] else [])
  }

  /**
   What happens around one page read: what is appended before each request, how the attempts at each
   request end, and what the server answers. A page is a block of the log as `ReadPage` gives it, of any
   length the limit allows; what is said of the session and of the run may be true or not.
   */
  datatype Round = Round(
    beforePage: seq<Draft>, page: nat -> Attempt, pageSize: nat, bareCursor: bool,
    beforeSession: seq<Draft>, session: nat -> Attempt, summary: Option<ApiRunStatus>, stopped: bool,
    beforeRun: seq<Draft>, run: nat -> Attempt, runStatus: ApiRunStatus)

  datatype WaitError = Request(error: RequestError) | InvalidLimit | ExecutionStopped | NotTerminalAfterEvent

  datatype WaitState = WaitState(log: Log, cursor: Option<nat>, delivered: seq<Event>)

  datatype Wait =
    | Waiting(state: WaitState)
    | Returned(state: WaitState, status: ApiRunStatus)
    | Rejected(state: WaitState, error: WaitError)

  predicate LimitHonoured(limit: Option<nat>) {
    limit.None? || 1 <= limit.value <= MAX_EVENT_PAGE_LIMIT
  }

  function PageLimit(limit: Option<nat>): nat {
    if limit.None? then DEFAULT_EVENT_PAGE_LIMIT else limit.value
  }

  /** How many events of a page are gone past: up to the terminal one, or all. */
  function Taken(page: Page, runId: string): (n: nat)
    ensures n <= |page.events|
    ensures page.events != [] ==> n > 0
  {
    var t := FirstTerminalFrom(page.events, runId, 0);
    if t < |page.events| then t + 1 else t
  }

  /** The state once a page is dealt with: it stops at the terminal event, or goes on after the page. */
  function Consume(state: WaitState, page: Page, runId: string): WaitState {
    var n := Taken(page, runId);
    WaitState(
      state.log,
      if FirstTerminalFrom(page.events, runId, 0) == |page.events| && page.nextCursor.Some? then page.nextCursor
      else if n > 0 then Some(page.events[n - 1].position) else state.cursor,
      state.delivered + Own(page.events, 0, n, runId))
  }

  /** `session/runs/read` after the terminal event. */
  function ReadFinishedRun(state: WaitState, round: Round): Wait {
    var now := state.(log := Append(state.log, round.beforeRun));
    if Retried(round.run).Err? then Rejected(now, Request(Retried(round.run).error))
    else if round.runStatus.Ended() then Returned(now, round.runStatus)
    else Rejected(now, NotTerminalAfterEvent)
  }

  /** After an empty page: ask for the session, and for the run unless the session shows it going on. */
  function AskState(state: WaitState, round: Round): Wait {
    var now := state.(log := Append(state.log, round.beforeSession));
    if Retried(round.session).Err? then Rejected(now, Request(Retried(round.session).error))
    else if round.summary.None? || round.summary.value.Ended() then
      var later := now.(log := Append(now.log, round.beforeRun));
      if Retried(round.run).Err? then Rejected(later, Request(Retried(round.run).error))
      else if round.runStatus.Ended() then Returned(later, round.runStatus)
      else if round.stopped then Rejected(later, ExecutionStopped)
      else Waiting(later)
    else if round.stopped then Rejected(now, ExecutionStopped)
    else Waiting(now)
  }

  /** What a page leads to: the end of the wait, a question about the run, or the next page. */
  function DealWithPage(state: WaitState, page: Page, round: Round, runId: string): Wait {
    var next := Consume(state, page, runId);
    if FirstTerminalFrom(page.events, runId, 0) < |page.events| then ReadFinishedRun(next, round)
    else if page.events == [] then AskState(next, round)
    else Waiting(next)
  }

  /** The page of a round: what the server answers once the first appends of the round are in the log. */
  function PageRead(state: WaitState, round: Round, limit: Option<nat>): Page
    requires LimitHonoured(limit)
  {
    ReadPage(Append(state.log, round.beforePage), state.cursor, PageLimit(limit), round.pageSize, round.bareCursor)
  }

  function OneRound(state: WaitState, round: Round, runId: string, limit: Option<nat>): Wait {
    var now := state.(log := Append(state.log, round.beforePage));
    if Retried(round.page).Err? then Rejected(now, Request(Retried(round.page).error))
    else if !LimitHonoured(limit) then Rejected(now, InvalidLimit)
    else
      DealWithPage(now, PageRead(state, round, limit), round, runId)
  }

  /** The protocol over the first `k` rounds; it stops at the first that returns or fails. */
  function AwaitTo(state: WaitState, rounds: seq<Round>, k: nat, runId: string, limit: Option<nat>): Wait
    requires k <= |rounds|
  {
    if k == 0 then Waiting(state)
    else
      var before := AwaitTo(state, rounds, k - 1, runId, limit);
      if before.Waiting? then OneRound(before.state, rounds[k - 1], runId, limit) else before
  }

  function AwaitAll(state: WaitState, rounds: seq<Round>, runId: string, limit: Option<nat>): Wait {
    AwaitTo(state, rounds, |rounds|, runId, limit)
  }

  lemma {:induction false} OwnJoins(log: Log, a: nat, b: nat, c: nat, runId: string)
    requires a <= b <= c <= |log|
    ensures Own(log, a, b, runId) + Own(log, b, c, runId) == Own(log, a, c, runId)
    decreases c
  {
    if b < c {
      OwnJoins(log, a, b, c - 1, runId);
      var last := if log[c - 1].joinsRun == Some(runId) then [log[c - 1]] else [];
      assert Own(log, a, b, runId) + (Own(log, b, c - 1, runId) + last) == Own(log, a, b, runId) + Own(log, b, c - 1, runId) + last;
    }
  }

  /** The same events elsewhere, `shift` later, have the same of the run's own. */
  lemma {:induction false} OwnShifts(part: seq<Event>, log: Log, start: nat, end: nat, shift: nat, runId: string)
    requires start <= end <= |part| && end + shift <= |log|
    requires forall i :: start <= i < end ==> part[i] == log[i + shift]
    ensures Own(part, start, end, runId) == Own(log, start + shift, end + shift, runId)
    decreases end
  {
    if start < end {
      OwnShifts(part, log, start, end - 1, shift, runId);
      assert part[end - 1] == log[end - 1 + shift];
    }
  }

  lemma {:induction false} StoppedStays(state: WaitState, rounds: seq<Round>, k: nat, n: nat, runId: string, limit: Option<nat>)
    requires k <= n <= |rounds| && !AwaitTo(state, rounds, k, runId, limit).Waiting?
    ensures AwaitTo(state, rounds, n, runId, limit) == AwaitTo(state, rounds, k, runId, limit)
  {
    hide OneRound;
    if k < n {
      StoppedStays(state, rounds, k, n - 1, runId, limit);
    }
  }

  /** The loop over one page: the events up to the terminal one, each to `onEvent` if it is the run's. */
  method ReadEvents(state: WaitState, page: Page, runId: string) returns (next: WaitState, finished: bool)
    ensures finished <==> FirstTerminalFrom(page.events, runId, 0) < |page.events|
    ensures finished <==> exists i ::
              0 <= i < |page.events| && page.events[i].kind in [RunCompletedEvent(runId), RunFailedEvent(runId), RunCancelledEvent(runId)]
    ensures next == Consume(state, page, runId)
  {
    var events, cursor, delivered := page.events, state.cursor, state.delivered;
    finished := false;
    var k := 0;
    while k < |events|
      invariant 0 <= k <= |events|
      invariant forall i :: 0 <= i < k ==> !IsTerminalEventFor(events[i], runId)
      invariant delivered == state.delivered + Own(events, 0, k, runId)
      invariant cursor == if k == 0 then state.cursor else Some(events[k - 1].position)
      invariant !finished
    {
      var event := events[k];
      cursor := Some(event.position);
      if event.joinsRun == Some(runId) {
        delivered := delivered + [event];
      }
      if IsTerminalEventFor(event, runId) {
        finished := true;
        break;
      }
      k := k + 1;
    }
    FirstTerminalIs(events, runId, k);
    if !finished && page.nextCursor.Some? {
      cursor := page.nextCursor;
    }
    next := WaitState(state.log, cursor, delivered);
  }

  method FinishWait(state: WaitState, round: Round) returns (wait: Wait)
    ensures wait == ReadFinishedRun(state, round)
  {
    var now := state.(log := Append(state.log, round.beforeRun));
    var reply, issued, slept := RetryRequest(round.run);
    if reply.Err? {
      return Rejected(now, Request(reply.error));
    }
    if !round.runStatus.Ended() {
      return Rejected(now, NotTerminalAfterEvent);
    }
    wait := Returned(now, round.runStatus);
  }

  method AskServer(state: WaitState, round: Round) returns (wait: Wait)
    ensures wait == AskState(state, round)
  {
    var now := state.(log := Append(state.log, round.beforeSession));
    var reply, issued, slept := RetryRequest(round.session);
    if reply.Err? {
      return Rejected(now, Request(reply.error));
    }
    if round.summary.None? || round.summary.value.Ended() {
      now := now.(log := Append(now.log, round.beforeRun));
      reply, issued, slept := RetryRequest(round.run);
      if reply.Err? {
        return Rejected(now, Request(reply.error));
      }
      if round.runStatus.Ended() {
        return Returned(now, round.runStatus);
      }
    }
    if round.stopped {
      return Rejected(now, ExecutionStopped);
    }
    wait := Waiting(now);
  }

  /** The body of the wait: one page, and the reads that may follow it. */
  method AwaitRound(state: WaitState, round: Round, runId: string, limit: Option<nat>) returns (wait: Wait)
    ensures wait == OneRound(state, round, runId, limit)
  {
    var now := state.(log := Append(state.log, round.beforePage));
    var reply, issued, slept := RetryRequest(round.page);
    if reply.Err? {
      return Rejected(now, Request(reply.error));
    }
    if !LimitHonoured(limit) {
      return Rejected(now, InvalidLimit);
    }
    var page := ReadPage(now.log, now.cursor, PageLimit(limit), round.pageSize, round.bareCursor);
    var next, finished := ReadEvents(now, page, runId);
    if finished {
      wait := FinishWait(next, round);
    } else if page.events == [] {
      wait := AskServer(next, round);
    } else {
      wait := Waiting(next);
    }
  }

  /** `awaitRun` against a finite list of rounds; `Waiting` when they run out before it is done. */
  method AwaitRun(log: Log, rounds: seq<Round>, runId: string, after: Option<nat>, limit: Option<nat>) returns (wait: Wait)
    ensures wait == AwaitAll(WaitState(log, after, []), rounds, runId, limit)
  {
    hide OneRound;
    ghost var start := WaitState(log, after, []);
    wait := Waiting(WaitState(log, after, []));
    for k := 0 to |rounds|
      invariant wait.Waiting? && AwaitTo(start, rounds, k, runId, limit) == wait
    {
      wait := AwaitRound(wait.state, rounds[k], runId, limit);
      if !wait.Waiting? {
        StoppedStays(start, rounds, k + 1, |rounds|, runId, limit);
        return;
      }
    }
  }

  // ---------- exactly-once delivery, for every run of the protocol ----------

  ghost predicate NoTerminal(log: Log, from: nat, to: nat, runId: string)
    requires to <= |log|
  {
    forall i :: from <= i < to ==> !IsTerminalEventFor(log[i], runId)
  }

  /**
   The reader went past the events of the log from `after` up to its cursor, which names the last of
   them, and `onEvent` saw exactly the run's own of these, in order and once.
   */
  ghost predicate OnTrack(state: WaitState, after: Option<nat>, runId: string) {
    var a, c := Behind(state.log, after), Behind(state.log, state.cursor);
    && Increasing(state.log)
    && a <= c
    && (if a == c then state.cursor == after else state.cursor == Some(state.log[c - 1].position))
    && state.delivered == Own(state.log, a, c, runId)
  }

  /** Appends put nothing behind a cursor that is not past the head already. */
  lemma BehindExtends(log: Log, longer: Log, cursor: Option<nat>)
    requires log <= longer
    ensures Behind(log, cursor) < |log| ==> Behind(longer, cursor) == Behind(log, cursor)
    ensures Behind(log, cursor) == |log| ==> Behind(longer, cursor) >= |log|
  {
    var m, n := Behind(log, cursor), Behind(longer, cursor);
    BehindMeans(log, cursor);
    BehindMeans(longer, cursor);
    assert n < |log| ==> longer[n] == log[n];
    assert m < |log| ==> longer[m] == log[m];
  }

  /** A cursor that names an event of the log has just the events up to it behind. */
  lemma CursorAt(log: Log, n: nat)
    requires Increasing(log) && 0 < n <= |log|
    ensures Behind(log, Some(log[n - 1].position)) == n
  {
    var m := Behind(log, Some(log[n - 1].position));
    BehindMeans(log, Some(log[n - 1].position));
    assert m < n - 1 ==> Earlier(log, m, n - 1);
    assert m > n ==> Earlier(log, n - 1, n);
  }

  /** A reader that has gone past something keeps its place in a longer log. */
  lemma MarksHold(state: WaitState, after: Option<nat>, runId: string, log: Log)
    requires OnTrack(state, after, runId) && state.log <= log && Increasing(log)
    requires Behind(state.log, after) < Behind(state.log, state.cursor)
    ensures Behind(log, after) == Behind(state.log, after) && Behind(log, state.cursor) == Behind(state.log, state.cursor)
  {
    hide Behind, Increasing, Own;
    var c := Behind(state.log, state.cursor);
    BehindExtends(state.log, log, after);
    assert log[c - 1] == state.log[c - 1];
    CursorAt(log, c);
  }

  lemma TrackHolds(state: WaitState, after: Option<nat>, runId: string, log: Log)
    requires OnTrack(state, after, runId) && state.log <= log && Increasing(log)
    requires Behind(state.log, after) < Behind(state.log, state.cursor)
    ensures OnTrack(state.(log := log), after, runId)
  {
    hide Behind, Increasing, Own;
    MarksHold(state, after, runId, log);
    var a, c := Behind(state.log, after), Behind(state.log, state.cursor);
    assert log[c - 1] == state.log[c - 1];
    OwnShifts(state.log, log, a, c, 0, runId);
  }

  /** A reader that has gone past nothing has still gone past nothing. */
  lemma TrackMoves(state: WaitState, after: Option<nat>, runId: string, log: Log)
    requires OnTrack(state, after, runId) && Increasing(log)
    requires Behind(state.log, after) == Behind(state.log, state.cursor)
    ensures state.cursor == after && OnTrack(state.(log := log), after, runId)
  {
    hide Behind, Increasing;
  }

  lemma AppendKeepsTrack(state: WaitState, after: Option<nat>, runId: string, log: Log)
    requires OnTrack(state, after, runId) && state.log <= log && Increasing(log)
    ensures OnTrack(state.(log := log), after, runId)
    ensures var a, c := Behind(state.log, after), Behind(state.log, state.cursor);
            a < c ==> Behind(log, after) == a && Behind(log, state.cursor) == c
    ensures var a, c := Behind(log, after), Behind(log, state.cursor);
            a < c ==> Behind(state.log, after) == a && Behind(state.log, state.cursor) == c
  {
    if Behind(state.log, after) < Behind(state.log, state.cursor) {
      hide Behind, Increasing, Own, OnTrack;
      MarksHold(state, after, runId, log);
      TrackHolds(state, after, runId, log);
    } else {
      TrackMoves(state, after, runId, log);
    }
  }

  lemma ConsumedCursor(state: WaitState, page: Page, runId: string)
    requires NextAfter(page, state.cursor)
    ensures var n, cursor := Taken(page, runId), Consume(state, page, runId).cursor;
            cursor == if n == 0 then state.cursor else Some(page.events[n - 1].position)
    ensures Consume(state, page, runId).delivered == state.delivered + Own(page.events, 0, Taken(page, runId), runId)
  {
  }

  /** Going past the next `n` events, with the run's own of them delivered, keeps the reader on track. */
  lemma AdvanceKeepsTrack(state: WaitState, after: Option<nat>, runId: string, n: nat)
    requires OnTrack(state, after, runId)
    requires 0 < n <= |state.log| - Behind(state.log, state.cursor)
    ensures var log, c := state.log, Behind(state.log, state.cursor);
            var cursor := Some(log[c + n - 1].position);
            Behind(log, cursor) == c + n && OnTrack(WaitState(log, cursor, state.delivered + Own(log, c, c + n, runId)), after, runId)
  {
    CursorAt(state.log, Behind(state.log, state.cursor) + n);
    OwnJoins(state.log, Behind(state.log, after), Behind(state.log, state.cursor), Behind(state.log, state.cursor) + n, runId);
  }

  /** A page that is the block of events next after the cursor. */
  predicate IsNextBlock(state: WaitState, page: Page) {
    var c := Behind(state.log, state.cursor);
    && NextAfter(page, state.cursor)
    && c + |page.events| <= |state.log|
    && page.events == state.log[c..c + |page.events|]
  }

  lemma TakenFromLog(state: WaitState, page: Page, runId: string)
    requires IsNextBlock(state, page)
    ensures var n, c, next := Taken(page, runId), Behind(state.log, state.cursor), Consume(state, page, runId);
            c + n <= |state.log|
            && next == if n == 0 then state
                       else WaitState(state.log, Some(state.log[c + n - 1].position), state.delivered + Own(state.log, c, c + n, runId))
  {
    var n, c := Taken(page, runId), Behind(state.log, state.cursor);
    ConsumedCursor(state, page, runId);
    OwnShifts(page.events, state.log, 0, n, c, runId);
  }

  lemma ConsumeKeepsTrack(state: WaitState, page: Page, after: Option<nat>, runId: string)
    requires OnTrack(state, after, runId) && IsNextBlock(state, page)
    ensures OnTrack(Consume(state, page, runId), after, runId)
    ensures Behind(state.log, Consume(state, page, runId).cursor) == Behind(state.log, state.cursor) + Taken(page, runId)
  {
    TakenFromLog(state, page, runId);
    if Taken(page, runId) > 0 {
      AdvanceKeepsTrack(state, after, runId, Taken(page, runId));
    }
  }

  /** Between rounds: none of the events gone past is terminal. */
  ghost predicate GoingOn(state: WaitState, after: Option<nat>, runId: string) {
    && OnTrack(state, after, runId)
    && NoTerminal(state.log, Behind(state.log, after), Behind(state.log, state.cursor), runId)
  }

  /** At the end: only the last event gone past may be terminal. */
  ghost predicate Stopped(state: WaitState, after: Option<nat>, runId: string) {
    var a, c := Behind(state.log, after), Behind(state.log, state.cursor);
    && OnTrack(state, after, runId)
    && (a < c ==> NoTerminal(state.log, a, c - 1, runId))
  }

  ghost predicate Delivers(wait: Wait, after: Option<nat>, runId: string) {
    && (if wait.Waiting? then GoingOn(wait.state, after, runId) else Stopped(wait.state, after, runId))
    && (wait.Returned? ==> wait.status.Ended())
  }

  lemma AppendGoesOn(state: WaitState, after: Option<nat>, runId: string, log: Log)
    requires GoingOn(state, after, runId) && state.log <= log && Increasing(log)
    ensures GoingOn(state.(log := log), after, runId) && Stopped(state.(log := log), after, runId)
  {
    AppendKeepsTrack(state, after, runId, log);
  }

  lemma AskedDelivers(state: WaitState, round: Round, after: Option<nat>, runId: string)
    requires GoingOn(state, after, runId)
    ensures Delivers(AskState(state, round), after, runId)
  {
    hide Retried, Own;
    var log := Append(state.log, round.beforeSession);
    AppendGoesOn(state, after, runId, log);
    AppendGoesOn(state.(log := log), after, runId, Append(log, round.beforeRun));
  }

  lemma FinishedDelivers(state: WaitState, round: Round, after: Option<nat>, runId: string)
    requires Stopped(state, after, runId)
    ensures Delivers(ReadFinishedRun(state, round), after, runId)
  {
    AppendKeepsTrack(state, after, runId, Append(state.log, round.beforeRun));
  }

  /** Going past a page meets no terminal event, but for the one it may stop at. */
  lemma PageDelivers(state: WaitState, page: Page, after: Option<nat>, runId: string)
    requires GoingOn(state, after, runId) && IsNextBlock(state, page)
    ensures var next := Consume(state, page, runId);
            if FirstTerminalFrom(page.events, runId, 0) < |page.events| then Stopped(next, after, runId)
            else GoingOn(next, after, runId)
  {
    ConsumeKeepsTrack(state, page, after, runId);
    FirstTerminalMeans(page.events, runId, 0);
    var c := Behind(state.log, state.cursor);
    assert forall i :: c <= i < c + |page.events| ==> state.log[i] == page.events[i - c];
  }

  lemma DealtDelivers(state: WaitState, page: Page, round: Round, after: Option<nat>, runId: string)
    requires GoingOn(state, after, runId) && IsNextBlock(state, page)
    ensures Delivers(DealWithPage(state, page, round, runId), after, runId)
  {
    PageDelivers(state, page, after, runId);
    var next := Consume(state, page, runId);
    if FirstTerminalFrom(page.events, runId, 0) < |page.events| {
      FinishedDelivers(next, round, after, runId);
    } else if page.events == [] {
      AskedDelivers(next, round, after, runId);
    }
  }

  /** The page of a round is the block of the log behind the cursor. */
  lemma PageIsBlock(state: WaitState, round: Round, limit: Option<nat>)
    requires LimitHonoured(limit)
    ensures IsNextBlock(state.(log := Append(state.log, round.beforePage)), PageRead(state, round, limit))
  {
    hide Behind, Increasing;
  }

  lemma PageReadIsNext(state: WaitState, round: Round, limit: Option<nat>, after: Option<nat>, runId: string)
    requires GoingOn(state, after, runId)
    ensures var now := state.(log := Append(state.log, round.beforePage));
            GoingOn(now, after, runId) && Stopped(now, after, runId)
            && (LimitHonoured(limit) ==> IsNextBlock(now, PageRead(state, round, limit)))
  {
    assert Increasing(state.log);
    hide GoingOn, Stopped, Increasing, IsNextBlock, PageRead;
    AppendGoesOn(state, after, runId, Append(state.log, round.beforePage));
    if LimitHonoured(limit) {
      PageIsBlock(state, round, limit);
    }
  }

  lemma RoundDelivers(state: WaitState, round: Round, runId: string, limit: Option<nat>, after: Option<nat>)
    requires GoingOn(state, after, runId)
    ensures Delivers(OneRound(state, round, runId, limit), after, runId)
  {
    hide Retried, GoingOn, Stopped, IsNextBlock, PageRead, Append, DealWithPage;
    var now := state.(log := Append(state.log, round.beforePage));
    PageReadIsNext(state, round, limit, after, runId);
    if Retried(round.page).Ok? && LimitHonoured(limit) {
      DealtDelivers(now, PageRead(state, round, limit), round, after, runId);
    }
  }

  lemma {:induction false} RoundsDeliver(state: WaitState, rounds: seq<Round>, k: nat, runId: string, after: Option<nat>, limit: Option<nat>)
    requires k <= |rounds| && GoingOn(state, after, runId)
    ensures Delivers(AwaitTo(state, rounds, k, runId, limit), after, runId)
  {
    hide OneRound;
    if k > 0 {
      RoundsDeliver(state, rounds, k - 1, runId, after, limit);
      var before := AwaitTo(state, rounds, k - 1, runId, limit);
      if before.Waiting? {
        RoundDelivers(before.state, rounds[k - 1], runId, limit, after);
      }
    }
  }

  lemma WaitDelivers(log: Log, rounds: seq<Round>, runId: string, after: Option<nat>, limit: Option<nat>)
    requires Increasing(log)
    ensures Delivers(AwaitAll(WaitState(log, after, []), rounds, runId, limit), after, runId)
  {
    hide OneRound;
    RoundsDeliver(WaitState(log, after, []), rounds, |rounds|, runId, after, limit);
  }

  lemma {:induction false} SameRoundsSameWait(state: WaitState, a: seq<Round>, b: seq<Round>, k: nat, runId: string, limit: Option<nat>)
    requires k <= |a| && k <= |b| && forall i :: 0 <= i < k ==> a[i] == b[i]
    ensures AwaitTo(state, a, k, runId, limit) == AwaitTo(state, b, k, runId, limit)
  {
    hide OneRound;
    if k > 0 {
      SameRoundsSameWait(state, a, b, k - 1, runId, limit);
    }
  }

  lemma {:induction false} AwaitGoesOnTo(state: WaitState, first: seq<Round>, more: seq<Round>, k: nat, runId: string, limit: Option<nat>)
    requires k <= |more| && AwaitAll(state, first, runId, limit).Waiting?
    ensures AwaitTo(state, first + more, |first| + k, runId, limit)
         == AwaitTo(AwaitAll(state, first, runId, limit).state, more, k, runId, limit)
  {
    hide OneRound;
    if k == 0 {
      SameRoundsSameWait(state, first, first + more, |first|, runId, limit);
    } else {
      AwaitGoesOnTo(state, first, more, k - 1, runId, limit);
      assert (first + more)[|first| + k - 1] == more[k - 1];
    }
  }

  /** The protocol over more rounds goes on from where it had come to. */
  lemma AwaitGoesOn(state: WaitState, first: seq<Round>, more: seq<Round>, runId: string, limit: Option<nat>)
    requires AwaitAll(state, first, runId, limit).Waiting?
    ensures AwaitAll(state, first + more, runId, limit)
         == AwaitAll(AwaitAll(state, first, runId, limit).state, more, runId, limit)
  {
    hide OneRound;
    AwaitGoesOnTo(state, first, more, |more|, runId, limit);
  }

  /** A reader that stopped saw its run's events up to its cursor, which is not past the first terminal one. */
  ghost predicate SawUpToCursor(state: WaitState, after: Option<nat>, runId: string) {
    var a, c := Behind(state.log, after), Behind(state.log, state.cursor);
    && a <= c <= FirstTerminalFrom(state.log, runId, a) + 1
    && state.delivered == Own(state.log, a, c, runId)
    && (if a < c then state.cursor == Some(state.log[c - 1].position) else state.cursor == after)
  }

  lemma StoppedSaw(state: WaitState, after: Option<nat>, runId: string)
    requires GoingOn(state, after, runId) || Stopped(state, after, runId)
    ensures SawUpToCursor(state, after, runId)
  {
    FirstTerminalMeans(state.log, runId, Behind(state.log, after));
  }

  /**
   Exactly-once delivery, over every interleaving: a wait that returns reports an ended run, and `onEvent`
   saw exactly the run's own events after `after` up to the returned cursor, in order and once. These go
   no further than the run's first terminal event after `after`, whatever else its page held.
   */
  lemma ExactlyOnce(log: Log, rounds: seq<Round>, runId: string, after: Option<nat>, limit: Option<nat>)
    requires Increasing(log)
    ensures var wait := AwaitAll(WaitState(log, after, []), rounds, runId, limit);
            SawUpToCursor(wait.state, after, runId) && (wait.Returned? ==> wait.status.Ended())
  {
    hide OneRound;
    WaitDelivers(log, rounds, runId, after, limit);
    StoppedSaw(AwaitAll(WaitState(log, after, []), rounds, runId, limit).state, after, runId);
  }

  lemma EmptyPageStops(state: WaitState, page: Page, round: Round, runId: string, after: Option<nat>)
    requires GoingOn(state, after, runId) && page.events == [] && IsNextBlock(state, page)
    requires DealWithPage(state, page, round, runId).Returned?
    ensures GoingOn(DealWithPage(state, page, round, runId).state, after, runId)
  {
    assert Increasing(state.log) && state.delivered + [] == state.delivered;
    hide Retried, GoingOn, Behind, Increasing;
    var log := Append(state.log, round.beforeSession);
    AppendGoesOn(state, after, runId, log);
    AppendGoesOn(state.(log := log), after, runId, Append(log, round.beforeRun));
  }

  lemma FullPageStops(state: WaitState, page: Page, round: Round, runId: string, after: Option<nat>)
    requires GoingOn(state, after, runId) && IsNextBlock(state, page) && page.events != []
    requires DealWithPage(state, page, round, runId).Returned?
    ensures var end := DealWithPage(state, page, round, runId).state;
            var a, c := Behind(end.log, after), Behind(end.log, end.cursor);
            a < c && IsTerminalEventFor(end.log[c - 1], runId)
  {
    ConsumeKeepsTrack(state, page, after, runId);
    FirstTerminalMeans(page.events, runId, 0);
    AppendKeepsTrack(Consume(state, page, runId), after, runId, Append(state.log, round.beforeRun));
  }

  /** How a wait that returned on this page left the reader: short of a terminal event, or just past one. */
  ghost predicate EndedOn(end: WaitState, page: Page, after: Option<nat>, runId: string) {
    var a, c := Behind(end.log, after), Behind(end.log, end.cursor);
    if page.events == [] then GoingOn(end, after, runId)
    else a < c && IsTerminalEventFor(end.log[c - 1], runId)
  }

  lemma PageStops(state: WaitState, page: Page, round: Round, runId: string, after: Option<nat>)
    requires GoingOn(state, after, runId) && IsNextBlock(state, page) && DealWithPage(state, page, round, runId).Returned?
    ensures EndedOn(DealWithPage(state, page, round, runId).state, page, after, runId)
  {
    if page.events == [] {
      EmptyPageStops(state, page, round, runId, after);
    } else {
      FullPageStops(state, page, round, runId, after);
    }
  }

  lemma ReturnedByPage(state: WaitState, round: Round, runId: string, limit: Option<nat>)
    requires OneRound(state, round, runId, limit).Returned?
    ensures LimitHonoured(limit)
    ensures var now := state.(log := Append(state.log, round.beforePage));
            OneRound(state, round, runId, limit) == DealWithPage(now, PageRead(state, round, limit), round, runId)
  {
  }

  lemma RoundStops(state: WaitState, round: Round, runId: string, after: Option<nat>, limit: Option<nat>)
    requires GoingOn(state, after, runId) && OneRound(state, round, runId, limit).Returned?
    ensures LimitHonoured(limit)
    ensures EndedOn(OneRound(state, round, runId, limit).state, PageRead(state, round, limit), after, runId)
  {
    hide GoingOn, Stopped, IsNextBlock, PageRead, DealWithPage, EndedOn;
    var now := state.(log := Append(state.log, round.beforePage));
    ReturnedByPage(state, round, runId, limit);
    PageReadIsNext(state, round, limit, after, runId);
    PageStops(now, PageRead(state, round, limit), round, runId, after);
  }

  /**
   A wait that returns went up to and including the run's terminal event exactly when its last page held
   something. After an empty last page it returns on what `session/runs/read` says.
   */
  lemma SeesTerminalExactlyWhen(log: Log, rounds: seq<Round>, round: Round, runId: string, after: Option<nat>, limit: Option<nat>)
    requires Increasing(log) && LimitHonoured(limit)
    requires var before := AwaitAll(WaitState(log, after, []), rounds, runId, limit);
             before.Waiting? && OneRound(before.state, round, runId, limit).Returned?
    ensures var before := AwaitAll(WaitState(log, after, []), rounds, runId, limit);
            var end := AwaitAll(WaitState(log, after, []), rounds + [round], runId, limit).state;
            var t := FirstTerminalFrom(end.log, runId, Behind(end.log, after));
            PageRead(before.state, round, limit).events != [] <==> t < |end.log| && Behind(end.log, end.cursor) == t + 1
  {
    hide OneRound;
    var before := AwaitAll(WaitState(log, after, []), rounds, runId, limit);
    AwaitGoesOn(WaitState(log, after, []), rounds, [round], runId, limit);
    assert AwaitTo(before.state, [round], 0, runId, limit) == Waiting(before.state);
    var end := AwaitAll(WaitState(log, after, []), rounds + [round], runId, limit).state;
    WaitDelivers(log, rounds, runId, after, limit);
    WaitDelivers(log, rounds + [round], runId, after, limit);
    RoundStops(before.state, round, runId, after, limit);
    FirstTerminalMeans(end.log, runId, Behind(end.log, after));
  }

  const ANSWERED: nat -> Attempt := n => Answered

  const RUN_EVENT := Event(1, Some("run_1"), OtherKind)
  const LAST_EVENT := Event(2, Some("run_1"), RunCompletedEvent("run_1"))

  /** A run that ends between the empty page and the read of its state. */
  const LATE_END := Round([], ANSWERED, 1, false, [Draft(0, Some("run_1"), RunCompletedEvent("run_1"))], ANSWERED,
                          Some(ApiRunStatus.RunCompleted), false, [], ANSWERED, ApiRunStatus.RunCompleted)

  lemma LateEndAnswers(delivered: seq<Event>)
    ensures AskState(WaitState([RUN_EVENT], Some(1), delivered), LATE_END)
         == Returned(WaitState([RUN_EVENT, LAST_EVENT], Some(1), delivered), ApiRunStatus.RunCompleted)
  {
    assert Retried(ANSWERED).Ok?;
    var drafts := LATE_END.beforeSession;
    assert [RUN_EVENT] + [LAST_EVENT] == [RUN_EVENT, LAST_EVENT];
    assert Append([RUN_EVENT], drafts) == Append([RUN_EVENT, LAST_EVENT], drafts[1..]);
  }

  /** A wait that resumes after the run's first event then returns, and `onEvent` never saw the run's last one. */
  lemma LateEndIsNotSeen()
    ensures AwaitAll(WaitState([RUN_EVENT], Some(1), []), [LATE_END], "run_1", None)
         == Returned(WaitState([RUN_EVENT, LAST_EVENT], Some(1), []), ApiRunStatus.RunCompleted)
    ensures Own([RUN_EVENT, LAST_EVENT], 1, 2, "run_1") == [LAST_EVENT] && IsTerminalEventFor(LAST_EVENT, "run_1")
  {
    var start := WaitState([RUN_EVENT], Some(1), []);
    assert Own([RUN_EVENT, LAST_EVENT], 1, 1, "run_1") == [];
    assert Retried(ANSWERED).Ok?;
    CursorAt([RUN_EVENT], 1);
    assert Append([RUN_EVENT], []) == [RUN_EVENT];
    assert PageRead(start, LATE_END, None).events == [];
    LateEndAnswers([]);
    assert AwaitTo(start, [LATE_END], 0, "run_1", None) == Waiting(start);
  }

  // ---------- and it ends ----------

  /** The round's read of the run, if it comes to it, is answered and says that the run has ended. */
  predicate ReadsEnded(round: Round) {
    Retried(round.run).Ok? && round.runStatus.Ended()
  }

  lemma PageNears(state: WaitState, page: Page, round: Round, runId: string, after: Option<nat>, t: nat)
    requires GoingOn(state, after, runId) && IsNextBlock(state, page) && page.events != []
    requires Behind(state.log, state.cursor) <= t < |state.log| && IsTerminalEventFor(state.log[t], runId)
    requires NoTerminal(state.log, Behind(state.log, state.cursor), t, runId)
    ensures var wait := DealWithPage(state, page, round, runId);
            && state.log <= wait.state.log
            && (if wait.Waiting? then Behind(state.log, state.cursor) < Behind(wait.state.log, wait.state.cursor) <= t
                else wait.state.cursor == Some(state.log[t].position) && (wait.Returned? <==> ReadsEnded(round)))
  {
    hide Retried;
    ConsumeKeepsTrack(state, page, after, runId);
    FirstTerminalMeans(page.events, runId, 0);
    var c, k := Behind(state.log, state.cursor), FirstTerminalFrom(page.events, runId, 0);
    assert t - c < |page.events| ==> page.events[t - c] == state.log[t];
    assert k < |page.events| ==> page.events[k] == state.log[c + k];
  }

  lemma RoundNears(state: WaitState, round: Round, runId: string, after: Option<nat>, limit: Option<nat>, t: nat)
    requires GoingOn(state, after, runId) && LimitHonoured(limit) && Retried(round.page).Ok?
    requires Behind(state.log, state.cursor) <= t < |state.log| && IsTerminalEventFor(state.log[t], runId)
    requires NoTerminal(state.log, Behind(state.log, state.cursor), t, runId)
    ensures var wait := OneRound(state, round, runId, limit);
            && state.log <= wait.state.log
            && (if wait.Waiting? then Behind(state.log, state.cursor) < Behind(wait.state.log, wait.state.cursor) <= t
                else wait.state.cursor == Some(state.log[t].position) && (wait.Returned? <==> ReadsEnded(round)))
  {
    hide Retried, Own;
    var now := state.(log := Append(state.log, round.beforePage));
    BehindExtends(state.log, now.log, state.cursor);
    AppendGoesOn(state, after, runId, now.log);
    PageNears(now, PageRead(state, round, limit), round, runId, after, t);
  }

  /** The first terminal event after `after` is still the first ahead of a reader that did not come to it. */
  lemma TerminalIsAhead(log: Log, state: WaitState, runId: string, after: Option<nat>)
    requires log <= state.log && FirstTerminalFrom(log, runId, Behind(log, after)) < |log|
    requires Behind(log, after) <= Behind(state.log, state.cursor)
    ensures var t := FirstTerminalFrom(log, runId, Behind(log, after));
            && state.log[t] == log[t] && IsTerminalEventFor(state.log[t], runId)
            && NoTerminal(state.log, Behind(state.log, state.cursor), t, runId)
  {
    FirstTerminalMeans(log, runId, Behind(log, after));
    var t := FirstTerminalFrom(log, runId, Behind(log, after));
    assert forall i :: 0 <= i <= t ==> state.log[i] == log[i];
  }

  /** After `n` rounds a wait is `n` events nearer its run's terminal event, or has stopped at its cursor. */
  ghost predicate NearedTerminal(state: WaitState, wait: Wait, n: nat, runId: string) {
    var c := Behind(state.log, state.cursor);
    var t := FirstTerminalFrom(state.log, runId, c);
    && t < |state.log| && state.log <= wait.state.log
    && (if wait.Waiting? then c + n <= Behind(wait.state.log, wait.state.cursor) <= t
        else wait.state.cursor == Some(state.log[t].position))
  }

  /** The wait stops in this round, and returns exactly when the round's read of the run says that it has ended. */
  ghost predicate StopsIn(state: WaitState, rounds: seq<Round>, at: int, runId: string, limit: Option<nat>) {
    && 0 <= at < |rounds|
    && AwaitTo(state, rounds, at, runId, limit).Waiting?
    && !AwaitTo(state, rounds, at + 1, runId, limit).Waiting?
    && (AwaitTo(state, rounds, at + 1, runId, limit).Returned? <==> ReadsEnded(rounds[at]))
  }

  lemma {:induction false} NearsTerminal(state: WaitState, more: seq<Round>, k: nat, runId: string, after: Option<nat>, limit: Option<nat>)
    requires GoingOn(state, after, runId) && LimitHonoured(limit)
    requires FirstTerminalFrom(state.log, runId, Behind(state.log, state.cursor)) < |state.log|
    requires k <= |more| && forall r :: r in more ==> Retried(r.page).Ok?
    ensures NearedTerminal(state, AwaitTo(state, more, k, runId, limit), k, runId)
    ensures !AwaitTo(state, more, k, runId, limit).Waiting? ==> exists at :: at < k && StopsIn(state, more, at, runId, limit)
  {
    hide OneRound, GoingOn, Retried;
    if k > 0 {
      NearsTerminal(state, more, k - 1, runId, after, limit);
      var before := AwaitTo(state, more, k - 1, runId, limit);
      if before.Waiting? {
        RoundsDeliver(state, more, k - 1, runId, after, limit);
        TerminalIsAhead(state.log, before.state, runId, state.cursor);
        RoundNears(before.state, more[k - 1], runId, after, limit,
                   FirstTerminalFrom(state.log, runId, Behind(state.log, state.cursor)));
        if !AwaitTo(state, more, k, runId, limit).Waiting? {
          assert StopsIn(state, more, k - 1, runId, limit);
        }
      }
    }
  }

  /** The round a wait stops in comes no later than there are events up to the terminal one. */
  lemma StopsInTime(state: WaitState, more: seq<Round>, runId: string, after: Option<nat>, limit: Option<nat>) returns (at: nat)
    requires GoingOn(state, after, runId) && LimitHonoured(limit)
    requires var c := Behind(state.log, state.cursor);
             FirstTerminalFrom(state.log, runId, c) < |state.log| && |more| > FirstTerminalFrom(state.log, runId, c) - c
    requires forall r :: r in more ==> Retried(r.page).Ok?
    ensures at <= FirstTerminalFrom(state.log, runId, Behind(state.log, state.cursor)) - Behind(state.log, state.cursor)
    ensures StopsIn(state, more, at, runId, limit)
    ensures AwaitAll(state, more, runId, limit) == AwaitTo(state, more, at + 1, runId, limit)
  {
    hide OneRound, GoingOn, Retried;
    NearsTerminal(state, more, |more|, runId, after, limit);
    at :| at < |more| && StopsIn(state, more, at, runId, limit);
    NearsTerminal(state, more, at, runId, after, limit);
    StoppedStays(state, more, at + 1, |more|, runId, limit);
  }

  /**
   Whenever the run's terminal event comes into the log ahead of the reader, after any rounds of waiting, and
   page reads are answered from then on, each round goes past an event at least. So the wait stops within as
   many further rounds as there are events up to it, with its cursor, whatever is appended meanwhile, and it
   returns exactly when the round it stops in is told that the run has ended.
   */
  lemma ReturnsAtTerminal(log: Log, first: seq<Round>, more: seq<Round>, runId: string, after: Option<nat>, limit: Option<nat>)
    returns (at: nat)
    requires Increasing(log) && LimitHonoured(limit)
    requires AwaitAll(WaitState(log, after, []), first, runId, limit).Waiting?
    requires var mid := AwaitAll(WaitState(log, after, []), first, runId, limit).state;
             FirstTerminalFrom(mid.log, runId, Behind(mid.log, mid.cursor)) < |mid.log|
    requires forall r :: r in more ==> Retried(r.page).Ok?
    ensures var mid := AwaitAll(WaitState(log, after, []), first, runId, limit).state;
            var wait := AwaitAll(WaitState(log, after, []), first + more, runId, limit);
            var c := Behind(mid.log, mid.cursor);
            var t := FirstTerminalFrom(mid.log, runId, c);
            && NearedTerminal(mid, wait, |more|, runId)
            && (|more| > t - c ==>
                  && at <= t - c && StopsIn(mid, more, at, runId, limit)
                  && wait == AwaitTo(mid, more, at + 1, runId, limit)
                  && wait.state.cursor == Some(mid.log[t].position)
                  && (wait.Returned? <==> ReadsEnded(more[at])))
  {
    hide OneRound, Retried, GoingOn;
    var mid := AwaitAll(WaitState(log, after, []), first, runId, limit).state;
    WaitDelivers(log, first, runId, after, limit);
    AwaitGoesOn(WaitState(log, after, []), first, more, runId, limit);
    NearsTerminal(mid, more, |more|, runId, after, limit);
    at := 0;
    if |more| > FirstTerminalFrom(mid.log, runId, Behind(mid.log, mid.cursor)) - Behind(mid.log, mid.cursor) {
      at := StopsInTime(mid, more, runId, after, limit);
    }
  }

  /** How many events are appended before the page reads of the first `k` rounds. */
  function AddedTo(rounds: seq<Round>, k: nat): nat
    requires k <= |rounds|
  {
    if k == 0 then 0 else AddedTo(rounds, k - 1) + |rounds[k - 1].beforePage|
  }

  /** The run has ended, and every request is answered. */
  predicate EndedBefore(round: Round) {
    && Retried(round.page).Ok? && Retried(round.session).Ok? && ReadsEnded(round)
    && (round.summary.None? || round.summary.value.Ended())
  }

  /** Events of the log still ahead of the reader. */
  function Ahead(state: WaitState): nat {
    |state.log| - Behind(state.log, state.cursor)
  }

  lemma PageSettles(state: WaitState, page: Page, round: Round, runId: string, after: Option<nat>)
    requires GoingOn(state, after, runId) && IsNextBlock(state, page) && EndedBefore(round)
    ensures var wait := DealWithPage(state, page, round, runId);
            wait.Returned? || (wait.Waiting? && Ahead(wait.state) < Ahead(state))
  {
    ConsumeKeepsTrack(state, page, after, runId);
  }

  lemma LongerLeavesAhead(state: WaitState, log: Log)
    requires state.log <= log
    ensures Ahead(state.(log := log)) <= Ahead(state) + |log| - |state.log|
  {
    BehindExtends(state.log, log, state.cursor);
  }

  lemma RoundSettles(state: WaitState, round: Round, runId: string, after: Option<nat>, limit: Option<nat>)
    requires GoingOn(state, after, runId) && LimitHonoured(limit) && EndedBefore(round)
    ensures var wait := OneRound(state, round, runId, limit);
            wait.Returned? || (wait.Waiting? && Ahead(wait.state) < Ahead(state) + |round.beforePage|)
  {
    hide DealWithPage, GoingOn, Stopped, IsNextBlock, PageRead, Behind;
    var now := state.(log := Append(state.log, round.beforePage));
    LongerLeavesAhead(state, now.log);
    PageReadIsNext(state, round, limit, after, runId);
    PageSettles(now, PageRead(state, round, limit), round, runId, after);
  }

  /** After `n` rounds a wait has returned, or is `n` events nearer the head but for those added. */
  ghost predicate NearedHead(state: WaitState, wait: Wait, n: nat, added: nat) {
    wait.Returned? || (wait.Waiting? && Ahead(wait.state) + n <= Ahead(state) + added)
  }

  lemma {:induction false} NearsHead(state: WaitState, more: seq<Round>, k: nat, runId: string, after: Option<nat>, limit: Option<nat>)
    requires GoingOn(state, after, runId) && LimitHonoured(limit)
    requires k <= |more| && forall r :: r in more ==> EndedBefore(r)
    ensures NearedHead(state, AwaitTo(state, more, k, runId, limit), k, AddedTo(more, k))
  {
    hide OneRound;
    if k > 0 {
      NearsHead(state, more, k - 1, runId, after, limit);
      var before := AwaitTo(state, more, k - 1, runId, limit);
      if before.Waiting? {
        RoundsDeliver(state, more, k - 1, runId, after, limit);
        RoundSettles(before.state, more[k - 1], runId, after, limit);
      }
    }
  }

  /**
   Whenever the run ends, after any rounds of waiting, the wait returns wherever its terminal event lies,
   behind `after` too: each further round brings the reader nearer the head, so it takes at most one round
   more than there are events ahead of it and still to be appended.
   */
  lemma ReturnsOnceEnded(log: Log, first: seq<Round>, more: seq<Round>, runId: string, after: Option<nat>, limit: Option<nat>)
    requires Increasing(log) && LimitHonoured(limit)
    requires AwaitAll(WaitState(log, after, []), first, runId, limit).Waiting?
    requires forall r :: r in more ==> EndedBefore(r)
    ensures var mid := AwaitAll(WaitState(log, after, []), first, runId, limit).state;
            var wait := AwaitAll(WaitState(log, after, []), first + more, runId, limit);
            && NearedHead(mid, wait, |more|, AddedTo(more, |more|))
            && (|more| > Ahead(mid) + AddedTo(more, |more|) ==> wait.Returned?)
  {
    hide OneRound;
    WaitDelivers(log, first, runId, after, limit);
    AwaitGoesOn(WaitState(log, after, []), first, more, runId, limit);
    NearsHead(AwaitAll(WaitState(log, after, []), first, runId, limit).state, more, |more|, runId, after, limit);
  }

  // ---------- one wait after another ----------

  lemma StillPrefix(a: Log, b: Log, c: Log)
    requires a <= b <= c
    ensures a <= c
  {
  }

  lemma ReadsGrowLog(state: WaitState, round: Round)
    ensures state.log <= AskState(state, round).state.log && state.log <= ReadFinishedRun(state, round).state.log
  {
    var log := Append(state.log, round.beforeSession);
    StillPrefix(state.log, log, Append(log, round.beforeRun));
    hide Append, Retried;
  }

  lemma PageGrowsLog(state: WaitState, page: Page, round: Round, runId: string)
    ensures state.log <= DealWithPage(state, page, round, runId).state.log
  {
    assert Consume(state, page, runId).log == state.log;
    hide Own, Taken, FirstTerminalFrom, Consume, AskState, ReadFinishedRun;
    ReadsGrowLog(Consume(state, page, runId), round);
  }

  lemma RoundGrowsLog(state: WaitState, round: Round, runId: string, limit: Option<nat>)
    ensures state.log <= OneRound(state, round, runId, limit).state.log
  {
    var now := state.(log := Append(state.log, round.beforePage));
    if Retried(round.page).Ok? && LimitHonoured(limit) {
      PageGrowsLog(now, PageRead(state, round, limit), round, runId);
      StillPrefix(state.log, now.log, OneRound(state, round, runId, limit).state.log);
    }
  }

  lemma {:induction false} AwaitGrowsLog(state: WaitState, rounds: seq<Round>, k: nat, runId: string, limit: Option<nat>)
    requires k <= |rounds|
    ensures state.log <= AwaitTo(state, rounds, k, runId, limit).state.log
  {
    hide OneRound;
    if k > 0 {
      var before := AwaitTo(state, rounds, k - 1, runId, limit);
      AwaitGrowsLog(state, rounds, k - 1, runId, limit);
      if before.Waiting? {
        RoundGrowsLog(before.state, rounds[k - 1], runId, limit);
        StillPrefix(state.log, before.state.log, OneRound(before.state, rounds[k - 1], runId, limit).state.log);
      }
    }
  }

  /** One wait of several: what is appended before it, and the wait itself, each for a run of its own. */
  datatype Stage = Stage(appended: seq<Draft>, rounds: seq<Round>, runId: string, limit: Option<nat>)

  /** The log and the cursor after some waits, and what `onEvent` saw in each. */
  datatype Chain = Chain(log: Log, cursor: Option<nat>, seen: seq<seq<Event>>)

  /** Each wait starts where the one before it left its cursor, however that ended. */
  function RunChain(log: Log, after: Option<nat>, stages: seq<Stage>): Chain {
    if stages == [] then Chain(log, after, [])
    else
      var before, stage := RunChain(log, after, stages[..|stages| - 1]), stages[|stages| - 1];
      var end := StageEnd(before, stage);
      Chain(end.log, end.cursor, before.seen + [end.delivered])
  }

  function StageEnd(before: Chain, stage: Stage): WaitState {
    AwaitAll(WaitState(Append(before.log, stage.appended), before.cursor, []), stage.rounds, stage.runId, stage.limit).state
  }

  /**
   Between one mark and the next lie the events that one wait went past. The marks lead from `after` to the
   cursor with nothing between them left out or gone past twice, and each wait saw its run's own events there.
   */
  ghost predicate Tiles(chain: Chain, after: Option<nat>, stages: seq<Stage>, marks: seq<nat>) {
    var n := |stages|;
    && Increasing(chain.log)
    && |marks| == n + 1 && |chain.seen| == n
    && marks[0] == Behind(chain.log, after) && marks[n] == Behind(chain.log, chain.cursor)
    && (forall i, j :: 0 <= i <= j <= n ==> marks[i] <= marks[j] <= |chain.log|)
    && (forall i :: 0 <= i < n ==> chain.seen[i] == Own(chain.log, marks[i], marks[i + 1], stages[i].runId))
    && (if marks[0] == marks[n] then chain.cursor == after else chain.cursor == Some(chain.log[marks[n] - 1].position))
  }

  /** Both ends of what was gone past keep their places in a longer log. */
  lemma EndsStay(log: Log, longer: Log, after: Option<nat>, end: nat)
    requires log <= longer && Increasing(longer) && Behind(log, after) < end <= |log|
    ensures Behind(longer, after) == Behind(log, after)
    ensures longer[end - 1] == log[end - 1] && Behind(longer, Some(log[end - 1].position)) == end
  {
    hide Behind;
    BehindExtends(log, longer, after);
    CursorAt(longer, end);
  }

  lemma TilesHold(chain: Chain, log: Log, after: Option<nat>, stages: seq<Stage>, marks: seq<nat>)
    requires Tiles(chain, after, stages, marks) && chain.log <= log && Increasing(log) && marks[0] < marks[|stages|]
    ensures Tiles(chain.(log := log), after, stages, marks)
  {
    hide Own, Behind, Increasing;
    var n := |stages|;
    EndsStay(chain.log, log, after, marks[n]);
    forall i | 0 <= i < n ensures chain.seen[i] == Own(log, marks[i], marks[i + 1], stages[i].runId) {
      OwnShifts(chain.log, log, marks[i], marks[i + 1], 0, stages[i].runId);
    }
  }

  lemma TilesMove(chain: Chain, log: Log, after: Option<nat>, stages: seq<Stage>, marks: seq<nat>)
    requires Tiles(chain, after, stages, marks) && Increasing(log) && marks[0] == marks[|stages|]
    ensures Tiles(chain.(log := log), after, stages, seq(|stages| + 1, _ => Behind(log, after)))
  {
    hide OneRound;
    var n, here := |stages|, Behind(log, after);
    var marks' := seq(n + 1, _ => here);
    forall i | 0 <= i < n ensures chain.seen[i] == Own(log, marks'[i], marks'[i + 1], stages[i].runId) {
      assert marks[0] <= marks[i] <= marks[i + 1] <= marks[n];
      assert marks'[i] == here && marks'[i + 1] == here;
    }
  }

  /** Appends leave the tiles as they are, or move a reader that has gone past nothing as a whole. */
  lemma TilesStay(chain: Chain, log: Log, after: Option<nat>, stages: seq<Stage>, marks: seq<nat>) returns (marks': seq<nat>)
    requires Tiles(chain, after, stages, marks) && chain.log <= log && Increasing(log)
    ensures Tiles(chain.(log := log), after, stages, marks')
  {
    hide OneRound;
    if marks[0] < marks[|stages|] {
      marks' := marks;
      TilesHold(chain, log, after, stages, marks);
    } else {
      marks' := seq(|stages| + 1, _ => Behind(log, after));
      TilesMove(chain, log, after, stages, marks);
    }
  }

  lemma TilesOneMore(chain: Chain, end: WaitState, after: Option<nat>, stages: seq<Stage>, stage: Stage, marks: seq<nat>)
    requires Tiles(chain, after, stages, marks)
    requires end.log == chain.log && OnTrack(end, chain.cursor, stage.runId)
    ensures Tiles(Chain(end.log, end.cursor, chain.seen + [end.delivered]), after, stages + [stage],
                  marks + [Behind(end.log, end.cursor)])
  {
    hide OneRound;
  }

  lemma StageTracks(before: Chain, stage: Stage)
    requires Increasing(before.log)
    ensures before.log <= StageEnd(before, stage).log && OnTrack(StageEnd(before, stage), before.cursor, stage.runId)
  {
    hide OneRound;
    var log := Append(before.log, stage.appended);
    WaitDelivers(log, stage.rounds, stage.runId, before.cursor, stage.limit);
    AwaitGrowsLog(WaitState(log, before.cursor, []), stage.rounds, |stage.rounds|, stage.runId, stage.limit);
    StillPrefix(before.log, log, StageEnd(before, stage).log);
  }

  /**
   Feeding the cursor of each wait to the next, over any list of waits for any runs, with anything appended
   between them and during them: no event of the log is skipped or repeated.
   */
  lemma {:induction false} ChainedWaits(log: Log, after: Option<nat>, stages: seq<Stage>) returns (marks: seq<nat>)
    requires Increasing(log)
    ensures Tiles(RunChain(log, after, stages), after, stages, marks)
  {
    hide OneRound;
    if stages == [] {
      marks := [Behind(log, after)];
    } else {
      var n := |stages| - 1;
      var before, stage := RunChain(log, after, stages[..n]), stages[n];
      marks := ChainedWaits(log, after, stages[..n]);
      var end := StageEnd(before, stage);
      StageTracks(before, stage);
      marks := TilesStay(before, end.log, after, stages[..n], marks);
      TilesOneMore(before.(log := end.log), end, after, stages[..n], stage, marks);
      marks := marks + [Behind(end.log, end.cursor)];
      assert stages == stages[..n] + [stage];
    }
  }

  function Joined(seen: seq<seq<Event>>): seq<Event> {
    if seen == [] then [] else Joined(seen[..|seen| - 1]) + seen[|seen| - 1]
  }

  lemma {:induction false} TilesJoin(chain: Chain, after: Option<nat>, stages: seq<Stage>, marks: seq<nat>, runId: string, k: nat)
    requires Tiles(chain, after, stages, marks) && k <= |stages|
    requires forall stage :: stage in stages ==> stage.runId == runId
    ensures Joined(chain.seen[..k]) == Own(chain.log, marks[0], marks[k], runId)
  {
    if k > 0 {
      TilesJoin(chain, after, stages, marks, runId, k - 1);
      assert chain.seen[..k][..k - 1] == chain.seen[..k - 1];
      assert stages[k - 1] in stages;
      OwnJoins(chain.log, marks[0], marks[k - 1], marks[k], runId);
    }
  }

  lemma TilesTrack(chain: Chain, after: Option<nat>, stages: seq<Stage>, marks: seq<nat>, runId: string)
    requires Tiles(chain, after, stages, marks)
    requires forall stage :: stage in stages ==> stage.runId == runId
    ensures OnTrack(WaitState(chain.log, chain.cursor, Joined(chain.seen)), after, runId)
  {
    hide Own, Behind, Increasing, Joined;
    TilesJoin(chain, after, stages, marks, runId, |stages|);
    assert chain.seen[..|stages|] == chain.seen;
  }

  /** Waits for one run, each from the cursor of the last, together see what one longer wait would. */
  lemma ChainedWaitsAreOne(log: Log, after: Option<nat>, stages: seq<Stage>, runId: string)
    requires Increasing(log) && forall stage :: stage in stages ==> stage.runId == runId
    ensures var chain := RunChain(log, after, stages);
            OnTrack(WaitState(chain.log, chain.cursor, Joined(chain.seen)), after, runId)
  {
    hide OneRound, RunChain, Tiles, OnTrack;
    var marks := ChainedWaits(log, after, stages);
    TilesTrack(RunChain(log, after, stages), after, stages, marks, runId);
  }
}
