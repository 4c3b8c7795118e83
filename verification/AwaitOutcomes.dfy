/**
 What one more round makes of a wait, after any rounds before it: which event it stops at, what it returns
 or is rejected with, and when it goes on.
 */
module AwaitOutcomes {
  import opened Wrappers
  import opened ToolStatus
  import opened RetryTransient
  import opened AwaitRun
  import opened Sequences

  /** The state a wait has come to after some rounds, and the page it reads next. */
  ghost predicate Reads(log: Log, first: seq<Round>, round: Round, runId: string, after: Option<nat>, limit: Option<nat>, mid: WaitState, page: Page) {
    && AwaitAll(WaitState(log, after, []), first, runId, limit) == Waiting(mid)
    && Retried(round.page).Ok? && LimitHonoured(limit) && page == PageRead(mid, round, limit)
  }

  ghost function WaitAfter(log: Log, first: seq<Round>, round: Round, runId: string, after: Option<nat>, limit: Option<nat>): Wait {
    AwaitAll(WaitState(log, after, []), first + [round], runId, limit)
  }

  /** One more round is one more round of the protocol from where the wait had come to. */
  lemma OneMoreRound(log: Log, first: seq<Round>, round: Round, runId: string, after: Option<nat>, limit: Option<nat>, mid: WaitState)
    requires AwaitAll(WaitState(log, after, []), first, runId, limit) == Waiting(mid)
    ensures WaitAfter(log, first, round, runId, after, limit) == OneRound(mid, round, runId, limit)
  {
    hide OneRound;
    AwaitGoesOn(WaitState(log, after, []), first, [round], runId, limit);
    assert AwaitTo(mid, [round], 0, runId, limit) == Waiting(mid);
  }

  lemma DealsWithPage(log: Log, first: seq<Round>, round: Round, runId: string, after: Option<nat>, limit: Option<nat>,
                      mid: WaitState, page: Page)
    requires Reads(log, first, round, runId, after, limit, mid, page)
    ensures var ahead := mid.(log := Append(mid.log, round.beforePage));
            WaitAfter(log, first, round, runId, after, limit) == DealWithPage(ahead, page, round, runId)
    ensures NextAfter(page, mid.cursor)
  {
    hide WaitAfter, AwaitAll, DealWithPage, Retried, Append;
    OneMoreRound(log, first, round, runId, after, limit, mid);
  }

  lemma RoundRefused(mid: WaitState, round: Round, runId: string, limit: Option<nat>)
    ensures var wait := OneRound(mid, round, runId, limit);
            && (wait.Rejected? && wait.error == InvalidLimit <==>
                Retried(round.page).Ok? && limit.Some? && !(1 <= limit.value <= 512))
            && (Retried(round.page).Err? ==> wait.Rejected? && wait.error == Request(Retried(round.page).error))
  {
    hide Append, Retried, Consume, FirstTerminalFrom, PageRead;
  }

  /** A read that is given up rejects the wait, and so does a limit that is not between 1 and 512. */
  lemma PageRefused(log: Log, first: seq<Round>, round: Round, runId: string, after: Option<nat>, limit: Option<nat>, mid: WaitState)
    requires AwaitAll(WaitState(log, after, []), first, runId, limit) == Waiting(mid)
    ensures var wait := WaitAfter(log, first, round, runId, after, limit);
            && (wait.Rejected? && wait.error == InvalidLimit <==>
                Retried(round.page).Ok? && limit.Some? && !(1 <= limit.value <= 512))
            && (Retried(round.page).Err? ==> wait.Rejected? && wait.error == Request(Retried(round.page).error))
  {
    hide OneRound, WaitAfter, AwaitAll, Retried;
    OneMoreRound(log, first, round, runId, after, limit, mid);
    RoundRefused(mid, round, runId, limit);
  }

  /** Otherwise the page is the next events after the cursor, at most as many as the limit, which is 128 by default. */
  lemma PageGiven(mid: WaitState, round: Round, limit: Option<nat>)
    requires limit.None? || 1 <= limit.value <= 512
    ensures var page, ahead := PageRead(mid, round, limit), Append(mid.log, round.beforePage);
            var c, most := Behind(ahead, mid.cursor), if limit.None? then 128 else limit.value;
            && |page.events| <= most && c + |page.events| <= |ahead| && page.events == ahead[c..c + |page.events|]
            && (1 <= round.pageSize <= most && c + round.pageSize <= |ahead| ==> |page.events| == round.pageSize)
  {
    hide Append, Behind;
  }

  /**
   The wait stops at the first event of its page that completes, fails or cancels this run, with that
   event's cursor. It returns the run exactly when the read that follows is answered and shows it completed,
   failed or cancelled.
   */
  lemma StopsAtEndOfRun(log: Log, first: seq<Round>, round: Round, runId: string, after: Option<nat>, limit: Option<nat>,
                        mid: WaitState, page: Page, k: nat)
    requires Reads(log, first, round, runId, after, limit, mid, page) && k < |page.events|
    requires page.events[k].kind in [RunCompletedEvent(runId), RunFailedEvent(runId), RunCancelledEvent(runId)]
    requires forall i :: 0 <= i < k ==>
               page.events[i].kind !in [RunCompletedEvent(runId), RunFailedEvent(runId), RunCancelledEvent(runId)]
    ensures var wait, shown := WaitAfter(log, first, round, runId, after, limit), round.runStatus;
            && !wait.Waiting? && wait.state.cursor == Some(page.events[k].position)
            && wait.state.delivered == mid.delivered + Own(page.events, 0, k + 1, runId)
            && (wait.Returned? <==> Retried(round.run).Ok? && (shown.RunCompleted? || shown.RunFailed? || shown.RunCancelled?))
            && (wait.Returned? ==> wait.status == shown)
            && (wait.Rejected? ==> wait.error == if Retried(round.run).Err? then Request(Retried(round.run).error) else NotTerminalAfterEvent)
  {
    hide WaitAfter, AwaitAll, Append, Retried, Own, FirstTerminalFrom, PageRead;
    DealsWithPage(log, first, round, runId, after, limit, mid, page);
    FirstTerminalIs(page.events, runId, k);
  }

  /** It goes on past a page that has events and none of these, from behind its last event. */
  lemma GoesOnPastOthers(log: Log, first: seq<Round>, round: Round, runId: string, after: Option<nat>, limit: Option<nat>,
                         mid: WaitState, page: Page)
    requires Reads(log, first, round, runId, after, limit, mid, page) && page.events != []
    requires forall i :: 0 <= i < |page.events| ==>
               page.events[i].kind !in [RunCompletedEvent(runId), RunFailedEvent(runId), RunCancelledEvent(runId)]
    ensures WaitAfter(log, first, round, runId, after, limit) ==
            Waiting(WaitState(Append(mid.log, round.beforePage), Some(page.events[|page.events| - 1].position),
                              mid.delivered + Own(page.events, 0, |page.events|, runId)))
  {
    hide WaitAfter, AwaitAll, Append, Retried, Own, FirstTerminalFrom, PageRead;
    DealsWithPage(log, first, round, runId, after, limit, mid, page);
    FirstTerminalIs(page.events, runId, |page.events|);
  }

  lemma EmptyPageDealt(state: WaitState, page: Page, round: Round, runId: string)
    requires page.events == [] && NextAfter(page, state.cursor)
    ensures DealWithPage(state, page, round, runId) == AskState(state, round)
  {
    FirstTerminalIs(page.events, runId, 0);
    assert state.delivered + [] == state.delivered;
    hide AskState;
  }

  /** The session lacks the run, or shows it completed, failed or cancelled. */
  predicate AsksForRun(round: Round) {
    match round.summary
    case None => true
    case Some(status) => status.RunCompleted? || status.RunFailed? || status.RunCancelled?
  }

  /**
   It returns the run if the session does not show it going on and the read of the run shows it ended. It is
   rejected if a read fails, or else if the session has stopped. Otherwise it goes on; the cursor stays.
   */
  ghost predicate Answers(wait: Wait, state: WaitState, round: Round) {
    var shown, sessionRead, runRead := round.runStatus, Retried(round.session), Retried(round.run);
    && wait.state.cursor == state.cursor && wait.state.delivered == state.delivered
    && (if sessionRead.Err? then wait.Rejected? && wait.error == Request(sessionRead.error)
        else if AsksForRun(round) && runRead.Err? then wait.Rejected? && wait.error == Request(runRead.error)
        else if AsksForRun(round) && (shown.RunCompleted? || shown.RunFailed? || shown.RunCancelled?)
        then wait.Returned? && wait.status == shown
        else if round.stopped then wait.Rejected? && wait.error == ExecutionStopped
        else wait.Waiting?)
  }

  lemma SessionAnswers(state: WaitState, round: Round)
    ensures Answers(AskState(state, round), state, round)
  {
    hide Retried, Append;
  }

  /** After an empty page it asks for the session, and for the run unless the session shows it going on. */
  lemma AsksAfterEmptyPage(log: Log, first: seq<Round>, round: Round, runId: string, after: Option<nat>, limit: Option<nat>,
                           mid: WaitState, page: Page)
    requires Reads(log, first, round, runId, after, limit, mid, page) && page.events == []
    ensures Answers(WaitAfter(log, first, round, runId, after, limit), mid, round)
  {
    hide WaitAfter, AwaitAll, Append, Retried, DealWithPage, AskState, PageRead;
    var ahead := mid.(log := Append(mid.log, round.beforePage));
    DealsWithPage(log, first, round, runId, after, limit, mid, page);
    EmptyPageDealt(ahead, page, round, runId);
    SessionAnswers(ahead, round);
  }

  /**
   In every run of the protocol, none of the events gone past but the last completes, fails or cancels the
   run, nor does that while the wait goes on; and what is returned is a completed, failed or cancelled run.
   */
  lemma NeverPastEndOfRun(log: Log, rounds: seq<Round>, runId: string, after: Option<nat>, limit: Option<nat>)
    requires Increasing(log)
    ensures var wait := AwaitAll(WaitState(log, after, []), rounds, runId, limit);
            var a, c := Behind(wait.state.log, after), Behind(wait.state.log, wait.state.cursor);
            && (forall i :: a <= i < (if wait.Waiting? then c else c - 1) ==>
                  wait.state.log[i].kind !in [RunCompletedEvent(runId), RunFailedEvent(runId), RunCancelledEvent(runId)])
            && (wait.Returned? ==> wait.status.RunCompleted? || wait.status.RunFailed? || wait.status.RunCancelled?)
  {
    hide AwaitAll, Behind, Own;
    WaitDelivers(log, rounds, runId, after, limit);
  }

  lemma {:induction false} OwnStandAt(log: Log, a: nat, c: nat, runId: string) returns (at: seq<nat>)
    requires a <= c <= |log|
    ensures StandsAt(Own(log, a, c, runId), log[..c], at)
    ensures forall k: nat :: k in at <==> a <= k < c && log[k].joinsRun == Some(runId)
    decreases c
  {
    at := [];
    if a < c {
      at := OwnStandAt(log, a, c - 1, runId);
      assert log[..c][..c - 1] == log[..c - 1];
      at := PlacesGrow(Own(log, a, c - 1, runId), log[..c], at, log[c - 1].joinsRun == Some(runId));
    }
  }

  /** `onEvent` saw exactly the events of the log between `after` and the cursor that join the run, in their order. */
  lemma SawWhatJoins(log: Log, rounds: seq<Round>, runId: string, after: Option<nat>, limit: Option<nat>) returns (at: seq<nat>)
    requires Increasing(log)
    ensures var end := AwaitAll(WaitState(log, after, []), rounds, runId, limit).state;
            var a, c := Behind(end.log, after), Behind(end.log, end.cursor);
            && StandsAt(end.delivered, end.log[..c], at)
            && forall k: nat :: k in at <==> a <= k < c && end.log[k].joinsRun == Some(runId)
  {
    hide AwaitAll, Behind, Own;
    var end := AwaitAll(WaitState(log, after, []), rounds, runId, limit).state;
    ExactlyOnce(log, rounds, runId, after, limit);
    at := OwnStandAt(end.log, Behind(end.log, after), Behind(end.log, end.cursor), runId);
  }
}
