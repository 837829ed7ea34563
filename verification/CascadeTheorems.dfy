/**
  What every reachable state and every run of the cascade guarantees, in the terms a user
  of the controller would state it.
 */
module CascadeTheorems {
  import opened Prelude
  import opened AttemptTiming
  import opened CandidateQueue
  import opened CascadeSpec
  import opened CascadeInvariants
  import opened CascadeRuns
  import opened CascadeBounds

  // ----- Timers -----

  /**
    The controller owns exactly the sources it remembers, at most one of each kind, all of
    the current generation; the timeout is due by the deadline and is older than the tick.
    A controller that is not walking owns none, so no timer of one run can fire in another.
   */
  lemma TimerOwnership(s: State)
    requires Reachable(s)
    ensures var t := s.timers;
            && t.sources.Keys == HeldIds(t)
            && (forall id | id in t.sources :: t.sources[id].gen == s.gen)
            && (forall a, b | a in t.sources && b in t.sources && t.sources[a].kind == t.sources[b].kind :: a == b)
            && (forall id | id in t.sources && t.sources[id].kind.HandshakeTimer? ::
                  t.timeoutId == Some(id) && t.sources[id].due <= s.deadline && t.tickId.Some? && id < t.tickId.value)
            && (!Walking(s) ==> t.sources == map[])
  {
    ReachableInv(s);
    forall id | id in s.timers.sources
      ensures s.timers.sources[id].gen == s.gen
      ensures s.timers.sources[id].kind.HandshakeTimer? ==> s.timers.timeoutId == Some(id)
      ensures s.timers.sources[id].kind.TickTimer? ==> s.timers.tickId == Some(id)
      ensures s.timers.sources[id].kind.SettleTimer? ==> s.timers.settleId == Some(id)
    {
      OwnerOf(s, id);
    }
    if !Walking(s) {
      assert s.timers.sources.Keys == {};
    }
  }

  /** An active cascade always has something that will move it on; busy and active are the same. */
  lemma NeverStuck(s: State)
    requires Reachable(s)
    ensures Busy(s) <==> s.active
    ensures s.auto <==> s.phase.Preparing?
    ensures s.active ==>
              || (s.phase.Preparing? && s.auto && s.win.testRunning)
              || (exists id :: id in s.timers.sources && s.timers.sources[id].gen == s.gen && !s.timers.sources[id].kind.TickTimer?)
  {
    ReachableInv(s);
    if Walking(s) {
      var id := if s.timers.timeoutId.Some? then s.timers.timeoutId.value else s.timers.settleId.value;
      assert id in s.timers.sources;
    }
  }

  /** The end of the speed test, cancelled or not, whatever it measured, leaves PREPARING. */
  lemma SpeedTestEndsPreparing(s: State, a: Action)
    requires Reachable(s) && Enabled(s, a) && a.SpeedTestEnd?
    ensures !Step(s, a).phase.Preparing?
  {
    ReachableInv(s);
    SpeedTestDoneKeeps(s, a.results, a.names, a.list, a.env);
  }

  /** Started while a speed test is already running and nothing is measured yet, the cascade cancels both. */
  lemma StartDuringSpeedTest(s: State, names: seq<string>, a: ListAnswers, results: Latencies, list: ListAnswers, env: SkipAnswers)
    requires Reachable(s) && !s.active && s.win.testRunning && s.win.latencies == map[] && NonEmpty(names) != []
    ensures var p := Start(s, names, a);
            && p.phase.Preparing? && p.win.testCancelled
            && SpeedTestDone(p, results, names, list, env).phase.CancelledPhase?
  {
    ReachableInv(s);
    var p := Start(s, names, a);
    StartKeeps(s, names, a);
    var r := p.(win := p.win.(testRunning := false));
    CancelKeeps(r, env);
    hide Cancel;
  }

  lemma AdvanceMoves(s: State, reason: Outcome, code: ErrorCode, message: Message, env: SkipAnswers)
    requires s.active && s.walk.current.Some? && s.walk.current.value != ""
    ensures var n := Advance(s, reason, code, message, env);
            && n.active && n.gen == s.gen && n.pendingFailure == s.pendingFailure
            && n.walk.index == s.walk.index + 1 && n.walk.current == s.walk.current
            && n.walk.failures == s.walk.failures + [Failure(s.walk.current.value, reason)]
            && (forall id | id in s.timers.sources && id !in HeldIds(s.timers) && id < s.timers.nextId ::
                  id in n.timers.sources && n.timers.sources[id] == s.timers.sources[id])
  {
    AdvanceEffect(s, reason, code, message, env);
    hide Advance;
  }

  lemma TimeoutMoves(s: State, env: SkipAnswers)
    requires s.active && s.walk.current.Some? && s.walk.current.value != ""
    ensures var n := OnTimeout(s, s.gen, false, env);
            && n.active && n.gen == s.gen
            && n.walk.index == s.walk.index + 1 && n.walk.current == s.walk.current
            && n.walk.failures == s.walk.failures + [Failure(s.walk.current.value, TimedOut)]
            && (forall id | id in s.timers.sources && id !in IdSet(s.timers.tickId) + IdSet(s.timers.settleId) && id < s.timers.nextId ::
                  id in n.timers.sources && n.timers.sources[id] == s.timers.sources[id])
  {
    var t := s.(timers := s.timers.(timeoutId := None));
    var message := if s.pendingFailure.Some? && s.pendingFailure.value != "" then Said(s.pendingFailure.value)
                   else HandshakeExpired;
    AdvanceMoves(t, TimedOut, ReasonCode(TimedOut), message, env);
    hide Advance;
  }

  /**
    Why the timeout has to be older than the tick. Were the tick dispatched first once the
    deadline has passed, it would time the candidate out itself and leave the timeout in the
    table; that one would then record the same candidate again and step over the next.
   */
  lemma DispatchOrderMatters(s: State, first: FireAnswers, second: FireAnswers)
    requires Inv(s) && s.phase.Connecting? && s.deadline <= s.timers.now
    requires !first.dialog && !first.dialogAgain && !second.dialog
    ensures var stale := s.timers.timeoutId.value;
            var f := Fire(s, s.timers.tickId.value, first);
            && f.walk.index == s.walk.index + 1
            && stale in f.timers.sources
            && var g := Fire(f, stale, second);
               && g.walk.index == s.walk.index + 2
               && g.walk.failures == s.walk.failures + [Failure(s.walk.current.value, TimedOut), Failure(s.walk.current.value, TimedOut)]
  {
    var stale, tick := s.timers.timeoutId.value, s.timers.tickId.value;
    OpenMeansTrying(s);
    assert s.walk.queue[s.walk.index] in s.walk.queue;
    assert stale in HeldIds(s.timers) && tick in HeldIds(s.timers);
    TimeoutMoves(s, first.skip);
    hide OnTimeout;
    var f := Fire(s, tick, first);
    assert stale in f.timers.sources && f.timers.sources[stale] == s.timers.sources[stale];
    TimeoutMoves(f, second.skip);
  }

  // ----- The walk -----

  lemma {:induction false} StepsOfOne(slots: seq<nat>, i: nat)
    requires slots != [] && slots[0] == 0 && i <= Last(slots)
    requires forall k | 0 < k < |slots| :: slots[k - 1] <= slots[k] <= slots[k - 1] + 1
    ensures i in slots
    decreases |slots|
  {
    if i < Last(slots) {
      assert |slots| > 1;
      StepsOfOne(slots[..|slots| - 1], i);
    }
  }

  /**
    The queue is walked in order: attempt k is of candidate slots[k], the slots start at 0
    and move by 0 or 1, no candidate before the index is skipped, none has more than four
    records, and each candidate left behind has one failure record under its own name.
   */
  lemma QueueOrderWalk(s: State)
    requires Reachable(s) && s.walk.queue != []
    ensures var w := s.walk;
            && |w.slots| == |w.attempts|
            && (w.slots != [] ==> w.slots[0] == 0)
            && (forall k | 0 < k < |w.slots| :: w.slots[k] == w.slots[k - 1] || w.slots[k] == w.slots[k - 1] + 1)
            && (forall k | 0 <= k < |w.slots| :: w.slots[k] < |w.queue| && w.attempts[k].config == w.queue[w.slots[k]])
            && (forall i: nat | i < w.index :: i in w.slots)
            && (forall i :: multiset(w.slots)[i] <= 4)
            && |w.failures| == w.index <= |w.queue|
            && (forall i | 0 <= i < w.index :: w.failures[i].name == w.queue[i] && IsSkipReason(w.failures[i].reason))
  {
    ReachableInv(s);
    var w := s.walk;
    assert SlotsOk(w) && FailuresOk(w);
    hide Inv;
    forall i: nat | i < w.index
      ensures i in w.slots
    {
      StepsOfOne(w.slots, i);
    }
  }

  /** Every failed candidate closes one record: what the summary counts is what the failure list says. */
  lemma RecordsMatchFailures(s: State)
    requires Reachable(s) && s.walk.queue != []
    ensures ClosedCount(s.walk.attempts)
         == |s.walk.failures| + if s.walk.attempts != [] && IsTerminal(Last(s.walk.attempts).outcome) then 1 else 0
  {
    ReachableInv(s);
  }

  lemma AdvanceSettles(s: State, reason: Outcome, code: ErrorCode, message: Message, env: SkipAnswers)
    requires s.active
    ensures Advance(s, reason, code, message, env).phase.Settling?
  {
    AdvanceEffect(s, reason, code, message, env);
    hide Advance, RecordFailure;
  }

  lemma HandshakeNeverExhausts(s: State, name: string, a: TryAnswers)
    requires s.active && s.phase.Connecting?
    ensures !Handshake(s, name, a).phase.Exhausted?
  {
    hide Advance, OnEvent;
    var r, c := s.(retries := s.retries + 1), s.(retries := 0);
    if a.watchRaises || a.status.StatusRaises? {
      AdvanceSettles(s, ConnectError, BackendFault, ErrorMessage(a.exceptionText), a.skip);
    } else if a.status.StatusUp? {
      RetryEffect(s, name, a);
      AdvanceSettles(r, Disconnected, ReasonCode(Disconnected), ReasonText(Disconnected), a.skip);
      AdvanceSettles(r.(expectDisconnect := true, phase := Settling), ConnectError, BackendFault, ErrorMessage(a.exceptionText), a.skip);
    } else {
      AdvanceSettles(c, MissingFile, ConfigMissing, FileMissing(name), a.skip);
      AdvanceSettles(c, ConnectError, BackendFault, ErrorMessage(a.exceptionText), a.skip);
      if a.connect.ConnectCallsBack? {
        EventNeverExhausts(c, a.connect.event, a.connect.inner);
      }
    }
  }

  lemma EventNeverExhausts(s: State, e: Event, env: SkipAnswers)
    requires !s.phase.Exhausted?
    ensures !OnEvent(s, e, env).phase.Exhausted?
  {
    if s.active && s.phase.Connecting? && Judge(e).Skip? {
      var reason := Judge(e).reason;
      AdvanceEffect(s, reason, ReasonCode(reason), EventMessage(e, reason), env);
    }
    FinishEffect(s.(timers := Disarm(s.timers), expectDisconnect := false), Succeeded);
    hide Advance, Judge, Finish, Skipped;
  }

  lemma TryExhausts(s: State, a: TryAnswers, orphan: set<nat>)
    requires ReadyToTry(s, orphan) && TryCurrent(s, a).phase.Exhausted?
    ensures !a.manager || s.walk.index == |s.walk.queue|
  {
    if s.walk.index < |s.walk.queue| && a.manager {
      TryEffect(s, a);
      ArmedKeeps(s, orphan);
      HandshakeNeverExhausts(Armed(s), s.walk.queue[s.walk.index], a);
    }
    hide TryCurrent, Handshake, Armed, Good;
  }

  /** The step gives a run up: it was not given up before, or it is another run. */
  predicate GivesUp(s: State, n: State) {
    n.phase.Exhausted? && (!s.phase.Exhausted? || n.runs != s.runs)
  }

  lemma WalkGivesUp(s: State, a: Action)
    requires Inv(s) && Enabled(s, a) && Walking(s) && Step(s, a).phase.Exhausted?
    ensures a.Dispatch?
    ensures !a.fire.attempt.manager || |s.walk.failures| == |s.walk.queue|
    ensures |s.walk.failures| <= |s.walk.queue|
    ensures forall i | 0 <= i < |s.walk.failures| :: s.walk.failures[i].name == s.walk.queue[i]
  {
    if a.Dispatch? {
      OwnerOf(s, a.id);
      if s.timers.sources[a.id].kind.SettleTimer? {
        SettleReady(s, a.id);
        FireSettleEffect(s, a.id, a.fire);
        TryExhausts(AfterSettle(s), a.fire.attempt, {a.id});
      } else if s.timers.sources[a.id].kind.HandshakeTimer? {
        TimeoutNeverExhausts(s, a.fire);
      } else {
        TickKeeps(s, a.id, a.fire);
      }
    } else if a.Backend? {
      EventNeverExhausts(s, a.event, a.env);
    } else if !a.Wait? {
      OutsideActions(s, a);
      CancelRequestKeeps(s, if a.CancelRequest? then a.env else SkipAnswers(false, DisconnectReturns));
      CancelKeeps(s, if a.CancelRequest? then a.env else SkipAnswers(false, DisconnectReturns));
    }
    hide TryCurrent, OnTimeout, OnEvent, Cancel, SpeedTestDone, Start;
  }

  /** A run that is given up in the step that begins it had no manager for its first candidate. */
  lemma BeginExhausts(c: State, queue: seq<string>, b: BeginAnswers)
    requires MayBegin(c, queue) && Begin(c, queue, b).phase.Exhausted?
    ensures !b.attempt.manager
  {
    BeginReady(c, queue);
    var n := BeginState(c, queue);
    var d := n.(expectDisconnect := true, phase := Settling);
    assert ReadyToTry(d, {});
    if !b.connected {
      TryExhausts(n, b.attempt, {});
    } else if b.watchRaises || b.disconnect.DisconnectRaises? {
      TryExhausts(d, b.attempt, {});
    } else {
      OwnDisconnectEffect(d, b.disconnect);
    }
    hide TryCurrent, ReadyToTry;
  }

  /** Outside a walk and without a new run, only the end of a test that finds no configuration gives up. */
  lemma RestGivesUp(s: State, a: Action)
    requires Inv(s) && Enabled(s, a) && !Walking(s) && GivesUp(s, Step(s, a)) && Step(s, a).runs == s.runs
    ensures a.SpeedTestEnd? && s.phase.Preparing? && NonEmpty(a.names) == []
  {
    match a {
      case Dispatch(id, _) =>
        hide Step;
        SourceMeansWalking(s, id);
      case Backend(event, env) =>
        if s.active {
          EventNeverExhausts(s, event, env);
        }
        hide OnEvent, Good;
      case CancelRequest(env) =>
        CancelKeeps(s, env);
        hide Cancel, Good;
      case StartRequest(names, list) =>
        StartGivesUp(s, names, list);
      case SpeedTestEnd(results, names, list, env) =>
        EndGivesUp(s, results, names, list, env);
      case _ =>
    }
  }

  lemma StartGivesUp(s: State, names: seq<string>, a: ListAnswers)
    requires Inv(s) && Start(s, names, a).runs == s.runs
    ensures !GivesUp(s, Start(s, names, a))
  {
    QueueShape(NonEmpty(names), s.win.latencies, true, MAX_CASCADE_CANDIDATES);
    NoEmptyTwice(names);
    var queue := BuildQueue(NonEmpty(names), s.win.latencies, true, MAX_CASCADE_CANDIDATES);
    assert !s.active ==> Accounted(s.timers, {}) && HeldIds(s.timers) == {} && !s.auto;
    BeginRuns(s, queue, a.begin);
    hide Begin, BuildQueue, Good, Accounted;
  }

  lemma EndGivesUp(s: State, results: Latencies, names: seq<string>, a: ListAnswers, env: SkipAnswers)
    requires Inv(s) && s.win.testRunning && SpeedTestDone(s, results, names, a, env).runs == s.runs
    requires GivesUp(s, SpeedTestDone(s, results, names, a, env))
    ensures s.phase.Preparing? && NonEmpty(names) == []
  {
    var r := s.(win := s.win.(testRunning := false));
    FinishEffect(r.(auto := false, gen := r.gen + 1), CancelledPhase);
    var c := (if s.win.testCancelled then r else r.(win := r.win.(latencies := results)));
    var o := c.(win := c.win.(testButton := true), auto := false);
    var queue := BuildQueue(NonEmpty(names), o.win.latencies, true, MAX_CASCADE_CANDIDATES);
    QueueShape(NonEmpty(names), o.win.latencies, true, MAX_CASCADE_CANDIDATES);
    NoEmptyTwice(names);
    FinishEffect(o, Exhausted);
    FinishEffect(o.(walk := o.walk.(current := a.selected)), Succeeded);
    BeginRuns(o, queue, a.begin);
    hide Begin, BuildQueue, Finish, Good;
  }

  lemma BeginRuns(s: State, queue: seq<string>, b: BeginAnswers)
    ensures Accounted(s.timers, {}) && HeldIds(s.timers) == {} && !s.auto && queue != [] && "" !in queue
            ==> Begin(s, queue, b).runs == s.runs + 1
  {
    if Accounted(s.timers, {}) && HeldIds(s.timers) == {} && !s.auto && queue != [] && "" !in queue {
      BeginKeeps(s, queue, b);
    }
    hide Begin;
  }

  lemma NoEmptyTwice(names: seq<string>)
    ensures NonEmpty(NonEmpty(names)) == [] <==> NonEmpty(names) == []
  {
    if NonEmpty(names) != [] {
      assert NonEmpty(names)[0] in NonEmpty(names);
    }
  }

  /**
    A run is given up as EXHAUSTED with a live manager only after every candidate has its
    failure record, or when there is no candidate at all: by a settle timer of a walking run, by
    the step that begins a run and finds no manager for its first candidate, or by the end of
    the speed test when no configuration is left. No other step gives a run up.
   */
  lemma ExhaustedOnlyAfterAll(s: State, a: Action)
    requires Reachable(s) && Enabled(s, a) && GivesUp(s, Step(s, a))
    ensures Walking(s) ==>
              && a.Dispatch? && (!a.fire.attempt.manager || |s.walk.failures| == |s.walk.queue|)
              && |s.walk.failures| <= |s.walk.queue|
              && forall i | 0 <= i < |s.walk.failures| :: s.walk.failures[i].name == s.walk.queue[i]
    ensures !Walking(s) && Step(s, a).runs != s.runs ==> Starts(a) && !a.list.begin.attempt.manager
    ensures !Walking(s) && Step(s, a).runs == s.runs ==> a.SpeedTestEnd? && s.phase.Preparing? && NonEmpty(a.names) == []
  {
    ReachableInv(s);
    if Walking(s) {
      WalkGivesUp(s, a);
    } else if Step(s, a).runs != s.runs {
      var c, queue := RunsBegin(s, a);
      BeginExhausts(c, queue, a.list.begin);
    } else {
      RestGivesUp(s, a);
    }
    hide Step, Inv;
  }

  lemma TimeoutNeverExhausts(s: State, fire: FireAnswers)
    requires Inv(s) && s.timers.timeoutId.Some?
    ensures !OnTimeout(s, s.gen, fire.dialog, fire.skip).phase.Exhausted?
  {
    var t := s.(timers := s.timers.(timeoutId := None));
    var message := if s.pendingFailure.Some? && s.pendingFailure.value != "" then Said(s.pendingFailure.value)
                   else HandshakeExpired;
    AdvanceEffect(t, TimedOut, ReasonCode(TimedOut), message, fire.skip);
    hide Advance, Skipped;
  }

  // ----- The ledger -----

  function Total(t: Summary): nat {
    t.timeouts + t.handshakeFailures + t.backendErrors + t.cancelled + t.success
  }

  lemma TallyCountsOne(t: Summary, o: Outcome)
    ensures Total(Tally(t, o)) == Total(t) + if o.Pending? then 0 else 1
  {
  }

  lemma {:induction false} SummaryCountsClosed(attempts: seq<Attempt>)
    requires forall k | 0 <= k < |attempts| :: attempts[k].finishedAt.None? <==> attempts[k].outcome.Pending?
    ensures Total(Summarize(attempts)) == ClosedCount(attempts) <= |attempts|
  {
    hide Tally, Total;
    if attempts == [] {
      SummaryOfNone();
    } else {
      SummaryCountsClosed(attempts[..|attempts| - 1]);
      TallyCountsOne(Summarize(attempts[..|attempts| - 1]), Last(attempts).outcome);
    }
  }

  lemma {:induction false} SummaryOfSkips(attempts: seq<Attempt>)
    requires forall k | 0 <= k < |attempts| :: !IsTerminal(attempts[k].outcome)
    ensures Summarize(attempts).success == 0 && Summarize(attempts).cancelled == 0
  {
    if attempts != [] {
      SummaryOfSkips(attempts[..|attempts| - 1]);
    }
  }

  /** The last record is a success or a cancellation. */
  predicate EndsDecided(attempts: seq<Attempt>) {
    attempts != [] && (Last(attempts).outcome.Success? || Last(attempts).outcome.Cancelled?)
  }

  /**
    The summary of a reachable state: its five buckets are the closed records, so with the
    pending ones they make up `attempts`; there is at most one success or cancellation, there
    is one exactly if the last record is it, and no other record is.
   */
  lemma SummaryPartition(s: State)
    requires Reachable(s)
    ensures var t := Summarize(s.walk.attempts);
            && Total(t) == ClosedCount(s.walk.attempts) <= |s.walk.attempts|
            && t.success + t.cancelled <= 1
            && (t.success + t.cancelled == 1 <==> EndsDecided(s.walk.attempts))
            && (forall k | 0 <= k < |s.walk.attempts| - 1 :: !s.walk.attempts[k].outcome.Success? && !s.walk.attempts[k].outcome.Cancelled?)
            && (s.walk.queue != [] ==>
                  t.timeouts + t.handshakeFailures + t.backendErrors
                  == |s.walk.failures| + if s.walk.attempts != [] && Last(s.walk.attempts).outcome.BackendError? then 1 else 0)
  {
    ReachableInv(s);
    assert LedgerOk(s.walk, s.timers.now, s.deadline);
    assert s.walk.queue != [] ==> CountOk(s.walk);
    hide Inv, LedgerOk, CountOk, Summarize, ClosedCount, Total;
    LedgerSummary(s.walk, s.timers.now, s.deadline);
  }

  lemma LedgerSummary(w: Walk, now: nat, deadline: nat)
    requires LedgerOk(w, now, deadline)
    ensures var t := Summarize(w.attempts);
            && Total(t) == ClosedCount(w.attempts) <= |w.attempts|
            && t.success + t.cancelled <= 1
            && (t.success + t.cancelled == 1 <==> EndsDecided(w.attempts))
            && (forall k | 0 <= k < |w.attempts| - 1 :: !w.attempts[k].outcome.Success? && !w.attempts[k].outcome.Cancelled?)
            && (CountOk(w) ==>
                  t.timeouts + t.handshakeFailures + t.backendErrors
                  == |w.failures| + if w.attempts != [] && Last(w.attempts).outcome.BackendError? then 1 else 0)
  {
    hide ClosedCount, AttemptOk, Tally, Total, LedgerOk, Summarize;
    var a := w.attempts;
    DecidedRecords(w, now, deadline);
    SummaryCountsClosed(a);
    if a == [] {
      SummaryOfNone();
    } else {
      var before := a[..|a| - 1];
      SummaryOfSkips(before);
      SummaryOfLast(a);
      LastDecides(Summarize(before), Last(a).outcome);
    }
  }

  lemma DecidedRecords(w: Walk, now: nat, deadline: nat)
    requires LedgerOk(w, now, deadline)
    ensures forall k | 0 <= k < |w.attempts| :: w.attempts[k].finishedAt.None? <==> w.attempts[k].outcome.Pending?
    ensures forall k | 0 <= k < |w.attempts| - 1 :: !IsTerminal(w.attempts[k].outcome)
  {
    assert forall k | 0 <= k < |w.attempts| :: AttemptOk(w.attempts[k], now);
  }

  lemma SummaryOfNone()
    ensures Summarize([]) == Summary(0, 0, 0, 0, 0) && Total(Summarize([])) == 0
  {
  }

  lemma LastDecides(before: Summary, o: Outcome)
    requires before.success == 0 && before.cancelled == 0
    ensures var t := Tally(before, o);
            && t.success + t.cancelled == (if o.Success? || o.Cancelled? then 1 else 0)
            && Total(t) == t.timeouts + t.handshakeFailures + t.backendErrors + t.success + t.cancelled
  {
  }

  /**
    Written at most once: along any run, as long as no new one begins, the records stay in
    place with their identity, and a closed record never changes again.
   */
  lemma ClosedOnce(s: State, run: seq<Action>, k: nat)
    requires Reachable(s) && ValidRun(s, run) && k < |s.walk.attempts|
    requires Exec(s, run).runs == s.runs
    ensures var e := Exec(s, run);
            && k < |e.walk.attempts|
            && e.walk.attempts[k].config == s.walk.attempts[k].config
            && e.walk.attempts[k].startedAt == s.walk.attempts[k].startedAt
            && e.walk.attempts[k].budget == s.walk.attempts[k].budget
            && (s.walk.attempts[k].finishedAt.Some? ==> e.walk.attempts[k] == s.walk.attempts[k])
  {
    ReachableInv(s);
    RunKeeps(s, run);
    hide Exec, Inv;
  }

  // ----- Events and cancel -----

  /** The record of the attempt that is open, closed as the last one. */
  ghost predicate ClosesLast(s: State, n: State, outcome: Outcome) {
    && |n.walk.attempts| == |s.walk.attempts| > 0
    && n.walk.attempts[..|s.walk.attempts| - 1] == s.walk.attempts[..|s.walk.attempts| - 1]
    && Last(n.walk.attempts).config == Last(s.walk.attempts).config
    && Last(n.walk.attempts).outcome == outcome
    && Last(n.walk.attempts).finishedAt == Some(s.timers.now)
  }

  lemma FinishCloses(s: State, phase: Phase)
    requires s.walk.hasActive && LastIsOpen(s.walk)
    ensures phase.Succeeded? ==> ClosesLast(s, Finish(s, phase), Success)
    ensures phase.CancelledPhase? ==> ClosesLast(s, Finish(s, phase), Cancelled)
  {
  }

  /** CONNECTED during an attempt ends the run, marks that attempt as the success and leaves the event to the window. */
  lemma ConnectedWins(s: State, e: Event, env: SkipAnswers)
    requires Reachable(s) && s.phase.Connecting? && e.kind.ConnectedEvent?
    ensures var n := OnEvent(s, e, env);
            !n.active && n.phase.Succeeded? && n.timers.sources == map[] && ClosesLast(s, n, Success)
    ensures !ConsumesEvent(s, e)
  {
    ReachableInv(s);
    OpenMeansTrying(s);
    var d := s.(timers := Disarm(s.timers), expectDisconnect := false);
    FinishEffect(d, Succeeded);
    FinishCloses(d, Succeeded);
    assert s.timers.sources.Keys == HeldIds(s.timers);
    hide Finish, Inv;
  }

  /**
    CONNECTED in a walking run, whatever it was doing: the run has succeeded and nothing is
    armed; the open record becomes the success exactly if there is one, that is if a handshake
    timeout was live. Between attempts no record does.
   */
  lemma ConnectedMarks(s: State, e: Event, env: SkipAnswers)
    requires Reachable(s) && Walking(s) && e.kind.ConnectedEvent?
    ensures var n := OnEvent(s, e, env);
            && !n.active && n.phase.Succeeded? && n.timers.sources == map[]
            && (s.timers.timeoutId.Some? ==> ClosesLast(s, n, Success))
            && (s.timers.timeoutId.None? ==> n.walk.attempts == s.walk.attempts)
            && (Summarize(n.walk.attempts).success == 1 <==> s.timers.timeoutId.Some?)
  {
    ReachableInv(s);
    var n := OnEvent(s, e, env);
    ConnectedEffect(s, e, env);
    if s.timers.timeoutId.None? {
      NoneDecided(s);
      SummaryOfSkips(s.walk.attempts);
    }
    ReachableStep(s, Backend(e, env));
    assert n == Step(s, Backend(e, env));
    hide OnEvent, Inv, Summarize, Step, Reachable, Enabled;
    SummaryPartition(n);
    SuccessLast(n.walk.attempts);
  }

  lemma ConnectedEffect(s: State, e: Event, env: SkipAnswers)
    requires Inv(s) && Walking(s) && e.kind.ConnectedEvent?
    ensures var n := OnEvent(s, e, env);
            && !n.active && n.phase.Succeeded? && n.timers.sources == map[]
            && (s.timers.timeoutId.Some? ==> ClosesLast(s, n, Success))
            && (s.timers.timeoutId.None? ==> n.walk.attempts == s.walk.attempts)
  {
    var d := s.(timers := Disarm(s.timers), expectDisconnect := false);
    FinishEffect(d, Succeeded);
    if s.timers.timeoutId.Some? {
      OpenMeansTrying(s);
      FinishCloses(d, Succeeded);
    } else {
      NoneDecided(s);
    }
    assert s.timers.sources.Keys == HeldIds(s.timers);
    hide LedgerOk, WalkOk, CountOk;
  }

  /** Between attempts no record is decided. */
  lemma NoneDecided(s: State)
    requires Inv(s) && Walking(s) && s.timers.timeoutId.None?
    ensures forall k | 0 <= k < |s.walk.attempts| :: !IsTerminal(s.walk.attempts[k].outcome)
    ensures !LastIsOpen(s.walk)
  {
    assert Between(s.walk);
    hide WalkOk, CountOk, Accounted;
  }

  lemma SuccessLast(attempts: seq<Attempt>)
    requires Summarize(attempts).success + Summarize(attempts).cancelled <= 1
    ensures attempts != [] && Last(attempts).outcome.Success? ==> Summarize(attempts).success == 1
  {
    if attempts != [] {
      SummaryOfLast(attempts);
    }
    hide Summarize;
  }

  /** Cancel always ends a busy cascade: nothing stays armed, and an open attempt is closed as cancelled. */
  lemma CancelEnds(s: State, env: SkipAnswers)
    requires Reachable(s) && Busy(s)
    ensures var n := Cancel(s, env);
            && !Busy(n) && n.phase.CancelledPhase? && n.gen == s.gen + 1 && n.timers.sources == map[]
            && n.walk.queue == s.walk.queue && n.walk.failures == s.walk.failures
            && (s.timers.timeoutId.Some? ==> ClosesLast(s, n, Cancelled))
            && (s.walk.attempts == [] || Last(s.walk.attempts).finishedAt.Some? ==> n.walk.attempts == s.walk.attempts)
  {
    ReachableInv(s);
    var c := s.(auto := false, gen := s.gen + 1);
    FinishEffect(c, CancelledPhase);
    if s.timers.timeoutId.Some? {
      OpenMeansTrying(s);
      FinishCloses(c, CancelledPhase);
    }
    assert s.timers.sources.Keys == HeldIds(s.timers);
    hide LedgerOk, WalkOk, CountOk;
  }

  /** What a failure or disconnect event means by its text. */
  lemma FailureClasses(e: Event)
    ensures var text := Lower(e.error.GetOr(""));
            && (Judge(e) == Skip(AuthFailed) <==> Contains(text, "auth"))
            && (Judge(e) == Skip(Disconnected) <==> text == "")
            && (Judge(e) == Skip(ConnectError) <==> text != "" && !Contains(text, "auth") && IsDefinitiveFailure(text))
            && (Judge(e).Wait? <==> text != "" && !Contains(text, "auth") && !IsDefinitiveFailure(text))
  {
    var text := Lower(e.error.GetOr(""));
    hide IsDefinitiveFailure;
  }

  lemma LowerConcat(a: string, b: string)
    ensures Lower(a + b) == Lower(a) + Lower(b)
  {
  }

  lemma ContainsWithin(before: string, text: string, after: string, part: string)
    requires Contains(text, part)
    ensures Contains(before + text + after, part)
  {
    var i: nat :| i <= |text| && part <= text[i..];
    var whole := before + text + after;
    assert whole[|before| + i..] == text[i..] + after;
  }

  lemma ContainsTransitive(text: string, middle: string, part: string)
    requires Contains(text, middle) && Contains(middle, part)
    ensures Contains(text, part)
  {
    var i: nat :| i <= |text| && middle <= text[i..];
    var rest := text[i + |middle|..];
    assert text == text[..i] + middle + rest;
    ContainsWithin(text[..i], middle, rest, part);
  }

  /**
    Two of the ten markers of a definitive failure never decide anything: a text with
    "auth_failed" or "authentication failed" is an authentication failure, which is tried first.
   */
  lemma AuthMarkersNeverDecide(e: Event)
    ensures var text := Lower(e.error.GetOr(""));
            && (Contains(text, "auth_failed") || Contains(text, "authentication failed") ==> Judge(e) == Skip(AuthFailed))
            && (Judge(e) == Skip(ConnectError) ==> exists k | 2 <= k < |DEFINITIVE_MARKERS| :: Contains(text, DEFINITIVE_MARKERS[k]))
  {
    var text := Lower(e.error.GetOr(""));
    FailureClasses(e);
    assert DEFINITIVE_MARKERS[0] == "auth_failed" && DEFINITIVE_MARKERS[1] == "authentication failed";
    assert "auth" <= "auth_failed" && "auth" <= "authentication failed";
    hide Contains, Judge, Lower, DEFINITIVE_MARKERS;
    AuthInside(text, "auth_failed");
    AuthInside(text, "authentication failed");
  }

  /** The phrases that end an attempt, when the text is no authentication failure. */
  predicate HasPhrase(text: string) {
    || Contains(text, "tls handshake failed") || Contains(text, "certificate") || Contains(text, "permission denied")
    || Contains(text, "invalid configuration") || Contains(text, "configuration file") || Contains(text, "unsupported")
    || Contains(text, "no such file") || Contains(text, "backend unavailable")
  }

  /** Which texts end an attempt as definitive: those with one of eight phrases, in any letter case. */
  lemma DefinitivePhrases(e: Event)
    ensures var text := Lower(e.error.GetOr(""));
            Judge(e) == Skip(ConnectError) <==> !Contains(text, "auth") && HasPhrase(text)
  {
    var text := Lower(e.error.GetOr(""));
    FailureClasses(e);
    MarkersSpelledOut(text);
    AuthInside(text, "auth_failed");
    AuthInside(text, "authentication failed");
    NoPhraseInNothing();
    hide Contains, Judge, IsDefinitiveFailure, Lower, HasPhrase;
  }

  lemma NoPhraseInNothing()
    ensures !HasPhrase("")
  {
    forall part: string | part != ""
      ensures !Contains("", part)
    {
      assert forall i: nat | i <= 0 :: !(part <= ""[i..]);
    }
    hide Contains;
  }

  lemma MarkersSpelledOut(text: string)
    ensures IsDefinitiveFailure(text) <==> Contains(text, "auth_failed") || Contains(text, "authentication failed") || HasPhrase(text)
  {
    hide Contains;
    var m := DEFINITIVE_MARKERS;
    assert m[0] == "auth_failed" && m[1] == "authentication failed" && m[2] == "tls handshake failed" && m[3] == "certificate";
    assert m[4] == "permission denied" && m[5] == "invalid configuration" && m[6] == "configuration file" && m[7] == "unsupported";
    assert m[8] == "no such file" && m[9] == "backend unavailable" && |m| == 10;
  }

  lemma AuthInside(text: string, marker: string)
    requires "auth" <= marker
    ensures Contains(text, marker) ==> Contains(text, "auth")
  {
    assert marker[0..] == marker;
    assert Contains(marker, "auth");
    if Contains(text, marker) {
      ContainsTransitive(text, marker, "auth");
    }
  }

  /**
    Words around a failure text never turn it into one that is waited out: what is terminal
    stays terminal, and an authentication failure stays one.
   */
  lemma SurroundedFailureIsTerminal(e: Event, before: string, text: string, after: string)
    requires e.error == Some(text) && text != "" && Judge(e).Skip?
    ensures var w := Judge(Event(e.kind, Some(before + text + after)));
            w.Skip? && (Judge(e).reason.AuthFailed? ==> w.reason.AuthFailed?)
  {
    var whole := before + text + after;
    LowerConcat(before + text, after);
    LowerConcat(before, text);
    FailureClasses(e);
    FailureClasses(Event(e.kind, Some(whole)));
    assert Lower(text) != "" && Lower(whole) != "";
    hide Contains, Judge, Lower;
    if Contains(Lower(text), "auth") {
      ContainsWithin(Lower(before), Lower(text), Lower(after), "auth");
    } else {
      var k: nat :| k < |DEFINITIVE_MARKERS| && Contains(Lower(text), DEFINITIVE_MARKERS[k]);
      ContainsWithin(Lower(before), Lower(text), Lower(after), DEFINITIVE_MARKERS[k]);
    }
  }

  /** A terminal failure of the candidate closes its attempt, records it and goes on to the next after the settle delay. */
  lemma FailureMovesOn(s: State, e: Event, env: SkipAnswers)
    requires Reachable(s) && s.phase.Connecting? && (e.kind.FailedEvent? || e.kind.DisconnectedEvent?) && Judge(e).Skip?
    ensures var n := OnEvent(s, e, env);
            && ClosesLast(s, n, Judge(e).reason)
            && Last(n.walk.attempts).code == Some(ReasonCode(Judge(e).reason))
            && Last(n.walk.attempts).message
               == Some(if e.error.GetOr("") == "" then ReasonText(Judge(e).reason) else Said(e.error.value))
            && s.walk.current.Some?
            && n.walk.failures == s.walk.failures + [Failure(s.walk.current.value, Judge(e).reason)]
            && n.walk.index == s.walk.index + 1
            && n.phase.Settling? && n.timers.timeoutId.None? && n.timers.tickId.None? && n.timers.settleId.Some?
            && n.timers.settleId.value in n.timers.sources
            && n.timers.sources[n.timers.settleId.value].due == s.timers.now + 550
    ensures ConsumesEvent(s, e)
  {
    ReachableInv(s);
    OpenMeansTrying(s);
    var reason := Judge(e).reason;
    AdvanceEffect(s, reason, ReasonCode(reason), EventMessage(e, reason), env);
    SkippedEffect(s, reason, ReasonCode(reason), EventMessage(e, reason));
    hide Advance, Skipped, Judge;
  }

  /** While a disconnect is awaited, failures and disconnects of the old session change nothing but that expectation. */
  lemma StaleEventAbsorbed(s: State, e: Event, env: SkipAnswers)
    requires Reachable(s) && s.phase.Settling? && (e.kind.FailedEvent? || e.kind.DisconnectedEvent?)
    ensures OnEvent(s, e, env) == s.(expectDisconnect := false) && ConsumesEvent(s, e)
  {
    ReachableInv(s);
  }

  // ----- Time -----

  /** No attempt is given up as timed out before its whole budget has passed, and budgets are 30 to 45 seconds. */
  lemma FullBudget(s: State, k: nat)
    requires Reachable(s) && k < |s.walk.attempts|
    ensures var a := s.walk.attempts[k];
            && 30_000 <= a.budget <= 45_000
            && (a.outcome.TimedOut? ==> a.finishedAt.Some? && a.startedAt + a.budget <= a.finishedAt.value)
            && (a.finishedAt.Some? ==> a.startedAt <= a.finishedAt.value && a.elapsed <= a.finishedAt.value - a.startedAt)
  {
    ReachableInv(s);
    assert AttemptOk(s.walk.attempts[k], s.timers.now);
  }

  /** A failure that proves nothing is only remembered; everything else goes on as before. */
  lemma GenericFailureWaits(s: State, e: Event, env: SkipAnswers)
    requires Reachable(s) && s.phase.Connecting? && (e.kind.FailedEvent? || e.kind.DisconnectedEvent?) && Judge(e).Wait?
    ensures OnEvent(s, e, env) == s.(pendingFailure := e.error)
    ensures ConsumesEvent(s, e)
  {
    ReachableInv(s);
  }

  /** A failure event that is waited out. */
  predicate IsWaitedOut(a: Action) {
    a.Backend? && (a.event.kind.FailedEvent? || a.event.kind.DisconnectedEvent?) && Judge(a.event).Wait?
  }

  /** The text of the last failure of a run that was waited out, or what was remembered before it. */
  function Remembered(before: Option<string>, run: seq<Action>): Option<string>
    decreases |run|
  {
    if run == [] then before
    else Remembered(if IsWaitedOut(run[0]) then run[0].event.error else before, run[1..])
  }

  /** One step of an attempt that goes on: only a failure that is waited out changes what is remembered. */
  lemma AttemptGoesOn(s: State, a: Action)
    requires Inv(s) && Enabled(s, a) && s.phase.Connecting? && Step(s, a).phase.Connecting?
    ensures Step(s, a).pendingFailure == if IsWaitedOut(a) then a.event.error else s.pendingFailure
  {
    match a {
      case Dispatch(id, fire) =>
        OwnerOf(s, id);
        if s.timers.sources[id].kind.HandshakeTimer? {
          TimeoutSettles(s, fire);
        } else {
          TickKeeps(s, id, fire);
        }
        hide OnTimeout, OnTick, Good;
      case Backend(event, env) =>
        EventGoesOn(s, event, env);
        hide OnEvent, Good;
      case CancelRequest(env) =>
        CancelKeeps(s, env);
        hide Cancel, Good;
      case _ =>
        hide Good;
    }
  }

  lemma EventGoesOn(s: State, e: Event, env: SkipAnswers)
    requires s.active && s.phase.Connecting? && OnEvent(s, e, env).phase.Connecting?
    ensures OnEvent(s, e, env).pendingFailure == if IsWaitedOut(Backend(e, env)) then e.error else s.pendingFailure
  {
    if Judge(e).Skip? {
      var reason := Judge(e).reason;
      AdvanceSettles(s, reason, ReasonCode(reason), EventMessage(e, reason), env);
    }
    FinishEffect(s.(timers := Disarm(s.timers), expectDisconnect := false), Succeeded);
    hide Finish, Advance, Judge;
  }

  lemma TimeoutSettles(s: State, fire: FireAnswers)
    requires s.active
    ensures var n := OnTimeout(s, s.gen, fire.dialog, fire.skip);
            if fire.dialog then n.phase == s.phase && n.pendingFailure == s.pendingFailure && n.walk == s.walk
            else n.phase.Settling?
  {
    var t := s.(timers := s.timers.(timeoutId := None));
    var message := if s.pendingFailure.Some? && s.pendingFailure.value != "" then Said(s.pendingFailure.value)
                   else HandshakeExpired;
    AdvanceSettles(t, TimedOut, ReasonCode(TimedOut), message, fire.skip);
    hide Advance;
  }

  lemma TryAdds(s: State, a: TryAnswers, orphan: set<nat>)
    requires ReadyToTry(s, orphan) && TryCurrent(s, a).phase.Connecting?
    ensures |TryCurrent(s, a).walk.attempts| > |s.walk.attempts|
  {
    if s.walk.index < |s.walk.queue| {
      TryEffect(s, a);
      ArmedKeeps(s, orphan);
      HandshakeKeeps(Armed(s), s.walk.queue[s.walk.index], a, orphan);
      FinishEffect(Armed(s), Exhausted);
      assert |Armed(s).walk.attempts| == |s.walk.attempts| + 1;
    } else {
      FinishEffect(s, Exhausted);
    }
    hide Handshake, Finish, Good, Armed;
  }

  lemma EventAgain(s: State, e: Event, env: SkipAnswers)
    requires !s.phase.Connecting?
    ensures !OnEvent(s, e, env).phase.Connecting?
  {
    FinishEffect(s.(timers := Disarm(s.timers), expectDisconnect := false), Succeeded);
    hide Advance, Finish;
  }

  lemma DispatchAgain(s: State, id: nat, fire: FireAnswers)
    requires Inv(s) && NextDue(s.timers, id) && !s.phase.Connecting? && Fire(s, id, fire).phase.Connecting?
    ensures |Fire(s, id, fire).walk.attempts| > |s.walk.attempts|
  {
    SourceMeansWalking(s, id);
    OwnerOf(s, id);
    if s.timers.sources[id].kind.SettleTimer? {
      SettleReady(s, id);
      FireSettleEffect(s, id, fire);
      TryAdds(AfterSettle(s), fire.attempt, {id});
      hide Fire;
    } else if s.timers.sources[id].kind.HandshakeTimer? {
      TimeoutSettles(s, fire);
    } else {
      TickKeeps(s, id, fire);
      hide Fire;
    }
    hide OnTimeout, OnTick, TryCurrent, Inv;
  }

  lemma RequestAgain(s: State, a: Action)
    requires Inv(s) && Enabled(s, a) && !s.phase.Connecting? && (a.StartRequest? || a.CancelRequest?) && Step(s, a).phase.Connecting?
    ensures Step(s, a).runs != s.runs
  {
    if a.CancelRequest? {
      CancelKeeps(s, a.env);
      hide Cancel;
    } else {
      WalkingOrIdle(s);
      assert !s.active;
      StepKeeps(s, a);
      NewWalk(s, a);
      assert Inv(Step(s, a)) ==> Walking(Step(s, a));
      hide Step;
    }
    hide Good;
  }

  /** Within a run, connecting again takes a new attempt. */
  lemma ConnectingAgain(s: State, a: Action)
    requires Inv(s) && Enabled(s, a) && !s.phase.Connecting? && Step(s, a).phase.Connecting? && Step(s, a).runs == s.runs
    ensures |Step(s, a).walk.attempts| > |s.walk.attempts|
  {
    hide Fire, OnEvent, Start, Cancel, SpeedTestDone, Inv;
    match a {
      case Dispatch(id, fire) => DispatchAgain(s, id, fire);
      case Backend(event, env) => EventAgain(s, event, env);
      case StartRequest(_, _) => RequestAgain(s, a);
      case CancelRequest(_) => RequestAgain(s, a);
      case SpeedTestEnd(_, _, _, _) => EndConnecting(s, a);
      case _ =>
    }
  }

  lemma EndConnecting(s: State, a: Action)
    requires Inv(s) && Enabled(s, a) && a.SpeedTestEnd? && !s.phase.Connecting? && Step(s, a).phase.Connecting?
    ensures Step(s, a).runs != s.runs
  {
    SpeedTestDoneKeeps(s, a.results, a.names, a.list, a.env);
    if Walking(s) {
      OutsideActions(s, a);
    } else {
      NewWalk(s, a);
    }
    hide SpeedTestDone;
  }

  /** `n` is past the attempt that is the last of run `runs`, or not connecting in it any more. */
  predicate Past(n: State, runs: nat, attempts: nat) {
    n.runs > runs || (n.runs == runs && (|n.walk.attempts| > attempts || (|n.walk.attempts| == attempts && !n.phase.Connecting?)))
  }

  lemma {:induction false} PastForGood(s: State, run: seq<Action>, runs: nat, attempts: nat)
    requires Inv(s) && ValidRun(s, run) && Past(s, runs, attempts)
    ensures Past(Exec(s, run), runs, attempts)
    decreases |run|
  {
    hide Inv, Step, Enabled;
    if run != [] {
      var n := Step(s, run[0]);
      StepKeeps(s, run[0]);
      if n.runs == s.runs && n.phase.Connecting? && !s.phase.Connecting? {
        ConnectingAgain(s, run[0]);
      }
      PastForGood(n, run[1..], runs, attempts);
    }
  }

  /**
    As long as an attempt goes on, over any run, what is remembered is the text of the last
    failure that was waited out. It is what the timeout of that attempt then reports.
   */
  lemma {:induction false} FailureIsRemembered(s: State, run: seq<Action>)
    requires Inv(s) && ValidRun(s, run) && s.phase.Connecting?
    requires var e := Exec(s, run); e.phase.Connecting? && e.runs == s.runs && |e.walk.attempts| == |s.walk.attempts|
    ensures Exec(s, run).pendingFailure == Remembered(s.pendingFailure, run)
    decreases |run|
  {
    hide Inv, Step, Enabled, IsWaitedOut;
    if run != [] {
      var n := Step(s, run[0]);
      StepKeeps(s, run[0]);
      if Past(n, s.runs, |s.walk.attempts|) {
        PastForGood(n, run[1..], s.runs, |s.walk.attempts|);
      } else {
        AttemptGoesOn(s, run[0]);
        FailureIsRemembered(n, run[1..]);
      }
    }
  }

  /** The failure of an event, remembered over any run of the same attempt, is the message of the timeout that ends it. */
  lemma WaitedOutFailureIsReported(s: State, run: seq<Action>, id: nat, fire: FireAnswers)
    requires Reachable(s) && ValidRun(s, run) && s.phase.Connecting?
    requires var e := Exec(s, run);
             && e.phase.Connecting? && e.runs == s.runs && |e.walk.attempts| == |s.walk.attempts|
             && NextDue(e.timers, id) && e.timers.sources[id].kind.HandshakeTimer? && !fire.dialog
    ensures var n := Fire(Exec(s, run), id, fire);
            var text := Remembered(s.pendingFailure, run);
            && n.walk.attempts != [] && Last(n.walk.attempts).outcome.TimedOut?
            && Last(n.walk.attempts).message == Some(if text.GetOr("") != "" then Said(text.value) else HandshakeExpired)
  {
    ReachableInv(s);
    var e := Exec(s, run);
    FailureIsRemembered(s, run);
    ReachableRun(s, run);
    hide Inv, Reachable, Exec, Remembered;
    TimeoutReportsFailure(e, id, fire);
  }

  /** And it becomes the message of the timeout that ends the attempt. */
  lemma TimeoutReportsFailure(s: State, id: nat, fire: FireAnswers)
    requires Reachable(s) && NextDue(s.timers, id) && s.timers.sources[id].kind.HandshakeTimer? && !fire.dialog
    ensures var n := Fire(s, id, fire);
            && |n.walk.attempts| == |s.walk.attempts| > 0
            && var a, b := Last(s.walk.attempts), Last(n.walk.attempts);
               && b.outcome.TimedOut? && b.config == a.config && b.finishedAt == Some(s.timers.now)
               && b.code == Some(ReasonCode(TimedOut))
               && b.elapsed == (if s.timers.now + a.budget < s.deadline then 0 else s.timers.now + a.budget - s.deadline)
               && b.message == Some(if s.pendingFailure.Some? && s.pendingFailure.value != "" then Said(s.pendingFailure.value)
                                    else HandshakeExpired)
  {
    ReachableInv(s);
    OwnerOf(s, id);
    OpenMeansTrying(s);
    var t := s.(timers := s.timers.(timeoutId := None));
    var message := if s.pendingFailure.Some? && s.pendingFailure.value != "" then Said(s.pendingFailure.value)
                   else HandshakeExpired;
    AdvanceEffect(t, TimedOut, ReasonCode(TimedOut), message, fire.skip);
    SkippedEffect(t, TimedOut, ReasonCode(TimedOut), message);
    hide Advance, Skipped;
  }

  /** While a dialog is open each tick moves the deadline by exactly one tick and nothing else but its own source. */
  lemma FrozenTick(s: State, id: nat, fire: FireAnswers)
    requires Reachable(s) && NextDue(s.timers, id) && s.timers.sources[id].kind.TickTimer?
    ensures var t := s.timers;
            Fire(s, id, fire) == s.(deadline := s.deadline + if fire.dialog then 100 else 0,
                                    timers := t.(sources := t.sources[id := Source(t.now + 100, 100, TickTimer, s.gen)]))
  {
    ReachableInv(s);
    TickKeeps(s, id, fire);
  }

  /** What a request or the end of a test brings to a run that it starts. */
  predicate Starts(a: Action) {
    a.StartRequest? || a.SpeedTestEnd?
  }

  /**
    Every run that starts, from whatever action, starts with Begin from a state that may begin,
    and its queue is built from the complete list that the action brought, with the latencies
    known by then; so it has at most 50 candidates.
   */
  lemma RunsBegin(s: State, a: Action) returns (c: State, queue: seq<string>)
    requires Reachable(s) && Enabled(s, a) && Step(s, a).runs != s.runs
    ensures Starts(a) && MayBegin(c, queue) && Step(s, a) == Begin(c, queue, a.list.begin)
    ensures c.timers.now == s.timers.now && c.runs == s.runs
    ensures queue == BuildQueue(NonEmpty(a.names), c.win.latencies, true, 50)
    ensures 0 < |queue| <= 50
  {
    ReachableInv(s);
    match a {
      case StartRequest(names, list) =>
        c, queue := StartBegins(s, names, list);
      case SpeedTestEnd(results, names, list, env) =>
        c, queue := EndBegins(s, results, names, list, env);
      case _ =>
        QuietActions(s, a);
        assert false;
        c, queue := s, [];
    }
  }

  lemma QuietActions(s: State, a: Action)
    requires Inv(s) && Enabled(s, a) && !a.StartRequest? && !a.SpeedTestEnd?
    ensures Step(s, a).runs == s.runs
  {
    hide Fire, OnEvent, Cancel, Inv, LedgerGrows;
    match a {
      case Dispatch(id, fire) => FireKeeps(s, id, fire);
      case Backend(event, env) =>
        assert Good(s, {}) by { GoodNow(s); }
        hide Good;
        EventKeeps(s, event, env, {});
      case CancelRequest(env) => CancelIsQuiet(s, env);
      case _ =>
    }
  }

  lemma GoodNow(s: State)
    requires Inv(s)
    ensures Good(s, {})
  {
    hide Good;
  }

  lemma CancelIsQuiet(s: State, env: SkipAnswers)
    ensures Cancel(s, env).runs == s.runs
  {
    FinishEffect(s.(auto := false, gen := s.gen + 1), CancelledPhase);
    hide Finish;
  }

  lemma StartBegins(s: State, names: seq<string>, a: ListAnswers) returns (c: State, queue: seq<string>)
    requires Inv(s) && Start(s, names, a).runs != s.runs
    ensures MayBegin(c, queue) && Start(s, names, a) == Begin(c, queue, a.begin)
    ensures c.timers.now == s.timers.now && c.runs == s.runs && 0 < |queue| <= MAX_CASCADE_CANDIDATES
    ensures queue == BuildQueue(NonEmpty(names), c.win.latencies, true, MAX_CASCADE_CANDIDATES)
  {
    hide Begin, BuildQueue;
    c, queue := s, BuildQueue(NonEmpty(names), s.win.latencies, true, MAX_CASCADE_CANDIDATES);
    QueueShape(NonEmpty(names), s.win.latencies, true, MAX_CASCADE_CANDIDATES);
    assert MayBegin(s, queue) && Start(s, names, a) == Begin(s, queue, a.begin);
  }

  lemma EndBegins(s: State, results: Latencies, names: seq<string>, a: ListAnswers, env: SkipAnswers)
    returns (o: State, queue: seq<string>)
    requires Inv(s) && s.win.testRunning && SpeedTestDone(s, results, names, a, env).runs != s.runs
    ensures MayBegin(o, queue) && SpeedTestDone(s, results, names, a, env) == Begin(o, queue, a.begin)
    ensures o.timers.now == s.timers.now && o.runs == s.runs && 0 < |queue| <= MAX_CASCADE_CANDIDATES
    ensures queue == BuildQueue(NonEmpty(names), o.win.latencies, true, MAX_CASCADE_CANDIDATES)
  {
    var r := s.(win := s.win.(testRunning := false));
    FinishEffect(r.(auto := false, gen := r.gen + 1), CancelledPhase);
    var c := (if s.win.testCancelled then r else r.(win := r.win.(latencies := results)));
    o := c.(win := c.win.(testButton := true), auto := false);
    queue := BuildQueue(NonEmpty(names), o.win.latencies, true, MAX_CASCADE_CANDIDATES);
    QueueShape(NonEmpty(names), o.win.latencies, true, MAX_CASCADE_CANDIDATES);
    FinishEffect(o, Exhausted);
    FinishEffect(o.(walk := o.walk.(current := a.selected)), Succeeded);
    hide Begin, BuildQueue, Finish;
    assert MayBegin(o, queue) && SpeedTestDone(s, results, names, a, env) == Begin(o, queue, a.begin);
  }
}
