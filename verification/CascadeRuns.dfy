/**
  Whole runs: any sequence of clock advances, timer dispatches, backend events and user
  actions, in any order and with any answers, and what is true in every state they reach.
 */
module CascadeRuns {
  import opened Prelude
  import opened AttemptTiming
  import opened CandidateQueue
  import opened CascadeSpec
  import opened CascadeInvariants

  datatype Action =
    | Wait(ms: nat)
    | Dispatch(id: nat, fire: FireAnswers)
    | Backend(event: Event, env: SkipAnswers)
    | StartRequest(names: seq<string>, list: ListAnswers)
    | CancelRequest(env: SkipAnswers)
    | SpeedTestRequest
    | SpeedTestEnd(results: Latencies, names: seq<string>, list: ListAnswers, env: SkipAnswers)

  ghost predicate Enabled(s: State, a: Action) {
    match a
    case Dispatch(id, _) => NextDue(s.timers, id)
    case SpeedTestEnd(_, _, _, _) => s.win.testRunning
    case _ => true
  }

  ghost function Step(s: State, a: Action): State
    requires Enabled(s, a)
  {
    match a
    case Wait(ms) => s.(timers := s.timers.(now := s.timers.now + ms))
    case Dispatch(id, fire) => Fire(s, id, fire)
    case Backend(event, env) => OnEvent(s, event, env)
    case StartRequest(names, list) => Start(s, names, list)
    case CancelRequest(env) => Cancel(s, env)
    case SpeedTestRequest => TriggerSpeedTest(s)
    case SpeedTestEnd(results, names, list, env) => SpeedTestDone(s, results, names, list, env)
  }

  ghost predicate ValidRun(s: State, run: seq<Action>)
    decreases |run|
  {
    run == [] || (Enabled(s, run[0]) && ValidRun(Step(s, run[0]), run[1..]))
  }

  ghost function Exec(s: State, run: seq<Action>): State
    requires ValidRun(s, run)
    decreases |run|
  {
    if run == [] then s else Exec(Step(s, run[0]), run[1..])
  }

  ghost predicate Reachable(s: State) {
    exists run :: ValidRun(Initial(), run) && s == Exec(Initial(), run)
  }

  // ----- One step -----

  /** Generations and run numbers only grow, and within one run the attempts only grow. */
  ghost predicate Continues(s: State, n: State) {
    && s.gen <= n.gen && s.runs <= n.runs && s.timers.now <= n.timers.now
    && (n.runs == s.runs ==> LedgerGrows(s.walk.attempts, n.walk.attempts))
  }

  /** Within one run, no settle timer has fired. */
  ghost predicate Quiet(s: State, n: State) {
    Continues(s, n) && (n.runs == s.runs ==> n.settles == s.settles)
  }

  lemma ContinuesTransitive(a: State, b: State, c: State)
    requires Continues(a, b) && Continues(b, c)
    ensures Continues(a, c)
  {
  }

  lemma WaitKeeps(s: State, ms: nat)
    requires Inv(s)
    ensures var n := s.(timers := s.timers.(now := s.timers.now + ms)); Inv(n) && Quiet(s, n)
  {
    var n := s.(timers := s.timers.(now := s.timers.now + ms));
    assert LedgerOk(n.walk, n.timers.now, n.deadline);
  }

  lemma BeginContinues(s: State, queue: seq<string>, b: BeginAnswers)
    requires MayStart(s) && queue != [] && "" !in queue
    ensures Quiet(s, Begin(s, queue, b))
  {
    hide Begin;
    BeginKeeps(s, queue, b);
  }

  lemma FinishContinues(s: State, current: Option<string>, phase: Phase)
    requires Core(s, {}) && !Walking(s)
    requires phase.Succeeded? || phase.Exhausted? || phase.CancelledPhase?
    ensures Quiet(s, Finish(s.(walk := s.walk.(current := current)), phase))
  {
    hide Finish, Good;
    var c := s.(walk := s.walk.(current := current));
    assert Core(c, {});
    FinishKeeps(c, phase, {});
  }

  lemma StartContinues(s: State, queue: seq<string>, a: ListAnswers)
    requires MayStart(s) && "" !in queue
    ensures Quiet(s, StartWith(s, queue, a))
  {
    hide Begin, Finish;
    if queue == [] {
      FinishContinues(s, s.walk.current, Exhausted);
    } else if a.connected && a.selected == Some(queue[0]) {
      FinishContinues(s, a.selected, Succeeded);
    } else {
      BeginContinues(s, queue, a.begin);
    }
  }

  lemma StartFromListContinues(s: State, names: seq<string>, a: ListAnswers)
    requires MayStart(s)
    ensures Quiet(s, StartFromList(s, names, a))
  {
    hide StartWith, MayStart, Quiet, BuildQueue;
    QueueShape(NonEmpty(names), s.win.latencies, true, MAX_CASCADE_CANDIDATES);
    StartContinues(s, BuildQueue(NonEmpty(names), s.win.latencies, true, MAX_CASCADE_CANDIDATES), a);
  }

  lemma CancelContinues(s: State, env: SkipAnswers)
    requires Core(s, {})
    ensures Quiet(s, Cancel(s, env))
  {
    if Busy(s) {
      FinishKeeps(s.(auto := false, gen := s.gen + 1), CancelledPhase, {});
    }
  }

  lemma SpeedTestDoneContinues(s: State, results: Latencies, names: seq<string>, a: ListAnswers, env: SkipAnswers)
    requires Inv(s) && s.win.testRunning
    ensures Quiet(s, SpeedTestDone(s, results, names, a, env))
  {
    hide StartFromList, Cancel;
    var r := s.(win := s.win.(testRunning := false));
    if s.win.testCancelled && r.auto {
      CancelContinues(r, env);
      CancelKeeps(r, env);
    } else {
      var c := if s.win.testCancelled then r else r.(win := r.win.(latencies := results));
      var b := c.(win := c.win.(testButton := true));
      if b.auto {
        StartFromListContinues(b.(auto := false), names, a);
      }
    }
  }

  lemma StepKeeps(s: State, a: Action)
    requires Inv(s) && Enabled(s, a)
    ensures Inv(Step(s, a)) && Continues(s, Step(s, a))
    ensures if Walking(s) then Step(s, a).settles <= s.settles + 1 || Step(s, a).runs != s.runs
            else Quiet(s, Step(s, a))
  {
    hide Fire, OnEvent, Start, Cancel, SpeedTestDone, Inv, StartFromList;
    match a {
      case Wait(ms) => WaitKeeps(s, ms);
      case Dispatch(id, fire) =>
        FireKeeps(s, id, fire);
        SourceMeansWalking(s, id);
      case Backend(event, env) => BackendKeeps(s, event, env);
      case StartRequest(names, list) => StartRequestKeeps(s, names, list);
      case CancelRequest(env) => CancelRequestKeeps(s, env);
      case SpeedTestRequest => TriggerKeeps(s);
      case SpeedTestEnd(results, names, list, env) =>
        SpeedTestDoneKeeps(s, results, names, list, env);
        SpeedTestDoneContinues(s, results, names, list, env);
    }
  }

  lemma SourceMeansWalking(s: State, id: nat)
    requires Inv(s) && id in s.timers.sources
    ensures Walking(s)
  {
    OwnerOf(s, id);
  }

  lemma BackendKeeps(s: State, e: Event, env: SkipAnswers)
    requires Inv(s)
    ensures Inv(OnEvent(s, e, env)) && Quiet(s, OnEvent(s, e, env))
  {
    hide OnEvent, Good;
    EventKeeps(s, e, env, {});
  }

  lemma StartRequestKeeps(s: State, names: seq<string>, a: ListAnswers)
    requires Inv(s)
    ensures Inv(Start(s, names, a)) && Quiet(s, Start(s, names, a))
  {
    hide StartFromList, Good;
    StartKeeps(s, names, a);
    if !s.active && NonEmpty(names) != [] && s.win.latencies != map[] {
      StartFromListContinues(s, names, a);
    }
  }

  lemma CancelRequestKeeps(s: State, env: SkipAnswers)
    requires Inv(s)
    ensures Inv(Cancel(s, env)) && Quiet(s, Cancel(s, env))
  {
    CancelKeeps(s, env);
    CancelContinues(s, env);
  }

  lemma TriggerKeeps(s: State)
    requires Inv(s)
    ensures Inv(TriggerSpeedTest(s)) && Quiet(s, TriggerSpeedTest(s))
  {
    hide LedgerOk, WalkOk, Accounted, Paired, Trying, Between;
    var n := TriggerSpeedTest(s);
    assert n == s.(win := n.win);
    assert n.walk == s.walk && n.timers == s.timers;
  }

  // ----- All runs -----

  lemma {:induction false} RunKeeps(s: State, run: seq<Action>)
    requires Inv(s) && ValidRun(s, run)
    ensures Inv(Exec(s, run)) && Continues(s, Exec(s, run))
    decreases |run|
  {
    hide Inv, Step, Enabled;
    if run != [] {
      StepKeeps(s, run[0]);
      RunKeeps(Step(s, run[0]), run[1..]);
      ContinuesTransitive(s, Step(s, run[0]), Exec(Step(s, run[0]), run[1..]));
    }
  }

  lemma ReachableInv(s: State)
    requires Reachable(s)
    ensures Inv(s)
  {
    var run :| ValidRun(Initial(), run) && s == Exec(Initial(), run);
    assert Inv(Initial());
    RunKeeps(Initial(), run);
  }

  lemma {:induction false} Appended(s: State, run: seq<Action>, a: Action)
    requires ValidRun(s, run) && Enabled(Exec(s, run), a)
    ensures ValidRun(s, run + [a]) && Exec(s, run + [a]) == Step(Exec(s, run), a)
    decreases |run|
  {
    hide Step, Enabled;
    if run == [] {
      assert run + [a] == [a];
      assert Exec(Step(s, a), [a][1..]) == Step(s, a);
    } else {
      assert (run + [a])[1..] == run[1..] + [a];
      Appended(Step(s, run[0]), run[1..], a);
    }
  }

  lemma ReachableStep(s: State, a: Action)
    requires Reachable(s) && Enabled(s, a)
    ensures Reachable(Step(s, a))
  {
    var run :| ValidRun(Initial(), run) && s == Exec(Initial(), run);
    Appended(Initial(), run, a);
  }

  lemma {:induction false} ReachableRun(s: State, run: seq<Action>)
    requires Reachable(s) && ValidRun(s, run)
    ensures Reachable(Exec(s, run))
    decreases |run|
  {
    hide Reachable, Step, Enabled;
    if run != [] {
      ReachableStep(s, run[0]);
      ReachableRun(Step(s, run[0]), run[1..]);
    }
  }

  lemma InitialIsReachable()
    ensures Reachable(Initial())
  {
    assert ValidRun(Initial(), []) && Initial() == Exec(Initial(), []);
  }

  /** A controller starts walking only by beginning a new run, in a new generation. */
  ghost predicate Fresh(s: State, n: State) {
    && (Walking(n) ==> s.gen < n.gen && s.runs < n.runs)
    && (!s.active && n.active ==> s.gen < n.gen)
  }

  lemma NewWalk(s: State, a: Action)
    requires Inv(s) && Enabled(s, a) && !Walking(s)
    ensures Fresh(s, Step(s, a))
  {
    match a {
      case Dispatch(id, _) =>
        hide Step;
        SourceMeansWalking(s, id);
      case StartRequest(names, list) =>
        hide StartFromList, Good;
        if !s.active && s.win.latencies != map[] {
          StartIsFresh(s, names, list);
        }
      case SpeedTestEnd(results, names, list, env) =>
        EndIsFresh(s, results, names, list, env);
      case _ =>
        hide Good;
        OthersAreFresh(s, a);
    }
  }

  lemma OthersAreFresh(s: State, a: Action)
    requires Inv(s) && Enabled(s, a) && !Walking(s) && !a.Dispatch? && !a.StartRequest? && !a.SpeedTestEnd?
    ensures Fresh(s, Step(s, a))
  {
    if a.CancelRequest? {
      CancelKeeps(s, a.env);
      hide Cancel;
    } else if a.Backend? {
      EventKeeps(s, a.event, a.env, {});
      if a.event.kind.ConnectedEvent? {
        FinishEffect(s.(timers := Disarm(s.timers), expectDisconnect := false), Succeeded);
      }
      hide Finish, Advance;
    }
  }

  lemma StartIsFresh(s: State, names: seq<string>, a: ListAnswers)
    requires MayStart(s)
    ensures Fresh(s, StartFromList(s, names, a))
  {
    hide Begin, BuildQueue, Finish;
    var queue := BuildQueue(NonEmpty(names), s.win.latencies, true, MAX_CASCADE_CANDIDATES);
    QueueShape(NonEmpty(names), s.win.latencies, true, MAX_CASCADE_CANDIDATES);
    FinishEffect(s, Exhausted);
    FinishEffect(s.(walk := s.walk.(current := a.selected)), Succeeded);
    if queue != [] {
      BeginKeeps(s, queue, a.begin);
    }
  }

  lemma EndIsFresh(s: State, results: Latencies, names: seq<string>, a: ListAnswers, env: SkipAnswers)
    requires Inv(s) && s.win.testRunning && !Walking(s)
    ensures Fresh(s, SpeedTestDone(s, results, names, a, env))
  {
    hide StartFromList, Cancel;
    var r := s.(win := s.win.(testRunning := false));
    if s.win.testCancelled && r.auto {
      CancelKeeps(r, env);
    } else {
      var c := if s.win.testCancelled then r else r.(win := r.win.(latencies := results));
      var b := c.(win := c.win.(testButton := true));
      if b.auto {
        StartIsFresh(b.(auto := false), names, a);
      }
    }
  }
}
