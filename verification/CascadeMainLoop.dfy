/**
  The main loop around the controller: it advances the clock, dispatches due sources, hands
  over backend events and user requests. Whatever it does, in whatever order and with whatever
  answers, the objects stay in the states whose properties CascadeTheorems states.
 */
module CascadeMainLoop {
  import opened CascadeSpec
  import opened CascadeInvariants
  import opened CascadeRuns
  import opened CascadeTheorems
  import opened CascadeController

  method Wait(c: CascadeController, ms: nat)
    requires c.Valid()
    modifies c.scheduler
    ensures c.Valid() && c.View() == old(c.View()).(timers := old(c.View()).timers.(now := old(c.View()).timers.now + ms))
  {
    c.scheduler.now := c.scheduler.now + ms;
  }

  method RequestSpeedTest(c: CascadeController)
    requires c.Valid()
    modifies c.win
    ensures c.Valid() && c.View() == TriggerSpeedTest(old(c.View()))
  {
    c.win.TriggerSpeedTest();
  }

  method HandOver(c: CascadeController, event: Event, env: SkipAnswers)
    requires c.Valid()
    modifies c, c.scheduler, c.win, c.attempts
    ensures c.Valid() && c.attempts == old(c.attempts) && c.View() == OnEvent(old(c.View()), event, env)
  {
    hide *;
    var _ := c.OnConnectionEvent(event, env);
  }

  /** The object does what the step says. */
  method Act(c: CascadeController, a: Action)
    requires c.Valid() && Enabled(c.View(), a)
    modifies c, c.scheduler, c.win, c.attempts
    ensures c.Valid() && c.View() == Step(old(c.View()), a)
    ensures forall k | 0 <= k < |c.attempts| :: c.attempts[k] in old(c.attempts) || fresh(c.attempts[k])
  {
    assert c.View().timers.sources == c.scheduler.sources;
    hide Start, Cancel, SpeedTestDone, Fire, OnEvent, TriggerSpeedTest;
    match a
    case Wait(ms) => Wait(c, ms);
    case Dispatch(id, fire) => c.Fire(id, fire);
    case Backend(event, env) => HandOver(c, event, env);
    case StartRequest(names, list) => c.Start(names, list);
    case CancelRequest(env) => var _ := c.Cancel(env);
    case SpeedTestRequest => RequestSpeedTest(c);
    case SpeedTestEnd(results, names, list, env) => c.OnSpeedTestComplete(results, names, list, env);
  }

  /** And so keeps the invariant of the cascade. */
  method Perform(c: CascadeController, a: Action)
    requires c.Valid() && Inv(c.View()) && Enabled(c.View(), a)
    modifies c, c.scheduler, c.win, c.attempts
    ensures c.Valid() && Inv(c.View()) && Continues(old(c.View()), c.View())
    ensures c.View() == Step(old(c.View()), a)
    ensures forall k | 0 <= k < |c.attempts| :: c.attempts[k] in old(c.attempts) || fresh(c.attempts[k])
  {
    StepKeeps(c.View(), a);
    hide *;
    Act(c, a);
  }

  /** What the theorems about reachable states mean for the objects. */
  ghost predicate Dependable(c: CascadeController)
    reads c, c.scheduler
  {
    && c.scheduler.sources.Keys == IdSet(c.timeoutId) + IdSet(c.tickId) + IdSet(c.settleId)
    && (forall id | id in c.scheduler.sources :: c.scheduler.sources[id].gen == c.gen)
    && (!c.active ==> c.scheduler.sources == map[] && !c.autoCascadeAfterTest)
    && (c.active && !c.phase.Preparing? ==> c.timeoutId.Some? || c.settleId.Some?)
    && (c.queue != [] ==> |c.failures| == c.index <= |c.queue| && forall i | 0 <= i < c.index :: c.failures[i].name == c.queue[i])
  }

  lemma SomethingIsArmed(s: State)
    requires Reachable(s) && Walking(s)
    ensures s.timers.timeoutId.Some? || s.timers.settleId.Some?
  {
    ReachableInv(s);
  }

  lemma ReachableIsDependable(c: CascadeController)
    requires Reachable(c.View())
    ensures Dependable(c)
  {
    var s := c.View();
    TimerOwnership(s);
    NeverStuck(s);
    if Walking(s) {
      SomethingIsArmed(s);
    }
    if s.walk.queue != [] {
      QueueOrderWalk(s);
    }
    hide Reachable;
    assert s.timers == c.TimersView() && s.walk == c.WalkView();
  }

  /** Every run of the objects is a run of the cascade. */
  method Loop(c: CascadeController, run: seq<Action>)
    requires c.Valid() && Reachable(c.View()) && ValidRun(c.View(), run)
    modifies c, c.scheduler, c.win, c.attempts
    ensures c.Valid() && Reachable(c.View()) && c.View() == Exec(old(c.View()), run)
    ensures Dependable(c)
  {
    for k := 0 to |run|
      invariant c.Valid() && Reachable(c.View()) && ValidRun(c.View(), run[k..])
      invariant Exec(c.View(), run[k..]) == Exec(old(c.View()), run)
      invariant forall i | 0 <= i < |c.attempts| :: c.attempts[i] in old(c.attempts) || fresh(c.attempts[i])
    {
      var a := run[k];
      RunUnfolds(c.View(), run[k..]);
      assert run[k..][0] == a && run[k..][1..] == run[k + 1..];
      ReachableStep(c.View(), a);
      hide *;
      Act(c, a);
    }
    ReachableIsDependable(c);
  }

  lemma RunUnfolds(s: State, run: seq<Action>)
    requires ValidRun(s, run) && run != []
    ensures Enabled(s, run[0]) && ValidRun(Step(s, run[0]), run[1..])
    ensures Exec(s, run) == Exec(Step(s, run[0]), run[1..])
  {
  }

  /** From the constructor on. */
  method Session(run: seq<Action>) returns (c: CascadeController)
    requires ValidRun(Initial(), run)
    ensures c.Valid() && Reachable(c.View()) && c.View() == Exec(Initial(), run)
    ensures Dependable(c)
  {
    InitialIsReachable();
    var scheduler := new TimerScheduler();
    var win := new HostWindow();
    c := new CascadeController(scheduler, win);
    hide *;
    Loop(c, run);
  }
}
