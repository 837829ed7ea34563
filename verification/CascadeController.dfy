/**
  The controller as the program has it: objects whose methods change fields, arm timers and
  mutate attempt records in place. Every method is proved to take the abstract state where
  the function of the same step in CascadeSpec takes it.
 */
module CascadeController {
  import opened Prelude
  import opened AttemptTiming
  import opened CandidateQueue
  import opened CascadeSpec

  /** The mutable record of one attempt. */
  class ConnectionAttempt {
    const configId: string
    const startedAt: nat
    const timeoutMs: nat
    var finishedAt: Option<nat>
    var elapsed: nat
    var result: Outcome
    var errorCode: Option<ErrorCode>
    var errorMessage: Option<Message>

    constructor (configId: string, startedAt: nat, timeoutMs: nat)
      ensures Record() == OpenAttempt(configId, startedAt, timeoutMs)
    {
      this.configId, this.startedAt, this.timeoutMs := configId, startedAt, timeoutMs;
      finishedAt, elapsed, result, errorCode, errorMessage := None, 0, Pending, None, None;
    }

    method Close(now: nat, deadline: nat, result: Outcome, code: Option<ErrorCode>, message: Option<Message>)
      modifies this
      ensures Record() == CloseAttempt(old(Record()), now, deadline, result, code, message)
    {
      finishedAt := Some(now);
      elapsed := Max(0, now - (deadline - timeoutMs));
      this.result := result;
      errorCode := code;
      errorMessage := message;
    }

    function Record(): Attempt
      reads this
    {
      Attempt(configId, startedAt, timeoutMs, finishedAt, elapsed, result, errorCode, errorMessage)
    }
  }

  /** The timer sources and the clock. */
  class TimerScheduler {
    var now: nat
    var nextId: nat
    var sources: map<nat, Source>

    constructor ()
      ensures now == 0 && nextId == 1 && sources == map[]
    {
      now, nextId, sources := 0, 1, map[];
    }

    method AddTimeout(interval: nat, kind: TimerKind, gen: nat) returns (id: nat)
      modifies this
      ensures id == old(nextId) && nextId == id + 1 && now == old(now)
      ensures sources == old(sources)[id := Source(now + interval, interval, kind, gen)]
    {
      id := nextId;
      sources := sources[id := Source(now + interval, interval, kind, gen)];
      nextId := nextId + 1;
    }

    method RemoveTimeout(id: Option<nat>)
      modifies this`sources
      ensures sources == old(sources) - IdSet(id)
    {
      if id.Some? {
        sources := sources - {id.value};
      }
    }
  }

  /** The part of the main window that the cascade shares. */
  class HostWindow {
    var latencies: Latencies
    var testRunning: bool
    var testCancelled: bool
    var testButton: bool

    constructor ()
      ensures Shared() == Window(map[], false, false, true)
    {
      latencies, testRunning, testCancelled, testButton := map[], false, false, true;
    }

    function Shared(): Window
      reads this
    {
      Window(latencies, testRunning, testCancelled, testButton)
    }

    /** A second request while a test is running cancels it. */
    method TriggerSpeedTest()
      modifies this
      ensures old(testRunning) ==> Shared() == old(Shared()).(testCancelled := true, testButton := false)
      ensures !old(testRunning) && !old(testButton) ==> Shared() == old(Shared())
      ensures !old(testRunning) && old(testButton) ==> Shared() == old(Shared()).(testCancelled := false, testRunning := true)
    {
      if testRunning {
        testCancelled := true;
        testButton := false;
        return;
      }
      if !testButton {
        return;
      }
      testCancelled := false;
      testRunning := true;
      testButton := true;
    }
  }

  lemma RemovedTogether(m: map<nat, Source>, a: set<nat>, b: set<nat>, c: set<nat>)
    ensures m - a - b - c == m - (a + b + c)
  {
  }

  class CascadeController {
    const scheduler: TimerScheduler
    const win: HostWindow

    var active: bool
    var autoCascadeAfterTest: bool
    var phase: Phase
    var gen: nat
    var queue: seq<string>
    var index: nat
    var deadline: nat
    var current: Option<string>
    var failures: seq<Failure>
    var attempts: seq<ConnectionAttempt>
    var activeAttempt: ConnectionAttempt?
    var expectDisconnect: bool
    var disconnectRetries: nat
    var pendingFailureMessage: Option<string>
    var timeoutId: Option<nat>
    var tickId: Option<nat>
    var settleId: Option<nat>

    ghost var records: seq<Attempt>
    ghost var slots: seq<nat>
    ghost var runs: nat
    ghost var settles: nat

    constructor (scheduler: TimerScheduler, win: HostWindow)
      requires scheduler.now == 0 && scheduler.nextId == 1 && scheduler.sources == map[]
      requires win.Shared() == Window(map[], false, false, true)
      ensures Valid() && View() == Initial() && attempts == []
      ensures this.scheduler == scheduler && this.win == win
    {
      this.scheduler, this.win := scheduler, win;
      active, autoCascadeAfterTest, phase, gen := false, false, Idle, 0;
      queue, index, deadline, current := [], 0, 0, None;
      failures, attempts, activeAttempt := [], [], null;
      expectDisconnect, disconnectRetries, pendingFailureMessage := false, 0, None;
      timeoutId, tickId, settleId := None, None, None;
      records, slots, runs, settles := [], [], 0, 0;
    }

    /** `records` is what the attempt objects hold; they are distinct, and the active one is the last. */
    ghost predicate Valid()
      reads this`records, this`attempts, this`activeAttempt, attempts
    {
      && |records| == |attempts|
      && (forall i | 0 <= i < |attempts| :: records[i] == attempts[i].Record())
      && (forall i, j | 0 <= i < j < |attempts| :: attempts[i] != attempts[j])
      && (activeAttempt != null ==> attempts != [] && activeAttempt == Last(attempts))
    }

    ghost function TimersView(): Timers
      reads this`timeoutId, this`tickId, this`settleId, scheduler
    {
      Timers(scheduler.now, scheduler.nextId, scheduler.sources, timeoutId, tickId, settleId)
    }

    ghost function WalkView(): Walk
      reads this`queue, this`index, this`current, this`failures, this`records, this`activeAttempt, this`slots
    {
      Walk(queue, index, current, failures, records, activeAttempt != null, slots)
    }

    ghost function View(): State
      reads this, scheduler, win
    {
      State(active, autoCascadeAfterTest, phase, gen, deadline, expectDisconnect, disconnectRetries,
            pendingFailureMessage, WalkView(), TimersView(), win.Shared(), runs, settles)
    }

    // ----- Timers -----

    method DisarmTimers()
      modifies this`timeoutId, this`tickId, this`settleId, scheduler`sources
      ensures View() == old(View()).(timers := Disarm(old(TimersView())))
    {
      scheduler.RemoveTimeout(timeoutId);
      scheduler.RemoveTimeout(tickId);
      scheduler.RemoveTimeout(settleId);
      RemovedTogether(old(scheduler.sources), IdSet(timeoutId), IdSet(tickId), IdSet(settleId));
      timeoutId, tickId, settleId := None, None, None;
    }

    method ArmTimeoutAndTicks()
      modifies this`timeoutId, this`tickId, this`settleId, scheduler
      ensures View() == old(View()).(timers := ArmTimeoutAndTick(old(TimersView()), deadline, gen))
    {
      hide CascadeSpec.Disarm;
      DisarmTimers();
      assert TimersView() == View().timers;
      var remaining := Max(SHORTEST_TIMEOUT_MS, deadline - scheduler.now);
      var t := scheduler.AddTimeout(remaining, HandshakeTimer, gen);
      timeoutId := Some(t);
      var k := scheduler.AddTimeout(PROGRESS_TICK_MS, TickTimer, gen);
      tickId := Some(k);
    }

    method ArmSettleTimer()
      modifies this`settleId, scheduler
      ensures View() == Settle(old(View()))
    {
      scheduler.RemoveTimeout(settleId);
      var id := scheduler.AddTimeout(DISCONNECT_SETTLE_MS, SettleTimer, gen);
      settleId := Some(id);
    }

    // ----- The ledger -----

    method CloseActive(result: Outcome, code: Option<ErrorCode>, message: Option<Message>)
      requires Valid() && activeAttempt != null
      modifies this`records, attempts
      ensures Valid() && |records| == |old(records)|
      ensures records == old(records)[|records| - 1 := CloseAttempt(Last(old(records)), scheduler.now, deadline, result, code, message)]
    {
      hide CloseAttempt;
      activeAttempt.Close(scheduler.now, deadline, result, code, message);
      records := records[|records| - 1 := activeAttempt.Record()];
    }

    method CloseOpenOne(result: Outcome, code: Option<ErrorCode>, message: Option<Message>)
      requires Valid() && activeAttempt != null && records != [] && Last(records).finishedAt.None?
      modifies this`records, attempts
      ensures Valid() && View() == CompleteActive(old(View()), result, code, message)
    {
      assert View().timers.now == scheduler.now;
      hide CloseAttempt, Valid, TimersView;
      CloseActive(result, code, message);
    }

    /** Closes the current attempt exactly once. */
    method CompleteActiveAttempt(result: Outcome, code: Option<ErrorCode>, message: Option<Message>)
      requires Valid()
      modifies this`records, attempts
      ensures Valid() && View() == CompleteActive(old(View()), result, code, message)
    {
      assert activeAttempt != null ==> records != [] && activeAttempt.finishedAt == Last(records).finishedAt;
      if activeAttempt != null && activeAttempt.finishedAt.None? {
        CloseOpenOne(result, code, message);
      }
    }

    method AttemptSummary() returns (timeouts: nat, handshakeFailures: nat, backendErrors: nat, cancelled: nat, success: nat)
      requires Valid()
      ensures Summary(timeouts, handshakeFailures, backendErrors, cancelled, success) == Summarize(View().walk.attempts)
    {
      timeouts, handshakeFailures, backendErrors, cancelled, success := 0, 0, 0, 0, 0;
      assert Summarize([]) == Summary(0, 0, 0, 0, 0);
      hide Summarize;
      assert records[..0] == [];
      for i := 0 to |attempts|
        invariant Summary(timeouts, handshakeFailures, backendErrors, cancelled, success) == Summarize(records[..i])
      {
        SummaryOfLast(records[..i + 1]);
        assert records[..i + 1][..i] == records[..i];
        var result := attempts[i].result;
        assert Last(records[..i + 1]).outcome == result;
        hide Valid;
        if result.TimedOut? {
          timeouts := timeouts + 1;
        } else if result.AuthFailed? || result.ConnectError? || result.Disconnected? {
          handshakeFailures := handshakeFailures + 1;
        } else if result.BackendError? || result.MissingFile? {
          backendErrors := backendErrors + 1;
        } else if result.Cancelled? {
          cancelled := cancelled + 1;
        } else if result.Success? {
          success := success + 1;
        }
      }
      assert records[..|attempts|] == records;
    }

    // ----- Ending a run -----

    /** The part of `finish` before the last attempt is closed. */
    method EndRun(outcome: Phase)
      requires Valid()
      modifies this`active, this`phase, this`expectDisconnect, this`autoCascadeAfterTest, this`timeoutId, this`tickId, this`settleId
      modifies scheduler`sources, win`testButton
      ensures Valid() && View() == Ended(old(View()), outcome)
    {
      ghost var v := View();
      assert Ended(v, outcome) ==
        v.(timers := Disarm(v.timers), active := false, phase := outcome, expectDisconnect := false, auto := false,
           win := v.win.(testButton := true));
      hide *;
      DisarmNow();
      Deactivate(outcome);
      ExpectDisconnect(false);
      EndPreparing();
      ReleaseTestButton();
    }

    method Deactivate(outcome: Phase)
      requires Valid()
      modifies this`active, this`phase
      ensures Valid() && View() == old(View()).(active := false, phase := outcome)
    {
      hide Valid;
      active := false;
      phase := outcome;
    }

    /** `env` is what the backend answers when a cancelled run asks it to disconnect; `asked` says that it was asked. */
    method Finish(outcome: Phase, restoreConnectUi: bool, env: SkipAnswers) returns (asked: bool)
      requires Valid()
      modifies this, scheduler, win, attempts
      ensures Valid() && attempts == old(attempts)
      ensures var f := CascadeSpec.Finish(old(View()), outcome);
              View() == if outcome.CancelledPhase? && restoreConnectUi && !old(phase).Preparing? && env.connected
                        then CallDisconnect(f, env.disconnect) else f
      ensures asked <==> outcome.CancelledPhase? && restoreConnectUi && !old(phase).Preparing? && env.connected
      decreases env, 2
    {
      asked := false;
      hide Ended, CompleteActive, OnEvent, View, Valid;
      var wasPreparing := phase.Preparing?;
      EndRun(outcome);
      if outcome.Succeeded? {
        CompleteActiveAttempt(Success, None, None);
        return;
      }
      if outcome.CancelledPhase? {
        CompleteActiveAttempt(Cancelled, Some(CancelledCode), Some(CancelledByUser));
        if restoreConnectUi && !wasPreparing && env.connected {
          DisconnectBackend(env.disconnect);
          asked := true;
        }
        return;
      }
      CompleteActiveAttempt(BackendError, Some(NoUsableCandidate), Some(NoCandidateRemained));
    }

    /** `cm.disconnect()`: the backend may call back before it returns. */
    method DisconnectBackend(answer: DisconnectAnswer)
      requires Valid()
      modifies this, scheduler, win, attempts
      ensures Valid() && attempts == old(attempts)
      ensures View() == CallDisconnect(old(View()), answer)
      decreases answer, 4
    {
      if answer.DisconnectCallsBack? {
        var _ := OnConnectionEvent(LOST, answer.inner);
      }
    }

    // ----- Events -----

    /** The parts of `on_connection_event` that only set a field. */
    method ExpectDisconnect(expected: bool)
      requires Valid()
      modifies this`expectDisconnect
      ensures Valid() && View() == old(View()).(expectDisconnect := expected)
    {
      hide Valid;
      expectDisconnect := expected;
    }

    method RememberFailure(text: string)
      requires Valid()
      modifies this`pendingFailureMessage
      ensures Valid() && View() == old(View()).(pendingFailure := Some(text))
    {
      hide Valid;
      pendingFailureMessage := Some(text);
    }

    method AcceptConnection(env: SkipAnswers)
      requires Valid()
      modifies this, scheduler, win, attempts
      ensures Valid() && attempts == old(attempts)
      ensures View() == CascadeSpec.Finish(old(View()).(timers := Disarm(old(View()).timers), expectDisconnect := false), Succeeded)
      decreases env, 3
    {
      hide *;
      DisarmNow();
      ExpectDisconnect(false);
      var _ := Finish(Succeeded, false, env);
    }

    /** A failure or a disconnect. */
    method OnFailureEvent(event: Event, env: SkipAnswers)
      requires Valid() && active && (event.kind.FailedEvent? || event.kind.DisconnectedEvent?)
      modifies this, scheduler, win, attempts
      ensures Valid() && attempts == old(attempts)
      ensures View() == OnEvent(old(View()), event, env)
      decreases env, 3
    {
      ghost var v := View();
      assert v.active && v.phase == phase && v.expectDisconnect == expectDisconnect;
      var verdict := Judge(event);
      assert OnEvent(v, event, env) ==
        if phase.Settling? && expectDisconnect then v.(expectDisconnect := false)
        else if phase.Connecting? then
          if verdict.Wait? then v.(pendingFailure := Some(verdict.text))
          else CascadeSpec.Advance(v, verdict.reason, ReasonCode(verdict.reason), EventMessage(event, verdict.reason), env)
        else v;
      hide *;
      if phase.Settling? && expectDisconnect {
        ExpectDisconnect(false);
      } else if phase.Connecting? {
        if verdict.Wait? {
          RememberFailure(verdict.text);
        } else {
          Advance(verdict.reason, ReasonCode(verdict.reason), EventMessage(event, verdict.reason), env);
        }
      }
    }

    method OnConnectionEvent(event: Event, env: SkipAnswers) returns (consumed: bool)
      requires Valid()
      modifies this, scheduler, win, attempts
      ensures Valid() && attempts == old(attempts)
      ensures View() == OnEvent(old(View()), event, env)
      ensures consumed == ConsumesEvent(old(View()), event)
      decreases env, 4
    {
      ghost var v := View();
      assert v.active == active;
      assert ConsumesEvent(v, event) == (active && (event.kind.ProgressEvent? || event.kind.FailedEvent? || event.kind.DisconnectedEvent?));
      assert active && event.kind.ConnectedEvent? ==>
        OnEvent(v, event, env) == CascadeSpec.Finish(v.(timers := Disarm(v.timers), expectDisconnect := false), Succeeded);
      assert !active || event.kind.ProgressEvent? || event.kind.PausedEvent? || event.kind.ResumedEvent? ==> OnEvent(v, event, env) == v;
      hide *;
      if !active {
        return false;
      }
      if event.kind.ConnectedEvent? {
        AcceptConnection(env);
        return false;
      }
      if event.kind.ProgressEvent? {
        return true;
      }
      if !event.kind.FailedEvent? && !event.kind.DisconnectedEvent? {
        return false;
      }
      OnFailureEvent(event, env);
      return true;
    }

    // ----- Leaving a candidate -----

    method AppendFailure(name: string, reason: Outcome)
      requires Valid()
      modifies this`failures
      ensures Valid() && View() == AppendedFailure(old(View()), name, reason)
    {
      hide Valid;
      failures := failures + [CascadeSpec.Failure(name, reason)];
    }

    method RecordSkip(reason: Outcome, code: ErrorCode, message: Message)
      requires Valid()
      modifies this`failures, this`records, attempts
      ensures Valid() && View() == RecordFailure(old(View()), reason, code, message)
    {
      ghost var v := View();
      assert v.walk.current == current;
      assert RecordFailure(v, reason, code, message) ==
        if current.Some? && current.value != ""
        then CompleteActive(AppendedFailure(v, current.value, reason), reason, Some(code), Some(message)) else v;
      hide *;
      if current.Some? && current.value != "" {
        AppendFailure(current.value, reason);
        CompleteActiveAttempt(reason, Some(code), Some(message));
      }
    }

    method LeaveCandidate(reason: Outcome, code: ErrorCode, message: Message)
      requires Valid()
      modifies this`failures, this`records, this`index, this`phase, this`expectDisconnect
      modifies this`timeoutId, this`tickId, this`settleId, scheduler`sources, attempts
      ensures Valid() && View() == Skipped(old(View()), reason, code, message)
    {
      ghost var r := RecordFailure(View(), reason, code, message);
      assert Skipped(View(), reason, code, message) ==
        r.(timers := Disarm(r.timers), walk := r.walk.(index := r.walk.index + 1), phase := Settling, expectDisconnect := true);
      hide *;
      RecordSkip(reason, code, message);
      DisarmNow();
      MoveOn();
    }

    method DisarmNow()
      requires Valid()
      modifies this`timeoutId, this`tickId, this`settleId, scheduler`sources
      ensures Valid() && View() == old(View()).(timers := Disarm(old(View()).timers))
    {
      assert TimersView() == View().timers;
      hide Valid, CascadeSpec.Disarm;
      DisarmTimers();
    }

    method MoveOn()
      requires Valid()
      modifies this`index, this`phase, this`expectDisconnect
      ensures Valid()
      ensures var v := old(View());
              View() == v.(walk := v.walk.(index := v.walk.index + 1), phase := Settling, expectDisconnect := true)
    {
      hide Valid, TimersView;
      index := index + 1;
      phase := Settling;
      expectDisconnect := true;
    }

    /** Marks the current attempt as failed and moves to the next server. */
    method Advance(reason: Outcome, code: ErrorCode, message: Message, env: SkipAnswers)
      requires Valid()
      modifies this, scheduler, win, attempts
      ensures Valid() && attempts == old(attempts)
      ensures View() == CascadeSpec.Advance(old(View()), reason, code, message, env)
      decreases env, 1
    {
      ghost var v := View();
      assert v.active == active;
      assert CascadeSpec.Advance(v, reason, code, message, env) ==
        if !active then v
        else if env.connected then Settle(CallDisconnect(Skipped(v, reason, code, message), env.disconnect))
        else Settle(Skipped(v, reason, code, message));
      hide *;
      if !active {
        return;
      }
      LeaveCandidate(reason, code, message);
      if env.connected {
        DisconnectBackend(env.disconnect);
      }
      ArmSettleTimer();
    }

    // ----- Trying a candidate -----

    method OnTimeout(generation: nat, dialog: bool, env: SkipAnswers)
      requires Valid()
      modifies this, scheduler, win, attempts
      ensures Valid() && attempts == old(attempts)
      ensures View() == CascadeSpec.OnTimeout(old(View()), generation, dialog, env)
    {
      ghost var v := View();
      ForgetTimeout();
      ghost var t := View();
      assert t.active == active && t.gen == gen && t.pendingFailure == pendingFailureMessage && t.timers.now == scheduler.now;
      hide View, Valid, ArmTimeoutAndTick, CascadeSpec.Advance;
      if !active || generation != gen {
        return;
      }
      if dialog {
        GrantGrace();
        return;
      }
      var message := if pendingFailureMessage.Some? && pendingFailureMessage.value != "" then Said(pendingFailureMessage.value)
                     else HandshakeExpired;
      Advance(TimedOut, ReasonCode(TimedOut), message, env);
    }

    method ForgetTimeout()
      requires Valid()
      modifies this`timeoutId
      ensures Valid() && View() == old(View()).(timers := old(View()).timers.(timeoutId := None))
    {
      hide Valid;
      timeoutId := None;
    }

    method GrantGrace()
      requires Valid()
      modifies this`deadline, this`timeoutId, this`tickId, this`settleId, scheduler
      ensures Valid()
      ensures var d := old(scheduler.now) + DIALOG_GRACE_MS;
              View() == old(View()).(deadline := d, timers := ArmTimeoutAndTick(old(View()).timers, d, gen))
    {
      hide Valid, ArmTimeoutAndTick;
      deadline := scheduler.now + DIALOG_GRACE_MS;
      assert TimersView() == View().timers;
      ArmTimeoutAndTicks();
    }

    method UpdateConnectButtonTimer(dialog: bool, env: SkipAnswers)
      requires Valid()
      modifies this, scheduler, win, attempts
      ensures Valid() && attempts == old(attempts)
      ensures View() == UpdateConnectButton(old(View()), dialog, env)
    {
      ghost var v := View();
      assert v.active == active && v.walk.current == current && v.deadline == deadline && v.timers.now == scheduler.now && v.gen == gen;
      hide View, Valid, CascadeSpec.OnTimeout;
      if active && current.Some? && deadline <= scheduler.now {
        OnTimeout(gen, dialog, env);
      }
    }

    /** Opens the record of the attempt that begins now. */
    method OpenRecord(name: string, budget: nat)
      requires Valid()
      modifies this`attempts, this`activeAttempt, this`records, this`slots
      ensures Valid() && forall k | 0 <= k < |attempts| :: attempts[k] in old(attempts) || fresh(attempts[k])
      ensures activeAttempt != null && slots == old(slots) + [index]
      ensures records == old(records) + [OpenAttempt(name, scheduler.now, budget)]
    {
      hide OpenAttempt;
      activeAttempt := new ConnectionAttempt(name, scheduler.now, budget);
      attempts := attempts + [activeAttempt];
      records := records + [activeAttempt.Record()];
      slots := slots + [index];
    }

    method StartCandidate()
      requires Valid() && index < |queue|
      modifies this`current, this`phase, this`deadline, this`pendingFailureMessage
      modifies this`attempts, this`activeAttempt, this`records, this`slots
      ensures Valid() && forall k | 0 <= k < |attempts| :: attempts[k] in old(attempts) || fresh(attempts[k])
      ensures View() == StartAttempt(old(View()))
    {
      hide Valid, OpenAttempt;
      var filename := queue[index];
      var timeout := ComputeAttemptTimeout(Rtt(win.latencies, filename));
      OpenRecord(filename, timeout);
      current := Some(filename);
      phase := Connecting;
      deadline := scheduler.now + timeout;
      pendingFailureMessage := None;
    }

    // Small steps of `_try_current_server` and `_begin`, each with its effect on the state.

    method SetRetries(retries: nat)
      requires Valid()
      modifies this`disconnectRetries
      ensures Valid() && View() == old(View()).(retries := retries)
    {
      hide Valid;
      disconnectRetries := retries;
    }

    method AwaitDisconnect()
      requires Valid()
      modifies this`expectDisconnect, this`phase
      ensures Valid() && View() == old(View()).(expectDisconnect := true, phase := Settling)
    {
      hide Valid;
      expectDisconnect := true;
      phase := Settling;
    }

    method ArmForAttempt()
      requires Valid()
      modifies this`timeoutId, this`tickId, this`settleId, scheduler
      ensures Valid()
      ensures var v := old(View());
              View() == v.(timers := ArmTimeoutAndTick(v.timers, v.deadline, v.gen))
    {
      hide Valid, ArmTimeoutAndTick;
      assert TimersView() == View().timers && View().deadline == deadline && View().gen == gen;
      ArmTimeoutAndTicks();
    }

    method BackendFailed(a: TryAnswers)
      requires Valid()
      modifies this, scheduler, win, attempts
      ensures Valid() && attempts == old(attempts)
      ensures View() == ConnectFault(old(View()), a)
    {
      hide Valid, View, CascadeSpec.Advance;
      Advance(ConnectError, BackendFault, ErrorMessage(a.exceptionText), a.skip);
    }

    method RequestDisconnect(a: TryAnswers)
      requires Valid()
      modifies this, scheduler, win, attempts
      ensures Valid() && attempts == old(attempts)
      ensures var d := old(View()).(expectDisconnect := true, phase := Settling);
              View() == if a.disconnect.DisconnectRaises? then ConnectFault(d, a) else Settle(CallDisconnect(d, a.disconnect))
    {
      hide *;
      AwaitDisconnect();
      if a.disconnect.DisconnectRaises? {
        BackendFailed(a);
      } else {
        DisconnectBackend(a.disconnect);
        ArmSettleTimer();
      }
    }

    /** A backend that is still connected is asked to disconnect, at most three times in a row. */
    method DropSession(a: TryAnswers, ghost filename: string)
      requires Valid() && a.status.StatusUp? && !a.watchRaises
      modifies this, scheduler, win, attempts
      ensures Valid() && attempts == old(attempts)
      ensures View() == Handshake(old(View()), filename, a)
    {
      ghost var v := View();
      assert v.retries == disconnectRetries;
      ghost var r := v.(retries := v.retries + 1);
      ghost var d := r.(expectDisconnect := true, phase := Settling);
      assert Handshake(v, filename, a) ==
        if r.retries > MAX_DISCONNECT_RETRIES
        then CascadeSpec.Advance(r, Disconnected, ReasonCode(Disconnected), ReasonText(Disconnected), a.skip)
        else if a.disconnect.DisconnectRaises? then ConnectFault(d, a) else Settle(CallDisconnect(d, a.disconnect));
      hide *;
      SetRetries(disconnectRetries + 1);
      if disconnectRetries > MAX_DISCONNECT_RETRIES {
        Advance(Disconnected, ReasonCode(Disconnected), ReasonText(Disconnected), a.skip);
      } else {
        RequestDisconnect(a);
      }
    }

    method Connect(filename: string, a: TryAnswers)
      requires Valid() && a.status.StatusDown? && !a.watchRaises
      modifies this, scheduler, win, attempts
      ensures Valid() && attempts == old(attempts)
      ensures View() == Handshake(old(View()), filename, a)
    {
      ghost var v := View();
      ghost var c := v.(retries := 0);
      assert Handshake(v, filename, a) ==
        if !a.fileExists then CascadeSpec.Advance(c, MissingFile, ConfigMissing, FileMissing(filename), a.skip)
        else if a.connect.ConnectRaises?
        then CascadeSpec.Advance(c, ConnectError, BackendFault, ErrorMessage(a.exceptionText), a.skip)
        else if a.connect.ConnectCallsBack? then OnEvent(c, a.connect.event, a.connect.inner) else c;
      hide *;
      SetRetries(0);
      if !a.fileExists {
        Advance(MissingFile, ConfigMissing, FileMissing(filename), a.skip);
        return;
      }
      if a.connect.ConnectRaises? {
        Advance(ConnectError, BackendFault, ErrorMessage(a.exceptionText), a.skip);
      } else if a.connect.ConnectCallsBack? {
        var _ := OnConnectionEvent(a.connect.event, a.connect.inner);
      }
    }

    method ShakeHands(filename: string, a: TryAnswers)
      requires Valid()
      modifies this, scheduler, win, attempts
      ensures Valid() && attempts == old(attempts)
      ensures View() == Handshake(old(View()), filename, a)
    {
      ghost var v := View();
      assert a.watchRaises || a.status.StatusRaises? ==>
        Handshake(v, filename, a) == CascadeSpec.Advance(v, ConnectError, BackendFault, ErrorMessage(a.exceptionText), a.skip);
      hide *;
      if a.watchRaises || a.status.StatusRaises? {
        Advance(ConnectError, BackendFault, ErrorMessage(a.exceptionText), a.skip);
      } else if a.status.StatusUp? {
        DropSession(a, filename);
      } else {
        Connect(filename, a);
      }
    }

    /** The next server of the queue gets its attempt. */
    method TryCandidate(a: TryAnswers)
      requires Valid() && active && index < |queue|
      modifies this, scheduler, win, attempts
      ensures Valid() && forall k | 0 <= k < |attempts| :: attempts[k] in old(attempts) || fresh(attempts[k])
      ensures View() == TryCurrent(old(View()), a)
    {
      ghost var v := View();
      assert v.active && v.walk.index == index && v.walk.queue == queue;
      ghost var tried := UpdateConnectButton(StartAttempt(v), a.dialog, a.skip).(expectDisconnect := false);
      ghost var armed := tried.(timers := ArmTimeoutAndTick(tried.timers, tried.deadline, tried.gen));
      var filename := queue[index];
      assert TryCurrent(v, a) == Handed(armed, filename, a);
      hide *;
      StartCandidate();
      RefreshAndArm(a);
      HandOver(filename, a);
    }

    method RefreshAndArm(a: TryAnswers)
      requires Valid()
      modifies this, scheduler, win, attempts
      ensures Valid() && attempts == old(attempts)
      ensures var tried := UpdateConnectButton(old(View()), a.dialog, a.skip).(expectDisconnect := false);
              View() == tried.(timers := ArmTimeoutAndTick(tried.timers, tried.deadline, tried.gen))
    {
      hide *;
      UpdateConnectButtonTimer(a.dialog, a.skip);
      ExpectDisconnect(false);
      ArmForAttempt();
    }

    ghost function Handed(armed: State, filename: string, a: TryAnswers): State {
      if !a.manager then CascadeSpec.Finish(armed, Exhausted) else Handshake(armed, filename, a)
    }

    method HandOver(filename: string, a: TryAnswers)
      requires Valid()
      modifies this, scheduler, win, attempts
      ensures Valid() && attempts == old(attempts)
      ensures View() == Handed(old(View()), filename, a)
    {
      hide CascadeSpec.Finish, Handshake, View, Valid;
      if !a.manager {
        EndExhausted(a.skip);
      } else {
        ShakeHands(filename, a);
      }
    }

    method TryCurrentServer(a: TryAnswers)
      requires Valid()
      modifies this, scheduler, win, attempts
      ensures Valid() && forall k | 0 <= k < |attempts| :: attempts[k] in old(attempts) || fresh(attempts[k])
      ensures View() == TryCurrent(old(View()), a)
    {
      ghost var v := View();
      assert v.active == active && v.walk.index == index && v.walk.queue == queue;
      assert !active ==> TryCurrent(v, a) == v;
      assert active && index >= |queue| ==> TryCurrent(v, a) == CascadeSpec.Finish(v, Exhausted);
      hide *;
      if !active {
        return;
      }
      if index >= |queue| {
        EndExhausted(a.skip);
        return;
      }
      TryCandidate(a);
    }

    method EndExhausted(env: SkipAnswers)
      requires Valid()
      modifies this, scheduler, win, attempts
      ensures Valid() && attempts == old(attempts)
      ensures View() == CascadeSpec.Finish(old(View()), Exhausted)
    {
      hide *;
      var _ := Finish(Exhausted, true, env);
    }

    // ----- Beginning a run -----

    method ResetRun(newQueue: seq<string>)
      requires Valid()
      modifies this, win`testButton
      ensures Valid() && attempts == []
      ensures View() == BeginState(old(View()), newQueue)
    {
      ghost var v := View();
      assert BeginState(v, newQueue) ==
        v.(gen := v.gen + 1, active := true, phase := Connecting, expectDisconnect := false, retries := 0,
           walk := Walk(newQueue, 0, None, [], [], false, []), win := v.win.(testButton := false),
           runs := v.runs + 1, settles := 0);
      hide *;
      SetQueue(newQueue);
      ClearLedger();
      ExpectDisconnect(false);
      SetRetries(0);
      OpenRun();
    }

    method OpenRun()
      requires Valid()
      modifies this`gen, this`active, this`phase, this`runs, this`settles, win`testButton
      ensures Valid()
      ensures var v := old(View());
              View() == v.(gen := v.gen + 1, active := true, phase := Connecting,
                           win := v.win.(testButton := false), runs := v.runs + 1, settles := 0)
    {
      StartCounting();
      hide Valid, WalkView, TimersView;
      gen := gen + 1;
      active := true;
      phase := Connecting;
      win.testButton := false;
    }

    ghost method StartCounting()
      requires Valid()
      modifies this`runs, this`settles
      ensures Valid() && View() == old(View()).(runs := old(View()).runs + 1, settles := 0)
    {
      hide Valid;
      runs, settles := runs + 1, 0;
    }

    method SetQueue(newQueue: seq<string>)
      requires Valid()
      modifies this`queue, this`index, this`current
      ensures Valid()
      ensures View() == old(View()).(walk := old(View()).walk.(queue := newQueue, index := 0, current := None))
    {
      hide Valid;
      queue, index, current := newQueue, 0, None;
    }

    method ClearLedger()
      modifies this`failures, this`attempts, this`activeAttempt, this`records, this`slots
      ensures Valid() && attempts == []
      ensures var w := old(View()).walk;
              View() == old(View()).(walk := Walk(w.queue, w.index, w.current, [], [], false, []))
    {
      DropAttempts();
      hide Valid;
      failures, slots := [], [];
    }

    method DropAttempts()
      modifies this`attempts, this`activeAttempt, this`records
      ensures Valid() && attempts == [] && records == [] && activeAttempt == null
    {
      attempts, activeAttempt, records := [], null, [];
    }

    method Begin(newQueue: seq<string>, b: BeginAnswers)
      requires Valid()
      modifies this, scheduler, win, attempts
      ensures Valid() && forall k | 0 <= k < |attempts| :: attempts[k] in old(attempts) || fresh(attempts[k])
      ensures View() == CascadeSpec.Begin(old(View()), newQueue, b)
    {
      ghost var n := BeginState(View(), newQueue);
      ghost var d := n.(expectDisconnect := true, phase := Settling);
      assert CascadeSpec.Begin(View(), newQueue, b) ==
        if !b.connected then TryCurrent(n, b.attempt)
        else if b.watchRaises || b.disconnect.DisconnectRaises? then TryCurrent(d, b.attempt)
        else Settle(CallDisconnect(d, b.disconnect));
      hide *;
      ResetRun(newQueue);
      if b.connected {
        AwaitDisconnect();
        if !b.watchRaises && !b.disconnect.DisconnectRaises? {
          DisconnectBackend(b.disconnect);
          ArmSettleTimer();
          return;
        }
      }
      TryCurrentServer(b.attempt);
    }

    method ShowPreparing()
      requires Valid()
      modifies this`active, this`gen, this`phase, this`queue, this`index, this`current
      ensures Valid() && View() == CascadeSpec.ShowPreparing(old(View()))
    {
      hide Valid;
      SetQueue([]);
      active := true;
      gen := gen + 1;
      phase := Preparing;
    }

    /** Already connected to the first candidate: a waiting cascade has succeeded. */
    method SucceedWith(selected: Option<string>, env: SkipAnswers)
      requires Valid()
      modifies this, scheduler, win, attempts
      ensures Valid() && attempts == old(attempts)
      ensures View() == CascadeSpec.Finish(old(View()).(walk := old(View()).walk.(current := selected)), Succeeded)
    {
      SetCurrent(selected);
      hide *;
      var _ := Finish(Succeeded, true, env);
    }

    method SetCurrent(selected: Option<string>)
      requires Valid()
      modifies this`current
      ensures Valid() && View() == old(View()).(walk := old(View()).walk.(current := selected))
    {
      hide Valid;
      current := selected;
    }

    /** Builds the queue from the complete configuration list and begins walking it. */
    method StartFromVisibleList(names: seq<string>, a: ListAnswers)
      requires Valid()
      modifies this, scheduler, win, attempts
      ensures Valid() && forall k | 0 <= k < |attempts| :: attempts[k] in old(attempts) || fresh(attempts[k])
      ensures View() == StartFromList(old(View()), names, a)
    {
      ghost var v := View();
      assert v.win.latencies == win.latencies;
      var newQueue := BuildCascadeQueue(NonEmpty(names), win.latencies, true, MAX_CASCADE_CANDIDATES);
      assert StartFromList(v, names, a) == StartWith(v, newQueue, a);
      hide BuildQueue, NonEmpty, Valid, CascadeSpec.Begin, CascadeSpec.Finish;
      assert v.active == active;
      hide View;
      if newQueue == [] {
        if active {
          EndExhausted(a.begin.attempt.skip);
        }
        return;
      }
      if a.connected && a.selected == Some(newQueue[0]) {
        if active {
          SucceedWith(a.selected, a.begin.attempt.skip);
        }
        return;
      }
      Begin(newQueue, a.begin);
    }

    method Start(names: seq<string>, a: ListAnswers)
      requires Valid()
      modifies this, scheduler, win, attempts
      ensures Valid() && forall k | 0 <= k < |attempts| :: attempts[k] in old(attempts) || fresh(attempts[k])
      ensures View() == CascadeSpec.Start(old(View()), names, a)
    {
      ghost var v := View();
      assert v.active == active && v.win.latencies == win.latencies;
      hide StartFromList, NonEmpty, Valid, View;
      if active || NonEmpty(names) == [] {
        return;
      }
      if win.latencies == map[] {
        PrepareForTest();
        return;
      }
      StartFromVisibleList(names, a);
    }

    method PrepareForTest()
      requires Valid()
      modifies this`active, this`gen, this`phase, this`queue, this`index, this`current, this`autoCascadeAfterTest, win
      ensures Valid() && View() == CascadeSpec.TriggerSpeedTest(CascadeSpec.ShowPreparing(old(View()).(auto := true)))
    {
      hide Valid;
      autoCascadeAfterTest := true;
      assert View() == old(View()).(auto := true);
      hide CascadeSpec.ShowPreparing;
      ShowPreparing();
      win.TriggerSpeedTest();
    }

    method Cancel(env: SkipAnswers) returns (asked: bool)
      requires Valid()
      modifies this, scheduler, win, attempts
      ensures Valid() && attempts == old(attempts)
      ensures View() == CascadeSpec.Cancel(old(View()), env)
      ensures asked <==> Busy(old(View())) && !old(View()).phase.Preparing? && env.connected
    {
      ghost var v := View();
      assert Busy(v) == (active || autoCascadeAfterTest) && v.phase == phase;
      ghost var f := CascadeSpec.Finish(v.(auto := false, gen := v.gen + 1), CancelledPhase);
      assert CascadeSpec.Cancel(v, env) ==
        if !active && !autoCascadeAfterTest then v
        else if !phase.Preparing? && env.connected then CallDisconnect(f, env.disconnect) else f;
      hide *;
      if !active && !autoCascadeAfterTest {
        return false;
      }
      OpenGeneration();
      asked := Finish(CancelledPhase, true, env);
    }

    method OpenGeneration()
      requires Valid()
      modifies this`autoCascadeAfterTest, this`gen
      ensures Valid() && View() == old(View()).(auto := false, gen := old(View()).gen + 1)
    {
      hide Valid;
      autoCascadeAfterTest := false;
      gen := gen + 1;
    }

    /** Starts the cascade, or cancels it when it is already busy. */
    method Toggle(names: seq<string>, a: ListAnswers, env: SkipAnswers)
      requires Valid()
      modifies this, scheduler, win, attempts
      ensures Valid() && forall k | 0 <= k < |attempts| :: attempts[k] in old(attempts) || fresh(attempts[k])
      ensures View() == if Busy(old(View())) then CascadeSpec.Cancel(old(View()), env) else CascadeSpec.Start(old(View()), names, a)
    {
      assert Busy(View()) == (active || autoCascadeAfterTest);
      hide *;
      if active || autoCascadeAfterTest {
        var _ := Cancel(env);
      } else {
        Start(names, a);
      }
    }

    // ----- Timer callbacks -----

    method OnTick(generation: nat, a: FireAnswers) returns (again: bool)
      requires Valid()
      modifies this, scheduler, win, attempts
      ensures Valid() && attempts == old(attempts)
      ensures (View(), again) == CascadeSpec.OnTick(old(View()), generation, a)
    {
      ghost var v := View();
      assert v.active == active && v.gen == gen && v.deadline == deadline && v.timers.now == scheduler.now;
      hide CascadeSpec.OnTimeout, UpdateConnectButton, View, Valid;
      if !active || generation != gen {
        return false;
      }
      if a.dialog {
        FreezeDeadline();
        return true;
      }
      if deadline <= scheduler.now {
        OnTimeout(generation, a.dialogAgain, a.skip);
        return false;
      }
      UpdateConnectButtonTimer(a.dialogAgain, a.skip);
      return true;
    }

    method FreezeDeadline()
      requires Valid()
      modifies this`deadline
      ensures Valid() && View() == old(View()).(deadline := old(View()).deadline + PROGRESS_TICK_MS)
    {
      hide Valid;
      deadline := deadline + PROGRESS_TICK_MS;
    }

    method OnSettle(generation: nat, a: TryAnswers)
      requires Valid()
      modifies this, scheduler, win, attempts
      ensures Valid() && forall k | 0 <= k < |attempts| :: attempts[k] in old(attempts) || fresh(attempts[k])
      ensures View() == CascadeSpec.OnSettle(old(View()), generation, a)
    {
      hide TryCurrent, Valid;
      ghost var v := View();
      assert v.active == active && v.gen == gen;
      SettleUnfolds(v, generation, a);
      hide *;
      ForgetSettle();
      if active && generation == gen {
        TryCurrentServer(a);
      }
    }

    method ForgetSettle()
      requires Valid()
      modifies this`settleId, this`settles
      ensures Valid()
      ensures var v := old(View());
              View() == v.(timers := v.timers.(settleId := None), settles := v.settles + 1)
    {
      hide Valid;
      settleId := None;
      settles := settles + 1;
    }

    /** What the scheduler does once the callback of source `id` has returned `again`. */
    method Rearm(id: nat, again: bool)
      requires Valid()
      modifies scheduler`sources
      ensures Valid() && View() == old(View()).(timers := CascadeSpec.Rearm(old(View()).timers, id, again))
    {
      hide Valid;
      if again && id in scheduler.sources {
        var src := scheduler.sources[id];
        scheduler.sources := scheduler.sources[id := src.(due := scheduler.now + src.interval)];
      } else {
        scheduler.sources := scheduler.sources - {id};
      }
    }

    /** The scheduler calls back the source `id`. */
    method Fire(id: nat, a: FireAnswers)
      requires Valid() && id in scheduler.sources
      modifies this, scheduler, win, attempts
      ensures Valid() && forall k | 0 <= k < |attempts| :: attempts[k] in old(attempts) || fresh(attempts[k])
      ensures id in old(View()).timers.sources && View() == CascadeSpec.Fire(old(View()), id, a)
    {
      ghost var v := View();
      assert v.timers.sources == scheduler.sources;
      var src := scheduler.sources[id];
      hide CascadeSpec.OnTimeout, CascadeSpec.OnTick, CascadeSpec.OnSettle, CascadeSpec.Rearm, View, Valid;
      match src.kind
      case HandshakeTimer =>
        OnTimeout(src.gen, a.dialog, a.skip);
        Rearm(id, false);
      case TickTimer =>
        var again := OnTick(src.gen, a);
        Rearm(id, again);
      case SettleTimer =>
        OnSettle(src.gen, a.attempt);
        Rearm(id, false);
    }

    // ----- The end of the speed test -----

    // The window's steps when the test ends.

    method StopTest()
      requires Valid()
      modifies win`testRunning
      ensures Valid() && View() == old(View()).(win := old(View()).win.(testRunning := false))
    {
      hide Valid;
      win.testRunning := false;
    }

    method StoreResults(results: Latencies)
      requires Valid()
      modifies win`latencies
      ensures Valid() && View() == old(View()).(win := old(View()).win.(latencies := results))
    {
      hide Valid;
      win.latencies := results;
    }

    method ReleaseTestButton()
      requires Valid()
      modifies win`testButton
      ensures Valid() && View() == old(View()).(win := old(View()).win.(testButton := true))
    {
      hide Valid;
      win.testButton := true;
    }

    method EndPreparing()
      requires Valid()
      modifies this`autoCascadeAfterTest
      ensures Valid() && View() == old(View()).(auto := false)
    {
      hide Valid;
      autoCascadeAfterTest := false;
    }

    /** The first half: the results are stored, or a cancelled test cancels the waiting cascade. */
    method TakeResults(results: Latencies, env: SkipAnswers)
      requires Valid()
      modifies this, scheduler, win, attempts
      ensures Valid() && attempts == old(attempts)
      ensures View() == Measured(old(View()), results, env)
    {
      ghost var v := View();
      assert v.win.testCancelled == win.testCancelled && v.auto == autoCascadeAfterTest;
      StopTest();
      hide CascadeSpec.Cancel, View, Valid;
      if !win.testCancelled {
        StoreResults(results);
      } else if autoCascadeAfterTest {
        var _ := Cancel(env);
      }
      ReleaseTestButton();
    }

    method OnSpeedTestComplete(results: Latencies, names: seq<string>, a: ListAnswers, env: SkipAnswers)
      requires Valid()
      modifies this, scheduler, win, attempts
      ensures Valid() && forall k | 0 <= k < |attempts| :: attempts[k] in old(attempts) || fresh(attempts[k])
      ensures View() == SpeedTestDone(old(View()), results, names, a, env)
    {
      hide Measured, Valid, StartFromList;
      TakeResults(results, env);
      ghost var b := View();
      assert b.auto == autoCascadeAfterTest && b.active == active && b.phase == phase;
      hide View;
      if autoCascadeAfterTest {
        EndPreparing();
        if active && phase.Preparing? {
          StartFromVisibleList(names, a);
        }
      }
    }
  }
}
