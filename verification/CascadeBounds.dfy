/**
  How long a run can last and how often it can settle: a potential that no step increases,
  whatever the backend answers.
 */
module CascadeBounds {
  import opened Prelude
  import opened AttemptTiming
  import opened CascadeSpec
  import opened CascadeInvariants
  import opened CascadeRuns

  const CANDIDATE_MS: nat := 47_200
  const FIRST_SETTLE_MS: nat := 550

  function RetriesLeft(retries: nat): nat {
    Max(0, MAX_DISCONNECT_RETRIES - retries)
  }

  /** Time that candidates `index..` of `n` can take, when the first of them is about to be tried. */
  function TimeFrom(n: nat, index: nat, retries: nat): nat {
    if index < n then
      RetriesLeft(retries) * DISCONNECT_SETTLE_MS + MAX_ATTEMPT_TIMEOUT_MS + DISCONNECT_SETTLE_MS + (n - index - 1) * CANDIDATE_MS
    else 0
  }

  /** Settle timers that candidates `index..` of `n` can arm, likewise. */
  function SettlesFrom(n: nat, index: nat, retries: nat): nat {
    if index < n then RetriesLeft(retries) + 1 + 4 * (n - index - 1) else 0
  }

  /** The latest moment at which the run can still be going on. */
  function Horizon(s: State): nat {
    var t, n := s.timers, |s.walk.queue|;
    if t.settleId.Some? && t.settleId.value in t.sources then
      t.sources[t.settleId.value].due + TimeFrom(n, s.walk.index, s.retries)
    else if t.timeoutId.Some? && t.timeoutId.value in t.sources then
      t.sources[t.timeoutId.value].due + DISCONNECT_SETTLE_MS + TimeFrom(n, s.walk.index + 1, 0)
    else t.now
  }

  /** Settle timers fired so far and still to come. */
  function SettleBudget(s: State): nat {
    var n := |s.walk.queue|;
    s.settles +
    if s.timers.settleId.Some? then 1 + SettlesFrom(n, s.walk.index, s.retries)
    else 1 + SettlesFrom(n, s.walk.index + 1, 0)
  }

  /** Settle timers still to come. */
  function SettlesToCome(s: State): int {
    SettleBudget(s) - s.settles
  }

  /** No source is overdue: timers fire when they are due. */
  ghost predicate OnTime(t: Timers) {
    forall id | id in t.sources :: t.now <= t.sources[id].due
  }

  /** The budgets of a state: settles fired and to come, and the horizon if timers have been on time. */
  ghost predicate Within(n: State, onTime: bool, settles: nat, horizon: nat) {
    Walking(n) ==> SettleBudget(n) <= settles && (onTime ==> OnTime(n.timers) && Horizon(n) <= horizon)
  }

  /** Neither potential has grown. */
  ghost predicate NoWorse(s: State, n: State) {
    Within(n, OnTime(s.timers), SettleBudget(s), Horizon(s))
  }

  /** A candidate is about to be tried in `s`; `n` uses no more than it and its successors are entitled to. */
  ghost predicate Entitled(s: State, n: State) {
    var k := |s.walk.queue|;
    Within(n, OnTime(s.timers), s.settles + SettlesFrom(k, s.walk.index, s.retries),
           s.timers.now + TimeFrom(k, s.walk.index, s.retries))
  }

  lemma TimeShrinks(n: nat, index: nat, retries: nat)
    requires index < n
    ensures DISCONNECT_SETTLE_MS + TimeFrom(n, index + 1, retries) <= TimeFrom(n, index, retries)
    ensures TimeFrom(n, index + 1, retries) <= TimeFrom(n, index + 1, 0)
    ensures MAX_ATTEMPT_TIMEOUT_MS + DISCONNECT_SETTLE_MS + TimeFrom(n, index + 1, 0) <= TimeFrom(n, index, retries)
    ensures retries < MAX_DISCONNECT_RETRIES ==>
              DISCONNECT_SETTLE_MS + TimeFrom(n, index, retries + 1) == TimeFrom(n, index, retries)
  {
  }

  lemma SettlesShrink(n: nat, index: nat, retries: nat)
    requires index < n
    ensures 1 + SettlesFrom(n, index + 1, retries) <= SettlesFrom(n, index, retries)
    ensures SettlesFrom(n, index + 1, retries) <= SettlesFrom(n, index + 1, 0)
    ensures 1 + SettlesFrom(n, index + 1, 0) <= SettlesFrom(n, index, retries)
    ensures retries < MAX_DISCONNECT_RETRIES ==>
              1 + SettlesFrom(n, index, retries + 1) == SettlesFrom(n, index, retries)
  {
  }

  // ----- Callbacks -----

  /** After giving up a candidate: one settle, then the next candidate with the retries that are left. */
  lemma AdvanceBound(s: State, reason: Outcome, code: ErrorCode, message: Message, env: SkipAnswers, orphan: set<nat>)
    requires Core(s, orphan) && Walking(s) && Trying(s.walk)
    ensures var n := Advance(s, reason, code, message, env);
            && n.walk.queue == s.walk.queue && n.settles == s.settles && n.timers.settleId.Some?
            && SettleBudget(n) == s.settles + 1 + SettlesFrom(|s.walk.queue|, s.walk.index + 1, s.retries)
            && Horizon(n) == s.timers.now + DISCONNECT_SETTLE_MS + TimeFrom(|s.walk.queue|, s.walk.index + 1, s.retries)
            && (OnTime(s.timers) ==> OnTime(n.timers))
  {
    assert Accounted(s.timers, orphan) && WalkOk(s.walk);
    hide Advance, Core;
    AdvanceEffect(s, reason, code, message, env);
    SkippedEffect(s, reason, code, message);
    DisarmAccounts(s.timers, orphan);
    ArmSettleAccounts(Disarm(s.timers), s.gen, s.deadline, orphan);
  }

  /** An attempt that has been armed: its timeout is the whole of what it can take. */
  ghost predicate JustArmed(s: State, orphan: set<nat>) {
    && Good(s, orphan) && s.phase.Connecting?
    && s.timers.sources[s.timers.timeoutId.value].due <= s.timers.now + MAX_ATTEMPT_TIMEOUT_MS
  }

  lemma GiveUpBound(s: State, r: State, reason: Outcome, code: ErrorCode, message: Message, env: SkipAnswers, orphan: set<nat>)
    requires JustArmed(s, orphan)
    requires r == s.(retries := r.retries, phase := r.phase, expectDisconnect := r.expectDisconnect)
    requires r.phase.Connecting? || r.phase.Settling?
    requires r.retries >= s.retries || r.retries == 0
    ensures Entitled(s, Advance(r, reason, code, message, env))
  {
    AdvanceBound(r, reason, code, message, env, orphan);
    var k := |s.walk.queue|;
    TimeShrinks(k, s.walk.index, s.retries);
    TimeShrinks(k, s.walk.index, r.retries);
    SettlesShrink(k, s.walk.index, s.retries);
    SettlesShrink(k, s.walk.index, r.retries);
    hide Advance, JustArmed;
    assert TimeFrom(k, s.walk.index + 1, r.retries) + DISCONNECT_SETTLE_MS <= TimeFrom(k, s.walk.index, s.retries);
    assert SettlesFrom(k, s.walk.index + 1, r.retries) + 1 <= SettlesFrom(k, s.walk.index, s.retries);
  }

  lemma WaitingBound(s: State, d: DisconnectAnswer, orphan: set<nat>)
    requires JustArmed(s, orphan) && s.retries < MAX_DISCONNECT_RETRIES
    ensures Entitled(s, Waiting(s, d))
  {
    var k := |s.walk.queue|;
    TimeShrinks(k, s.walk.index, s.retries);
    SettlesShrink(k, s.walk.index, s.retries);
    ArmSettleAccounts(s.timers, s.gen, s.deadline, orphan);
  }

  lemma FailureBound(s: State, reason: Outcome, code: ErrorCode, message: Message, env: SkipAnswers, orphan: set<nat>)
    requires Good(s, orphan) && s.phase.Connecting?
    ensures NoWorse(s, Advance(s, reason, code, message, env))
  {
    AdvanceBound(s, reason, code, message, env, orphan);
    TimeShrinks(|s.walk.queue|, s.walk.index, s.retries);
    SettlesShrink(|s.walk.queue|, s.walk.index, s.retries);
    assert s.timers.timeoutId.value in s.timers.sources && s.timers.settleId.None?;
    hide Advance, Good;
  }

  lemma EventBound(s: State, e: Event, env: SkipAnswers, orphan: set<nat>)
    requires Good(s, orphan)
    ensures NoWorse(s, OnEvent(s, e, env))
  {
    hide Advance, Judge, Good, EventMessage, OnTime, SettleBudget, Horizon;
    if s.active && s.phase.Connecting? && !e.kind.ConnectedEvent? && Judge(e).Skip? {
      var reason := Judge(e).reason;
      FailureBound(s, reason, ReasonCode(reason), EventMessage(e, reason), env, orphan);
    }
    SameBudget(s, s.(expectDisconnect := false));
    if Judge(e).Wait? {
      SameBudget(s, s.(pendingFailure := Some(Judge(e).text)));
    }
    FinishEffect(s.(timers := Disarm(s.timers), expectDisconnect := false), Succeeded);
    hide Finish, NoWorse;
    assert s.active && e.kind.ConnectedEvent? ==> !Walking(OnEvent(s, e, env));
    SameBudget(s, s);
    NotWalking(s, OnEvent(s, e, env));
  }

  /** Neither budget looks at anything but the walk, the timers and the retries. */
  lemma SameBudget(s: State, n: State)
    requires n == s.(expectDisconnect := n.expectDisconnect, pendingFailure := n.pendingFailure)
    ensures NoWorse(s, n)
  {
  }

  lemma NotWalking(s: State, n: State)
    ensures !Walking(n) ==> NoWorse(s, n)
  {
  }

  lemma ConnectBound(s: State, a: TryAnswers, orphan: set<nat>)
    requires JustArmed(s, orphan) && !a.connect.ConnectRaises?
    ensures var c := s.(retries := 0);
            Entitled(s, if a.connect.ConnectCallsBack? then OnEvent(c, a.connect.event, a.connect.inner) else c)
  {
    var c := s.(retries := 0);
    TimeShrinks(|s.walk.queue|, s.walk.index, s.retries);
    SettlesShrink(|s.walk.queue|, s.walk.index, s.retries);
    assert Entitled(s, c);
    if a.connect.ConnectCallsBack? {
      assert Good(c, orphan);
      EventBound(c, a.connect.event, a.connect.inner, orphan);
    }
    hide OnEvent, Good;
  }

  lemma RetryBound(s: State, name: string, a: TryAnswers, orphan: set<nat>)
    requires JustArmed(s, orphan) && !a.watchRaises && a.status.StatusUp?
    ensures Entitled(s, Handshake(s, name, a))
  {
    ArmedIsConnecting(s, orphan);
    RetryEffect(s, name, a);
    var r := s.(retries := s.retries + 1);
    var d := r.(expectDisconnect := true, phase := Settling);
    assert Retried(s, a) ==
      if s.retries >= MAX_DISCONNECT_RETRIES
      then Advance(r, Disconnected, ReasonCode(Disconnected), ReasonText(Disconnected), a.skip)
      else if a.disconnect.DisconnectRaises?
      then Advance(d, ConnectError, BackendFault, ErrorMessage(a.exceptionText), a.skip) else Waiting(s, a.disconnect);
    hide *;
    if s.retries >= MAX_DISCONNECT_RETRIES {
      GiveUpBound(s, r, Disconnected, ReasonCode(Disconnected), ReasonText(Disconnected), a.skip, orphan);
    } else if a.disconnect.DisconnectRaises? {
      GiveUpBound(s, d, ConnectError, BackendFault, ErrorMessage(a.exceptionText), a.skip, orphan);
    } else {
      WaitingBound(s, a.disconnect, orphan);
    }
  }

  lemma HandshakeBound(s: State, name: string, a: TryAnswers, orphan: set<nat>)
    requires JustArmed(s, orphan)
    ensures Entitled(s, Handshake(s, name, a))
  {
    ArmedIsConnecting(s, orphan);
    hide Advance, OnEvent, Entitled, JustArmed;
    var c := s.(retries := 0);
    if a.watchRaises || a.status.StatusRaises? {
      GiveUpBound(s, s, ConnectError, BackendFault, ErrorMessage(a.exceptionText), a.skip, orphan);
    } else if a.status.StatusUp? {
      RetryBound(s, name, a, orphan);
    } else if !a.fileExists {
      GiveUpBound(s, c, MissingFile, ConfigMissing, FileMissing(name), a.skip, orphan);
    } else if a.connect.ConnectRaises? {
      GiveUpBound(s, c, ConnectError, BackendFault, ErrorMessage(a.exceptionText), a.skip, orphan);
    } else {
      ConnectBound(s, a, orphan);
    }
  }

  lemma ArmedIsConnecting(s: State, orphan: set<nat>)
    requires JustArmed(s, orphan)
    ensures s.active && s.phase.Connecting?
  {
  }

  lemma TryPastEnd(s: State, a: TryAnswers)
    requires s.active && |s.walk.queue| <= s.walk.index
    ensures TryCurrent(s, a) == Finish(s, Exhausted)
  {
  }

  lemma TryBound(s: State, a: TryAnswers, orphan: set<nat>)
    requires ReadyToTry(s, orphan)
    ensures Entitled(s, TryCurrent(s, a))
  {
    hide LedgerOk, WalkOk, CountOk, TryCurrent, Handshake, Finish;
    if s.walk.index < |s.walk.queue| {
      var m := Armed(s);
      TryEffect(s, a);
      ArmedKeeps(s, orphan);
      StartAttemptKeeps(s, orphan);
      ArmPairAccounts(StartAttempt(s).timers, m.deadline, s.gen, orphan);
      assert JustArmed(m, orphan);
      FinishEffect(m, Exhausted);
      HandshakeBound(m, s.walk.queue[s.walk.index], a, orphan);
      assert OnTime(s.timers) ==> OnTime(m.timers);
    } else {
      FinishEffect(s, Exhausted);
      TryPastEnd(s, a);
    }
  }

  // ----- Steps -----

  /** No modal dialog is open at this step, so no countdown is frozen. */
  predicate Calm(a: Action) {
    a.Dispatch? ==> !a.fire.dialog && !a.fire.dialogAgain
  }

  /** Time passes only up to the moment the next source is due. */
  ghost predicate Timely(s: State, a: Action) {
    Calm(a) && (a.Wait? ==> forall id | id in s.timers.sources :: s.timers.now + a.ms <= s.timers.sources[id].due)
  }

  ghost predicate StepBound(s: State, a: Action, n: State) {
    Within(n, OnTime(s.timers) && Timely(s, a), SettleBudget(s), Horizon(s))
  }

  lemma DropBound(s: State, id: nat, onTime: bool, settles: nat, horizon: nat)
    requires Good(s, {id}) && Within(s, onTime, settles, horizon)
    ensures Within(s.(timers := Rearm(s.timers, id, false)), onTime, settles, horizon)
  {
    var n := s.(timers := Rearm(s.timers, id, false));
    assert HeldIds(n.timers) == HeldIds(s.timers) && id !in HeldIds(s.timers);
    assert Walking(s) ==> Horizon(n) == Horizon(s);
  }

  lemma TimeoutBound(s: State, id: nat, fire: FireAnswers)
    requires Inv(s) && NextDue(s.timers, id) && s.timers.sources[id].kind.HandshakeTimer?
    ensures Within(OnTimeout(s, s.gen, fire.dialog, fire.skip), OnTime(s.timers) && !fire.dialog, SettleBudget(s), Horizon(s))
  {
    OwnerOf(s, id);
    OpenMeansTrying(s);
    var t := s.(timers := s.timers.(timeoutId := None));
    assert HeldIds(t.timers) + {id} == HeldIds(s.timers);
    assert Core(t, {id});
    if fire.dialog {
      GraceBound(s, id);
    } else {
      var message := if s.pendingFailure.Some? && s.pendingFailure.value != "" then Said(s.pendingFailure.value)
                     else HandshakeExpired;
      AdvanceBound(t, TimedOut, ReasonCode(TimedOut), message, fire.skip, {id});
      ExpiredBound(s, id, Advance(t, TimedOut, ReasonCode(TimedOut), message, fire.skip));
      hide Advance, Inv, Core, SettleBudget, Horizon, Within, OnTime;
    }
  }

  lemma GraceBound(s: State, id: nat)
    requires Inv(s) && s.timers.timeoutId == Some(id)
    ensures var d := s.timers.now + DIALOG_GRACE_MS;
            var t := s.timers.(timeoutId := None);
            Within(s.(deadline := d, timers := ArmTimeoutAndTick(t, d, s.gen)), false, SettleBudget(s), Horizon(s))
  {
    var k := |s.walk.queue|;
    SettlesShrink(k, s.walk.index, s.retries);
    hide Good, Inv;
  }

  lemma ExpiredBound(s: State, id: nat, n: State)
    requires Inv(s) && NextDue(s.timers, id) && s.timers.timeoutId == Some(id) && Trying(s.walk)
    requires n.walk.queue == s.walk.queue && n.settles == s.settles && n.timers.settleId.Some?
    requires SettleBudget(n) == s.settles + 1 + SettlesFrom(|s.walk.queue|, s.walk.index + 1, s.retries)
    requires Horizon(n) == s.timers.now + DISCONNECT_SETTLE_MS + TimeFrom(|s.walk.queue|, s.walk.index + 1, s.retries)
    requires OnTime(s.timers) ==> OnTime(n.timers)
    ensures Within(n, OnTime(s.timers), SettleBudget(s), Horizon(s))
  {
    var k := |s.walk.queue|;
    TimeShrinks(k, s.walk.index, s.retries);
    SettlesShrink(k, s.walk.index, s.retries);
    OwnerOf(s, id);
    hide Good, Inv;
  }

  lemma FireTimeoutBound(s: State, id: nat, fire: FireAnswers)
    requires Inv(s) && NextDue(s.timers, id) && s.timers.sources[id].kind.HandshakeTimer?
    ensures StepBound(s, Dispatch(id, fire), Fire(s, id, fire))
  {
    OwnerOf(s, id);
    TimeoutBound(s, id, fire);
    TimeoutKeeps(s, id, fire.dialog, fire.skip);
    var f := OnTimeout(s, s.gen, fire.dialog, fire.skip);
    hide OnTimeout, Good;
    DropBound(f, id, OnTime(s.timers) && !fire.dialog, SettleBudget(s), Horizon(s));
    assert Fire(s, id, fire) == f.(timers := Rearm(f.timers, id, false));
  }

  lemma FireTickBound(s: State, id: nat, fire: FireAnswers)
    requires Inv(s) && NextDue(s.timers, id) && s.timers.sources[id].kind.TickTimer?
    ensures StepBound(s, Dispatch(id, fire), Fire(s, id, fire))
  {
    OwnerOf(s, id);
    TickKeeps(s, id, fire);
    hide Fire;
    var n := Fire(s, id, fire);
    assert n.walk == s.walk && n.settles == s.settles && n.timers == Rearm(s.timers, id, true);
    assert Horizon(n) == Horizon(s);
  }

  lemma FireSettleBound(s: State, id: nat, fire: FireAnswers)
    requires Inv(s) && NextDue(s.timers, id) && s.timers.sources[id].kind.SettleTimer?
    ensures StepBound(s, Dispatch(id, fire), Fire(s, id, fire))
  {
    OwnerOf(s, id);
    SettleReady(s, id);
    var r := AfterSettle(s);
    TryBound(r, fire.attempt, {id});
    TryKeeps(r, fire.attempt, {id});
    var f := TryCurrent(r, fire.attempt);
    hide TryCurrent, Good;
    FireSettleEffect(s, id, fire);
    assert SettleBudget(s) == r.settles + SettlesFrom(|s.walk.queue|, s.walk.index, s.retries);
    assert OnTime(s.timers) ==> Horizon(s) == s.timers.now + TimeFrom(|s.walk.queue|, s.walk.index, s.retries);
    assert OnTime(s.timers) ==> OnTime(r.timers);
    DropBound(f, id, OnTime(s.timers), SettleBudget(s), Horizon(s));
  }

  lemma FireBound(s: State, id: nat, fire: FireAnswers)
    requires Inv(s) && NextDue(s.timers, id)
    ensures StepBound(s, Dispatch(id, fire), Fire(s, id, fire))
  {
    hide Fire, Inv, StepBound;
    match s.timers.sources[id].kind {
      case HandshakeTimer => FireTimeoutBound(s, id, fire);
      case TickTimer => FireTickBound(s, id, fire);
      case SettleTimer => FireSettleBound(s, id, fire);
    }
  }

  /** Actions of the user and of the speed test leave a walking run alone or end it. */
  lemma OutsideActions(s: State, a: Action)
    requires Inv(s) && Enabled(s, a) && Walking(s) && !a.Dispatch? && !a.Backend? && !a.Wait?
    ensures var n := Step(s, a);
            if a.CancelRequest? then !n.active
            else n == s.(win := n.win)
  {
    if a.CancelRequest? {
      CancelKeeps(s, a.env);
    }
  }

  /** The action dispatches a settle timer. */
  ghost predicate FiresSettle(s: State, a: Action) {
    a.Dispatch? && a.id in s.timers.sources && s.timers.sources[a.id].kind.SettleTimer?
  }

  /** What an action does to a walking run that it does not end. */
  ghost predicate WalksOn(s: State, a: Action, n: State) {
    && n.gen == s.gen && n.walk.queue == s.walk.queue && Walking(n) && StepBound(s, a, n)
    && n.settles == s.settles + (if FiresSettle(s, a) then 1 else 0)
  }

  lemma DispatchWalksOn(s: State, id: nat, fire: FireAnswers)
    requires Inv(s) && NextDue(s.timers, id) && Walking(s) && Fire(s, id, fire).active
    ensures WalksOn(s, Dispatch(id, fire), Fire(s, id, fire))
  {
    FireBound(s, id, fire);
    FireKeeps(s, id, fire);
    hide Fire, StepBound;
    WalkingOrIdle(Fire(s, id, fire));
    hide Inv;
  }

  lemma EventWalksOn(s: State, e: Event, env: SkipAnswers)
    requires Inv(s) && Walking(s) && OnEvent(s, e, env).active
    ensures WalksOn(s, Backend(e, env), OnEvent(s, e, env))
  {
    EventBound(s, e, env, {});
    EventKeeps(s, e, env, {});
    hide OnEvent, Within;
    WalkingOrIdle(OnEvent(s, e, env));
    hide Inv;
  }

  lemma OutsideWalksOn(s: State, a: Action)
    requires Inv(s) && Enabled(s, a) && Walking(s) && !a.Dispatch? && !a.Backend? && Step(s, a).active
    ensures WalksOn(s, a, Step(s, a))
  {
    if a.Wait? {
      assert s.timers.timeoutId.Some? || s.timers.settleId.Some?;
      hide LedgerOk, WalkOk, CountOk;
    } else {
      hide Step, Good;
      OutsideActions(s, a);
    }
  }

  /**
    Every action of a walking run either ends it or goes on with it, within its budgets. The
    settles to come never grow, and each settle that fires uses one of them up.
   */
  lemma WalkingStep(s: State, a: Action)
    requires Inv(s) && Enabled(s, a) && Walking(s)
    ensures var n := Step(s, a);
            n.active ==> WalksOn(s, a, n)
    ensures var n := Step(s, a);
            n.active ==> 0 <= SettlesToCome(n) <= SettlesToCome(s) - if FiresSettle(s, a) then 1 else 0
  {
    hide Fire, OnEvent, Inv, WalksOn, SettlesToCome;
    var n := Step(s, a);
    if n.active {
      if a.Dispatch? {
        DispatchWalksOn(s, a.id, a.fire);
      } else if a.Backend? {
        EventWalksOn(s, a.event, a.env);
      } else {
        OutsideWalksOn(s, a);
      }
      hide Step;
      SettlesUsed(s, a, n);
    }
  }

  lemma SettlesUsed(s: State, a: Action, n: State)
    requires WalksOn(s, a, n)
    ensures 0 <= SettlesToCome(n) <= SettlesToCome(s) - if FiresSettle(s, a) then 1 else 0
  {
  }

  // ----- Runs -----

  ghost predicate TimelyRun(s: State, run: seq<Action>)
    requires ValidRun(s, run)
    decreases |run|
  {
    run == [] || (Timely(s, run[0]) && TimelyRun(Step(s, run[0]), run[1..]))
  }

  /** `s` is at or past generation `gen`; as long as it is in it, it walks within the budgets. */
  ghost predicate Budgeted(s: State, gen: nat, runs: nat, onTime: bool, settles: nat, horizon: nat) {
    && gen <= s.gen && runs <= s.runs
    && (s.runs == runs ==> s.settles <= settles)
    && (s.gen == gen && s.active ==> Walking(s) && Within(s, onTime, settles, horizon))
    && (Walking(s) && s.runs == runs ==> s.gen == gen)
  }

  lemma BudgetedStep(s: State, a: Action, gen: nat, runs: nat, onTime: bool, settles: nat, horizon: nat)
    requires Inv(s) && Enabled(s, a) && Budgeted(s, gen, runs, onTime, settles, horizon)
    requires onTime ==> Timely(s, a)
    ensures Budgeted(Step(s, a), gen, runs, onTime, settles, horizon)
  {
    hide Step, Good, Enabled, Timely, OnTime;
    var n := Step(s, a);
    StepKeeps(s, a);
    if Walking(s) {
      WalkingStep(s, a);
      hide FiresSettle;
      assert s.settles < SettleBudget(s);
      WalkingOrIdle(n);
    } else {
      NewWalk(s, a);
    }
  }

  lemma WalkingOrIdle(s: State)
    requires Inv(s)
    ensures s.active ==> Walking(s) || s.phase.Preparing?
  {
  }

  lemma {:induction false} BudgetedRun(s: State, run: seq<Action>, gen: nat, runs: nat, onTime: bool, settles: nat, horizon: nat)
    requires Inv(s) && ValidRun(s, run) && Budgeted(s, gen, runs, onTime, settles, horizon)
    requires onTime ==> TimelyRun(s, run)
    ensures Inv(Exec(s, run)) && Budgeted(Exec(s, run), gen, runs, onTime, settles, horizon)
    decreases |run|
  {
    hide Step, Inv, Enabled, Budgeted, Timely;
    if run != [] {
      StepKeeps(s, run[0]);
      BudgetedStep(s, run[0], gen, runs, onTime, settles, horizon);
      BudgetedRun(Step(s, run[0]), run[1..], gen, runs, onTime, settles, horizon);
    }
  }

  /** Where `_begin` is called from: nothing armed, not waiting for a test, and a real queue. */
  ghost predicate MayBegin(s: State, queue: seq<string>) {
    && Accounted(s.timers, {}) && HeldIds(s.timers) == {} && !s.auto
    && queue != [] && "" !in queue
  }

  lemma BeginBound(s: State, queue: seq<string>, b: BeginAnswers)
    requires MayBegin(s, queue)
    ensures var n := Begin(s, queue, b);
            Within(n, true, 4 * |queue| + 1, s.timers.now + FIRST_SETTLE_MS + CANDIDATE_MS * |queue|)
  {
    BeginReady(s, queue);
    var n := BeginState(s, queue);
    var d := n.(expectDisconnect := true, phase := Settling);
    assert OnTime(n.timers);
    if !b.connected {
      TryBound(n, b.attempt, {});
      hide TryCurrent;
    } else if b.watchRaises || b.disconnect.DisconnectRaises? {
      assert ReadyToTry(d, {});
      TryBound(d, b.attempt, {});
      hide TryCurrent;
    } else {
      OwnDisconnectEffect(d, b.disconnect);
      ArmSettleAccounts(d.timers, d.gen, d.deadline, {});
    }
  }

  /**
    No run can go on for hours. From the moment a run begins with n candidates, whatever the
    backend answers and however the calls fail, at most 4n + 1 settle timers fire; and if
    timers fire when they are due and no dialog is open, the run is over after 0.55 s plus
    47.2 s a candidate, which is under 40 minutes for a full queue.
   */
  lemma BoundedRun(s: State, queue: seq<string>, b: BeginAnswers, run: seq<Action>)
    requires MayBegin(s, queue)
    requires ValidRun(Begin(s, queue, b), run)
    ensures var n := Begin(s, queue, b);
            var e := Exec(n, run);
            && (e.runs == n.runs ==> e.settles <= 4 * |queue| + 1)
            && (TimelyRun(n, run) && e.active && e.gen == n.gen ==>
                  && e.timers.now <= s.timers.now + 550 + 47_200 * |queue|
                  && (|queue| <= 50 ==> e.timers.now - s.timers.now < 40 * 60 * 1000))
  {
    hide Begin, Good, Enabled, Step;
    var n := Begin(s, queue, b);
    var horizon := s.timers.now + FIRST_SETTLE_MS + CANDIDATE_MS * |queue|;
    BeginKeeps(s, queue, b);
    BeginBound(s, queue, b);
    WalkingOrIdle(n);
    BudgetedRun(n, run, n.gen, n.runs, false, 4 * |queue| + 1, horizon);
    if TimelyRun(n, run) {
      BudgetedRun(n, run, n.gen, n.runs, true, 4 * |queue| + 1, horizon);
      var e := Exec(n, run);
      if e.active && e.gen == n.gen {
        NowBeforeHorizon(e);
      }
    }
  }

  lemma NowBeforeHorizon(s: State)
    requires Inv(s) && Walking(s) && OnTime(s.timers)
    ensures s.timers.now <= Horizon(s)
  {
  }
}
