/**
  The cascade as a value: the state of the controller, the timer sources it has armed, and
  the part of the window it shares, with every callback as a function from state to state.

  What the environment answers during one callback is an argument of that callback: whether
  a manager exists, what `status()` says, which call raises, and whether the backend calls
  back before it returns. The clock stands still inside a callback.
 */
module CascadeSpec {
  import opened Prelude
  import opened AttemptTiming
  import opened CandidateQueue

  // ----- Attempts -----

  /** `result` of an attempt; the five reasons from TimedOut to MissingFile are skip reasons. */
  datatype Outcome =
    | Pending
    | TimedOut
    | AuthFailed
    | ConnectError
    | Disconnected
    | MissingFile
    | BackendError
    | Cancelled
    | Success

  predicate IsSkipReason(o: Outcome) {
    o.TimedOut? || o.AuthFailed? || o.ConnectError? || o.Disconnected? || o.MissingFile?
  }

  datatype ErrorCode = ReasonCode(reason: Outcome) | ConfigMissing | BackendFault | CancelledCode | NoUsableCandidate

  datatype Message =
    | Said(text: string)
    | HandshakeExpired
    | FileMissing(name: string)
    | ReasonText(reason: Outcome)
    | CancelledByUser
    | NoCandidateRemained

  datatype Attempt = Attempt(
    config: string,
    startedAt: nat,
    budget: nat,
    finishedAt: Option<nat>,
    elapsed: nat,
    outcome: Outcome,
    code: Option<ErrorCode>,
    message: Option<Message>)

  function OpenAttempt(config: string, now: nat, budget: nat): Attempt {
    Attempt(config, now, budget, None, 0, Pending, None, None)
  }

  function CloseAttempt(a: Attempt, now: nat, deadline: nat, outcome: Outcome,
                        code: Option<ErrorCode>, message: Option<Message>): Attempt {
    a.(finishedAt := Some(now),
       elapsed := Max(0, now - (deadline - a.budget)),
       outcome := outcome, code := code, message := message)
  }

  /** What `attempt_summary` counts. */
  datatype Summary = Summary(timeouts: nat, handshakeFailures: nat, backendErrors: nat, cancelled: nat, success: nat)

  /** How one attempt changes the counters; a pending one changes none. */
  function Tally(t: Summary, o: Outcome): Summary {
    match o
    case TimedOut => t.(timeouts := t.timeouts + 1)
    case AuthFailed => t.(handshakeFailures := t.handshakeFailures + 1)
    case ConnectError => t.(handshakeFailures := t.handshakeFailures + 1)
    case Disconnected => t.(handshakeFailures := t.handshakeFailures + 1)
    case BackendError => t.(backendErrors := t.backendErrors + 1)
    case MissingFile => t.(backendErrors := t.backendErrors + 1)
    case Cancelled => t.(cancelled := t.cancelled + 1)
    case Success => t.(success := t.success + 1)
    case Pending => t
  }

  function Summarize(attempts: seq<Attempt>): Summary {
    if attempts == [] then Summary(0, 0, 0, 0, 0)
    else Tally(Summarize(attempts[..|attempts| - 1]), Last(attempts).outcome)
  }

  lemma SummaryOfLast(attempts: seq<Attempt>)
    requires attempts != []
    ensures Summarize(attempts) == Tally(Summarize(attempts[..|attempts| - 1]), Last(attempts).outcome)
  {
  }

  // ----- Timer sources -----

  datatype TimerKind = HandshakeTimer | TickTimer | SettleTimer

  datatype Source = Source(due: nat, interval: nat, kind: TimerKind, gen: nat)

  /** The scheduler and the clock, with the three ids the controller remembers. */
  datatype Timers = Timers(
    now: nat,
    nextId: nat,
    sources: map<nat, Source>,
    timeoutId: Option<nat>,
    tickId: Option<nat>,
    settleId: Option<nat>)

  function IdSet(id: Option<nat>): set<nat> {
    match id
    case None => {}
    case Some(i) => {i}
  }

  function HeldIds(t: Timers): set<nat> {
    IdSet(t.timeoutId) + IdSet(t.tickId) + IdSet(t.settleId)
  }

  function AddSource(t: Timers, interval: nat, kind: TimerKind, gen: nat): Timers {
    t.(sources := t.sources[t.nextId := Source(t.now + interval, interval, kind, gen)], nextId := t.nextId + 1)
  }

  function Disarm(t: Timers): Timers {
    t.(sources := t.sources - HeldIds(t), timeoutId := None, tickId := None, settleId := None)
  }

  /** The handshake timeout is armed before the tick, so it has the smaller id. */
  function ArmTimeoutAndTick(t: Timers, deadline: nat, gen: nat): Timers {
    var d := Disarm(t);
    var remaining := Max(SHORTEST_TIMEOUT_MS, deadline - d.now);
    var a := AddSource(d, remaining, HandshakeTimer, gen).(timeoutId := Some(d.nextId));
    AddSource(a, PROGRESS_TICK_MS, TickTimer, gen).(tickId := Some(a.nextId))
  }

  function ArmSettle(t: Timers, gen: nat): Timers {
    var d := t.(sources := t.sources - IdSet(t.settleId));
    AddSource(d, DISCONNECT_SETTLE_MS, SettleTimer, gen).(settleId := Some(d.nextId))
  }

  // ----- State -----

  datatype Phase = Idle | Preparing | Connecting | Settling | Succeeded | Exhausted | CancelledPhase

  datatype Failure = Failure(name: string, reason: Outcome)

  /** What a run is walking and what it has recorded. `slots[k]` is history: the queue index of attempt k. */
  datatype Walk = Walk(
    queue: seq<string>,
    index: nat,
    current: Option<string>,
    failures: seq<Failure>,
    attempts: seq<Attempt>,
    hasActive: bool,
    slots: seq<nat>)

  /** The window fields that the cascade reads or writes. */
  datatype Window = Window(
    latencies: Latencies,
    testRunning: bool,
    testCancelled: bool,
    testButton: bool)

  /** `runs` and `settles` are history: runs begun so far, settle timers fired in the latest run. */
  datatype State = State(
    active: bool,
    auto: bool,
    phase: Phase,
    gen: nat,
    deadline: nat,
    expectDisconnect: bool,
    retries: nat,
    pendingFailure: Option<string>,
    walk: Walk,
    timers: Timers,
    win: Window,
    runs: nat,
    settles: nat)

  predicate Busy(s: State) {
    s.active || s.auto
  }

  /** A run is walking its queue, as opposed to waiting for the speed test. */
  predicate Walking(s: State) {
    s.active && (s.phase.Connecting? || s.phase.Settling?)
  }

  function Initial(): State {
    State(false, false, Idle, 0, 0, false, 0, None,
          Walk([], 0, None, [], [], false, []),
          Timers(0, 1, map[], None, None, None),
          Window(map[], false, false, true), 0, 0)
  }

  // ----- What the environment may answer -----

  datatype EventKind = ConnectedEvent | DisconnectedEvent | FailedEvent | ProgressEvent | PausedEvent | ResumedEvent

  datatype Event = Event(kind: EventKind, error: Option<string>)

  /** `cm.disconnect()`: it may call back with a disconnect event before it returns. */
  datatype DisconnectAnswer =
    | DisconnectReturns
    | DisconnectRaises
    | DisconnectCallsBack(inner: SkipAnswers)

  /** `connected` is false when there is no manager, `status()` is false, or either call raises. */
  datatype SkipAnswers = SkipAnswers(connected: bool, disconnect: DisconnectAnswer)

  datatype StatusAnswer = StatusRaises | StatusDown | StatusUp

  /** `manager.connect(path)`: it may call back with any event before it returns. */
  datatype ConnectAnswer =
    | ConnectReturns
    | ConnectRaises
    | ConnectCallsBack(event: Event, inner: SkipAnswers)

  datatype TryAnswers = TryAnswers(
    manager: bool,
    watchRaises: bool,
    status: StatusAnswer,
    disconnect: DisconnectAnswer,
    fileExists: bool,
    connect: ConnectAnswer,
    exceptionText: string,
    dialog: bool,
    skip: SkipAnswers)

  datatype BeginAnswers = BeginAnswers(connected: bool, watchRaises: bool, disconnect: DisconnectAnswer, attempt: TryAnswers)

  datatype ListAnswers = ListAnswers(selected: Option<string>, connected: bool, begin: BeginAnswers)

  /** Two readings of `_user_is_busy`: the tick's own, and the one inside a timeout it forwards to. */
  datatype FireAnswers = FireAnswers(dialog: bool, dialogAgain: bool, skip: SkipAnswers, attempt: TryAnswers)

  // ----- Failure texts -----

  const DEFINITIVE_MARKERS: seq<string> := [
    "auth_failed", "authentication failed", "tls handshake failed", "certificate", "permission denied",
    "invalid configuration", "configuration file", "unsupported", "no such file", "backend unavailable"]

  predicate IsDefinitiveFailure(lowered: string) {
    exists k: nat | k < |DEFINITIVE_MARKERS| :: Contains(lowered, DEFINITIVE_MARKERS[k])
  }

  /** How a failure or disconnect event is to be taken while connecting. */
  datatype Verdict = Skip(reason: Outcome) | Wait(text: string)

  function Judge(e: Event): (v: Verdict)
    ensures v.Skip? ==> IsSkipReason(v.reason) && !v.reason.TimedOut? && !v.reason.MissingFile?
    ensures v.Wait? ==> e.error == Some(v.text) && v.text != ""
  {
    var text := e.error.GetOr("");
    var lowered := Lower(text);
    if Contains(lowered, "auth") then Skip(AuthFailed)
    else if text == "" then Skip(Disconnected)
    else if IsDefinitiveFailure(lowered) then Skip(ConnectError)
    else Wait(text)
  }

  function EventMessage(e: Event, reason: Outcome): Message {
    var text := e.error.GetOr("");
    if text == "" then ReasonText(reason) else Said(text)
  }

  // ----- Steps -----

  /** Closes the current attempt, once. */
  function CompleteActive(s: State, outcome: Outcome, code: Option<ErrorCode>, message: Option<Message>): State {
    var w := s.walk;
    if !w.hasActive || w.attempts == [] || Last(w.attempts).finishedAt.Some? then s
    else
      var k := |w.attempts| - 1;
      s.(walk := w.(attempts := w.attempts[k := CloseAttempt(w.attempts[k], s.timers.now, s.deadline, outcome, code, message)]))
  }

  function Ended(s: State, phase: Phase): State {
    s.(timers := Disarm(s.timers), active := false, phase := phase, expectDisconnect := false, auto := false,
       win := s.win.(testButton := true))
  }

  /** The state part of `finish`; the disconnect it asks for on cancel is in Cancel. */
  function Finish(s: State, phase: Phase): State {
    var d := Ended(s, phase);
    match phase
    case Succeeded => CompleteActive(d, Success, None, None)
    case CancelledPhase => CompleteActive(d, Cancelled, Some(CancelledCode), Some(CancelledByUser))
    case _ => CompleteActive(d, BackendError, Some(NoUsableCandidate), Some(NoCandidateRemained))
  }

  /** True when the window must not handle the event itself. */
  predicate ConsumesEvent(s: State, e: Event) {
    s.active && !e.kind.ConnectedEvent? && !e.kind.PausedEvent? && !e.kind.ResumedEvent?
  }

  const LOST: Event := Event(DisconnectedEvent, None)

  function OnEvent(s: State, e: Event, env: SkipAnswers): State
    decreases env, 1
  {
    if !s.active then s
    else match e.kind
      case ConnectedEvent => Finish(s.(timers := Disarm(s.timers), expectDisconnect := false), Succeeded)
      case ProgressEvent => s
      case PausedEvent => s
      case ResumedEvent => s
      case _ =>
        if s.phase.Settling? && s.expectDisconnect then s.(expectDisconnect := false)
        else if s.phase.Connecting? then
          match Judge(e)
          case Wait(text) => s.(pendingFailure := Some(text))
          case Skip(reason) => Advance(s, reason, ReasonCode(reason), EventMessage(e, reason), env)
        else s
  }

  function AppendedFailure(s: State, name: string, reason: Outcome): State {
    s.(walk := s.walk.(failures := s.walk.failures + [Failure(name, reason)]))
  }

  /** Records the failure of the current candidate, if there is one. */
  function RecordFailure(s: State, reason: Outcome, code: ErrorCode, message: Message): State {
    if s.walk.current.Some? && s.walk.current.value != "" then
      CompleteActive(AppendedFailure(s, s.walk.current.value, reason), reason, Some(code), Some(message))
    else s
  }

  /** The state in which `advance` asks the backend to disconnect. */
  function Skipped(s: State, reason: Outcome, code: ErrorCode, message: Message): State {
    var r := RecordFailure(s, reason, code, message);
    r.(timers := Disarm(r.timers), walk := r.walk.(index := r.walk.index + 1), phase := Settling, expectDisconnect := true)
  }

  function Settle(s: State): State {
    s.(timers := ArmSettle(s.timers, s.gen))
  }

  function Advance(s: State, reason: Outcome, code: ErrorCode, message: Message, env: SkipAnswers): State
    decreases env, 0
  {
    if !s.active then s
    else
      var k := Skipped(s, reason, code, message);
      Settle(if env.connected && env.disconnect.DisconnectCallsBack? then OnEvent(k, LOST, env.disconnect.inner) else k)
  }

  /** `cm.disconnect()` outside `advance`. */
  function CallDisconnect(s: State, d: DisconnectAnswer): State {
    if d.DisconnectCallsBack? then OnEvent(s, LOST, d.inner) else s
  }

  function OnTimeout(s: State, gen: nat, dialog: bool, env: SkipAnswers): State {
    var t := s.(timers := s.timers.(timeoutId := None));
    if !s.active || gen != s.gen then t
    else if dialog then
      var deadline := s.timers.now + DIALOG_GRACE_MS;
      t.(deadline := deadline, timers := ArmTimeoutAndTick(t.timers, deadline, s.gen))
    else
      var message := if s.pendingFailure.Some? && s.pendingFailure.value != "" then Said(s.pendingFailure.value)
                     else HandshakeExpired;
      Advance(t, TimedOut, ReasonCode(TimedOut), message, env)
  }

  /** Refreshing the countdown label can end the attempt if the deadline has passed. */
  function UpdateConnectButton(s: State, dialog: bool, env: SkipAnswers): State {
    if s.active && s.walk.current.Some? && s.deadline <= s.timers.now then OnTimeout(s, s.gen, dialog, env) else s
  }

  function StartAttempt(s: State): State
    requires s.walk.index < |s.walk.queue|
  {
    var w := s.walk;
    var name := w.queue[w.index];
    var budget := ComputeAttemptTimeout(Rtt(s.win.latencies, name));
    s.(phase := Connecting, deadline := s.timers.now + budget, pendingFailure := None,
       walk := w.(current := Some(name), attempts := w.attempts + [OpenAttempt(name, s.timers.now, budget)],
                  hasActive := true, slots := w.slots + [w.index]))
  }

  function ErrorMessage(text: string): Message {
    if text == "" then ReasonText(ConnectError) else Said(text)
  }

  function ConnectFault(s: State, a: TryAnswers): State {
    Advance(s, ConnectError, BackendFault, ErrorMessage(a.exceptionText), a.skip)
  }

  /** The part of an attempt that talks to a live manager. */
  function Handshake(s: State, name: string, a: TryAnswers): State {
    if a.watchRaises || a.status.StatusRaises? then ConnectFault(s, a)
    else if a.status.StatusUp? then
      var r := s.(retries := s.retries + 1);
      if r.retries > MAX_DISCONNECT_RETRIES then
        Advance(r, Disconnected, ReasonCode(Disconnected), ReasonText(Disconnected), a.skip)
      else
        var d := r.(expectDisconnect := true, phase := Settling);
        if a.disconnect.DisconnectRaises? then ConnectFault(d, a) else Settle(CallDisconnect(d, a.disconnect))
    else
      var c := s.(retries := 0);
      if !a.fileExists then Advance(c, MissingFile, ConfigMissing, FileMissing(name), a.skip)
      else match a.connect
        case ConnectReturns => c
        case ConnectRaises => ConnectFault(c, a)
        case ConnectCallsBack(event, inner) => OnEvent(c, event, inner)
  }

  function TryCurrent(s: State, a: TryAnswers): State {
    if !s.active then s
    else if s.walk.index >= |s.walk.queue| then Finish(s, Exhausted)
    else
      var tried := UpdateConnectButton(StartAttempt(s), a.dialog, a.skip).(expectDisconnect := false);
      var armed := tried.(timers := ArmTimeoutAndTick(tried.timers, tried.deadline, tried.gen));
      if !a.manager then Finish(armed, Exhausted) else Handshake(armed, s.walk.queue[s.walk.index], a)
  }

  function BeginState(s: State, queue: seq<string>): State {
    s.(gen := s.gen + 1, active := true, phase := Connecting, expectDisconnect := false, retries := 0,
       walk := Walk(queue, 0, None, [], [], false, []), win := s.win.(testButton := false),
       runs := s.runs + 1, settles := 0)
  }

  function Begin(s: State, queue: seq<string>, b: BeginAnswers): State {
    var n := BeginState(s, queue);
    if !b.connected then TryCurrent(n, b.attempt)
    else
      var d := n.(expectDisconnect := true, phase := Settling);
      if b.watchRaises || b.disconnect.DisconnectRaises? then TryCurrent(d, b.attempt)
      else Settle(CallDisconnect(d, b.disconnect))
  }

  function ShowPreparing(s: State): State {
    s.(active := true, gen := s.gen + 1, phase := Preparing, walk := s.walk.(queue := [], index := 0, current := None))
  }

  /** The speed-test button, and the way the cascade asks for a test. */
  function TriggerSpeedTest(s: State): State {
    if s.win.testRunning then s.(win := s.win.(testCancelled := true, testButton := false))
    else if !s.win.testButton then s
    else s.(win := s.win.(testCancelled := false, testRunning := true, testButton := true))
  }

  function StartWith(s: State, queue: seq<string>, a: ListAnswers): State {
    if queue == [] then (if s.active then Finish(s, Exhausted) else s)
    else if a.connected && a.selected == Some(queue[0]) then
      (if s.active then Finish(s.(walk := s.walk.(current := a.selected)), Succeeded) else s)
    else Begin(s, queue, a.begin)
  }

  /** Starts from the full configuration list `names`, whatever the window is filtering. */
  function StartFromList(s: State, names: seq<string>, a: ListAnswers): State {
    StartWith(s, BuildQueue(NonEmpty(names), s.win.latencies, true, MAX_CASCADE_CANDIDATES), a)
  }

  function Start(s: State, names: seq<string>, a: ListAnswers): State {
    if s.active || NonEmpty(names) == [] then s
    else if s.win.latencies == map[] then TriggerSpeedTest(ShowPreparing(s.(auto := true)))
    else StartFromList(s, names, a)
  }

  function Cancel(s: State, env: SkipAnswers): State {
    if !Busy(s) then s
    else
      var preparing := s.phase.Preparing?;
      var f := Finish(s.(auto := false, gen := s.gen + 1), CancelledPhase);
      if !preparing && env.connected then CallDisconnect(f, env.disconnect) else f
  }

  function OnTick(s: State, gen: nat, a: FireAnswers): (State, bool) {
    if !s.active || gen != s.gen then (s, false)
    else if a.dialog then (s.(deadline := s.deadline + PROGRESS_TICK_MS), true)
    else if s.deadline <= s.timers.now then (OnTimeout(s, gen, a.dialogAgain, a.skip), false)
    else (UpdateConnectButton(s, a.dialogAgain, a.skip), true)
  }

  function OnSettle(s: State, gen: nat, a: TryAnswers): State {
    var f := s.(timers := s.timers.(settleId := None), settles := s.settles + 1);
    if s.active && gen == s.gen then TryCurrent(f, a) else f
  }

  lemma SettleUnfolds(s: State, generation: nat, a: TryAnswers)
    ensures var f := s.(timers := s.timers.(settleId := None), settles := s.settles + 1);
            OnSettle(s, generation, a) == if s.active && generation == s.gen then TryCurrent(f, a) else f
  {
    hide TryCurrent;
  }

  /** A callback that asks to go on keeps its source, due one interval later, unless it was removed meanwhile. */
  function Rearm(t: Timers, id: nat, again: bool): Timers {
    if again && id in t.sources then t.(sources := t.sources[id := t.sources[id].(due := t.now + t.sources[id].interval)])
    else t.(sources := t.sources - {id})
  }

  function Fire(s: State, id: nat, a: FireAnswers): State
    requires id in s.timers.sources
  {
    var src := s.timers.sources[id];
    match src.kind
    case HandshakeTimer =>
      var f := OnTimeout(s, src.gen, a.dialog, a.skip);
      f.(timers := Rearm(f.timers, id, false))
    case TickTimer =>
      var (f, again) := OnTick(s, src.gen, a);
      f.(timers := Rearm(f.timers, id, again))
    case SettleTimer =>
      var f := OnSettle(s, src.gen, a.attempt);
      f.(timers := Rearm(f.timers, id, false))
  }

  /** A test that was cancelled keeps the old results and cancels a cascade that waits for it. */
  function Measured(s: State, results: Latencies, env: SkipAnswers): State {
    var r := s.(win := s.win.(testRunning := false));
    var c := if !s.win.testCancelled then r.(win := r.win.(latencies := results))
             else if r.auto then Cancel(r, env) else r;
    c.(win := c.win.(testButton := true))
  }

  function SpeedTestDone(s: State, results: Latencies, names: seq<string>, a: ListAnswers, env: SkipAnswers): State {
    var b := Measured(s, results, env);
    if b.auto then
      var o := b.(auto := false);
      if o.active && o.phase.Preparing? then StartFromList(o, names, a) else o
    else b
  }
}
