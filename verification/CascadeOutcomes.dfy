/**
  What the steps of the cascade do, told by the records, the failure list, the index and the
  timers that they leave behind, for every answer of the backend.
 */
module CascadeOutcomes {
  import opened Prelude
  import opened AttemptTiming
  import opened CandidateQueue
  import opened CascadeSpec
  import opened CascadeInvariants
  import opened CascadeRuns
  import opened CascadeBounds

  // ----- Trying a candidate -----

  /** The candidate that is next in `s`, and its budget. */
  function Next(s: State): string
    requires s.walk.index < |s.walk.queue|
  {
    s.walk.queue[s.walk.index]
  }

  function Budget(s: State): nat
    requires s.walk.index < |s.walk.queue|
  {
    ComputeAttemptTimeout(Rtt(s.win.latencies, Next(s)))
  }

  function OpenRecord(s: State): Attempt
    requires s.walk.index < |s.walk.queue|
  {
    Attempt(Next(s), s.timers.now, Budget(s), None, 0, Pending, None, None)
  }

  function ClosedRecord(s: State, outcome: Outcome, code: Option<ErrorCode>, message: Option<Message>): Attempt
    requires s.walk.index < |s.walk.queue|
  {
    Attempt(Next(s), s.timers.now, Budget(s), Some(s.timers.now), 0, outcome, code, message)
  }

  /** The source with this id is live, of this kind and generation, and due so much later. */
  predicate Live(n: State, id: Option<nat>, kind: TimerKind, after: nat) {
    && id.Some? && id.value in n.timers.sources
    && n.timers.sources[id.value] == Source(n.timers.now + after, after, kind, n.gen)
  }

  /** The run goes on, with one more record for the candidate. */
  predicate GoesOn(s: State, n: State, record: Attempt)
    requires s.walk.index < |s.walk.queue|
  {
    && n.active && n.gen == s.gen && n.runs == s.runs && n.win == s.win && n.timers.now == s.timers.now
    && n.walk.queue == s.walk.queue && n.walk.current == Some(Next(s)) && n.walk.slots == s.walk.slots + [s.walk.index]
    && n.walk.attempts == s.walk.attempts + [record]
  }

  /** The attempt is open and has its whole budget. */
  predicate StaysOpen(s: State, n: State, pending: Option<string>)
    requires s.walk.index < |s.walk.queue|
  {
    && GoesOn(s, n, OpenRecord(s)) && n.phase.Connecting?
    && n.walk.index == s.walk.index && n.walk.failures == s.walk.failures
    && n.pendingFailure == pending && n.retries == 0 && !n.expectDisconnect
    && Live(n, n.timers.timeoutId, HandshakeTimer, Budget(s)) && Live(n, n.timers.tickId, TickTimer, 100)
    && n.timers.settleId.None? && n.deadline == n.timers.now + Budget(s)
  }

  /** The backend is connected and says so before its disconnect returns. */
  predicate CallsBack(env: SkipAnswers) {
    env.connected && env.disconnect.DisconnectCallsBack?
  }

  /** The attempt is closed, the failure recorded, and the next candidate is tried after the settle delay. */
  predicate GivesUpOn(s: State, n: State, outcome: Outcome, code: ErrorCode, message: Message, retries: nat, env: SkipAnswers)
    requires s.walk.index < |s.walk.queue|
  {
    && GoesOn(s, n, ClosedRecord(s, outcome, Some(code), Some(message))) && n.phase.Settling?
    && n.walk.index == s.walk.index + 1 && n.walk.failures == s.walk.failures + [Failure(Next(s), outcome)]
    && n.retries == retries && n.expectDisconnect == !CallsBack(env)
    && n.timers.timeoutId.None? && n.timers.tickId.None? && Live(n, n.timers.settleId, SettleTimer, 550)
  }

  /** The old session is given time to go; the same candidate is tried again after the settle delay. */
  predicate AwaitsOldSession(s: State, n: State, d: DisconnectAnswer)
    requires s.walk.index < |s.walk.queue|
  {
    && GoesOn(s, n, OpenRecord(s)) && n.phase.Settling?
    && n.walk.index == s.walk.index && n.walk.failures == s.walk.failures
    && n.retries == s.retries + 1 && n.expectDisconnect == !d.DisconnectCallsBack?
    && Live(n, n.timers.timeoutId, HandshakeTimer, Budget(s)) && Live(n, n.timers.settleId, SettleTimer, 550)
  }

  /** The run is over, with one more record for the candidate. */
  predicate Ends(s: State, n: State, phase: Phase, record: Attempt) {
    && !n.active && n.phase == phase && !n.auto && n.win.testButton
    && n.walk.attempts == s.walk.attempts + [record]
    && n.walk.index == s.walk.index && n.walk.failures == s.walk.failures
    && n.timers.timeoutId.None? && n.timers.tickId.None? && n.timers.settleId.None?
  }

  function FaultText(text: string): Message {
    if text == "" then ReasonText(ConnectError) else Said(text)
  }

  predicate AfterFailure(s: State, n: State, e: Event, env: SkipAnswers)
    requires s.walk.index < |s.walk.queue|
  {
    match Judge(e)
    case Wait(text) => StaysOpen(s, n, Some(text))
    case Skip(reason) =>
      GivesUpOn(s, n, reason, ReasonCode(reason), if e.error.GetOr("") == "" then ReasonText(reason) else Said(e.error.value), 0, env)
  }

  /** What trying the next candidate leads to, for all answers. */
  predicate Tried(s: State, a: TryAnswers, n: State)
    requires s.walk.index < |s.walk.queue|
  {
    if !a.manager then
      Ends(s, n, Exhausted, ClosedRecord(s, BackendError, Some(NoUsableCandidate), Some(NoCandidateRemained)))
    else if a.watchRaises || a.status.StatusRaises? then
      GivesUpOn(s, n, ConnectError, BackendFault, FaultText(a.exceptionText), s.retries, a.skip)
    else if a.status.StatusUp? then
      if s.retries >= 3 then GivesUpOn(s, n, Disconnected, ReasonCode(Disconnected), ReasonText(Disconnected), s.retries + 1, a.skip)
      else if a.disconnect.DisconnectRaises? then
        GivesUpOn(s, n, ConnectError, BackendFault, FaultText(a.exceptionText), s.retries + 1, a.skip)
      else AwaitsOldSession(s, n, a.disconnect)
    else if !a.fileExists then GivesUpOn(s, n, MissingFile, ConfigMissing, FileMissing(Next(s)), 0, a.skip)
    else match a.connect
      case ConnectReturns => StaysOpen(s, n, None)
      case ConnectRaises => GivesUpOn(s, n, ConnectError, BackendFault, FaultText(a.exceptionText), 0, a.skip)
      case ConnectCallsBack(event, inner) =>
        match event.kind
        case ConnectedEvent => Ends(s, n, Succeeded, ClosedRecord(s, Success, None, None))
        case FailedEvent => AfterFailure(s, n, event, inner)
        case DisconnectedEvent => AfterFailure(s, n, event, inner)
        case _ => StaysOpen(s, n, None)
  }

  // ----- Proof -----

  lemma ArmedTimers(t: Timers, deadline: nat, gen: nat)
    requires t.now + SHORTEST_TIMEOUT_MS <= deadline
    ensures var a := ArmTimeoutAndTick(t, deadline, gen);
            && a.now == t.now && a.settleId.None?
            && a.timeoutId.Some? && a.timeoutId.value in a.sources
            && a.sources[a.timeoutId.value] == Source(deadline, deadline - t.now, HandshakeTimer, gen)
            && a.tickId.Some? && a.tickId.value in a.sources
            && a.sources[a.tickId.value] == Source(t.now + 100, 100, TickTimer, gen)
  {
    hide Disarm;
    assert Disarm(t).now == t.now && Disarm(t).settleId.None? by { DisarmNow(t); }
  }

  lemma DisarmNow(t: Timers)
    ensures Disarm(t).now == t.now && Disarm(t).settleId.None? && Disarm(t).timeoutId.None? && Disarm(t).tickId.None?
  {
  }

  /** The attempt as it stands when the backend is first asked. */
  lemma ArmedOpen(s: State)
    requires s.active && s.walk.index < |s.walk.queue|
    ensures var r := Armed(s);
            && StaysOpen(s, r.(retries := 0), None) && r.retries == s.retries
            && r.walk.hasActive && r.auto == s.auto
  {
    StartAttemptEffect(s);
    hide StartAttempt, ComputeAttemptTimeout, Rtt;
    var n := StartAttempt(s);
    ArmedTimers(n.timers, n.deadline, n.gen);
    hide ArmTimeoutAndTick;
  }

  /** Closing the record that was opened last. */
  lemma CloseLast(s: State, outcome: Outcome, code: Option<ErrorCode>, message: Option<Message>)
    requires s.walk.hasActive && LastIsOpen(s.walk)
    ensures var a := Last(s.walk.attempts);
            var now := s.timers.now;
            CompleteActive(s, outcome, code, message) ==
            s.(walk := s.walk.(attempts := s.walk.attempts[..|s.walk.attempts| - 1] +
                 [Attempt(a.config, a.startedAt, a.budget, Some(now), Max(0, now - (s.deadline - a.budget)), outcome, code, message)]))
  {
    var k := |s.walk.attempts| - 1;
    var a := Last(s.walk.attempts);
    var closed := CloseAttempt(a, s.timers.now, s.deadline, outcome, code, message);
    assert s.walk.attempts[k := closed] == s.walk.attempts[..k] + [closed];
  }

  lemma LeavesNew(s: State, r: State, reason: Outcome, code: ErrorCode, message: Message, env: SkipAnswers)
    requires s.active && s.walk.index < |s.walk.queue| && Next(s) != ""
    requires r == Armed(s).(retries := r.retries, phase := r.phase, expectDisconnect := r.expectDisconnect)
    ensures GivesUpOn(s, Advance(r, reason, code, message, env), reason, code, message, r.retries, env)
  {
    ArmedOpen(s);
    assert r.active && r.walk.current == Some(Next(s)) && r.walk.hasActive;
    assert r.walk.attempts == s.walk.attempts + [OpenRecord(s)] && r.deadline == r.timers.now + Budget(s);
    hide Armed, Rtt, ComputeAttemptTimeout;
    var f := AppendedFailure(r, Next(s), reason);
    CloseLast(f, reason, Some(code), Some(message));
    assert f.walk.attempts[..|f.walk.attempts| - 1] == s.walk.attempts;
    AdvanceEffect(r, reason, code, message, env);
    assert Skipped(r, reason, code, message) ==
      CompleteActive(f, reason, Some(code), Some(message))
      .(timers := Disarm(r.timers), walk := CompleteActive(f, reason, Some(code), Some(message)).walk.(index := r.walk.index + 1),
        phase := Settling, expectDisconnect := true);
    hide Advance, Skipped, CompleteActive;
    SettleTimers(Disarm(r.timers), r.gen);
    DisarmNow(r.timers);
    hide Disarm, ArmSettle;
  }

  lemma SettleTimers(t: Timers, gen: nat)
    ensures var a := ArmSettle(t, gen);
            && a.now == t.now && a.timeoutId == t.timeoutId && a.tickId == t.tickId
            && a.settleId == Some(t.nextId) && t.nextId in a.sources
            && a.sources[t.nextId] == Source(t.now + 550, 550, SettleTimer, gen)
            && forall id | id in t.sources && id !in IdSet(t.settleId) && id != t.nextId :: id in a.sources && a.sources[id] == t.sources[id]
  {
  }

  lemma FinishNew(s: State, r: State)
    requires s.active && s.walk.index < |s.walk.queue|
    requires r == Armed(s).(retries := r.retries, phase := r.phase, expectDisconnect := r.expectDisconnect)
    ensures Ends(s, Finish(r, Exhausted), Exhausted, ClosedRecord(s, BackendError, Some(NoUsableCandidate), Some(NoCandidateRemained)))
    ensures Ends(s, Finish(r.(timers := Disarm(r.timers)), Succeeded), Succeeded, ClosedRecord(s, Success, None, None))
  {
    ArmedOpen(s);
    hide Armed, Rtt, ComputeAttemptTimeout;
    assert r.walk.attempts == s.walk.attempts + [OpenRecord(s)];
    assert r.walk.attempts[..|r.walk.attempts| - 1] == s.walk.attempts;
    CloseLast(Ended(r, Exhausted), BackendError, Some(NoUsableCandidate), Some(NoCandidateRemained));
    CloseLast(Ended(r.(timers := Disarm(r.timers)), Succeeded), Success, None, None);
    DisarmNow(r.timers);
    DisarmNow(Disarm(r.timers));
    hide CompleteActive, Disarm;
  }

  lemma WaitsNew(s: State, d: DisconnectAnswer)
    requires s.active && s.walk.index < |s.walk.queue|
    requires forall id | id in Armed(s).timers.sources :: id < Armed(s).timers.nextId
    ensures AwaitsOldSession(s, Waiting(Armed(s), d), d)
  {
    ArmedOpen(s);
    var r := Armed(s);
    hide Armed, Rtt, ComputeAttemptTimeout;
    SettleTimers(r.timers, r.gen);
    hide ArmSettle;
  }

  lemma EventOnNew(s: State, e: Event, env: SkipAnswers)
    requires s.active && s.walk.index < |s.walk.queue| && Next(s) != ""
    ensures var n := OnEvent(Armed(s).(retries := 0), e, env);
            match e.kind
            case ConnectedEvent => Ends(s, n, Succeeded, ClosedRecord(s, Success, None, None))
            case FailedEvent => AfterFailure(s, n, e, env)
            case DisconnectedEvent => AfterFailure(s, n, e, env)
            case _ => StaysOpen(s, n, None)
  {
    ArmedOpen(s);
    var c := Armed(s).(retries := 0);
    hide Armed, Rtt, ComputeAttemptTimeout;
    if e.kind.ConnectedEvent? {
      FinishNew(s, c.(expectDisconnect := false));
      hide Finish, Ends;
    } else if (e.kind.FailedEvent? || e.kind.DisconnectedEvent?) && Judge(e).Skip? {
      var reason := Judge(e).reason;
      LeavesNew(s, c, reason, ReasonCode(reason), EventMessage(e, reason), env);
      hide Advance, Judge, GivesUpOn;
    } else {
      hide Judge, Finish, Advance;
    }
  }

  /** Trying the next candidate, from any state that may try it. */
  lemma TryingLeadsTo(s: State, a: TryAnswers, orphan: set<nat>)
    requires ReadyToTry(s, orphan) && s.walk.index < |s.walk.queue|
    ensures Tried(s, a, TryCurrent(s, a))
  {
    ArmedKeeps(s, orphan);
    assert s.walk.queue[s.walk.index] in s.walk.queue;
    assert s.active && Next(s) != "";
    assert Accounted(Armed(s).timers, orphan);
    TryEffect(s, a);
    TriedByHandshake(s, a);
    hide ReadyToTry, Good, TryCurrent, Handshake, Tried;
    if !a.manager {
      FinishNew(s, Armed(s));
      assert Tried(s, a, Finish(Armed(s), Exhausted)) by { NoManagerTried(s, a, Finish(Armed(s), Exhausted)); }
    }
  }

  lemma NoManagerTried(s: State, a: TryAnswers, n: State)
    requires s.walk.index < |s.walk.queue| && !a.manager
    requires Ends(s, n, Exhausted, ClosedRecord(s, BackendError, Some(NoUsableCandidate), Some(NoCandidateRemained)))
    ensures Tried(s, a, n)
  {
  }

  lemma TriedByHandshake(s: State, a: TryAnswers)
    requires s.active && s.walk.index < |s.walk.queue| && Next(s) != ""
    requires forall id | id in Armed(s).timers.sources :: id < Armed(s).timers.nextId
    ensures a.manager ==> Tried(s, a, Handshake(Armed(s), Next(s), a))
  {
    if a.manager {
      if a.watchRaises || a.status.StatusRaises? {
        var r := Armed(s);
        LeavesNew(s, r, ConnectError, BackendFault, ErrorMessage(a.exceptionText), a.skip);
        ArmedOpen(s);
        hide Armed, Advance, GivesUpOn;
      } else if a.status.StatusUp? {
        TriedOverSession(s, a);
        hide Handshake, Armed;
      } else {
        TriedByConnect(s, a);
        hide Handshake, Armed;
      }
    }
  }

  lemma TriedOverSession(s: State, a: TryAnswers)
    requires s.active && s.walk.index < |s.walk.queue| && Next(s) != ""
    requires forall id | id in Armed(s).timers.sources :: id < Armed(s).timers.nextId
    requires a.manager && !a.watchRaises && a.status.StatusUp?
    ensures Tried(s, a, Handshake(Armed(s), Next(s), a))
  {
    var r := Armed(s);
    ArmedOpen(s);
    assert r.active && r.retries == s.retries;
    RetryEffect(r, Next(s), a);
    var up := r.(retries := r.retries + 1);
    var d := up.(expectDisconnect := true, phase := Settling);
    assert Retried(r, a) ==
      if r.retries >= 3 then Advance(up, Disconnected, ReasonCode(Disconnected), ReasonText(Disconnected), a.skip)
      else if a.disconnect.DisconnectRaises? then Advance(d, ConnectError, BackendFault, FaultText(a.exceptionText), a.skip)
      else Waiting(r, a.disconnect);
    LeavesNew(s, up, Disconnected, ReasonCode(Disconnected), ReasonText(Disconnected), a.skip);
    LeavesNew(s, d, ConnectError, BackendFault, FaultText(a.exceptionText), a.skip);
    WaitsNew(s, a.disconnect);
    hide Armed, StaysOpen, Waiting, Handshake, Advance, GivesUpOn, AwaitsOldSession, Retried, FaultText;
  }

  lemma TriedByConnect(s: State, a: TryAnswers)
    requires s.active && s.walk.index < |s.walk.queue| && Next(s) != ""
    requires a.manager && !a.watchRaises && a.status.StatusDown?
    ensures Tried(s, a, Handshake(Armed(s), Next(s), a))
  {
    var r := Armed(s);
    ArmedOpen(s);
    hide Armed, GivesUpOn, StaysOpen, AfterFailure, Ends, OnEvent, Advance;
    var c := r.(retries := 0);
    if !a.fileExists {
      LeavesNew(s, c, MissingFile, ConfigMissing, FileMissing(Next(s)), a.skip);
    } else if a.connect.ConnectRaises? {
      LeavesNew(s, c, ConnectError, BackendFault, ErrorMessage(a.exceptionText), a.skip);
    } else if a.connect.ConnectCallsBack? {
      EventOnNew(s, a.connect.event, a.connect.inner);
    }
  }

  // ----- The steps that try a candidate -----

  /** `s` once its settle timer has fired, as far as trying a candidate goes. */
  predicate SameTrial(s: State, t: State) {
    && t.walk == s.walk && t.timers.now == s.timers.now && t.gen == s.gen && t.runs == s.runs && t.win == s.win && t.retries == s.retries
  }

  /** The same but for a source that nothing holds. */
  predicate Unheld(f: State, n: State, id: nat) {
    n == f.(timers := f.timers.(sources := f.timers.sources - {id})) && id !in HeldIds(f.timers)
  }

  lemma DropStays(s: State, t: State, f: State, n: State, id: nat, pending: Option<string>)
    requires SameTrial(s, t) && Unheld(f, n, id) && s.walk.index < |s.walk.queue|
    ensures StaysOpen(t, f, pending) ==> StaysOpen(s, n, pending)
  {
    hide ComputeAttemptTimeout, Rtt;
  }

  lemma DropGivesUp(s: State, t: State, f: State, n: State, id: nat, o: Outcome, code: ErrorCode, message: Message, retries: nat, env: SkipAnswers)
    requires SameTrial(s, t) && Unheld(f, n, id) && s.walk.index < |s.walk.queue|
    ensures GivesUpOn(t, f, o, code, message, retries, env) ==> GivesUpOn(s, n, o, code, message, retries, env)
  {
    hide ComputeAttemptTimeout, Rtt;
  }

  lemma DropRest(s: State, t: State, f: State, n: State, id: nat)
    requires SameTrial(s, t) && Unheld(f, n, id) && s.walk.index < |s.walk.queue|
    ensures forall d :: AwaitsOldSession(t, f, d) ==> AwaitsOldSession(s, n, d)
    ensures forall phase, o, code, message ::
              Ends(t, f, phase, ClosedRecord(t, o, code, message)) ==> Ends(s, n, phase, ClosedRecord(s, o, code, message))
  {
    hide ComputeAttemptTimeout, Rtt;
  }

  lemma DropFailure(s: State, t: State, f: State, n: State, id: nat, e: Event, inner: SkipAnswers)
    requires SameTrial(s, t) && Unheld(f, n, id) && s.walk.index < |s.walk.queue|
    ensures AfterFailure(t, f, e, inner) ==> AfterFailure(s, n, e, inner)
  {
    assert t.walk == s.walk;
    hide StaysOpen, GivesUpOn, SameTrial, Unheld;
    forall pending
      ensures StaysOpen(t, f, pending) ==> StaysOpen(s, n, pending)
    {
      DropStays(s, t, f, n, id, pending);
    }
    forall o, code, message, retries, env
      ensures GivesUpOn(t, f, o, code, message, retries, env) ==> GivesUpOn(s, n, o, code, message, retries, env)
    {
      DropGivesUp(s, t, f, n, id, o, code, message, retries, env);
    }
    hide Judge;
  }

  lemma DropTried(s: State, t: State, f: State, n: State, id: nat, a: TryAnswers)
    requires SameTrial(s, t) && Unheld(f, n, id) && s.walk.index < |s.walk.queue|
    ensures Tried(t, a, f) ==> Tried(s, a, n)
  {
    assert t.retries == s.retries && t.walk == s.walk;
    hide StaysOpen, GivesUpOn, SameTrial, Unheld, AwaitsOldSession, Ends, AfterFailure, ClosedRecord;
    DropStays(s, t, f, n, id, None);
    forall o, code, message, retries, env
      ensures GivesUpOn(t, f, o, code, message, retries, env) ==> GivesUpOn(s, n, o, code, message, retries, env)
    {
      DropGivesUp(s, t, f, n, id, o, code, message, retries, env);
    }
    DropRest(s, t, f, n, id);
    forall e, inner
      ensures AfterFailure(t, f, e, inner) ==> AfterFailure(s, n, e, inner)
    {
      DropFailure(s, t, f, n, id, e, inner);
    }
  }

  /** A settle timer with a candidate left tries it, and this is all that can come of it. */
  lemma SettleTries(s: State, id: nat, fire: FireAnswers)
    requires Reachable(s) && NextDue(s.timers, id) && s.timers.sources[id].kind.SettleTimer? && s.walk.index < |s.walk.queue|
    ensures Tried(s, fire.attempt, Fire(s, id, fire))
  {
    ReachableInv(s);
    OwnerOf(s, id);
    SettleReady(s, id);
    var t := AfterSettle(s);
    var f := TryCurrent(t, fire.attempt);
    TryingLeadsTo(t, fire.attempt, {id});
    TryKeeps(t, fire.attempt, {id});
    FireSettleEffect(s, id, fire);
    assert Accounted(f.timers, {id});
    hide TryCurrent, Fire, Inv, Good, Tried, ReadyToTry;
    DropTried(s, t, f, Fire(s, id, fire), id, fire.attempt);
  }

  /** A settle timer after the last candidate ends the run with the records as they are. */
  lemma SettleExhausts(s: State, id: nat, fire: FireAnswers)
    requires Reachable(s) && NextDue(s.timers, id) && s.timers.sources[id].kind.SettleTimer? && s.walk.index == |s.walk.queue|
    ensures var n := Fire(s, id, fire);
            !n.active && n.phase.Exhausted? && n.walk == s.walk && n.timers.sources == map[]
  {
    ReachableInv(s);
    OwnerOf(s, id);
    SettleReady(s, id);
    var t := AfterSettle(s);
    var f := Finish(t, Exhausted);
    TryPastEnd(t, fire.attempt);
    FireSettleEffect(s, id, fire);
    FinishEffect(t, Exhausted);
    NothingToClose(t, Exhausted);
    assert t.walk == s.walk && Accounted(t.timers, {id});
    hide TryCurrent, Fire, Finish, Inv, ReadyToTry, NextDue;
    OnlyOrphan(t.timers, id);
    hide Disarm, Rearm;
  }

  lemma OnlyOrphan(t: Timers, id: nat)
    requires Accounted(t, {id})
    ensures Rearm(Disarm(t), id, false).sources == map[]
  {
    assert Rearm(Disarm(t), id, false).sources.Keys == {};
  }

  lemma NothingToClose(s: State, phase: Phase)
    requires !LastIsOpen(s.walk)
    ensures Finish(s, phase).walk == s.walk
  {
  }

  // ----- Beginning a run -----

  /** The state in which a new run tries its first candidate, as far as that goes. */
  function Emptied(c: State, queue: seq<string>): State {
    c.(active := true, phase := Connecting, gen := c.gen + 1, runs := c.runs + 1, settles := 0, expectDisconnect := false,
       retries := 0, walk := Walk(queue, 0, None, [], [], false, []), win := c.win.(testButton := false))
  }

  /** A run has begun: an old session is asked to go first, otherwise, or if it cannot be asked, the first candidate is tried. */
  predicate Begun(c: State, queue: seq<string>, b: BeginAnswers, n: State)
    requires queue != []
  {
    if b.connected && !b.watchRaises && !b.disconnect.DisconnectRaises? then
      && n.active && n.phase.Settling? && n.gen == c.gen + 1 && n.runs == c.runs + 1 && n.retries == 0
      && n.walk == Walk(queue, 0, None, [], [], false, []) && n.win == c.win.(testButton := false)
      && n.expectDisconnect == !b.disconnect.DisconnectCallsBack?
      && n.timers.timeoutId.None? && n.timers.tickId.None? && Live(n, n.timers.settleId, SettleTimer, 550)
    else Tried(Emptied(c, queue), b.attempt, n)
  }

  lemma BeginLeadsTo(c: State, queue: seq<string>, b: BeginAnswers)
    requires MayBegin(c, queue)
    ensures Begun(c, queue, b, Begin(c, queue, b))
  {
    BeginReady(c, queue);
    var n := BeginState(c, queue);
    assert n == Emptied(c, queue);
    var d := n.(expectDisconnect := true, phase := Settling);
    if !b.connected {
      TryingLeadsTo(n, b.attempt, {});
      hide TryCurrent, Tried;
    } else if b.watchRaises || b.disconnect.DisconnectRaises? {
      assert ReadyToTry(d, {});
      TryingLeadsTo(d, b.attempt, {});
      SettlingTried(n, d, b.attempt, TryCurrent(d, b.attempt));
      hide TryCurrent, Tried;
    } else {
      OwnDisconnectEffect(d, b.disconnect);
      SettleTimers(d.timers, d.gen);
      assert d.timers.timeoutId.None? && d.timers.tickId.None?;
      hide Tried, ArmSettle;
    }
  }

  /** Where the phase was before makes no difference to a try. */
  lemma SettlingTried(s: State, d: State, a: TryAnswers, n: State)
    requires d == s.(expectDisconnect := true, phase := Settling) && s.walk.index < |s.walk.queue|
    ensures Tried(d, a, n) ==> Tried(s, a, n)
  {
    assert SameTrial(s, d);
    hide Judge, ComputeAttemptTimeout, Rtt;
    forall e, inner
      ensures AfterFailure(d, n, e, inner) ==> AfterFailure(s, n, e, inner)
    {
    }
    hide AfterFailure;
  }

  // ----- Requests and the end of the speed test -----

  /** The cascade waits for a speed test: the one it asks for, or, if one was running, one that it has just cancelled. */
  predicate Prepares(s: State, n: State) {
    && n.active && n.auto && n.phase.Preparing? && n.gen == s.gen + 1 && n.runs == s.runs
    && n.walk == s.walk.(queue := [], index := 0, current := None) && n.timers == s.timers
    && n.win == if s.win.testRunning then s.win.(testCancelled := true, testButton := false)
                else s.win.(testCancelled := false, testRunning := true)
  }

  /** What a start request leads to, with the complete configuration list `names`. */
  predicate Started(s: State, names: seq<string>, a: ListAnswers, n: State) {
    if s.active || NonEmpty(names) == [] then n == s
    else if s.win.latencies == map[] then Prepares(s, n)
    else
      var queue := BuildQueue(NonEmpty(names), s.win.latencies, true, 50);
      queue != [] && if a.connected && a.selected == Some(queue[0]) then n == s else Begun(s, queue, a.begin, n)
  }

  lemma StartLeadsTo(s: State, names: seq<string>, a: ListAnswers)
    requires Reachable(s)
    ensures Started(s, names, a, Start(s, names, a))
  {
    ReachableInv(s);
    if !s.active && NonEmpty(names) != [] && s.win.latencies != map[] {
      var queue := BuildQueue(NonEmpty(names), s.win.latencies, true, 50);
      QueueNotEmpty(names, s.win.latencies);
      QueueShape(NonEmpty(names), s.win.latencies, true, 50);
      assert MayBegin(s, queue);
      BeginLeadsTo(s, queue, a.begin);
    }
    hide Begin, BuildQueue, Begun, Good;
  }

  lemma QueueNotEmpty(names: seq<string>, latencies: Latencies)
    ensures BuildQueue(NonEmpty(names), latencies, true, 50) == [] <==> NonEmpty(names) == []
  {
    QueueShape(NonEmpty(names), latencies, true, 50);
    if NonEmpty(names) != [] {
      assert NonEmpty(names)[0] in NonEmpty(names);
    }
    hide BuildQueue;
  }

  /** The window once a test is over: new results unless it was cancelled. */
  function WindowAfter(w: Window, results: Latencies): Window {
    Window(if w.testCancelled then w.latencies else results, false, w.testCancelled, true)
  }

  /** What the end of a speed test leads to. */
  predicate TestEnded(s: State, results: Latencies, names: seq<string>, a: ListAnswers, n: State) {
    var win := WindowAfter(s.win, results);
    if !s.phase.Preparing? then n == s.(win := win)
    else if s.win.testCancelled then
      !n.active && !n.auto && n.phase.CancelledPhase? && n.walk == s.walk && n.win == win && n.gen == s.gen + 1
    else
      var queue := BuildQueue(NonEmpty(names), results, true, 50);
      if queue == [] then
        NonEmpty(names) == [] && !n.active && !n.auto && n.phase.Exhausted? && n.walk == s.walk && n.win == win
      else if a.connected && a.selected == Some(queue[0]) then
        !n.active && !n.auto && n.phase.Succeeded? && n.walk == s.walk.(current := a.selected) && n.win == win
      else Begun(s.(win := win, auto := false), queue, a.begin, n)
  }

  lemma TestEndLeadsTo(s: State, results: Latencies, names: seq<string>, a: ListAnswers, env: SkipAnswers)
    requires Reachable(s) && s.win.testRunning
    ensures TestEnded(s, results, names, a, SpeedTestDone(s, results, names, a, env))
  {
    ReachableInv(s);
    var r := s.(win := s.win.(testRunning := false));
    assert s.auto <==> s.phase.Preparing?;
    if s.phase.Preparing? && s.win.testCancelled {
      CancelQuietly(r, env);
      hide Cancel, Good;
    } else {
      var o := s.(win := WindowAfter(s.win, results), auto := false);
      if s.phase.Preparing? {
        ListLeadsTo(s, results, names, a);
        assert SpeedTestDone(s, results, names, a, env) == StartFromList(o, names, a);
      }
      hide StartFromList, Good, Begun, BuildQueue;
    }
  }

  lemma CancelQuietly(r: State, env: SkipAnswers)
    requires r.active && r.auto && r.phase.Preparing? && !LastIsOpen(r.walk)
    ensures var c := Cancel(r, env);
            !c.active && !c.auto && c.phase.CancelledPhase? && c.walk == r.walk && c.gen == r.gen + 1 && c.win == r.win.(testButton := true)
  {
    var f := r.(auto := false, gen := r.gen + 1);
    FinishEffect(f, CancelledPhase);
    NothingToClose(f, CancelledPhase);
    hide Finish;
  }

  lemma ListLeadsTo(s: State, results: Latencies, names: seq<string>, a: ListAnswers)
    requires Inv(s) && s.phase.Preparing? && !s.win.testCancelled
    ensures var o := s.(win := WindowAfter(s.win, results), auto := false);
            TestEnded(s, results, names, a, StartFromList(o, names, a))
  {
    var o := s.(win := WindowAfter(s.win, results), auto := false);
    var queue := BuildQueue(NonEmpty(names), results, true, 50);
    QueueNotEmpty(names, results);
    QueueShape(NonEmpty(names), results, true, 50);
    FinishEffect(o, Exhausted);
    NothingToClose(o, Exhausted);
    FinishEffect(o.(walk := o.walk.(current := a.selected)), Succeeded);
    NothingToClose(o.(walk := o.walk.(current := a.selected)), Succeeded);
    if queue != [] {
      assert MayBegin(o, queue);
      BeginLeadsTo(o, queue, a.begin);
    }
    hide Begin, BuildQueue, Begun, Good, Finish, MayBegin;
  }

  // ----- Timeouts, events and endings -----

  /** A timeout under a dialog gives the attempt four more seconds and changes nothing else. */
  lemma GraceIsGiven(s: State, id: nat, fire: FireAnswers)
    requires Reachable(s) && NextDue(s.timers, id) && s.timers.sources[id].kind.HandshakeTimer? && fire.dialog
    ensures var n := Fire(s, id, fire);
            && n == s.(deadline := s.timers.now + 4_000, timers := n.timers)
            && Live(n, n.timers.timeoutId, HandshakeTimer, 4_000) && Live(n, n.timers.tickId, TickTimer, 100)
  {
    ReachableInv(s);
    OwnerOf(s, id);
    var t := s.timers.(timeoutId := None);
    var f := OnTimeout(s, s.gen, fire.dialog, fire.skip);
    ArmedTimers(t, s.timers.now + 4_000, s.gen);
    TimeoutKeeps(s, id, true, fire.skip);
    assert Accounted(f.timers, {id});
    hide ArmTimeoutAndTick, Advance, Inv, Good, NextDue;
  }

  /** A timeout without a dialog closes the attempt and goes on to the next candidate after the settle delay. */
  lemma TimeoutMovesOn(s: State, id: nat, fire: FireAnswers)
    requires Reachable(s) && NextDue(s.timers, id) && s.timers.sources[id].kind.HandshakeTimer? && !fire.dialog
    ensures var n := Fire(s, id, fire);
            && n.active && n.phase.Settling? && n.walk.index == s.walk.index + 1 && s.walk.current.Some?
            && n.walk.failures == s.walk.failures + [Failure(s.walk.current.value, TimedOut)]
            && n.timers.timeoutId.None? && n.timers.tickId.None? && Live(n, n.timers.settleId, SettleTimer, 550)
  {
    ReachableInv(s);
    OwnerOf(s, id);
    OpenMeansTrying(s);
    var t := s.(timers := s.timers.(timeoutId := None));
    var message := if s.pendingFailure.Some? && s.pendingFailure.value != "" then Said(s.pendingFailure.value)
                   else HandshakeExpired;
    TimeoutKeeps(s, id, false, fire.skip);
    var f := OnTimeout(s, s.gen, false, fire.skip);
    assert Accounted(f.timers, {id});
    assert f == Advance(t, TimedOut, ReasonCode(TimedOut), message, fire.skip);
    AdvanceEffect(t, TimedOut, ReasonCode(TimedOut), message, fire.skip);
    SkippedEffect(t, TimedOut, ReasonCode(TimedOut), message);
    SettleTimers(Disarm(t.timers), t.gen);
    DisarmNow(t.timers);
    hide Advance, Skipped, OnTimeout, Inv, Good, NextDue, ArmSettle, Disarm, CompleteActive;
  }

  /** Events that change nothing: all of them outside a walk, and progress, pause and resume in one. */
  lemma OtherEventsChangeNothing(s: State, e: Event, env: SkipAnswers)
    requires Reachable(s) && (!s.active || e.kind.ProgressEvent? || e.kind.PausedEvent? || e.kind.ResumedEvent?
                              || (s.phase.Preparing? && !e.kind.ConnectedEvent?))
    ensures OnEvent(s, e, env) == s
  {
    ReachableInv(s);
    hide Good;
  }

  /** The window leaves to the cascade exactly the progress, failure and disconnect events of an active one. */
  lemma ConsumedExactly(s: State, e: Event)
    ensures ConsumesEvent(s, e) <==> s.active && (e.kind.ProgressEvent? || e.kind.FailedEvent? || e.kind.DisconnectedEvent?)
  {
  }

  /** The whole record of an attempt that a success or a cancel ends. */
  lemma EndingRecords(s: State, e: Event, env: SkipAnswers)
    requires Reachable(s) && s.timers.timeoutId.Some?
    ensures s.walk.attempts != []
    ensures var a := Last(s.walk.attempts);
            var now := s.timers.now;
            var rest := s.walk.attempts[..|s.walk.attempts| - 1];
            var elapsed := if now + a.budget < s.deadline then 0 else now + a.budget - s.deadline;
            && (e.kind.ConnectedEvent? ==>
                  OnEvent(s, e, env).walk.attempts == rest + [Attempt(a.config, a.startedAt, a.budget, Some(now), elapsed, Success, None, None)])
            && Cancel(s, env).walk.attempts
               == rest + [Attempt(a.config, a.startedAt, a.budget, Some(now), elapsed, Cancelled, Some(CancelledCode), Some(CancelledByUser))]
  {
    ReachableInv(s);
    OpenMeansTrying(s);
    var d := s.(timers := Disarm(s.timers), expectDisconnect := false);
    var c := s.(auto := false, gen := s.gen + 1);
    DisarmNow(s.timers);
    DisarmNow(d.timers);
    CloseLast(Ended(d, Succeeded), Success, None, None);
    CloseLast(Ended(c, CancelledPhase), Cancelled, Some(CancelledCode), Some(CancelledByUser));
    hide CompleteActive, Disarm, Good;
  }

  // ----- The summary -----

  /** How many records have one of these outcomes. */
  function Count(attempts: seq<Attempt>, outcomes: set<Outcome>): nat {
    if attempts == [] then 0 else Count(attempts[1..], outcomes) + if attempts[0].outcome in outcomes then 1 else 0
  }

  lemma {:induction false} CountLast(attempts: seq<Attempt>, outcomes: set<Outcome>)
    requires attempts != []
    ensures Count(attempts, outcomes) == Count(attempts[..|attempts| - 1], outcomes) + if Last(attempts).outcome in outcomes then 1 else 0
  {
    if |attempts| > 1 {
      CountLast(attempts[1..], outcomes);
      assert attempts[1..][..|attempts| - 2] == attempts[..|attempts| - 1][1..];
    }
  }

  /** Each counter of the summary counts its own outcomes. */
  lemma {:induction false} SummaryCounts(attempts: seq<Attempt>)
    ensures var t := Summarize(attempts);
            && t.timeouts == Count(attempts, {TimedOut})
            && t.handshakeFailures == Count(attempts, {AuthFailed, ConnectError, Disconnected})
            && t.backendErrors == Count(attempts, {BackendError, MissingFile})
            && t.cancelled == Count(attempts, {Cancelled})
            && t.success == Count(attempts, {Success})
  {
    if attempts != [] {
      SummaryCounts(attempts[..|attempts| - 1]);
      SummaryOfLast(attempts);
      CountLast(attempts, {TimedOut});
      CountLast(attempts, {AuthFailed, ConnectError, Disconnected});
      CountLast(attempts, {BackendError, MissingFile});
      CountLast(attempts, {Cancelled});
      CountLast(attempts, {Success});
      hide Count, Summarize;
    }
  }
}
