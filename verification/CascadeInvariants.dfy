/**
  What holds of the cascade between callbacks, and the proof that every callback keeps it.
  `orphan` names the source that the scheduler is dispatching: it is still in the table but
  the controller may already have forgotten it.
 */
module CascadeInvariants {
  import opened Prelude
  import opened AttemptTiming
  import opened CandidateQueue
  import opened CascadeSpec

  // ----- The invariant -----

  /** The table holds the remembered ids and the orphans, and nothing else. */
  ghost predicate Accounted(t: Timers, orphan: set<nat>) {
    && t.sources.Keys == HeldIds(t) + orphan
    && HeldIds(t) !! orphan
    && (t.timeoutId.Some? ==> t.timeoutId != t.tickId && t.timeoutId != t.settleId)
    && (t.tickId.Some? ==> t.tickId != t.settleId)
    && (forall id | id in t.sources :: id < t.nextId)
  }

  ghost predicate IsLive(t: Timers, id: Option<nat>, kind: TimerKind, gen: nat) {
    id.Some? ==> id.value in t.sources && t.sources[id.value].kind == kind && t.sources[id.value].gen == gen
  }

  /** Timeout and tick come in pairs, the timeout first and due by the deadline. */
  ghost predicate Paired(t: Timers, gen: nat, deadline: nat) {
    && IsLive(t, t.timeoutId, HandshakeTimer, gen)
    && IsLive(t, t.tickId, TickTimer, gen)
    && IsLive(t, t.settleId, SettleTimer, gen)
    && (t.timeoutId.Some? <==> t.tickId.Some?)
    && (t.tickId.Some? ==> t.sources[t.tickId.value].interval == PROGRESS_TICK_MS)
    && (t.timeoutId.Some? ==> t.timeoutId.value < t.tickId.value && t.sources[t.timeoutId.value].due <= deadline)
  }

  ghost predicate IsTerminal(o: Outcome) {
    o.Success? || o.Cancelled? || o.BackendError?
  }

  ghost predicate AttemptOk(a: Attempt, now: nat) {
    && MIN_ATTEMPT_TIMEOUT_MS <= a.budget <= MAX_ATTEMPT_TIMEOUT_MS
    && a.startedAt <= now
    && (a.finishedAt.None? <==> a.outcome.Pending?)
    && (a.finishedAt.Some? ==>
          && a.startedAt <= a.finishedAt.value <= now
          && a.elapsed <= a.finishedAt.value - a.startedAt
          && (a.outcome.TimedOut? ==> a.startedAt + a.budget <= a.finishedAt.value))
  }

  ghost predicate LastIsOpen(w: Walk) {
    w.attempts != [] && Last(w.attempts).finishedAt.None?
  }

  ghost predicate LedgerOk(w: Walk, now: nat, deadline: nat) {
    && (w.hasActive <==> w.attempts != [])
    && (forall k | 0 <= k < |w.attempts| :: AttemptOk(w.attempts[k], now))
    && (forall k | 0 <= k < |w.attempts| - 1 :: !IsTerminal(w.attempts[k].outcome))
    && (LastIsOpen(w) ==> Last(w.attempts).startedAt + Last(w.attempts).budget <= deadline)
  }

  function ClosedCount(attempts: seq<Attempt>): nat {
    if attempts == [] then 0
    else ClosedCount(attempts[..|attempts| - 1]) + if Last(attempts).finishedAt.Some? then 1 else 0
  }

  /** One closed record for each failure, and one more when the run itself closed the last one. */
  ghost predicate CountOk(w: Walk) {
    ClosedCount(w.attempts) == |w.failures| + if w.attempts != [] && IsTerminal(Last(w.attempts).outcome) then 1 else 0
  }

  /** Queue indices of the attempts: from 0, in steps of 0 or 1, up to the index, at most four records each. */
  ghost predicate SlotsOk(w: Walk) {
    && |w.slots| == |w.attempts|
    && (if w.slots == [] then w.index == 0 else w.slots[0] == 0 && w.index <= Last(w.slots) + 1)
    && (forall k | 0 < k < |w.slots| :: w.slots[k - 1] <= w.slots[k] <= w.slots[k - 1] + 1)
    && (forall k | 0 <= k < |w.slots| ::
          w.slots[k] <= w.index && w.slots[k] < |w.queue| && w.attempts[k].config == w.queue[w.slots[k]])
    && (forall i :: multiset(w.slots)[i] <= 4)
  }

  /** One failure record for each candidate already left behind. */
  ghost predicate FailuresOk(w: Walk) {
    && |w.failures| == w.index <= |w.queue|
    && (forall i | 0 <= i < w.index :: w.failures[i].name == w.queue[i] && IsSkipReason(w.failures[i].reason))
  }

  ghost predicate WalkOk(w: Walk) {
    w.queue != [] ==> "" !in w.queue && SlotsOk(w) && FailuresOk(w)
  }

  /** An attempt at the candidate under the index is open. */
  ghost predicate Trying(w: Walk) {
    && w.index < |w.queue|
    && w.current == Some(w.queue[w.index])
    && LastIsOpen(w)
    && w.slots != [] && Last(w.slots) == w.index
  }

  /** The candidate under the index, if any, has not been tried. */
  ghost predicate Between(w: Walk) {
    && w.index !in w.slots
    && (w.attempts == [] ==> w.index == 0)
    && (w.attempts != [] ==> IsSkipReason(Last(w.attempts).outcome) && w.slots != [] && Last(w.slots) + 1 == w.index)
  }

  ghost function Tries(w: Walk): nat {
    multiset(w.slots)[w.index]
  }

  /** The part that also holds in the middle of a callback. */
  ghost predicate Core(s: State, orphan: set<nat>) {
    && Accounted(s.timers, orphan)
    && LedgerOk(s.walk, s.timers.now, s.deadline)
    && WalkOk(s.walk)
    && (s.walk.queue != [] ==> CountOk(s.walk))
    && (Walking(s) ==> s.walk.queue != [] && (Trying(s.walk) || Between(s.walk)))
    && (!Walking(s) ==> !LastIsOpen(s.walk))
  }

  ghost predicate PhaseOk(s: State) {
    && (s.active <==> s.phase.Preparing? || s.phase.Connecting? || s.phase.Settling?)
    && (s.auto <==> s.phase.Preparing?)
    && (s.phase.Preparing? ==> s.walk.queue == [])
  }

  /** While walking, an open attempt and a live handshake timeout are the same thing. */
  ghost predicate Linked(s: State) {
    var t := s.timers;
    && Paired(t, s.gen, s.deadline)
    && (!Walking(s) ==> HeldIds(t) == {})
    && (Walking(s) ==> (t.timeoutId.Some? <==> LastIsOpen(s.walk)))
    && (t.timeoutId.Some? ==>
          LastIsOpen(s.walk) && Last(s.walk.attempts).startedAt + Last(s.walk.attempts).budget <= t.sources[t.timeoutId.value].due)
    && (s.phase.Connecting? ==> t.timeoutId.Some? && t.settleId.None?)
    && (s.phase.Settling? ==> t.timeoutId.Some? || t.settleId.Some?)
    && (s.phase.Settling? && t.timeoutId.Some? ==> Tries(s.walk) <= s.retries <= MAX_DISCONNECT_RETRIES)
  }

  /** A speed test is in flight whenever the cascade waits for one, and its button is never lost. */
  ghost predicate WindowOk(s: State) {
    && (s.phase.Preparing? ==> s.win.testRunning)
    && (!s.win.testButton ==> (s.win.testRunning && s.win.testCancelled) || Walking(s))
  }

  ghost predicate Good(s: State, orphan: set<nat>) {
    Core(s, orphan) && PhaseOk(s) && Linked(s) && WindowOk(s)
  }

  ghost predicate Inv(s: State) {
    Good(s, {})
  }

  // ----- Timer sources -----

  lemma DisarmAccounts(t: Timers, orphan: set<nat>)
    requires Accounted(t, orphan)
    ensures var d := Disarm(t); Accounted(d, orphan) && HeldIds(d) == {} && d.nextId == t.nextId && d.now == t.now
  {
  }

  lemma ArmPairAccounts(t: Timers, deadline: nat, gen: nat, orphan: set<nat>)
    requires Accounted(t, orphan)
    ensures var a := ArmTimeoutAndTick(t, deadline, gen);
            && Accounted(a, orphan)
            && a.now == t.now
            && a.timeoutId.Some? && a.settleId.None?
            && a.sources[a.timeoutId.value].due == t.now + Max(SHORTEST_TIMEOUT_MS, deadline - t.now)
            && (t.now + SHORTEST_TIMEOUT_MS <= deadline ==> Paired(a, gen, deadline))
  {
    DisarmAccounts(t, orphan);
    var d := Disarm(t);
    var a := AddSource(d, Max(SHORTEST_TIMEOUT_MS, deadline - d.now), HandshakeTimer, gen).(timeoutId := Some(d.nextId));
    assert a.sources.Keys == d.sources.Keys + {d.nextId};
    var b := ArmTimeoutAndTick(t, deadline, gen);
    assert b.sources.Keys == a.sources.Keys + {a.nextId};
  }

  lemma ArmSettleAccounts(t: Timers, gen: nat, deadline: nat, orphan: set<nat>)
    requires Accounted(t, orphan)
    ensures var a := ArmSettle(t, gen);
            && Accounted(a, orphan)
            && a.now == t.now && a.timeoutId == t.timeoutId && a.tickId == t.tickId
            && a.settleId == Some(t.nextId)
            && a.sources[t.nextId] == Source(t.now + DISCONNECT_SETTLE_MS, DISCONNECT_SETTLE_MS, SettleTimer, gen)
            && (forall id | id in IdSet(t.timeoutId) + IdSet(t.tickId) - IdSet(t.settleId) :: a.sources[id] == t.sources[id])
            && (Paired(t, gen, deadline) ==> Paired(a, gen, deadline))
  {
    var d := t.(sources := t.sources - IdSet(t.settleId));
    assert ArmSettle(t, gen).sources.Keys == d.sources.Keys + {t.nextId};
  }

  // ----- The ledger -----

  /** Identity never changes; once closed, nothing changes. */
  ghost predicate SameAttempt(a: Attempt, b: Attempt) {
    && a.config == b.config && a.startedAt == b.startedAt && a.budget == b.budget
    && (a.finishedAt.Some? ==> a == b)
  }

  ghost predicate LedgerGrows(a: seq<Attempt>, b: seq<Attempt>) {
    |a| <= |b| && forall k | 0 <= k < |a| :: SameAttempt(a[k], b[k])
  }

  /** What any step within a run leaves alone. */
  ghost predicate SameRun(s: State, n: State) {
    && n.gen == s.gen && n.runs == s.runs && n.walk.queue == s.walk.queue
    && n.timers.now == s.timers.now && n.settles == s.settles
    && (n.phase.Preparing? ==> s.phase.Preparing?)
    && s.walk.index <= n.walk.index
    && LedgerGrows(s.walk.attempts, n.walk.attempts)
  }

  lemma SameRunTransitive(a: State, b: State, c: State)
    requires SameRun(a, b) && SameRun(b, c)
    ensures SameRun(a, c)
  {
  }

  /** The recorded duration leaves out the time the countdown was frozen, so it never exceeds the real one. */
  lemma CloseKeepsAttempt(a: Attempt, now: nat, deadline: nat, outcome: Outcome, code: Option<ErrorCode>, message: Option<Message>)
    requires AttemptOk(a, now) && !outcome.Pending?
    requires a.startedAt + a.budget <= deadline
    requires outcome.TimedOut? ==> a.startedAt + a.budget <= now
    ensures AttemptOk(CloseAttempt(a, now, deadline, outcome, code, message), now)
  {
  }

  lemma CompleteKeepsLedger(s: State, outcome: Outcome, code: Option<ErrorCode>, message: Option<Message>)
    requires LedgerOk(s.walk, s.timers.now, s.deadline)
    requires !outcome.Pending?
    requires outcome.TimedOut? && LastIsOpen(s.walk) ==>
               Last(s.walk.attempts).startedAt + Last(s.walk.attempts).budget <= s.timers.now
    ensures var c := CompleteActive(s, outcome, code, message);
            && LedgerOk(c.walk, s.timers.now, s.deadline)
            && !LastIsOpen(c.walk)
            && c == s.(walk := s.walk.(attempts := c.walk.attempts))
            && |c.walk.attempts| == |s.walk.attempts|
            && LedgerGrows(s.walk.attempts, c.walk.attempts)
            && (LastIsOpen(s.walk) ==>
                  Last(c.walk.attempts).outcome == outcome
                  && ClosedCount(c.walk.attempts) == ClosedCount(s.walk.attempts) + 1)
            && (!LastIsOpen(s.walk) ==> c == s)
  {
    if LastIsOpen(s.walk) {
      CloseKeepsAttempt(Last(s.walk.attempts), s.timers.now, s.deadline, outcome, code, message);
      var k := |s.walk.attempts| - 1;
      var closed := CloseAttempt(s.walk.attempts[k], s.timers.now, s.deadline, outcome, code, message);
      assert CompleteActive(s, outcome, code, message).walk.attempts == s.walk.attempts[k := closed];
      assert s.walk.attempts[k := closed][..k] == s.walk.attempts[..k];
    }
  }

  // ----- Steps -----

  /** A disconnect event during the controller's own disconnect is swallowed. */
  lemma AdvanceEffect(s: State, reason: Outcome, code: ErrorCode, message: Message, env: SkipAnswers)
    requires s.active
    ensures Advance(s, reason, code, message, env)
         == Settle(Skipped(s, reason, code, message).(expectDisconnect := !(env.connected && env.disconnect.DisconnectCallsBack?)))
  {
  }

  /** Closing attempts does not touch where they stand in the walk. */
  lemma SameWalk(w: Walk, attempts: seq<Attempt>)
    requires WalkOk(w)
    requires |attempts| == |w.attempts| && LedgerGrows(w.attempts, attempts)
    ensures WalkOk(w.(attempts := attempts))
  {
  }

  lemma NextCandidate(w: Walk, reason: Outcome)
    requires WalkOk(w) && w.queue != [] && w.index < |w.queue| && IsSkipReason(reason)
    requires w.slots != [] && Last(w.slots) == w.index
    ensures WalkOk(w.(failures := w.failures + [Failure(w.queue[w.index], reason)], index := w.index + 1))
    ensures w.index + 1 !in w.slots
  {
    var n := w.(failures := w.failures + [Failure(w.queue[w.index], reason)], index := w.index + 1);
    assert SlotsOk(n);
    assert FailuresOk(n);
  }

  lemma SkippedEffect(s: State, reason: Outcome, code: ErrorCode, message: Message)
    requires WalkOk(s.walk) && Trying(s.walk)
    ensures Skipped(s, reason, code, message)
         == s.(walk := s.walk.(failures := s.walk.failures + [Failure(s.walk.queue[s.walk.index], reason)],
                               index := s.walk.index + 1,
                               attempts := CompleteActive(s, reason, Some(code), Some(message)).walk.attempts),
               timers := Disarm(s.timers), phase := Settling, expectDisconnect := true)
  {
    var name := s.walk.queue[s.walk.index];
    assert name in s.walk.queue && name != "";
    hide WalkOk, LastIsOpen;
    var f := AppendedFailure(s, name, reason);
    assert RecordFailure(s, reason, code, message) == CompleteActive(f, reason, Some(code), Some(message));
    CompleteIgnoresFailures(s, f, reason, code, message);
    hide CompleteActive, RecordFailure, Disarm;
  }

  /** Closing the current record looks at the records only. */
  lemma CompleteIgnoresFailures(s: State, f: State, reason: Outcome, code: ErrorCode, message: Message)
    requires f == s.(walk := s.walk.(failures := f.walk.failures))
    ensures CompleteActive(f, reason, Some(code), Some(message)) ==
            f.(walk := f.walk.(attempts := CompleteActive(s, reason, Some(code), Some(message)).walk.attempts))
  {
  }

  /** The ledger conditions look at the records only. */
  lemma SameLedger(w: Walk, n: Walk, now: nat, deadline: nat)
    requires LedgerOk(w, now, deadline) && n.attempts == w.attempts && n.hasActive == w.hasActive
    ensures LedgerOk(n, now, deadline)
  {
  }

  /** Leaving a candidate behind: its attempt is closed, its failure recorded, the next one untried. */
  lemma SkippedWalk(s: State, reason: Outcome, code: ErrorCode, message: Message)
    requires LedgerOk(s.walk, s.timers.now, s.deadline) && WalkOk(s.walk) && CountOk(s.walk) && Trying(s.walk)
    requires IsSkipReason(reason)
    requires reason.TimedOut? ==> Last(s.walk.attempts).startedAt + Last(s.walk.attempts).budget <= s.timers.now
    ensures var w := Skipped(s, reason, code, message).walk;
            && LedgerOk(w, s.timers.now, s.deadline) && WalkOk(w) && CountOk(w) && Between(w) && !LastIsOpen(w)
            && w.queue == s.walk.queue && w.index == s.walk.index + 1
            && LedgerGrows(s.walk.attempts, w.attempts)
  {
    SkippedEffect(s, reason, code, message);
    CompleteKeepsLedger(s, reason, Some(code), Some(message));
    var c := CompleteActive(s, reason, Some(code), Some(message)).walk;
    assert LastIsOpen(s.walk) && s.walk.queue != [];
    hide CompleteActive, Skipped, ClosedCount, LedgerOk, WalkOk, CountOk, Trying, LedgerGrows, Between;
    LeftBehind(s.walk, c, reason, s.timers.now, s.deadline);
  }

  /** The walk once the record under its index is closed and its candidate left. */
  lemma LeftBehind(w: Walk, c: Walk, reason: Outcome, now: nat, deadline: nat)
    requires WalkOk(w) && CountOk(w) && Trying(w) && IsSkipReason(reason) && w.queue != []
    requires c == w.(attempts := c.attempts) && LedgerOk(c, now, deadline) && !LastIsOpen(c)
    requires |c.attempts| == |w.attempts| > 0 && LedgerGrows(w.attempts, c.attempts)
    requires Last(c.attempts).outcome == reason && ClosedCount(c.attempts) == ClosedCount(w.attempts) + 1
    requires Last(w.attempts).outcome.Pending?
    ensures var n := c.(failures := w.failures + [Failure(w.queue[w.index], reason)], index := w.index + 1);
            LedgerOk(n, now, deadline) && WalkOk(n) && CountOk(n) && Between(n) && !LastIsOpen(n)
  {
    NextCandidate(w, reason);
    var m := w.(failures := w.failures + [Failure(w.queue[w.index], reason)], index := w.index + 1);
    SameWalk(m, c.attempts);
    var n := c.(failures := w.failures + [Failure(w.queue[w.index], reason)], index := w.index + 1);
    assert n == m.(attempts := c.attempts);
    SameLedger(c, n, now, deadline);
    hide LedgerOk, WalkOk, LedgerGrows, ClosedCount;
  }

  lemma AdvanceKeeps(s: State, reason: Outcome, code: ErrorCode, message: Message, env: SkipAnswers, orphan: set<nat>)
    requires Core(s, orphan) && PhaseOk(s) && WindowOk(s) && Walking(s) && Trying(s.walk)
    requires IsSkipReason(reason)
    requires reason.TimedOut? ==> Last(s.walk.attempts).startedAt + Last(s.walk.attempts).budget <= s.timers.now
    ensures var n := Advance(s, reason, code, message, env);
            Good(n, orphan) && SameRun(s, n) && n.phase.Settling? && n.walk.index == s.walk.index + 1
  {
    AdvanceEffect(s, reason, code, message, env);
    SkippedEffect(s, reason, code, message);
    SkippedWalk(s, reason, code, message);
    DisarmAccounts(s.timers, orphan);
    ArmSettleAccounts(Disarm(s.timers), s.gen, s.deadline, orphan);
    var n := Advance(s, reason, code, message, env);
    assert n.walk == Skipped(s, reason, code, message).walk;
    assert n.timers == ArmSettle(Disarm(s.timers), s.gen);
    assert Core(n, orphan);
    assert Linked(n);
  }

  lemma FinishEffect(s: State, phase: Phase)
    requires phase.Succeeded? || phase.Exhausted? || phase.CancelledPhase?
    ensures var f := Finish(s, phase);
            f == s.(timers := Disarm(s.timers), active := false, phase := phase, expectDisconnect := false, auto := false,
                    win := s.win.(testButton := true), walk := s.walk.(attempts := f.walk.attempts))
  {
  }

  lemma FinishKeepsLedger(s: State, phase: Phase)
    requires LedgerOk(s.walk, s.timers.now, s.deadline)
    requires phase.Succeeded? || phase.Exhausted? || phase.CancelledPhase?
    ensures var f := Finish(s, phase);
            && LedgerOk(f.walk, s.timers.now, s.deadline) && !LastIsOpen(f.walk)
            && |f.walk.attempts| == |s.walk.attempts|
            && LedgerGrows(s.walk.attempts, f.walk.attempts)
            && (CountOk(s.walk) ==> CountOk(f.walk))
  {
    var d := s.(timers := Disarm(s.timers), active := false, phase := phase, expectDisconnect := false, auto := false,
                win := s.win.(testButton := true));
    if phase.Succeeded? {
      CompleteKeepsLedger(d, Success, None, None);
    } else if phase.CancelledPhase? {
      CompleteKeepsLedger(d, Cancelled, Some(CancelledCode), Some(CancelledByUser));
    } else {
      CompleteKeepsLedger(d, BackendError, Some(NoUsableCandidate), Some(NoCandidateRemained));
    }
  }

  lemma FinishKeeps(s: State, phase: Phase, orphan: set<nat>)
    requires Core(s, orphan)
    requires phase.Succeeded? || phase.Exhausted? || phase.CancelledPhase?
    ensures Good(Finish(s, phase), orphan) && SameRun(s, Finish(s, phase))
  {
    DisarmAccounts(s.timers, orphan);
    FinishEffect(s, phase);
    FinishKeepsLedger(s, phase);
    var f := Finish(s, phase);
    SameWalk(s.walk, f.walk.attempts);
  }

  /** A candidate may be tried: nothing of the previous one is in the way, or its retries are not used up. */
  ghost predicate ReadyToTry(s: State, orphan: set<nat>) {
    && Core(s, orphan) && PhaseOk(s) && WindowOk(s) && Walking(s)
    && (LastIsOpen(s.walk) ==> Tries(s.walk) <= s.retries <= MAX_DISCONNECT_RETRIES)
  }

  lemma OneMoreSlot(w: Walk, attempt: Attempt)
    requires WalkOk(w) && w.queue != [] && w.index < |w.queue| && attempt.config == w.queue[w.index]
    requires Tries(w) <= MAX_DISCONNECT_RETRIES
    requires w.slots == [] ==> w.index == 0
    requires w.slots != [] ==> w.index <= Last(w.slots) + 1
    ensures var n := w.(attempts := w.attempts + [attempt], slots := w.slots + [w.index]);
            WalkOk(n) && Tries(n) == Tries(w) + 1 && Last(n.slots) == n.index
  {
    var n := w.(attempts := w.attempts + [attempt], slots := w.slots + [w.index]);
    assert multiset(n.slots) == multiset(w.slots) + multiset{w.index};
    assert SlotsOk(n) by {
      forall k | 0 < k < |n.slots|
        ensures n.slots[k - 1] <= n.slots[k] <= n.slots[k - 1] + 1
      {
        assert k < |w.slots| ==> w.slots[k - 1] <= w.slots[k] <= w.slots[k - 1] + 1;
      }
    }
  }

  lemma OneMoreAttempt(w: Walk, attempt: Attempt, now: nat, deadline: nat)
    requires LedgerOk(w, now, deadline) && (w.attempts != [] ==> !IsTerminal(Last(w.attempts).outcome))
    requires AttemptOk(attempt, now) && attempt.outcome.Pending?
    ensures LedgerOk(w.(attempts := w.attempts + [attempt], hasActive := true), now, attempt.startedAt + attempt.budget)
  {
    hide AttemptOk, IsTerminal;
    var all := w.attempts + [attempt];
    forall k | 0 <= k < |all|
      ensures AttemptOk(all[k], now)
    {
      assert k < |w.attempts| ==> all[k] == w.attempts[k];
    }
    forall k | 0 <= k < |all| - 1
      ensures !IsTerminal(all[k].outcome)
    {
      assert all[k] == w.attempts[k];
    }
    assert Last(all) == attempt;
  }

  lemma OneMoreCount(w: Walk, attempt: Attempt)
    requires CountOk(w) && (w.attempts != [] ==> !IsTerminal(Last(w.attempts).outcome))
    requires attempt.outcome.Pending? && attempt.finishedAt.None?
    ensures CountOk(w.(attempts := w.attempts + [attempt], hasActive := true))
  {
    var all := w.attempts + [attempt];
    assert all[..|all| - 1] == w.attempts && Last(all) == attempt;
    assert ClosedCount(all) == ClosedCount(w.attempts);
    hide ClosedCount;
  }

  /** The walk with a new record for the candidate under its index. */
  function Opened(w: Walk, attempt: Attempt): Walk {
    w.(current := Some(attempt.config), attempts := w.attempts + [attempt], hasActive := true, slots := w.slots + [w.index])
  }

  lemma StartAttemptEffect(s: State)
    requires s.walk.index < |s.walk.queue|
    ensures var n := StartAttempt(s);
            var budget := ComputeAttemptTimeout(Rtt(s.win.latencies, s.walk.queue[s.walk.index]));
            var attempt := OpenAttempt(s.walk.queue[s.walk.index], s.timers.now, budget);
            && n == s.(phase := Connecting, deadline := s.timers.now + budget, pendingFailure := None, walk := Opened(s.walk, attempt))
            && AttemptOk(attempt, s.timers.now)
  {
    hide Rtt;
  }

  lemma StartAttemptKeeps(s: State, orphan: set<nat>)
    requires ReadyToTry(s, orphan) && s.walk.index < |s.walk.queue|
    ensures var n := StartAttempt(s);
            && LedgerOk(n.walk, s.timers.now, n.deadline) && WalkOk(n.walk) && CountOk(n.walk) && Trying(n.walk)
            && Tries(n.walk) <= s.retries + 1
            && n.deadline == s.timers.now + Last(n.walk.attempts).budget
            && Last(n.walk.attempts).startedAt == s.timers.now
            && MIN_ATTEMPT_TIMEOUT_MS <= Last(n.walk.attempts).budget
  {
    StartAttemptEffect(s);
    ReadyWalk(s, orphan);
    var name := s.walk.queue[s.walk.index];
    var attempt := OpenAttempt(name, s.timers.now, ComputeAttemptTimeout(Rtt(s.win.latencies, name)));
    hide StartAttempt, ReadyToTry, ComputeAttemptTimeout, Rtt;
    OpenedKeeps(s.walk, attempt, s.timers.now, s.deadline);
    hide LedgerOk, WalkOk, CountOk, Trying, Tries;
  }

  /** What a walk needs before it gets a new record. */
  ghost predicate MayOpen(w: Walk, now: nat, deadline: nat) {
    && LedgerOk(w, now, deadline) && WalkOk(w) && CountOk(w)
    && w.index < |w.queue| && Tries(w) <= MAX_DISCONNECT_RETRIES
    && (w.attempts != [] ==> !IsTerminal(Last(w.attempts).outcome))
  }

  lemma ReadyWalk(s: State, orphan: set<nat>)
    requires ReadyToTry(s, orphan) && s.walk.index < |s.walk.queue|
    ensures MayOpen(s.walk, s.timers.now, s.deadline) && Tries(s.walk) <= s.retries
  {
    hide FailuresOk, ClosedCount, Accounted;
  }

  lemma OpenedKeeps(w: Walk, attempt: Attempt, now: nat, deadline: nat)
    requires MayOpen(w, now, deadline) && AttemptOk(attempt, now) && attempt.outcome.Pending? && attempt.finishedAt.None?
    requires attempt.config == w.queue[w.index]
    ensures var n := Opened(w, attempt);
            && LedgerOk(n, now, attempt.startedAt + attempt.budget) && WalkOk(n) && CountOk(n) && Trying(n)
            && Tries(n) == Tries(w) + 1 && Last(n.attempts) == attempt
  {
    hide FailuresOk, ClosedCount, AttemptOk, IsTerminal;
    OneMoreSlot(w, attempt);
    OneMoreAttempt(w, attempt, now, deadline);
    OneMoreCount(w, attempt);
    var m := w.(attempts := w.attempts + [attempt], slots := w.slots + [w.index]);
    SameWalkElsewhere(m, Some(attempt.config));
    assert Opened(w, attempt) == m.(current := Some(attempt.config), hasActive := true);
    hide SlotsOk;
  }

  lemma SameWalkElsewhere(w: Walk, current: Option<string>)
    requires WalkOk(w)
    ensures WalkOk(w.(current := current, hasActive := true))
    ensures Tries(w.(current := current, hasActive := true)) == Tries(w)
  {
  }

  /** The attempt as it stands when the backend is first asked. */
  function Armed(s: State): State
    requires s.walk.index < |s.walk.queue|
  {
    var n := StartAttempt(s);
    n.(expectDisconnect := false, timers := ArmTimeoutAndTick(n.timers, n.deadline, n.gen))
  }

  lemma ArmedKeeps(s: State, orphan: set<nat>)
    requires ReadyToTry(s, orphan) && s.walk.index < |s.walk.queue|
    ensures Good(Armed(s), orphan) && Tries(Armed(s).walk) <= s.retries + 1 && SameRun(s, Armed(s))
  {
    StartAttemptKeeps(s, orphan);
    var n := StartAttempt(s);
    ArmPairAccounts(n.timers, n.deadline, n.gen, orphan);
  }

  /** The clock stands still, so the label refresh inside an attempt cannot end it. */
  lemma TryEffect(s: State, a: TryAnswers)
    requires s.active && s.walk.index < |s.walk.queue|
    ensures TryCurrent(s, a) == if !a.manager then Finish(Armed(s), Exhausted)
                                else Handshake(Armed(s), s.walk.queue[s.walk.index], a)
  {
    var n := StartAttempt(s);
    assert n.timers.now < n.deadline;
    assert UpdateConnectButton(n, a.dialog, a.skip) == n;
  }

  lemma OwnDisconnectEffect(s: State, d: DisconnectAnswer)
    requires s.active && s.phase.Settling? && s.expectDisconnect
    ensures CallDisconnect(s, d) == s.(expectDisconnect := !d.DisconnectCallsBack?)
  {
  }

  lemma ConnectedKeeps(s: State, orphan: set<nat>)
    requires Good(s, orphan)
    ensures var n := Finish(s.(timers := Disarm(s.timers), expectDisconnect := false), Succeeded);
            Good(n, orphan) && SameRun(s, n)
  {
    var d := s.(timers := Disarm(s.timers), expectDisconnect := false);
    DisarmAccounts(s.timers, orphan);
    FinishKeeps(d, Succeeded, orphan);
    SameRunTransitive(s, d, Finish(d, Succeeded));
  }

  lemma FailureKeeps(s: State, e: Event, env: SkipAnswers, orphan: set<nat>)
    requires Good(s, orphan) && s.phase.Connecting? && Judge(e).Skip?
    ensures var reason := Judge(e).reason;
            var n := Advance(s, reason, ReasonCode(reason), EventMessage(e, reason), env);
            Good(n, orphan) && SameRun(s, n)
  {
    var reason := Judge(e).reason;
    AdvanceKeeps(s, reason, ReasonCode(reason), EventMessage(e, reason), env, orphan);
  }

  lemma EventKeeps(s: State, e: Event, env: SkipAnswers, orphan: set<nat>)
    requires Good(s, orphan)
    ensures Good(OnEvent(s, e, env), orphan) && SameRun(s, OnEvent(s, e, env))
  {
    hide Advance, Finish, Judge, LedgerOk, WalkOk, CountOk, Accounted, Paired;
    if s.active {
      if e.kind.ConnectedEvent? {
        ConnectedKeeps(s, orphan);
      } else if s.phase.Connecting? && Judge(e).Skip? {
        FailureKeeps(s, e, env, orphan);
      }
    }
  }

  /** What waiting for the backend to let go of a session leaves behind. */
  function Waiting(s: State, d: DisconnectAnswer): State {
    Settle(s.(retries := s.retries + 1, phase := Settling, expectDisconnect := !d.DisconnectCallsBack?))
  }

  lemma WaitingKeeps(s: State, d: DisconnectAnswer, orphan: set<nat>)
    requires Good(s, orphan) && s.phase.Connecting? && Tries(s.walk) <= s.retries + 1
    requires s.retries < MAX_DISCONNECT_RETRIES
    ensures Good(Waiting(s, d), orphan) && SameRun(s, Waiting(s, d))
  {
    ArmSettleAccounts(s.timers, s.gen, s.deadline, orphan);
  }

  function Retried(s: State, a: TryAnswers): State {
    var r := s.(retries := s.retries + 1);
    if s.retries >= MAX_DISCONNECT_RETRIES then
      Advance(r, Disconnected, ReasonCode(Disconnected), ReasonText(Disconnected), a.skip)
    else if a.disconnect.DisconnectRaises? then ConnectFault(r.(expectDisconnect := true, phase := Settling), a)
    else Waiting(s, a.disconnect)
  }

  lemma RetryEffect(s: State, name: string, a: TryAnswers)
    requires s.active && !a.watchRaises && a.status.StatusUp?
    ensures Handshake(s, name, a) == Retried(s, a)
  {
    OwnDisconnectEffect(s.(retries := s.retries + 1, expectDisconnect := true, phase := Settling), a.disconnect);
  }

  /** The open attempt can be given up, whichever of its phases it is in. */
  lemma GiveUpKeeps(s: State, r: State, reason: Outcome, code: ErrorCode, message: Message, env: SkipAnswers, orphan: set<nat>)
    requires Good(s, orphan) && s.phase.Connecting?
    requires r == s.(retries := r.retries, phase := r.phase, expectDisconnect := r.expectDisconnect)
    requires r.phase.Connecting? || r.phase.Settling?
    requires IsSkipReason(reason) && !reason.TimedOut?
    ensures var n := Advance(r, reason, code, message, env);
            Good(n, orphan) && SameRun(s, n)
  {
    AdvanceKeeps(r, reason, code, message, env, orphan);
    SameRunTransitive(s, r, Advance(r, reason, code, message, env));
  }

  /** The backend still reports a session: disconnect and try again, at most three times in a row. */
  lemma RetryKeeps(s: State, a: TryAnswers, orphan: set<nat>)
    requires Good(s, orphan) && s.phase.Connecting? && Tries(s.walk) <= s.retries + 1
    ensures Good(Retried(s, a), orphan) && SameRun(s, Retried(s, a))
  {
    hide Advance, Waiting, Good, Settle;
    var r := s.(retries := s.retries + 1);
    if s.retries >= MAX_DISCONNECT_RETRIES {
      GiveUpKeeps(s, r, Disconnected, ReasonCode(Disconnected), ReasonText(Disconnected), a.skip, orphan);
    } else if a.disconnect.DisconnectRaises? {
      var d := r.(expectDisconnect := true, phase := Settling);
      GiveUpKeeps(s, d, ConnectError, BackendFault, ErrorMessage(a.exceptionText), a.skip, orphan);
    } else {
      WaitingKeeps(s, a.disconnect, orphan);
    }
  }

  lemma HandshakeKeeps(s: State, name: string, a: TryAnswers, orphan: set<nat>)
    requires Good(s, orphan) && s.phase.Connecting? && Tries(s.walk) <= s.retries + 1
    ensures Good(Handshake(s, name, a), orphan) && SameRun(s, Handshake(s, name, a))
  {
    var c := s.(retries := 0);
    assert s.active;
    hide Good, Advance, OnEvent, Retried, SameRun;
    if a.watchRaises || a.status.StatusRaises? {
      GiveUpKeeps(s, s, ConnectError, BackendFault, ErrorMessage(a.exceptionText), a.skip, orphan);
    } else if a.status.StatusUp? {
      RetryEffect(s, name, a);
      RetryKeeps(s, a, orphan);
      hide Handshake;
    } else if !a.fileExists {
      GiveUpKeeps(s, c, MissingFile, ConfigMissing, FileMissing(name), a.skip, orphan);
    } else if a.connect.ConnectRaises? {
      GiveUpKeeps(s, c, ConnectError, BackendFault, ErrorMessage(a.exceptionText), a.skip, orphan);
    } else {
      RetriesReset(s, orphan);
      if a.connect.ConnectCallsBack? {
        EventKeeps(c, a.connect.event, a.connect.inner, orphan);
        SameRunTransitive(s, c, OnEvent(c, a.connect.event, a.connect.inner));
      }
    }
  }

  lemma RetriesReset(s: State, orphan: set<nat>)
    requires Good(s, orphan) && s.phase.Connecting?
    ensures Good(s.(retries := 0), orphan) && SameRun(s, s.(retries := 0))
  {
    hide LedgerOk, WalkOk, CountOk, Accounted, Paired;
  }

  lemma TryKeeps(s: State, a: TryAnswers, orphan: set<nat>)
    requires ReadyToTry(s, orphan)
    ensures Good(TryCurrent(s, a), orphan) && SameRun(s, TryCurrent(s, a))
  {
    if s.walk.index >= |s.walk.queue| {
      FinishKeeps(s, Exhausted, orphan);
      FinishEffect(s, Exhausted);
    } else {
      TryEffect(s, a);
      ArmedKeeps(s, orphan);
      FinishKeeps(Armed(s), Exhausted, orphan);
      FinishEffect(Armed(s), Exhausted);
      if a.manager {
        HandshakeKeeps(Armed(s), s.walk.queue[s.walk.index], a, orphan);
      }
    }
  }

  // ----- Dispatching a source -----

  /** The dispatcher takes, among the sources that are due, the one that was added first. */
  ghost predicate NextDue(t: Timers, id: nat) {
    && id in t.sources && t.sources[id].due <= t.now
    && forall other | other in t.sources && other < id :: t.now < t.sources[other].due
  }

  lemma OwnerOf(s: State, id: nat)
    requires Inv(s) && id in s.timers.sources
    ensures Walking(s) && s.timers.sources[id].gen == s.gen
    ensures s.timers.sources[id].kind.HandshakeTimer? ==> s.timers.timeoutId == Some(id)
    ensures s.timers.sources[id].kind.TickTimer? ==> s.timers.tickId == Some(id) && s.timers.timeoutId.Some?
    ensures s.timers.sources[id].kind.SettleTimer? ==> s.timers.settleId == Some(id)
  {
    assert id in HeldIds(s.timers);
  }

  /** A tick is dispatched only before the deadline: otherwise the timeout would have been first. */
  lemma TickBeforeDeadline(s: State, id: nat)
    requires Inv(s) && NextDue(s.timers, id) && s.timers.sources[id].kind.TickTimer?
    ensures s.timers.now < s.deadline
  {
    OwnerOf(s, id);
  }

  lemma DropOrphan(s: State, id: nat)
    requires Good(s, {id})
    ensures Inv(s.(timers := Rearm(s.timers, id, false)))
  {
    var t := Rearm(s.timers, id, false);
    assert t.sources.Keys == HeldIds(t);
  }

  lemma OpenMeansTrying(s: State)
    requires Inv(s) && s.timers.timeoutId.Some?
    ensures Walking(s) && Trying(s.walk)
  {
  }

  lemma TimeoutKeeps(s: State, id: nat, dialog: bool, env: SkipAnswers)
    requires Inv(s) && s.timers.timeoutId == Some(id) && s.timers.sources[id].due <= s.timers.now
    ensures Good(OnTimeout(s, s.gen, dialog, env), {id}) && SameRun(s, OnTimeout(s, s.gen, dialog, env))
  {
    OpenMeansTrying(s);
    var t := s.(timers := s.timers.(timeoutId := None));
    assert HeldIds(t.timers) + {id} == HeldIds(s.timers);
    assert Accounted(t.timers, {id});
    if dialog {
      var deadline := s.timers.now + DIALOG_GRACE_MS;
      ArmPairAccounts(t.timers, deadline, s.gen, {id});
    } else {
      var message := if s.pendingFailure.Some? && s.pendingFailure.value != "" then Said(s.pendingFailure.value)
                     else HandshakeExpired;
      AdvanceKeeps(t, TimedOut, ReasonCode(TimedOut), message, env, {id});
    }
  }

  lemma TickKeeps(s: State, id: nat, a: FireAnswers)
    requires Inv(s) && NextDue(s.timers, id) && s.timers.sources[id].kind.TickTimer?
    ensures Inv(Fire(s, id, a))
    ensures Fire(s, id, a) == s.(deadline := s.deadline + if a.dialog then PROGRESS_TICK_MS else 0,
                                 timers := Rearm(s.timers, id, true))
  {
    OwnerOf(s, id);
    TickBeforeDeadline(s, id);
    assert UpdateConnectButton(s, a.dialogAgain, a.skip) == s;
    var t := Rearm(s.timers, id, true);
    assert t.sources.Keys == s.timers.sources.Keys;
  }

  lemma SettleReady(s: State, id: nat)
    requires Inv(s) && s.timers.settleId == Some(id)
    ensures ReadyToTry(AfterSettle(s), {id})
  {
    OwnerOf(s, id);
    var f := AfterSettle(s);
    assert HeldIds(f.timers) + {id} == HeldIds(s.timers);
  }

  lemma FireTimeoutKeeps(s: State, id: nat, a: FireAnswers)
    requires Inv(s) && NextDue(s.timers, id) && s.timers.sources[id].kind.HandshakeTimer?
    ensures Inv(Fire(s, id, a)) && SameRun(s, Fire(s, id, a))
  {
    OwnerOf(s, id);
    TimeoutKeeps(s, id, a.dialog, a.skip);
    var f := OnTimeout(s, s.gen, a.dialog, a.skip);
    DropOrphan(f, id);
    assert Fire(s, id, a) == f.(timers := Rearm(f.timers, id, false));
  }

  function AfterSettle(s: State): State {
    s.(timers := s.timers.(settleId := None), settles := s.settles + 1)
  }

  lemma FireSettleUnfolds(s: State, id: nat, a: FireAnswers)
    requires id in s.timers.sources && s.timers.sources[id].kind.SettleTimer?
    ensures var f := OnSettle(s, s.timers.sources[id].gen, a.attempt);
            Fire(s, id, a) == f.(timers := Rearm(f.timers, id, false))
  {
    hide OnSettle, OnTick, OnTimeout, Rearm;
  }

  lemma FireSettleEffect(s: State, id: nat, a: FireAnswers)
    requires Inv(s) && id in s.timers.sources && s.timers.sources[id].kind.SettleTimer?
    ensures var f := TryCurrent(AfterSettle(s), a.attempt);
            Fire(s, id, a) == f.(timers := Rearm(f.timers, id, false))
  {
    OwnerOf(s, id);
    assert AfterSettle(s) == s.(timers := s.timers.(settleId := None), settles := s.settles + 1);
    hide *;
    FireSettleUnfolds(s, id, a);
    SettleUnfolds(s, s.gen, a.attempt);
  }

  lemma FireSettleKeeps(s: State, id: nat, a: FireAnswers)
    requires Inv(s) && NextDue(s.timers, id) && s.timers.sources[id].kind.SettleTimer?
    ensures Inv(Fire(s, id, a)) && SameRun(AfterSettle(s), Fire(s, id, a))
  {
    OwnerOf(s, id);
    SettleReady(s, id);
    TryKeeps(AfterSettle(s), a.attempt, {id});
    DropOrphan(TryCurrent(AfterSettle(s), a.attempt), id);
    FireSettleEffect(s, id, a);
  }

  lemma FireKeeps(s: State, id: nat, a: FireAnswers)
    requires Inv(s) && NextDue(s.timers, id)
    ensures Inv(Fire(s, id, a))
    ensures SameRun(if s.timers.sources[id].kind.SettleTimer? then AfterSettle(s) else s, Fire(s, id, a))
  {
    match s.timers.sources[id].kind {
      case HandshakeTimer => FireTimeoutKeeps(s, id, a);
      case TickTimer => TickKeeps(s, id, a);
      case SettleTimer => FireSettleKeeps(s, id, a);
    }
  }

  // ----- Starting, cancelling, and the speed test -----

  lemma BeginReady(s: State, queue: seq<string>)
    requires Accounted(s.timers, {}) && HeldIds(s.timers) == {} && !s.auto
    requires queue != [] && "" !in queue
    ensures ReadyToTry(BeginState(s, queue), {})
  {
  }

  lemma BeginKeeps(s: State, queue: seq<string>, b: BeginAnswers)
    requires Accounted(s.timers, {}) && HeldIds(s.timers) == {} && !s.auto
    requires queue != [] && "" !in queue
    ensures Inv(Begin(s, queue, b)) && SameRun(BeginState(s, queue), Begin(s, queue, b))
  {
    BeginReady(s, queue);
    var n := BeginState(s, queue);
    var d := n.(expectDisconnect := true, phase := Settling);
    if !b.connected {
      TryKeeps(n, b.attempt, {});
    } else if b.watchRaises || b.disconnect.DisconnectRaises? {
      assert ReadyToTry(d, {});
      TryKeeps(d, b.attempt, {});
    } else {
      OwnDisconnectEffect(d, b.disconnect);
      ArmSettleAccounts(d.timers, d.gen, d.deadline, {});
    }
  }

  /** Where a run may be started from: idle, or from PREPARING once its flag has been taken down. */
  ghost predicate MayStart(s: State) {
    || (Inv(s) && !s.active)
    || (Core(s, {}) && HeldIds(s.timers) == {} && s.phase.Preparing? && s.active && !s.auto && s.win.testButton)
  }

  lemma AlreadyConnectedKeeps(s: State, current: Option<string>)
    requires MayStart(s) && s.active
    ensures var n := Finish(s.(walk := s.walk.(current := current)), Succeeded);
            Inv(n) && n.gen == s.gen && n.phase.Succeeded?
  {
    var c := s.(walk := s.walk.(current := current));
    assert Core(c, {});
    FinishKeeps(c, Succeeded, {});
    FinishEffect(c, Succeeded);
    hide Finish;
  }

  lemma StartWithKeeps(s: State, queue: seq<string>, a: ListAnswers)
    requires MayStart(s) && "" !in queue
    ensures Inv(StartWith(s, queue, a)) && StartWith(s, queue, a).gen >= s.gen
    ensures !StartWith(s, queue, a).phase.Preparing?
  {
    if queue == [] {
      FinishKeeps(s, Exhausted, {});
      FinishEffect(s, Exhausted);
    } else if a.connected && a.selected == Some(queue[0]) {
      if s.active {
        AlreadyConnectedKeeps(s, a.selected);
      }
    } else {
      BeginKeeps(s, queue, a.begin);
    }
  }

  lemma StartFromListKeeps(s: State, names: seq<string>, a: ListAnswers)
    requires MayStart(s)
    ensures Inv(StartFromList(s, names, a)) && StartFromList(s, names, a).gen >= s.gen
    ensures !StartFromList(s, names, a).phase.Preparing?
  {
    QueueShape(NonEmpty(names), s.win.latencies, true, MAX_CASCADE_CANDIDATES);
    StartWithKeeps(s, BuildQueue(NonEmpty(names), s.win.latencies, true, MAX_CASCADE_CANDIDATES), a);
  }

  lemma StartKeeps(s: State, names: seq<string>, a: ListAnswers)
    requires Inv(s)
    ensures Inv(Start(s, names, a)) && Start(s, names, a).gen >= s.gen
  {
    if !s.active && NonEmpty(names) != [] && s.win.latencies != map[] {
      StartFromListKeeps(s, names, a);
    }
  }

  lemma CancelKeeps(s: State, env: SkipAnswers)
    requires Core(s, {})
    requires !Busy(s) ==> Inv(s)
    ensures Inv(Cancel(s, env)) && !Busy(Cancel(s, env)) && Cancel(s, env).gen >= s.gen
    ensures Busy(s) ==> Cancel(s, env).phase.CancelledPhase? && Cancel(s, env).win.testButton
  {
    hide Finish, LedgerOk, WalkOk, CountOk;
    if Busy(s) {
      var c := s.(auto := false, gen := s.gen + 1);
      FinishKeeps(c, CancelledPhase, {});
      FinishEffect(c, CancelledPhase);
    }
  }

  /** The end of a speed test, whatever it found, leaves PREPARING. */
  lemma SpeedTestDoneKeeps(s: State, results: Latencies, names: seq<string>, a: ListAnswers, env: SkipAnswers)
    requires Inv(s) && s.win.testRunning
    ensures var n := SpeedTestDone(s, results, names, a, env);
            Inv(n) && n.gen >= s.gen && !n.phase.Preparing?
  {
    var r := s.(win := s.win.(testRunning := false));
    if s.win.testCancelled && r.auto {
      CancelKeeps(r, env);
    } else {
      var c := if s.win.testCancelled then r else r.(win := r.win.(latencies := results));
      var b := c.(win := c.win.(testButton := true));
      if b.auto {
        StartFromListKeeps(b.(auto := false), names, a);
      }
    }
  }
}
