/**
  The worker protocol and the native connect together: the running connect reads the very flag
  that the user thread raises and the worker lowers, at its four checks, in any interleaving.
  What does a cancel do to a connect that is running, and to one that is still queued?
 */
module CancelledConnect {
  import opened Prelude
  import W = WorkerProtocol
  import opened NativeConnect

  const ALL_CHECKS: nat := LAST_CHECK + 1

  /** `down`: checks of the running connect that read the flag down; `up`: the last one read it up, and no more are made. */
  datatype System = System(w: W.State, connects: set<W.Op>, down: nat, up: bool, store: Store)

  datatype Action =
    | Queue(starts: bool, isConnect: bool)
    | Ui(a: W.Action)
    | Pop(t: W.ThreadId)
    | Look
    | FinishConnect(t: W.ThreadId, killed: bool, answers: ConnectAnswers)
    | FinishDisconnect(t: W.ThreadId, killed: bool, d: DisconnectAnswers)
    | Exit(t: W.ThreadId)

  /** The checks that a connect with these answers makes before it ends. */
  function ChecksMade(a: ConnectAnswers): nat {
    if FlagUp(a, 0) || a.createFails || a.copyFails then 1
    else if FlagUp(a, 1) || Added(a) == "" then 2
    else if FlagUp(a, 2) || !a.activate.Works? then 3
    else 4
  }

  /** A connect that read the flag down `down` times, and then up or not, ended with answers `a`. */
  predicate Consistent(a: ConnectAnswers, down: nat, up: bool) {
    && down <= a.rise && (up ==> a.rise == down)
    && ChecksMade(a) == down + (if up then 1 else 0)
  }

  predicate RunsConnect(c: System) {
    exists x | x in W.Current(c.w) :: x in c.connects
  }

  /** What the step is to the worker protocol; a check is nothing to it. */
  function Part(a: Action): Option<W.Action> {
    match a
    case Queue(starts, _) => Some(W.DispatchOp(starts))
    case Ui(u) => Some(u)
    case Pop(t) => Some(W.Take(t))
    case Look => None
    case FinishConnect(t, killed, _) => Some(W.End(t, killed))
    case FinishDisconnect(t, killed, _) => Some(W.End(t, killed))
    case Exit(t) => Some(W.Leave(t))
  }

  predicate OfUser(a: W.Action) {
    a.CancelFlag? || a.CancelSuppress? || a.CancelClear? || a.Watch?
  }

  predicate Enabled(c: System, a: Action) {
    && (Part(a).Some? ==> W.Enabled(c.w, Part(a).value))
    && match a
       case Ui(u) => OfUser(u)
       case Look => RunsConnect(c) && !c.up && c.down < ALL_CHECKS
       case FinishConnect(t, _, answers) => c.w.threads[t].op in c.connects && Consistent(answers, c.down, c.up)
       case FinishDisconnect(t, _, _) => c.w.threads[t].op !in c.connects
       case _ => true
  }

  ghost function Step(c: System, a: Action): System
    requires Enabled(c, a)
  {
    var n := if Part(a).Some? then c.(w := W.Step(c.w, Part(a).value)) else c;
    match a
    case Queue(_, isConnect) => n.(connects := if isConnect then c.connects + {c.w.nextOp} else c.connects)
    case Pop(_) => n.(down := 0, up := false)
    case Look => if c.w.cancel then c.(up := true) else c.(down := c.down + 1)
    case FinishConnect(_, _, answers) => n.(store := Connect(c.store, answers).0)
    case FinishDisconnect(_, _, d) => n.(store := Disconnect(c.store, d).0)
    case _ => n
  }

  ghost predicate ValidRun(c: System, run: seq<Action>)
    decreases |run|
  {
    run == [] || (Enabled(c, run[0]) && ValidRun(Step(c, run[0]), run[1..]))
  }

  ghost function Exec(c: System, run: seq<Action>): System
    requires ValidRun(c, run)
    decreases |run|
  {
    if run == [] then c else Exec(Step(c, run[0]), run[1..])
  }

  ghost function Initial(store: Store): System {
    System(W.Initial(), {}, 0, false, store)
  }

  ghost predicate Reachable(c: System) {
    exists store, run :: ValidRun(Initial(store), run) && Exec(Initial(store), run) == c
  }

  ghost predicate Inv(c: System) {
    W.Inv(c.w) && c.down <= ALL_CHECKS && (c.up ==> c.down < ALL_CHECKS)
  }

  lemma StepKeeps(c: System, a: Action)
    requires Inv(c) && Enabled(c, a)
    ensures Inv(Step(c, a))
  {
    if Part(a).Some? {
      W.StepKeeps(c.w, Part(a).value);
    }
    hide W.Inv, W.Step, W.Enabled;
  }

  lemma {:induction false} RunKeeps(c: System, run: seq<Action>)
    requires Inv(c) && ValidRun(c, run)
    ensures Inv(Exec(c, run))
    decreases |run|
  {
    hide Inv, Step, Enabled;
    if run != [] {
      StepKeeps(c, run[0]);
      RunKeeps(Step(c, run[0]), run[1..]);
    }
  }

  lemma ReachableInv(c: System)
    requires Reachable(c)
    ensures Inv(c)
  {
    var store, run :| ValidRun(Initial(store), run) && Exec(Initial(store), run) == c;
    assert W.Inv(W.Initial());
    RunKeeps(Initial(store), run);
  }

  // ----- A connect that is running -----

  lemma FinishedStays(c: System, a: Action)
    requires Enabled(c, a)
    ensures c.w.finished <= Step(c, a).w.finished
  {
  }

  lemma {:induction false} FinishedGrows(c: System, run: seq<Action>)
    requires ValidRun(c, run)
    ensures c.w.finished <= Exec(c, run).w.finished
    decreases |run|
  {
    hide Step, Enabled;
    if run != [] {
      FinishedStays(c, run[0]);
      FinishedGrows(Step(c, run[0]), run[1..]);
    }
  }

  /** One step while the same connect goes on, with the flag up: it stays up, and no check reads it down any more. */
  lemma FrozenStep(c: System, a: Action, x: W.Op)
    requires Inv(c) && Enabled(c, a) && c.w.cancel && x in W.Current(c.w)
    ensures var n := Step(c, a);
            x in W.Current(n.w) || x in n.w.finished
    ensures var n := Step(c, a);
            x in W.Current(n.w) ==> n.w.cancel && n.down == c.down && c.connects <= n.connects
  {
  }

  lemma {:induction false} FrozenChecks(c: System, run: seq<Action>, x: W.Op)
    requires Inv(c) && ValidRun(c, run) && c.w.cancel && x in W.Current(c.w) && x in W.Current(Exec(c, run).w)
    ensures Exec(c, run).w.cancel && Exec(c, run).down == c.down
    decreases |run|
  {
    if run != [] {
      var n := Step(c, run[0]);
      FrozenStep(c, run[0], x);
      StepKeeps(c, run[0]);
      RunKeeps(n, run[1..]);
      FinishedGrows(n, run[1..]);
      assert x !in Exec(n, run[1..]).w.finished;
      hide Step, Enabled, Inv;
      FrozenChecks(n, run[1..], x);
    }
  }

  lemma ChecksDecide(store: Store, a: ConnectAnswers, down: nat, up: bool)
    requires Consistent(a, down, up) && down <= ALL_CHECKS && (up ==> down < ALL_CHECKS)
    ensures Connect(store, a).1.Completed? <==> down == ALL_CHECKS
    ensures down == ALL_CHECKS ==> Added(a) in Connect(store, a).0.activated
    ensures down < ALL_CHECKS && a.disconnect.Works? && Added(a) !in store.activated ==> Connect(store, a).0.activated == store.activated
  {
    CompletesExactly(store, a);
    if Added(a) !in store.activated {
      CancelLeavesNoTunnel(store, a);
    }
  }

  /**
    A connect that is running when a cancel is called, whatever happens between the call and its
    end: it completes if and only if it had made all four checks before the call. If not, and
    the native disconnect works, it ends without a tunnel of its own.
   */
  lemma RunningConnectIsCancelled(c: System, x: W.Op, run: seq<Action>, t: W.ThreadId, killed: bool, a: ConnectAnswers)
    requires Reachable(c) && c.w.ui.UiIdle? && x in W.Current(c.w)
    requires ValidRun(Step(c, Ui(W.CancelFlag)), run)
    requires var e := Exec(Step(c, Ui(W.CancelFlag)), run);
             x in W.Current(e.w) && Enabled(e, FinishConnect(t, killed, a))
    ensures var store := Exec(Step(c, Ui(W.CancelFlag)), run).store;
            && (Connect(store, a).1.Completed? <==> c.down == ALL_CHECKS)
            && (c.down < ALL_CHECKS && a.disconnect.Works? && Added(a) !in store.activated
                ==> Connect(store, a).0.activated == store.activated)
  {
    ReachableInv(c);
    var s := Step(c, Ui(W.CancelFlag));
    StepKeeps(c, Ui(W.CancelFlag));
    FrozenChecks(s, run, x);
    RunKeeps(s, run);
    var e := Exec(s, run);
    hide Exec, ValidRun, W.Inv;
    ChecksDecide(e.store, a, e.down, e.up);
  }

  // ----- A connect that is queued -----

  /** A step of a worker: the user thread does nothing meanwhile. */
  predicate OfWorker(a: Action) {
    !a.Queue? && !a.Ui?
  }

  ghost predicate WorkRun(c: System, run: seq<Action>) {
    ValidRun(c, run) && forall i | 0 <= i < |run| :: OfWorker(run[i])
  }

  lemma {:induction false} ExecConcat(c: System, p: seq<Action>, q: seq<Action>)
    requires WorkRun(c, p) && WorkRun(Exec(c, p), q)
    ensures WorkRun(c, p + q) && Exec(c, p + q) == Exec(Exec(c, p), q)
    decreases |p|
  {
    hide Step, Enabled;
    if p == [] {
      assert p + q == q;
    } else {
      assert (p + q)[1..] == p[1..] + q;
      assert forall k | 0 <= k < |p[1..]| :: p[1..][k] == p[k + 1];
      ExecConcat(Step(c, p[0]), p[1..], q);
    }
  }

  lemma OneStep(c: System, a: Action)
    requires Enabled(c, a) && OfWorker(a)
    ensures WorkRun(c, [a]) && Exec(c, [a]) == Step(c, a)
  {
    assert [a][1..] == [];
    assert Exec(Step(c, a), []) == Step(c, a);
  }

  /** The same but for the worker, the checks and the store. */
  ghost predicate SameUser(c: System, n: System) {
    && n.w.ui == c.w.ui && n.w.slot == c.w.slot && n.connects == c.connects && n.w.nextOp == c.w.nextOp
  }

  /** The slot's thread is there to work, with what it runs, if anything. */
  ghost predicate AtWork(c: System) {
    c.w.slot.Some? && c.w.slot.value in c.w.threads && (c.w.threads[c.w.slot.value].Ready? || c.w.threads[c.w.slot.value].Running?)
  }

  /** Answers with which a connect can end after its checks so far. */
  function Ending(down: nat, up: bool): ConnectAnswers {
    ConnectAnswers(down, down == 1, false, if down == 2 then AddRaises else AddReturns(Some("u")),
                   if down == 3 then Refuses else Works, Works, Works, false)
  }

  lemma EndingIsConsistent(down: nat, up: bool)
    requires down <= ALL_CHECKS && (up ==> down < ALL_CHECKS) && (!up ==> down > 0)
    ensures up ==> Consistent(ConnectAnswers(down, false, false, AddReturns(Some("u")), Works, Works, Works, false), down, true)
    ensures !up ==> Consistent(Ending(down, up).(rise := ALL_CHECKS), down, false)
  {
  }

  /** Whatever the slot's thread runs can come to its end, with the queue as it is. */
  lemma RunToEnd(c: System) returns (run: seq<Action>)
    requires Inv(c) && AtWork(c) && c.w.threads[c.w.slot.value].Running?
    ensures WorkRun(c, run) && Inv(Exec(c, run)) && SameUser(c, Exec(c, run))
    ensures var n := Exec(c, run);
            && AtWork(n) && n.w.threads[n.w.slot.value].Ready?
            && n.w.queue == c.w.queue && !n.w.stalled
  {
    var t := c.w.slot.value;
    var x := c.w.threads[t].op;
    assert x in W.Current(c.w);
    if x !in c.connects {
      var d := DisconnectAnswers(Round("", Works), Round("", Works), Round("", Works), Works, Works);
      var end := FinishDisconnect(t, false, d);
      OneStep(c, end);
      StepKeeps(c, end);
      return [end];
    }
    if !c.up && c.down == 0 {
      OneStep(c, Look);
      StepKeeps(c, Look);
      var n := Step(c, Look);
      var rest := EndConnecting(n, t);
      ExecConcat(c, [Look], rest);
      return [Look] + rest;
    }
    run := EndConnecting(c, t);
  }

  lemma EndConnecting(c: System, t: W.ThreadId) returns (run: seq<Action>)
    requires Inv(c) && AtWork(c) && c.w.slot == Some(t) && c.w.threads[t].Running? && c.w.threads[t].op in c.connects
    requires c.up || c.down > 0
    ensures WorkRun(c, run) && Inv(Exec(c, run)) && SameUser(c, Exec(c, run))
    ensures var n := Exec(c, run);
            && AtWork(n) && n.w.threads[t].Ready?
            && n.w.queue == c.w.queue && !n.w.stalled
  {
    EndingIsConsistent(c.down, c.up);
    var a := if c.up then ConnectAnswers(c.down, false, false, AddReturns(Some("u")), Works, Works, Works, false)
             else Ending(c.down, c.up).(rise := ALL_CHECKS);
    var end := FinishConnect(t, false, a);
    hide Consistent, Connect, Ending;
    OneStep(c, end);
    StepKeeps(c, end);
    run := [end];
  }

  /** The slot's thread can get to any queued operation, and then runs it with the flag down and no check made. */
  lemma {:induction false} PopUpTo(c: System, x: W.Op) returns (run: seq<Action>)
    requires Inv(c) && AtWork(c) && x in c.w.queue
    ensures WorkRun(c, run) && Inv(Exec(c, run)) && SameUser(c, Exec(c, run))
    ensures var n := Exec(c, run);
            && AtWork(n) && n.w.threads[n.w.slot.value] == W.Running(x)
            && !n.w.cancel && n.down == 0 && !n.up
    decreases |c.w.queue|
  {
    var t := c.w.slot.value;
    var first := [];
    if c.w.threads[t].Running? {
      first := RunToEnd(c);
    } else {
      assert WorkRun(c, []) && Exec(c, []) == c;
    }
    var r := Exec(c, first);
    var n := Step(r, Pop(t));
    OneStep(r, Pop(t));
    StepKeeps(r, Pop(t));
    ExecConcat(c, first, [Pop(t)]);
    run := first + [Pop(t)];
    Popped(r, t);
    if r.w.queue[0] != x {
      var rest := PopUpTo(n, x);
      ExecConcat(c, run, rest);
      run := run + rest;
    }
  }

  lemma Popped(r: System, t: W.ThreadId)
    requires Inv(r) && AtWork(r) && r.w.slot == Some(t) && r.w.threads[t].Ready? && r.w.queue != []
    ensures var n := Step(r, Pop(t));
            && AtWork(n) && SameUser(r, n) && n.w.threads[t] == W.Running(r.w.queue[0])
            && n.w.queue == r.w.queue[1..] && !n.w.cancel && n.down == 0 && !n.up
  {
  }

  /** With the flag down the running connect makes all its checks. */
  lemma {:induction false} LookOn(c: System) returns (run: seq<Action>)
    requires Inv(c) && RunsConnect(c) && !c.w.cancel && !c.up
    ensures WorkRun(c, run) && Exec(c, run) == c.(down := ALL_CHECKS)
    decreases ALL_CHECKS - c.down
  {
    if c.down == ALL_CHECKS {
      run := [];
      assert Exec(c, []) == c;
    } else {
      OneStep(c, Look);
      StepKeeps(c, Look);
      var n := Step(c, Look);
      var rest := LookOn(n);
      ExecConcat(c, [Look], rest);
      run := [Look] + rest;
    }
  }

  /** The system once the whole cancel is over, the workers having done `before` and `between` meanwhile. */
  ghost predicate DuringCancel(c: System, before: seq<Action>, between: seq<Action>) {
    && Enabled(c, Ui(W.CancelFlag)) && WorkRun(Step(c, Ui(W.CancelFlag)), before)
    && Enabled(Exec(Step(c, Ui(W.CancelFlag)), before), Ui(W.CancelSuppress))
    && WorkRun(Step(Exec(Step(c, Ui(W.CancelFlag)), before), Ui(W.CancelSuppress)), between)
    && Enabled(Exec(Step(Exec(Step(c, Ui(W.CancelFlag)), before), Ui(W.CancelSuppress)), between), Ui(W.CancelClear))
  }

  ghost function Cancelled(c: System, before: seq<Action>, between: seq<Action>): System
    requires DuringCancel(c, before, between)
  {
    var p := Step(Exec(Step(c, Ui(W.CancelFlag)), before), Ui(W.CancelSuppress));
    Step(Exec(p, between), Ui(W.CancelClear))
  }

  /** The operation has made all four checks, so it can only complete, with its tunnel up. */
  ghost predicate Through(c: System, x: W.Op) {
    x in W.Current(c.w) && x in c.connects && c.down == ALL_CHECKS && !c.up
  }

  /** In some interleaving the connect `x` slips through a cancel that is called now. */
  ghost predicate CanSlip(c: System, x: W.Op) {
    exists before, between, after ::
      DuringCancel(c, before, between) && ValidRun(Cancelled(c, before, between), after)
      && Through(Exec(Cancelled(c, before, between), after), x)
  }

  /** From there on it can only complete, its tunnel is up when it has, and it can complete. */
  lemma ThroughCompletes(c: System, x: W.Op)
    requires Inv(c) && Through(c, x)
    ensures forall t, killed, a | Enabled(c, FinishConnect(t, killed, a)) ::
              Connect(c.store, a).1.Completed? && Added(a) in Step(c, FinishConnect(t, killed, a)).store.activated
    ensures exists t, a :: Enabled(c, FinishConnect(t, false, a))
  {
    forall t, killed, a | Enabled(c, FinishConnect(t, killed, a))
      ensures Connect(c.store, a).1.Completed? && Added(a) in Step(c, FinishConnect(t, killed, a)).store.activated
    {
      ChecksDecide(c.store, a, c.down, c.up);
    }
    EndingIsConsistent(ALL_CHECKS, false);
    assert Enabled(c, FinishConnect(c.w.slot.value, false, Ending(ALL_CHECKS, false).(rise := ALL_CHECKS)));
  }

  lemma SlipsThrough(c: System, x: W.Op)
    requires Inv(c) && c.w.ui.UiIdle? && x in c.w.queue && x in c.connects && !c.w.stalled
    ensures CanSlip(c, x)
  {
    assert AtWork(c);
    var r := Step(c, Ui(W.CancelFlag));
    StepKeeps(c, Ui(W.CancelFlag));
    assert WorkRun(r, []) && Exec(r, []) == r;
    var p := Step(r, Ui(W.CancelSuppress));
    StepKeeps(r, Ui(W.CancelSuppress));
    var between := PopUpTo(p, x);
    var d := Exec(p, between);
    assert d.w.ui.BothRaised?;
    var e := Step(d, Ui(W.CancelClear));
    StepKeeps(d, Ui(W.CancelClear));
    assert x in W.Current(e.w);
    var after := LookOn(e);
    assert DuringCancel(c, [], between) && Cancelled(c, [], between) == e;
    hide Step, Enabled, Inv, DuringCancel, Cancelled;
    assert Through(Exec(e, after), x);
  }

  /** `x` was dispatched, and is neither waiting nor has it been started. */
  predicate Gone(c: System, x: W.Op) {
    x !in c.w.started && x !in c.w.queue && x < c.w.nextOp
  }

  lemma GoneStep(c: System, a: Action, x: W.Op)
    requires Gone(c, x) && Enabled(c, a)
    ensures Gone(Step(c, a), x)
  {
  }

  lemma {:induction false} GoneForGood(c: System, run: seq<Action>, x: W.Op)
    requires Gone(c, x) && ValidRun(c, run)
    ensures Gone(Exec(c, run), x)
    decreases |run|
  {
    hide Step, Enabled, Gone;
    if run != [] {
      GoneStep(c, run[0], x);
      GoneForGood(Step(c, run[0]), run[1..], x);
    }
  }

  /** Without a worker the queue waits. */
  predicate Waiting(c: System, x: W.Op) {
    c.w.stalled && x !in c.w.started && x < c.w.nextOp
  }

  lemma WaitingStep(c: System, a: Action, x: W.Op)
    requires Inv(c) && Enabled(c, a) && Waiting(c, x) && !a.Queue?
    ensures Waiting(Step(c, a), x)
  {
  }

  lemma {:induction false} WaitingOn(c: System, run: seq<Action>, x: W.Op)
    requires Inv(c) && WorkRun(c, run) && Waiting(c, x)
    ensures Inv(Exec(c, run)) && Waiting(Exec(c, run), x)
    decreases |run|
  {
    if run != [] {
      assert OfWorker(run[0]);
      assert forall k | 0 <= k < |run[1..]| :: run[1..][k] == run[k + 1];
      StepKeeps(c, run[0]);
      WaitingStep(c, run[0], x);
      hide Step, Enabled, Inv, Waiting;
      WaitingOn(Step(c, run[0]), run[1..], x);
    }
  }

  lemma NeverRuns(c: System, x: W.Op, before: seq<Action>, between: seq<Action>, after: seq<Action>)
    requires Inv(c) && x < c.w.nextOp && x !in W.Current(c.w) && (x !in c.w.queue || c.w.stalled)
    requires DuringCancel(c, before, between) && ValidRun(Cancelled(c, before, between), after)
    ensures x !in W.Current(Exec(Cancelled(c, before, between), after).w)
  {
    var r := Step(c, Ui(W.CancelFlag));
    var m := Exec(r, before);
    var p := Step(m, Ui(W.CancelSuppress));
    var d := Exec(p, between);
    var e := Step(d, Ui(W.CancelClear));
    StepKeeps(c, Ui(W.CancelFlag));
    RunKeeps(r, before);
    StepKeeps(m, Ui(W.CancelSuppress));
    RunKeeps(p, between);
    StepKeeps(d, Ui(W.CancelClear));
    RunKeeps(e, after);
    if x in c.w.finished {
      FinishedGrows(r, before);
      FinishedGrows(p, between);
      FinishedGrows(e, after);
    } else if c.w.stalled {
      assert Waiting(r, x);
      WaitingOn(r, before, x);
      WaitingOn(p, between, x);
      assert Gone(e, x);
      GoneForGood(e, after, x);
    } else {
      assert Gone(r, x);
      GoneForGood(r, before, x);
      GoneForGood(p, between, x);
      GoneForGood(e, after, x);
    }
    hide Step, Enabled, Exec, ValidRun;
    assert x !in Exec(e, after).w.started || x in Exec(e, after).w.finished;
  }

  /**
    Which connects dispatched before a cancel, other than the one that is running, can still
    complete with a tunnel: exactly those that are queued when it is called, and only if the
    queue has a worker.
   */
  lemma SlipsExactly(c: System, x: W.Op)
    requires Reachable(c) && c.w.ui.UiIdle? && x in c.connects && x < c.w.nextOp && x !in W.Current(c.w)
    ensures CanSlip(c, x) <==> x in c.w.queue && !c.w.stalled
  {
    ReachableInv(c);
    if x in c.w.queue && !c.w.stalled {
      SlipsThrough(c, x);
    } else {
      forall before, between, after
        | DuringCancel(c, before, between) && ValidRun(Cancelled(c, before, between), after)
        ensures !Through(Exec(Cancelled(c, before, between), after), x)
      {
        NeverRuns(c, x, before, between, after);
      }
    }
    hide Inv, Exec, DuringCancel, Cancelled;
  }
}
