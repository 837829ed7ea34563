/**
  The worker that runs native operations: a queue, one worker slot and two event flags,
  shared by the UI thread and by worker threads.

  A step is one atomic action. Everything done under the state lock is one step; the three
  parts of a cancel (raise, raise, then lock and clear) are three, so worker steps may fall
  between them. The UI thread is sequential: it starts nothing new in the middle of a cancel.
 */
module WorkerProtocol {
  import opened Prelude

  /** Operations are numbered in the order in which they are dispatched. */
  type Op = nat

  type ThreadId = nat

  /**
    Ready: about to take the lock. Leaving: has decided to exit but is still alive.
    Dead: has exited, was killed by its operation, or never started.
   */
  datatype Thread = Ready | Running(op: Op) | Leaving | Dead

  datatype UiPc = UiIdle | CancelRaised | BothRaised

  /** `started`, `finished` and `dropped` are history. `stalled`: the slot's thread failed to start or was killed. */
  datatype State = State(
    queue: seq<Op>,
    nextOp: Op,
    slot: Option<ThreadId>,
    threads: map<ThreadId, Thread>,
    nextThread: ThreadId,
    cancel: bool,
    suppress: bool,
    ui: UiPc,
    started: seq<Op>,
    finished: set<Op>,
    dropped: set<Op>,
    stalled: bool)

  function Initial(): State {
    State([], 0, None, map[], 0, false, false, UiIdle, [], {}, {}, false)
  }

  predicate Alive(s: State, t: ThreadId) {
    t in s.threads && !s.threads[t].Dead?
  }

  // ----- Steps of the UI thread -----

  /** `starts` is false when the operating system refuses the new thread. */
  function Dispatch(s: State, starts: bool): State {
    var q := s.(queue := s.queue + [s.nextOp], nextOp := s.nextOp + 1);
    if q.slot.Some? && Alive(q, q.slot.value) then q
    else
      q.(threads := q.threads[q.nextThread := if starts then Ready else Dead],
         slot := Some(q.nextThread), nextThread := q.nextThread + 1, stalled := !starts)
  }

  function RaiseCancel(s: State): State {
    s.(cancel := true, ui := CancelRaised)
  }

  function RaiseSuppress(s: State): State {
    s.(suppress := true, ui := BothRaised)
  }

  function ClearQueue(s: State): State {
    s.(queue := [], dropped := s.dropped + Elements(s.queue), ui := UiIdle)
  }

  function StartWatch(s: State): State {
    s.(suppress := false)
  }

  // ----- Steps of a worker -----

  /** Under the lock: leave when there is nothing to do, otherwise pop and lower both flags. */
  function TakeNext(s: State, t: ThreadId): State {
    if s.queue == [] then s.(slot := None, threads := s.threads[t := Leaving])
    else
      s.(queue := s.queue[1..], threads := s.threads[t := Running(s.queue[0])], cancel := false, suppress := false,
         started := s.started + [s.queue[0]])
  }

  /** The operation returns or raises; `killed` when what it raises ends the thread. */
  function EndOperation(s: State, t: ThreadId, killed: bool): State
    requires t in s.threads && s.threads[t].Running?
  {
    s.(finished := s.finished + {s.threads[t].op}, threads := s.threads[t := if killed then Dead else Ready],
       stalled := killed)
  }

  function Exit(s: State, t: ThreadId): State {
    s.(threads := s.threads[t := Dead])
  }

  // ----- Runs -----

  datatype Action =
    | DispatchOp(starts: bool)
    | CancelFlag
    | CancelSuppress
    | CancelClear
    | Watch
    | Take(t: ThreadId)
    | End(t: ThreadId, killed: bool)
    | Leave(t: ThreadId)

  predicate Enabled(s: State, a: Action) {
    match a
    case DispatchOp(_) => s.ui.UiIdle?
    case CancelFlag => s.ui.UiIdle?
    case CancelSuppress => s.ui.CancelRaised?
    case CancelClear => s.ui.BothRaised?
    case Watch => s.ui.UiIdle?
    case Take(t) => t in s.threads && s.threads[t].Ready?
    case End(t, _) => t in s.threads && s.threads[t].Running?
    case Leave(t) => t in s.threads && s.threads[t].Leaving?
  }

  function Step(s: State, a: Action): State
    requires Enabled(s, a)
  {
    match a
    case DispatchOp(starts) => Dispatch(s, starts)
    case CancelFlag => RaiseCancel(s)
    case CancelSuppress => RaiseSuppress(s)
    case CancelClear => ClearQueue(s)
    case Watch => StartWatch(s)
    case Take(t) => TakeNext(s, t)
    case End(t, killed) => EndOperation(s, t, killed)
    case Leave(t) => Exit(s, t)
  }

  predicate ValidRun(s: State, run: seq<Action>)
    decreases |run|
  {
    run == [] || (Enabled(s, run[0]) && ValidRun(Step(s, run[0]), run[1..]))
  }

  function Exec(s: State, run: seq<Action>): State
    requires ValidRun(s, run)
    decreases |run|
  {
    if run == [] then s else Exec(Step(s, run[0]), run[1..])
  }

  ghost predicate Reachable(s: State) {
    exists run :: ValidRun(Initial(), run) && Exec(Initial(), run) == s
  }

  // ----- The invariant -----

  function Elements(q: seq<Op>): set<Op> {
    set x | x in q
  }

  predicate Ascending(q: seq<Op>) {
    forall i, j | 0 <= i < j < |q| :: q[i] < q[j]
  }

  predicate Undecided(s: State, t: ThreadId) {
    t in s.threads && (s.threads[t].Ready? || s.threads[t].Running?)
  }

  /** The operation that the slot's thread is running, as a set of at most one. */
  function Current(s: State): set<Op> {
    if s.slot.Some? && s.slot.value in s.threads && s.threads[s.slot.value].Running? then {s.threads[s.slot.value].op} else {}
  }

  /** An undecided thread is the one in the slot, and the slot never holds a leaving one. */
  ghost predicate SlotOk(s: State) {
    && (forall t | t in s.threads :: t < s.nextThread)
    && (forall t | t in s.threads :: Undecided(s, t) ==> s.slot == Some(t))
    && (s.slot.Some? ==> s.slot.value in s.threads && !s.threads[s.slot.value].Leaving?)
    && (s.stalled <==> s.slot.Some? && s.threads[s.slot.value].Dead?)
    && (s.queue != [] ==> s.slot.Some?)
  }

  ghost predicate OrderOk(s: State) {
    && Ascending(s.started + s.queue)
    && (forall i | 0 <= i < |s.started + s.queue| :: (s.started + s.queue)[i] < s.nextOp)
  }

  predicate Known(s: State, x: Op) {
    x in Elements(s.started) || x in Elements(s.queue) || x in s.dropped
  }

  ghost predicate PlacesDisjoint(s: State) {
    && Elements(s.started) == s.finished + Current(s)
    && s.finished !! Current(s)
    && Elements(s.started) !! Elements(s.queue)
    && s.dropped !! (Elements(s.started) + Elements(s.queue))
  }

  ghost predicate PlacesComplete(s: State) {
    forall x: Op :: Known(s, x) <==> x < s.nextOp
  }

  /** Every dispatched operation is in exactly one of the four places. */
  ghost predicate LedgerOk(s: State) {
    PlacesDisjoint(s) && PlacesComplete(s)
  }

  ghost predicate Inv(s: State) {
    SlotOk(s) && OrderOk(s) && LedgerOk(s)
  }

  lemma StepKeepsSlot(s: State, a: Action)
    requires SlotOk(s) && Enabled(s, a)
    ensures SlotOk(Step(s, a))
  {
  }

  lemma StepKeepsOrder(s: State, a: Action)
    requires OrderOk(s) && Enabled(s, a)
    ensures OrderOk(Step(s, a))
  {
    var n := Step(s, a);
    match a
    case Take(t) =>
      if s.queue != [] {
        assert n.started + n.queue == s.started + s.queue;
      }
    case DispatchOp(_) =>
      assert n.started + n.queue == (s.started + s.queue) + [s.nextOp];
    case CancelClear =>
      assert n.started + n.queue == (s.started + s.queue)[..|s.started|];
    case _ =>
  }

  lemma ElementsOfConcat(p: seq<Op>, q: seq<Op>)
    ensures Elements(p + q) == Elements(p) + Elements(q)
  {
  }

  lemma StepKeepsComplete(s: State, a: Action)
    requires PlacesComplete(s) && Enabled(s, a)
    ensures PlacesComplete(Step(s, a))
  {
    assert forall x: Op :: Known(Step(s, a), x) <==> Known(s, x) || (a.DispatchOp? && x == s.nextOp) by {
      if a.Take? && s.queue != [] {
        ElementsOfConcat(s.started, [s.queue[0]]);
        assert s.queue == [s.queue[0]] + s.queue[1..];
        ElementsOfConcat([s.queue[0]], s.queue[1..]);
      }
      ElementsOfConcat(s.queue, [s.nextOp]);
    }
    hide Step;
  }

  lemma StepKeepsDisjoint(s: State, a: Action)
    requires Inv(s) && Enabled(s, a)
    ensures PlacesDisjoint(Step(s, a))
  {
    assert !Known(s, s.nextOp);
    match a
    case Take(t) =>
      if s.queue != [] {
        ElementsOfConcat(s.started, [s.queue[0]]);
        assert s.queue == [s.queue[0]] + s.queue[1..];
        ElementsOfConcat([s.queue[0]], s.queue[1..]);
        AscendingSplits(s.started, s.queue);
      }
    case DispatchOp(_) =>
      ElementsOfConcat(s.queue, [s.nextOp]);
    case _ =>
  }

  /** The head of the queue is neither started nor queued twice. */
  lemma AscendingSplits(started: seq<Op>, queue: seq<Op>)
    requires Ascending(started + queue) && queue != []
    ensures queue[0] !in started && queue[0] !in queue[1..]
  {
    var all := started + queue;
    forall i | 0 <= i < |started|
      ensures started[i] < queue[0]
    {
      assert all[i] < all[|started|];
    }
    forall j | 1 <= j < |queue|
      ensures queue[0] < queue[j]
    {
      assert all[|started|] < all[|started| + j];
    }
  }

  lemma StepKeeps(s: State, a: Action)
    requires Inv(s) && Enabled(s, a)
    ensures Inv(Step(s, a))
  {
    StepKeepsSlot(s, a);
    StepKeepsOrder(s, a);
    StepKeepsComplete(s, a);
    StepKeepsDisjoint(s, a);
  }

  lemma {:induction false} RunKeeps(s: State, run: seq<Action>)
    requires Inv(s) && ValidRun(s, run)
    ensures Inv(Exec(s, run))
    decreases |run|
  {
    hide Inv, Step;
    if run != [] {
      StepKeeps(s, run[0]);
      RunKeeps(Step(s, run[0]), run[1..]);
    }
  }

  lemma ReachableInv(s: State)
    requires Reachable(s)
    ensures Inv(s)
  {
    assert Inv(Initial());
    var run :| ValidRun(Initial(), run) && Exec(Initial(), run) == s;
    hide Inv;
    RunKeeps(Initial(), run);
  }

  // ----- Safety -----

  /** At most one native operation runs, and it is the one that was started last. */
  lemma OneAtATime(s: State, t: ThreadId, u: ThreadId)
    requires Reachable(s)
    requires t in s.threads && s.threads[t].Running? && u in s.threads && s.threads[u].Running?
    ensures t == u
  {
    ReachableInv(s);
  }

  /** Operations start in dispatch order, each at most once, and before everything still queued. */
  lemma DispatchOrder(s: State, i: nat, j: nat)
    requires Reachable(s) && i < j < |s.started|
    ensures s.started[i] < s.started[j] < s.nextOp
    ensures forall x | x in s.queue :: s.started[j] < x < s.nextOp
  {
    ReachableInv(s);
    var all := s.started + s.queue;
    assert all[i] < all[j];
    forall k | 0 <= k < |s.queue|
      ensures s.started[j] < s.queue[k] < s.nextOp
    {
      assert all[j] < all[|s.started| + k];
    }
  }

  /** Every dispatched operation is in exactly one of finished, running, queued and dropped. */
  lemma Ledger(s: State, x: Op)
    requires Reachable(s)
    ensures x < s.nextOp <==> x in s.finished || x in Current(s) || x in s.queue || x in s.dropped
    ensures x in s.finished ==> x !in Current(s) && x !in s.queue && x !in s.dropped
    ensures x in Current(s) ==> x !in s.queue && x !in s.dropped
    ensures x in s.queue ==> x !in s.dropped
  {
    ReachableInv(s);
    assert Known(s, x) <==> x < s.nextOp;
    assert x in s.queue <==> x in Elements(s.queue);
    assert x in Elements(s.started) <==> x in s.finished || x in Current(s);
  }

  /** Only the locked part of a cancel drops operations, and it drops exactly the queued ones. */
  lemma OnlyCancelDrops(s: State, a: Action)
    requires Enabled(s, a)
    ensures Step(s, a).dropped == s.dropped + (if a.CancelClear? then Elements(s.queue) else {})
  {
  }

  /**
    No lost wakeup: work that is waiting has a live worker that has not decided to leave,
    exactly unless the slot's thread was refused by the system or killed by its operation.
   */
  lemma WorkHasWorker(s: State)
    requires Reachable(s) && s.queue != []
    ensures s.slot.Some?
    ensures Undecided(s, s.slot.value) <==> !s.stalled
  {
    ReachableInv(s);
  }

  /** A dispatch whose thread can be started repairs a stall. */
  lemma DispatchRepairs(s: State)
    requires Reachable(s) && s.ui.UiIdle?
    ensures var n := Dispatch(s, true);
            n.queue != [] && !n.stalled && n.slot.Some? && Undecided(n, n.slot.value)
  {
    ReachableInv(s);
    StepKeeps(s, DispatchOp(true));
  }

  // ----- Cancellation -----

  /** Along a run, what has started only grows, and operation numbers only grow. */
  lemma {:induction false} StartedGrows(s: State, run: seq<Action>)
    requires ValidRun(s, run)
    ensures s.started <= Exec(s, run).started && s.nextOp <= Exec(s, run).nextOp
    decreases |run|
  {
    if run != [] {
      StartedGrows(Step(s, run[0]), run[1..]);
    }
  }

  /** Whatever starts in a run was queued before it or dispatched during it. */
  lemma {:induction false} StartsComeFromQueue(s: State, run: seq<Action>, k: nat)
    requires ValidRun(s, run) && |s.started| <= k < |Exec(s, run).started|
    ensures var x := Exec(s, run).started[k];
            x in s.queue || x >= s.nextOp
    decreases |run|
  {
    if run != [] {
      var n := Step(s, run[0]);
      if k < |n.started| {
        StartedGrows(n, run[1..]);
      } else {
        StartsComeFromQueue(n, run[1..], k);
      }
    }
  }

  /** Once a cancel has cleared the queue, nothing dispatched before it starts any more. */
  lemma ClearedNeverStarts(s: State, run: seq<Action>, k: nat)
    requires Enabled(s, CancelClear) && ValidRun(ClearQueue(s), run)
    requires |s.started| <= k < |Exec(ClearQueue(s), run).started|
    ensures Exec(ClearQueue(s), run).started[k] >= s.nextOp
  {
    StartsComeFromQueue(ClearQueue(s), run, k);
  }

  predicate Raises(run: seq<Action>) {
    exists i | 0 <= i < |run| :: run[i].CancelFlag?
  }

  /**
    A raised flag is lowered by a pop and by nothing else: until it is raised again it is up
    exactly as long as no further operation has been popped.
   */
  lemma {:induction false} FlagUpUntilPop(s: State, run: seq<Action>)
    requires ValidRun(s, run) && s.cancel && !Raises(run)
    ensures Exec(s, run).cancel <==> Exec(s, run).started == s.started
    decreases |run|
  {
    if run != [] {
      var n := Step(s, run[0]);
      StartedGrows(n, run[1..]);
      assert forall i | 0 <= i < |run[1..]| :: run[1..][i] == run[i + 1];
      if n.cancel {
        FlagUpUntilPop(n, run[1..]);
      } else {
        FlagStaysDown(n, run[1..]);
      }
    }
  }

  lemma {:induction false} FlagStaysDown(s: State, run: seq<Action>)
    requires ValidRun(s, run) && !s.cancel && !Raises(run)
    ensures !Exec(s, run).cancel
    decreases |run|
  {
    if run != [] {
      assert forall i | 0 <= i < |run[1..]| :: run[1..][i] == run[i + 1];
      assert !run[0].CancelFlag?;
      FlagStaysDown(Step(s, run[0]), run[1..]);
    }
  }

  lemma {:induction false} FinishedGrows(s: State, run: seq<Action>)
    requires ValidRun(s, run)
    ensures s.finished <= Exec(s, run).finished
    decreases |run|
  {
    if run != [] {
      FinishedGrows(Step(s, run[0]), run[1..]);
    }
  }

  lemma ReachableStep(s: State, a: Action)
    requires Reachable(s) && Enabled(s, a)
    ensures Reachable(Step(s, a))
  {
    var run :| ValidRun(Initial(), run) && Exec(Initial(), run) == s;
    Appended(Initial(), run, a);
  }

  lemma {:induction false} Appended(s: State, run: seq<Action>, a: Action)
    requires ValidRun(s, run) && Enabled(Exec(s, run), a)
    ensures ValidRun(s, run + [a]) && Exec(s, run + [a]) == Step(Exec(s, run), a)
    decreases |run|
  {
    hide Step, Enabled;
    if run == [] {
      assert run + [a] == [a];
      assert Exec(Step(s, a), [a][1..]) == Step(s, a);
    } else {
      assert (run + [a])[1..] == run[1..] + [a];
      Appended(Step(s, run[0]), run[1..], a);
    }
  }

  /**
    The lost cancel: a worker that pops between the raising of the flags and the clearing of
    the queue runs an operation dispatched before the cancel, with the flag down.
   */
  lemma CancelCanMiss() returns (s: State, between: seq<Action>)
    ensures Reachable(s) && s.ui.UiIdle? && s.queue == [1] && Current(s) == {0}
    ensures ValidRun(RaiseSuppress(RaiseCancel(s)), between)
    ensures var e := ClearQueue(Exec(RaiseSuppress(RaiseCancel(s)), between));
            e.ui.UiIdle? && Current(e) == {1} && !e.cancel && Delivers(e)
  {
    var i := Initial();
    assert ValidRun(i, []) && Exec(i, []) == i;
    ReachableStep(i, DispatchOp(true));
    var s1 := Step(i, DispatchOp(true));
    ReachableStep(s1, Take(0));
    var s2 := Step(s1, Take(0));
    ReachableStep(s2, DispatchOp(true));
    s := Step(s2, DispatchOp(true));
    between := [End(0, false), Take(0)];
    var r := RaiseSuppress(RaiseCancel(s));
    var r1 := Step(r, End(0, false));
    var r2 := Step(r1, Take(0));
    assert between[1..] == [Take(0)] && [Take(0)][1..] == [];
    assert ValidRun(r1, [Take(0)]) && Exec(r1, [Take(0)]) == Exec(r2, []);
  }

  /** The flag that was raised while an operation runs stays up until that operation ends. */
  lemma {:induction false} RaisedWhileRunning(s: State, run: seq<Action>, x: Op)
    requires Inv(s) && ValidRun(s, run)
    requires s.cancel && x in Current(s) && x in Current(Exec(s, run))
    ensures Exec(s, run).cancel
    decreases |run|
  {
    if run != [] {
      var n := Step(s, run[0]);
      StepKeeps(s, run[0]);
      RunKeeps(n, run[1..]);
      FinishedGrows(n, run[1..]);
      assert x !in n.finished;
      RaisedWhileRunning(n, run[1..], x);
    }
  }

  predicate WorkerStep(a: Action) {
    a.Take? || a.End? || a.Leave?
  }

  predicate WorkerSteps(run: seq<Action>) {
    forall i | 0 <= i < |run| :: WorkerStep(run[i])
  }

  /** No worker can pop: there is nothing to pop, or no thread to do it. */
  predicate NothingToPop(s: State) {
    s.queue == [] || s.stalled
  }

  /** Where nothing can be popped, the workers touch neither flag, however long they go on. */
  lemma {:induction false} FlagsUntouched(s: State, run: seq<Action>)
    requires Inv(s) && NothingToPop(s) && ValidRun(s, run) && WorkerSteps(run)
    ensures var e := Exec(s, run);
            NothingToPop(e) && e.cancel == s.cancel && e.suppress == s.suppress && e.started == s.started && e.ui == s.ui
    decreases |run|
  {
    if run != [] {
      StepKeeps(s, run[0]);
      assert forall i | 0 <= i < |run[1..]| :: run[1..][i] == run[i + 1];
      assert WorkerStep(run[0]);
      FlagsUntouched(Step(s, run[0]), run[1..]);
    }
  }

  lemma {:induction false} UiWaits(s: State, run: seq<Action>)
    requires ValidRun(s, run) && WorkerSteps(run)
    ensures Exec(s, run).ui == s.ui
    decreases |run|
  {
    if run != [] {
      assert forall i | 0 <= i < |run[1..]| :: run[1..][i] == run[i + 1];
      assert WorkerStep(run[0]);
      UiWaits(Step(s, run[0]), run[1..]);
    }
  }

  /** The workers take the steps `before` after the first raise of a cancel, and `between` after the second. */
  ghost predicate DuringCancel(s: State, before: seq<Action>, between: seq<Action>) {
    && WorkerSteps(before) && ValidRun(RaiseCancel(s), before)
    && WorkerSteps(between) && ValidRun(RaiseSuppress(Exec(RaiseCancel(s), before)), between)
  }

  ghost function Cancelled(s: State, before: seq<Action>, between: seq<Action>): State
    requires DuringCancel(s, before, between)
  {
    ClearQueue(Exec(RaiseSuppress(Exec(RaiseCancel(s), before)), between))
  }

  lemma FlagsHold(s: State, before: seq<Action>, between: seq<Action>)
    requires Inv(s) && s.ui.UiIdle? && NothingToPop(s) && DuringCancel(s, before, between)
    ensures Cancelled(s, before, between).cancel && Cancelled(s, before, between).suppress
    ensures Current(Cancelled(s, before, between)) <= Current(s)
  {
    var r := RaiseCancel(s);
    var m := Exec(r, before);
    var p := RaiseSuppress(m);
    StepKeeps(s, CancelFlag);
    RunKeeps(r, before);
    FlagsUntouched(r, before);
    StepKeeps(m, CancelSuppress);
    FlagsUntouched(p, between);
    RunKeeps(p, between);
    FinishedGrows(r, before);
    FinishedGrows(p, between);
    var e := Cancelled(s, before, between);
    assert Current(e) == Elements(e.started) - e.finished;
    assert Current(s) == Elements(s.started) - s.finished;
  }

  /** What a worker does to slip through a cancel: it ends what it runs, if anything, and pops the next. */
  function SlipThrough(s: State): seq<Action>
    requires s.slot.Some? && s.slot.value in s.threads
  {
    var t := s.slot.value;
    if s.threads[t].Running? then [End(t, false), Take(t)] else [Take(t)]
  }

  lemma PopLowersFlags(s: State)
    requires Inv(s) && s.ui.UiIdle? && !NothingToPop(s)
    ensures s.slot.Some? && s.slot.value in s.threads && DuringCancel(s, [], SlipThrough(s))
    ensures var e := Cancelled(s, [], SlipThrough(s));
            !e.cancel && !e.suppress && Current(e) == {s.queue[0]}
  {
    var p := RaiseSuppress(RaiseCancel(s));
    var run := SlipThrough(s);
    assert Exec(RaiseCancel(s), []) == RaiseCancel(s);
    if |run| == 2 {
      var q := Step(p, run[0]);
      assert run[1..] == [run[1]] && run[1..][1..] == [];
      assert ValidRun(q, run[1..]) && Exec(q, run[1..]) == Exec(Step(q, run[1]), []);
    } else {
      assert run[1..] == [];
      assert Exec(p, run) == Exec(Step(p, run[0]), []);
    }
  }

  /**
    When a cancel can be relied on. Both flags are still up when it is over, whatever the
    workers did meanwhile, if and only if nothing was queued when it was called or the queue
    had no worker. Otherwise a worker can pop a queued operation during the cancel, and that
    operation then runs with both flags down.
   */
  lemma CancelHoldsExactly(s: State)
    requires Reachable(s) && s.ui.UiIdle?
    ensures (forall before, between | DuringCancel(s, before, between) :: Cancelled(s, before, between).cancel)
            <==> s.queue == [] || s.stalled
    ensures (forall before, between | DuringCancel(s, before, between) :: Cancelled(s, before, between).suppress)
            <==> s.queue == [] || s.stalled
  {
    ReachableInv(s);
    if NothingToPop(s) {
      forall before, between | DuringCancel(s, before, between)
        ensures Cancelled(s, before, between).cancel && Cancelled(s, before, between).suppress
      {
        FlagsHold(s, before, between);
      }
    } else {
      PopLowersFlags(s);
    }
    hide Inv;
  }

  /** An operation that had started and runs at the end of a run was running all along. */
  lemma RunningAllAlong(s: State, run: seq<Action>, x: Op)
    requires Inv(s) && ValidRun(s, run) && x in s.started && x in Current(Exec(s, run))
    ensures x in Current(s)
  {
    RunKeeps(s, run);
    FinishedGrows(s, run);
    assert Current(s) == Elements(s.started) - s.finished;
  }

  /**
    The operation that was running when the cancel was called is always reached: after the
    first raise and any steps of the workers, after the second and any more of them, and after
    the cancel and any run whatever, its flag is up if it is still running.
   */
  lemma RunningIsReached(s: State, before: seq<Action>, between: seq<Action>, after: seq<Action>, x: Op)
    requires Reachable(s) && s.ui.UiIdle? && x in Current(s)
    requires DuringCancel(s, before, between) && ValidRun(Cancelled(s, before, between), after)
    ensures var m := Exec(RaiseCancel(s), before);
            x in Current(m) ==> m.cancel
    ensures var f := Exec(RaiseSuppress(Exec(RaiseCancel(s), before)), between);
            x in Current(f) ==> f.cancel
    ensures var e := Exec(Cancelled(s, before, between), after);
            x in Current(e) ==> e.cancel
  {
    ReachableInv(s);
    var r := RaiseCancel(s);
    var m := Exec(r, before);
    var p := RaiseSuppress(m);
    var f := Exec(p, between);
    var c := ClearQueue(f);
    StepKeeps(s, CancelFlag);
    RunKeeps(r, before);
    UiWaits(r, before);
    StepKeeps(m, CancelSuppress);
    RunKeeps(p, between);
    UiWaits(p, between);
    StepKeeps(f, CancelClear);
    StartedGrows(r, before);
    StartedGrows(p, between);
    assert x in s.started;
    assert x in m.started && x in f.started;
    hide Inv, Exec, ValidRun;
    ReachedAtEnd(r, before, x);
    if x in Current(m) {
      ReachedAtEnd(p, between, x);
    } else {
      NotRunningAgain(p, between, x);
    }
    if x in Current(f) {
      ReachedAtEnd(c, after, x);
    } else {
      NotRunningAgain(c, after, x);
    }
  }

  lemma ReachedAtEnd(s: State, run: seq<Action>, x: Op)
    requires Inv(s) && ValidRun(s, run) && s.cancel && x in Current(s)
    ensures x in Current(Exec(s, run)) ==> Exec(s, run).cancel
  {
    hide Inv, Exec, Current;
    if x in Current(Exec(s, run)) {
      RaisedWhileRunning(s, run, x);
    }
  }

  lemma NotRunningAgain(s: State, run: seq<Action>, x: Op)
    requires Inv(s) && ValidRun(s, run) && x in s.started && x !in Current(s)
    ensures x !in Current(Exec(s, run))
  {
    hide Inv, Exec, Current;
    if x in Current(Exec(s, run)) {
      RunningAllAlong(s, run, x);
    }
  }

  // ----- Late callbacks -----

  /** `_guarded_callback`: a native signal reaches the window unless callbacks are suppressed. */
  predicate Delivers(s: State) {
    !s.suppress
  }

  /** Signals get through after a watch or a pop, not after the second raise of a cancel, and otherwise as before. */
  lemma DeliveryExactly(s: State, a: Action)
    requires Enabled(s, a)
    ensures Delivers(Step(s, a)) <==> a.Watch? || (a.Take? && s.queue != []) || (Delivers(s) && !a.CancelSuppress?)
  {
  }

  /** The cancel flag is up after the first raise of a cancel, down after a pop, and otherwise as before. */
  lemma FlagExactly(s: State, a: Action)
    requires Enabled(s, a)
    ensures Step(s, a).cancel <==> a.CancelFlag? || (s.cancel && !(a.Take? && s.queue != []))
  {
  }

  predicate Rewatches(run: seq<Action>) {
    exists i | 0 <= i < |run| :: run[i].Watch?
  }

  /** After a cancel, late signals are dropped until the next watch or the next pop. */
  lemma {:induction false} LateSignalsDropped(s: State, run: seq<Action>)
    requires ValidRun(s, run) && !Delivers(s) && !Rewatches(run) && Exec(s, run).started == s.started
    ensures !Delivers(Exec(s, run))
    decreases |run|
  {
    if run != [] {
      assert forall i | 0 <= i < |run[1..]| :: run[1..][i] == run[i + 1];
      StartedGrows(Step(s, run[0]), run[1..]);
      assert !run[0].Watch?;
      LateSignalsDropped(Step(s, run[0]), run[1..]);
    }
  }

  // ----- Progress -----

  predicate WorkerAction(a: Action) {
    a.Take? || a.Leave? || (a.End? && !a.killed)
  }

  /** Steps left for the thread in the slot, leaving aside the queue. */
  function ThreadWork(s: State): nat {
    if s.slot.None? || s.slot.value !in s.threads then 0
    else match s.threads[s.slot.value]
      case Ready => 1
      case Running(_) => 2
      case _ => 0
  }

  /** Two steps for every queued operation, and what the slot's thread has left. */
  function Work(s: State): nat {
    2 * |s.queue| + ThreadWork(s)
  }

  /**
    The queue drains: every step of a worker other than the exit of a thread that has already
    left uses up work, and as long as there is work in a state that is not stalled, the thread
    in the slot has a step to take. Left alone, the workers stop with nothing queued or running.
   */
  lemma WorkersDrain(s: State, a: Action)
    requires Reachable(s) && Enabled(s, a) && WorkerAction(a)
    ensures Work(Step(s, a)) == if a.Leave? then Work(s) else Work(s) - 1
    ensures !Step(s, a).stalled || s.stalled
  {
    ReachableInv(s);
  }

  lemma WorkIsNeverStuck(s: State)
    requires Reachable(s) && !s.stalled && Work(s) > 0
    ensures s.slot.Some? && (Enabled(s, Take(s.slot.value)) || Enabled(s, End(s.slot.value, false)))
  {
    ReachableInv(s);
  }

  lemma DrainedIsIdle(s: State)
    requires Reachable(s)
    ensures Work(s) == 0 && !s.stalled ==> s.queue == [] && s.slot.None? && forall t | t in s.threads :: !Undecided(s, t)
    ensures Work(s) == 0 ==> forall x: Op :: x < s.nextOp <==> x in s.finished || x in s.dropped
  {
    ReachableInv(s);
    if Work(s) == 0 {
      forall x: Op
        ensures x < s.nextOp <==> x in s.finished || x in s.dropped
      {
        assert Known(s, x) <==> x < s.nextOp;
      }
    }
  }
}
