/**
  The NetworkManager backend as an object: the shared fields of its worker protocol, changed
  by one method per atomic section, and the two blocking operations its worker runs.
 */
module NetworkManager {
  import opened Prelude
  import WorkerProtocol
  import opened NativeConnect

  class OperationWorker {
    var queue: seq<WorkerProtocol.Op>
    var workerThread: Option<WorkerProtocol.ThreadId>
    var threads: map<WorkerProtocol.ThreadId, WorkerProtocol.Thread>
    var cancelFlag: bool
    var suppressFlag: bool

    var nextOp: WorkerProtocol.Op
    var nextThread: WorkerProtocol.ThreadId
    ghost var ui: WorkerProtocol.UiPc
    ghost var started: seq<WorkerProtocol.Op>
    ghost var finished: set<WorkerProtocol.Op>
    ghost var dropped: set<WorkerProtocol.Op>
    ghost var stalled: bool

    constructor ()
      ensures View() == WorkerProtocol.Initial()
    {
      queue, workerThread, threads, nextThread := [], None, map[], 0;
      cancelFlag, suppressFlag := false, false;
      nextOp, ui, started, finished, dropped, stalled := 0, WorkerProtocol.UiIdle, [], {}, {}, false;
    }

    ghost function View(): WorkerProtocol.State
      reads this
    {
      WorkerProtocol.State(queue, nextOp, workerThread, threads, nextThread, cancelFlag, suppressFlag, ui,
                           started, finished, dropped, stalled)
    }

    /** Under the lock: queue the operation and make sure that a live worker will see it. */
    method DispatchOffUiThread(operation: WorkerProtocol.Op, starts: bool)
      requires operation == nextOp
      modifies this
      ensures View() == WorkerProtocol.Dispatch(old(View()), starts)
    {
      queue := queue + [operation];
      nextOp := nextOp + 1;
      if workerThread.Some? && workerThread.value in threads && !threads[workerThread.value].Dead? {
        return;
      }
      threads := threads[nextThread := if starts then WorkerProtocol.Ready else WorkerProtocol.Dead];
      workerThread := Some(nextThread);
      nextThread := nextThread + 1;
      stalled := !starts;
    }

    // `cancel_current_operation` in its three atomic parts.

    method RaiseCancel()
      modifies this
      ensures View() == WorkerProtocol.RaiseCancel(old(View()))
    {
      cancelFlag := true;
      ui := WorkerProtocol.CancelRaised;
    }

    method RaiseSuppress()
      modifies this
      ensures View() == WorkerProtocol.RaiseSuppress(old(View()))
    {
      suppressFlag := true;
      ui := WorkerProtocol.BothRaised;
    }

    method ClearQueue()
      modifies this
      ensures View() == WorkerProtocol.ClearQueue(old(View()))
    {
      dropped := dropped + WorkerProtocol.Elements(queue);
      queue := [];
      ui := WorkerProtocol.UiIdle;
    }

    method StartWatch()
      modifies this
      ensures View() == WorkerProtocol.StartWatch(old(View()))
    {
      suppressFlag := false;
    }

    /** The locked section at the head of the worker's loop; the worker leaves when it gets nothing. */
    method TakeNext(t: WorkerProtocol.ThreadId) returns (operation: Option<WorkerProtocol.Op>)
      modifies this
      ensures View() == WorkerProtocol.TakeNext(old(View()), t)
      ensures operation == if old(queue) == [] then None else Some(old(queue)[0])
    {
      if queue == [] {
        workerThread := None;
        threads := threads[t := WorkerProtocol.Leaving];
        return None;
      }
      operation := Some(queue[0]);
      queue := queue[1..];
      cancelFlag, suppressFlag := false, false;
      threads := threads[t := WorkerProtocol.Running(operation.value)];
      started := started + [operation.value];
    }

    method OperationEnds(t: WorkerProtocol.ThreadId, killed: bool)
      requires t in threads && threads[t].Running?
      modifies this
      ensures View() == WorkerProtocol.EndOperation(old(View()), t, killed)
    {
      finished := finished + {threads[t].op};
      threads := threads[t := if killed then WorkerProtocol.Dead else WorkerProtocol.Ready];
      stalled := killed;
    }

    method ThreadExits(t: WorkerProtocol.ThreadId)
      modifies this
      ensures View() == WorkerProtocol.Exit(old(View()), t)
    {
      threads := threads[t := WorkerProtocol.Dead];
    }

    /** One atomic step of the UI thread or of a worker. */
    method Perform(a: WorkerProtocol.Action)
      requires WorkerProtocol.Inv(View()) && WorkerProtocol.Enabled(View(), a)
      modifies this
      ensures WorkerProtocol.Inv(View()) && View() == WorkerProtocol.Step(old(View()), a)
    {
      WorkerProtocol.StepKeeps(View(), a);
      hide WorkerProtocol.Inv;
      match a
      case DispatchOp(starts) => DispatchOffUiThread(nextOp, starts);
      case CancelFlag => RaiseCancel();
      case CancelSuppress => RaiseSuppress();
      case CancelClear => ClearQueue();
      case Watch => StartWatch();
      case Take(t) => var _ := TakeNext(t);
      case End(t, killed) => OperationEnds(t, killed);
      case Leave(t) => ThreadExits(t);
    }

    /** Any interleaving of steps keeps the backend in the states of the protocol, so at most one operation runs. */
    method Interleave(run: seq<WorkerProtocol.Action>)
      requires WorkerProtocol.Reachable(View()) && WorkerProtocol.ValidRun(View(), run)
      modifies this
      ensures WorkerProtocol.Reachable(View()) && View() == WorkerProtocol.Exec(old(View()), run)
      ensures forall t, u | t in threads && u in threads && threads[t].Running? && threads[u].Running? :: t == u
    {
      WorkerProtocol.ReachableInv(View());
      hide WorkerProtocol.Inv, WorkerProtocol.Step, WorkerProtocol.Enabled;
      for k := 0 to |run|
        invariant WorkerProtocol.Inv(View()) && WorkerProtocol.Reachable(View())
        invariant WorkerProtocol.ValidRun(View(), run[k..])
        invariant WorkerProtocol.Exec(View(), run[k..]) == WorkerProtocol.Exec(old(View()), run)
      {
        assert run[k..][0] == run[k] && run[k..][1..] == run[k + 1..];
        WorkerProtocol.ReachableStep(View(), run[k]);
        Perform(run[k]);
      }
      forall t, u | t in threads && u in threads && threads[t].Running? && threads[u].Running?
        ensures t == u
      {
        WorkerProtocol.OneAtATime(View(), t, u);
      }
    }
  }

  /** The rounds have answered with these answers. */
  ghost predicate Answered(rounds: seq<Round>, answers: seq<CallAnswer>) {
    |rounds| == |answers| && forall k | 0 <= k < |answers| :: rounds[k].answer == answers[k]
  }

  lemma Padded(rounds: seq<Round>, answers: seq<CallAnswer>, wish: Uuid)
    requires |rounds| <= |answers| && Answered(rounds, answers[..|rounds|])
    ensures Answered(rounds + Unused(answers[|rounds|..], wish), answers)
  {
  }

  lemma OneMoreAnswer(rounds: seq<Round>, answers: seq<CallAnswer>, wish: Uuid)
    requires |rounds| < |answers| && Answered(rounds, answers[..|rounds|])
    ensures Answered(rounds + [Round(wish, answers[|rounds|])], answers[..|rounds| + 1])
  {
  }

  /** The part of the backend that talks to the profile store. */
  class NativeBackend {
    var profiles: set<Uuid>
    var activated: set<Uuid>
    var uuid: Option<Uuid>
    var activeSetting: Option<Uuid>
    var tempConfig: bool

    constructor (profiles: set<Uuid>, activated: set<Uuid>)
      ensures View() == Store(profiles, activated, None, None, false)
    {
      this.profiles, this.activated, uuid, activeSetting, tempConfig := profiles, activated, None, None, false;
    }

    ghost function View(): Store
      reads this
    {
      Store(profiles, activated, uuid, activeSetting, tempConfig)
    }

    method NativeDisconnect(u: Uuid, answer: CallAnswer)
      modifies this`activated
      ensures View() == Deactivate(old(View()), u, answer)
    {
      if answer.Works? {
        activated := activated - {u};
      }
    }

    method NativeDelete(u: Uuid, answer: CallAnswer)
      modifies this`profiles
      ensures View() == Delete(old(View()), u, answer)
    {
      if answer.Works? {
        profiles := profiles - {u};
      }
    }

    method ConnectBlocking(a: ConnectAnswers) returns (outcome: Outcome)
      modifies this
      ensures (View(), outcome) == Connect(old(View()), a)
    {
      if FlagUp(a, 0) {
        return CancelledOperation;
      }
      if a.createFails {
        return Failed;
      }
      tempConfig := true;
      assert View() == old(View()).(temp := true);
      if a.copyFails {
        tempConfig := a.removeFails;
        return Failed;
      }
      outcome := ImportProfile(a);
      tempConfig := a.removeFails;
    }

    /** The guarded part: whatever happens here, the private copy is removed afterwards. */
    method ImportProfile(a: ConnectAnswers) returns (outcome: Outcome)
      modifies this
      ensures (View(), outcome) == ImportAndActivate(old(View()), a)
    {
      if FlagUp(a, 1) {
        return CancelledOperation;
      }
      if a.add.AddRaises? {
        return Failed;
      }
      uuid := a.add.uuid;
      if uuid.None? || uuid.value == "" {
        return Failed;
      }
      var u := uuid.value;
      profiles := profiles + {u};
      if FlagUp(a, 2) {
        return CancelledOperation;
      }
      if !a.activate.Works? {
        return Failed;
      }
      activated := activated + {u};
      if FlagUp(a, LAST_CHECK) {
        outcome := WithdrawProfile(u, a);
        return;
      }
      activeSetting := Some(u);
      return Completed;
    }

    method WithdrawProfile(u: Uuid, a: ConnectAnswers) returns (outcome: Outcome)
      modifies this
      ensures (View(), outcome) == Withdraw(old(View()), u, a)
    {
      hide Deactivate, Delete;
      NativeDisconnect(u, a.disconnect);
      if a.disconnect.Raises? {
        return Failed;
      }
      NativeDelete(u, a.delete);
      if a.delete.Raises? {
        return Failed;
      }
      uuid := None;
      return CancelledOperation;
    }

    /** `d` are the answers, with the tunnels that the store named. */
    method DisconnectBlocking(answers: DisconnectAnswers) returns (outcome: Outcome, ghost d: DisconnectAnswers)
      modifies this
      ensures SameCalls(d, answers) && (View(), outcome) == Disconnect(old(View()), d)
    {
      d := answers;
      if uuid.None? {
        ghost var r;
        outcome, r := DisconnectForeign([answers.first.answer, answers.second.answer, answers.third.answer]);
        d := answers.(first := r[0], second := r[1], third := r[2]);
        assert Rounds(d) == r;
        return;
      }
      hide Deactivate, Delete;
      var u := uuid.value;
      if u !in activated {
        return Completed, answers;
      }
      NativeDisconnect(u, answers.disconnect);
      if answers.disconnect.Raises? {
        return Failed, answers;
      }
      NativeDelete(u, answers.delete);
      if answers.delete.Raises? {
        return Failed, answers;
      }
      uuid, activeSetting := None, None;
      return Completed, answers;
    }

    /** A backend that remembers no uuid disconnects whatever tunnel the store names, round after round. */
    method DisconnectForeign(answers: seq<CallAnswer>) returns (outcome: Outcome, ghost rounds: seq<Round>)
      modifies this`activated
      ensures Answered(rounds, answers)
      ensures (View(), outcome) == NativeConnect.DisconnectForeign(old(View()), rounds)
    {
      rounds := [];
      ghost var before := View();
      NoRoundYet(before);
      assert Answered(rounds, answers[..0]);
      hide ForeignAfter, NativeConnect.DisconnectForeign, Deactivate, Answered, Unused;
      for k := 0 to |answers|
        invariant |rounds| == k && Answered(rounds, answers[..k])
        invariant ForeignAfter(before, rounds, View())
      {
        if activated == {} {
          Padded(rounds, answers, "");
          LoopEnds(before, rounds, View(), Unused(answers[k..], ""));
          return Completed, rounds + Unused(answers[k..], "");
        }
        var found :| found in activated;
        if answers[k].Raises? {
          Padded(rounds, answers, found);
          LoopEnds(before, rounds, View(), Unused(answers[k..], found));
          return Failed, rounds + Unused(answers[k..], found);
        }
        OneMoreAnswer(rounds, answers, found);
        OneMoreRound(before, rounds, View(), Round(found, answers[k]));
        NativeDisconnect(found, answers[k]);
        rounds := rounds + [Round(found, answers[k])];
      }
      LoopEnds(before, rounds, View(), []);
      assert rounds + [] == rounds && answers[..|answers|] == answers;
      outcome := Completed;
    }
  }
}
