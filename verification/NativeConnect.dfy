/**
  One native connect and one native disconnect: what they do to the profile store, to the
  remembered uuid and to the stored setting, whenever the cancel flag rises and whichever
  call fails.
 */
module NativeConnect {
  import opened Prelude

  type Uuid = string

  /** `temp`: a private copy of the configuration, with its certificate, lies in the runtime directory. */
  datatype Store = Store(
    profiles: set<Uuid>,
    activated: set<Uuid>,
    uuid: Option<Uuid>,
    setting: Option<Uuid>,
    temp: bool)

  /** A native call that works, one that reports failure and does nothing, one that raises. */
  datatype CallAnswer = Works | Refuses | Raises

  /** The native import names the new profile; it returns nothing (or an empty name) when it fails. */
  datatype AddAnswer = AddRaises | AddReturns(uuid: Option<Uuid>)

  /** The flag is down at checks 0 to `rise` - 1 and up from check `rise` on; there are four checks. */
  datatype ConnectAnswers = ConnectAnswers(
    rise: nat,
    createFails: bool,
    copyFails: bool,
    add: AddAnswer,
    activate: CallAnswer,
    disconnect: CallAnswer,
    delete: CallAnswer,
    removeFails: bool)

  datatype Outcome = Completed | CancelledOperation | Failed

  const LAST_CHECK: nat := 3

  predicate FlagUp(a: ConnectAnswers, check: nat) {
    a.rise <= check
  }

  function Deactivate(s: Store, u: Uuid, answer: CallAnswer): Store {
    if answer.Works? then s.(activated := s.activated - {u}) else s
  }

  function Delete(s: Store, u: Uuid, answer: CallAnswer): Store {
    if answer.Works? then s.(profiles := s.profiles - {u}) else s
  }

  /** The flag was found up after activation. */
  function Withdraw(s: Store, u: Uuid, a: ConnectAnswers): (Store, Outcome) {
    var d := Deactivate(s, u, a.disconnect);
    if a.disconnect.Raises? then (d, Failed)
    else
      var e := Delete(d, u, a.delete);
      if a.delete.Raises? then (e, Failed) else (e.(uuid := None), CancelledOperation)
  }

  /** The uuid of a profile that was really added; "" when none was. */
  function Added(a: ConnectAnswers): Uuid {
    if a.add.AddReturns? then a.add.uuid.GetOr("") else ""
  }

  function ImportAndActivate(s: Store, a: ConnectAnswers): (Store, Outcome) {
    if FlagUp(a, 1) then (s, CancelledOperation)
    else if a.add.AddRaises? then (s, Failed)
    else
      var u := Added(a);
      var r := s.(uuid := a.add.uuid);
      if u == "" then (r, Failed)
      else
        var p := r.(profiles := s.profiles + {u});
        if FlagUp(a, 2) then (p, CancelledOperation)
        else if !a.activate.Works? then (p, Failed)
        else
          var v := p.(activated := p.activated + {u});
          if FlagUp(a, LAST_CHECK) then Withdraw(v, u, a) else (v.(setting := Some(u)), Completed)
  }

  /** The private copy is removed on the way out, also when writing it failed half-way. */
  function Connect(s: Store, a: ConnectAnswers): (Store, Outcome) {
    if FlagUp(a, 0) then (s, CancelledOperation)
    else if a.createFails then (s, Failed)
    else
      var (n, o) := if a.copyFails then (s, Failed) else ImportAndActivate(s.(temp := true), a);
      (n.(temp := a.removeFails), o)
  }

  /** The call that adds the profile is reached and returns: the remembered uuid is overwritten. */
  predicate Overwrites(a: ConnectAnswers) {
    !FlagUp(a, 1) && !a.createFails && !a.copyFails && a.add.AddReturns?
  }

  /** The call that activates is reached and works. */
  predicate Activates(a: ConnectAnswers) {
    Overwrites(a) && !FlagUp(a, 2) && Added(a) != "" && a.activate.Works?
  }

  /** A connect completes exactly when every call works and the flag is down at the last check. */
  lemma CompletesExactly(s: Store, a: ConnectAnswers)
    ensures Connect(s, a).1.Completed? <==> Activates(a) && !FlagUp(a, LAST_CHECK)
  {
  }

  // ----- Which outcome -----

  /** The points at which a connect can stop, in order: four looks at the flag and four calls. */
  datatype Point = FlagPoint(check: nat) | CreatePoint | CopyPoint | AddPoint | ActivatePoint

  const POINTS: seq<Point> := [FlagPoint(0), CreatePoint, CopyPoint, FlagPoint(1), AddPoint, FlagPoint(2), ActivatePoint, FlagPoint(3)]

  /** The answers put an obstacle at this point. */
  predicate Stops(a: ConnectAnswers, p: Point) {
    match p
    case FlagPoint(check) => a.rise <= check
    case CreatePoint => a.createFails
    case CopyPoint => a.copyFails
    case AddPoint => a.add.AddRaises? || a.add.uuid == None || a.add.uuid == Some("")
    case ActivatePoint => !a.activate.Works?
  }

  /** The first obstacle is at point `k`. */
  predicate FirstStop(a: ConnectAnswers, k: nat) {
    k < |POINTS| && Stops(a, POINTS[k]) && forall j | 0 <= j < k :: !Stops(a, POINTS[j])
  }

  /** Taking back a tunnel at the last look raises. */
  predicate TakingBackRaises(a: ConnectAnswers) {
    a.disconnect.Raises? || a.delete.Raises?
  }

  /**
    The outcome follows from the first obstacle: none, and the connect completes; a raised flag,
    and it is a cancelled operation, unless taking the tunnel back raises; a call, and it has failed.
   */
  lemma OutcomeExactly(s: Store, a: ConnectAnswers)
    ensures var o := Connect(s, a).1;
            && (o.Completed? <==> forall k | 0 <= k < |POINTS| :: !Stops(a, POINTS[k]))
            && (o.CancelledOperation? <==>
                  exists k: nat :: FirstStop(a, k) && POINTS[k].FlagPoint? && (k == 7 ==> !TakingBackRaises(a)))
            && (o.Failed? <==>
                  exists k: nat :: FirstStop(a, k) && (!POINTS[k].FlagPoint? || (k == 7 && TakingBackRaises(a))))
  {
    assert POINTS[0] == FlagPoint(0) && POINTS[1] == CreatePoint && POINTS[2] == CopyPoint && POINTS[3] == FlagPoint(1);
    assert POINTS[4] == AddPoint && POINTS[5] == FlagPoint(2) && POINTS[6] == ActivatePoint && POINTS[7] == FlagPoint(3);
    assert |POINTS| == 8;
    hide POINTS;
    StopsInOrder(a);
  }

  /** The first obstacle, if there is one, is one of the eight. */
  lemma StopsInOrder(a: ConnectAnswers)
    ensures (forall k | 0 <= k < |POINTS| :: !Stops(a, POINTS[k])) || exists k: nat :: FirstStop(a, k)
  {
    if k: nat :| k < |POINTS| && Stops(a, POINTS[k]) {
      var _ := FirstFrom(a, 0, k);
    }
  }

  lemma FirstFrom(a: ConnectAnswers, from: nat, k: nat) returns (first: nat)
    requires from <= k < |POINTS| && Stops(a, POINTS[k]) && forall j | 0 <= j < from :: !Stops(a, POINTS[j])
    ensures FirstStop(a, first)
    decreases k - from
  {
    hide POINTS, Stops;
    if Stops(a, POINTS[from]) {
      first := from;
    } else {
      first := FirstFrom(a, from + 1, k);
    }
  }

  /** `_operation_runner`: a failure is reported to the window unless a cancel is up; a cancelled operation is only logged. */
  predicate Reported(o: Outcome, cancelUp: bool) {
    o.Failed? && !cancelUp
  }

  /** A connect that nobody cancels is never silent: it completes, or its failure is reported. */
  lemma UncancelledIsNotSilent(s: Store, a: ConnectAnswers)
    requires a.rise > LAST_CHECK
    ensures var o := Connect(s, a).1;
            !o.CancelledOperation? && (o.Completed? <==> !Reported(o, false))
  {
  }

  /**
    The setting is written exactly by a connect that completes, and then it holds the uuid that
    was activated. (If it already held that uuid, writing it changes nothing.)
   */
  lemma SettingFollowsTunnel(s: Store, a: ConnectAnswers)
    ensures var (n, o) := Connect(s, a);
            && (o.Completed? ==> n.setting == n.uuid == Some(Added(a)) && Added(a) in n.activated)
            && (!o.Completed? ==> n.setting == s.setting)
  {
  }

  /**
    A connect that does not complete leaves a tunnel of its own exactly when the flag was up
    at the last check only and the native disconnect did not work. So a cancel seen at the
    last check, with a disconnect that works, leaves none.
   */
  lemma CancelLeavesNoTunnel(s: Store, a: ConnectAnswers)
    requires Added(a) !in s.activated
    ensures var (n, o) := Connect(s, a);
            !o.Completed? ==>
              (n.activated != s.activated <==> Activates(a) && FlagUp(a, LAST_CHECK) && !a.disconnect.Works?)
    ensures Connect(s, a).0.activated <= s.activated + if Activates(a) then {Added(a)} else {}
  {
    assert s.activated + {Added(a)} - {Added(a)} == s.activated;
    assert Added(a) in s.activated + {Added(a)};
  }

  /**
    A new profile is left in the store without a tunnel exactly when a cancel was seen between
    adding and activating it, when activation failed, or when the cleanup of a cancelled
    connect deactivated it but did not delete it.
   */
  lemma ProfileLeftBehind(s: Store, a: ConnectAnswers)
    requires Added(a) !in s.profiles && Added(a) !in s.activated
    ensures var (n, o) := Connect(s, a);
            (exists u :: u in n.profiles && u !in s.profiles && u !in n.activated) <==>
              (&& Overwrites(a) && Added(a) != ""
               && (FlagUp(a, 2) || !a.activate.Works? || (FlagUp(a, LAST_CHECK) && a.disconnect.Works? && !a.delete.Works?)))
  {
    var (n, o) := Connect(s, a);
    var u := Added(a);
    assert forall x :: x in n.profiles && x !in s.profiles ==> x == u;
    assert u in n.profiles && u !in n.activated ==> exists x :: x in n.profiles && x !in s.profiles && x !in n.activated;
  }

  /**
    A private copy outlives the operation exactly when one was created and cannot be removed,
    whether writing it failed, the import failed or everything worked.
   */
  lemma NoCopyLeft(s: Store, a: ConnectAnswers)
    requires !s.temp
    ensures Connect(s, a).0.temp <==> !FlagUp(a, 0) && !a.createFails && a.removeFails
  {
  }

  // ----- Disconnecting -----

  /** `_disconnect_blocking` of a backend that remembers a uuid. */
  function DisconnectOwn(s: Store, disconnect: CallAnswer, delete: CallAnswer): (Store, Outcome)
    requires s.uuid.Some?
  {
    var u := s.uuid.value;
    if u !in s.activated then (s, Completed)
    else
      var d := Deactivate(s, u, disconnect);
      if disconnect.Raises? then (d, Failed)
      else
        var e := Delete(d, u, delete);
        if delete.Raises? then (e, Failed) else (e.(uuid := None, setting := None), Completed)
  }

  /** One round of the loop without a remembered uuid: the tunnel that is named, and how its disconnect goes. */
  datatype Round = Round(wish: Uuid, answer: CallAnswer)

  /** What the calls of one disconnect answer: at most three rounds, or the two calls on the backend's own session. */
  datatype DisconnectAnswers = DisconnectAnswers(
    first: Round, second: Round, third: Round,
    disconnect: CallAnswer, delete: CallAnswer)

  /** The store names one of the active tunnels; any of them can be the one. */
  ghost function Named(activated: set<Uuid>, wish: Uuid): (u: Uuid)
    requires activated != {}
    ensures u in activated
    ensures wish in activated ==> u == wish
  {
    if wish in activated then wish else
      var u :| u in activated; u
  }

  ghost function DisconnectForeign(s: Store, rounds: seq<Round>): (Store, Outcome)
    decreases |rounds|
  {
    if rounds == [] || s.activated == {} then (s, Completed)
    else if rounds[0].answer.Raises? then (s, Failed)
    else DisconnectForeign(Deactivate(s, Named(s.activated, rounds[0].wish), rounds[0].answer), rounds[1..])
  }

  function Rounds(d: DisconnectAnswers): seq<Round> {
    [d.first, d.second, d.third]
  }

  /** The same answers; the store may name other tunnels. */
  predicate SameCalls(d: DisconnectAnswers, e: DisconnectAnswers) {
    && d.first.answer == e.first.answer && d.second.answer == e.second.answer && d.third.answer == e.third.answer
    && d.disconnect == e.disconnect && d.delete == e.delete
  }

  /** `_disconnect_blocking`. */
  ghost function Disconnect(s: Store, d: DisconnectAnswers): (Store, Outcome) {
    if s.uuid.None? then DisconnectForeign(s, Rounds(d)) else DisconnectOwn(s, d.disconnect, d.delete)
  }

  /** The rounds `done` lead from `s` to `n`, with the rest of the loop still to come. */
  ghost predicate ForeignAfter(s: Store, done: seq<Round>, n: Store) {
    forall rest :: DisconnectForeign(s, done + rest) == DisconnectForeign(n, rest)
  }

  lemma NoRoundYet(s: Store)
    ensures ForeignAfter(s, [], s)
  {
    forall rest: seq<Round>
      ensures DisconnectForeign(s, [] + rest) == DisconnectForeign(s, rest)
    {
      assert [] + rest == rest;
    }
  }

  /** The loop ends with the rest of the rounds unused, or with one that raises. */
  lemma LoopEnds(s: Store, done: seq<Round>, n: Store, rest: seq<Round>)
    requires ForeignAfter(s, done, n)
    ensures rest == [] || n.activated == {} ==> DisconnectForeign(s, done + rest) == (n, Completed)
    ensures rest != [] && n.activated != {} && rest[0].answer.Raises? ==> DisconnectForeign(s, done + rest) == (n, Failed)
  {
    assert DisconnectForeign(s, done + rest) == DisconnectForeign(n, rest);
  }

  /** The rounds that were not needed any more, or that a raise cut off. */
  function Unused(answers: seq<CallAnswer>, wish: Uuid): (rounds: seq<Round>)
    ensures |rounds| == |answers| && forall k | 0 <= k < |answers| :: rounds[k] == Round(wish, answers[k])
  {
    seq(|answers|, k requires 0 <= k < |answers| => Round(wish, answers[k]))
  }

  lemma OneMoreRound(s: Store, done: seq<Round>, n: Store, r: Round)
    requires ForeignAfter(s, done, n) && r.wish in n.activated && !r.answer.Raises?
    ensures ForeignAfter(s, done + [r], Deactivate(n, r.wish, r.answer))
  {
    forall rest
      ensures DisconnectForeign(s, done + [r] + rest) == DisconnectForeign(Deactivate(n, r.wish, r.answer), rest)
    {
      assert done + [r] + rest == done + ([r] + rest);
      assert ([r] + rest)[1..] == rest;
    }
  }

  /** The rounds whose disconnect works, up to one that raises. */
  function WorkingRounds(rounds: seq<Round>): nat {
    if rounds == [] || rounds[0].answer.Raises? then 0
    else WorkingRounds(rounds[1..]) + if rounds[0].answer.Works? then 1 else 0
  }

  /** Without a remembered uuid each round that works takes down one tunnel, and nothing else changes. */
  lemma {:induction false} ForeignTakesDown(s: Store, rounds: seq<Round>)
    ensures var n := DisconnectForeign(s, rounds).0;
            && n == s.(activated := n.activated) && n.activated <= s.activated
            && |n.activated| == Max(0, |s.activated| - WorkingRounds(rounds))
    decreases |rounds|
  {
    if rounds != [] && s.activated != {} && !rounds[0].answer.Raises? {
      var u := Named(s.activated, rounds[0].wish);
      ForeignTakesDown(Deactivate(s, u, rounds[0].answer), rounds[1..]);
    }
  }

  /** A round of the foreign loop is reached and raises. */
  predicate SomeRoundRaises(tunnels: nat, rounds: seq<Round>) {
    exists k: nat | k < |rounds| :: rounds[k].answer.Raises? && WorkingRounds(rounds[..k]) < tunnels
                                    && forall j | 0 <= j < k :: !rounds[j].answer.Raises?
  }

  lemma {:induction false} ForeignOutcome(s: Store, rounds: seq<Round>)
    ensures var o := DisconnectForeign(s, rounds).1;
            !o.CancelledOperation? && (o.Failed? <==> SomeRoundRaises(|s.activated|, rounds))
    decreases |rounds|
  {
    if rounds != [] {
      if s.activated == {} {
        assert |s.activated| == 0;
      } else if rounds[0].answer.Raises? {
        assert rounds[..0] == [] && WorkingRounds(rounds[..0]) == 0;
        assert |s.activated| > 0;
      } else {
        var u := Named(s.activated, rounds[0].wish);
        var n := Deactivate(s, u, rounds[0].answer);
        ForeignOutcome(n, rounds[1..]);
        LaterRounds(|s.activated|, |n.activated|, rounds);
      }
    }
  }

  lemma LaterRounds(before: nat, after: nat, rounds: seq<Round>)
    requires rounds != [] && !rounds[0].answer.Raises? && before > 0
    requires before == after + if rounds[0].answer.Works? then 1 else 0
    ensures SomeRoundRaises(before, rounds) <==> SomeRoundRaises(after, rounds[1..])
  {
    forall k: nat | 0 < k < |rounds|
      ensures WorkingRounds(rounds[..k]) == WorkingRounds(rounds[1..][..k - 1]) + if rounds[0].answer.Works? then 1 else 0
    {
      assert rounds[..k][1..] == rounds[1..][..k - 1];
    }
    if k: nat :| k < |rounds| && rounds[k].answer.Raises? && WorkingRounds(rounds[..k]) < before
                 && forall j | 0 <= j < k :: !rounds[j].answer.Raises? {
      assert rounds[1..][k - 1].answer.Raises?;
      assert SomeRoundRaises(after, rounds[1..]);
    }
    if k: nat :| k < |rounds[1..]| && rounds[1..][k].answer.Raises? && WorkingRounds(rounds[1..][..k]) < after
                 && forall j | 0 <= j < k :: !rounds[1..][j].answer.Raises? {
      assert rounds[k + 1].answer.Raises?;
      forall j | 0 <= j < k + 1
        ensures !rounds[j].answer.Raises?
      {
        assert j > 0 ==> rounds[j] == rounds[1..][j - 1];
      }
      assert SomeRoundRaises(before, rounds);
    }
  }

  /** A disconnect fails exactly when a call that is reached raises; it is never a cancelled operation. */
  lemma DisconnectOutcomeExactly(s: Store, d: DisconnectAnswers)
    ensures var o := Disconnect(s, d).1;
            && !o.CancelledOperation?
            && (o.Failed? <==>
                  if s.uuid.Some? then s.uuid.value in s.activated && (d.disconnect.Raises? || d.delete.Raises?)
                  else SomeRoundRaises(|s.activated|, Rounds(d)))
  {
    if s.uuid.None? {
      ForeignOutcome(s, Rounds(d));
    }
  }

  /** What a disconnect of an owned session does to each part of the store, whatever works. */
  lemma OwnSessionExactly(s: Store, d: DisconnectAnswers)
    requires s.uuid.Some?
    ensures var n := Disconnect(s, d).0;
            var u := s.uuid.value;
            var reached := u in s.activated;
            && n.temp == s.temp
            && n.activated == (if reached && d.disconnect.Works? then s.activated - {u} else s.activated)
            && n.profiles == (if reached && !d.disconnect.Raises? && d.delete.Works? then s.profiles - {u} else s.profiles)
            && (if reached && !d.disconnect.Raises? && !d.delete.Raises? then n.uuid == None && n.setting == None
                else n.uuid == s.uuid && n.setting == s.setting)
  {
  }

  /** A completed connect and a disconnect that works give back the store as it was, with no session recorded. */
  lemma ConnectThenDisconnect(s: Store, a: ConnectAnswers, d: DisconnectAnswers)
    requires Connect(s, a).1.Completed? && !s.temp && d.disconnect.Works? && d.delete.Works?
    requires Added(a) !in s.profiles && Added(a) !in s.activated
    ensures Disconnect(Connect(s, a).0, d) == (s.(uuid := None, setting := None, temp := a.removeFails), Completed)
  {
    assert s.profiles + {Added(a)} - {Added(a)} == s.profiles;
    assert s.activated + {Added(a)} - {Added(a)} == s.activated;
  }

  /** A profile left behind without a tunnel is not removed by the next disconnect, whatever it answers. */
  lemma LeftBehindStays(s: Store, a: ConnectAnswers, d: DisconnectAnswers)
    requires Overwrites(a) && FlagUp(a, 2) && Added(a) != "" && Added(a) !in s.activated
    ensures var c := Connect(s, a).0;
            c.uuid == Some(Added(a)) && Added(a) in c.profiles && Disconnect(c, d).0 == c
  {
  }

  // ----- Any number of operations -----

  /** No tunnel has the empty name. */
  predicate WellNamed(s: Store) {
    "" !in s.activated
  }

  /** The tunnels that one disconnect can take down are all there are. */
  predicate WithinReach(s: Store) {
    match s.uuid
    case Some(u) => s.activated <= {u}
    case None => |s.activated| <= 3
  }

  predicate AllWork(d: DisconnectAnswers) {
    d.first.answer.Works? && d.second.answer.Works? && d.third.answer.Works? && d.disconnect.Works? && d.delete.Works?
  }

  /** A disconnect whose calls work leaves no tunnel exactly when all of them were within reach. */
  lemma ReachIsExact(s: Store, d: DisconnectAnswers)
    requires AllWork(d)
    ensures Disconnect(s, d).0.activated == {} <==> WithinReach(s)
  {
    if s.uuid.None? {
      ForeignTakesDown(s, Rounds(d));
      assert WorkingRounds([d.third]) == 1;
      assert [d.second, d.third][1..] == [d.third];
      assert WorkingRounds([d.second, d.third]) == 2;
      assert Rounds(d)[1..] == [d.second, d.third];
    }
  }

  /** No disconnect, whatever fails, puts a tunnel out of reach. */
  lemma DisconnectKeepsReach(s: Store, d: DisconnectAnswers)
    requires WithinReach(s)
    ensures WithinReach(Disconnect(s, d).0) && Disconnect(s, d).0.activated <= s.activated
  {
    if s.uuid.None? {
      ForeignTakesDown(s, Rounds(d));
    } else {
      OneTunnel(s.activated, s.uuid.value);
    }
  }

  lemma OneTunnel(activated: set<Uuid>, u: Uuid)
    requires activated <= {u}
    ensures |activated| <= 1
  {
    if activated != {} {
      assert activated == {u};
    }
  }

  /** The last check withdrew the connect, and the backend remembers nothing any more. */
  predicate Forgets(a: ConnectAnswers) {
    Activates(a) && FlagUp(a, LAST_CHECK) && !a.disconnect.Raises? && !a.delete.Raises?
  }

  /** What it takes, besides the answers, for a connect not to put a tunnel out of reach. */
  predicate Spares(s: Store, a: ConnectAnswers) {
    || s.activated == {}
    || !Overwrites(a)
    || a.add.uuid.None?
    || (Forgets(a) && (a.disconnect.Works? || |s.activated| <= 2))
  }

  /**
    A connect puts a tunnel out of reach exactly when it overwrites the uuid of a live one with
    another: not when the import yields nothing, and not when the connect is withdrawn and
    forgotten, because the next disconnect then looks for any tunnel.
   */
  lemma ConnectKeepsReach(s: Store, a: ConnectAnswers)
    requires WithinReach(s) && WellNamed(s) && Added(a) !in s.activated
    ensures WithinReach(Connect(s, a).0) <==> Spares(s, a)
    ensures WellNamed(Connect(s, a).0)
  {
    var n := Connect(s, a).0;
    var u := Added(a);
    if s.uuid.Some? {
      OneTunnel(s.activated, s.uuid.value);
    }
    assert s.activated + {u} - {u} == s.activated;
    assert |s.activated + {u}| == |s.activated| + 1;
    if s.activated != {} {
      var t :| t in s.activated;
      assert t in n.activated && t != u;
    }
  }

  lemma {:induction false} LongerThanAll(names: set<Uuid>) returns (bound: nat)
    ensures forall u | u in names :: |u| <= bound
    decreases |names|
  {
    bound := 0;
    if names != {} {
      var u :| u in names;
      var b := LongerThanAll(names - {u});
      bound := Max(b, |u|);
    }
  }

  /** The check a caller can make: a connect is safe, whatever it answers, exactly when no tunnel is up. */
  lemma ConnectIsSafeExactly(s: Store)
    requires WithinReach(s) && WellNamed(s)
    ensures (forall a: ConnectAnswers | Added(a) !in s.activated :: WithinReach(Connect(s, a).0)) <==> s.activated == {}
  {
    forall a: ConnectAnswers | Added(a) !in s.activated
      ensures WithinReach(Connect(s, a).0) <==> Spares(s, a)
    {
      ConnectKeepsReach(s, a);
    }
    if s.activated != {} {
      var bound := LongerThanAll(s.activated);
      var u: Uuid := seq(bound + 1, _ => 'u');
      var a := ConnectAnswers(4, false, false, AddReturns(Some(u)), Refuses, Works, Works, false);
      assert Added(a) == u && u !in s.activated && !Spares(s, a);
    }
  }

  datatype Operation = ConnectOp(a: ConnectAnswers) | DisconnectOp(d: DisconnectAnswers)

  ghost function Apply(s: Store, op: Operation): Store {
    match op
    case ConnectOp(a) => Connect(s, a).0
    case DisconnectOp(d) => Disconnect(s, d).0
  }

  ghost function Operate(s: Store, ops: seq<Operation>): Store
    decreases |ops|
  {
    if ops == [] then s else Operate(Apply(s, ops[0]), ops[1..])
  }

  /** Every import gives its profile a name that no live tunnel has. */
  ghost predicate NewNames(s: Store, ops: seq<Operation>)
    decreases |ops|
  {
    ops != [] ==> (ops[0].ConnectOp? ==> Added(ops[0].a) !in s.activated) && NewNames(Apply(s, ops[0]), ops[1..])
  }

  ghost predicate AlwaysWithinReach(s: Store, ops: seq<Operation>)
    decreases |ops|
  {
    WithinReach(s) && (ops != [] ==> AlwaysWithinReach(Apply(s, ops[0]), ops[1..]))
  }

  ghost predicate EveryConnectSpares(s: Store, ops: seq<Operation>)
    decreases |ops|
  {
    ops != [] ==> (ops[0].ConnectOp? ==> Spares(s, ops[0].a)) && EveryConnectSpares(Apply(s, ops[0]), ops[1..])
  }

  lemma OperationKeepsReach(s: Store, op: Operation)
    requires WithinReach(s) && WellNamed(s) && (op.ConnectOp? ==> Added(op.a) !in s.activated)
    ensures WellNamed(Apply(s, op))
    ensures WithinReach(Apply(s, op)) <==> (op.ConnectOp? ==> Spares(s, op.a))
  {
    match op
    case ConnectOp(a) => ConnectKeepsReach(s, a);
    case DisconnectOp(d) => DisconnectKeepsReach(s, d);
  }

  /** Over any operations, failing and cancelled anywhere, all tunnels stay within reach exactly when every connect spares them. */
  lemma {:induction false} ReachOverRuns(s: Store, ops: seq<Operation>)
    requires WithinReach(s) && WellNamed(s) && NewNames(s, ops)
    ensures AlwaysWithinReach(s, ops) <==> EveryConnectSpares(s, ops)
    decreases |ops|
  {
    hide WithinReach, WellNamed, Apply, Spares;
    if ops != [] {
      OperationKeepsReach(s, ops[0]);
      if ops[0].ConnectOp? ==> Spares(s, ops[0].a) {
        ReachOverRuns(Apply(s, ops[0]), ops[1..]);
      }
    }
  }

  lemma {:induction false} ReachAtEnd(s: Store, ops: seq<Operation>)
    requires AlwaysWithinReach(s, ops)
    ensures WithinReach(Operate(s, ops))
    decreases |ops|
  {
    hide WithinReach, Apply;
    if ops != [] {
      ReachAtEnd(Apply(s, ops[0]), ops[1..]);
    }
  }

  /** After operations of which every connect spares the tunnels, one disconnect whose calls work leaves none. */
  lemma NoTunnelOutlives(s: Store, ops: seq<Operation>, d: DisconnectAnswers)
    requires WithinReach(s) && WellNamed(s) && NewNames(s, ops) && EveryConnectSpares(s, ops) && AllWork(d)
    ensures Disconnect(Operate(s, ops), d).0.activated == {}
  {
    ReachOverRuns(s, ops);
    ReachAtEnd(s, ops);
    ReachIsExact(Operate(s, ops), d);
  }
}
