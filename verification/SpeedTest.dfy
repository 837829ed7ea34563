/**
  Measuring the servers: the best answer over the endpoints of one configuration, the batch
  whose answers arrive in any order, the snapshot they are stored in, and what the candidate
  queue of the auto-connect then holds.
 */
module SpeedTest {
  import opened Prelude
  import opened CandidateQueue
  import opened DisplayOrder
  import opened ServerFilter
  import opened OvpnParser

  const MAX_ENDPOINTS_PER_CONFIG: nat := 16

  /** An endpoint that is worth a socket. */
  predicate Testable(e: Endpoint) {
    e.host != "" && 1 <= e.port <= 65535
  }

  function Tested(remotes: seq<Endpoint>): nat {
    Min(MAX_ENDPOINTS_PER_CONFIG, |remotes|)
  }

  /** Endpoint `i` was asked and answered. */
  predicate Answers(remotes: seq<Endpoint>, pings: seq<Option<int>>, i: nat)
    requires |pings| == |remotes|
  {
    i < 16 && i < |remotes| && remotes[i].host != "" && 1 <= remotes[i].port <= 65_535 && pings[i].Some?
  }

  /**
    `pings[i]` is what endpoint `i` would answer; the cancel flag is up from endpoint `cancelAt`
    on. Not cancelled, the result is the least answer of the first sixteen endpoints that are
    valid, and None exactly when none of them answers.
   */
  method TestSingleOvpn(remotes: seq<Endpoint>, pings: seq<Option<int>>, cancelAt: nat) returns (best: Option<int>)
    requires |pings| == |remotes|
    ensures cancelAt < Tested(remotes) ==> best.None?
    ensures cancelAt >= Tested(remotes) ==> (best.Some? <==> exists i: nat :: Answers(remotes, pings, i))
    ensures best.Some? ==> exists i: nat :: Answers(remotes, pings, i) && pings[i] == best
    ensures best.Some? ==> forall i: nat | Answers(remotes, pings, i) :: best.value <= pings[i].value
  {
    best := None;
    for k := 0 to Tested(remotes)
      invariant k <= cancelAt
      invariant best.Some? <==> exists i: nat | i < k :: Answers(remotes, pings, i)
      invariant best.Some? ==> exists i: nat | i < k :: Answers(remotes, pings, i) && pings[i] == best
      invariant best.Some? ==> forall i: nat | i < k && Answers(remotes, pings, i) :: best.value <= pings[i].value
    {
      if cancelAt <= k {
        return None;
      }
      if !Testable(remotes[k]) {
        continue;
      }
      var rtt := pings[k];
      if rtt.Some? && (best.None? || rtt.value < best.value) {
        best := rtt;
        assert Answers(remotes, pings, k);
      }
    }
  }

  // ----- The batch -----

  predicate IsConfigFile(name: string) {
    name != "" && |".ovpn"| <= |name| && name[|name| - 5..] == ".ovpn"
  }

  function ValidFiles(names: seq<string>): seq<string> {
    if names == [] then [] else (if IsConfigFile(names[0]) then [names[0]] else []) + ValidFiles(names[1..])
  }

  predicate Below(order: seq<nat>, n: nat) {
    forall i | 0 <= i < |order| :: order[i] < n
  }

  /** The results of the futures `order`, each None when it raised, written as they complete. */
  function Collected(files: seq<string>, outcomes: seq<Option<int>>, order: seq<nat>): Latencies
    requires |outcomes| == |files| && Below(order, |files|)
  {
    if order == [] then map[]
    else
      Collected(files, outcomes, order[..|order| - 1])[files[Last(order)] := outcomes[Last(order)]]
  }

  /** Measured are the listed names that end in ".ovpn", and no others. */
  lemma {:induction false} ValidFilesExactly(names: seq<string>, x: string)
    ensures x in ValidFiles(names) <==> x in names && |x| >= 5 && x[|x| - 5..] == ".ovpn"
  {
    if names != [] {
      ValidFilesExactly(names[1..], x);
      assert names == [names[0]] + names[1..];
    }
  }

  /** `order` is a completion order: every submitted future once. */
  predicate CompletionOrder(order: seq<nat>, n: nat) {
    && Below(order, n)
    && (forall k | 0 <= k < n :: k in order)
    && (forall i, j | 0 <= i < j < |order| :: order[i] != order[j])
  }

  predicate Distinct(s: seq<string>) {
    forall i, j | 0 <= i < j < |s| :: s[i] != s[j]
  }

  /** The batch; the cancel flag is up from the `cancelAt`-th completion on. */
  method TestAllConfigs(names: seq<string>, outcomes: seq<Option<int>>, order: seq<nat>, cancelAt: nat)
    returns (results: Latencies)
    requires |outcomes| == |ValidFiles(names)| && Below(order, |outcomes|)
    ensures results == Collected(ValidFiles(names), outcomes, order[..Min(cancelAt, |order|)])
  {
    var files := ValidFiles(names);
    results := map[];
    for k := 0 to |order|
      invariant k <= cancelAt
      invariant results == Collected(files, outcomes, order[..k])
    {
      if cancelAt <= k {
        return;
      }
      assert order[..k + 1][..k] == order[..k] && Last(order[..k + 1]) == order[k];
      results := results[files[order[k]] := outcomes[order[k]]];
    }
    assert order[..|order|] == order;
  }

  lemma {:induction false} CollectedEntries(files: seq<string>, outcomes: seq<Option<int>>, order: seq<nat>)
    requires |outcomes| == |files| && Distinct(files) && Below(order, |files|)
    ensures forall k | k in order :: k < |files| && Rtt(Collected(files, outcomes, order), files[k]) == outcomes[k]
    ensures forall f :: f in Collected(files, outcomes, order) <==> exists k | k in order && k < |files| :: files[k] == f
    decreases |order|
  {
    if order != [] {
      var front := order[..|order| - 1];
      CollectedEntries(files, outcomes, front);
      assert order == front + [Last(order)];
    }
  }

  /** For distinct names the result does not depend on the order in which the answers arrive. */
  lemma OrderIsInvisible(files: seq<string>, outcomes: seq<Option<int>>, order1: seq<nat>, order2: seq<nat>)
    requires |outcomes| == |files| && Distinct(files)
    requires CompletionOrder(order1, |files|) && CompletionOrder(order2, |files|)
    ensures Collected(files, outcomes, order1) == Collected(files, outcomes, order2)
  {
    CollectedEntries(files, outcomes, order1);
    CollectedEntries(files, outcomes, order2);
    var one, two := Collected(files, outcomes, order1), Collected(files, outcomes, order2);
    hide Collected, Distinct, Below;
    forall f
      ensures f in one <==> f in two
      ensures f in one ==> one[f] == two[f]
    {
      SameEntry(files, outcomes, order1, order2, one, two, f);
    }
    assert one.Keys == two.Keys;
  }

  lemma SameEntry(files: seq<string>, outcomes: seq<Option<int>>, order1: seq<nat>, order2: seq<nat>,
                  one: Latencies, two: Latencies, f: string)
    requires |outcomes| == |files| && CompletionOrder(order1, |files|) && CompletionOrder(order2, |files|)
    requires forall k | k in order1 :: k < |files| && Rtt(one, files[k]) == outcomes[k]
    requires forall k | k in order2 :: k < |files| && Rtt(two, files[k]) == outcomes[k]
    requires forall f :: f in one <==> exists k | k in order1 && k < |files| :: files[k] == f
    requires forall f :: f in two <==> exists k | k in order2 && k < |files| :: files[k] == f
    ensures f in one <==> f in two
    ensures f in one ==> one[f] == two[f]
  {
    if f in one {
      var k :| k in order1 && k < |files| && files[k] == f;
      assert k in order2;
    }
    if f in two {
      var k :| k in order2 && k < |files| && files[k] == f;
      assert k in order1;
    }
  }

  /** The completion order in which future `i` comes last. */
  function CompletesLast(n: nat, i: nat): seq<nat>
    requires i < n
  {
    seq(n - 1, k requires 0 <= k => if k < i then k else k + 1) + [i]
  }

  lemma CompletesLastIsOrder(n: nat, i: nat)
    requires i < n
    ensures CompletionOrder(CompletesLast(n, i), n)
  {
    var order := CompletesLast(n, i);
    forall k | 0 <= k < n
      ensures k in order
    {
      assert order[if k < i then k else if k == i then n - 1 else k - 1] == k;
    }
  }

  /** Whatever completes last is what a name holds. */
  lemma LastAnswerHolds(files: seq<string>, outcomes: seq<Option<int>>, i: nat)
    requires |outcomes| == |files| && i < |files| && Below(CompletesLast(|files|, i), |files|)
    ensures Rtt(Collected(files, outcomes, CompletesLast(|files|, i)), files[i]) == outcomes[i]
  {
    assert Last(CompletesLast(|files|, i)) == i;
  }

  ghost predicate OrderInvisible(files: seq<string>) {
    forall outcomes: seq<Option<int>>, order1: seq<nat>, order2: seq<nat>
      | |outcomes| == |files| && CompletionOrder(order1, |files|) && CompletionOrder(order2, |files|) ::
      Collected(files, outcomes, order1) == Collected(files, outcomes, order2)
  }

  /** The result of a batch is independent of the order in which the answers arrive exactly for a list without duplicates. */
  lemma OrderIsInvisibleExactly(files: seq<string>)
    ensures OrderInvisible(files) <==> Distinct(files)
  {
    if Distinct(files) {
      forall outcomes: seq<Option<int>>, order1: seq<nat>, order2: seq<nat>
        | |outcomes| == |files| && CompletionOrder(order1, |files|) && CompletionOrder(order2, |files|)
        ensures Collected(files, outcomes, order1) == Collected(files, outcomes, order2)
      {
        OrderIsInvisible(files, outcomes, order1, order2);
      }
    } else {
      var i, j :| 0 <= i < j < |files| && files[i] == files[j];
      var outcomes := seq(|files|, k requires 0 <= k => Some(k as int));
      var last1, last2 := CompletesLast(|files|, i), CompletesLast(|files|, j);
      CompletesLastIsOrder(|files|, i);
      CompletesLastIsOrder(|files|, j);
      LastAnswerHolds(files, outcomes, i);
      LastAnswerHolds(files, outcomes, j);
      hide Collected, CompletesLast, CompletionOrder;
      assert outcomes[i] != outcomes[j];
      assert Collected(files, outcomes, last1) != Collected(files, outcomes, last2);
    }
  }

  // ----- The snapshot -----

  datatype Status = Measured | Unreachable | Error

  datatype Measurement = Measurement(configId: string, latency: Option<int>, status: Status, generation: nat)

  function FromResult(configId: string, latency: Option<int>, generation: nat, error: Option<string>): Measurement {
    var status := if latency.Some? then Measured else if error.GetOr("") != "" then Error else Unreachable;
    Measurement(configId, latency, status, generation)
  }

  class SpeedTestSnapshot {
    var generation: nat
    var measurements: map<string, Measurement>

    constructor ()
      ensures generation == 0 && measurements == map[]
    {
      generation, measurements := 0, map[];
    }

    method Replace(results: Latencies) returns (g: nat)
      modifies this
      ensures g == generation == old(generation) + 1
      ensures LatencyMap() == results
      ensures forall name | name in measurements ::
                && measurements[name].configId == name && measurements[name].generation == g
                && (measurements[name].status.Measured? <==> results[name].Some?)
                && !measurements[name].status.Error?
    {
      generation := generation + 1;
      g := generation;
      measurements := map name | name in results :: FromResult(name, results[name], g, None);
    }

    function LatencyMap(): Latencies
      reads this
    {
      map name | name in measurements :: measurements[name].latency
    }
  }

  // ----- From measurement to queue -----

  /** A completed test: every listed name was measured, and nothing else was. */
  ghost predicate Complete(names: seq<string>, latencies: Latencies) {
    forall x :: x in latencies <==> x in names
  }

  lemma {:induction false} AllFilesValid(names: seq<string>)
    requires forall i | 0 <= i < |names| :: IsConfigFile(names[i])
    ensures ValidFiles(names) == names
  {
    if names != [] {
      AllFilesValid(names[1..]);
      assert names == [names[0]] + names[1..];
    }
  }

  /** A batch over the loaded list that is not cancelled is complete. */
  lemma BatchIsComplete(names: seq<string>, outcomes: seq<Option<int>>, order: seq<nat>)
    requires Loaded(names) && (forall i | 0 <= i < |names| :: IsConfigFile(names[i]))
    requires |outcomes| == |names| && CompletionOrder(order, |names|)
    ensures ValidFiles(names) == names && Complete(names, Collected(names, outcomes, order))
    ensures forall i | 0 <= i < |names| :: Rtt(Collected(names, outcomes, order), names[i]) == outcomes[i]
  {
    AllFilesValid(names);
    LoadedIsDistinct(names);
    CollectedEntries(names, outcomes, order);
    var c := Collected(names, outcomes, order);
    forall i | 0 <= i < |names|
      ensures names[i] in c && c[names[i]] == outcomes[i]
    {
      assert i in order;
    }
  }

  lemma LoadedIsDistinct(names: seq<string>)
    requires Loaded(names)
    ensures Distinct(names)
  {
    forall i, j | 0 <= i < j < |names|
      ensures names[i] != names[j]
    {
      PositionOrderIsNameOrder(names, i, j);
    }
  }

  /** What the list shows under the "online" filter. */
  function OnlineSet(names: seq<string>, latencies: Latencies): set<string> {
    set x | x in names && MatchesServerFilter(x, "", Online, {}, latencies, None, {})
  }

  function Elements(s: seq<string>): set<string> {
    set x | x in s
  }

  lemma {:induction false} DistinctCount(s: seq<string>)
    requires Distinct(s)
    ensures |Elements(s)| == |s|
  {
    if s == [] {
      assert Elements(s) == {};
    } else {
      DistinctCount(s[1..]);
      assert Elements(s) == Elements(s[1..]) + {s[0]};
      assert s[0] !in s[1..];
    }
  }

  lemma TakenElements(s: seq<string>, n: nat)
    requires Distinct(s)
    ensures Elements(Take(s, n)) <= Elements(s)
    ensures Elements(Take(s, n)) == Elements(s) <==> |s| <= n
  {
    DistinctCount(s);
    assert Distinct(Take(s, n));
    DistinctCount(Take(s, n));
    if |s| <= n {
      assert Take(s, n) == s;
    }
  }

  /**
    After a completed test over the loaded list, the auto-connect queue holds exactly the
    servers that the "online" filter shows, if and only if at least one was reachable and no
    more than the cap were.
   */
  lemma QueueIsOnlineSet(names: seq<string>, latencies: Latencies, max: int)
    requires Loaded(names) && names != [] && Complete(names, latencies)
    ensures Elements(BuildQueue(names, latencies, true, max)) == OnlineSet(names, latencies)
            <==> 0 < |OnlineSet(names, latencies)| <= Limit(max)
    ensures OnlineSet(names, latencies) != {} ==> Elements(BuildQueue(names, latencies, true, max)) <= OnlineSet(names, latencies)
  {
    DisplayExists(names, latencies);
    var shown :| Shown(latencies, shown) && forall x :: x in shown <==> x in names;
    QueueRefinesDisplay(names, latencies, shown, max);
    var reachable := Reachable(latencies, shown);
    ReachableKeepsOrder(latencies, shown);
    assert Distinct(reachable);
    ReachableIsOnline(names, latencies, shown);
    var queue := BuildQueue(names, latencies, true, max);
    var online := OnlineSet(names, latencies);
    if online == {} {
      assert queue != [] && queue[0] in Elements(queue) by {
        BothEmpty(shown, names);
      }
    } else {
      assert reachable != [];
      assert Elements(reachable) == online;
      DistinctCount(reachable);
      TakenElements(reachable, Limit(max));
    }
  }

  lemma ReachableIsOnline(names: seq<string>, latencies: Latencies, shown: seq<string>)
    requires Complete(names, latencies) && forall x :: x in shown <==> x in names
    ensures OnlineSet(names, latencies) != {} ==> Elements(Reachable(latencies, shown)) == OnlineSet(names, latencies)
  {
    var online := OnlineSet(names, latencies);
    if online != {} {
      var y :| y in online;
      assert y in latencies && latencies[y].Some?;
      assert HasAnyRtt(latencies);
      forall x
        ensures x in Elements(Reachable(latencies, shown)) <==> x in online
      {
        assert x in Reachable(latencies, shown) <==> x in shown && !Dropped(latencies, true, x);
      }
    }
  }

  // ----- The whole pipeline -----

  /** Some endpoint of the configuration, of those that are asked, answers. */
  ghost predicate SomeAnswer(text: string, pings: seq<Option<int>>)
    requires |pings| == |Endpoints(text)|
  {
    exists k: nat :: Answers(Endpoints(text), pings, k)
  }

  /** The least answer of a configuration. */
  ghost predicate LeastAnswer(text: string, pings: seq<Option<int>>, best: int)
    requires |pings| == |Endpoints(text)|
  {
    && (exists k: nat :: Answers(Endpoints(text), pings, k) && pings[k] == Some(best))
    && (forall k: nat | Answers(Endpoints(text), pings, k) :: best <= pings[k].value)
  }

  ghost predicate Measures(texts: seq<string>, pings: seq<seq<Option<int>>>, n: nat, outcomes: seq<Option<int>>)
    requires n <= |outcomes| && n <= |texts| == |pings| && forall i | 0 <= i < |texts| :: |pings[i]| == |Endpoints(texts[i])|
  {
    forall i | 0 <= i < n ::
      && (outcomes[i].Some? <==> SomeAnswer(texts[i], pings[i]))
      && (outcomes[i].Some? ==> LeastAnswer(texts[i], pings[i], outcomes[i].value))
  }

  /** Parsing and measuring every file, one result each. */
  method MeasureFiles(texts: seq<string>, pings: seq<seq<Option<int>>>) returns (outcomes: seq<Option<int>>)
    requires |texts| == |pings| && forall i | 0 <= i < |texts| :: |pings[i]| == |Endpoints(texts[i])|
    ensures |outcomes| == |texts| && Measures(texts, pings, |texts|, outcomes)
  {
    outcomes := [];
    for k := 0 to |texts|
      invariant |outcomes| == k && Measures(texts, pings, k, outcomes)
    {
      var remotes := ParseEndpoints(texts[k]);
      var best := TestSingleOvpn(remotes, pings[k], Tested(remotes));
      assert best.Some? <==> SomeAnswer(texts[k], pings[k]);
      outcomes := outcomes + [best];
    }
  }

  /**
    From the files to the queue: parse, measure, collect in any order of arrival, store, build.
    A server counts as online exactly if an endpoint of its file answers, and then with its least
    answer; the queue is the set of online servers exactly when there is one and they fit the
    cap; and it begins with a fastest one.
   */
  method MeasureAndQueue(names: seq<string>, texts: seq<string>, pings: seq<seq<Option<int>>>, order: seq<nat>, max: int)
    returns (latencies: Latencies, queue: seq<string>)
    requires Loaded(names) && names != [] && (forall i | 0 <= i < |names| :: IsConfigFile(names[i]))
    requires |texts| == |names| == |pings| && (forall i | 0 <= i < |texts| :: |pings[i]| == |Endpoints(texts[i])|)
    requires CompletionOrder(order, |names|)
    ensures forall i | 0 <= i < |names| :: names[i] in OnlineSet(names, latencies) <==> SomeAnswer(texts[i], pings[i])
    ensures forall i | 0 <= i < |names| ::
              Rtt(latencies, names[i]).Some? ==> LeastAnswer(texts[i], pings[i], Rtt(latencies, names[i]).value)
    ensures Elements(queue) == OnlineSet(names, latencies) <==> 0 < |OnlineSet(names, latencies)| <= Limit(max)
    ensures OnlineSet(names, latencies) != {} ==> queue != [] && FastestFirst(names, latencies, queue[0])
  {
    var outcomes := MeasureFiles(texts, pings);
    AllFilesValid(names);
    var results := TestAllConfigs(names, outcomes, order, |order|);
    assert order[..|order|] == order;
    BatchIsComplete(names, outcomes, order);
    var snapshot := new SpeedTestSnapshot();
    var _ := snapshot.Replace(results);
    latencies := snapshot.LatencyMap();
    queue := BuildCascadeQueue(names, latencies, true, max);
    OnlineIsMeasured(names, latencies);
    QueueIsOnlineSet(names, latencies, max);
    BeginsFastest(names, latencies, max);
    hide Measures, Complete, Loaded, OnlineSet, BuildQueue, FastestFirst, LeastAnswer, SomeAnswer;
    forall i | 0 <= i < |names|
      ensures names[i] in OnlineSet(names, latencies) <==> SomeAnswer(texts[i], pings[i])
      ensures Rtt(latencies, names[i]).Some? ==> LeastAnswer(texts[i], pings[i], Rtt(latencies, names[i]).value)
    {
      assert Rtt(latencies, names[i]) == outcomes[i];
      MeasuresOne(texts, pings, outcomes, i);
    }
  }

  lemma MeasuresOne(texts: seq<string>, pings: seq<seq<Option<int>>>, outcomes: seq<Option<int>>, i: nat)
    requires |texts| == |pings| == |outcomes| && forall k | 0 <= k < |texts| :: |pings[k]| == |Endpoints(texts[k])|
    requires Measures(texts, pings, |texts|, outcomes) && i < |texts|
    ensures outcomes[i].Some? <==> SomeAnswer(texts[i], pings[i])
    ensures outcomes[i].Some? ==> LeastAnswer(texts[i], pings[i], outcomes[i].value)
  {
  }

  lemma OnlineIsMeasured(names: seq<string>, latencies: Latencies)
    ensures forall x | x in names :: x in OnlineSet(names, latencies) <==> Rtt(latencies, x).Some?
  {
  }

  /** `first` is online and no online server is faster. */
  predicate FastestFirst(names: seq<string>, latencies: Latencies, first: string) {
    && first in names && Rtt(latencies, first).Some?
    && forall x | x in names && Rtt(latencies, x).Some? :: Rtt(latencies, first).value <= Rtt(latencies, x).value
  }

  lemma FirstIsFastest(names: seq<string>, latencies: Latencies, p: nat)
    requires p < |names| && Rtt(latencies, names[p]).Some?
    ensures var r := Ranked(names, latencies, true);
            && r != [] && r[0].name in names && Rtt(latencies, r[0].name).Some?
            && Rtt(latencies, r[0].name).value <= Rtt(latencies, names[p]).value
  {
    RankedPositions(names, latencies, true);
    var r := Ranked(names, latencies, true);
    assert p in EligiblePositions(names, latencies, true);
    var k :| 0 <= k < |r| && r[k] == Entry(p, names[p]);
    assert r[0].position in EligiblePositions(names, latencies, true);
    hide Ranked;
    if k > 0 {
      assert TriedBefore(names, latencies, r[0].position, r[k].position);
    }
  }

  lemma QueueBegins(names: seq<string>, latencies: Latencies, max: int)
    requires Loaded(names) && Ranked(names, latencies, true) != []
    ensures BuildQueue(names, latencies, true, max) != []
    ensures BuildQueue(names, latencies, true, max)[0] == Ranked(names, latencies, true)[0].name
  {
    NonEmptyIdentity(names);
    hide Ranked;
  }

  lemma BeginsFastest(names: seq<string>, latencies: Latencies, max: int)
    requires Loaded(names)
    ensures OnlineSet(names, latencies) != {} ==>
              BuildQueue(names, latencies, true, max) != [] && FastestFirst(names, latencies, BuildQueue(names, latencies, true, max)[0])
  {
    if OnlineSet(names, latencies) != {} {
      var y :| y in OnlineSet(names, latencies);
      OnlineIsMeasured(names, latencies);
      hide Ranked, BuildQueue, Loaded, OnlineSet;
      forall x | x in names && Rtt(latencies, x).Some?
        ensures var r := Ranked(names, latencies, true);
                && r != [] && r[0].name in names && Rtt(latencies, r[0].name).Some?
                && Rtt(latencies, r[0].name).value <= Rtt(latencies, x).value
      {
        var p :| 0 <= p < |names| && names[p] == x;
        FirstIsFastest(names, latencies, p);
      }
      assert y in names && Rtt(latencies, y).Some?;
      QueueBegins(names, latencies, max);
    }
  }
}
