/**
  The candidate queue of an auto-connect run: filter, stable sort by measured latency, cap
  and fallback, and what that queue is for an arbitrary list of names.
 */
module CandidateQueue {
  import opened Prelude

  /** Round-trip times by name, in tenths of a millisecond; None is "measured, unreachable". */
  type Latencies = map<string, Option<int>>

  /** `latencies.get(name)`. */
  function Rtt(latencies: Latencies, name: string): Option<int> {
    if name in latencies then latencies[name] else None
  }

  predicate HasAnyRtt(latencies: Latencies) {
    exists name | name in latencies :: latencies[name].Some?
  }

  function NonEmpty(names: seq<string>): (r: seq<string>)
    ensures "" !in r
    ensures forall name | name in names && name != "" :: name in r
    ensures forall name | name in r :: name in names
  {
    if names == [] then [] else (if names[0] == "" then [] else [names[0]]) + NonEmpty(names[1..])
  }

  /** A measured failure, when there is a measurement to prefer to it. */
  predicate Dropped(latencies: Latencies, skip: bool, name: string) {
    skip && HasAnyRtt(latencies) && name in latencies && latencies[name].None?
  }

  datatype Entry = Entry(position: nat, name: string)

  /** The entries kept among the first `n` files, in visual order. */
  function Eligible(files: seq<string>, latencies: Latencies, skip: bool, n: nat): seq<Entry>
    requires n <= |files|
  {
    if n == 0 then []
    else
      var r := Eligible(files, latencies, skip, n - 1);
      if Dropped(latencies, skip, files[n - 1]) then r else r + [Entry(n - 1, files[n - 1])]
  }

  predicate EntriesOf(files: seq<string>, latencies: Latencies, skip: bool, n: nat, r: seq<Entry>)
    requires n <= |files|
  {
    && (forall i | 0 <= i < |r| ::
          r[i].position < n && r[i].name == files[r[i].position] && !Dropped(latencies, skip, r[i].name))
    && (forall i, j | 0 <= i < j < |r| :: r[i].position < r[j].position)
  }

  lemma {:induction false} EligibleEntries(files: seq<string>, latencies: Latencies, skip: bool, n: nat)
    requires n <= |files|
    ensures EntriesOf(files, latencies, skip, n, Eligible(files, latencies, skip, n))
  {
    if n > 0 {
      EligibleEntries(files, latencies, skip, n - 1);
    }
  }

  lemma {:induction false} EligibleComplete(files: seq<string>, latencies: Latencies, skip: bool, n: nat, p: nat)
    requires p < n <= |files|
    requires !Dropped(latencies, skip, files[p])
    ensures Entry(p, files[p]) in Eligible(files, latencies, skip, n)
  {
    if p < n - 1 {
      EligibleComplete(files, latencies, skip, n - 1, p);
    }
  }

  /** The order of the sort key (unmeasured, RTT, position). */
  predicate KeyLess(latencies: Latencies, a: Entry, b: Entry) {
    var ra, rb := Rtt(latencies, a.name), Rtt(latencies, b.name);
    if ra.None? != rb.None? then rb.None?
    else if ra.Some? && ra.value != rb.value then ra.value < rb.value
    else a.position < b.position
  }

  predicate Sorted(latencies: Latencies, s: seq<Entry>) {
    forall i, j | 0 <= i < j < |s| :: KeyLess(latencies, s[i], s[j])
  }

  /** No two entries share a position, so the key order is strict and total on them. */
  predicate DistinctPositions(s: seq<Entry>) {
    forall i, j | 0 <= i < j < |s| :: s[i].position != s[j].position
  }

  function Insert(latencies: Latencies, e: Entry, s: seq<Entry>): seq<Entry> {
    if s == [] || KeyLess(latencies, e, s[0]) then [e] + s else [s[0]] + Insert(latencies, e, s[1..])
  }

  /** The library sort: any sort is this one, because the keys are pairwise different. */
  function SortByLatency(latencies: Latencies, s: seq<Entry>): seq<Entry> {
    if s == [] then [] else Insert(latencies, s[0], SortByLatency(latencies, s[1..]))
  }

  function Limit(max: int): nat {
    Max(1, max)
  }

  function Take<T>(s: seq<T>, n: nat): seq<T> {
    s[..Min(n, |s|)]
  }

  function Names(s: seq<Entry>): (r: seq<string>)
    ensures |r| == |s| && forall i | 0 <= i < |s| :: r[i] == s[i].name
  {
    seq(|s|, i requires 0 <= i < |s| => s[i].name)
  }

  /** The eligible entries in the order in which they will be tried, before the cap. */
  function Ranked(files: seq<string>, latencies: Latencies, skip: bool): seq<Entry> {
    var eligible := Eligible(files, latencies, skip, |files|);
    if HasAnyRtt(latencies) then SortByLatency(latencies, eligible) else eligible
  }

  function BuildQueue(visible: seq<string>, latencies: Latencies, skip: bool, max: int): seq<string> {
    var files := NonEmpty(visible);
    var queue := Names(Take(Ranked(files, latencies, skip), Limit(max)));
    if queue == [] then Take(files, Limit(max)) else queue
  }

  method BuildCascadeQueue(visible: seq<string>, latencies: Latencies, skipUnreachable: bool, maxCandidates: int)
    returns (queue: seq<string>)
    ensures queue == BuildQueue(visible, latencies, skipUnreachable, maxCandidates)
  {
    var files := NonEmpty(visible);
    if files == [] {
      return [];
    }
    var limit := Limit(maxCandidates);
    var hasAnyRtt := HasAnyRtt(latencies);
    var eligible: seq<Entry> := [];
    for position := 0 to |files|
      invariant eligible == Eligible(files, latencies, skipUnreachable, position)
    {
      var name := files[position];
      if skipUnreachable && hasAnyRtt && name in latencies && latencies[name].None? {
        continue;
      }
      eligible := eligible + [Entry(position, name)];
    }
    if hasAnyRtt {
      eligible := SortByLatency(latencies, eligible);
    }
    queue := Names(Take(eligible, limit));
    if queue == [] {
      queue := Take(files, limit);
    }
  }

  // ----- The sort -----

  lemma {:induction false} InsertKeepsElements(latencies: Latencies, e: Entry, s: seq<Entry>)
    ensures |Insert(latencies, e, s)| == |s| + 1
    ensures forall x :: x in Insert(latencies, e, s) <==> x == e || x in s
  {
    if s != [] && !KeyLess(latencies, e, s[0]) {
      InsertKeepsElements(latencies, e, s[1..]);
      assert s == [s[0]] + s[1..];
    }
  }

  lemma {:induction false} InsertKeepsOrder(latencies: Latencies, e: Entry, s: seq<Entry>)
    requires Sorted(latencies, s)
    requires forall x | x in s :: x.position != e.position
    ensures Sorted(latencies, Insert(latencies, e, s))
  {
    if s != [] && !KeyLess(latencies, e, s[0]) {
      var rest := Insert(latencies, e, s[1..]);
      InsertKeepsOrder(latencies, e, s[1..]);
      InsertKeepsElements(latencies, e, s[1..]);
      forall j | 0 <= j < |rest|
        ensures KeyLess(latencies, s[0], rest[j])
      {
        assert rest[j] in rest;
      }
    }
  }

  /** The sort keeps the entries, which are all different, and puts them in strictly increasing key order. */
  lemma {:induction false} SortIsCorrect(latencies: Latencies, s: seq<Entry>)
    requires DistinctPositions(s)
    ensures |SortByLatency(latencies, s)| == |s|
    ensures forall x :: x in SortByLatency(latencies, s) <==> x in s
    ensures Sorted(latencies, SortByLatency(latencies, s))
  {
    if s != [] {
      SortIsCorrect(latencies, s[1..]);
      InsertKeepsElements(latencies, s[0], SortByLatency(latencies, s[1..]));
      InsertKeepsOrder(latencies, s[0], SortByLatency(latencies, s[1..]));
      assert s == [s[0]] + s[1..];
    }
  }

  /** The ranked entries: exactly the eligible ones, each once, in key order. */
  lemma RankedIsCorrect(files: seq<string>, latencies: Latencies, skip: bool)
    ensures var r, e := Ranked(files, latencies, skip), Eligible(files, latencies, skip, |files|);
            && |r| == |e|
            && Sorted(latencies, r)
            && forall x :: x in r <==> x in e
  {
    var e := Eligible(files, latencies, skip, |files|);
    EligibleEntries(files, latencies, skip, |files|);
    SortIsCorrect(latencies, e);
    if !HasAnyRtt(latencies) {
      assert Sorted(latencies, e);
    }
  }

  // ----- The queue on any list -----

  /** The name is measured as unreachable while some other measurement exists. */
  predicate KnownDead(latencies: Latencies, skip: bool, name: string) {
    && skip && name in latencies && latencies[name] == None
    && exists other | other in latencies :: latencies[other] != None
  }

  function EligibleBelow(files: seq<string>, latencies: Latencies, skip: bool, n: nat): set<nat>
    requires n <= |files|
  {
    set p: nat | p < n && !KnownDead(latencies, skip, files[p])
  }

  function EligiblePositions(files: seq<string>, latencies: Latencies, skip: bool): set<nat> {
    EligibleBelow(files, latencies, skip, |files|)
  }

  lemma {:induction false} EligibleCount(files: seq<string>, latencies: Latencies, skip: bool, n: nat)
    requires n <= |files|
    ensures |Eligible(files, latencies, skip, n)| == |EligibleBelow(files, latencies, skip, n)|
  {
    if n == 0 {
      assert EligibleBelow(files, latencies, skip, 0) == {};
    } else {
      EligibleCount(files, latencies, skip, n - 1);
      EligibleStep(files, latencies, skip, n);
    }
  }

  lemma EligibleStep(files: seq<string>, latencies: Latencies, skip: bool, n: nat)
    requires 0 < n <= |files|
    ensures EligibleBelow(files, latencies, skip, n)
         == EligibleBelow(files, latencies, skip, n - 1) + if KnownDead(latencies, skip, files[n - 1]) then {} else {n - 1}
    ensures n - 1 !in EligibleBelow(files, latencies, skip, n - 1)
  {
  }

  /** The positions, in the visible list, of the names in the queue. */
  function QueuePositions(visible: seq<string>, latencies: Latencies, skip: bool, max: int): seq<nat> {
    var files := NonEmpty(visible);
    var ranked := Take(Ranked(files, latencies, skip), Limit(max));
    if ranked == [] then seq(Min(Limit(max), |files|), i requires 0 <= i => i)
    else seq(|ranked|, i requires 0 <= i < |ranked| => ranked[i].position)
  }

  /** Position `x` is to be tried before position `y`: measured before unmeasured, faster first, ties in visual order. */
  predicate TriedBefore(files: seq<string>, latencies: Latencies, x: nat, y: nat)
    requires x < |files| && y < |files|
  {
    var rx, ry := Rtt(latencies, files[x]), Rtt(latencies, files[y]);
    || (rx.Some? && ry.None?)
    || (rx.Some? && ry.Some? && (rx.value < ry.value || (rx.value == ry.value && x < y)))
    || (rx.None? && ry.None? && x < y)
  }

  /** The uncapped case: the ranked entries are the eligible positions, in the promised order. */
  lemma RankedPositions(files: seq<string>, latencies: Latencies, skip: bool)
    ensures var r := Ranked(files, latencies, skip);
            var eligible := EligiblePositions(files, latencies, skip);
            && |r| == |eligible|
            && (forall i | 0 <= i < |r| :: r[i].position in eligible && r[i].name == files[r[i].position])
            && (forall p | p in eligible :: Entry(p, files[p]) in r)
            && (forall i, j | 0 <= i < j < |r| ::
                  r[i].position != r[j].position && TriedBefore(files, latencies, r[i].position, r[j].position))
  {
    var r, e := Ranked(files, latencies, skip), Eligible(files, latencies, skip, |files|);
    var eligible := EligiblePositions(files, latencies, skip);
    RankedIsCorrect(files, latencies, skip);
    EligibleEntries(files, latencies, skip, |files|);
    EligibleCount(files, latencies, skip, |files|);
    forall i | 0 <= i < |r|
      ensures r[i].position in eligible && r[i].name == files[r[i].position]
    {
      assert r[i] in e;
    }
    forall p | p in eligible
      ensures Entry(p, files[p]) in r
    {
      EligibleComplete(files, latencies, skip, |files|, p);
    }
    forall i, j | 0 <= i < j < |r|
      ensures r[i].position != r[j].position && TriedBefore(files, latencies, r[i].position, r[j].position)
    {
      assert KeyLess(latencies, r[i], r[j]);
      KeyLessIsStrict(latencies, r[i], r[j]);
    }
  }

  lemma KeyLessIsStrict(latencies: Latencies, a: Entry, b: Entry)
    requires KeyLess(latencies, a, b)
    ensures a != b && (a.position == b.position ==> a.name != b.name)
  {
  }

  /**
    `ps` lists the positions that `queue` takes from `files`: each at most once, only eligible
    ones if there are any, in the promised order, nothing eligible left out that would come
    before something kept, and as many as the cap and the list allow.
   */
  ghost predicate Takes(files: seq<string>, latencies: Latencies, skip: bool, max: int, queue: seq<string>, ps: seq<nat>) {
    var eligible := EligiblePositions(files, latencies, skip);
    && |ps| == |queue|
    && (forall i | 0 <= i < |ps| :: ps[i] < |files| && queue[i] == files[ps[i]])
    && (forall i, j | 0 <= i < j < |ps| :: ps[i] != ps[j] && TriedBefore(files, latencies, ps[i], ps[j]))
    && (eligible != {} ==> forall i | 0 <= i < |ps| :: ps[i] in eligible)
    && (forall p, i | p in eligible && p !in ps && 0 <= i < |ps| :: TriedBefore(files, latencies, ps[i], p))
    && |queue| == Min(if max < 1 then 1 else max, if eligible != {} then |eligible| else |files|)
  }

  lemma TakesRanked(files: seq<string>, latencies: Latencies, skip: bool, max: int, queue: seq<string>, ps: seq<nat>)
    requires EligiblePositions(files, latencies, skip) != {}
    requires queue == Names(Take(Ranked(files, latencies, skip), Limit(max)))
    requires |ps| == |queue| && forall i | 0 <= i < |ps| :: ps[i] == Ranked(files, latencies, skip)[i].position
    ensures Takes(files, latencies, skip, max, queue, ps)
  {
    var ranked := Ranked(files, latencies, skip);
    RankedPositions(files, latencies, skip);
    forall p, i | p in EligiblePositions(files, latencies, skip) && p !in ps && 0 <= i < |ps|
      ensures TriedBefore(files, latencies, ps[i], p)
    {
      var k :| 0 <= k < |ranked| && ranked[k] == Entry(p, files[p]);
      assert |ps| <= k;
    }
  }

  lemma TakesVisual(files: seq<string>, latencies: Latencies, skip: bool, max: int, queue: seq<string>, ps: seq<nat>)
    requires EligiblePositions(files, latencies, skip) == {}
    requires queue == Take(files, Limit(max))
    requires |ps| == |queue| && forall i | 0 <= i < |ps| :: ps[i] == i
    ensures Takes(files, latencies, skip, max, queue, ps)
  {
    NothingEligible(files, latencies, skip);
  }

  /** The queue on any list of names, with duplicates, and any measurements; empty only when there was no name at all. */
  lemma QueueOnAnyList(visible: seq<string>, latencies: Latencies, skip: bool, max: int)
    ensures var files := NonEmpty(visible);
            var queue := BuildQueue(visible, latencies, skip, max);
            && Takes(files, latencies, skip, max, queue, QueuePositions(visible, latencies, skip, max))
            && (queue == [] <==> files == [])
  {
    var files := NonEmpty(visible);
    var ranked := Ranked(files, latencies, skip);
    var queue := BuildQueue(visible, latencies, skip, max);
    var ps := QueuePositions(visible, latencies, skip, max);
    RankedPositions(files, latencies, skip);
    if ranked == [] {
      assert EligiblePositions(files, latencies, skip) == {};
      TakesVisual(files, latencies, skip, max, queue, ps);
    } else {
      assert ranked[0].position in EligiblePositions(files, latencies, skip);
      TakesRanked(files, latencies, skip, max, queue, ps);
    }
  }

  /** When every file is a measured failure, visual order is the promised order. */
  lemma NothingEligible(files: seq<string>, latencies: Latencies, skip: bool)
    requires EligiblePositions(files, latencies, skip) == {}
    ensures forall x, y | 0 <= x < y < |files| :: TriedBefore(files, latencies, x, y)
  {
    forall i: nat | i < |files|
      ensures Rtt(latencies, files[i]).None?
    {
      assert i !in EligiblePositions(files, latencies, skip);
    }
  }

  /** What the controller relies on. */
  lemma QueueShape(visible: seq<string>, latencies: Latencies, skip: bool, max: int)
    ensures var queue := BuildQueue(visible, latencies, skip, max);
            && |queue| <= (if max < 1 then 1 else max)
            && "" !in queue
            && (queue == [] <==> NonEmpty(visible) == [])
  {
    QueueOnAnyList(visible, latencies, skip, max);
    var files := NonEmpty(visible);
    var queue := BuildQueue(visible, latencies, skip, max);
    var ps := QueuePositions(visible, latencies, skip, max);
    forall i | 0 <= i < |queue|
      ensures queue[i] != ""
    {
      assert queue[i] == files[ps[i]] && files[ps[i]] in files;
    }
  }
}
