/**
  The cascade queues the complete configuration list. When would it make no difference to
  queue only what the window shows?
 */
module FilteredList {
  import opened Prelude
  import opened CandidateQueue
  import opened DisplayOrder
  import opened ServerFilter

  /** The names of a list that pass a filter, in its order. */
  function Kept(s: seq<string>, keep: set<string>): (r: seq<string>)
    ensures forall x :: x in r <==> x in s && x in keep
  {
    if s == [] then [] else (if s[0] in keep then [s[0]] else []) + Kept(s[1..], keep)
  }

  lemma {:induction false} KeptIsLoaded(names: seq<string>, keep: set<string>)
    requires Loaded(names)
    ensures Loaded(Kept(names, keep))
  {
    if names != [] {
      assert Loaded(names[1..]);
      KeptIsLoaded(names[1..], keep);
      var rest := Kept(names[1..], keep);
      forall j | 0 <= j < |rest|
        ensures StringLess(names[0], rest[j])
      {
        assert rest[j] in names[1..];
        var i :| 0 <= i < |names[1..]| && names[1..][i] == rest[j];
        assert names[i + 1] == rest[j];
      }
    }
  }

  lemma {:induction false} KeptIsShown(latencies: Latencies, s: seq<string>, keep: set<string>)
    requires Shown(latencies, s)
    ensures Shown(latencies, Kept(s, keep))
  {
    if s != [] {
      assert Shown(latencies, s[1..]);
      KeptIsShown(latencies, s[1..], keep);
      var rest := Kept(s[1..], keep);
      forall j | 0 <= j < |rest|
        ensures s[0] != rest[j] && CompareConfigNames(true, latencies, s[0], rest[j]) == -1
      {
        assert rest[j] in s[1..];
        var i :| 0 <= i < |s[1..]| && s[1..][i] == rest[j];
        assert s[i + 1] == rest[j];
      }
      hide CompareConfigNames;
    }
  }

  lemma ReachableOfCons(latencies: Latencies, x: string, rest: seq<string>)
    ensures Reachable(latencies, [x] + rest) == (if Dropped(latencies, true, x) then [] else [x]) + Reachable(latencies, rest)
  {
    hide Dropped;
    assert ([x] + rest)[1..] == rest;
  }

  lemma KeptOfCons(x: string, rest: seq<string>, keep: set<string>)
    ensures Kept([x] + rest, keep) == (if x in keep then [x] else []) + Kept(rest, keep)
  {
    assert ([x] + rest)[1..] == rest;
  }

  /** Dropping the measured failures and dropping what is filtered out commute. */
  lemma {:induction false} KeptReachable(latencies: Latencies, s: seq<string>, keep: set<string>)
    ensures Reachable(latencies, Kept(s, keep)) == Kept(Reachable(latencies, s), keep)
  {
    if s != [] {
      var x, rest := s[0], s[1..];
      assert s == [x] + rest;
      KeptReachable(latencies, rest, keep);
      ReachableOfCons(latencies, x, rest);
      ReachableOfCons(latencies, x, Kept(rest, keep));
      KeptOfCons(x, rest, keep);
      KeptOfCons(x, Reachable(latencies, rest), keep);
      hide Kept, Reachable, Dropped;
      assert [] + Kept(rest, keep) == Kept(rest, keep);
      assert [] + Reachable(latencies, rest) == Reachable(latencies, rest);
      var both := Kept(Reachable(latencies, rest), keep);
      assert [] + both == both;
    }
  }

  /** If the first `n` all pass, filtering does not change the first `n`. */
  lemma {:induction false} TakeKept(s: seq<string>, keep: set<string>, n: nat)
    requires forall x | x in Take(s, n) :: x in keep
    ensures Take(Kept(s, keep), n) == Take(s, n)
  {
    if s != [] && n > 0 {
      assert Take(s, n)[0] == s[0];
      assert Take(s, n) == [s[0]] + Take(s[1..], n - 1);
      TakeKept(s[1..], keep, n - 1);
      assert Kept(s, keep) == [s[0]] + Kept(s[1..], keep);
    }
  }

  /** The servers at the top of the list that the cascade goes for: those not known to be dead, or all if none is left. */
  function TopOfList(latencies: Latencies, shown: seq<string>, max: int): seq<string> {
    var reachable := Reachable(latencies, shown);
    Take(if reachable == [] then shown else reachable, Limit(max))
  }

  /** `shown` is the complete list as the window sorts it by speed. */
  ghost predicate Arranges(names: seq<string>, latencies: Latencies, shown: seq<string>) {
    Shown(latencies, shown) && forall x :: x in shown <==> x in names
  }

  /**
    Queueing the complete list and queueing only what passes a filter give the same queue
    exactly when the servers at the top of the sorted list all pass.
   */
  lemma FilterMattersExactly(names: seq<string>, latencies: Latencies, shown: seq<string>, keep: set<string>, max: int)
    requires Loaded(names) && Arranges(names, latencies, shown)
    ensures BuildQueue(Kept(names, keep), latencies, true, max) == BuildQueue(names, latencies, true, max)
            <==> forall x | x in TopOfList(latencies, shown, max) :: x in keep
  {
    KeptIsLoaded(names, keep);
    KeptIsShown(latencies, shown, keep);
    QueueRefinesDisplay(names, latencies, shown, max);
    QueueRefinesDisplay(Kept(names, keep), latencies, Kept(shown, keep), max);
    KeptReachable(latencies, shown, keep);
    hide BuildQueue, Shown, Loaded;
    var reachable := Reachable(latencies, shown);
    if forall x | x in TopOfList(latencies, shown, max) :: x in keep {
      QueueUnchanged(shown, reachable, keep, Limit(max));
    }
    QueueWithin(shown, reachable, keep, Limit(max));
  }

  lemma QueueUnchanged(shown: seq<string>, reachable: seq<string>, keep: set<string>, n: nat)
    requires n > 0 && forall x | x in Take(if reachable == [] then shown else reachable, n) :: x in keep
    ensures Take(if Kept(reachable, keep) == [] then Kept(shown, keep) else Kept(reachable, keep), n)
         == Take(if reachable == [] then shown else reachable, n)
  {
    if reachable == [] {
      TakeKept(shown, keep, n);
    } else {
      TakeKept(reachable, keep, n);
      assert Take(reachable, n)[0] == reachable[0];
      assert reachable[0] in Kept(reachable, keep);
    }
  }

  lemma QueueWithin(shown: seq<string>, reachable: seq<string>, keep: set<string>, n: nat)
    ensures forall x | x in Take(if Kept(reachable, keep) == [] then Kept(shown, keep) else Kept(reachable, keep), n) :: x in keep
  {
  }

  /** What the window shows of a list. */
  function Visible(names: seq<string>, search: string, mode: Mode, favorites: set<string>, latencies: Latencies,
                   proto: Option<Proto>, protocols: map<string, set<Proto>>): set<string>
  {
    set x | x in names && MatchesServerFilter(x, search, mode, favorites, latencies, proto, if x in protocols then protocols[x] else {})
  }

  /** So the window's filters change nothing exactly when the servers at the top of the sorted list are all on screen. */
  lemma WindowFilterMattersExactly(names: seq<string>, shown: seq<string>, search: string, mode: Mode, favorites: set<string>,
                                   latencies: Latencies, proto: Option<Proto>, protocols: map<string, set<Proto>>, max: int)
    requires Loaded(names) && Arranges(names, latencies, shown)
    ensures var visible := Visible(names, search, mode, favorites, latencies, proto, protocols);
            BuildQueue(Kept(names, visible), latencies, true, max) == BuildQueue(names, latencies, true, max)
            <==> forall x | x in TopOfList(latencies, shown, max) ::
                   MatchesServerFilter(x, search, mode, favorites, latencies, proto, if x in protocols then protocols[x] else {})
  {
    var visible := Visible(names, search, mode, favorites, latencies, proto, protocols);
    FilterMattersExactly(names, latencies, shown, visible, max);
    assert forall x | x in TopOfList(latencies, shown, max) :: x in names;
    hide BuildQueue, MatchesServerFilter, TopOfList;
  }

  /** A server that is off screen, here because it is no favourite, is queued all the same. */
  lemma HiddenServerIsQueued()
    ensures var names := ["a.ovpn", "b.ovpn"];
            && Loaded(names)
            && "a.ovpn" in BuildQueue(names, map[], true, 50)
            && !MatchesServerFilter("a.ovpn", "", Favorites, {"b.ovpn"}, map[], None, {})
            && MatchesServerFilter("b.ovpn", "", Favorites, {"b.ovpn"}, map[], None, {})
  {
    var names := ["a.ovpn", "b.ovpn"];
    assert StringLess(names[0], names[1]);
    assert Loaded(names);
    NonEmptyIdentity(names);
    EligibleComplete(names, map[], true, 2, 0);
    hide StringLess;
    var e := Eligible(names, map[], true, 2);
    assert Take(e, 50) == e;
    var k :| 0 <= k < |e| && e[k] == Entry(0, "a.ovpn");
    assert Names(e)[k] == "a.ovpn";
  }
}
