/**
  The order in which the window shows the configurations, and the agreement between that
  order and the candidate queue.
 */
module DisplayOrder {
  import opened CandidateQueue

  /** Code point order, the order of `sort()` and of `>` on names. */
  predicate StringLess(a: string, b: string) {
    if b == "" then false
    else if a == "" then true
    else if a[0] != b[0] then a[0] < b[0]
    else StringLess(a[1..], b[1..])
  }

  /** `_compare_config_names`. */
  function CompareConfigNames(sortBySpeed: bool, latencies: Latencies, file1: string, file2: string): int {
    var byName := if StringLess(file2, file1) then 1 else -1;
    if file1 == "" || file2 == "" then 0
    else if !sortBySpeed then byName
    else
      var rtt1, rtt2 := Rtt(latencies, file1), Rtt(latencies, file2);
      if rtt1.None? && rtt2.None? then byName
      else if rtt1.None? then 1
      else if rtt2.None? then -1
      else if rtt1.value < rtt2.value then -1
      else if rtt1.value > rtt2.value then 1
      else byName
  }

  lemma {:induction false} StringLessTotal(a: string, b: string)
    ensures a == b <==> !StringLess(a, b) && !StringLess(b, a)
    ensures !(StringLess(a, b) && StringLess(b, a))
  {
    if a != "" && b != "" && a[0] == b[0] {
      StringLessTotal(a[1..], b[1..]);
      assert a == [a[0]] + a[1..] && b == [b[0]] + b[1..];
    }
  }

  lemma {:induction false} StringLessTransitive(a: string, b: string, c: string)
    requires StringLess(a, b) && StringLess(b, c)
    ensures StringLess(a, c)
  {
    if a != "" && a[0] == b[0] == c[0] {
      StringLessTransitive(a[1..], b[1..], c[1..]);
    }
  }

  /** On distinct non-empty names exactly one of the two comes first, whichever way round the window asks. */
  lemma ComparatorIsAntisymmetric(sortBySpeed: bool, latencies: Latencies, a: string, b: string)
    requires a != "" && b != "" && a != b
    ensures CompareConfigNames(sortBySpeed, latencies, a, b) in {-1, 1}
    ensures CompareConfigNames(sortBySpeed, latencies, a, b) == -CompareConfigNames(sortBySpeed, latencies, b, a)
  {
    StringLessTotal(a, b);
  }

  lemma ComparatorIsTransitive(sortBySpeed: bool, latencies: Latencies, a: string, b: string, c: string)
    requires a != "" && b != "" && c != "" && a != b && b != c && a != c
    requires CompareConfigNames(sortBySpeed, latencies, a, b) == -1
    requires CompareConfigNames(sortBySpeed, latencies, b, c) == -1
    ensures CompareConfigNames(sortBySpeed, latencies, a, c) == -1
  {
    StringLessTotal(a, b);
    StringLessTotal(b, c);
    StringLessTotal(a, c);
    if StringLess(a, b) && StringLess(b, c) {
      StringLessTransitive(a, b, c);
    }
  }

  /** Only a missing name compares equal. */
  lemma OnlyEmptyNamesTie(sortBySpeed: bool, latencies: Latencies, a: string, b: string)
    ensures CompareConfigNames(sortBySpeed, latencies, a, b) == 0 <==> a == "" || b == ""
  {
    hide StringLess;
  }

  /** Without sorting by speed the order is that of the names, whatever was measured. */
  lemma NamesAloneDecide(latencies: Latencies, a: string, b: string)
    requires a != "" && b != "" && a != b
    ensures CompareConfigNames(false, latencies, a, b) == if StringLess(a, b) then -1 else 1
  {
    StringLessTotal(a, b);
  }

  /** One name is less than another if it is a proper beginning of it, or has the smaller character where they first differ. */
  lemma {:induction false} StringLessExactly(a: string, b: string)
    ensures StringLess(a, b) <==>
              (a <= b && a != b) || exists k: nat | k < |a| && k < |b| :: a[..k] == b[..k] && a[k] < b[k]
  {
    if a != "" && b != "" {
      if a[0] == b[0] {
        StringLessExactly(a[1..], b[1..]);
        SameStart(a, b);
      } else {
        assert a[..0] == b[..0];
      }
    }
  }

  lemma SameStart(a: string, b: string)
    requires a != "" && b != "" && a[0] == b[0]
    ensures (a <= b && a != b) <==> (a[1..] <= b[1..] && a[1..] != b[1..])
    ensures (exists k: nat | k < |a| && k < |b| :: a[..k] == b[..k] && a[k] < b[k])
            <==> (exists k: nat | k < |a[1..]| && k < |b[1..]| :: a[1..][..k] == b[1..][..k] && a[1..][k] < b[1..][k])
  {
    assert a == [a[0]] + a[1..] && b == [b[0]] + b[1..];
    if k: nat :| k < |a| && k < |b| && a[..k] == b[..k] && a[k] < b[k] {
      assert k > 0;
      assert a[1..][..k - 1] == a[..k][1..] && b[1..][..k - 1] == b[..k][1..];
      assert a[1..][k - 1] < b[1..][k - 1];
    }
    if k: nat :| k < |a[1..]| && k < |b[1..]| && a[1..][..k] == b[1..][..k] && a[1..][k] < b[1..][k] {
      assert a[..k + 1] == [a[0]] + a[1..][..k] && b[..k + 1] == [b[0]] + b[1..][..k];
      assert a[k + 1] < b[k + 1];
    }
  }

  predicate Shown(latencies: Latencies, s: seq<string>) {
    forall i, j | 0 <= i < j < |s| :: s[i] != s[j] && CompareConfigNames(true, latencies, s[i], s[j]) == -1
  }

  /** The configuration list as the loader leaves it: sorted by name, no duplicate, no empty name. */
  predicate Loaded(names: seq<string>) {
    "" !in names && forall i, j | 0 <= i < j < |names| :: StringLess(names[i], names[j])
  }

  /** Two arrangements of the same names in the comparator's order are the same. */
  lemma {:induction false} ArrangementIsUnique(latencies: Latencies, s: seq<string>, t: seq<string>)
    requires Shown(latencies, s) && Shown(latencies, t)
    requires forall x :: x in s <==> x in t
    requires "" !in s
    ensures s == t
  {
    BothEmpty(s, t);
    if s != [] {
      SameFirst(latencies, s, t);
      forall x
        ensures x in s[1..] <==> x in t[1..]
      {
        Without(s, x);
        Without(t, x);
      }
      ArrangementIsUnique(latencies, s[1..], t[1..]);
      assert s == [s[0]] + s[1..] && t == [t[0]] + t[1..];
    }
  }

  lemma BothEmpty(s: seq<string>, t: seq<string>)
    requires forall x :: x in s <==> x in t
    ensures s == [] <==> t == []
  {
    assert s != [] ==> s[0] in s;
    assert t != [] ==> t[0] in t;
  }

  lemma SameFirst(latencies: Latencies, s: seq<string>, t: seq<string>)
    requires s != [] && t != [] && Shown(latencies, s) && Shown(latencies, t) && s[0] in t && t[0] in s && "" !in s
    ensures s[0] == t[0]
  {
    if s[0] != t[0] {
      var i :| 0 < i < |s| && s[i] == t[0];
      var j :| 0 < j < |t| && t[j] == s[0];
      assert CompareConfigNames(true, latencies, s[0], s[i]) == -1;
      assert CompareConfigNames(true, latencies, t[0], t[j]) == -1;
      ComparatorIsAntisymmetric(true, latencies, s[0], t[0]);
      assert false;
    }
  }

  lemma Without(s: seq<string>, x: string)
    requires s != [] && forall i, j | 0 <= i < j < |s| :: s[i] != s[j]
    ensures x in s[1..] <==> x in s && x != s[0]
  {
    if x in s && x != s[0] {
      var i :| 0 <= i < |s| && s[i] == x;
      assert s[1..][i - 1] == x;
    }
  }

  /** The names of a list that are not measured failures. */
  function Reachable(latencies: Latencies, s: seq<string>): (r: seq<string>)
    ensures forall x :: x in r <==> x in s && !Dropped(latencies, true, x)
  {
    if s == [] then []
    else (if Dropped(latencies, true, s[0]) then [] else [s[0]]) + Reachable(latencies, s[1..])
  }

  lemma {:induction false} ReachableKeepsOrder(latencies: Latencies, s: seq<string>)
    requires Shown(latencies, s)
    ensures Shown(latencies, Reachable(latencies, s))
  {
    if s != [] {
      ReachableKeepsOrder(latencies, s[1..]);
      forall x | x in Reachable(latencies, s[1..])
        ensures s[0] != x && CompareConfigNames(true, latencies, s[0], x) == -1
      {
        var i :| 0 <= i < |s[1..]| && s[1..][i] == x;
        assert s[i + 1] == x;
      }
    }
  }

  lemma {:induction false} NonEmptyIdentity(names: seq<string>)
    requires "" !in names
    ensures NonEmpty(names) == names
  {
    if names != [] {
      NonEmptyIdentity(names[1..]);
      assert names == [names[0]] + names[1..];
    }
  }

  lemma PositionOrderIsNameOrder(names: seq<string>, x: nat, y: nat)
    requires Loaded(names) && x < |names| && y < |names|
    ensures x < y <==> StringLess(names[x], names[y])
    ensures names[x] == names[y] <==> x == y
    ensures names[x] != "" && names[y] != ""
  {
    StringLessTotal(names[x], names[y]);
    assert names[x] in names && names[y] in names;
  }

  /** On a loaded list the sort key of the queue is the comparator of the window. */
  lemma TriedBeforeIsShownBefore(names: seq<string>, latencies: Latencies, x: nat, y: nat)
    requires Loaded(names) && x < |names| && y < |names| && x != y
    ensures TriedBefore(names, latencies, x, y) <==> CompareConfigNames(true, latencies, names[x], names[y]) == -1
  {
    PositionOrderIsNameOrder(names, x, y);
    StringLessTotal(names[x], names[y]);
  }

  lemma RankedIsShown(names: seq<string>, latencies: Latencies, skip: bool)
    requires Loaded(names)
    ensures var r := Names(Ranked(names, latencies, skip));
            && Shown(latencies, r)
            && forall x :: x in r <==> x in names && !Dropped(latencies, skip, x)
  {
    var ranked := Ranked(names, latencies, skip);
    var r := Names(ranked);
    RankedPositions(names, latencies, skip);
    forall i, j | 0 <= i < j < |r|
      ensures r[i] != r[j] && CompareConfigNames(true, latencies, r[i], r[j]) == -1
    {
      PositionOrderIsNameOrder(names, ranked[i].position, ranked[j].position);
      TriedBeforeIsShownBefore(names, latencies, ranked[i].position, ranked[j].position);
    }
    forall x
      ensures x in r <==> x in names && !Dropped(latencies, skip, x)
    {
      if x in r {
        var i :| 0 <= i < |r| && r[i] == x;
        assert ranked[i].position in EligiblePositions(names, latencies, skip);
      }
      if x in names && !Dropped(latencies, skip, x) {
        var p :| 0 <= p < |names| && names[p] == x;
        assert p in EligiblePositions(names, latencies, skip);
        var i :| 0 <= i < |ranked| && ranked[i] == Entry(p, x);
        assert r[i] == x;
      }
    }
  }

  /** Every loaded list has an arrangement in the comparator's order. */
  lemma DisplayExists(names: seq<string>, latencies: Latencies)
    requires Loaded(names)
    ensures exists shown :: Shown(latencies, shown) && forall x :: x in shown <==> x in names
  {
    RankedIsShown(names, latencies, false);
    var shown := Names(Ranked(names, latencies, false));
    assert forall x :: x in shown <==> x in names;
  }

  lemma LoadedIsShown(names: seq<string>, latencies: Latencies)
    requires Loaded(names) && forall x | x in names :: Rtt(latencies, x).None?
    ensures Shown(latencies, names)
  {
    forall i, j | 0 <= i < j < |names|
      ensures names[i] != names[j] && CompareConfigNames(true, latencies, names[i], names[j]) == -1
    {
      PositionOrderIsNameOrder(names, i, j);
      StringLessTotal(names[i], names[j]);
    }
  }

  /**
    The queue is a prefix of what the window shows. `shown` is the list widget's content
    when sorting by speed: the loaded names arranged by the comparator. The queue is that
    list without the measured failures, or the whole list when nothing would remain, cut
    at the cap.
   */
  lemma QueueRefinesDisplay(names: seq<string>, latencies: Latencies, shown: seq<string>, max: int)
    requires Loaded(names)
    requires Shown(latencies, shown) && forall x :: x in shown <==> x in names
    ensures var reachable := Reachable(latencies, shown);
            BuildQueue(names, latencies, true, max) == Take(if reachable == [] then shown else reachable, Limit(max))
  {
    NonEmptyIdentity(names);
    RankedIsShown(names, latencies, true);
    ReachableKeepsOrder(latencies, shown);
    var reachable := Reachable(latencies, shown);
    var ranked := Names(Ranked(names, latencies, true));
    ArrangementIsUnique(latencies, ranked, reachable);
    if reachable == [] {
      forall x | x in names
        ensures Rtt(latencies, x).None?
      {
        assert x in reachable <==> x in shown && !Dropped(latencies, true, x);
      }
      LoadedIsShown(names, latencies);
      ArrangementIsUnique(latencies, names, shown);
    }
    assert Names(Take(Ranked(names, latencies, true), Limit(max))) == Take(ranked, Limit(max));
  }
}
