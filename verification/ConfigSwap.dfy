/**
  Replacing the configuration directory by a downloaded one: staging, two renames, and three
  removals that may stop half-way. Renames behave as `rename()` of POSIX.1-2017: a directory
  can replace only a missing or an empty one, and a rename that fails changes nothing.
 */
module ConfigSwap {
  import opened Prelude

  type Tree = map<string, string>

  datatype Dir = Absent | Present(tree: Tree)

  datatype Disk = Disk(configs: Dir, staging: Dir, backup: Dir)

  /** A removal that ignores errors: `None` removes everything, `Some(kept)` leaves those files. */
  type Removal = Option<set<string>>

  datatype Answers = Answers(
    clearStaging: Removal,
    written: Tree,
    downloadRaises: bool,
    clearBackup: Removal,
    firstRename: bool,
    secondRename: bool,
    dropBackup: Removal,
    cleanup: Removal)

  function RemoveTree(d: Dir, r: Removal): Dir {
    if d.Absent? || r.None? then Absent else Present(map f | f in d.tree && f in r.value :: d.tree[f])
  }

  /** The download writes its files over what the directory still holds. */
  function Overlay(d: Dir, files: Tree): Tree {
    if d.Absent? then files else d.tree + files
  }

  // ----- The states that one run goes through -----

  function Cleared(d: Disk, a: Answers): Disk {
    d.(staging := RemoveTree(d.staging, a.clearStaging))
  }

  function Downloaded(d: Disk, a: Answers): Disk {
    Cleared(d, a).(staging := Present(Overlay(Cleared(d, a).staging, a.written)))
  }

  function Ready(d: Disk, a: Answers): Disk {
    Downloaded(d, a).(backup := RemoveTree(d.backup, a.clearBackup))
  }

  /** The first rename is skipped when there is nothing to move away. */
  predicate MovesAway(d: Disk, a: Answers) {
    d.configs.Absent? || (a.firstRename && (Ready(d, a).backup.Absent? || Ready(d, a).backup.tree == map[]))
  }

  function MovedAway(d: Disk, a: Answers): Disk {
    if d.configs.Absent? then Ready(d, a) else Ready(d, a).(configs := Absent, backup := d.configs)
  }

  function MovedIn(d: Disk, a: Answers): Disk {
    MovedAway(d, a).(configs := Downloaded(d, a).staging, staging := Absent)
  }

  function Done(d: Disk, a: Answers): Disk {
    MovedIn(d, a).(backup := RemoveTree(MovedIn(d, a).backup, a.dropBackup))
  }

  function GiveUp(d: Disk, a: Answers): Disk {
    d.(staging := RemoveTree(d.staging, a.cleanup))
  }

  /** The states once the download is complete. */
  function SwapTrace(d: Disk, a: Answers): seq<Disk> {
    [Ready(d, a)] +
    if !MovesAway(d, a) then [GiveUp(Ready(d, a), a)]
    else [MovedAway(d, a)] +
         if !a.secondRename then [GiveUp(MovedAway(d, a), a)]
         else [MovedIn(d, a), Done(d, a)]
  }

  /** Every state after each step of a run, in order; the last one is the result. */
  function Trace(d: Disk, a: Answers): (t: seq<Disk>)
    ensures t != []
  {
    [Cleared(d, a), Downloaded(d, a)] + if a.downloadRaises then [GiveUp(Downloaded(d, a), a)] else SwapTrace(d, a)
  }

  function Result(d: Disk, a: Answers): Disk {
    Last(Trace(d, a))
  }

  predicate Succeeds(d: Disk, a: Answers) {
    !a.downloadRaises && MovesAway(d, a) && a.secondRename
  }

  // ----- The swap as a program -----

  class ConfigDirectory {
    var configs: Dir
    var staging: Dir
    var backup: Dir
    ghost var trace: seq<Disk>

    constructor (configs: Dir, staging: Dir, backup: Dir)
      ensures View() == Disk(configs, staging, backup) && trace == []
    {
      this.configs, this.staging, this.backup, trace := configs, staging, backup, [];
    }

    ghost function View(): Disk
      reads this
    {
      Disk(configs, staging, backup)
    }

    /** Whatever happens, the run leaves the disk through exactly the states of the trace. */
    method Dispatch(a: Answers)
      modifies this
      ensures trace == Trace(old(View()), a) && View() == Result(old(View()), a)
    {
      ghost var d := View();
      trace := [];
      FillStaging(a);
      hide Cleared, Downloaded, Ready, MovesAway, MovedAway, MovedIn, Done, GiveUp, View;
      if a.downloadRaises {
        GiveUpRun(a);
      } else {
        Swap(a, d);
      }
    }

    method FillStaging(a: Answers)
      modifies this
      ensures View() == Downloaded(old(View()), a)
      ensures trace == old(trace) + [Cleared(old(View()), a), Downloaded(old(View()), a)]
    {
      hide RemoveTree, Overlay;
      staging := RemoveTree(staging, a.clearStaging);
      trace := trace + [View()];
      staging := Present(Overlay(staging, a.written));
      trace := trace + [View()];
    }

    /** The two renames, for the disk `d` that the run started with. */
    method Swap(a: Answers, ghost d: Disk)
      requires View() == Downloaded(d, a) && d.configs == configs
      modifies this
      ensures trace == old(trace) + SwapTrace(d, a) && View() == Last(SwapTrace(d, a))
    {
      hide RemoveTree, Overlay;
      backup := RemoveTree(backup, a.clearBackup);
      assert View() == Ready(d, a);
      trace := trace + [View()];
      if configs.Present? {
        if !a.firstRename || (backup.Present? && backup.tree != map[]) {
          GiveUpRun(a);
          return;
        }
        configs, backup := Absent, configs;
      }
      assert View() == MovedAway(d, a) && MovesAway(d, a);
      MoveIn(a, d);
    }

    method MoveIn(a: Answers, ghost d: Disk)
      requires View() == MovedAway(d, a) && staging == Downloaded(d, a).staging
      modifies this
      ensures trace == old(trace) + [MovedAway(d, a)] + if a.secondRename then [MovedIn(d, a), Done(d, a)] else [GiveUp(MovedAway(d, a), a)]
      ensures View() == Last(trace)
    {
      hide RemoveTree, Overlay;
      trace := trace + [View()];
      if !a.secondRename {
        GiveUpRun(a);
        return;
      }
      configs, staging := staging, Absent;
      trace := trace + [View()];
      backup := RemoveTree(backup, a.dropBackup);
      trace := trace + [View()];
    }

    method GiveUpRun(a: Answers)
      modifies this
      ensures View() == GiveUp(old(View()), a) && trace == old(trace) + [View()]
    {
      staging := RemoveTree(staging, a.cleanup);
      trace := trace + [View()];
    }
  }

  // ----- What a run keeps -----

  /** `p` is whole in the directory or in the backup, or the new set is whole in the directory. */
  predicate Safe(d: Disk, p: Tree, newSet: Dir) {
    d.configs == Present(p) || d.backup == Present(p) || d.configs == newSet
  }

  lemma EveryStateSafe(d: Disk, a: Answers, k: nat)
    requires d.configs.Present? && k < |Trace(d, a)|
    ensures Safe(Trace(d, a)[k], d.configs.tree, Downloaded(d, a).staging)
  {
    hide RemoveTree, Overlay;
  }

  /** The answers under which everything works except the second rename. */
  function SecondRenameFails(files: Tree): Answers {
    Answers(None, files, false, None, true, false, None, None)
  }

  /**
    A configuration set survives every failure of one run, or is replaced by a whole new one,
    exactly when it is in place when the run starts. A set that is only in the backup is not
    protected.
   */
  lemma SwapIsSafeExactly(d: Disk, p: Tree)
    ensures (forall a: Answers, k: nat | k < |Trace(d, a)| :: Safe(Trace(d, a)[k], p, Downloaded(d, a).staging))
            <==> d.configs == Present(p)
  {
    if d.configs == Present(p) {
      forall a: Answers, k: nat | k < |Trace(d, a)|
        ensures Safe(Trace(d, a)[k], p, Downloaded(d, a).staging)
      {
        EveryStateSafe(d, a, k);
      }
    } else {
      var a := SecondRenameFails(map[]);
      var t := Trace(d, a);
      assert Last(t) == GiveUp(MovedAway(d, a), a);
      assert !Safe(t[|t| - 1], p, Downloaded(d, a).staging);
    }
  }

  /** A download that raises touches neither the configurations nor the backup, at any point. */
  lemma FailedDownloadTouchesNothing(d: Disk, a: Answers, k: nat)
    requires a.downloadRaises && k < |Trace(d, a)|
    ensures Trace(d, a)[k].configs == d.configs && Trace(d, a)[k].backup == d.backup
  {
    hide RemoveTree, Overlay;
  }

  /**
    How a run can end: with the new set in place exactly when it succeeds, otherwise with the
    old one untouched, except that a failed second rename leaves no directory and the old set
    in the backup.
   */
  lemma HowItEnds(d: Disk, a: Answers)
    ensures var r := Result(d, a);
            && (Succeeds(d, a) ==> r.configs == Downloaded(d, a).staging && r.staging == Absent)
            && (!Succeeds(d, a) && (a.downloadRaises || !MovesAway(d, a)) ==> r.configs == d.configs)
            && (!Succeeds(d, a) && !a.downloadRaises && MovesAway(d, a) ==>
                  r.configs == Absent && (d.configs.Present? ==> r.backup == d.configs))
  {
    hide RemoveTree, Overlay;
  }

  /** When a run succeeds: the download does, and both renames, of which the first is not needed when nothing is in place and needs an empty backup. */
  lemma SucceedsExactly(d: Disk, a: Answers)
    ensures Succeeds(d, a) <==>
              && !a.downloadRaises && a.secondRename
              && (|| d.configs == Absent
                  || (a.firstRename && (d.backup == Absent || a.clearBackup == None || forall f | f in d.backup.tree :: f !in a.clearBackup.value)))
  {
    if d.backup.Present? && a.clearBackup.Some? {
      var left := RemoveTree(d.backup, a.clearBackup).tree;
      assert left == map[] <==> forall f | f in d.backup.tree :: f !in a.clearBackup.value by {
        if left != map[] {
          var f :| f in left;
        }
        if f :| f in d.backup.tree && f in a.clearBackup.value {
          assert f in left;
        }
      }
    }
  }

  /** The new set is what was downloaded, over what an earlier run left and could not be removed. */
  lemma NewSetExactly(d: Disk, a: Answers, f: string)
    ensures var n := Downloaded(d, a).staging;
            && n.Present?
            && (f in a.written ==> f in n.tree && n.tree[f] == a.written[f])
            && (f !in a.written ==>
                  (f in n.tree <==> d.staging.Present? && f in d.staging.tree && a.clearStaging.Some? && f in a.clearStaging.value)
                  && (f in n.tree ==> n.tree[f] == d.staging.tree[f]))
  {
  }

  /** A run that does not succeed removes what it has staged. */
  lemma FailureCleansUp(d: Disk, a: Answers)
    requires !Succeeds(d, a) && a.cleanup.None?
    ensures Result(d, a).staging == Absent
  {
    hide RemoveTree, Overlay, MovesAway, Cleared;
    assert forall x: Disk :: GiveUp(x, a).staging == RemoveTree(x.staging, None);
    NothingLeft();
  }

  lemma NothingLeft()
    ensures forall x: Dir :: RemoveTree(x, None) == Absent
  {
  }

  /** With removals that work, the new directory is exactly what was downloaded and no other copy is left. */
  lemma CleanSwap(d: Disk, a: Answers)
    requires Succeeds(d, a) && a.clearStaging.None? && a.dropBackup.None?
    ensures Result(d, a) == Disk(Present(a.written), Absent, Absent)
  {
  }

  /**
    What happens to a set that an earlier run left in the backup only: a run that does not put
    a new set in place keeps it exactly when its download raises or the backup cannot be removed.
   */
  lemma BackupOnlyRun(d: Disk, a: Answers)
    requires d.configs.Absent? && d.backup.Present? && !Succeeds(d, a)
    ensures Result(d, a).configs == Absent
    ensures Result(d, a).backup == d.backup <==> a.downloadRaises || RemoveTree(d.backup, a.clearBackup) == d.backup
  {
    hide RemoveTree, Overlay;
  }

  /** Two runs can lose the set: after a failed second rename it is only in the backup, which the next run removes. */
  lemma TwoRunsCanLose(p: Tree, files: Tree)
    requires p != files
    ensures var a := SecondRenameFails(files);
            var one := Result(Disk(Present(p), Absent, Absent), a);
            && one == Disk(Absent, Absent, Present(p))
            && Result(one, a) == Disk(Absent, Absent, Absent)
  {
    var a := SecondRenameFails(files);
    var one := Disk(Absent, Absent, Present(p));
    assert Result(Disk(Present(p), Absent, Absent), a) == one;
    assert Result(one, a) == GiveUp(MovedAway(one, a), a);
  }

  // ----- Any number of runs -----

  /** `p` is the set in use: in place, or alone in the backup after a failed second rename. */
  predicate Kept(d: Disk, p: Tree) {
    d.configs == Present(p) || (d.configs.Absent? && d.backup == Present(p))
  }

  /** The set in use after a run: the downloaded one if it was put in place. */
  function InUse(d: Disk, p: Tree, a: Answers): Tree {
    if Succeeds(d, a) then Overlay(Cleared(d, a).staging, a.written) else p
  }

  /** A run that finds the set in the backup only, damages the backup and then fails to put the new one in place. */
  predicate Loses(d: Disk, a: Answers) {
    d.configs.Absent? && !a.downloadRaises && !a.secondRename && RemoveTree(d.backup, a.clearBackup) != d.backup
  }

  lemma RunKeepsExactly(d: Disk, p: Tree, a: Answers)
    requires Kept(d, p)
    ensures Kept(Result(d, a), InUse(d, p, a)) <==> !Loses(d, a)
  {
    hide RemoveTree, Overlay;
    if d.configs.Absent? && !Succeeds(d, a) {
      BackupOnlyRun(d, a);
    } else {
      HowItEnds(d, a);
    }
    hide Trace;
  }

  ghost predicate KeptThroughout(d: Disk, p: Tree, runs: seq<Answers>)
    decreases |runs|
  {
    Kept(d, p) && (runs != [] ==> KeptThroughout(Result(d, runs[0]), InUse(d, p, runs[0]), runs[1..]))
  }

  ghost predicate NoneLoses(d: Disk, runs: seq<Answers>)
    decreases |runs|
  {
    runs != [] ==> !Loses(d, runs[0]) && NoneLoses(Result(d, runs[0]), runs[1..])
  }

  /** Over any number of runs the set in use survives throughout exactly when no run is one that loses it. */
  lemma {:induction false} RunsKeepExactly(d: Disk, p: Tree, runs: seq<Answers>)
    requires Kept(d, p)
    ensures KeptThroughout(d, p, runs) <==> NoneLoses(d, runs)
    decreases |runs|
  {
    hide Result, InUse, Loses, Kept;
    if runs != [] {
      RunKeepsExactly(d, p, runs[0]);
      if !Loses(d, runs[0]) {
        RunsKeepExactly(Result(d, runs[0]), InUse(d, p, runs[0]), runs[1..]);
      }
    }
  }
}
