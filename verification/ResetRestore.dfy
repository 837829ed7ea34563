/**
  Resetting everything and restoring it: the settings store with its schema defaults, the
  managed configuration directory, and the private snapshots taken before each step.
 */
module ResetRestore {
  import opened Prelude
  import opened OvpnParser

  // ----- Settings -----

  datatype Value = Bool(b: bool) | Int(i: int) | Double(r: real) | Text(s: string) | Texts(l: seq<string>)

  /** Every key with its schema default. */
  const SCHEMA: map<string, Value> := map[
    "last-connected" := Text(""),
    "last-connected-cursor" := Int(-1),
    "notifications" := Bool(true),
    "manager" := Text("networkmanager"),
    "req-auth" := Bool(false),
    "ca" := Text(""),
    "remote" := Text(""),
    "auth-user" := Text(""),
    "nm-active-uuid" := Text(""),
    "show-flag" := Bool(false),
    "listbox-v-adjust" := Double(0.0),
    "layout" := Text("card-h"),
    "dark-theme" := Bool(false),
    "openvpn3-dco" := Bool(true),
    "auto-reconnect" := Bool(false),
    "language" := Text("en"),
    "favorite-configs" := Texts([])]

  /** Values the user has written; the other keys hold their defaults. */
  type Store = map<string, Value>

  function Stored(user: Store, key: string): Value
    requires key in SCHEMA
  {
    if key in user then user[key] else SCHEMA[key]
  }

  /** An empty string and the legacy sentinel both read as "not set". */
  function Reading(v: Value): Option<Value> {
    if v == Text("") || v == Text("null") then None else Some(v)
  }

  function GetSetting(user: Store, key: string): Option<Value>
    requires key in SCHEMA
  {
    Reading(Stored(user, key))
  }

  /** Writing "not set" goes back to the default. */
  function SetSetting(user: Store, key: string, value: Option<Value>): Store {
    match value
    case None => user - {key}
    case Some(v) => user[key := v]
  }

  type Manifest = map<string, Option<Value>>

  function Observed(user: Store): Manifest {
    map key | key in SCHEMA :: GetSetting(user, key)
  }

  // ----- Directories and snapshots -----

  type Tree = map<string, string>

  /** The managed directory; a missing one and an empty one show the same configurations. */
  type Directory = Option<Tree>

  datatype Snapshot = Snapshot(time: int, settings: Manifest, config: Directory)

  /** What lies beside the managed directory: snapshots, broken ones, links, other things. */
  datatype Item = Valid(snapshot: Snapshot) | Other

  datatype System = System(user: Store, config: Directory, parent: map<string, Item>)

  const PREFIX: string := "reset-backup-"

  predicate IsCandidate(parent: map<string, Item>, name: string) {
    name in parent && PREFIX <= name && parent[name].Valid?
  }

  predicate IsLatest(parent: map<string, Item>, name: string) {
    IsCandidate(parent, name) &&
    forall other | other in parent && IsCandidate(parent, other) :: parent[other].snapshot.time <= parent[name].snapshot.time
  }

  /** `latest_reset_backup`: of the valid snapshots one with the largest time, None exactly when there is none. */
  method LatestResetBackup(parent: map<string, Item>) returns (latest: Option<string>)
    ensures latest.Some? ==> IsLatest(parent, latest.value)
    ensures latest.None? ==> forall name | name in parent :: !IsCandidate(parent, name)
  {
    latest := None;
    var rest := parent.Keys;
    while rest != {}
      invariant rest <= parent.Keys
      invariant latest.Some? ==> IsCandidate(parent, latest.value)
      invariant forall name | name in parent && name !in rest && IsCandidate(parent, name) ::
                  latest.Some? && parent[name].snapshot.time <= parent[latest.value].snapshot.time
    {
      var name :| name in rest;
      rest := rest - {name};
      if IsCandidate(parent, name) &&
         (latest.None? || parent[name].snapshot.time > parent[latest.value].snapshot.time) {
        latest := Some(name);
      }
    }
  }

  // ----- A free name -----

  /** The stem itself, then the stem with -1, -2, ... */
  function BackupName(stem: string, k: nat): string {
    if k == 0 then stem else stem + "-" + Decimal(k)
  }

  lemma BackupNamesDiffer(stem: string, j: nat, k: nat)
    requires BackupName(stem, j) == BackupName(stem, k)
    ensures j == k
  {
    var tail := |stem| + 1;
    if j > 0 && k > 0 {
      assert BackupName(stem, j)[tail..] == Decimal(j);
      assert BackupName(stem, k)[tail..] == Decimal(k);
      DecimalReadsBack(j);
      DecimalReadsBack(k);
    }
  }

  function NamesBelow(stem: string, n: nat): set<string> {
    if n == 0 then {} else NamesBelow(stem, n - 1) + {BackupName(stem, n - 1)}
  }

  lemma {:induction false} NamesBelowCount(stem: string, n: nat)
    ensures |NamesBelow(stem, n)| == n
    ensures forall x | x in NamesBelow(stem, n) :: exists k | 0 <= k < n :: x == BackupName(stem, k)
  {
    if n > 0 {
      NamesBelowCount(stem, n - 1);
      if BackupName(stem, n - 1) in NamesBelow(stem, n - 1) {
        var k :| 0 <= k < n - 1 && BackupName(stem, n - 1) == BackupName(stem, k);
        BackupNamesDiffer(stem, n - 1, k);
      }
    }
  }

  lemma SubsetCount<T>(a: set<T>, b: set<T>)
    requires a <= b
    ensures |a| <= |b|
  {
    assert b == a + (b - a);
  }

  /** The search for a name that is not taken ends, because only finitely many are, with the first free one. */
  method FreeName(stem: string, taken: set<string>) returns (name: string, suffix: nat)
    ensures name !in taken && name == if suffix == 0 then stem else stem + "-" + Decimal(suffix)
    ensures forall k | 0 <= k < suffix :: BackupName(stem, k) in taken
  {
    name, suffix := stem, 0;
    AllTaken(stem, 0, taken);
    while name in taken
      invariant name == BackupName(stem, suffix)
      invariant forall k | 0 <= k < suffix :: BackupName(stem, k) in taken
      invariant suffix <= |taken|
      decreases |taken| - suffix
    {
      suffix := suffix + 1;
      AllTaken(stem, suffix, taken);
      name := stem + "-" + Decimal(suffix);
    }
  }

  /** No more names of the series can be taken than there are names taken. */
  lemma AllTaken(stem: string, n: nat, taken: set<string>)
    requires forall k | 0 <= k < n :: BackupName(stem, k) in taken
    ensures n <= |taken|
  {
    NamesBelowCount(stem, n);
    hide BackupName, NamesBelow;
    assert NamesBelow(stem, n) <= taken;
    SubsetCount(NamesBelow(stem, n), taken);
  }

  // ----- Reset and restore -----

  /** What a user sees: the settings as they read, and the configurations. */
  datatype Seen = Seen(settings: Manifest, configurations: Tree)

  function See(s: System): Seen {
    Seen(Observed(s.user), s.config.GetOr(map[]))
  }

  function Snap(s: System, time: int): Snapshot {
    Snapshot(time, Observed(s.user), s.config)
  }

  function Backed(s: System, name: string, time: int): System {
    s.(parent := s.parent[name := Valid(Snap(s, time))])
  }

  function UserOf(settings: Manifest): Store {
    map key | key in settings && key in SCHEMA && settings[key].Some? :: settings[key].value
  }

  function Reset(s: System, name: string, time: int): System {
    Backed(s, name, time).(user := map[], config := Some(map[]))
  }

  function RestoreFrom(s: System, b: Snapshot, name: string, time: int): System {
    Backed(s, name, time).(user := UserOf(b.settings), config := Some(b.config.GetOr(map[])))
  }

  /** What can stop a restore after the safety snapshot: the manifest, or the copy, which then keeps some files. */
  datatype Fault = NoFault | ManifestUnusable | CopyStops(kept: set<string>)

  function FailedRestore(s: System, b: Snapshot, name: string, time: int, fault: Fault): System
    requires !fault.NoFault?
  {
    var k := Backed(s, name, time);
    match fault
    case ManifestUnusable => k
    case CopyStops(kept) => k.(config := Some(map f | f in b.config.GetOr(map[]) && f in kept :: b.config.GetOr(map[])[f]))
  }

  /** A new snapshot gets a free name with the prefix and a time after all others. */
  predicate Newest(s: System, name: string, time: int) {
    && name !in s.parent && PREFIX <= name
    && forall other | other in s.parent && s.parent[other].Valid? :: s.parent[other].snapshot.time < time
  }

  /** What lay beside the directory is as it was, and one new snapshot holds what could be seen before. */
  ghost predicate KeptPlus(before: System, after: System, name: string, time: int) {
    && name !in before.parent && after.parent.Keys == before.parent.Keys + {name}
    && (forall other | other in before.parent :: after.parent[other] == before.parent[other])
    && after.parent[name].Valid?
    && var b := after.parent[name].snapshot;
       && b.time == time && b.config == before.config && b.settings.Keys == SCHEMA.Keys
       && forall key | key in SCHEMA :: b.settings[key] == GetSetting(before.user, key)
  }

  /** Everything is gone: no configuration is left and every key reads as its default does. */
  ghost predicate Wiped(after: System) {
    && after.config == Some(map[])
    && forall key | key in SCHEMA :: GetSetting(after.user, key) == Reading(SCHEMA[key])
  }

  /** The configurations and readings are those of the snapshot; what it does not set reads as the default. */
  ghost predicate Holds(after: System, b: Snapshot) {
    && after.config == Some(if b.config.Some? then b.config.value else map[])
    && forall key | key in SCHEMA ::
         GetSetting(after.user, key) ==
         if key in b.settings && b.settings[key].Some? then Reading(b.settings[key].value) else Reading(SCHEMA[key])
  }

  /** The settings are as they were, and the directory holds nothing but some of the snapshot's files, or is as it was. */
  ghost predicate StoppedShort(before: System, after: System, b: Snapshot, fault: Fault) {
    && after.user == before.user
    && match fault
       case CopyStops(kept) =>
         var tree := if b.config.Some? then b.config.value else map[];
         && after.config.Some?
         && forall f :: (f in after.config.value <==> f in kept && f in tree)
                        && (f in after.config.value ==> after.config.value[f] == tree[f])
       case _ => after.config == before.config
  }

  lemma BackedKeeps(s: System, n: System, name: string, time: int)
    requires name !in s.parent && n.parent == Backed(s, name, time).parent
    ensures KeptPlus(s, n, name, time)
  {
    hide SCHEMA;
  }

  lemma ResetWipes(s: System, name: string, time: int)
    requires name !in s.parent
    ensures Wiped(Reset(s, name, time)) && KeptPlus(s, Reset(s, name, time), name, time)
  {
    BackedKeeps(s, Reset(s, name, time), name, time);
    hide SCHEMA, KeptPlus;
  }

  lemma RestoreHolds(s: System, b: Snapshot, name: string, time: int)
    requires name !in s.parent
    ensures Holds(RestoreFrom(s, b, name, time), b) && KeptPlus(s, RestoreFrom(s, b, name, time), name, time)
  {
    BackedKeeps(s, RestoreFrom(s, b, name, time), name, time);
    hide SCHEMA, KeptPlus;
  }

  lemma FaultStops(s: System, b: Snapshot, name: string, time: int, fault: Fault)
    requires name !in s.parent && !fault.NoFault?
    ensures StoppedShort(s, FailedRestore(s, b, name, time, fault), b, fault)
    ensures KeptPlus(s, FailedRestore(s, b, name, time, fault), name, time)
  {
    BackedKeeps(s, FailedRestore(s, b, name, time, fault), name, time);
    hide SCHEMA, KeptPlus, Observed;
  }

  /** A key that is written reads as what was written, one that is unset as its default; no other key changes. */
  lemma WrittenReads(user: Store, key: string, value: Option<Value>, other: string)
    requires key in SCHEMA && other in SCHEMA
    ensures value.Some? && value.value != Text("") && value.value != Text("null") ==> GetSetting(SetSetting(user, key, value), key) == value
    ensures value.Some? && (value.value == Text("") || value.value == Text("null")) ==> GetSetting(SetSetting(user, key, value), key) == None
    ensures value.None? ==> GetSetting(SetSetting(user, key, value), key) == GetSetting(map[], key)
    ensures other != key ==> GetSetting(SetSetting(user, key, value), other) == GetSetting(user, other)
  {
    hide SCHEMA;
  }

  /** There are seventeen keys. */
  lemma AllKeys()
    ensures SCHEMA.Keys == {"last-connected", "last-connected-cursor", "notifications", "manager", "req-auth", "ca", "remote", "auth-user",
                            "nm-active-uuid", "show-flag", "listbox-v-adjust", "layout", "dark-theme", "openvpn3-dco", "auto-reconnect",
                            "language", "favorite-configs"}
  {
  }

  lemma DefaultOf(key: string)
    requires key in SCHEMA
    ensures GetSetting(map[], key) == Reading(SCHEMA[key])
  {
    hide SCHEMA;
  }

  /** What the three texts with a default read when nothing has been written; no other text is set. */
  lemma DefaultTexts(key: string)
    requires key in SCHEMA && SCHEMA[key].Text?
    ensures GetSetting(map[], key) ==
            if key == "manager" then Some(Text("networkmanager")) else if key == "layout" then Some(Text("card-h"))
            else if key == "language" then Some(Text("en")) else None
  {
    DefaultOf(key);
    hide GetSetting;
  }

  /** And the other keys: two switches are on, the cursor is at -1, everything else is off, zero or empty. */
  lemma DefaultOthers(key: string)
    requires key in SCHEMA && !SCHEMA[key].Text?
    ensures GetSetting(map[], key) ==
            if key == "notifications" || key == "openvpn3-dco" then Some(Bool(true))
            else if key == "last-connected-cursor" then Some(Int(-1))
            else if key == "listbox-v-adjust" then Some(Double(0.0))
            else if key == "favorite-configs" then Some(Texts([])) else Some(Bool(false))
  {
    DefaultOf(key);
    hide GetSetting;
  }

  class ResetWorkflow {
    var user: Store
    var config: Directory
    var parent: map<string, Item>

    constructor (user: Store, config: Directory, parent: map<string, Item>)
      requires user.Keys <= SCHEMA.Keys
      ensures View() == System(user, config, parent)
    {
      this.user, this.config, this.parent := user, config, parent;
    }

    function View(): System
      reads this
    {
      System(user, config, parent)
    }

    /** `reset_all_settings`. */
    method ResetAllSettings()
      requires user.Keys <= SCHEMA.Keys
      modifies this`user
      ensures user == map[]
    {
      hide SCHEMA;
      var rest := SCHEMA.Keys;
      while rest != {}
        invariant user.Keys <= rest
      {
        var key :| key in rest;
        rest := rest - {key};
        user := SetSetting(user, key, None);
      }
    }

    /** Writes a manifest into a store that was reset; keys the schema does not have are ignored. */
    method ApplySettings(settings: Manifest)
      requires user == map[]
      modifies this`user
      ensures user == UserOf(settings)
    {
      hide SCHEMA;
      var rest := settings.Keys;
      while rest != {}
        invariant rest <= settings.Keys
        invariant forall key :: key in user <==> key in settings && key !in rest && key in SCHEMA && settings[key].Some?
        invariant forall key | key in user :: user[key] == settings[key].value
      {
        var key :| key in rest;
        rest := rest - {key};
        if key in SCHEMA {
          user := SetSetting(user, key, settings[key]);
        }
      }
    }

    /** `create_reset_backup`: nothing is left of a snapshot that fails. */
    method CreateResetBackup(stem: string, time: int, fails: bool) returns (name: Option<string>)
      requires PREFIX <= stem
      modifies this`parent
      ensures fails <==> name.None?
      ensures fails ==> parent == old(parent)
      ensures !fails ==> PREFIX <= name.value && name.value !in old(parent) && View() == Backed(old(View()), name.value, time)
    {
      var free, suffix := FreeName(stem, parent.Keys);
      if fails {
        return None;
      }
      hide Observed;
      assert PREFIX <= free;
      parent := parent[free := Valid(Snap(View(), time))];
      name := Some(free);
    }

    /** Nothing is reset unless a snapshot could be taken first. */
    method ApplyReset(confirmed: bool, stem: string, time: int, backupFails: bool) returns (name: Option<string>)
      requires PREFIX <= stem && user.Keys <= SCHEMA.Keys
      modifies this
      ensures user.Keys <= SCHEMA.Keys
      ensures name.Some? <==> confirmed && !backupFails
      ensures name.None? ==> View() == old(View())
      ensures name.Some? ==> PREFIX <= name.value && name.value !in old(parent) && View() == Reset(old(View()), name.value, time)
      ensures name.Some? ==> Wiped(View()) && KeptPlus(old(View()), View(), name.value, time)
    {
      hide SCHEMA;
      if !confirmed {
        return None;
      }
      name := CreateResetBackup(stem, time, backupFails);
      if name.None? {
        return;
      }
      ResetAllSettings();
      config := Some(map[]);
      ResetWipes(old(View()), name.value, time);
      hide Wiped, KeptPlus;
    }

    /** Restores the chosen snapshot after taking a safety snapshot of the current state. */
    method ApplyRestore(confirmed: bool, chosen: string, stem: string, time: int, backupFails: bool, fault: Fault)
      returns (safety: Option<string>)
      requires PREFIX <= stem && user.Keys <= SCHEMA.Keys && chosen in parent && parent[chosen].Valid?
      modifies this
      ensures user.Keys <= SCHEMA.Keys
      ensures safety.Some? <==> confirmed && !backupFails
      ensures safety.None? ==> View() == old(View())
      ensures safety.Some? ==> PREFIX <= safety.value && safety.value !in old(parent)
      ensures safety.Some? ==>
                View() == if fault.NoFault? then RestoreFrom(old(View()), old(parent)[chosen].snapshot, safety.value, time)
                          else FailedRestore(old(View()), old(parent)[chosen].snapshot, safety.value, time, fault)
      ensures safety.Some? ==> KeptPlus(old(View()), View(), safety.value, time)
      ensures safety.Some? ==> if fault.NoFault? then Holds(View(), old(parent)[chosen].snapshot)
                               else StoppedShort(old(View()), View(), old(parent)[chosen].snapshot, fault)
    {
      hide SCHEMA, Observed;
      if !confirmed {
        return None;
      }
      hide Wiped, KeptPlus, Holds, StoppedShort;
      ghost var before := View();
      var b := parent[chosen].snapshot;
      safety := CreateResetBackup(stem, time, backupFails);
      if safety.None? {
        return;
      }
      RestoreHolds(before, b, safety.value, time);
      if !fault.NoFault? {
        FaultStops(before, b, safety.value, time, fault);
      }
      if fault.ManifestUnusable? {
        return;
      }
      var tree := b.config.GetOr(map[]);
      if fault.CopyStops? {
        config := Some(map f | f in tree && f in fault.kept :: tree[f]);
        return;
      }
      config := Some(tree);
      ResetAllSettings();
      ApplySettings(b.settings);
    }
  }

  // ----- The undo -----

  /** A key reads the same after its reading has been written back, unless "not set" has a default that reads otherwise. */
  lemma KeyReadsBack(user: Store, key: string)
    requires key in SCHEMA
    ensures GetSetting(UserOf(Observed(user)), key) == GetSetting(user, key)
            <==> !(GetSetting(user, key).None? && Reading(SCHEMA[key]).Some?)
  {
    hide SCHEMA;
  }

  /** Every key that reads as "not set" has a default that does too. */
  predicate Faithful(user: Store) {
    forall key | key in SCHEMA :: GetSetting(user, key).None? ==> Reading(SCHEMA[key]).None?
  }

  lemma SettingsReadBack(user: Store)
    ensures Observed(UserOf(Observed(user))) == Observed(user) <==> Faithful(user)
  {
    forall key | key in SCHEMA
      ensures GetSetting(UserOf(Observed(user)), key) == GetSetting(user, key)
              <==> !(GetSetting(user, key).None? && Reading(SCHEMA[key]).Some?)
    {
      KeyReadsBack(user, key);
    }
    hide SCHEMA, GetSetting, Reading, UserOf;
    var twice := Observed(UserOf(Observed(user)));
    assert twice.Keys == SCHEMA.Keys == Observed(user).Keys;
    if twice == Observed(user) {
      forall key | key in SCHEMA
        ensures GetSetting(user, key).None? ==> Reading(SCHEMA[key]).None?
      {
        assert twice[key] == Observed(user)[key];
      }
    }
  }

  /** What a restore shows depends on the snapshot alone, not on the state it replaces. */
  lemma RestoreShowsSnapshot(s: System, b: Snapshot, name: string, time: int)
    ensures See(RestoreFrom(s, b, name, time)) == Seen(Observed(UserOf(b.settings)), b.config.GetOr(map[]))
  {
  }

  /** The newest snapshot is the latest one. */
  lemma NewestIsLatest(s: System, name: string, time: int, latest: string)
    requires Newest(s, name, time) && IsLatest(Backed(s, name, time).parent, latest)
    ensures latest == name
  {
    var p := Backed(s, name, time).parent;
    hide Observed, SCHEMA;
    assert IsCandidate(p, name);
  }

  /** Reset, then restore of the latest snapshot, shows what was shown before, exactly for faithful settings. */
  lemma ResetThenRestore(s: System, r: string, t: int, n: string, u: int, latest: string)
    requires Newest(s, r, t) && IsLatest(Reset(s, r, t).parent, latest)
    ensures latest == r
    ensures See(RestoreFrom(Reset(s, r, t), Reset(s, r, t).parent[latest].snapshot, n, u)) == See(s) <==> Faithful(s.user)
  {
    NewestIsLatest(s, r, t, latest);
    SettingsReadBack(s.user);
    RestoreShowsSnapshot(Reset(s, r, t), Snap(s, t), n, u);
    hide Observed, SCHEMA, UserOf, Faithful;
  }

  /** Restoring the latest snapshot twice shows what was shown before the first restore. */
  lemma RestoreTwiceToggles(s: System, b: Snapshot, n: string, t: int, m: string, u: int, latest: string)
    requires Newest(s, n, t) && IsLatest(RestoreFrom(s, b, n, t).parent, latest)
    ensures latest == n
    ensures See(RestoreFrom(RestoreFrom(s, b, n, t), RestoreFrom(s, b, n, t).parent[latest].snapshot, m, u)) == See(s)
            <==> Faithful(s.user)
  {
    NewestIsLatest(s, n, t, latest);
    SettingsReadBack(s.user);
    RestoreShowsSnapshot(RestoreFrom(s, b, n, t), Snap(s, t), m, u);
    hide Observed, SCHEMA, UserOf, Faithful;
  }

  /** A restore that stops half-way is undone by restoring its safety snapshot. */
  lemma FailedRestoreIsUndone(s: System, b: Snapshot, n: string, t: int, fault: Fault, m: string, u: int, latest: string)
    requires Newest(s, n, t) && !fault.NoFault? && IsLatest(FailedRestore(s, b, n, t, fault).parent, latest)
    ensures latest == n
    ensures See(RestoreFrom(FailedRestore(s, b, n, t, fault), FailedRestore(s, b, n, t, fault).parent[latest].snapshot, m, u)) == See(s)
            <==> Faithful(s.user)
  {
    NewestIsLatest(s, n, t, latest);
    SettingsReadBack(s.user);
    RestoreShowsSnapshot(FailedRestore(s, b, n, t, fault), Snap(s, t), m, u);
    hide Observed, SCHEMA, UserOf, Faithful;
  }

  /** Reset and restore leave faithful settings behind, so from then on both undo exactly. */
  lemma FaithfulAfterwards(s: System, b: Snapshot, name: string, time: int)
    ensures Faithful(Reset(s, name, time).user)
    ensures (forall key | key in SCHEMA && key in b.settings && b.settings[key].Some? :: Reading(b.settings[key].value).Some?)
            ==> Faithful(RestoreFrom(s, b, name, time).user)
  {
    hide SCHEMA;
  }

  /** Every snapshot taken by the program satisfies the condition of the previous lemma. */
  lemma SnapshotsHoldReadings(s: System, time: int, key: string)
    requires key in SCHEMA
    ensures var m := Snap(s, time).settings;
            key in m && (m[key].Some? ==> Reading(m[key].value) == m[key])
  {
    hide SCHEMA;
  }

  /** The unfaithful state: the backend name was set to the empty string, and reads as the default after the undo. */
  lemma EmptyManagerIsNotRestored()
    ensures !Faithful(map["manager" := Text("")])
    ensures GetSetting(map["manager" := Text("")], "manager") == None
    ensures GetSetting(UserOf(Observed(map["manager" := Text("")])), "manager") == Some(Text("networkmanager"))
  {
    var user: Store := map["manager" := Text("")];
    assert SCHEMA["manager"] == Text("networkmanager");
    hide SCHEMA;
    assert GetSetting(user, "manager") == None;
  }
}
