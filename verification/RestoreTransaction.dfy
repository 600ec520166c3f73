/** Restoring a node backup: safety copy, staged writes, the VERSION commit marker, and the rollback. */
module RestoreTransaction {

  import opened Prelude

  /** Everything a restore may write. `AccountingDb`, `ConfigJson` and `ReissueCsv` live at paths of their own. */
  datatype Slot =
    | StateJson | UsersJson | ConfigToml | Version | OwnerUri | RuntimeOnly | AccountingDb | ConfigJson | ReissueCsv

  type File = Option<string>

  /** One file per slot, or its absence. */
  datatype Tree = Tree(
    state: File, users: File, toml: File, version: File, owner: File, runtime: File, db: File, config: File, csv: File)

  function At(t: Tree, s: Slot): File {
    match s
    case StateJson => t.state
    case UsersJson => t.users
    case ConfigToml => t.toml
    case Version => t.version
    case OwnerUri => t.owner
    case RuntimeOnly => t.runtime
    case AccountingDb => t.db
    case ConfigJson => t.config
    case ReissueCsv => t.csv
  }

  function With(t: Tree, s: Slot, f: File): (r: Tree)
    ensures At(r, s) == f && forall u :: u != s ==> At(r, u) == At(t, u)
  {
    match s
    case StateJson => t.(state := f)
    case UsersJson => t.(users := f)
    case ConfigToml => t.(toml := f)
    case Version => t.(version := f)
    case OwnerUri => t.(owner := f)
    case RuntimeOnly => t.(runtime := f)
    case AccountingDb => t.(db := f)
    case ConfigJson => t.(config := f)
    case ReissueCsv => t.(csv := f)
  }

  lemma SameTree(a: Tree, b: Tree)
    requires forall s :: At(a, s) == At(b, s)
    ensures a == b
  {
    assert At(a, StateJson) == At(b, StateJson) && At(a, UsersJson) == At(b, UsersJson);
    assert At(a, ConfigToml) == At(b, ConfigToml) && At(a, Version) == At(b, Version);
    assert At(a, OwnerUri) == At(b, OwnerUri) && At(a, RuntimeOnly) == At(b, RuntimeOnly);
    assert At(a, AccountingDb) == At(b, AccountingDb) && At(a, ConfigJson) == At(b, ConfigJson);
    assert At(a, ReissueCsv) == At(b, ReissueCsv);
  }

  const CANONICAL: seq<Slot> := [StateJson, UsersJson, ConfigToml, Version, OwnerUri]

  /** `db` and `cfg`: a database path and a config path were given. Optional files are `None` when not planned. */
  datatype Plan = Plan(
    state: string, users: string, toml: string, ownerUri: File, accounting: File, csv: File, config: File,
    version: string, db: bool, cfg: bool, deferVersion: bool)

  /** Where the restore raises. `AtWrite`: writing the slot raises, and the file is in place all the same when
      `landed` (a mode change after the rename). `After`: something raises once the slot is written and noted.
      `AtMarker`, `AfterMarker`: inside commit_restore_version, before and after .runtime-only is removed. */
  datatype Fault = Never | AtWrite(slot: Slot, landed: bool) | After(slot: Slot) | AtMarker | AfterMarker

  /** What the plan says about one slot. */
  function Planned(p: Plan, s: Slot): File {
    match s
    case StateJson => Some(p.state)
    case UsersJson => Some(p.users)
    case ConfigToml => Some(p.toml)
    case OwnerUri => p.ownerUri
    case AccountingDb => if p.db then p.accounting else None
    case ReissueCsv => p.csv
    case ConfigJson => if p.cfg then p.config else None
    case Version => None
    case RuntimeOnly => None
  }

  /** The commit marker's promise: VERSION present implies all planned files in place. */
  ghost predicate Guarded(t: Tree, p: Plan) {
    t.version.Some? ==> forall s :: Planned(p, s).Some? ==> At(t, s) == Planned(p, s)
  }

  /** Every planned file in place, path by path. */
  predicate AllInPlace(t: Tree, p: Plan) {
    && t.state == Some(p.state) && t.users == Some(p.users) && t.toml == Some(p.toml)
    && (p.ownerUri.Some? ==> t.owner == p.ownerUri)
    && (p.csv.Some? ==> t.csv == p.csv)
    && (p.db && p.accounting.Some? ==> t.db == p.accounting)
    && (p.cfg && p.config.Some? ==> t.config == p.config)
  }

  lemma GuardedInFields(t: Tree, p: Plan)
    ensures Guarded(t, p) <==> (t.version.Some? ==> AllInPlace(t, p))
  {
    assert Planned(p, StateJson) == Some(p.state) && At(t, StateJson) == t.state;
    assert Planned(p, UsersJson) == Some(p.users) && At(t, UsersJson) == t.users;
    assert Planned(p, ConfigToml) == Some(p.toml) && At(t, ConfigToml) == t.toml;
    assert Planned(p, OwnerUri) == p.ownerUri && At(t, OwnerUri) == t.owner;
    assert Planned(p, ReissueCsv) == p.csv && At(t, ReissueCsv) == t.csv;
    assert Planned(p, AccountingDb) == (if p.db then p.accounting else None) && At(t, AccountingDb) == t.db;
    assert Planned(p, ConfigJson) == (if p.cfg then p.config else None) && At(t, ConfigJson) == t.config;
  }

  /** What a restore that went through leaves, path by path: the planned files, VERSION instead of .runtime-only
      unless it is deferred, and everything else as it was. */
  predicate PlanCarriedOut(was: Tree, now: Tree, p: Plan) {
    && now.state == Some(p.state) && now.users == Some(p.users) && now.toml == Some(p.toml)
    && now.owner == (if p.ownerUri.Some? then p.ownerUri else was.owner)
    && now.csv == (if p.csv.Some? then p.csv else was.csv)
    && now.db == (if p.db && p.accounting.Some? then p.accounting else was.db)
    && now.config == (if p.cfg && p.config.Some? then p.config else was.config)
    && now.version == (if p.deferVersion then was.version else Some(p.version))
    && now.runtime == (if p.deferVersion then was.runtime else None)
  }

  /** The files appear in this order: one that changed implies the earlier planned ones in place. */
  predicate InOrder(was: Tree, now: Tree, p: Plan) {
    && (now.users != was.users ==> now.state == Some(p.state))
    && (now.toml != was.toml ==> now.state == Some(p.state) && now.users == Some(p.users))
    && (now.owner != was.owner ==> now.state == Some(p.state) && now.users == Some(p.users) && now.toml == Some(p.toml))
    && (now.db != was.db ==> now.toml == Some(p.toml) && (p.ownerUri.Some? ==> now.owner == p.ownerUri))
    && (now.csv != was.csv ==> now.toml == Some(p.toml) && (p.db && p.accounting.Some? ==> now.db == p.accounting))
    && (now.config != was.config ==> now.toml == Some(p.toml) && (p.csv.Some? ==> now.csv == p.csv))
  }

  /** The slots a safety tree covers. */
  predicate Covered(p: Plan, s: Slot) {
    s in CANONICAL || s == RuntimeOnly || (s == AccountingDb && p.db) || (s == ConfigJson && p.cfg)
  }

  /* ---------- the rollback ---------- */

  /** What rollback_restore knows. */
  datatype Known = Known(p: Plan, safety: Tree, written: set<Slot>, csvStarted: bool, hadRuntime: bool)

  /** What rollback_restore leaves in one slot. */
  function RolledSlot(dest: Tree, k: Known, s: Slot): File {
    if s == ReissueCsv then (if k.csvStarted then None else At(dest, s))
    else if !Covered(k.p, s) then At(dest, s)
    else if At(k.safety, s).Some? then At(k.safety, s)
    else if s == Version then None
    else if s == RuntimeOnly then (if k.hadRuntime then Some("runtime-only\n") else At(dest, s))
    else if s in k.written then None
    else At(dest, s)
  }

  function RolledBack(dest: Tree, k: Known): (t: Tree)
    ensures forall s :: At(t, s) == RolledSlot(dest, k, s)
  {
    Tree(RolledSlot(dest, k, StateJson), RolledSlot(dest, k, UsersJson), RolledSlot(dest, k, ConfigToml),
         RolledSlot(dest, k, Version), RolledSlot(dest, k, OwnerUri), RolledSlot(dest, k, RuntimeOnly),
         RolledSlot(dest, k, AccountingDb), RolledSlot(dest, k, ConfigJson), RolledSlot(dest, k, ReissueCsv))
  }

  /** Rolling back twice is rolling back once. */
  lemma RollbackTwice(dest: Tree, k: Known)
    ensures RolledBack(RolledBack(dest, k), k) == RolledBack(dest, k)
  {
    SameTree(RolledBack(RolledBack(dest, k), k), RolledBack(dest, k));
  }

  /** The safety tree after the copy: every covered file that exists, over whatever the directory held before. */
  function SafetySlot(before: Tree, dest: Tree, p: Plan, s: Slot): File {
    if Covered(p, s) && At(dest, s).Some? then At(dest, s) else At(before, s)
  }

  /** The restore, stopped somewhere: `torn` are the slots written and not noted. */
  ghost predicate Stopped(now: Tree, dest: Tree, k: Known, torn: set<Slot>) {
    && (forall s :: s !in k.written && s !in torn && s != RuntimeOnly ==> At(now, s) == At(dest, s))
    && (forall s :: s in k.written || s in torn ==>
          At(now, s).Some? && s != RuntimeOnly && (if s == ReissueCsv then k.csvStarted else Covered(k.p, s)))
    && (At(now, RuntimeOnly) == At(dest, RuntimeOnly) || (At(now, RuntimeOnly) == None && At(dest, RuntimeOnly).Some?))
  }

  /** What makes a rollback exact, slot by slot and seen from before the restore: no file of an earlier use in
      the safety directory, no reissue CSV at the path to be written, and no write that raised after putting a
      new file in place. */
  predicate Clean(dest: Tree, before: Tree, p: Plan, torn: set<Slot>, csvStarted: bool, s: Slot) {
    && (Covered(p, s) && At(before, s).Some? ==> At(dest, s).Some?)
    && (s == ReissueCsv && csvStarted ==> At(dest, s).None?)
    && (s in torn ==> At(dest, s).Some? || s == Version || s == ReissueCsv)
  }

  /** A failed restore leaves a slot as it was exactly when the slot is clean. */
  lemma SlotRestoredIffClean(now: Tree, dest: Tree, before: Tree, k: Known, torn: set<Slot>, s: Slot)
    requires dest.version.None? && k.written !! torn && k.hadRuntime == dest.runtime.Some?
    requires At(k.safety, s) == SafetySlot(before, dest, k.p, s) && Stopped(now, dest, k, torn)
    ensures RolledSlot(now, k, s) == At(dest, s) <==> Clean(dest, before, k.p, torn, k.csvStarted, s)
  {}

  /** All or nothing: the whole tree comes back exactly when every slot is clean. */
  lemma RollbackRestoresIffClean(now: Tree, dest: Tree, before: Tree, k: Known, torn: set<Slot>)
    requires dest.version.None? && k.written !! torn && k.hadRuntime == dest.runtime.Some?
    requires (forall s :: At(k.safety, s) == SafetySlot(before, dest, k.p, s)) && Stopped(now, dest, k, torn)
    ensures RolledBack(now, k) == dest <==> forall s :: Clean(dest, before, k.p, torn, k.csvStarted, s)
  {
    hide Stopped, Clean;
    forall s ensures RolledSlot(now, k, s) == At(dest, s) <==> Clean(dest, before, k.p, torn, k.csvStarted, s) {
      SlotRestoredIffClean(now, dest, before, k, torn, s);
    }
    hide RolledSlot;
    if forall s :: Clean(dest, before, k.p, torn, k.csvStarted, s) {
      SameTree(RolledBack(now, k), dest);
    }
  }

  const NOTHING: Tree := Tree(None, None, None, None, None, None, None, None, None)

  /** With a fresh safety directory, no CSV at the planned path and writes that either happen or do not, every
      failed restore is clean. */
  lemma FreshSafetyIsClean(dest: Tree, p: Plan, torn: set<Slot>, csvStarted: bool)
    requires torn <= {Version} && (csvStarted ==> p.csv.Some?) && (p.csv.Some? ==> dest.csv.None?)
    ensures forall s :: Clean(dest, NOTHING, p, torn, csvStarted, s)
  {}

  /** One file of the rollback: copied back, or removed when this restore wrote it. */
  function PutSlot(t: Tree, k: Known, s: Slot): File {
    if At(k.safety, s).Some? then At(k.safety, s) else if s in k.written then None else At(t, s)
  }

  /** The slots a rollback touches, in its order; VERSION comes up twice. */
  const BACK: seq<Slot> :=
    [StateJson, UsersJson, ConfigToml, Version, OwnerUri, Version, RuntimeOnly, AccountingDb, ConfigJson, ReissueCsv]

  /** What step n of the rollback leaves in its slot. */
  function BackFile(t: Tree, k: Known, n: nat): File
    requires n < |BACK|
  {
    if n < 5 then PutSlot(t, k, BACK[n])
    else if n == 5 then (if k.safety.version.None? then None else t.version)
    else if n == 6 then (if k.safety.runtime.Some? then k.safety.runtime
                         else if k.hadRuntime then Some("runtime-only\n") else t.runtime)
    else if n == 7 then (if k.p.db then PutSlot(t, k, AccountingDb) else t.db)
    else if n == 8 then (if k.p.cfg then PutSlot(t, k, ConfigJson) else t.config)
    else if k.csvStarted then None else t.csv
  }

  /** The tree after the first n steps. */
  function Back(now: Tree, k: Known, n: nat): Tree
    requires n <= |BACK|
  {
    if n == 0 then now else
      var t := Back(now, k, n - 1);
      With(t, BACK[n - 1], BackFile(t, k, n - 1))
  }

  /** How one slot looks after n steps: untouched, or already as the rollback leaves it. Between its two steps
      VERSION may still be the one this restore wrote. */
  function BackSlot(now: Tree, k: Known, n: nat, s: Slot): File
    requires n <= |BACK|
  {
    if s == Version && 4 <= n < 6 then PutSlot(now, k, s)
    else if s == Version && n < 4 then At(now, s)
    else if s in BACK[..n] then RolledSlot(now, k, s)
    else At(now, s)
  }

  lemma {:induction false} BackAt(now: Tree, k: Known, n: nat, s: Slot)
    requires n <= |BACK|
    ensures At(Back(now, k, n), s) == BackSlot(now, k, n, s)
    decreases n
  {
    hide With;
    if n > 0 {
      BackAt(now, k, n - 1, s);
      assert BACK[..n] == BACK[..n - 1] + [BACK[n - 1]];
      BackStep(now, k, n, s);
    }
  }

  lemma BackStep(now: Tree, k: Known, n: nat, s: Slot)
    requires 0 < n <= |BACK|
    requires BACK[..n] == BACK[..n - 1] + [BACK[n - 1]]
    requires At(Back(now, k, n - 1), s) == BackSlot(now, k, n - 1, s)
    ensures At(Back(now, k, n), s) == BackSlot(now, k, n, s)
  {
    hide With, RolledSlot, BackFile, PutSlot;
    if s == BACK[n - 1] {
      FileIsSlot(now, k, n, Back(now, k, n - 1));
    } else {
      assert At(Back(now, k, n), s) == At(Back(now, k, n - 1), s);
      assert s == Version ==> n != 4 && n != 6;
    }
  }

  lemma FileIsSlot(now: Tree, k: Known, n: nat, t: Tree)
    requires 0 < n <= |BACK|
    requires At(t, BACK[n - 1]) == BackSlot(now, k, n - 1, BACK[n - 1])
    ensures BackFile(t, k, n - 1) == BackSlot(now, k, n, BACK[n - 1])
  {
    assert BACK[n - 1] in BACK[..n] by { assert BACK[..n][n - 1] == BACK[n - 1]; }
    assert n != 6 ==> BACK[n - 1] !in BACK[..n - 1];
  }

  lemma BackIsRolledBack(now: Tree, k: Known)
    ensures Back(now, k, |BACK|) == RolledBack(now, k)
  {
    hide RolledSlot, Back;
    forall s ensures At(Back(now, k, |BACK|), s) == RolledSlot(now, k, s) {
      BackAt(now, k, |BACK|, s);
      EverySlotIsBack(s);
      assert At(now, s) == At(now, s);
    }
    SameTree(Back(now, k, |BACK|), RolledBack(now, k));
  }

  lemma EverySlotIsBack(s: Slot)
    ensures s in BACK && s in BACK[..|BACK|]
  {
    assert BACK[..|BACK|] == BACK;
    assert BACK[0] == StateJson && BACK[1] == UsersJson && BACK[2] == ConfigToml && BACK[3] == Version;
    assert BACK[4] == OwnerUri && BACK[6] == RuntimeOnly && BACK[7] == AccountingDb;
    assert BACK[8] == ConfigJson && BACK[9] == ReissueCsv;
  }

  /** The states shown since `before` are states of the first n steps, and none of those is passed over
      except one that looks like the start. */
  ghost predicate Shows(before: seq<Tree>, after: seq<Tree>, now: Tree, k: Known, n: nat)
    requires n <= |BACK|
  {
    && before <= after
    && (forall i :: |before| <= i < |after| ==> exists j: nat :: j <= n && after[i] == Back(now, k, j))
    && (forall j: nat :: j <= n ==> Back(now, k, j) == now || Back(now, k, j) in after[|before|..])
  }

  lemma ShowsNothing(before: seq<Tree>, now: Tree, k: Known)
    ensures Shows(before, before, now, k, 0)
  {}

  lemma ShowsStep(before: seq<Tree>, after: seq<Tree>, after': seq<Tree>, now: Tree, k: Known, n: nat)
    requires n < |BACK| && Shows(before, after, now, k, n)
    requires after' == after + [Back(now, k, n + 1)] || (after' == after && Back(now, k, n + 1) == Back(now, k, n))
    ensures Shows(before, after', now, k, n + 1)
  {
    hide Back;
    assert after'[|before|..] == after[|before|..] + after'[|after|..];
    forall i | |before| <= i < |after'| ensures exists j: nat :: j <= n + 1 && after'[i] == Back(now, k, j) {
      if i < |after| {
        var j: nat :| j <= n && after[i] == Back(now, k, j);
        assert j <= n + 1;
      } else {
        assert after'[i] == Back(now, k, n + 1);
      }
    }
    forall j: nat | j <= n + 1 ensures Back(now, k, j) == now || Back(now, k, j) in after'[|before|..] {
      if j <= n {
        assert Back(now, k, j) == now || Back(now, k, j) in after[|before|..];
      } else if |after'| > |after| {
        assert after'[|before|..][|after| - |before|] == Back(now, k, j);
      }
    }
  }

  /** When the marker's promise holds in every state of a rollback. VERSION goes with the fourth step if this
      restore noted it, and only after owner.uri if not; every planned file put back before that must be the
      planned one. A safety directory that holds a VERSION of an earlier use brings it back in the fourth step
      for good: then every planned file must be in place from there to the end. */
  ghost predicate GuardKept(now: Tree, k: Known) {
    if k.safety.version.Some? then
      forall s :: Planned(k.p, s).Some? ==>
        RolledSlot(now, k, s) == Planned(k.p, s) && (s in BACK[..3] || At(now, s) == Planned(k.p, s))
    else
      now.version.Some? ==> forall s :: s in UnderVersion(k) && Planned(k.p, s).Some? ==> RolledSlot(now, k, s) == Planned(k.p, s)
  }

  /** The files put back while a VERSION of this restore still stands. */
  function UnderVersion(k: Known): seq<Slot> {
    if Version in k.written then BACK[..3] else BACK[..3] + [OwnerUri]
  }

  lemma GuardKeptHolds(now: Tree, k: Known, n: nat)
    requires Guarded(now, k.p) && GuardKept(now, k) && n <= |BACK|
    ensures Guarded(Back(now, k, n), k.p)
  {
    hide Back, RolledSlot;
    var t := Back(now, k, n);
    BackAt(now, k, n, Version);
    assert At(t, Version) == t.version && At(now, Version) == now.version;
    if t.version.Some? {
      forall s | Planned(k.p, s).Some? ensures At(t, s) == Planned(k.p, s) {
        BackAt(now, k, n, s);
        VersionStands(now, k, n, s);
      }
    }
  }

  /** While VERSION stands after n steps, a planned slot is either untouched or covered by the condition. */
  lemma VersionStands(now: Tree, k: Known, n: nat, s: Slot)
    requires Guarded(now, k.p) && GuardKept(now, k) && n <= |BACK| && Planned(k.p, s).Some?
    requires BackSlot(now, k, n, Version).Some?
    ensures BackSlot(now, k, n, s) == Planned(k.p, s)
  {
    hide RolledSlot, GuardKept;
    assert s != Version && s != RuntimeOnly;
    assert At(now, Version) == now.version && At(k.safety, Version) == k.safety.version;
    if k.safety.version.Some? {
      StaleVersion(now, k, s);
      if n < 4 { assert s in BACK[..n] ==> s in BACK[..3]; }
    } else {
      NoStaleVersion(now, k, n, s);
    }
  }

  lemma StaleVersion(now: Tree, k: Known, s: Slot)
    requires GuardKept(now, k) && k.safety.version.Some? && Planned(k.p, s).Some?
    ensures RolledSlot(now, k, s) == Planned(k.p, s) && (s in BACK[..3] || At(now, s) == Planned(k.p, s))
  {}

  lemma VersionComesFourth(n: nat)
    requires n <= |BACK|
    ensures n >= 4 ==> Version in BACK[..n]
  {
    if n >= 4 { assert BACK[..n][3] == Version; }
  }

  lemma NoStaleVersion(now: Tree, k: Known, n: nat, s: Slot)
    requires Guarded(now, k.p) && GuardKept(now, k) && k.safety.version.None? && n <= |BACK|
    requires BackSlot(now, k, n, Version).Some? && Planned(k.p, s).Some?
    ensures BackSlot(now, k, n, s) == Planned(k.p, s)
  {
    assert At(now, Version) == now.version && At(k.safety, Version) == k.safety.version;
    assert RolledSlot(now, k, Version) == None;
    VersionComesFourth(n);
    assert n < 6;
    assert now.version.Some?;
    assert s in BACK[..n] ==> s in UnderVersion(k);
    hide RolledSlot;
  }

  lemma GuardKeptNeeded(now: Tree, k: Known)
    requires forall n: nat :: n <= |BACK| ==> Guarded(Back(now, k, n), k.p)
    ensures GuardKept(now, k)
  {
    hide Back;
    assert At(now, Version) == now.version && At(k.safety, Version) == k.safety.version;
    forall n: nat, s | n <= |BACK| && Planned(k.p, s).Some? && BackSlot(now, k, n, Version).Some?
      ensures BackSlot(now, k, n, s) == Planned(k.p, s)
    {
      var t := Back(now, k, n);
      assert Guarded(t, k.p);
      BackAt(now, k, n, s);
      BackAt(now, k, n, Version);
      assert At(t, Version) == t.version;
    }
    if k.safety.version.Some? {
      forall s | Planned(k.p, s).Some?
        ensures RolledSlot(now, k, s) == Planned(k.p, s) && (s in BACK[..3] || At(now, s) == Planned(k.p, s))
      {
        EverySlotIsBack(s);
        EverySlotIsBack(Version);
        assert BackSlot(now, k, |BACK|, Version).Some? && BackSlot(now, k, 4, Version).Some?;
        assert BackSlot(now, k, |BACK|, s) == Planned(k.p, s) && BackSlot(now, k, 4, s) == Planned(k.p, s);
        assert s in BACK[..4] ==> s in BACK[..3];
      }
    } else if now.version.Some? {
      forall s | s in UnderVersion(k) && Planned(k.p, s).Some? ensures RolledSlot(now, k, s) == Planned(k.p, s) {
        if s in BACK[..3] {
          assert BackSlot(now, k, 3, Version).Some?;
        } else {
          assert BACK[..5][4] == OwnerUri == s;
          assert BackSlot(now, k, 5, Version).Some?;
        }
      }
    }
  }

  /** Every state of a rollback keeps the promise exactly under that condition. */
  lemma GuardKeptIff(before: seq<Tree>, after: seq<Tree>, now: Tree, k: Known)
    requires Guarded(now, k.p) && Shows(before, after, now, k, |BACK|)
    ensures (forall i :: |before| <= i < |after| ==> Guarded(after[i], k.p)) <==> GuardKept(now, k)
  {
    hide Guarded, GuardKept, Back;
    if GuardKept(now, k) {
      forall i | |before| <= i < |after| ensures Guarded(after[i], k.p) {
        var j: nat :| j <= |BACK| && after[i] == Back(now, k, j);
        GuardKeptHolds(now, k, j);
      }
    }
    if forall i :: |before| <= i < |after| ==> Guarded(after[i], k.p) {
      forall n: nat | n <= |BACK| ensures Guarded(Back(now, k, n), k.p) {
        if Back(now, k, n) in after[|before|..] {
          var i :| 0 <= i < |after[|before|..]| && after[|before|..][i] == Back(now, k, n);
          assert after[|before| + i] == Back(now, k, n);
        }
      }
      GuardKeptNeeded(now, k);
    }
  }

  /** The condition seen from before the restore, for a safety directory without VERSION: the target, or where
      it had none the safety directory, already held the planned state.json, users.json and config.toml (and
      owner.uri, when VERSION was written but not noted). */
  lemma GuardKeptBeforehand(now: Tree, dest: Tree, before: Tree, k: Known)
    requires before.version.None? && dest.version.None? && now.version.Some?
    requires forall s :: At(k.safety, s) == SafetySlot(before, dest, k.p, s)
    requires forall s :: s in ORDER && Planned(k.p, s).Some? ==> s in k.written
    ensures GuardKept(now, k) <==>
              forall s :: s in UnderVersion(k) && Planned(k.p, s).Some? ==> SafetySlot(before, dest, k.p, s) == Planned(k.p, s)
  {
    assert At(k.safety, Version) == SafetySlot(before, dest, k.p, Version);
    assert At(k.safety, Version) == k.safety.version && At(before, Version) == before.version && At(dest, Version) == dest.version;
    forall s | s in UnderVersion(k) && Planned(k.p, s).Some? ensures RolledSlot(now, k, s) == SafetySlot(before, dest, k.p, s) {
      assert ORDER[0] == StateJson && ORDER[1] == UsersJson && ORDER[2] == ConfigToml && ORDER[3] == OwnerUri;
      assert s in ORDER;
    }
  }

  const SAMPLE: Plan := Plan("state", "users", "toml", None, None, None, None, "1", false, false, false)

  /** One failing input: the target already held the planned state.json, but other users. The first write of
      the rollback keeps the promise, the second breaks it while VERSION stands. */
  lemma UsersGoUnderVersion()
    ensures var dest := NOTHING.(state := Some("state"), users := Some("old users"));
            var now := Restored(dest, SAMPLE);
            var k := Known(SAMPLE, dest, {StateJson, UsersJson, ConfigToml, Version}, false, false);
            && Guarded(now, SAMPLE) && Guarded(Back(now, k, 1), SAMPLE)
            && Back(now, k, 2).version.Some? && !Guarded(Back(now, k, 2), SAMPLE) && !GuardKept(now, k)
  {
    var dest := NOTHING.(state := Some("state"), users := Some("old users"));
    var now := Restored(dest, SAMPLE);
    var k := Known(SAMPLE, dest, {StateJson, UsersJson, ConfigToml, Version}, false, false);
    RestoredIsThePlan(dest, SAMPLE, Version);
    assert At(now, Version) == now.version;
    hide Restored, Guarded;
    GuardedAtFirst(now, k);
    BackAt(now, k, 2, UsersJson);
    BackAt(now, k, 2, Version);
    assert "users"[0] != "old users"[0];
    assert At(Back(now, k, 2), UsersJson) == Some("old users");
    NotGuarded(Back(now, k, 2), SAMPLE, UsersJson);
    if GuardKept(now, k) { GuardKeptHolds(now, k, 2); }
  }

  lemma NotGuarded(t: Tree, p: Plan, s: Slot)
    requires t.version.Some? && Planned(p, s).Some? && At(t, s) != Planned(p, s)
    ensures !Guarded(t, p)
  {}

  lemma GuardedAtFirst(now: Tree, k: Known)
    requires Guarded(now, k.p) && At(k.safety, StateJson) == Planned(k.p, StateJson)
    ensures Guarded(Back(now, k, 1), k.p)
  {
    var t := Back(now, k, 1);
    assert Back(now, k, 0) == now;
    assert At(t, Version) == t.version && At(now, Version) == now.version;
    assert t == With(now, StateJson, At(k.safety, StateJson));
    hide Back, With;
    assert forall s :: s != StateJson ==> At(t, s) == At(now, s);
  }

  /* ---------- the forward run ---------- */

  /** Slots in writing order; VERSION comes last. */
  const ORDER: seq<Slot> := [StateJson, UsersJson, ConfigToml, OwnerUri, AccountingDb, ReissueCsv, ConfigJson]

  /** The first n slots installed. */
  function Installed(dest: Tree, p: Plan, n: nat): Tree
    requires n <= |ORDER|
  {
    if n == 0 then dest else
      var t := Installed(dest, p, n - 1);
      if Planned(p, ORDER[n - 1]).Some? then With(t, ORDER[n - 1], Planned(p, ORDER[n - 1])) else t
  }

  lemma {:induction false} InstalledAt(dest: Tree, p: Plan, n: nat, s: Slot)
    requires n <= |ORDER|
    ensures At(Installed(dest, p, n), s) == if s in ORDER[..n] && Planned(p, s).Some? then Planned(p, s) else At(dest, s)
    decreases n
  {
    if n > 0 {
      InstalledAt(dest, p, n - 1, s);
      assert ORDER[..n] == ORDER[..n - 1] + [ORDER[n - 1]];
    }
  }

  /** The destination after a restore that did not raise. */
  function Restored(dest: Tree, p: Plan): Tree {
    var t := Installed(dest, p, |ORDER|);
    if p.deferVersion then t else t.(version := Some(p.version), runtime := None)
  }

  /** ... is exactly the plan: every planned file, VERSION unless deferred, no .runtime-only, nothing else. */
  lemma RestoredIsThePlan(dest: Tree, p: Plan, s: Slot)
    ensures At(Restored(dest, p), s) ==
              if Planned(p, s).Some? then Planned(p, s)
              else if s == Version && !p.deferVersion then Some(p.version)
              else if s == RuntimeOnly && !p.deferVersion then None
              else At(dest, s)
    ensures dest.version.None? ==> Guarded(Restored(dest, p), p)
  {
    hide Installed;
    forall u ensures At(Installed(dest, p, |ORDER|), u) == if Planned(p, u).Some? then Planned(p, u) else At(dest, u) {
      InstalledAt(dest, p, |ORDER|, u);
      assert ORDER[..|ORDER|] == ORDER;
    }
  }

  lemma RestoredCarriesOut(dest: Tree, p: Plan)
    ensures PlanCarriedOut(dest, Restored(dest, p), p)
  {
    hide Restored;
    var now := Restored(dest, p);
    forall s ensures At(now, s) == if Planned(p, s).Some? then Planned(p, s)
                                   else if s == Version && !p.deferVersion then Some(p.version)
                                   else if s == RuntimeOnly && !p.deferVersion then None
                                   else At(dest, s)
    {
      RestoredIsThePlan(dest, p, s);
    }
    assert At(now, StateJson) == now.state && At(now, UsersJson) == now.users && At(now, ConfigToml) == now.toml;
    assert At(now, OwnerUri) == now.owner && At(now, ReissueCsv) == now.csv && At(now, AccountingDb) == now.db;
    assert At(now, ConfigJson) == now.config && At(now, Version) == now.version && At(now, RuntimeOnly) == now.runtime;
  }

  lemma InstalledInOrder(dest: Tree, p: Plan, n: nat)
    requires n <= |ORDER|
    ensures InOrder(dest, Installed(dest, p, n), p)
  {
    var t := Installed(dest, p, n);
    forall s ensures At(t, s) == if s in ORDER[..n] && Planned(p, s).Some? then Planned(p, s) else At(dest, s) {
      InstalledAt(dest, p, n, s);
    }
    hide Installed;
    OrderPrefix(n);
    assert At(t, StateJson) == t.state && At(t, UsersJson) == t.users && At(t, ConfigToml) == t.toml;
    assert At(t, OwnerUri) == t.owner && At(t, ReissueCsv) == t.csv && At(t, AccountingDb) == t.db;
    assert At(t, ConfigJson) == t.config;
  }

  lemma FullInOrder(full: Tree, dest: Tree, p: Plan)
    requires full == Installed(dest, p, |ORDER|)
    ensures InOrder(dest, full.(version := Some(p.version)), p) && InOrder(dest, full.(version := Some(p.version), runtime := None), p)
  {
    InstalledInOrder(dest, p, |ORDER|);
    hide Installed;
  }

  lemma OrderPrefix(n: nat)
    requires n <= |ORDER|
    ensures forall i :: 0 <= i < |ORDER| ==> (ORDER[i] in ORDER[..n] <==> i < n)
    ensures ORDER[0] == StateJson && ORDER[1] == UsersJson && ORDER[2] == ConfigToml && ORDER[3] == OwnerUri
    ensures ORDER[4] == AccountingDb && ORDER[5] == ReissueCsv && ORDER[6] == ConfigJson
  {
    forall i | 0 <= i < |ORDER| ensures ORDER[i] in ORDER[..n] <==> i < n {
      if i < n { assert ORDER[..n][i] == ORDER[i]; }
    }
  }

  lemma FullIsGuarded(full: Tree, dest: Tree, p: Plan)
    requires full == Installed(dest, p, |ORDER|)
    ensures Guarded(full.(version := Some(p.version)), p) && Guarded(full.(version := Some(p.version), runtime := None), p)
  {
    hide Installed;
    forall u ensures Planned(p, u).Some? ==> At(full, u) == Planned(p, u) {
      InstalledAt(dest, p, |ORDER|, u);
      assert ORDER[..|ORDER|] == ORDER;
    }
  }

  /** What a run ends with: refused before any write, done, or raised and rolled back. */
  datatype Outcome = ExistingInstall | Done | RolledBackFrom(now: Tree, k: Known, torn: set<Slot>)

  /** How far a forward run got. */
  datatype Progress = Progress(raised: bool, written: set<Slot>, torn: set<Slot>, csvStarted: bool)

  function Noted(p: Plan, n: nat): set<Slot>
    requires n <= |ORDER|
  {
    set s | s in ORDER[..n] && Planned(p, s).Some?
  }

  /** The tree, and what is known of it, after the loop over the planned files stopped. */
  ghost predicate StoppedAt(now: Tree, dest: Tree, p: Plan, g: Progress, n: nat) {
    && n <= |ORDER|
    && (g.csvStarted ==> p.csv.Some?) && (ReissueCsv in g.written || ReissueCsv in g.torn ==> g.csvStarted)
    && g.written == Noted(p, n)
    && (if !g.raised then n == |ORDER| && now == Installed(dest, p, n) && g.torn == {}
        else if g.torn == {} then now == Installed(dest, p, n)
        else n < |ORDER| && g.torn == {ORDER[n]} && Planned(p, ORDER[n]).Some? && now == Installed(dest, p, n + 1))
  }

  lemma StoppedAtIsStopped(now: Tree, dest: Tree, p: Plan, g: Progress, n: nat, k: Known)
    requires StoppedAt(now, dest, p, g, n)
    requires k.p == p && k.written == g.written && k.csvStarted == g.csvStarted
    ensures Stopped(now, dest, k, g.torn) && g.written !! g.torn
  {
    if g.torn == {} {
      InstalledIsStopped(now, dest, p, n, k, {});
    } else {
      assert ORDER[..n + 1] == ORDER[..n] + [ORDER[n]] && ORDER[n] !in ORDER[..n];
      InstalledIsStopped(now, dest, p, n + 1, k, g.torn);
    }
  }

  lemma InstalledIsStopped(now: Tree, dest: Tree, p: Plan, m: nat, k: Known, torn: set<Slot>)
    requires m <= |ORDER| && now == Installed(dest, p, m) && k.p == p
    requires k.written + torn == Noted(p, m)
    requires ReissueCsv in k.written || ReissueCsv in torn ==> k.csvStarted
    ensures Stopped(now, dest, k, torn)
  {
    forall s
      ensures At(now, s) == if s in k.written || s in torn then Planned(p, s) else At(dest, s)
      ensures s in k.written || s in torn ==>
                Planned(p, s).Some? && s != RuntimeOnly && (s == ReissueCsv || Covered(p, s))
    {
      InstalledAt(dest, p, m, s);
      assert s in k.written + torn <==> s in Noted(p, m);
      if Planned(p, s).Some? { PlannedIsCovered(p, s); }
    }
    hide At, Planned, Covered, Installed;
    assert At(now, RuntimeOnly) == At(dest, RuntimeOnly);
  }

  lemma PlannedIsCovered(p: Plan, s: Slot)
    requires Planned(p, s).Some?
    ensures s != RuntimeOnly && s != Version && (s == ReissueCsv || Covered(p, s))
  {}

  lemma NothingNoted(p: Plan)
    ensures Noted(p, 0) == {}
  {}

  lemma OneMoreSlot(p: Plan, n: nat)
    requires n < |ORDER|
    ensures ORDER[..n + 1] == ORDER[..n] + [ORDER[n]] && ORDER[n] !in ORDER[..n]
    ensures Noted(p, n + 1) == Noted(p, n) + if Planned(p, ORDER[n]).Some? then {ORDER[n]} else {}
    ensures Planned(p, Version).None? && Planned(p, ReissueCsv) == p.csv
    ensures ReissueCsv in Noted(p, n) <==> ReissueCsv in ORDER[..n] && p.csv.Some?
  {}

  lemma CsvNoted(p: Plan)
    ensures ReissueCsv in Noted(p, |ORDER|) <==> ReissueCsv in ORDER[..|ORDER|] && p.csv.Some?
  {}

  lemma PlannedIsOrdered(p: Plan, s: Slot)
    requires Planned(p, s).Some?
    ensures s in ORDER && s in ORDER[..|ORDER|]
  {
    assert ORDER[..|ORDER|] == ORDER;
    assert ORDER[0] == StateJson && ORDER[1] == UsersJson && ORDER[2] == ConfigToml && ORDER[3] == OwnerUri;
    assert ORDER[4] == AccountingDb && ORDER[5] == ReissueCsv && ORDER[6] == ConfigJson;
  }

  /** No state shown since `before` has a VERSION. */
  ghost predicate Unmarked(before: seq<Tree>, after: seq<Tree>) {
    before <= after && forall i :: |before| <= i < |after| ==> after[i].version.None?
  }

  /** Every state shown since `before` keeps the writing order. */
  ghost predicate Ordered(before: seq<Tree>, after: seq<Tree>, was: Tree, p: Plan) {
    before <= after && forall i :: |before| <= i < |after| ==> InOrder(was, after[i], p)
  }

  /** The fault is on the way of this plan. */
  predicate Hits(p: Plan, fault: Fault) {
    match fault
    case Never => false
    case AtWrite(s, _) => Planned(p, s).Some? || (s == Version && !p.deferVersion)
    case After(s) => Planned(p, s).Some? || (s == Version && !p.deferVersion)
    case AtMarker => !p.deferVersion
    case AfterMarker => !p.deferVersion
  }

  lemma SafetyVersion(before: Tree, dest: Tree, p: Plan, safety: Tree)
    requires dest.version.None? && forall s :: At(safety, s) == SafetySlot(before, dest, p, s)
    ensures safety.version == before.version
  {
    assert At(safety, Version) == SafetySlot(before, dest, p, Version);
  }

  lemma NoVersionLeft(now: Tree, k: Known)
    requires k.safety.version.None?
    ensures RolledBack(now, k).version.None?
  {}

  /** VERSION written on top of a complete installation. */
  lemma MarkedIsStopped(now: Tree, full: Tree, dest: Tree, p: Plan, g: Progress, k: Known, torn: set<Slot>)
    requires StoppedAt(full, dest, p, g, |ORDER|) && !g.raised && k.p == p && k.csvStarted == g.csvStarted
    requires now == full.(version := Some(p.version)) || now == full.(version := Some(p.version), runtime := None)
    requires (k.written == g.written && torn == {Version}) || (k.written == g.written + {Version} && torn == {})
    ensures Stopped(now, dest, k, torn) && k.written !! torn
  {
    StoppedAtIsStopped(full, dest, p, g, |ORDER|, k.(written := g.written));
    assert Version !in g.written;
    hide Installed, StoppedAt, Planned;
    forall s | s !in k.written && s !in torn && s != RuntimeOnly ensures At(now, s) == At(dest, s) {
      assert At(now, s) == At(full, s);
    }
    forall s | s in k.written || s in torn
      ensures At(now, s).Some? && s != RuntimeOnly && (if s == ReissueCsv then k.csvStarted else Covered(p, s))
    {
      if s != Version { assert At(now, s) == At(full, s); }
    }
    assert At(full, RuntimeOnly) == At(dest, RuntimeOnly) || At(full, RuntimeOnly) == None;
  }

  class Node {

    var dest: Tree
    var safety: Tree
    /** Every state the destination has been in. */
    ghost var trace: seq<Tree>

    constructor (dest: Tree, safety: Tree)
      ensures this.dest == dest && this.safety == safety && trace == [dest]
    {
      this.dest, this.safety := dest, safety;
      trace := [dest];
    }

    method Set(s: Slot, f: File)
      modifies this`dest, this`trace
      ensures dest == With(old(dest), s, f) && trace == old(trace) + [dest]
    {
      dest := With(dest, s, f);
      trace := trace + [dest];
    }

    /** _safety_copy_existing. */
    method SafetyCopyExisting(p: Plan)
      modifies this`safety
      ensures forall s :: At(safety, s) == SafetySlot(old(safety), dest, p, s)
    {
      var names := CANONICAL + [RuntimeOnly] + (if p.db then [AccountingDb] else []) + (if p.cfg then [ConfigJson] else []);
      assert forall s :: s in names <==> Covered(p, s);
      hide Covered;
      var i := 0;
      while i < |names|
        invariant 0 <= i <= |names|
        invariant forall s :: At(safety, s) == if s in names[..i] && At(dest, s).Some? then At(dest, s) else At(old(safety), s)
      {
        assert names[..i + 1] == names[..i] + [names[i]];
        if At(dest, names[i]).Some? { safety := With(safety, names[i], At(dest, names[i])); }
        i := i + 1;
      }
      assert names[..|names|] == names;
    }

    /** One planned file. */
    method Install(s: Slot, p: Plan, fault: Fault) returns (raised: bool, torn: bool)
      requires Planned(p, s).Some?
      modifies this`dest, this`trace
      ensures raised <==> (fault.AtWrite? && fault.slot == s) || fault == After(s)
      ensures torn <==> fault == AtWrite(s, true)
      ensures dest == if fault == AtWrite(s, false) then old(dest) else With(old(dest), s, Planned(p, s))
      ensures trace == old(trace) || trace == old(trace) + [dest]
    {
      if fault == AtWrite(s, false) { return true, false; }
      Set(s, Planned(p, s));
      return fault == AtWrite(s, true) || fault == After(s), fault == AtWrite(s, true);
    }

    /** The planned files one after another, up to the first that raises. */
    method InstallAll(p: Plan, fault: Fault) returns (g: Progress, ghost n: nat)
      requires dest.version.None?
      modifies this`dest, this`trace
      ensures StoppedAt(dest, old(dest), p, g, n) && dest.version.None?
      ensures g.torn != {} ==> fault.AtWrite? && fault.landed
      ensures Unmarked(old(trace), trace) && Ordered(old(trace), trace, old(dest), p)
      ensures g.raised <==> (fault.AtWrite? || fault.After?) && Planned(p, fault.slot).Some?
    {
      hide With, Planned, Noted, InOrder;
      var written: set<Slot>, csvStarted := {}, false;
      var i := 0;
      assert Noted(p, 0) == {} by { NothingNoted(p); }
      while i < |ORDER|
        invariant 0 <= i <= |ORDER| && dest == Installed(old(dest), p, i) && written == Noted(p, i)
        invariant csvStarted <==> p.csv.Some? && ReissueCsv in ORDER[..i]
        invariant dest.version.None? && Unmarked(old(trace), trace) && Ordered(old(trace), trace, old(dest), p)
        invariant (fault.AtWrite? || fault.After?) && Planned(p, fault.slot).Some? ==> fault.slot !in ORDER[..i]
      {
        var s := ORDER[i];
        OneMoreSlot(p, i);
        InstalledInOrder(old(dest), p, i);
        InstalledInOrder(old(dest), p, i + 1);
        if Planned(p, s).Some? {
          if s == ReissueCsv { csvStarted := true; }
          assert At(dest, Version) == dest.version;
          var raised, torn := Install(s, p, fault);
          assert At(dest, Version) == dest.version;
          if raised {
            if fault.AtWrite? { return Progress(true, written, if torn then {s} else {}, csvStarted), i; }
            return Progress(true, written + {s}, {}, csvStarted), i + 1;
          }
          written := written + {s};
        }
        i := i + 1;
      }
      if (fault.AtWrite? || fault.After?) && Planned(p, fault.slot).Some? { PlannedIsOrdered(p, fault.slot); }
      CsvNoted(p);
      return Progress(false, written, {}, csvStarted), i;
    }

    /** commit_restore_version. */
    method CommitVersion(version: string, fault: Fault) returns (raised: bool)
      modifies this`dest, this`trace
      ensures raised <==> (fault.AtWrite? && fault.slot == Version) || fault == AtMarker || fault == AfterMarker
      ensures dest == if fault == AtWrite(Version, false) then old(dest)
                      else if fault == AtWrite(Version, true) || fault == AtMarker then old(dest).(version := Some(version))
                      else old(dest).(version := Some(version), runtime := None)
      ensures old(trace) <= trace
      ensures forall i :: |old(trace)| <= i < |trace| ==>
                trace[i] == old(dest).(version := Some(version)) || trace[i] == old(dest).(version := Some(version), runtime := None)
    {
      if fault == AtWrite(Version, false) { return true; }
      Set(Version, Some(version));
      if fault == AtWrite(Version, true) || fault == AtMarker { return true; }
      if dest.runtime.Some? { Set(RuntimeOnly, None); }
      return fault == AfterMarker;
    }

    /** apply_restore from the safety copy to the first exception, or to the end. */
    method Forward(p: Plan, fault: Fault) returns (raised: bool, k: Known, torn: set<Slot>)
      requires dest.version.None?
      modifies this
      ensures !raised ==> dest == Restored(old(dest), p)
      ensures raised <==> Hits(p, fault)
      ensures Guarded(dest, p)
      ensures raised ==> Stopped(dest, old(dest), k, torn) && k.written !! torn
      ensures k.p == p && k.safety == safety && k.hadRuntime == old(dest).runtime.Some? && (k.csvStarted ==> p.csv.Some?)
      ensures forall s :: At(safety, s) == SafetySlot(old(safety), old(dest), p, s)
      ensures !(fault.AtWrite? && fault.landed) ==> torn <= {Version}
      ensures old(trace) <= trace && forall i :: |old(trace)| <= i < |trace| ==> Guarded(trace[i], p)
      ensures Ordered(old(trace), trace, old(dest), p)
    {
      hide With, Installed, Stopped, InOrder;
      ghost var start := dest;
      var hadRuntime := dest.runtime.Some?;
      SafetyCopyExisting(p);
      var g, n := InstallAll(p, fault);
      raised, torn := g.raised, g.torn;
      k := Known(p, safety, g.written, g.csvStarted, hadRuntime);
      StoppedAtIsStopped(dest, start, p, g, n, k);
      if !raised && !p.deferVersion {
        ghost var full := dest;
        FullIsGuarded(full, start, p);
        FullInOrder(full, start, p);
        raised := CommitVersion(p.version, fault);
        if !raised {
          k := k.(written := g.written + {Version});
          raised := fault == After(Version);
        } else if !(fault == AtWrite(Version, false)) {
          torn := {Version};
        }
        if fault != AtWrite(Version, false) { MarkedIsStopped(dest, full, start, p, g, k, torn); }
      }
    }

    /** apply_restore. `forward` is the length of the trace when the rollback began. */
    method ApplyRestore(p: Plan, fault: Fault) returns (r: Outcome, ghost forward: nat)
      modifies this
      ensures r.ExistingInstall? <==> old(dest).version.Some?
      ensures r.ExistingInstall? ==> dest == old(dest) && safety == old(safety)
      ensures r.Done? ==> dest == Restored(old(dest), p) && PlanCarriedOut(old(dest), dest, p)
      ensures old(dest).version.None? ==> (r.RolledBackFrom? <==> Hits(p, fault))
      ensures r.RolledBackFrom? ==>
                (dest == old(dest) <==> forall s :: Clean(old(dest), old(safety), p, r.torn, r.k.csvStarted, s))
      ensures r.RolledBackFrom? ==> dest == RolledBack(r.now, r.k) && r.k.p == p && (r.k.csvStarted ==> p.csv.Some?)
      ensures r.RolledBackFrom? && !(fault.AtWrite? && fault.landed) ==> r.torn <= {Version}
      ensures r.RolledBackFrom? && old(safety).version.None? ==> dest.version.None?
      ensures |old(trace)| <= forward <= |trace| && old(trace) <= trace
      ensures !r.ExistingInstall? ==> forall i :: |old(trace)| <= i < forward ==>
                Guarded(trace[i], p) && (trace[i].version.Some? ==> AllInPlace(trace[i], p)) && InOrder(old(dest), trace[i], p)
      ensures r.RolledBackFrom? ==> forall s :: At(r.k.safety, s) == SafetySlot(old(safety), old(dest), p, s)
      ensures r.RolledBackFrom? ==>
                ((forall i :: forward <= i < |trace| ==> Guarded(trace[i], p)) <==> GuardKept(r.now, r.k))
    {
      hide Stopped, Clean, RolledSlot, RolledBack, Restored, Guarded, GuardKept, Shows, Hits, AllInPlace, InOrder, PlanCarriedOut;
      if dest.version.Some? { return ExistingInstall, |trace|; }
      ghost var start, before := dest, safety;
      var raised, k, torn := Forward(p, fault);
      forward := |trace|;
      forall i | |old(trace)| <= i < forward ensures trace[i].version.Some? ==> AllInPlace(trace[i], p) {
        GuardedInFields(trace[i], p);
      }
      RestoredCarriesOut(start, p);
      if !raised { return Done, forward; }
      var now := dest;
      RollbackRestore(k);
      RollbackRestoresIffClean(now, start, before, k, torn);
      SafetyVersion(before, start, p, safety);
      if k.safety.version.None? { NoVersionLeft(now, k); }
      return RolledBackFrom(now, k, torn), forward;
    }

    /** A file put back; nothing happens when there is nothing to copy or to remove. */
    method PutBack(s: Slot, k: Known)
      requires k.safety == safety
      modifies this`dest, this`trace
      ensures dest == With(old(dest), s, PutSlot(old(dest), k, s))
      ensures trace == old(trace) + [dest] || (trace == old(trace) && dest == old(dest))
    {
      if At(safety, s).Some? {
        Set(s, At(safety, s));
      } else if s in k.written && At(dest, s).Some? {
        Set(s, None);
      } else {
        SameTree(dest, With(dest, s, At(dest, s)));
      }
    }

    /** rollback_restore. */
    method RollbackRestore(k: Known)
      requires k.safety == safety
      modifies this`dest, this`trace
      ensures dest == RolledBack(old(dest), k) && old(trace) <= trace
      ensures Shows(old(trace), trace, old(dest), k, |BACK|)
      ensures Guarded(old(dest), k.p) ==>
                ((forall i :: |old(trace)| <= i < |trace| ==> Guarded(trace[i], k.p)) <==> GuardKept(old(dest), k))
    {
      hide With, Back, BackFile, Guarded, GuardKept, RolledBack;
      ghost var now, before := dest, trace;
      RollbackCanonical(k);
      RollbackMarkers(k, now, before);
      RollbackPaths(k, now, before);
      assert before <= trace;
      hide Shows;
      BackIsRolledBack(now, k);
      if Guarded(now, k.p) { GuardKeptIff(before, trace, now, k); }
    }

    /** The loop over the five canonical names. */
    method RollbackCanonical(k: Known)
      requires k.safety == safety
      modifies this`dest, this`trace
      ensures dest == Back(old(dest), k, 5) && Shows(old(trace), trace, old(dest), k, 5)
    {
      hide With, PutSlot, Shows;
      ShowsNothing(trace, dest, k);
      var i := 0;
      while i < |CANONICAL|
        invariant 0 <= i <= |CANONICAL| && dest == Back(old(dest), k, i)
        invariant Shows(old(trace), trace, old(dest), k, i)
      {
        assert CANONICAL[i] == BACK[i] by { assert CANONICAL == BACK[..5]; }
        ghost var shown := trace;
        PutBack(CANONICAL[i], k);
        ShowsStep(old(trace), shown, trace, old(dest), k, i);
        i := i + 1;
      }
    }

    /** VERSION that no safety copy explains, and the .runtime-only marker. */
    method RollbackMarkers(k: Known, ghost now: Tree, ghost before: seq<Tree>)
      requires k.safety == safety && dest == Back(now, k, 5) && Shows(before, trace, now, k, 5)
      modifies this`dest, this`trace
      ensures dest == Back(now, k, 7) && Shows(before, trace, now, k, 7)
    {
      hide Shows;
      ghost var t, shown := dest, trace;
      if safety.version.None? && dest.version.Some? { Set(Version, None); }
      assert dest == With(t, Version, BackFile(t, k, 5));
      ShowsStep(before, shown, trace, now, k, 5);
      t, shown := dest, trace;
      if safety.runtime.Some? { Set(RuntimeOnly, safety.runtime); }
      else if k.hadRuntime { Set(RuntimeOnly, Some("runtime-only\n")); }
      assert dest == With(t, RuntimeOnly, BackFile(t, k, 6));
      ShowsStep(before, shown, trace, now, k, 6);
    }

    /** The files with paths of their own. */
    method RollbackPaths(k: Known, ghost now: Tree, ghost before: seq<Tree>)
      requires k.safety == safety && dest == Back(now, k, 7) && Shows(before, trace, now, k, 7)
      modifies this`dest, this`trace
      ensures dest == Back(now, k, 10) && Shows(before, trace, now, k, 10)
    {
      hide Shows;
      ghost var t, shown := dest, trace;
      if k.p.db { PutBack(AccountingDb, k); }
      assert dest == With(t, AccountingDb, BackFile(t, k, 7));
      ShowsStep(before, shown, trace, now, k, 7);
      t, shown := dest, trace;
      if k.p.cfg { PutBack(ConfigJson, k); }
      assert dest == With(t, ConfigJson, BackFile(t, k, 8));
      ShowsStep(before, shown, trace, now, k, 8);
      t, shown := dest, trace;
      if k.csvStarted && dest.csv.Some? { Set(ReissueCsv, None); }
      assert dest == With(t, ReissueCsv, BackFile(t, k, 9));
      ShowsStep(before, shown, trace, now, k, 9);
    }
  }
}
