/** Audit archives: written from a query, merged back into a cache with conflict detection. */
module AuditArchive {

  import opened Prelude
  import opened Ordering
  import opened Lexicographic
  import opened CacheTables
  import opened AuditImport
  import opened FleetSync
  import opened FleetQuery

  const ARCHIVE_SCHEMA_LABEL: string := "audit-archive/v1"

  /** `rows` is the archive's audit_events table in the order a SELECT returns it. Nothing checks that a file
      handed in has the primary key this tool writes, so keys may repeat. */
  datatype Archive = Archive(complete: bool, schema: string, fleetId: string, rows: seq<FleetRow>)

  datatype Report = Report(inserted: nat, deduped: nat, aggregated: nat)

  datatype RestoreError = Unreadable | FleetMismatch | Conflict | Interrupted

  predicate Verified(a: Archive) {
    a.complete && a.schema == ARCHIVE_SCHEMA_LABEL
  }

  predicate FleetFits(a: Archive, db: CacheDb) {
    a.fleetId == "" || db.fleetId == "" || a.fleetId == db.fleetId
  }

  /** Every row agrees with the cached row of its key and with every archived row of its key. */
  ghost predicate Consistent(events: Events, rows: seq<FleetRow>) {
    && (forall i :: 0 <= i < |rows| ==> Agreeing(events, rows[i]))
    && (forall i, j :: 0 <= i < j < |rows| && rows[i].key == rows[j].key ==> rows[i].remote == rows[j].remote)
  }

  predicate Agreeing(events: Events, row: FleetRow) {
    row.key in events ==> events[row.key].remote == row.remote
  }

  /** Insert the keys that are new, keep what is there. */
  function Merged(events: Events, rows: seq<FleetRow>, now: string): (r: Events)
    ensures forall k :: k in r <==> k in events || HasKey(rows, k)
    ensures forall k :: k in events ==> r[k] == events[k]
  {
    if rows == [] then events else
      var n := |rows| - 1;
      KeysOfFront(rows);
      InsertNew(Merged(events, rows[..n], now), rows[n], now)
  }

  function InsertNew(events: Events, row: FleetRow, now: string): Events {
    if row.key in events then events else events[row.key := Cached(row.remote, now)]
  }

  lemma KeysOfFront(rows: seq<FleetRow>)
    requires rows != []
    ensures forall k :: HasKey(rows, k) <==> HasKey(rows[..|rows| - 1], k) || k == rows[|rows| - 1].key
  {}

  predicate HasKey(rows: seq<FleetRow>, k: EvKey) {
    exists i :: 0 <= i < |rows| && rows[i].key == k
  }

  /** Nodes that gained a row. */
  function Touched(events: Events, events': Events): set<string> {
    set k | k in events' && k !in events && k.nodeId != "" :: k.nodeId
  }

  function RebuiltAll(events: Events, daily: Daily, nodes: seq<string>): Daily {
    if nodes == [] then daily else
      Rebuilt(events, RebuiltAll(events, daily, nodes[..|nodes| - 1]), nodes[|nodes| - 1])
  }

  function Restored(db: CacheDb, rows: seq<FleetRow>, now: string): CacheDb {
    var events' := Merged(db.events, rows, now);
    db.(events := events', daily := RebuiltAll(events', db.daily, OrderBy(ByText(), Touched(db.events, events'))))
  }

  /* ---------- the merge ---------- */

  /** What the merge holds under an archived key is the archived payload. */
  lemma {:induction false} MergeHolds(events: Events, rows: seq<FleetRow>, now: string, i: nat)
    requires Consistent(events, rows) && i < |rows|
    ensures HasKey(rows, rows[i].key) && Merged(events, rows, now)[rows[i].key].remote == rows[i].remote
    decreases |rows|
  {
    hide Consistent, Merged;
    assert rows[i].key == rows[i].key;
    var n := |rows| - 1;
    FrontConsistent(events, rows);
    MergedUnfolds(events, rows, now);
    if i < n {
      MergeHolds(events, rows[..n], now, i);
    } else if HasKey(rows[..n], rows[n].key) {
      var j :| 0 <= j < n && rows[..n][j].key == rows[n].key;
      MergeHolds(events, rows[..n], now, j);
      SameKeySameRow(events, rows, j, n);
    } else {
      LastAgrees(events, rows);
    }
  }

  lemma MergedUnfolds(events: Events, rows: seq<FleetRow>, now: string)
    requires rows != []
    ensures Merged(events, rows, now) == InsertNew(Merged(events, rows[..|rows| - 1], now), rows[|rows| - 1], now)
  {}

  lemma SameKeySameRow(events: Events, rows: seq<FleetRow>, i: nat, j: nat)
    requires Consistent(events, rows) && i < j < |rows| && rows[i].key == rows[j].key
    ensures rows[i].remote == rows[j].remote
  {}

  lemma LastAgrees(events: Events, rows: seq<FleetRow>)
    requires Consistent(events, rows) && rows != []
    ensures Agreeing(events, rows[|rows| - 1])
  {}

  lemma FrontConsistent(events: Events, rows: seq<FleetRow>)
    requires Consistent(events, rows) && rows != []
    ensures Consistent(events, rows[..|rows| - 1])
  {}

  /** One more row keeps the merge going exactly when it agrees with what was merged so far. */
  lemma ConsistentStep(events: Events, rows: seq<FleetRow>, now: string, n: nat)
    requires n < |rows| && Consistent(events, rows[..n])
    ensures Consistent(events, rows[..n + 1]) <==> Agreeing(Merged(events, rows[..n], now), rows[n])
  {
    hide Merged;
    var front, all := rows[..n], rows[..n + 1];
    var merged := Merged(events, front, now);
    if Agreeing(merged, rows[n]) {
      forall i | 0 <= i < |all| ensures Agreeing(events, all[i]) {
        assert i < n ==> Agreeing(events, front[i]);
        assert rows[n].key in events ==> rows[n].key in merged;
      }
      forall i, j | 0 <= i < j < |all| && all[i].key == all[j].key ensures all[i].remote == all[j].remote {
        if j == n {
          MergeHolds(events, front, now, i);
          assert HasKey(front, front[i].key);
        } else {
          assert front[i].key == front[j].key;
        }
      }
    }
    if Consistent(events, all) && rows[n].key in merged {
      assert all[n] == rows[n] && Agreeing(events, all[n]);
      if HasKey(front, rows[n].key) {
        var j :| 0 <= j < n && front[j].key == rows[n].key;
        MergeHolds(events, front, now, j);
        assert all[j].remote == all[n].remote;
      }
    }
  }

  lemma ConsistentPrefix(events: Events, rows: seq<FleetRow>, n: nat)
    requires n <= |rows| && Consistent(events, rows)
    ensures Consistent(events, rows[..n])
  {
    forall i | 0 <= i < n ensures Agreeing(events, rows[..n][i]) { assert Agreeing(events, rows[i]); }
  }

  /* ---------- what a restore promises ---------- */

  lemma {:induction false} RebuiltAllIndexes(events: Events, events': Events, daily: Daily, nodes: seq<string>, d: DailyKey)
    requires Indexed(events, daily)
    requires forall k: EvKey :: k.nodeId != "" && k.nodeId !in nodes ==> SameAt(events, events', k)
    ensures d.nodeId in nodes || d.nodeId == "" || SameAt(daily, RebuiltAll(events', daily, nodes), d)
    ensures DayIndexed(events', RebuiltAll(events', daily, nodes), d)
    decreases |nodes|
  {
    hide Rebuilt, GroupUse;
    RebuiltAllAt(events', daily, nodes, d);
    if d.nodeId in nodes {
    } else if d.nodeId == "" {
      assert DayIndexed(events, daily, d);
    } else {
      assert DayIndexed(events, daily, d);
      DayUntouched(events, events', daily, RebuiltAll(events', daily, nodes), d);
    }
  }

  /** Rebuilding a list of nodes indexes each of them and leaves the rest alone. */
  lemma {:induction false} RebuiltAllAt(events: Events, daily: Daily, nodes: seq<string>, d: DailyKey)
    ensures d.nodeId in nodes ==> DayIndexed(events, RebuiltAll(events, daily, nodes), d)
    ensures d.nodeId !in nodes ==> SameAt(daily, RebuiltAll(events, daily, nodes), d)
    decreases |nodes|
  {
    hide Rebuilt, GroupUse;
    if nodes != [] {
      var n := |nodes| - 1;
      var before := RebuiltAll(events, daily, nodes[..n]);
      RebuiltAllAt(events, daily, nodes[..n], d);
      if d.nodeId == nodes[n] {
        RebuildIndexes(events, before, nodes[n], d);
      } else {
        assert d.nodeId in nodes <==> d.nodeId in nodes[..n];
        assert SameAt(before, Rebuilt(events, before, nodes[n]), d);
      }
    }
  }

  /** A restore keeps the daily index in agreement, keeps every cached row, and never touches a cursor. */
  lemma RestoreKeepsIndex(db: CacheDb, rows: seq<FleetRow>, now: string)
    requires Indexed(db.events, db.daily)
    ensures var db' := Restored(db, rows, now);
            && Indexed(db'.events, db'.daily) && db'.cursors == db.cursors
            && (forall k :: k in db.events ==> k in db'.events && db'.events[k] == db.events[k])
  {
    hide StrictTotal, OrderBy, Least, DayIndexed, Rebuilt, Merged;
    var events' := Merged(db.events, rows, now);
    var nodes := OrderBy(ByText(), Touched(db.events, events'));
    forall k: EvKey | k.nodeId != "" && k.nodeId !in nodes ensures SameAt(db.events, events', k) {
      assert k in events' && k !in db.events ==> k.nodeId in Touched(db.events, events');
    }
    forall d ensures DayIndexed(events', RebuiltAll(events', db.daily, nodes), d) {
      RebuiltAllIndexes(db.events, events', db.daily, nodes, d);
    }
  }

  /** Restoring the same archive again changes nothing: every row is already there and equal. */
  lemma RestoreTwice(db: CacheDb, rows: seq<FleetRow>, now: string, later: string)
    requires Consistent(db.events, rows)
    ensures var once := Restored(db, rows, now);
            && Consistent(once.events, rows) && Restored(once, rows, later) == once
  {
    hide StrictTotal, Least, Rebuilt;
    var once := Merged(db.events, rows, now);
    forall i | 0 <= i < |rows| ensures Agreeing(once, rows[i]) {
      MergeHolds(db.events, rows, now, i);
    }
    assert forall k :: k in once <==> k in Merged(once, rows, later) by {
      forall k | HasKey(rows, k) ensures k in once {}
    }
    assert Merged(once, rows, later) == once;
    assert Touched(once, once) == {};
  }

  /** Payloads without the local import stamp. */
  function Payloads(events: Events): (p: map<EvKey, Remote>)
    ensures p.Keys == events.Keys
  {
    map k | k in events :: events[k].remote
  }

  /** Whether two archives both go in does not depend on their order. */
  lemma OrderDoesNotDecide(events: Events, a: seq<FleetRow>, b: seq<FleetRow>, now: string)
    requires Consistent(events, a) && Consistent(Merged(events, a, now), b)
    ensures Consistent(events, b) && Consistent(Merged(events, b, now), a)
  {
    hide Merged;
    var withA, withB := Merged(events, a, now), Merged(events, b, now);
    forall i | 0 <= i < |b| ensures Agreeing(events, b[i]) {
      assert Agreeing(withA, b[i]);
    }
    forall i | 0 <= i < |a| ensures Agreeing(withB, a[i]) {
      MergeHolds(events, a, now, i);
      assert HasKey(a, a[i].key) && Agreeing(events, a[i]);
      if HasKey(b, a[i].key) {
        var j :| 0 <= j < |b| && b[j].key == a[i].key;
        assert Agreeing(withA, b[j]);
        MergeHolds(events, b, now, j);
      }
    }
  }

  /** ... and neither does the result. */
  lemma OrderDoesNotMatter(events: Events, a: seq<FleetRow>, b: seq<FleetRow>, t1: string, t2: string)
    requires Consistent(events, a) && Consistent(Merged(events, a, t1), b)
    ensures Consistent(events, b) && Consistent(Merged(events, b, t1), a)
    ensures Payloads(Merged(Merged(events, a, t1), b, t2)) == Payloads(Merged(Merged(events, b, t1), a, t2))
  {
    hide Merged;
    OrderDoesNotDecide(events, a, b, t1);
    var withA, withB := Merged(events, a, t1), Merged(events, b, t1);
    var ab, ba := Merged(withA, b, t2), Merged(withB, a, t2);
    forall k | k in ab ensures k in ba && ab[k].remote == ba[k].remote {
      if k !in events {
        if HasKey(a, k) {
          var i :| 0 <= i < |a| && a[i].key == k;
          MergeHolds(events, a, t1, i);
          MergeHolds(withB, a, t2, i);
        } else {
          var j :| 0 <= j < |b| && b[j].key == k;
          MergeHolds(withA, b, t2, j);
          MergeHolds(events, b, t1, j);
        }
      }
    }
    forall k | k in ba ensures k in ab {}
  }

  /* ---------- create, then restore ---------- */

  ghost predicate DistinctKeys(rows: seq<FleetRow>) {
    forall i, j :: 0 <= i < j < |rows| ==> rows[i].key != rows[j].key
  }

  /** create_archive: the file must be new, and the primary key refuses a repeated event. */
  method CreateArchive(present: bool, fleetId: string, rows: seq<FleetRow>) returns (a: Option<Archive>)
    ensures a.Some? <==> !present && DistinctKeys(rows)
    ensures a.Some? ==> a.value == Archive(true, ARCHIVE_SCHEMA_LABEL, fleetId, rows)
  {
    if present { return None; }
    var table: seq<FleetRow> := [];
    var keys: set<EvKey> := {};
    var i := 0;
    while i < |rows|
      invariant 0 <= i <= |rows| && table == rows[..i] && DistinctKeys(table)
      invariant forall k :: k in keys <==> HasKey(table, k)
    {
      if rows[i].key in keys { return None; }
      table := table + [rows[i]];
      keys := keys + {rows[i].key};
      assert forall k :: HasKey(table, k) <==> HasKey(rows[..i], k) || k == rows[i].key by {
        forall k | HasKey(rows[..i], k) ensures HasKey(table, k) {
          var j :| 0 <= j < i && rows[..i][j].key == k;
          assert table[j].key == k;
        }
        assert table[i].key == rows[i].key;
      }
      i := i + 1;
    }
    return Some(Archive(true, ARCHIVE_SCHEMA_LABEL, fleetId, rows));
  }

  /** The rows the archive command selects: every event whose interval meets [from, to). */
  ghost predicate Exports(events: Events, from: string, to: string, rows: seq<FleetRow>) {
    && DistinctKeys(rows)
    && (forall i :: 0 <= i < |rows| ==> rows[i].key in events && events[rows[i].key].remote == rows[i].remote
                                        && Overlaps(rows[i].remote, from, to))
    && (forall k :: k in events && Overlaps(events[k].remote, from, to) ==> HasKey(rows, k))
  }

  /** An archive of a window, restored into an empty cache, is exactly the events of that window. */
  lemma CreateThenRestore(events: Events, from: string, to: string, rows: seq<FleetRow>, now: string)
    requires Exports(events, from, to, rows)
    ensures Consistent(map[], rows)
    ensures Payloads(Merged(map[], rows, now)) == map k | k in events && Overlaps(events[k].remote, from, to) :: events[k].remote
  {
    var restored := Merged(map[], rows, now);
    forall k | k in restored
      ensures k in events && Overlaps(events[k].remote, from, to) && restored[k].remote == events[k].remote
    {
      var i :| 0 <= i < |rows| && rows[i].key == k;
      MergeHolds(map[], rows, now, i);
    }
  }

  /** Restored into the cache it was taken from, it inserts nothing. */
  lemma RestoreIntoItself(events: Events, from: string, to: string, rows: seq<FleetRow>, now: string)
    requires Exports(events, from, to, rows)
    ensures Consistent(events, rows) && Merged(events, rows, now) == events
  {}

  /** restore_archive_into_cache; `fault` names the row, or the rebuild, at which a statement raises. */
  method RestoreArchiveIntoCache(a: Archive, cache: FleetCache, now: string, fault: Option<nat>)
    returns (r: Result<Report, RestoreError>)
    modifies cache
    ensures r == Err(Unreadable) <==> !(a.complete && a.schema == "audit-archive/v1")
    ensures r == Err(FleetMismatch) <==>
              a.complete && a.schema == "audit-archive/v1" && a.fleetId != "" && cache.fleetId != "" && a.fleetId != cache.fleetId
    ensures r == Err(Conflict) ==> !Consistent(old(cache.events), a.rows)
    ensures r == Err(Interrupted) ==> fault.Some?
    ensures r.Ok? ==> Consistent(old(cache.events), a.rows)
    ensures cache.Db() == if r.Ok? then Restored(old(cache.Db()), a.rows, now) else old(cache.Db())
    ensures r.Ok? ==> r.value.inserted + r.value.deduped == |a.rows|
    ensures r.Ok? ==> |cache.events| == |old(cache.events)| + r.value.inserted
    ensures r.Ok? ==> r.value.aggregated == |Touched(old(cache.events), cache.events)|
  {
    hide StrictTotal, Consistent, Touched, Merged;
    if !Verified(a) { return Err(Unreadable); }
    if !FleetFits(a, cache.Db()) { return Err(FleetMismatch); }
    var saved := cache.Db();
    var merged, touched := MergeRows(a.rows, cache, now, fault);
    if merged.Err? { cache.Rollback(saved); return Err(merged.error); }
    RebuildTouched(cache, OrderBy(ByText(), touched));
    if fault == Some(|a.rows|) { cache.Rollback(saved); return Err(Interrupted); }
    return merged;
  }

  /** The insert-or-compare loop; on an error the caller rolls back. */
  method MergeRows(rows: seq<FleetRow>, cache: FleetCache, now: string, fault: Option<nat>)
    returns (r: Result<Report, RestoreError>, touched: set<string>)
    modifies cache`events
    ensures r.Ok? ==> Consistent(old(cache.events), rows)
    ensures r.Ok? ==> cache.events == Merged(old(cache.events), rows, now) && touched == Touched(old(cache.events), cache.events)
    ensures r.Ok? ==> r.value.inserted + r.value.deduped == |rows| && |cache.events| == |old(cache.events)| + r.value.inserted
    ensures r.Ok? ==> r.value.aggregated == |touched|
    ensures r.Err? ==> (r.error.Conflict? && !Consistent(old(cache.events), rows)) || (r.error.Interrupted? && fault.Some?)
  {
    hide StrictTotal, Consistent, Touched, Merged;
    ghost var before := cache.events;
    var inserted, deduped := 0, 0;
    touched := {};
    NothingYet(before, now);
    var i := 0;
    while i < |rows|
      invariant 0 <= i <= |rows| && inserted + deduped == i && |cache.events| == |before| + inserted
      invariant Consistent(before, rows[..i])
      invariant cache.events == Merged(before, rows[..i], now)
      invariant touched == Touched(before, cache.events)
    {
      if fault == Some(i) { r := Err(Interrupted); return; }
      var row := rows[i];
      ConsistentStep(before, rows, now, i);
      MergedStep(before, rows, now, i);
      if row.key in cache.events {
        if cache.events[row.key].remote != row.remote {
          ConflictIsFinal(before, rows, i + 1);
          r := Err(Conflict);
          return;
        }
        deduped := deduped + 1;
      } else {
        TouchedGrows(before, cache.events, row, now);
        cache.events := cache.events[row.key := Cached(row.remote, now)];
        inserted := inserted + 1;
        if row.key.nodeId != "" { touched := touched + {row.key.nodeId}; }
      }
      i := i + 1;
    }
    assert rows[..|rows|] == rows;
    r := Ok(Report(inserted, deduped, |touched|));
  }

  lemma NothingYet(events: Events, now: string)
    ensures Consistent(events, []) && Touched(events, events) == {} && Merged(events, [], now) == events
  {}

  lemma MergedStep(events: Events, rows: seq<FleetRow>, now: string, n: nat)
    requires n < |rows|
    ensures var before := Merged(events, rows[..n], now);
            && Merged(events, rows[..n + 1], now)
               == (if rows[n].key in before then before else before[rows[n].key := Cached(rows[n].remote, now)])
            && (rows[n].key in events ==> rows[n].key in before)
  {
    assert rows[..n + 1][..n] == rows[..n];
  }

  /** A conflict with a prefix of the archive is a conflict with all of it. */
  lemma ConflictIsFinal(events: Events, rows: seq<FleetRow>, n: nat)
    requires n <= |rows| && !Consistent(events, rows[..n])
    ensures !Consistent(events, rows)
  {
    if Consistent(events, rows) { ConsistentPrefix(events, rows, n); }
  }

  lemma TouchedGrows(events: Events, before: Events, row: FleetRow, now: string)
    requires row.key !in before && row.key !in events
    ensures var after := before[row.key := Cached(row.remote, now)];
            && |after| == |before| + 1
            && Touched(events, after) == Touched(events, before) + if row.key.nodeId != "" then {row.key.nodeId} else {}
  {}

  method RebuildTouched(cache: FleetCache, nodes: seq<string>)
    modifies cache`daily
    ensures cache.daily == RebuiltAll(cache.events, old(cache.daily), nodes)
  {
    var i := 0;
    while i < |nodes|
      invariant 0 <= i <= |nodes|
      invariant cache.daily == RebuiltAll(cache.events, old(cache.daily), nodes[..i])
    {
      assert nodes[..i + 1][..i] == nodes[..i];
      cache.daily := Rebuilt(cache.events, cache.daily, nodes[i]);
      i := i + 1;
    }
    assert nodes[..|nodes|] == nodes;
  }
}
