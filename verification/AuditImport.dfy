/** What one import transaction does to the cache: import_audit_batch on table values. */
module AuditImport {

  import opened Prelude
  import opened Ordering
  import opened Wire
  import opened CacheTables
  import opened AuditExport

  const SYNC_STATUS_OK: string := "OK"
  const SYNC_STATUS_ERROR: string := "ERROR"
  const SYNC_STATUS_EXPIRED: string := "CURSOR_EXPIRED"

  /** A row ready for the UPSERT. */
  datatype Param = Param(eventId: int, cached: Cached)

  function IntOrDefault(j: Json, default: int): Option<int> {
    if Blank(j) then Some(default) else IntOf(j)
  }

  /** _audit_insert_params; `None` where a missing or malformed field ends the process. */
  function InsertParams(row: WireRow, now: string): Option<Param> {
    if row.NotAnObject? then None else
      var cid, uid := OptionalText(row.connectionId), OptionalText(row.userId);
      var started, seen := OptionalText(row.startedAt), OptionalText(row.lastSeen);
      var gen, up, dn := IntOrDefault(row.generation, 0), IntOrDefault(row.up, 0), IntOrDefault(row.dn, 0);
      var eventId, exportSeq, port := IntOf(row.eventId), IntOf(row.exportSeq), IntOf(row.port);
      if Blank(row.eventId) || cid.None? || uid.None? || started.None? || seen.None? then None
      else if eventId.None? || gen.None? || (port.None? && !Blank(row.port)) || up.None? || dn.None? then None
      else if Blank(row.exportSeq) || exportSeq.None? then None
      else
        Some(Param(eventId.value, Cached(
          Remote(OptionalText(row.instanceId), exportSeq, cid.value, gen.value, uid.value, OptionalText(row.userTag),
                 started.value, seen.value, OptionalText(row.closedAt), OptionalText(row.host), OptionalText(row.ip),
                 if Blank(row.port) then None else port, OptionalText(row.network), up.value, dn.value),
          now)))
  }

  /** A row without one of the required columns is refused. */
  lemma RequiredColumns(row: WireRow, now: string)
    requires row.WireRow?
    ensures JNull in [row.eventId, row.exportSeq, row.connectionId, row.userId, row.startedAt, row.lastSeen]
            || JStr("") in [row.eventId, row.exportSeq, row.connectionId, row.userId, row.startedAt, row.lastSeen] ==>
              InsertParams(row, now).None?
  {
    assert Strip("") == "";
    hide Strip, IntText;
  }

  /** A row with integers, or nothing where that is allowed, and non-blank text in the required columns is accepted. */
  lemma AcceptedColumns(row: WireRow, now: string)
    requires row.WireRow? && row.eventId.JInt? && row.exportSeq.JInt?
    requires row.connectionId.JStr? && row.userId.JStr? && row.startedAt.JStr? && row.lastSeen.JStr?
    requires Strip(row.connectionId.s) != "" && Strip(row.userId.s) != "" && Strip(row.startedAt.s) != "" && Strip(row.lastSeen.s) != ""
    requires (row.generation.JInt? || Blank(row.generation)) && (row.up.JInt? || Blank(row.up)) && (row.dn.JInt? || Blank(row.dn))
    requires row.port.JInt? || Blank(row.port)
    ensures InsertParams(row, now).Some?
  {
    hide Strip;
  }

  /** What is stored of a row; a missing counter, generation or port is filled in. */
  lemma RowInColumns(row: WireRow, now: string)
    requires row.WireRow?
    ensures InsertParams(row, now).Some? ==>
              var p := InsertParams(row, now).value;
              var r := p.cached.remote;
              && p.cached.importedAt == now
              && (row.eventId.JInt? ==> p.eventId == row.eventId.n) && (row.exportSeq.JInt? ==> r.exportSeq == Some(row.exportSeq.n))
              && (row.generation.JInt? ==> r.generation == row.generation.n) && (row.generation.JNull? ==> r.generation == 0)
              && (row.up.JInt? ==> r.up == row.up.n) && (row.up.JNull? ==> r.up == 0)
              && (row.dn.JInt? ==> r.dn == row.dn.n) && (row.dn.JNull? ==> r.dn == 0)
              && (row.port.JInt? ==> r.port == Some(row.port.n)) && (row.port.JNull? ==> r.port.None?)
              && r.connectionId == Strip(Text(row.connectionId)) && r.userId == Strip(Text(row.userId))
              && r.startedAt == Strip(Text(row.startedAt)) && r.lastSeen == Strip(Text(row.lastSeen))
              && (row.closedAt.JNull? ==> r.closedAt.None?) && (row.closedAt.JStr? && Strip(row.closedAt.s) != "" ==> r.closedAt == Some(Strip(row.closedAt.s)))
              && (row.host.JStr? && Strip(row.host.s) != "" ==> r.host == Some(Strip(row.host.s)))
              && (row.ip.JStr? && Strip(row.ip.s) != "" ==> r.ip == Some(Strip(row.ip.s)))
              && (row.userTag.JStr? && Strip(row.userTag.s) != "" ==> r.userTag == Some(Strip(row.userTag.s)))
              && (row.network.JStr? && Strip(row.network.s) != "" ==> r.network == Some(Strip(row.network.s)))
              && (row.instanceId.JStr? && Strip(row.instanceId.s) != "" ==> r.instanceId == Some(Strip(row.instanceId.s)))
  {
    assert Strip("") == "";
    hide Strip, IntText;
  }

  function InstanceOf(instanceId: Option<string>): Option<string> {
    OptionalText(OptionText(instanceId))
  }

  predicate IdentityFits(nodeId: string, instanceId: Option<string>) {
    var inst := InstanceOf(instanceId);
    IsUuid(nodeId) && (inst.Some? ==> IsUuid(inst.value) && inst.value != nodeId)
  }

  predicate RowImportable(row: WireRow, nodeId: string, now: string) {
    row.WireRow? && OptionalText(row.nodeId) == Some(nodeId) && InsertParams(row, now).Some?
  }

  ghost predicate Importable(nodeId: string, instanceId: Option<string>, rows: seq<WireRow>, next: Option<int>, now: string) {
    && IdentityFits(nodeId, instanceId)
    && (forall row :: row in rows ==> RowImportable(row, nodeId, now))
    && (next.Some? ==> next.value >= 0)
  }

  /** INSERT ... ON CONFLICT(node_id, event_id) DO UPDATE, row after row. */
  function UpsertAll(events: Events, nodeId: string, params: seq<Param>): Events {
    if params == [] then events else
      var n := |params| - 1;
      UpsertAll(events, nodeId, params[..n])[EvKey(nodeId, params[n].eventId) := params[n].cached]
  }

  ghost function ParamsOf(rows: seq<WireRow>, now: string): (params: seq<Param>)
    requires forall row :: row in rows ==> InsertParams(row, now).Some?
    ensures |params| == |rows| && forall i :: 0 <= i < |rows| ==> InsertParams(rows[i], now) == Some(params[i])
  {
    if rows == [] then [] else
      assert rows[0] in rows;
      [InsertParams(rows[0], now).value] + ParamsOf(rows[1..], now)
  }

  function MaxOf(s: set<int>): (m: Option<int>)
    ensures m.None? <==> s == {}
    ensures m.Some? ==> m.value in s && forall x :: x in s ==> x <= m.value
  {
    if s == {} then None else Some(Least((a: int, b: int) => a > b, s))
  }

  function SeqsIn(events: Events, nodeId: string): set<int> {
    set k | k in events && k.nodeId == nodeId && events[k].remote.exportSeq.Some? :: events[k].remote.exportSeq.value
  }

  function IdsIn(events: Events, nodeId: string): set<int> {
    set k | k in events && k.nodeId == nodeId :: k.eventId
  }

  function CursorSeq(db: CacheDb, nodeId: string): int {
    if nodeId in db.cursors then db.cursors[nodeId].lastExportSeq else 0
  }

  function CursorEvent(db: CacheDb, nodeId: string): int {
    if nodeId in db.cursors then db.cursors[nodeId].lastEventId else 0
  }

  function OrPrior(m: Option<int>, prior: int): int {
    if m.Some? then m.value else prior
  }

  /** The committed result of an import. */
  ghost function Imported(db: CacheDb, nodeId: string, instanceId: Option<string>, rows: seq<WireRow>,
                          next: Option<int>, now: string): CacheDb
    requires Importable(nodeId, instanceId, rows, next, now)
  {
    var events' := UpsertAll(db.events, nodeId, ParamsOf(rows, now));
    var seq' := if next.Some? then next.value else OrPrior(MaxOf(SeqsIn(events', nodeId)), CursorSeq(db, nodeId));
    var cursor := Cursor(InstanceOf(instanceId), OrPrior(MaxOf(IdsIn(events', nodeId)), CursorEvent(db, nodeId)),
                         seq', CURSOR_KIND_EXPORT_SEQ, now, SYNC_STATUS_OK);
    db.(events := events', daily := Rebuilt(events', db.daily, nodeId), cursors := db.cursors[nodeId := cursor])
  }

  /** Another node's tables are untouched. */
  ghost predicate OthersKept(db: CacheDb, db': CacheDb, nodeId: string) {
    && (forall k: EvKey :: k.nodeId != nodeId ==> SameAt(db.events, db'.events, k))
    && (forall d: DailyKey :: d.nodeId != nodeId ==> SameAt(db.daily, db'.daily, d))
    && (forall n: string :: n != nodeId ==> SameAt(db.cursors, db'.cursors, n))
  }

  lemma {:induction false} UpsertKeepsOthers(events: Events, nodeId: string, params: seq<Param>, k: EvKey)
    requires forall p :: p in params ==> EvKey(nodeId, p.eventId) != k
    ensures SameAt(events, UpsertAll(events, nodeId, params), k)
    decreases |params|
  {
    if params != [] {
      var n := |params| - 1;
      assert params[n] in params;
      UpsertKeepsOthers(events, nodeId, params[..n], k);
    }
  }

  /** The last row with an event id decides what is stored under it. */
  lemma {:induction false} UpsertStores(events: Events, nodeId: string, params: seq<Param>, i: nat)
    requires i < |params| && forall j :: i < j < |params| ==> params[j].eventId != params[i].eventId
    ensures var k := EvKey(nodeId, params[i].eventId);
            k in UpsertAll(events, nodeId, params) && UpsertAll(events, nodeId, params)[k] == params[i].cached
    decreases |params|
  {
    var n := |params| - 1;
    if i < n { UpsertStores(events, nodeId, params[..n], i); }
  }

  /** An import keeps the daily index in agreement and touches one node only. */
  lemma ImportKeepsIndex(db: CacheDb, nodeId: string, instanceId: Option<string>, rows: seq<WireRow>,
                         next: Option<int>, now: string)
    requires Importable(nodeId, instanceId, rows, next, now) && Indexed(db.events, db.daily)
    ensures var db' := Imported(db, nodeId, instanceId, rows, next, now);
            Indexed(db'.events, db'.daily) && OthersKept(db, db', nodeId)
  {
    hide InsertParams, Indexed, DayIndexed, IdentityFits, MaxOf;
    var params := ParamsOf(rows, now);
    forall k: EvKey | k.nodeId != nodeId ensures SameAt(db.events, UpsertAll(db.events, nodeId, params), k) {
      UpsertKeepsOthers(db.events, nodeId, params, k);
    }
    RebuildKeepsIndex(db.events, UpsertAll(db.events, nodeId, params), db.daily, nodeId);
  }

  /** Rows whose key the cache did not hold before the batch. */
  function NewRows(events: Events, nodeId: string, params: seq<Param>): nat {
    if params == [] then 0 else
      var n := |params| - 1;
      NewRows(events, nodeId, params[..n]) + if EvKey(nodeId, params[n].eventId) in events then 0 else 1
  }

  ghost predicate DistinctIds(params: seq<Param>) {
    forall i, j :: 0 <= i < j < |params| ==> params[i].eventId != params[j].eventId
  }

  /** The reported `inserted` is the growth of the table when no event id repeats. */
  lemma {:induction false} InsertedIsGrowth(events: Events, nodeId: string, params: seq<Param>)
    requires DistinctIds(params)
    ensures |UpsertAll(events, nodeId, params)| == |events| + NewRows(events, nodeId, params)
    decreases |params|
  {
    if params != [] {
      var n := |params| - 1;
      InsertedIsGrowth(events, nodeId, params[..n]);
      var k := EvKey(nodeId, params[n].eventId);
      var before := UpsertAll(events, nodeId, params[..n]);
      UpsertKeepsOthers(events, nodeId, params[..n], k);
      assert before[k := params[n].cached].Keys == before.Keys + {k};
      assert |before.Keys + {k}| == |before.Keys| + if k in before.Keys then 0 else 1;
      assert |before| == |before.Keys| && |before[k := params[n].cached]| == |before.Keys + {k}|;
    }
  }

  /** The cursor of an import: the declared number, or else the greatest cached one; and the greatest event id. */
  lemma ImportedCursor(db: CacheDb, nodeId: string, instanceId: Option<string>, rows: seq<WireRow>, next: Option<int>, now: string)
    requires Importable(nodeId, instanceId, rows, next, now)
    ensures var db' := Imported(db, nodeId, instanceId, rows, next, now);
            var c := db'.cursors[nodeId];
            && (next.Some? ==> c.lastExportSeq == next.value)
            && (next.None? ==> forall k :: k in db'.events && k.nodeId == nodeId && db'.events[k].remote.exportSeq.Some? ==>
                  db'.events[k].remote.exportSeq.value <= c.lastExportSeq)
            && (forall k :: k in db'.events && k.nodeId == nodeId ==> k.eventId <= c.lastEventId)
            && (RowsOf(db'.events, nodeId) == {} && nodeId !in db.cursors ==> c.lastEventId == 0 && (next.None? ==> c.lastExportSeq == 0))
  {
    hide InsertParams, IdentityFits, Rebuilt, UpsertAll;
    var db' := Imported(db, nodeId, instanceId, rows, next, now);
    forall k | k in db'.events && k.nodeId == nodeId ensures k.eventId in IdsIn(db'.events, nodeId) {}
    forall k | k in db'.events && k.nodeId == nodeId && db'.events[k].remote.exportSeq.Some?
      ensures db'.events[k].remote.exportSeq.value in SeqsIn(db'.events, nodeId) {}
    hide MaxOf;
    if RowsOf(db'.events, nodeId) == {} {
      assert forall k :: k in db'.events && k.nodeId == nodeId ==> k in RowsOf(db'.events, nodeId);
      assert IdsIn(db'.events, nodeId) == {} && SeqsIn(db'.events, nodeId) == {};
    }
  }

  /* ---------- the other cursor writes ---------- */

  /** mark_cursor_status: everything but the sequence number and last event id may change. */
  function Marked(db: CacheDb, nodeId: string, instanceId: Option<string>, status: string, now: string): CacheDb {
    var row := if nodeId in db.cursors then Some(db.cursors[nodeId]) else None;
    var inst := if instanceId.None? && row.Some? then row.value.instanceId else instanceId;
    var kind := if row.Some? then OptionalText(JStr(row.value.kind)) else None;
    db.(cursors := db.cursors[nodeId :=
          Cursor(inst, CursorEvent(db, nodeId), CursorSeq(db, nodeId),
                 if kind.Some? then kind.value else CURSOR_KIND_EXPORT_SEQ, now, status)])
  }

  /** reseed_node_local. */
  function Reseeded(db: CacheDb, nodeId: string, instanceId: Option<string>, now: string): CacheDb {
    db.(events := map k | k in db.events && k.nodeId != nodeId :: db.events[k],
        daily := map d | d in db.daily && d.nodeId != nodeId :: db.daily[d],
        cursors := db.cursors[nodeId := Cursor(instanceId, 0, 0, CURSOR_KIND_EXPORT_SEQ, now, SYNC_STATUS_OK)])
  }

  lemma ReseedKeepsIndex(db: CacheDb, nodeId: string, instanceId: Option<string>, now: string)
    requires Indexed(db.events, db.daily)
    ensures var db' := Reseeded(db, nodeId, instanceId, now);
            && Indexed(db'.events, db'.daily) && OthersKept(db, db', nodeId)
            && RowsOf(db'.events, nodeId) == {} && DaysIn(db'.daily, nodeId) == {} && CursorSeq(db', nodeId) == 0
  {
    hide Indexed, DayIndexed, GroupUse;
    var db' := Reseeded(db, nodeId, instanceId, now);
    assert DaysOf(db'.events, nodeId) == {};
    assert db'.daily == Rebuilt(db'.events, db.daily, nodeId);
    RebuildKeepsIndex(db.events, db'.events, db.daily, nodeId);
  }
}
