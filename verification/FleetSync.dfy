/** One sync of one node, as the controller runs it: every branch that ends it, and what it leaves behind. */
module FleetSync {

  import opened Prelude
  import opened Accounting
  import opened AccountingInvariants
  import opened AuditExport
  import opened ExportStream
  import opened ExportValidator
  import opened Wire
  import opened CacheTables
  import opened AuditImport

  datatype Lifecycle = Active | Retired | OtherStatus

  datatype NodeEntry = NodeEntry(nodeId: string, life: Lifecycle, enabled: bool)

  datatype Identity = Identity(nodeId: Json, instanceId: Json)

  /** How the writes of a newly seen instance go: one of them may raise before or after its row is inserted. */
  datatype HistoryWrite = Written | RaisedBefore | RaisedAfter

  /** Everything a sync learns from outside. `identity` is `None` when the identity call fails or is not an
      object; `fault` is the statement of the import transaction that raises, if any. */
  datatype Attempt = Attempt(
    identity: Option<Identity>, history: HistoryWrite, reply: Reply, fault: Option<nat>, now: string)

  /** One user as the node listed it. */
  datatype UserRow = UserRow(userId: string, row: string)

  /** What only a full sync asks for: the status and user list answered, the snapshot rows made of them, a
      statement of the snapshot writes that raises, and whether appending history lines after the commit works. */
  datatype FullAttempt = FullAttempt(
    base: Attempt, statusOk: bool, usersOk: bool, nodeRow: string, listed: seq<UserRow>, snapshotRaises: bool, flushed: bool)

  datatype SyncStatus = Succeeded | Failed | Expired | NotActive

  /** `Died`: an exception ended the process. */
  datatype Outcome = Died | Done(status: SyncStatus, inserted: nat, updated: nat, lastSeq: int)

  /** `Rejected`: a check before the transaction ended the import. `Raised`: a statement in it failed. */
  datatype ImportError = Rejected | Raised

  const STATEMENTS: nat := 4

  predicate Faulted(fault: Option<nat>) {
    fault.Some? && fault.value < STATEMENTS
  }

  function InstanceIdOf(a: Attempt): Option<string> {
    if a.identity.Some? then OptionalText(a.identity.value.instanceId) else None
  }

  function NextOf(r: Reply): int {
    if r.meta.Some? && r.meta.value.nextCursor.JInt? then r.meta.value.nextCursor.n else 0
  }

  /** The export exited well and its batch passes the validator. */
  ghost predicate BatchPasses(nodeId: string, inst: Option<string>, after: int, r: Reply) {
    r.code == 0 && r.rows.Some? && Acceptable(r.meta, r.rows.value, after, nodeId, inst)
  }

  /** ... and the importer, and no statement of the import raises. */
  ghost predicate BatchLands(nodeId: string, inst: Option<string>, after: int, a: Attempt) {
    && BatchPasses(nodeId, inst, after, a.reply)
    && Importable(nodeId, inst, a.reply.rows.value, Some(NextOf(a.reply)), a.now)
    && !Faulted(a.fault)
  }

  /** ... or one of them does, which nobody catches. */
  ghost predicate ImportRaises(db: CacheDb, nodeId: string, a: Attempt) {
    var inst := InstanceIdOf(a);
    && BatchPasses(nodeId, inst, CursorSeq(db, nodeId), a.reply)
    && Importable(nodeId, inst, a.reply.rows.value, Some(NextOf(a.reply)), a.now) && Faulted(a.fault)
  }

  predicate IdentityAnswers(node: NodeEntry, a: Attempt) {
    a.identity.Some? && a.identity.value.nodeId == JStr(node.nodeId)
  }

  predicate CursorKindFits(db: CacheDb, nodeId: string) {
    nodeId in db.cursors ==> OptionalText(JStr(db.cursors[nodeId].kind)) == Some(CURSOR_KIND_EXPORT_SEQ)
  }

  /* ---------- the instance history ---------- */

  /** A UUID the node never reported before; any other text is not recorded at all. */
  predicate FirstSight(db: CacheDb, nodeId: string, inst: Option<string>) {
    inst.Some? && IsUuid(inst.value) && Instance(nodeId, inst.value) !in db.instances
  }

  /** Recording refuses a node id as instance id, and a new row for a node id that is no UUID. */
  predicate Unrecordable(db: CacheDb, nodeId: string, inst: Option<string>) {
    inst.Some? && IsUuid(inst.value) && (inst.value == nodeId || (FirstSight(db, nodeId, inst) && !IsUuid(nodeId)))
  }

  /** The step that records the instance does not raise. */
  predicate Records(db: CacheDb, nodeId: string, a: Attempt) {
    !Unrecordable(db, nodeId, InstanceIdOf(a)) && (FirstSight(db, nodeId, InstanceIdOf(a)) ==> a.history.Written?)
  }

  function Noted(db: CacheDb, nodeId: string, inst: Option<string>): CacheDb {
    if FirstSight(db, nodeId, inst) then db.(instances := db.instances + {Instance(nodeId, inst.value)}) else db
  }

  /** The identity is accepted, and recording its instance is next. */
  predicate Identified(db: CacheDb, node: NodeEntry, a: Attempt) {
    CursorKindFits(db, node.nodeId) && node.life.Active? && node.enabled && IdentityAnswers(node, a)
  }

  /** The export is asked for. */
  predicate Asks(db: CacheDb, node: NodeEntry, a: Attempt) {
    Identified(db, node, a) && Records(db, node.nodeId, a)
  }

  /** sync_one_node records the instance outside any transaction, so the row stays whatever happens next. */
  function InstancesAfter(db: CacheDb, node: NodeEntry, a: Attempt): set<Instance> {
    var inst := InstanceIdOf(a);
    if Identified(db, node, a) && !Unrecordable(db, node.nodeId, inst) && !a.history.RaisedBefore?
    then Noted(db, node.nodeId, inst).instances else db.instances
  }

  ghost predicate SyncSucceeds(db: CacheDb, node: NodeEntry, a: Attempt) {
    Asks(db, node, a) && BatchLands(node.nodeId, InstanceIdOf(a), CursorSeq(db, node.nodeId), a)
  }

  /** INSERT INTO user_snapshot, user after user: a blank id is skipped, a repeated one violates the key. */
  function InsertUsers(users: map<UserKey, string>, nodeId: string, listed: seq<UserRow>): Option<map<UserKey, string>> {
    if listed == [] then Some(users) else
      var n := |listed| - 1;
      var before := InsertUsers(users, nodeId, listed[..n]);
      if before.None? || listed[n].userId == "" then before
      else if UserKey(nodeId, listed[n].userId) in before.value then None
      else Some(before.value[UserKey(nodeId, listed[n].userId) := listed[n].row])
  }

  function WithoutNode(users: map<UserKey, string>, nodeId: string): map<UserKey, string> {
    map k | k in users && k.nodeId != nodeId :: users[k]
  }

  /** The user rows of one node after the snapshot. */
  function Snapshot(db: CacheDb, nodeId: string, f: FullAttempt): Option<map<UserKey, string>> {
    InsertUsers(WithoutNode(db.users, nodeId), nodeId, f.listed)
  }

  predicate Listed(listed: seq<UserRow>, userId: string) {
    exists i :: 0 <= i < |listed| && listed[i].userId == userId
  }

  ghost predicate DistinctUsers(listed: seq<UserRow>) {
    forall i, j :: 0 <= i < j < |listed| && listed[i].userId != "" ==> listed[i].userId != listed[j].userId
  }

  lemma OneMoreUser(listed: seq<UserRow>)
    requires listed != []
    ensures var n := |listed| - 1;
            && (forall u :: Listed(listed, u) <==> Listed(listed[..n], u) || u == listed[n].userId)
            && (DistinctUsers(listed) <==> DistinctUsers(listed[..n]) && (listed[n].userId == "" || !Listed(listed[..n], listed[n].userId)))
  {
    var n := |listed| - 1;
    var front, last := listed[..n], listed[n].userId;
    forall u ensures Listed(listed, u) <==> Listed(front, u) || u == last {
      if Listed(front, u) {
        var i :| 0 <= i < n && front[i].userId == u;
        assert listed[i].userId == u;
      }
      if Listed(listed, u) && u != last {
        var i :| 0 <= i < |listed| && listed[i].userId == u;
        assert front[i].userId == u;
      }
      assert listed[n].userId == last;
    }
    if DistinctUsers(listed) {
      forall i, j | 0 <= i < j < n && front[i].userId != "" ensures front[i].userId != front[j].userId {
        assert listed[i] == front[i] && listed[j] == front[j];
      }
    }
    if DistinctUsers(front) && (last == "" || !Listed(front, last)) {
      forall i, j | 0 <= i < j < |listed| && listed[i].userId != "" ensures listed[i].userId != listed[j].userId {
        assert listed[i] == front[i];
        assert j < n ==> listed[j] == front[j];
        assert Listed(front, front[i].userId);
      }
    }
  }

  /** A snapshot is taken exactly when no user is listed twice; it then holds exactly the listed users of the node,
      and other nodes' users stay. */
  lemma {:induction false} SnapshotIsTheList(users: map<UserKey, string>, nodeId: string, listed: seq<UserRow>)
    requires forall k :: k in users ==> k.nodeId != nodeId
    ensures InsertUsers(users, nodeId, listed).Some? <==> DistinctUsers(listed)
    ensures InsertUsers(users, nodeId, listed).Some? ==>
              var t := InsertUsers(users, nodeId, listed).value;
              && (forall u: string :: UserKey(nodeId, u) in t <==> u != "" && Listed(listed, u))
              && (forall k: UserKey :: k.nodeId != nodeId ==> SameAt(users, t, k))
    decreases |listed|
  {
    if listed != [] {
      hide DistinctUsers, Listed;
      SnapshotIsTheList(users, nodeId, listed[..|listed| - 1]);
      OneMoreUser(listed);
    } else {
      assert DistinctUsers([]);
    }
  }

  ghost predicate FullSyncCommits(db: CacheDb, node: NodeEntry, f: FullAttempt) {
    && node.life.Active? && node.enabled && IdentityAnswers(node, f.base) && f.statusOk && f.usersOk
    && !f.snapshotRaises && Snapshot(db, node.nodeId, f).Some?
    && (FirstSight(db, node.nodeId, InstanceIdOf(f.base)) ==> f.base.history.Written?)
    && BatchLands(node.nodeId, InstanceIdOf(f.base), CursorSeq(db, node.nodeId), f.base)
  }

  /** Only a newly seen instance leaves history lines to append after the commit, and the append raises. */
  predicate FlushFails(db: CacheDb, node: NodeEntry, f: FullAttempt) {
    FirstSight(db, node.nodeId, InstanceIdOf(f.base)) && !f.flushed
  }

  /** Everything was asked for and answered. */
  predicate Pulled(node: NodeEntry, f: FullAttempt) {
    node.life.Active? && node.enabled && IdentityAnswers(node, f.base) && f.statusOk && f.usersOk
  }

  /** The export's own complaint about the cursor. */
  predicate SaysExpired(r: Reply) {
    r.meta.Some? && r.meta.value.error.JStr? && Strip(r.meta.value.error.s) == "CURSOR_EXPIRED"
  }

  ghost function Landed(db: CacheDb, nodeId: string, a: Attempt): CacheDb
    requires BatchLands(nodeId, InstanceIdOf(a), CursorSeq(db, nodeId), a)
  {
    Imported(Noted(db, nodeId, InstanceIdOf(a)), nodeId, InstanceIdOf(a), a.reply.rows.value, Some(NextOf(a.reply)), a.now)
  }

  /** No event, no daily row, no sequence number and no last event id moved. */
  ghost predicate Unmoved(db: CacheDb, db': CacheDb) {
    && db'.fleetId == db.fleetId && db'.events == db.events && db'.daily == db.daily
    && db'.nodes == db.nodes && db'.users == db.users
    && (forall n: string :: CursorSeq(db', n) == CursorSeq(db, n) && CursorEvent(db', n) == CursorEvent(db, n))
    && (forall n: string :: n in db.cursors && CursorKindFits(db, n) ==> CursorKindFits(db', n))
    && (forall n: string :: n in db'.cursors && n !in db.cursors ==> CursorKindFits(db', n))
  }

  /** The cursor row of a sync that failed after it asked the node who it is: the new status and time, the instance
      the node reported or else the former one, and nothing moved. */
  ghost predicate StatusStored(db: CacheDb, db': CacheDb, nodeId: string, inst: Option<string>, expired: bool, now: string) {
    nodeId in db'.cursors &&
    var c := db'.cursors[nodeId];
    && c.status == (if expired then "CURSOR_EXPIRED" else "ERROR") && c.lastSyncAt == now
    && c.instanceId == (if inst.Some? then inst else if nodeId in db.cursors then db.cursors[nodeId].instanceId else None)
    && c.kind == "export_seq"
    && (if nodeId in db.cursors
        then c.lastExportSeq == db.cursors[nodeId].lastExportSeq && c.lastEventId == db.cursors[nodeId].lastEventId
        else c.lastExportSeq == 0 && c.lastEventId == 0)
    && (forall n: string :: n != nodeId ==> SameAt(db.cursors, db'.cursors, n))
  }

  /** The greatest cached event id of a node that has any. */
  predicate LastEvent(events: Events, nodeId: string, last: int) {
    forall k :: k in events && k.nodeId == nodeId ==> k.eventId <= last && EvKey(nodeId, last) in events
  }

  lemma LastEventIs(events: Events, nodeId: string, prior: int)
    ensures LastEvent(events, nodeId, OrPrior(MaxOf(IdsIn(events, nodeId)), prior))
  {
    hide MaxOf;
    var ids := IdsIn(events, nodeId);
    forall k | k in events && k.nodeId == nodeId ensures k.eventId in ids {}
  }

  /** The cursor row of a sync that landed. */
  ghost predicate LandedStored(db: CacheDb, db': CacheDb, nodeId: string, inst: Option<string>, next: int, now: string) {
    nodeId in db'.cursors &&
    var c := db'.cursors[nodeId];
    && c.status == "OK" && c.lastSyncAt == now && c.kind == "export_seq" && c.lastExportSeq == next
    && c.instanceId == (if inst.Some? then OptionalText(JStr(inst.value)) else None)
    && LastEvent(db'.events, nodeId, c.lastEventId)
    && (forall n: string :: n != nodeId ==> SameAt(db.cursors, db'.cursors, n))
  }

  /** No event is listed twice. */
  predicate DistinctEvents(rows: seq<WireRow>) {
    forall i, j :: 0 <= i < j < |rows| && rows[i].WireRow? && rows[j].WireRow? ==> rows[i].eventId != rows[j].eventId
  }

  /** What one sync does to the cache. */
  ghost predicate Synced(db: CacheDb, node: NodeEntry, a: Attempt, db': CacheDb) {
    if SyncSucceeds(db, node, a) then db' == Landed(db, node.nodeId, a)
    else Unmoved(db, db') && db'.instances == InstancesAfter(db, node, a)
  }

  /** Everything a full sync commits at once. */
  ghost function FullLanded(db: CacheDb, node: NodeEntry, f: FullAttempt): CacheDb
    requires FullSyncCommits(db, node, f)
  {
    Landed(db, node.nodeId, f.base).(nodes := db.nodes[node.nodeId := f.nodeRow], users := Snapshot(db, node.nodeId, f).value)
  }

  ghost predicate FullSynced(db: CacheDb, node: NodeEntry, f: FullAttempt, db': CacheDb) {
    db' == if FullSyncCommits(db, node, f) then FullLanded(db, node, f) else db
  }

  lemma MarkMovesNothing(db: CacheDb, nodeId: string, inst: Option<string>, status: string, now: string)
    requires CursorKindFits(db, nodeId)
    ensures Unmoved(db, Marked(db, nodeId, inst, status, now))
  {
    TrimmedText(CURSOR_KIND_EXPORT_SEQ);
    hide OptionalText;
    var db' := Marked(db, nodeId, inst, status, now);
    forall n: string
      ensures CursorSeq(db', n) == CursorSeq(db, n) && CursorEvent(db', n) == CursorEvent(db, n)
      ensures n in db.cursors && CursorKindFits(db, n) ==> CursorKindFits(db', n)
      ensures n in db'.cursors && n !in db.cursors ==> CursorKindFits(db', n)
    {
      assert n != nodeId ==> SameAt(db.cursors, db'.cursors, n);
    }
  }

  lemma MarkStores(db: CacheDb, nodeId: string, inst: Option<string>, expired: bool, now: string)
    requires CursorKindFits(db, nodeId)
    ensures StatusStored(db, Marked(db, nodeId, inst, if expired then SYNC_STATUS_EXPIRED else SYNC_STATUS_ERROR, now), nodeId, inst, expired, now)
  {
    hide OptionalText;
  }

  lemma ImportStores(db: CacheDb, nodeId: string, inst: Option<string>, rows: seq<WireRow>, next: int, now: string)
    requires Importable(nodeId, inst, rows, Some(next), now)
    ensures LandedStored(db, Imported(db, nodeId, inst, rows, Some(next), now), nodeId, inst, next, now)
  {
    assert OptionalText(JNull).None?;
    LastEventIs(UpsertAll(db.events, nodeId, ParamsOf(rows, now)), nodeId, CursorEvent(db, nodeId));
    hide Rebuilt, UpsertAll, OptionalText, OrPrior, IdsIn, LastEvent, RowImportable, IdentityFits, InsertParams;
  }

  /** Both speak of the cursors before only. */
  lemma StoredSince(db: CacheDb, mid: CacheDb, db': CacheDb, nodeId: string, inst: Option<string>, a: Attempt)
    requires mid.cursors == db.cursors
    ensures forall expired :: StatusStored(mid, db', nodeId, inst, expired, a.now) ==> StatusStored(db, db', nodeId, inst, expired, a.now)
    ensures LandedStored(mid, db', nodeId, inst, NextOf(a.reply), a.now) ==> LandedStored(db, db', nodeId, inst, NextOf(a.reply), a.now)
  {}

  /** The cursor row and the events after a full sync that committed. */
  lemma FullLandedStored(db: CacheDb, node: NodeEntry, f: FullAttempt)
    requires FullSyncCommits(db, node, f)
    ensures LandedStored(db, FullLanded(db, node, f), node.nodeId, InstanceIdOf(f.base), NextOf(f.base.reply), f.base.now)
    ensures DistinctEvents(f.base.reply.rows.value) ==>
              && (forall row :: row in f.base.reply.rows.value ==> InsertParams(row, f.base.now).Some?)
              && |FullLanded(db, node, f).events|
                 == |db.events| + NewRows(db.events, node.nodeId, ParamsOf(f.base.reply.rows.value, f.base.now))
  {
    var a, inst := f.base, InstanceIdOf(f.base);
    var mid := Noted(db, node.nodeId, inst);
    NotedMovesNothing(db, node.nodeId, inst);
    assert BatchLands(node.nodeId, inst, CursorSeq(db, node.nodeId), a);
    hide BatchPasses, Snapshot, Importable, Noted, Imported, DistinctEvents, NewRows, ParamsOf, InsertParams, Unmoved;
    ImportStores(mid, node.nodeId, inst, a.reply.rows.value, NextOf(a.reply), a.now);
    if DistinctEvents(a.reply.rows.value) { ImportGrows(mid, node.nodeId, inst, CursorSeq(db, node.nodeId), a.reply, a.now); }
  }

  lemma ImportGrows(db: CacheDb, nodeId: string, inst: Option<string>, after: int, r: Reply, now: string)
    requires BatchPasses(nodeId, inst, after, r) && Importable(nodeId, inst, r.rows.value, Some(NextOf(r)), now)
    requires DistinctEvents(r.rows.value)
    ensures var rows := r.rows.value;
            && (forall row :: row in rows ==> InsertParams(row, now).Some?)
            && |Imported(db, nodeId, inst, rows, Some(NextOf(r)), now).events| == |db.events| + NewRows(db.events, nodeId, ParamsOf(rows, now))
  {
    var rows := r.rows.value;
    hide Rebuilt, OptionalText, MaxOf, HeaderFits, CursorFits, IdentityFits, InsertParams;
    var params := ParamsOf(rows, now);
    forall i, j | 0 <= i < j < |params| ensures params[i].eventId != params[j].eventId {
      assert RowFits(rows, i, after, nodeId) && RowFits(rows, j, after, nodeId);
      NumberedParam(rows[i], now);
      NumberedParam(rows[j], now);
    }
    InsertedIsGrowth(db.events, nodeId, params);
  }

  lemma NumberedParam(row: WireRow, now: string)
    requires row.WireRow? && row.eventId.JInt? && InsertParams(row, now).Some?
    ensures InsertParams(row, now).value.eventId == row.eventId.n
  {
    hide OptionalText;
  }

  /** Whoever answered, a sync that lands moves the cursor to the last accepted row and never backwards. */
  lemma LandedCursor(db: CacheDb, nodeId: string, a: Attempt)
    requires BatchLands(nodeId, InstanceIdOf(a), CursorSeq(db, nodeId), a)
    ensures CursorSeq(Landed(db, nodeId, a), nodeId) == NextOf(a.reply) >= CursorSeq(db, nodeId)
    ensures forall row :: row in a.reply.rows.value ==>
              row.WireRow? && row.exportSeq.JInt? && CursorSeq(db, nodeId) < row.exportSeq.n <= NextOf(a.reply)
  {
    hide Importable, Imported, HeaderFits;
    var rows, after := a.reply.rows.value, CursorSeq(db, nodeId);
    forall row | row in rows ensures row.WireRow? && row.exportSeq.JInt? && after < row.exportSeq.n <= NextOf(a.reply) {
      var i :| 0 <= i < |rows| && rows[i] == row;
      AcceptedIsIncreasing(a.reply.meta, rows, after, nodeId, InstanceIdOf(a), i, i);
    }
    if rows != [] { AcceptedIsIncreasing(a.reply.meta, rows, after, nodeId, InstanceIdOf(a), 0, 0); }
    LandedCursorIsNext(db, nodeId, a);
  }

  lemma LandedCursorIsNext(db: CacheDb, nodeId: string, a: Attempt)
    requires BatchLands(nodeId, InstanceIdOf(a), CursorSeq(db, nodeId), a)
    ensures CursorSeq(Landed(db, nodeId, a), nodeId) == NextOf(a.reply)
  {}

  /** What sync_one_node makes of an export, in its order of checks. */
  method CheckReply(r: Reply, after: int, nodeId: string, inst: Option<string>) returns (next: Result<int, SyncStatus>)
    ensures next.Ok? <==> BatchPasses(nodeId, inst, after, r)
    ensures next.Ok? ==> next.value == NextOf(r)
    ensures next.Err? ==> next.error.Failed? || next.error.Expired?
    ensures next == Err(Expired) <==> r.code != 255 && SaysExpired(r)
  {
    hide HeaderFits, OptionalText, RowFits, CursorFits;
    if r.code == 255 { return Err(Failed); }
    if SaysExpired(r) {
      ComplaintIsNoBatch(r, after, nodeId, inst);
      return Err(Expired);
    }
    if r.meta.Some? && r.meta.value.error.JStr? && Strip(r.meta.value.error.s) == "CURSOR_AHEAD" {
      ComplaintIsNoBatch(r, after, nodeId, inst);
      return Err(Failed);
    }
    if r.code != 0 || r.rows.None? { return Err(Failed); }
    var checked := ValidateExportBatch(r.meta, r.rows.value, after, nodeId, inst);
    if checked.Err? { return Err(Failed); }
    return Ok(checked.value);
  }

  /** The same in sync_full_one_node, which compares the error as it is. */
  method CheckFullReply(r: Reply, after: int, nodeId: string, inst: Option<string>) returns (next: Result<int, SyncStatus>)
    ensures next.Ok? <==> BatchPasses(nodeId, inst, after, r)
    ensures next.Ok? ==> next.value == NextOf(r)
    ensures next.Err? ==> next.error.Failed? || next.error.Expired?
    ensures next == Err(Expired) <==> r.code != 255 && r.meta.Some? && r.meta.value.error == JStr("CURSOR_EXPIRED")
  {
    hide HeaderFits, OptionalText, RowFits, CursorFits;
    assert "CURSOR_EXPIRED"[7] == 'E' && "CURSOR_AHEAD"[7] == 'A';
    if r.code == 255 { return Err(Failed); }
    if r.meta.Some? && (r.meta.value.error == JStr("CURSOR_AHEAD") || r.meta.value.error == JStr("CURSOR_EXPIRED")) {
      ComplaintIsNoBatch(r, after, nodeId, inst);
      return Err(if r.meta.value.error == JStr("CURSOR_EXPIRED") then Expired else Failed);
    }
    if r.code != 0 || r.rows.None? { return Err(Failed); }
    var checked := ValidateExportBatch(r.meta, r.rows.value, after, nodeId, inst);
    if checked.Err? { return Err(Failed); }
    return Ok(checked.value);
  }

  /** The controller's cache database, written by transactions. */
  class FleetCache {

    const fleetId: string
    var events: Events
    var daily: Daily
    var cursors: map<string, Cursor>
    var nodes: map<string, string>
    var users: map<UserKey, string>
    var instances: set<Instance>

    function Db(): CacheDb
      reads this
    {
      CacheDb(fleetId, events, daily, cursors, nodes, users, instances)
    }

    constructor (fleetId: string)
      ensures Db() == CacheDb(fleetId, map[], map[], map[], map[], map[], {}) && Indexed(events, daily)
    {
      this.fleetId := fleetId;
      events, daily, cursors, nodes, users, instances := map[], map[], map[], map[], map[], {};
    }

    method Rollback(saved: CacheDb)
      requires saved.fleetId == fleetId
      modifies this
      ensures Db() == saved
    {
      events, daily, cursors := saved.events, saved.daily, saved.cursors;
      nodes, users, instances := saved.nodes, saved.users, saved.instances;
    }

    /** The checks import_audit_batch makes before it opens a transaction. */
    method LabelRows(nodeId: string, instanceId: Option<string>, rows: seq<WireRow>, now: string)
      returns (params: Option<seq<Param>>)
      ensures params.Some? <==> Importable(nodeId, instanceId, rows, None, now)
      ensures params.Some? ==> params.value == ParamsOf(rows, now)
    {
      hide InsertParams;
      if !IdentityFits(nodeId, instanceId) { return None; }
      var done: seq<Param> := [];
      var i := 0;
      while i < |rows|
        invariant 0 <= i <= |rows| && |done| == i
        invariant forall j :: 0 <= j < i ==> RowImportable(rows[j], nodeId, now) && InsertParams(rows[j], now) == Some(done[j])
      {
        if rows[i].NotAnObject? || OptionalText(rows[i].nodeId) != Some(nodeId) || InsertParams(rows[i], now).None? {
          assert !RowImportable(rows[i], nodeId, now) && rows[i] in rows;
          return None;
        }
        done := done + [InsertParams(rows[i], now).value];
        i := i + 1;
      }
      assert forall row :: row in rows ==> RowImportable(row, nodeId, now);
      assert done == ParamsOf(rows, now);
      return Some(done);
    }

    method CountNew(existing: Events, nodeId: string, params: seq<Param>) returns (inserted: nat, updated: nat)
      ensures inserted == NewRows(existing, nodeId, params) && inserted + updated == |params|
    {
      inserted, updated := 0, 0;
      var i := 0;
      while i < |params|
        invariant 0 <= i <= |params|
        invariant inserted == NewRows(existing, nodeId, params[..i]) && inserted + updated == i
      {
        assert params[..i + 1][..i] == params[..i];
        if EvKey(nodeId, params[i].eventId) in existing { updated := updated + 1; } else { inserted := inserted + 1; }
        i := i + 1;
      }
      assert params[..|params|] == params;
    }

    /** executemany(INSERT ... ON CONFLICT DO UPDATE). */
    method UpsertEvents(nodeId: string, params: seq<Param>)
      modifies this`events
      ensures events == UpsertAll(old(events), nodeId, params)
    {
      var i := 0;
      while i < |params|
        invariant 0 <= i <= |params|
        invariant events == UpsertAll(old(events), nodeId, params[..i])
      {
        assert params[..i + 1][..i] == params[..i];
        events := events[EvKey(nodeId, params[i].eventId) := params[i].cached];
        i := i + 1;
      }
      assert params[..|params|] == params;
    }

    /** import_audit_batch. With `manageTxn` a failed statement rolls everything back; without it the caller does. */
    method ImportAuditBatch(nodeId: string, instanceId: Option<string>, rows: seq<WireRow>, next: Option<int>,
                            now: string, fault: Option<nat>, manageTxn: bool)
      returns (r: Result<Outcome, ImportError>)
      modifies this
      ensures r.Ok? <==> Importable(nodeId, instanceId, rows, next, now) && !Faulted(fault)
      ensures r.Ok? ==> Db() == Imported(old(Db()), nodeId, instanceId, rows, next, now)
      ensures r.Ok? ==> r.value.Done? && r.value.status.Succeeded? && r.value.lastSeq == CursorSeq(Db(), nodeId)
      ensures r.Ok? ==> r.value.inserted == NewRows(old(events), nodeId, ParamsOf(rows, now))
      ensures r.Ok? ==> r.value.inserted + r.value.updated == |rows|
      ensures r.Err? && (manageTxn || !Importable(nodeId, instanceId, rows, next, now)) ==> Db() == old(Db())
      ensures r.Err? ==> (r.error.Rejected? <==> !Importable(nodeId, instanceId, rows, next, now))
    {
      hide IdentityFits, InsertParams, MaxOf, Rebuilt, UpsertAll, NewRows, IdsIn, SeqsIn, ParamsOf, RowImportable;
      var params := LabelRows(nodeId, instanceId, rows, now);
      if params.None? { return Err(Rejected); }
      if next.Some? && next.value < 0 { return Err(Rejected); }
      var saved := Db();
      if fault == Some(0) { return Err(Raised); }
      UpsertEvents(nodeId, params.value);
      if fault == Some(1) { if manageTxn { Rollback(saved); } return Err(Raised); }
      daily := Rebuilt(events, daily, nodeId);
      if fault == Some(2) { if manageTxn { Rollback(saved); } return Err(Raised); }
      var lastSeq := if next.Some? then next.value else OrPrior(MaxOf(SeqsIn(events, nodeId)), CursorSeq(saved, nodeId));
      var lastEvent := OrPrior(MaxOf(IdsIn(events, nodeId)), CursorEvent(saved, nodeId));
      cursors := cursors[nodeId := Cursor(InstanceOf(instanceId), lastEvent, lastSeq, CURSOR_KIND_EXPORT_SEQ, now, SYNC_STATUS_OK)];
      if fault == Some(3) { if manageTxn { Rollback(saved); } return Err(Raised); }
      var inserted, updated := CountNew(saved.events, nodeId, params.value);
      return Ok(Done(Succeeded, inserted, updated, lastSeq));
    }

    method MarkCursorStatus(nodeId: string, instanceId: Option<string>, status: string, now: string) returns (lastSeq: int)
      modifies this`cursors
      ensures Db() == Marked(old(Db()), nodeId, instanceId, status, now)
      ensures lastSeq == CursorSeq(old(Db()), nodeId) == CursorSeq(Db(), nodeId)
    {
      lastSeq := CursorSeq(Db(), nodeId);
      var inst, kind := instanceId, CURSOR_KIND_EXPORT_SEQ;
      if nodeId in cursors {
        if inst.None? { inst := cursors[nodeId].instanceId; }
        var stored := OptionalText(JStr(cursors[nodeId].kind));
        if stored.Some? { kind := stored.value; }
      }
      cursors := cursors[nodeId := Cursor(inst, CursorEvent(Db(), nodeId), lastSeq, kind, now, status)];
    }

    /** reseed_node_local, with the statement that raises. */
    method ReseedNodeLocal(nodeId: string, instanceId: Option<string>, now: string, fault: Option<nat>)
      returns (ok: bool)
      modifies this
      ensures ok <==> IsUuid(nodeId) && !Faulted(fault)
      ensures Db() == if ok then Reseeded(old(Db()), nodeId, instanceId, now) else old(Db())
    {
      if !IsUuid(nodeId) { return false; }
      var saved := Db();
      if fault == Some(0) { return false; }
      events := map k | k in events && k.nodeId != nodeId :: events[k];
      if fault == Some(1) { Rollback(saved); return false; }
      daily := map d | d in daily && d.nodeId != nodeId :: daily[d];
      if fault == Some(2) { Rollback(saved); return false; }
      cursors := cursors[nodeId := Cursor(instanceId, 0, 0, CURSOR_KIND_EXPORT_SEQ, now, SYNC_STATUS_OK)];
      if fault == Some(3) { Rollback(saved); return false; }
      return true;
    }

    /** record_instance, and _record_instance_db_pending in the transaction of a full sync: `None` when it raises,
        otherwise whether the instance is new. */
    method RecordInstance(nodeId: string, inst: Option<string>, write: HistoryWrite) returns (first: Option<bool>)
      modifies this`instances
      ensures first.None? <==> Unrecordable(old(Db()), nodeId, inst) || (FirstSight(old(Db()), nodeId, inst) && !write.Written?)
      ensures first.Some? ==> first.value == FirstSight(old(Db()), nodeId, inst)
      ensures var still := Unrecordable(old(Db()), nodeId, inst) || write.RaisedBefore?;
              Db() == if still then old(Db()) else Noted(old(Db()), nodeId, inst)
    {
      if inst.None? || !IsUuid(inst.value) { return Some(false); }
      if inst.value == nodeId { return None; }
      if Instance(nodeId, inst.value) in instances { return Some(false); }
      if !IsUuid(nodeId) || write.RaisedBefore? { return None; }
      instances := instances + {Instance(nodeId, inst.value)};
      return if write.Written? then Some(true) else None;
    }

    method Fail(node: NodeEntry, inst: Option<string>, expired: bool, now: string) returns (r: Outcome)
      requires CursorKindFits(Db(), node.nodeId)
      modifies this`cursors
      ensures Unmoved(old(Db()), Db()) && StatusStored(old(Db()), Db(), node.nodeId, inst, expired, now)
      ensures r == Done(if expired then Expired else Failed, 0, 0, CursorSeq(old(Db()), node.nodeId))
    {
      var status := if expired then SYNC_STATUS_EXPIRED else SYNC_STATUS_ERROR;
      MarkMovesNothing(Db(), node.nodeId, inst, status, now);
      MarkStores(Db(), node.nodeId, inst, expired, now);
      var lastSeq := MarkCursorStatus(node.nodeId, inst, status, now);
      return Done(if expired then Expired else Failed, 0, 0, lastSeq);
    }

    method SyncOneNode(node: NodeEntry, a: Attempt) returns (r: Outcome)
      modifies this
      ensures Synced(old(Db()), node, a, Db())
      ensures r.Done? && r.status.Succeeded? <==> SyncSucceeds(old(Db()), node, a)
      ensures r.Done? ==> r.lastSeq == CursorSeq(Db(), node.nodeId)
      ensures r.Done? && r.status.Succeeded? ==> r.inserted + r.updated == |a.reply.rows.value|
      ensures r.Done? && r.status.Expired? <==> Asks(old(Db()), node, a) && a.reply.code != 255 && SaysExpired(a.reply)
      ensures r.Done? && r.status.NotActive? ==> Db() == old(Db())
      ensures CursorKindFits(old(Db()), node.nodeId) && r.Done? && (r.status.Failed? || r.status.Expired?) ==>
                StatusStored(old(Db()), Db(), node.nodeId, InstanceIdOf(a), r.status.Expired?, a.now)
      ensures !CursorKindFits(old(Db()), node.nodeId) ==> r.Done? && r.status.Failed? && Db() == old(Db())
      ensures r.Done? && r.status.Succeeded? ==>
                LandedStored(old(Db()), Db(), node.nodeId, InstanceIdOf(a), NextOf(a.reply), a.now)
      ensures r.Done? && r.status.Succeeded? && DistinctEvents(a.reply.rows.value) ==> r.inserted == |Db().events| - |old(Db()).events|
      ensures r.Done? && !r.status.Succeeded? ==> r.inserted == 0 && r.updated == 0
      ensures r.Done? && r.status.NotActive? <==> CursorKindFits(old(Db()), node.nodeId) && !(node.life.Active? && node.enabled)
      ensures r.Died? <==> Identified(old(Db()), node, a) && (Records(old(Db()), node.nodeId, a) ==> ImportRaises(old(Db()), node.nodeId, a))
    {
      hide Importable, Imported, Acceptable, OptionalText, SaysExpired, Unmoved, Noted, FirstSight, Unrecordable, CursorKindFits,
           StatusStored, LandedStored, DistinctEvents, BatchLands;
      assert Unmoved(Db(), Db()) by { NothingMoved(Db()); }
      var after := CursorSeq(Db(), node.nodeId);
      if !CursorKindFits(Db(), node.nodeId) { return Done(Failed, 0, 0, after); }
      if !node.life.Active? || !node.enabled { return Done(NotActive, 0, 0, after); }
      if a.identity.None? {
        r := Fail(node, None, false, a.now);
        return;
      }
      var inst := OptionalText(a.identity.value.instanceId);
      if a.identity.value.nodeId != JStr(node.nodeId) {
        r := Fail(node, inst, false, a.now);
        return;
      }
      NotedMovesNothing(Db(), node.nodeId, inst);
      var first := RecordInstance(node.nodeId, inst, a.history);
      if first.None? { return Died; }
      ghost var mid := Db();
      r := TakeReply(node, inst, after, a);
      StoredSince(old(Db()), mid, Db(), node.nodeId, inst, a);
    }

    /** The part of sync_one_node after the export came back. */
    method TakeReply(node: NodeEntry, inst: Option<string>, after: int, a: Attempt) returns (r: Outcome)
      requires CursorKindFits(Db(), node.nodeId) && inst == InstanceIdOf(a) && after == CursorSeq(Db(), node.nodeId)
      modifies this
      ensures var lands := BatchLands(node.nodeId, inst, after, a);
              && (r.Done? && r.status.Succeeded? <==> lands)
              && (if lands then Db() == Imported(old(Db()), node.nodeId, inst, a.reply.rows.value, Some(NextOf(a.reply)), a.now)
                  else Unmoved(old(Db()), Db()) && instances == old(instances))
      ensures r.Done? ==> r.lastSeq == CursorSeq(Db(), node.nodeId) && !r.status.NotActive?
      ensures r.Done? && r.status.Succeeded? ==> r.inserted + r.updated == |a.reply.rows.value|
      ensures r.Done? && r.status.Expired? <==> a.reply.code != 255 && SaysExpired(a.reply)
      ensures r.Died? <==> ImportRaises(old(Db()), node.nodeId, a)
      ensures r.Done? && !r.status.Succeeded? ==>
                StatusStored(old(Db()), Db(), node.nodeId, inst, r.status.Expired?, a.now) && r.inserted == 0 && r.updated == 0
      ensures r.Done? && r.status.Succeeded? ==> LandedStored(old(Db()), Db(), node.nodeId, inst, NextOf(a.reply), a.now)
      ensures r.Done? && r.status.Succeeded? && DistinctEvents(a.reply.rows.value) ==> r.inserted == |events| - |old(events)|
    {
      hide Importable, Imported, Acceptable, Unmoved, OptionalText, SaysExpired, Faulted, CursorKindFits;
      hide DistinctEvents, LandedStored, StatusStored, NewRows, InsertParams, RowImportable, IdentityFits, UpsertAll, Rebuilt, Stamps;
      assert Unmoved(Db(), Db()) by { NothingMoved(Db()); }
      var next := CheckReply(a.reply, after, node.nodeId, inst);
      if next.Err? {
        r := Fail(node, inst, next.error.Expired?, a.now);
        return;
      }
      if Importable(node.nodeId, inst, a.reply.rows.value, Some(next.value), a.now) {
        ImportStores(Db(), node.nodeId, inst, a.reply.rows.value, next.value, a.now);
        if DistinctEvents(a.reply.rows.value) { ImportGrows(Db(), node.nodeId, inst, after, a.reply, a.now); }
      }
      var imported := ImportAuditBatch(node.nodeId, inst, a.reply.rows.value, Some(next.value), a.now, a.fault, true);
      if imported.Err? {
        if imported.error.Rejected? {
          r := Fail(node, inst, false, a.now);
          return;
        }
        return Died;
      }
      return imported.value;
    }

    /** The node and user snapshots, the first writes of a full sync's transaction. */
    method WriteSnapshots(nodeId: string, f: FullAttempt) returns (taken: bool)
      modifies this`nodes, this`users
      ensures taken <==> !f.snapshotRaises && Snapshot(old(Db()), nodeId, f).Some?
      ensures taken ==> nodes == old(nodes)[nodeId := f.nodeRow] && users == Snapshot(old(Db()), nodeId, f).value
    {
      if f.snapshotRaises { return false; }
      nodes := nodes[nodeId := f.nodeRow];
      users := WithoutNode(users, nodeId);
      ghost var start := users;
      var i := 0;
      while i < |f.listed|
        invariant 0 <= i <= |f.listed| && InsertUsers(start, nodeId, f.listed[..i]) == Some(users)
        invariant nodes == old(nodes)[nodeId := f.nodeRow]
      {
        var u := f.listed[i];
        assert f.listed[..i + 1][..i] == f.listed[..i];
        if u.userId != "" {
          if UserKey(nodeId, u.userId) in users {
            InsertFails(start, nodeId, f.listed, i + 1);
            return false;
          }
          users := users[UserKey(nodeId, u.userId) := u.row];
        }
        i := i + 1;
      }
      assert f.listed[..|f.listed|] == f.listed;
      assert Snapshot(old(Db()), nodeId, f) == Some(users);
      return true;
    }

    /** sync_full_one_node. Its last step comes after the commit. */
    method SyncFullOneNode(node: NodeEntry, f: FullAttempt) returns (r: Outcome)
      modifies this
      ensures FullSynced(old(Db()), node, f, Db())
      ensures r.Done?
      ensures r.status.Succeeded? <==> FullSyncCommits(old(Db()), node, f) && !FlushFails(old(Db()), node, f)
      ensures r.status.NotActive? <==> !(node.life.Active? && node.enabled)
      ensures r.status.Expired? <==>
                Pulled(node, f) && f.base.reply.code != 255 && f.base.reply.meta.Some?
                && f.base.reply.meta.value.error == JStr("CURSOR_EXPIRED")
      ensures FullSyncCommits(old(Db()), node, f) ==>
                LandedStored(old(Db()), Db(), node.nodeId, InstanceIdOf(f.base), NextOf(f.base.reply), f.base.now)
      ensures FullSyncCommits(old(Db()), node, f) && DistinctEvents(f.base.reply.rows.value) ==>
                r.inserted == |Db().events| - |old(Db()).events|
      ensures FullSyncCommits(old(Db()), node, f) ==> r.inserted + r.updated == |f.base.reply.rows.value|
      ensures !FullSyncCommits(old(Db()), node, f) ==> r.inserted == 0 && r.updated == 0
      ensures r.lastSeq == CursorSeq(Db(), node.nodeId)
    {
      hide Importable, Imported, Acceptable, OptionalText, Snapshot, Faulted, LandedStored, DistinctEvents, NewRows,
           InsertParams, RowImportable, IdentityFits, UpsertAll, Rebuilt;
      var saved := Db();
      if FullSyncCommits(saved, node, f) { FullLandedStored(saved, node, f); }
      var after := CursorSeq(saved, node.nodeId);
      if !node.life.Active? || !node.enabled { return Done(NotActive, 0, 0, after); }
      if f.base.identity.None? || f.base.identity.value.nodeId != JStr(node.nodeId) { return Done(Failed, 0, 0, after); }
      var inst := OptionalText(f.base.identity.value.instanceId);
      if !f.statusOk || !f.usersOk { return Done(Failed, 0, 0, after); }
      var reply := f.base.reply;
      var next := CheckFullReply(reply, after, node.nodeId, inst);
      if next.Err? { return Done(next.error, 0, 0, after); }
      if Importable(node.nodeId, inst, reply.rows.value, Some(next.value), f.base.now) {
        ImportableIsRecordable(saved, node.nodeId, inst, reply.rows.value, Some(next.value), f.base.now);
      }
      hide Unrecordable, FirstSight, Noted, CursorKindFits;
      var imported, pending := FullTransaction(node, f, inst, next.value);
      if imported.None? { return Done(Failed, 0, 0, after); }
      if pending && !f.flushed { return imported.value.(status := Failed); }
      return imported.value;
    }

    /** BEGIN IMMEDIATE to COMMIT, or the rollback of all of it; `pending` says whether history lines wait. */
    method FullTransaction(node: NodeEntry, f: FullAttempt, inst: Option<string>, next: int)
      returns (r: Option<Outcome>, pending: bool)
      requires inst == InstanceIdOf(f.base) && f.base.reply.rows.Some? && next == NextOf(f.base.reply)
      modifies this
      ensures var saved := old(Db());
              var commits := && !f.snapshotRaises && Snapshot(saved, node.nodeId, f).Some? && Records(saved, node.nodeId, f.base)
                             && Importable(node.nodeId, inst, f.base.reply.rows.value, Some(next), f.base.now) && !Faulted(f.base.fault);
              && (r.Some? <==> commits)
              && (if commits then
                    Db() == Imported(Noted(saved, node.nodeId, inst), node.nodeId, inst, f.base.reply.rows.value, Some(next), f.base.now)
                              .(nodes := saved.nodes[node.nodeId := f.nodeRow], users := Snapshot(saved, node.nodeId, f).value)
                  else Db() == saved)
      ensures r.Some? ==> r.value.Done? && r.value.status.Succeeded? && r.value.lastSeq == CursorSeq(Db(), node.nodeId)
      ensures r.Some? ==> pending == FirstSight(old(Db()), node.nodeId, inst)
      ensures r.Some? ==> r.value.inserted == NewRows(old(events), node.nodeId, ParamsOf(f.base.reply.rows.value, f.base.now))
      ensures r.Some? ==> r.value.inserted + r.value.updated == |f.base.reply.rows.value|
    {
      hide Importable, Imported, Snapshot, Faulted, OptionalText;
      var saved := Db();
      var taken := WriteSnapshots(node.nodeId, f);
      if !taken {
        Rollback(saved);
        return None, false;
      }
      var first := RecordInstance(node.nodeId, inst, f.base.history);
      if first.None? {
        Rollback(saved);
        return None, false;
      }
      ghost var with := Db();
      var imported := ImportAuditBatch(node.nodeId, inst, f.base.reply.rows.value, Some(next), f.base.now, f.base.fault, false);
      if imported.Err? {
        Rollback(saved);
        return None, false;
      }
      ghost var noted := Noted(saved, node.nodeId, inst);
      assert with == noted.(nodes := with.nodes, users := with.users);
      SnapshotsApart(noted, with, node.nodeId, inst, f.base.reply.rows.value, next, f.base.now);
      return Some(imported.value), first.value;
    }
  }

  /** A key violation ends the whole list. */
  lemma {:induction false} InsertFails(users: map<UserKey, string>, nodeId: string, listed: seq<UserRow>, n: nat)
    requires n <= |listed| && InsertUsers(users, nodeId, listed[..n]).None?
    ensures InsertUsers(users, nodeId, listed).None?
    decreases |listed|
  {
    if n < |listed| {
      var m := |listed| - 1;
      assert listed[..m][..n] == listed[..n];
      InsertFails(users, nodeId, listed[..m], n);
    } else {
      assert listed[..n] == listed;
    }
  }

  /** The import neither reads nor writes the snapshot tables. */
  lemma SnapshotsApart(db: CacheDb, with: CacheDb, nodeId: string, inst: Option<string>, rows: seq<WireRow>, next: int, now: string)
    requires Importable(nodeId, inst, rows, Some(next), now) && with == db.(nodes := with.nodes, users := with.users)
    ensures Imported(with, nodeId, inst, rows, Some(next), now)
            == Imported(db, nodeId, inst, rows, Some(next), now).(nodes := with.nodes, users := with.users)
  {
    hide Rebuilt, MaxOf, UpsertAll;
  }

  lemma NothingMoved(db: CacheDb)
    ensures Unmoved(db, db)
  {}

  /** Recording an instance touches no other table. */
  lemma NotedMovesNothing(db: CacheDb, nodeId: string, inst: Option<string>)
    ensures var db' := Noted(db, nodeId, inst);
            && db'.cursors == db.cursors && db'.events == db.events
            && CursorSeq(db', nodeId) == CursorSeq(db, nodeId) && (CursorKindFits(db', nodeId) <==> CursorKindFits(db, nodeId))
            && (!FirstSight(db, nodeId, inst) ==> db' == db)
            && Unmoved(db, db') && forall then' :: Unmoved(db', then') ==> Unmoved(db, then')
  {
    hide OptionalText, IsUuid;
  }

  /** The importer's identity check refuses all that recording refuses. */
  lemma ImportableIsRecordable(db: CacheDb, nodeId: string, inst: Option<string>, rows: seq<WireRow>, next: Option<int>, now: string)
    requires Importable(nodeId, inst, rows, next, now)
    ensures !Unrecordable(db, nodeId, inst)
  {}

  /** The controller reads an expired cursor out of an export exactly when the node's cursor had expired. */
  lemma ExpiredIsUnderstood(x: Export, nodeId: Option<string>, inst: Option<string>, stamp: bool)
    requires Answer(x, nodeId, inst, stamp).code != 1
    ensures SaysExpired(Answer(x, nodeId, inst, stamp)) <==> x.Export? && x.status.CursorExpired?
    ensures x.Export? && x.status.CursorExpired? ==> Answer(x, nodeId, inst, stamp).code != 255
  {
    AnswerTells(x, nodeId, inst, stamp);
    TrimmedText("CURSOR_EXPIRED");
    TrimmedText("CURSOR_AHEAD");
    assert "CURSOR_EXPIRED"[7] == 'E' && "CURSOR_AHEAD"[7] == 'A';
    hide Answer;
  }

  /** The user rows after a snapshot: the listed users of the node, each as last listed, and all other nodes' rows. */
  lemma SnapshotReplaces(db: CacheDb, nodeId: string, f: FullAttempt)
    ensures Snapshot(db, nodeId, f).Some? <==> DistinctUsers(f.listed)
    ensures Snapshot(db, nodeId, f).Some? ==>
              var t := Snapshot(db, nodeId, f).value;
              && (forall u: string :: UserKey(nodeId, u) in t <==> u != "" && Listed(f.listed, u))
              && (forall i :: 0 <= i < |f.listed| && f.listed[i].userId != "" ==>
                    UserKey(nodeId, f.listed[i].userId) in t && t[UserKey(nodeId, f.listed[i].userId)] == f.listed[i].row)
              && (forall k: UserKey :: k.nodeId != nodeId ==> SameAt(db.users, t, k))
  {
    SnapshotIsTheList(WithoutNode(db.users, nodeId), nodeId, f.listed);
    hide DistinctUsers, Listed, InsertUsers;
    if Snapshot(db, nodeId, f).Some? {
      forall i | 0 <= i < |f.listed| && f.listed[i].userId != ""
        ensures UserKey(nodeId, f.listed[i].userId) in Snapshot(db, nodeId, f).value
        ensures Snapshot(db, nodeId, f).value[UserKey(nodeId, f.listed[i].userId)] == f.listed[i].row
      {
        SnapshotRow(WithoutNode(db.users, nodeId), nodeId, f.listed, i);
      }
      forall k: UserKey | k.nodeId != nodeId ensures SameAt(db.users, Snapshot(db, nodeId, f).value, k) {
        assert SameAt(WithoutNode(db.users, nodeId), Snapshot(db, nodeId, f).value, k);
        assert SameAt(db.users, WithoutNode(db.users, nodeId), k);
      }
    }
  }

  lemma {:induction false} SnapshotRow(users: map<UserKey, string>, nodeId: string, listed: seq<UserRow>, i: nat)
    requires i < |listed| && listed[i].userId != "" && InsertUsers(users, nodeId, listed).Some?
    ensures var t := InsertUsers(users, nodeId, listed).value;
            UserKey(nodeId, listed[i].userId) in t && t[UserKey(nodeId, listed[i].userId)] == listed[i].row
    decreases |listed|
  {
    var n := |listed| - 1;
    if i < n {
      assert listed[..n][i] == listed[i];
      SnapshotRow(users, nodeId, listed[..n], i);
    }
  }

  /** An export that names an error is never an acceptable batch. */
  lemma ComplaintIsNoBatch(r: Reply, after: int, nodeId: string, inst: Option<string>)
    requires r.meta.Some? && r.meta.value.error.JStr? && r.meta.value.error.s != ""
    ensures forall rows :: !Acceptable(r.meta, rows, after, nodeId, inst)
  {}

  /** "No cursor advance on error" holds for a full sync exactly when the failure is not the append of history
      lines, which wait only for a newly seen instance, after a commit that moved the cursor. */
  lemma FullSyncErrorMovesCursorIff(db: CacheDb, node: NodeEntry, f: FullAttempt, db': CacheDb)
    requires FullSynced(db, node, f, db')
    requires !(FullSyncCommits(db, node, f) && !FlushFails(db, node, f))
    ensures CursorSeq(db', node.nodeId) != CursorSeq(db, node.nodeId) <==>
            FullSyncCommits(db, node, f) && FlushFails(db, node, f) && f.base.reply.rows.value != []
  {
    hide Importable, Imported, HeaderFits;
    if FullSyncCommits(db, node, f) {
      hide Snapshot;
      LandedCursor(db, node.nodeId, f.base);
      var rows := f.base.reply.rows.value;
      if rows != [] { assert rows[0] in rows; }
    }
  }
}
