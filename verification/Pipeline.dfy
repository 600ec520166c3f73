/** The whole pipeline: one node's uninterrupted database and the controller's cache, over every interleaving
    of node steps, syncs, failed syncs, reseeds and archive restores. */
module Pipeline {

  import opened Prelude
  import opened Accounting
  import opened AccountingInvariants
  import opened NodeRuns
  import opened AuditExport
  import opened ExportStream
  import opened ExportValidator
  import opened Wire
  import opened CacheTables
  import opened AuditImport
  import opened FleetSync
  import opened FleetQuery
  import opened AuditArchive

  /** `past` are the states the node went through. `floor` is the pruned maximum of the state that answered the
      last successful export from cursor 0. */
  datatype System = System(node: Node, cache: CacheDb, floor: nat, past: seq<Node>)

  /** What the node's export script knows about itself, whether the controller asked it to stamp rows, and which
      state of the node it read: the export and its import are not one step, the node goes on meanwhile. */
  datatype Overlay = Overlay(nodeId: Option<string>, instanceId: Option<string>, stamp: bool, at: nat)

  datatype Move =
    | OnNode(step: Step)
    | Sync(entry: NodeEntry, a: Attempt, overlay: Overlay, result: CacheDb)
    | FullSync(entry: NodeEntry, f: FullAttempt, overlay: Overlay)
    | Reseed(nodeId: string, instanceId: Option<string>, now: string)
    | Restore(rows: seq<FleetRow>, now: string)

  function Answering(s: System, o: Overlay): Node {
    if o.at < |s.past| then s.past[o.at] else s.node
  }

  /** The tracked node answers an export that succeeds from its database as it is or was earlier in the run; every
      failure is arbitrary, and so is whatever another node says. The operation lock keeps other syncs and reseeds
      out between the export and its import, so the cursor asked for is the cursor at the import. */
  ghost predicate Honest(s: System, me: string, entry: NodeEntry, a: Attempt, o: Overlay) {
    entry.nodeId == me && a.reply.code == 0 ==>
      a.reply == Serve(Answering(s, o).db, CursorSeq(s.cache, me), o.nodeId, o.instanceId, o.stamp)
  }

  ghost predicate Possible(s: System, me: string, m: Move) {
    match m
    case OnNode(step) => NodeOk(s.node) && NodeRuns.Enabled(s.node, step)
    case Sync(entry, a, o, result) => Honest(s, me, entry, a, o) && Synced(s.cache, entry, a, result)
    case FullSync(entry, f, o) => Honest(s, me, entry, f.base, o)
    case Reseed(_, _, _) => true
    case Restore(rows, _) => Consistent(s.cache.events, rows)
  }

  ghost function FloorAfter(s: System, me: string, entry: NodeEntry, o: Overlay, landed: bool): nat {
    if landed && entry.nodeId == me && CursorSeq(s.cache, me) == 0 then Answering(s, o).db.pruned else s.floor
  }

  ghost function Moved(s: System, me: string, m: Move): System
    requires Possible(s, me, m)
  {
    match m
    case OnNode(step) => s.(node := NodeRuns.Next(s.node, step), past := s.past + [s.node])
    case Sync(entry, a, o, result) =>
      s.(cache := result, floor := FloorAfter(s, me, entry, o, SyncSucceeds(s.cache, entry, a)))
    case FullSync(entry, f, o) =>
      var lands := FullSyncCommits(s.cache, entry, f);
      s.(cache := if lands then FullLanded(s.cache, entry, f) else s.cache,
         floor := FloorAfter(s, me, entry, o, lands))
    case Reseed(nodeId, inst, now) => s.(cache := Reseeded(s.cache, nodeId, inst, now))
    case Restore(rows, now) => s.(cache := Restored(s.cache, rows, now))
  }

  /* ---------- what the cache holds of a closed row ---------- */

  /** A closed row as the controller stores it: text trimmed, blank text dropped. */
  function RemoteOf(e: Logged): Remote {
    var r := e.row;
    Remote(InstanceOf(r.instanceId), if r.exportSeq.Some? then Some(r.exportSeq.value) else None, Strip(e.key.cid), e.key.gen,
           Strip(r.tags.userId), InstanceOf(r.tags.userTag), Iso(r.startedAt), Iso(r.lastSeen),
           if r.closedAt.Some? then Some(Iso(r.closedAt.value)) else None,
           InstanceOf(r.tags.host), InstanceOf(r.tags.ip), r.tags.port, InstanceOf(r.tags.network), r.up, r.dn)
  }

  /** Equal in every column; stamping may have filled in a missing instance id. */
  predicate Mirrors(e: Logged, r: Remote) {
    && RemoteOf(e).(instanceId := r.instanceId) == r
    && (RemoteOf(e).instanceId.Some? ==> r.instanceId == RemoteOf(e).instanceId)
  }

  predicate Kept(events: Events, me: string, e: Logged) {
    var k := EvKey(me, e.row.eventId);
    k in events && Mirrors(e, events[k].remote)
  }

  /** No silent loss: every row ever closed with floor < export_seq <= cursor is in the cache as it was closed. */
  ghost predicate NoLoss(ledger: seq<Logged>, floor: nat, db: CacheDb, me: string) {
    forall i :: 0 <= i < |ledger| && floor < i + 1 <= CursorSeq(db, me) ==> Kept(db.events, me, ledger[i])
  }

  /** An earlier state of the same database. */
  ghost predicate Earlier(n: Node, now: Node) {
    NodeOk(n) && n.ledger <= now.ledger && n.db.pruned <= now.db.pruned && n.db.lastSeq <= now.db.lastSeq
  }

  ghost predicate CacheOk(now: Node, floor: nat, db: CacheDb, me: string) {
    && Indexed(db.events, db.daily) && 0 <= CursorSeq(db, me) <= now.db.lastSeq && floor <= now.db.pruned
    && NoLoss(now.ledger, floor, db, me)
  }

  ghost predicate SystemOk(s: System, me: string) {
    && NodeOk(s.node) && (forall i :: 0 <= i < |s.past| ==> Earlier(s.past[i], s.node))
    && CacheOk(s.node, s.floor, s.cache, me)
  }

  lemma DeliveredIsStored(e: Logged, row: WireRow, nodeId: string, inst: Option<string>, stamp: bool, now: string)
    requires Delivered(e, row, nodeId, inst, stamp) && e.row.exportSeq.Some? && InsertParams(row, now).Some?
    ensures var p := InsertParams(row, now).value; p.eventId == e.row.eventId && Mirrors(e, p.cached.remote)
  {
    hide IntText, Strip;
    IsoSurvives(e.row.startedAt);
    IsoSurvives(e.row.lastSeen);
    if e.row.closedAt.Some? { IsoSurvives(e.row.closedAt.value); }
  }

  lemma IsoSurvives(t: int)
    ensures OptionalText(JStr(Iso(t))) == Some(Iso(t))
  {
    IntTextIsTrimmed(t);
    TrimmedText(Iso(t));
  }

  /* ---------- a successful sync of the tracked node ---------- */

  /** A landed batch of the tracked node, the export behind it, and the rows as the importer sees them. */
  ghost predicate Lands(n: Node, db: CacheDb, me: string, a: Attempt, o: Overlay, x: Export, params: seq<Param>) {
    && NodeOk(n) && CursorSeq(db, me) >= 0 && x == ExportAfter(n.db, CursorSeq(db, me), None)
    && x.Export? && x.status.Fine? && InOrder(n.db, x) && |params| == |x.rows| && NextOf(a.reply) == x.next
    && (forall j :: 0 <= j < |params| ==> params[j].eventId == x.rows[j].row.eventId && Mirrors(x.rows[j], params[j].cached.remote))
  }

  lemma LandingExplained(n: Node, db: CacheDb, me: string, a: Attempt, o: Overlay)
    returns (x: Export, params: seq<Param>)
    requires NodeOk(n) && CursorSeq(db, me) >= 0
    requires BatchLands(me, InstanceIdOf(a), CursorSeq(db, me), a)
    requires a.reply == Serve(n.db, CursorSeq(db, me), o.nodeId, o.instanceId, o.stamp)
    ensures Lands(n, db, me, a, o, x, params)
    ensures Landed(db, me, a).events == UpsertAll(db.events, me, params)
    ensures CursorSeq(Landed(db, me, a), me) == x.next
  {
    hide NodeOk, Delivered, InsertParams, Mirrors, Acceptable, InOrder, OptionalText, ExportAfter, Landed, Answer;
    SoundOf(n);
    var after := CursorSeq(db, me);
    x := ExportAfter(n.db, after, None);
    LandedCursorIsNext(db, me, a);
    assert o.nodeId.Some? by { MissingLabelRefused(x, o, after, me, InstanceIdOf(a), a.reply); }
    AnswerDelivers(x, o.nodeId.value, o.instanceId, o.stamp);
    ExportIsExact(n.db, after);
    LandedEvents(db, me, a);
    params := ParamsOf(a.reply.rows.value, a.now);
    ParamsMirror(n.db, x, a.reply.rows.value, o.nodeId.value, o.instanceId, o.stamp, a.now);
  }

  lemma LandedEvents(db: CacheDb, me: string, a: Attempt)
    requires BatchLands(me, InstanceIdOf(a), CursorSeq(db, me), a)
    ensures Landed(db, me, a).events == UpsertAll(db.events, me, ParamsOf(a.reply.rows.value, a.now))
  {
    hide Acceptable, Rebuilt;
  }

  lemma ParamsMirror(db: Db, x: Export, rows: seq<WireRow>, nodeId: string, inst: Option<string>, stamp: bool, now: string)
    requires x.Export? && InOrder(db, x) && |rows| == |x.rows|
    requires forall j :: 0 <= j < |rows| ==> Delivered(x.rows[j], rows[j], nodeId, inst, stamp)
    requires forall row :: row in rows ==> InsertParams(row, now).Some?
    ensures var params := ParamsOf(rows, now);
            |params| == |x.rows| && forall j :: 0 <= j < |params| ==>
              params[j].eventId == x.rows[j].row.eventId && Mirrors(x.rows[j], params[j].cached.remote)
  {
    hide InsertParams, Delivered, Mirrors, InOrder;
    var params := ParamsOf(rows, now);
    forall j | 0 <= j < |params|
      ensures params[j].eventId == x.rows[j].row.eventId && Mirrors(x.rows[j], params[j].cached.remote)
    {
      assert rows[j] in rows;
      NumberedRow(db, x, j);
      DeliveredIsStored(x.rows[j], rows[j], nodeId, inst, stamp, now);
    }
  }

  lemma SoundOf(n: Node)
    requires NodeOk(n)
    ensures Sound(n.db)
  {}

  lemma NumberedRow(db: Db, x: Export, j: nat)
    requires x.Export? && InOrder(db, x) && j < |x.rows|
    ensures x.rows[j].row.exportSeq.Some?
  {}

  lemma MissingLabelRefused(x: Export, o: Overlay, after: int, me: string, inst: Option<string>, r: Reply)
    requires r == Answer(x, o.nodeId, o.instanceId, o.stamp) && r.code == 0 && r.rows.Some?
    requires Acceptable(r.meta, r.rows.value, after, me, inst)
    ensures o.nodeId.Some?
  {}

  /** Every delivered row is the ledger's entry of its number. */
  lemma DeliveredIsLedger(n: Node, x: Export, j: nat)
    requires NodeOk(n) && x.Export? && InOrder(n.db, x) && j < |x.rows|
    ensures x.rows[j].row.exportSeq.Some?
    ensures var s := x.rows[j].row.exportSeq.value;
            x.after < s <= x.next && s >= 1 && s <= |n.ledger| && n.ledger[s - 1] == x.rows[j]
  {}

  /** An entry above the cursor and above the pruned maximum was delivered. */
  lemma LedgerIsDelivered(n: Node, x: Export, i: nat) returns (j: nat)
    requires NodeOk(n) && x.Export? && x.status.Fine? && x == ExportAfter(n.db, x.after, None)
    requires i < |n.ledger| && i + 1 > x.after && i + 1 > n.db.pruned
    ensures j < |x.rows| && x.rows[j] == n.ledger[i]
  {
    assert EntryOk(n.db, n.ledger, n.meter.closed, i);
    hide ExportAfter;
    ExportIsExact(n.db, x.after);
    assert Logged(n.ledger[i].key, n.ledger[i].row) == n.ledger[i];
    assert n.ledger[i] in x.rows;
    j :| 0 <= j < |x.rows| && x.rows[j] == n.ledger[i];
  }

  /** A number the cursor already passed keeps its row: no delivered row carries its event id. */
  lemma PassedIsKept(n: Node, db: CacheDb, me: string, a: Attempt, o: Overlay, x: Export, params: seq<Param>, i: nat)
    requires Lands(n, db, me, a, o, x, params)
    requires i < |n.ledger| && i + 1 <= x.after && Kept(db.events, me, n.ledger[i])
    ensures Kept(UpsertAll(db.events, me, params), me, n.ledger[i])
  {
    hide Sound, Metering.Agrees, CacheAgrees, Mirrors, ExportAfter;
    var k := EvKey(me, n.ledger[i].row.eventId);
    forall p | p in params ensures EvKey(me, p.eventId) != k {
      var j :| 0 <= j < |params| && params[j] == p;
      DeliveredIsLedger(n, x, j);
    }
    UpsertKeepsOthers(db.events, me, params, k);
  }

  /** A number the cursor passes now is imported. */
  lemma NewIsKept(n: Node, db: CacheDb, me: string, a: Attempt, o: Overlay, x: Export, params: seq<Param>, i: nat)
    requires Lands(n, db, me, a, o, x, params)
    requires i < |n.ledger| && x.after < i + 1 && n.db.pruned < i + 1
    ensures Kept(UpsertAll(db.events, me, params), me, n.ledger[i])
  {
    hide Sound, Metering.Agrees, CacheAgrees, Mirrors, ExportAfter;
    var j := LedgerIsDelivered(n, x, i);
    forall j' | j < j' < |params| ensures params[j'].eventId != params[j].eventId {
      DeliveredIsLedger(n, x, j);
      DeliveredIsLedger(n, x, j');
    }
    UpsertStores(db.events, me, params, j);
  }

  lemma LandingKeepsAll(n: Node, db: CacheDb, floor: nat, me: string, a: Attempt, o: Overlay)
    requires NodeOk(n) && 0 <= CursorSeq(db, me) && NoLoss(n.ledger, floor, db, me)
    requires BatchLands(me, InstanceIdOf(a), CursorSeq(db, me), a)
    requires a.reply == Serve(n.db, CursorSeq(db, me), o.nodeId, o.instanceId, o.stamp)
    ensures var db' := Landed(db, me, a);
            && 0 <= CursorSeq(db', me) <= n.db.lastSeq
            && NoLoss(n.ledger, if CursorSeq(db, me) == 0 then n.db.pruned else floor, db', me)
  {
    hide NodeOk, BatchLands, Serve, Landed, Kept;
    var x, params := LandingExplained(n, db, me, a, o);
    var floor' := if CursorSeq(db, me) == 0 then n.db.pruned else floor;
    FineMeansNotPruned(n.db, x.after, None);
    forall i | 0 <= i < |n.ledger| && floor' < i + 1 <= x.next ensures Kept(Landed(db, me, a).events, me, n.ledger[i]) {
      if i + 1 <= x.after {
        PassedIsKept(n, db, me, a, o, x, params, i);
      } else {
        NewIsKept(n, db, me, a, o, x, params, i);
      }
    }
  }

  /** A landed sync catches up with the export: every row closed by then, and not covered by the pruned maximum
      of then, is in the cache. */
  lemma CatchesUp(s: System, me: string, a: Attempt, o: Overlay)
    requires SystemOk(s, me) && BatchLands(me, InstanceIdOf(a), CursorSeq(s.cache, me), a)
    requires a.reply == Serve(Answering(s, o).db, CursorSeq(s.cache, me), o.nodeId, o.instanceId, o.stamp)
    ensures var n := Answering(s, o);
            forall i :: 0 <= i < |n.ledger| && (i + 1 > n.db.pruned && i + 1 > s.floor) ==>
              Kept(Landed(s.cache, me, a).events, me, n.ledger[i])
  {
    AnsweringIsOk(s, me, o);
    hide SystemOk, Answering, NodeOk, BatchLands, Serve, Landed, Kept, NoLoss, Earlier;
    var n := Answering(s, o);
    forall i | 0 <= i < |n.ledger| && i + 1 > n.db.pruned && i + 1 > s.floor
      ensures Kept(Landed(s.cache, me, a).events, me, n.ledger[i])
    {
      LandingHasEntry(n, s.cache, s.floor, me, a, o, i);
    }
  }

  lemma LandingHasEntry(n: Node, db: CacheDb, floor: nat, me: string, a: Attempt, o: Overlay, i: nat)
    requires NodeOk(n) && 0 <= CursorSeq(db, me) && NoLoss(n.ledger, floor, db, me)
    requires BatchLands(me, InstanceIdOf(a), CursorSeq(db, me), a)
    requires a.reply == Serve(n.db, CursorSeq(db, me), o.nodeId, o.instanceId, o.stamp)
    requires i < |n.ledger| && i + 1 > n.db.pruned && i + 1 > floor
    ensures Kept(Landed(db, me, a).events, me, n.ledger[i])
  {
    hide NodeOk, BatchLands, Serve, Landed, Kept, NoLoss, ExportAfter, InOrder, Mirrors;
    var x, params := LandingExplained(n, db, me, a, o);
    LandingKeepsAll(n, db, floor, me, a, o);
    NotPastCursor(n, x, i);
    NoLossAt(n.ledger, if CursorSeq(db, me) == 0 then n.db.pruned else floor, Landed(db, me, a), me, i);
  }

  lemma NoLossAt(ledger: seq<Logged>, floor: nat, db: CacheDb, me: string, i: nat)
    requires NoLoss(ledger, floor, db, me) && i < |ledger| && floor < i + 1 <= CursorSeq(db, me)
    ensures Kept(db.events, me, ledger[i])
  {}

  /** The next cursor of an export covers every number above the pruned maximum. */
  lemma NotPastCursor(n: Node, x: Export, i: nat)
    requires NodeOk(n) && x.Export? && x.status.Fine? && InOrder(n.db, x) && x == ExportAfter(n.db, x.after, None)
    requires i < |n.ledger| && i + 1 > n.db.pruned
    ensures i + 1 <= x.next
  {
    hide NodeOk, ExportAfter;
    if i + 1 > x.after {
      var j := LedgerIsDelivered(n, x, i);
      DeliveredIsLedger(n, x, j);
      LedgerNumbers(n, i);
    }
  }

  /** Whatever state answered, it is sound, and the cache has lost none of its rows either. */
  lemma AnsweringIsOk(s: System, me: string, o: Overlay)
    requires SystemOk(s, me)
    ensures Earlier(Answering(s, o), s.node) && NodeOk(Answering(s, o)) && 0 <= CursorSeq(s.cache, me)
    ensures NoLoss(Answering(s, o).ledger, s.floor, s.cache, me)
  {
    hide NodeOk, Indexed, Kept;
  }

  lemma LedgerNumbers(n: Node, i: nat)
    requires NodeOk(n) && i < |n.ledger|
    ensures n.ledger[i].row.exportSeq == Some(i + 1)
  {
    assert EntryOk(n.db, n.ledger, n.meter.closed, i);
  }

  /** Of the node's own rows, the importer refuses exactly those with a blank connection or user id. */
  lemma HonestRowImportable(e: Logged, row: WireRow, nodeId: string, inst: Option<string>, stamp: bool, now: string)
    requires Delivered(e, row, nodeId, inst, stamp) && e.row.exportSeq.Some? && e.row.closedAt.Some?
    ensures InsertParams(row, now).Some? <==> Strip(e.key.cid) != "" && Strip(e.row.tags.userId) != ""
  {
    hide IntText, Strip;
    IsoSurvives(e.row.startedAt);
    IsoSurvives(e.row.lastSeen);
  }

  /* ---------- every move keeps the invariant ---------- */

  lemma LedgerGrowth(s: System, me: string, step: Step)
    requires SystemOk(s, me) && NodeRuns.Enabled(s.node, step)
    ensures SystemOk(s.(node := NodeRuns.Next(s.node, step), past := s.past + [s.node]), me)
  {
    StepOk(s.node, step);
    StepCounters(s.node, step);
    var n' := NodeRuns.Next(s.node, step);
    SelfEarlier(s.node);
    hide NodeOk, CacheOk, NodeRuns.Next, NodeRuns.Enabled;
    forall i | 0 <= i < |s.past| ensures Earlier(s.past[i], n') { EarlierStays(s.past[i], s.node, n'); }
    EarlierStays(s.node, s.node, n');
    LaterNode(s.node, n', s.floor, s.cache, me);
  }

  lemma LaterNode(n: Node, n': Node, floor: nat, db: CacheDb, me: string)
    requires Earlier(n, n') && CacheOk(n, floor, db, me)
    ensures CacheOk(n', floor, db, me)
  {
    hide Indexed, NoLoss, NodeOk, CursorSeq;
    LaterLedger(n, n', floor, db, me);
  }

  lemma SelfEarlier(n: Node)
    requires NodeOk(n)
    ensures Earlier(n, n)
  {}

  lemma EarlierStays(n0: Node, n: Node, n': Node)
    requires Earlier(n0, n) && n.ledger <= n'.ledger && n.db.pruned <= n'.db.pruned && n.db.lastSeq <= n'.db.lastSeq
    ensures Earlier(n0, n')
  {}

  lemma NodeCounts(n: Node)
    requires NodeOk(n)
    ensures |n.ledger| == n.db.lastSeq
  {}

  lemma StepCounters(n: Node, step: Step)
    requires NodeOk(n) && NodeRuns.Enabled(n, step)
    ensures n.db.pruned <= NodeRuns.Next(n, step).db.pruned && n.db.lastSeq <= NodeRuns.Next(n, step).db.lastSeq
  {
    match step
    case Tick(inst, live, order, now) => ApplyPollSound(n.db, inst, live, n.known, order, now);
    case FailedTick(_) =>
    case Restart =>
    case Retain(cutoff, limit) => DeleteBatchSound(n.db, cutoff, limit);
  }

  /** A change that leaves the tracked node's events and cursor alone. */
  lemma ElsewhereKeeps(s: System, me: string, db': CacheDb)
    requires SystemOk(s, me) && Indexed(db'.events, db'.daily) && CursorSeq(db', me) == CursorSeq(s.cache, me)
    requires forall k: EvKey :: k.nodeId == me && k in s.cache.events ==> k in db'.events && db'.events[k] == s.cache.events[k]
    ensures SystemOk(s.(cache := db'), me)
  {
    hide NodeOk, Indexed, Mirrors;
  }

  lemma SyncKeeps(s: System, me: string, entry: NodeEntry, a: Attempt, o: Overlay)
    requires SystemOk(s, me) && Honest(s, me, entry, a, o)
    requires BatchLands(entry.nodeId, InstanceIdOf(a), CursorSeq(s.cache, entry.nodeId), a)
    ensures SystemOk(s.(cache := Landed(s.cache, entry.nodeId, a), floor := FloorAfter(s, me, entry, o, true)), me)
  {
    if entry.nodeId == me { SyncHere(s, me, a, o); } else { SyncElsewhere(s, me, entry.nodeId, a); }
  }

  lemma SyncHere(s: System, me: string, a: Attempt, o: Overlay)
    requires SystemOk(s, me) && BatchLands(me, InstanceIdOf(a), CursorSeq(s.cache, me), a)
    requires a.reply == Serve(Answering(s, o).db, CursorSeq(s.cache, me), o.nodeId, o.instanceId, o.stamp)
    ensures var floor := if CursorSeq(s.cache, me) == 0 then Answering(s, o).db.pruned else s.floor;
            SystemOk(s.(cache := Landed(s.cache, me, a), floor := floor), me)
  {
    var n := Answering(s, o);
    var floor := if CursorSeq(s.cache, me) == 0 then n.db.pruned else s.floor;
    AnsweringIsOk(s, me, o);
    assert Indexed(s.cache.events, s.cache.daily) && s.floor <= s.node.db.pruned;
    hide CacheOk, NodeOk, Indexed, NoLoss, BatchLands, Serve, Landed, Earlier, Answering, CursorSeq;
    LandedCacheOk(n, s.node, s.cache, s.floor, me, a, o);
  }

  lemma LandedCacheOk(n: Node, now: Node, db: CacheDb, floor: nat, me: string, a: Attempt, o: Overlay)
    requires Earlier(n, now) && Indexed(db.events, db.daily) && floor <= now.db.pruned
    requires 0 <= CursorSeq(db, me) && NoLoss(n.ledger, floor, db, me)
    requires BatchLands(me, InstanceIdOf(a), CursorSeq(db, me), a)
    requires a.reply == Serve(n.db, CursorSeq(db, me), o.nodeId, o.instanceId, o.stamp)
    ensures CacheOk(now, if CursorSeq(db, me) == 0 then n.db.pruned else floor, Landed(db, me, a), me)
  {
    hide NodeOk, Indexed, NoLoss, BatchLands, Serve, Landed, CursorSeq;
    LandedIndex(db, me, a);
    LandingKeepsAll(n, db, floor, me, a, o);
    LaterLedger(n, now, if CursorSeq(db, me) == 0 then n.db.pruned else floor, Landed(db, me, a), me);
  }

  lemma LandedIndex(db: CacheDb, nodeId: string, a: Attempt)
    requires BatchLands(nodeId, InstanceIdOf(a), CursorSeq(db, nodeId), a) && Indexed(db.events, db.daily)
    ensures Indexed(Landed(db, nodeId, a).events, Landed(db, nodeId, a).daily) && OthersKept(db, Landed(db, nodeId, a), nodeId)
  {
    hide Indexed, Acceptable, Importable, Imported;
    ImportKeepsIndex(Noted(db, nodeId, InstanceIdOf(a)), nodeId, InstanceIdOf(a), a.reply.rows.value, Some(NextOf(a.reply)), a.now);
  }

  lemma SyncElsewhere(s: System, me: string, nodeId: string, a: Attempt)
    requires SystemOk(s, me) && nodeId != me && BatchLands(nodeId, InstanceIdOf(a), CursorSeq(s.cache, nodeId), a)
    ensures SystemOk(s.(cache := Landed(s.cache, nodeId, a)), me)
  {
    LandedIndex(s.cache, nodeId, a);
    hide NodeOk, NoLoss, Indexed, BatchLands, Landed, Earlier;
    ElsewhereKeeps(s, me, Landed(s.cache, nodeId, a));
  }

  /** The cursor never passes what the answering state had allocated, so later rows do not matter. */
  lemma LaterLedger(n: Node, now: Node, floor: nat, db: CacheDb, me: string)
    requires Earlier(n, now) && CursorSeq(db, me) <= n.db.lastSeq && NoLoss(n.ledger, floor, db, me)
    ensures NoLoss(now.ledger, floor, db, me) && CursorSeq(db, me) <= now.db.lastSeq && n.db.pruned <= now.db.pruned
  {
    NodeCounts(n);
    hide NodeOk, Kept;
    forall i | 0 <= i < |now.ledger| && floor < i + 1 <= CursorSeq(db, me) ensures Kept(db.events, me, now.ledger[i]) {
      assert now.ledger[i] == n.ledger[i];
    }
  }

  lemma MoveKeeps(s: System, me: string, m: Move)
    requires SystemOk(s, me) && Possible(s, me, m)
    ensures SystemOk(Moved(s, me, m), me)
  {
    hide NodeOk, Indexed, NoLoss, BatchLands, Landed, Reseeded, Restored, NodeRuns.Next, NodeRuns.Enabled, Consistent;
    match m
    case OnNode(step) => LedgerGrowth(s, me, step);
    case Sync(entry, a, o, result) =>
      if SyncSucceeds(s.cache, entry, a) { SyncKeeps(s, me, entry, a, o); } else { ElsewhereKeeps(s, me, result); }
    case FullSync(entry, f, o) =>
      if FullSyncCommits(s.cache, entry, f) {
        SyncKeeps(s, me, entry, f.base, o);
        SnapshotsDoNotMatter(s.(cache := Landed(s.cache, entry.nodeId, f.base), floor := FloorAfter(s, me, entry, o, true)),
                             FullLanded(s.cache, entry, f), me);
      }
    case Reseed(nodeId, inst, now) => ReseedKeeps(s, me, nodeId, inst, now);
    case Restore(rows, now) =>
      RestoreKeepsIndex(s.cache, rows, now);
      ElsewhereKeeps(s, me, Restored(s.cache, rows, now));
  }

  lemma SnapshotsDoNotMatter(s: System, db: CacheDb, me: string)
    requires SystemOk(s, me) && db.events == s.cache.events && db.daily == s.cache.daily && db.cursors == s.cache.cursors
    ensures SystemOk(s.(cache := db), me)
  {
    hide NodeOk, Indexed, Kept, Earlier;
  }

  lemma ReseedKeeps(s: System, me: string, nodeId: string, inst: Option<string>, now: string)
    requires SystemOk(s, me)
    ensures SystemOk(s.(cache := Reseeded(s.cache, nodeId, inst, now)), me)
  {
    hide NodeOk, Indexed, Kept;
    ReseedKeepsIndex(s.cache, nodeId, inst, now);
    hide Reseeded;
    if nodeId != me { ElsewhereKeeps(s, me, Reseeded(s.cache, nodeId, inst, now)); }
  }

  /* ---------- runs ---------- */

  function Start(fleetId: string): System {
    System(NEW_NODE, CacheDb(fleetId, map[], map[], map[], map[], map[], {}), 0, [])
  }

  ghost predicate Run(s: System, me: string, moves: seq<Move>)
    decreases |moves|
  {
    moves == [] || (Possible(s, me, moves[0]) && Run(Moved(s, me, moves[0]), me, moves[1..]))
  }

  ghost function End(s: System, me: string, moves: seq<Move>): System
    requires Run(s, me, moves)
    decreases |moves|
  {
    if moves == [] then s else End(Moved(s, me, moves[0]), me, moves[1..])
  }

  lemma {:induction false} RunKeeps(s: System, me: string, moves: seq<Move>)
    requires SystemOk(s, me) && Run(s, me, moves)
    ensures SystemOk(End(s, me, moves), me)
    decreases |moves|
  {
    hide SystemOk, Possible, Moved;
    if moves != [] {
      MoveKeeps(s, me, moves[0]);
      RunKeeps(Moved(s, me, moves[0]), me, moves[1..]);
    }
  }

  /** No silent loss, end to end, and the daily index agrees with the events at the end of every run. */
  lemma NoSilentLoss(fleetId: string, me: string, moves: seq<Move>)
    requires Run(Start(fleetId), me, moves)
    ensures var s := End(Start(fleetId), me, moves);
            && NoLoss(s.node.ledger, s.floor, s.cache, me)
            && Indexed(s.cache.events, s.cache.daily)
            && 0 <= CursorSeq(s.cache, me) <= s.node.db.lastSeq
  {
    NewNodeOk();
    RunKeeps(Start(fleetId), me, moves);
    hide NodeOk, Indexed, NoLoss, Run, End;
  }

  /* ---------- history lines that are lost ---------- */

  lemma MoveRecords(s: System, me: string, m: Move)
    requires Possible(s, me, m)
    ensures s.cache.instances <= Moved(s, me, m).cache.instances
  {
    hide NodeOk, Honest, Serve, Consistent, SyncSucceeds, FullSyncCommits, Merged, RebuiltAll, Rebuilt, UpsertAll, NodeRuns.Next, NodeRuns.Enabled;
  }

  lemma {:induction false} InstancesStay(s: System, me: string, moves: seq<Move>)
    requires Run(s, me, moves)
    ensures s.cache.instances <= End(s, me, moves).cache.instances
    decreases |moves|
  {
    hide Possible, Moved;
    if moves != [] {
      MoveRecords(s, me, moves[0]);
      InstancesStay(Moved(s, me, moves[0]), me, moves[1..]);
    }
  }

  /** The history lines of a committed full sync get one chance: whatever happens next, the instance is never
      new again, so lines whose append raised are not appended by a later sync. */
  lemma FlushIsNotRetried(s: System, me: string, entry: NodeEntry, f: FullAttempt, o: Overlay, moves: seq<Move>)
    requires Possible(s, me, FullSync(entry, f, o)) && FullSyncCommits(s.cache, entry, f)
    requires Run(Moved(s, me, FullSync(entry, f, o)), me, moves)
    ensures !FirstSight(End(Moved(s, me, FullSync(entry, f, o)), me, moves).cache, entry.nodeId, InstanceIdOf(f.base))
  {
    var now := Moved(s, me, FullSync(entry, f, o));
    CommitRecords(s.cache, entry, f);
    InstancesStay(now, me, moves);
    hide Run, End, Honest, FullSyncCommits, FullLanded, OptionalText;
  }

  lemma CommitRecords(db: CacheDb, entry: NodeEntry, f: FullAttempt)
    requires FullSyncCommits(db, entry, f)
    ensures !FirstSight(FullLanded(db, entry, f), entry.nodeId, InstanceIdOf(f.base))
  {
    hide Acceptable, Importable, Snapshot, OptionalText, UpsertAll, Rebuilt;
  }

  /** On one uninterrupted database the controller's cursor is never ahead, so CURSOR_AHEAD always means the
      database was replaced; CURSOR_EXPIRED means exactly that retention passed a positive cursor. */
  lemma OnlyExpiryRefuses(s: System, me: string)
    requires SystemOk(s, me)
    ensures var x := ExportAfter(s.node.db, CursorSeq(s.cache, me), None);
            && x.Export? && !x.status.CursorAhead?
            && (x.status.CursorExpired? <==> 0 < CursorSeq(s.cache, me) < s.node.db.pruned)
  {
    hide NodeOk, Indexed, NoLoss;
  }
}
