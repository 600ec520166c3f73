/** Whole runs of one node: committed polls, failed ticks, restarts and retention batches in any order,
    from an empty database. */
module NodeRuns {

  import opened Prelude
  import opened Ordering
  import opened Accounting
  import opened AccountingInvariants
  import opened Metering

  /** The durable database, the daemon's cache, and two histories the code does not keep: the ledger
      of every row ever closed as it was
      when the transaction that closed it committed, indexed by export_seq - 1, and the reference meter. */
  datatype Node = Node(db: Db, known: Cache, ledger: seq<Logged>, meter: Meter)

  const NEW_NODE: Node := Node(EMPTY, map[], [], NEW_METER)

  datatype Step =
    | Tick(inst: Option<string>, live: seq<Event>, order: seq<Cid>, now: int)
    | FailedTick(reloaded: bool)   // no usable snapshot, an exception, or a failed COMMIT (which reloads)
    | Restart
    | Retain(cutoff: int, limit: nat)

  ghost function RowOf(db: Db, s: nat): Logged
    requires Carried(db, s)
  {
    var k :| k in db.conns && db.conns[k].exportSeq == Some(s);
    Logged(k, db.conns[k])
  }

  /** Append the rows closed by the transaction that produced `db`. */
  ghost function Record(ledger: seq<Logged>, db: Db): (r: seq<Logged>)
    requires |ledger| <= db.lastSeq
    requires forall s :: |ledger| < s <= db.lastSeq ==> Carried(db, s)
    ensures ledger <= r && |r| == db.lastSeq
    decreases db.lastSeq - |ledger|
  {
    if |ledger| == db.lastSeq then ledger else
      assert Carried(db, |ledger| + 1);
      Record(ledger + [RowOf(db, |ledger| + 1)], db)
  }

  ghost predicate Enabled(n: Node, step: Step) {
    step.Tick? ==> Visits(step.order, PollVanished(n.db, step.inst, step.live, n.known))
  }

  ghost function Next(n: Node, step: Step): Node
    requires NodeOk(n) && Enabled(n, step)
  {
    match step
    case Tick(inst, live, order, now) =>
      var p := ApplyPoll(n.db, inst, live, n.known, order, now);
      ApplyPollSound(n.db, inst, live, n.known, order, now);
      Node(p.db, p.known, Record(n.ledger, p.db), Observe(n.meter, live, order))
    case FailedTick(reloaded) => n.(known := if reloaded then ReloadKnownOpen(n.db) else n.known)
    case Restart => n.(known := ReloadKnownOpen(n.db))
    case Retain(cutoff, limit) => n.(db := DeleteBatch(n.db, cutoff, limit))
  }

  /* ---------- the run invariant ---------- */

  /** Row k of the database is exactly what the ledger recorded, if it is closed; an open row's event
      id is not in the ledger. */
  ghost predicate RowLogged(db: Db, ledger: seq<Logged>, k: Key)
    requires k in db.conns
  {
    var row := db.conns[k];
    if row.exportSeq.Some? then
      1 <= row.exportSeq.value <= |ledger| && ledger[row.exportSeq.value - 1] == Logged(k, row)
    else
      forall i :: 0 <= i < |ledger| ==> ledger[i].row.eventId != row.eventId
  }

  /** Ledger entry i: it is numbered i + 1, billed by the meter's span i, and still in the database
      unless its number is at most the pruned maximum. */
  ghost predicate EntryOk(db: Db, ledger: seq<Logged>, spans: seq<Span>, i: nat)
    requires i < |ledger| && i < |spans|
  {
    var e := ledger[i];
    && e.row.exportSeq == Some(i + 1) && e.row.closedAt.Some?
    && e.row.eventId < db.nextEvent
    && Bills(e.key, e.row, spans[i])
    && InInt64(e.row.up) && InInt64(e.row.dn)
    && (i + 1 > db.pruned ==> e.key in db.conns && db.conns[e.key] == e.row)
  }

  ghost predicate LedgerOk(db: Db, ledger: seq<Logged>, spans: seq<Span>) {
    && |ledger| == db.lastSeq == |spans|
    && (forall k :: k in db.conns ==> RowLogged(db, ledger, k))
    && (forall i :: 0 <= i < |ledger| ==> EntryOk(db, ledger, spans, i))
    && (forall i, j :: 0 <= i < j < |ledger| ==> ledger[i].row.eventId != ledger[j].row.eventId)
  }

  ghost predicate NodeOk(n: Node) {
    && Sound(n.db) && CacheAgrees(n.db, n.known) && Agrees(n.db, n.meter)
    && LedgerOk(n.db, n.ledger, n.meter.closed)
  }

  /** Recording looks each new number up in the committed database. */
  lemma {:induction false} RecordLooksUp(ledger: seq<Logged>, db: Db, i: nat)
    requires |ledger| <= i < db.lastSeq
    requires forall s :: |ledger| < s <= db.lastSeq ==> Carried(db, s)
    ensures var e := Record(ledger, db)[i];
            e.key in db.conns && db.conns[e.key] == e.row && e.row.exportSeq == Some(i + 1)
    decreases db.lastSeq - |ledger|
  {
    assert Carried(db, |ledger| + 1);
    var next := ledger + [RowOf(db, |ledger| + 1)];
    if i == |ledger| {
      assert Carried(db, i + 1);
      assert next <= Record(next, db);
      assert Record(ledger, db)[i] == next[i] == RowOf(db, i + 1);
    } else {
      RecordLooksUp(next, db, i);
    }
  }

  /** Recording after a transaction that advanced from a logged state. */
  lemma RecordOk(n: Node, db': Db, known': Cache, meter': Meter)
    requires NodeOk(n) && Sound(db') && Advances(n.db, db') && CacheAgrees(db', known') && Agrees(db', meter')
    requires n.meter.closed <= meter'.closed
    ensures NodeOk(Node(db', known', Record(n.ledger, db'), meter'))
  {
    var ledger' := Record(n.ledger, db');
    var n' := Node(db', known', ledger', meter');
    forall i | 0 <= i < |ledger'|
      ensures i < |n.ledger| ==> ledger'[i] == n.ledger[i]
      ensures i >= |n.ledger| ==> Looked(db', ledger', i)
    {
      if i >= |n.ledger| { RecordLooksUp(n.ledger, db', i); }
    }
    forall k | k in db'.conns ensures RowLogged(n'.db, n'.ledger, k) {
      if n'.db.conns[k].exportSeq.Some? { ClosedRowStaysLogged(n, n', k); } else { OpenRowStaysLogged(n, n', k); }
    }
    forall i | 0 <= i < |ledger'| ensures EntryOk(n'.db, n'.ledger, n'.meter.closed, i) {
      EntryStaysOk(n, n', i);
    }
    forall i, j | 0 <= i < j < |ledger'| ensures ledger'[i].row.eventId != ledger'[j].row.eventId {
      IdsStayApart(n, n', i, j);
    }
  }

  ghost predicate Looked(db: Db, ledger: seq<Logged>, i: nat)
    requires i < |ledger|
  {
    var e := ledger[i];
    e.key in db.conns && db.conns[e.key] == e.row && e.row.exportSeq == Some(i + 1)
  }

  /** The situation right after a commit: the old ledger is kept, new entries were looked up. */
  ghost predicate JustRecorded(n: Node, n': Node) {
    && NodeOk(n) && Sound(n'.db) && Advances(n.db, n'.db) && Agrees(n'.db, n'.meter)
    && n.meter.closed <= n'.meter.closed
    && n.ledger <= n'.ledger && |n'.ledger| == n'.db.lastSeq
    && (forall i :: |n.ledger| <= i < |n'.ledger| ==> Looked(n'.db, n'.ledger, i))
  }

  lemma ClosedRowStaysLogged(n: Node, n': Node, k: Key)
    requires JustRecorded(n, n') && k in n'.db.conns && n'.db.conns[k].exportSeq.Some?
    ensures RowLogged(n'.db, n'.ledger, k)
  {
    hide Agrees;
    assert RowSound(n'.db, k);
    var i := n'.db.conns[k].exportSeq.value - 1;
    if i < |n.ledger| {
      assert RowNew(n.db, n'.db, k);
      assert RowLogged(n.db, n.ledger, k);
    } else {
      assert Looked(n'.db, n'.ledger, i);
      assert RowsApart(n'.db, k, n'.ledger[i].key);
    }
  }

  lemma OpenRowStaysLogged(n: Node, n': Node, k: Key)
    requires JustRecorded(n, n') && k in n'.db.conns && n'.db.conns[k].exportSeq.None?
    ensures RowLogged(n'.db, n'.ledger, k)
  {
    hide Agrees;
    assert RowNew(n.db, n'.db, k) && RowSound(n'.db, k);
    if k in n.db.conns { assert RowLogged(n.db, n.ledger, k) && RowKept(n.db, n'.db, k) && RowSound(n.db, k); }
    forall i | 0 <= i < |n'.ledger| ensures n'.ledger[i].row.eventId != n'.db.conns[k].eventId {
      if i < |n.ledger| {
        assert EntryOk(n.db, n.ledger, n.meter.closed, i);
      } else {
        assert Looked(n'.db, n'.ledger, i);
        assert RowsApart(n'.db, k, n'.ledger[i].key);
      }
    }
  }

  lemma EntryStaysOk(n: Node, n': Node, i: nat)
    requires JustRecorded(n, n') && i < |n'.ledger|
    ensures i < |n'.meter.closed| && EntryOk(n'.db, n'.ledger, n'.meter.closed, i)
  {
    if i < |n.ledger| {
      assert EntryOk(n.db, n.ledger, n.meter.closed, i);
      var e := n.ledger[i];
      if i + 1 > n.db.pruned { assert RowKept(n.db, n'.db, e.key); }
    } else {
      assert Looked(n'.db, n'.ledger, i);
      var e := n'.ledger[i];
      assert RowSound(n'.db, e.key) && RowAgrees(n'.db, n'.meter, e.key);
    }
  }

  lemma IdsStayApart(n: Node, n': Node, i: nat, j: nat)
    requires JustRecorded(n, n') && i < j < |n'.ledger|
    ensures n'.ledger[i].row.eventId != n'.ledger[j].row.eventId
  {
    if j >= |n.ledger| {
      assert Looked(n'.db, n'.ledger, j);
      var k := n'.ledger[j].key;
      if i >= |n.ledger| {
        assert Looked(n'.db, n'.ledger, i);
        assert RowsApart(n'.db, k, n'.ledger[i].key);
      } else {
        assert EntryOk(n.db, n.ledger, n.meter.closed, i) && RowNew(n.db, n'.db, k);
        if k in n.db.conns { assert RowLogged(n.db, n.ledger, k) && RowKept(n.db, n'.db, k) && RowSound(n.db, k); }
      }
    }
  }

  /* ---------- every step keeps it ---------- */

  lemma {:induction false} SeeAllExtends(m: Meter, evs: seq<Event>)
    ensures m.closed <= SeeAll(m, evs).closed
    decreases |evs|
  {
    if evs != [] { SeeAllExtends(m, evs[..|evs| - 1]); }
  }

  lemma {:induction false} LoseAllExtends(m: Meter, order: seq<Cid>)
    ensures m.closed <= LoseAll(m, order).closed
    decreases |order|
  {
    if order != [] { LoseAllExtends(m, order[..|order| - 1]); }
  }

  lemma TickOk(n: Node, step: Step)
    requires NodeOk(n) && step.Tick? && Enabled(n, step)
    ensures NodeOk(Next(n, step))
  {
    hide Sound, Agrees, Advances, ApplyPoll, PollVanished, Observe, LedgerOk, Record;
    var p := ApplyPoll(n.db, step.inst, step.live, n.known, step.order, step.now);
    ApplyPollSound(n.db, step.inst, step.live, n.known, step.order, step.now);
    PollAgrees(n.db, n.meter, step.inst, step.live, n.known, step.order, step.now);
    ObserveExtends(n.meter, step.live, step.order);
    RecordOk(n, p.db, p.known, Observe(n.meter, step.live, step.order));
  }

  lemma ObserveExtends(m: Meter, live: seq<Event>, order: seq<Cid>)
    ensures m.closed <= Observe(m, live, order).closed
  {
    SeeAllExtends(m, LiveMap(live));
    LoseAllExtends(SeeAll(m, LiveMap(live)), order);
  }

  /** Removing rows whose numbers the pruned maximum covers leaves the ledger in order. */
  lemma PruningKeepsLedger(db: Db, db': Db, ledger: seq<Logged>, spans: seq<Span>)
    requires LedgerOk(db, ledger, spans)
    requires db'.lastSeq == db.lastSeq && db'.nextEvent == db.nextEvent && db.pruned <= db'.pruned
    requires forall k :: k in db'.conns ==> k in db.conns && db'.conns[k] == db.conns[k]
    requires forall k :: k in db.conns && k !in db'.conns ==>
               db.conns[k].exportSeq.Some? && db.conns[k].exportSeq.value <= db'.pruned
    ensures LedgerOk(db', ledger, spans)
  {
    forall k | k in db'.conns ensures RowLogged(db', ledger, k) {
      assert RowLogged(db, ledger, k);
    }
    forall i | 0 <= i < |ledger| ensures EntryOk(db', ledger, spans, i) {
      assert EntryOk(db, ledger, spans, i);
    }
  }

  lemma RetainOk(n: Node, cutoff: int, limit: nat)
    requires NodeOk(n)
    ensures NodeOk(n.(db := DeleteBatch(n.db, cutoff, limit)))
  {
    DeleteBatchSound(n.db, cutoff, limit);
    DeleteBatchAgrees(n.db, n.meter, cutoff, limit);
    PruningKeepsLedger(n.db, DeleteBatch(n.db, cutoff, limit), n.ledger, n.meter.closed);
    hide Sound, DeleteBatch, Agrees, LedgerOk;
  }

  lemma StepOk(n: Node, step: Step)
    requires NodeOk(n) && Enabled(n, step)
    ensures NodeOk(Next(n, step)) && n.ledger <= Next(n, step).ledger
  {
    match step
    case Tick(_, _, _, _) => TickOk(n, step);
    case FailedTick(_) => ReloadAgrees(n.db);
    case Restart => ReloadAgrees(n.db);
    case Retain(cutoff, limit) => RetainOk(n, cutoff, limit);
  }

  lemma NewNodeOk()
    ensures NodeOk(NEW_NODE)
  {}

  /* ---------- runs ---------- */

  ghost predicate ValidRun(n: Node, steps: seq<Step>)
    requires NodeOk(n)
    decreases |steps|
  {
    steps == [] || (Enabled(n, steps[0]) && (StepOk(n, steps[0]); ValidRun(Next(n, steps[0]), steps[1..])))
  }

  ghost function After(n: Node, steps: seq<Step>): (r: Node)
    requires NodeOk(n) && ValidRun(n, steps)
    ensures NodeOk(r) && n.ledger <= r.ledger
    decreases |steps|
  {
    if steps == [] then n else
      StepOk(n, steps[0]);
      After(Next(n, steps[0]), steps[1..])
  }

  /** The steps that leave a durable trace. */
  function Durable(steps: seq<Step>): seq<Step> {
    if steps == [] then []
    else if steps[0].Tick? || steps[0].Retain? then [steps[0]] + Durable(steps[1..])
    else Durable(steps[1..])
  }

  /** Crash independence: rows, baselines, bytes, sequence numbers and everything ever exported depend
      only on the committed snapshots and retention batches, not on failed ticks, restarts or what was
      cached. Both caches agree with a reload of the same database. */
  lemma {:induction false} FaultsLeaveNoTrace(n: Node, m: Node, steps: seq<Step>)
    requires NodeOk(n) && NodeOk(m) && n.db == m.db && n.ledger == m.ledger && n.meter == m.meter
    requires ValidRun(n, steps)
    ensures ValidRun(m, Durable(steps))
    ensures var a, b := After(n, steps), After(m, Durable(steps));
            && a.db == b.db && a.ledger == b.ledger && a.meter == b.meter
            && CacheAgrees(a.db, a.known) && CacheAgrees(a.db, b.known) && CacheAgrees(a.db, ReloadKnownOpen(a.db))
    decreases |steps|
  {
    hide NodeOk, Sound, LedgerOk, Agrees, ApplyPoll, DeleteBatch, Record, Observe;
    if steps == [] {
      assert NodeOk(n) && NodeOk(m);
      CachesOf(n, m);
    } else {
      StepOk(n, steps[0]);
      if steps[0].Tick? || steps[0].Retain? {
        SameStep(n, m, steps[0]);
        StepOk(m, steps[0]);
        FaultsLeaveNoTrace(Next(n, steps[0]), Next(m, steps[0]), steps[1..]);
        assert ([steps[0]] + Durable(steps[1..]))[1..] == Durable(steps[1..]);
      } else {
        FaultsLeaveNoTrace(Next(n, steps[0]), m, steps[1..]);
      }
    }
  }

  lemma CachesOf(n: Node, m: Node)
    requires NodeOk(n) && NodeOk(m) && n.db == m.db
    ensures CacheAgrees(n.db, n.known) && CacheAgrees(n.db, m.known) && CacheAgrees(n.db, ReloadKnownOpen(n.db))
  {
    ReloadAgrees(n.db);
  }

  lemma SameStep(n: Node, m: Node, step: Step)
    requires NodeOk(n) && NodeOk(m) && n.db == m.db && n.ledger == m.ledger && n.meter == m.meter
    requires Enabled(n, step) && (step.Tick? || step.Retain?)
    ensures Enabled(m, step)
    ensures Next(n, step).db == Next(m, step).db
    ensures Next(n, step).ledger == Next(m, step).ledger && Next(n, step).meter == Next(m, step).meter
  {
    hide Sound, LedgerOk, Agrees, ApplyPoll, PollVanished;
    if step.Tick? {
      ApplyPollSound(n.db, step.inst, step.live, n.known, step.order, step.now);
      VanishedNeedsNoCache(n.db, step.inst, step.live, n.known);
      VanishedNeedsNoCache(m.db, step.inst, step.live, m.known);
      ApplyPollSound(m.db, step.inst, step.live, m.known, step.order, step.now);
    }
  }

  /* ---------- what every run from an empty database ends with ---------- */

  ghost predicate RunFromEmpty(steps: seq<Step>) {
    NewNodeOk();
    ValidRun(NEW_NODE, steps)
  }

  ghost function EndOf(steps: seq<Step>): (n: Node)
    requires RunFromEmpty(steps)
    ensures NodeOk(n)
  {
    NewNodeOk();
    After(NEW_NODE, steps)
  }

  predicate SameNumber(a: Row, b: Row) {
    a.exportSeq.Some? && a.exportSeq == b.exportSeq
  }

  /** Sequence numbers are set exactly on closed rows, are unique and allocated, and every number that no row
      carries any more is at most the pruned maximum. */
  lemma LedgerOverRuns(steps: seq<Step>)
    requires RunFromEmpty(steps)
    ensures var db := EndOf(steps).db;
            && (forall k :: k in db.conns ==>
                  (db.conns[k].exportSeq.Some? <==> db.conns[k].closedAt.Some?)
                  && (db.conns[k].exportSeq.Some? ==> 1 <= db.conns[k].exportSeq.value <= db.lastSeq))
            && (forall k, j :: k in db.conns && j in db.conns && SameNumber(db.conns[k], db.conns[j]) ==> k == j)
            && db.pruned <= db.lastSeq
            && (forall s: nat :: db.pruned < s <= db.lastSeq ==> Carried(db, s))
  {
    hide Agrees;
    var n := EndOf(steps);
    var db := n.db;
    forall k | k in db.conns
      ensures db.conns[k].exportSeq.Some? <==> db.conns[k].closedAt.Some?
      ensures db.conns[k].exportSeq.Some? ==> 1 <= db.conns[k].exportSeq.value <= db.lastSeq
    {
      assert RowSound(db, k);
    }
    forall k, j | k in db.conns && j in db.conns && SameNumber(db.conns[k], db.conns[j]) ensures k == j {
      assert RowsApart(db, k, j);
    }
    forall s: nat | db.pruned < s <= db.lastSeq ensures Carried(db, s) {
      assert EntryOk(db, n.ledger, n.meter.closed, s - 1);
    }
  }

  /** A closed row never changes: later in the run it is still there as it was, or its number was pruned. */
  lemma ClosedRowsNeverChange(n: Node, steps: seq<Step>, k: Key)
    requires NodeOk(n) && ValidRun(n, steps) && Closed(n.db, k)
    ensures var db' := After(n, steps).db;
            && n.db.conns[k].exportSeq.Some?
            && ((k in db'.conns && db'.conns[k] == n.db.conns[k]) || n.db.conns[k].exportSeq.value <= db'.pruned)
  {
    hide NodeOk, After, ValidRun;
    RowIsEntry(n, k);
    var m := After(n, steps);
    EntryStaysUnlessPruned(m, n.db.conns[k].exportSeq.value - 1);
  }

  lemma RowIsEntry(n: Node, k: Key)
    requires NodeOk(n) && Closed(n.db, k)
    ensures var s := n.db.conns[k].exportSeq;
            s.Some? && 1 <= s.value <= |n.ledger| && n.ledger[s.value - 1] == Logged(k, n.db.conns[k])
  {
    hide Agrees;
    assert RowSound(n.db, k) && RowLogged(n.db, n.ledger, k);
  }

  lemma EntryStaysUnlessPruned(n: Node, i: nat)
    requires NodeOk(n) && i < |n.ledger|
    ensures i + 1 <= n.db.pruned || (n.ledger[i].key in n.db.conns && n.db.conns[n.ledger[i].key] == n.ledger[i].row)
  {
    hide Agrees, Sound;
    assert EntryOk(n.db, n.ledger, n.meter.closed, i);
  }

  /** Byte conservation, row by row and for every generation ever closed, whether retention has removed it or
      not: each carries the last valid counter minus the first of one stretch of readings of its own connection,
      entry i of the ledger that of stretch i, and so does each open row; nothing leaves signed 64 bits. */
  lemma BytesOverRuns(steps: seq<Step>)
    requires RunFromEmpty(steps)
    ensures var n := EndOf(steps);
            && |n.ledger| == |n.meter.closed|
            && (forall i :: 0 <= i < |n.ledger| ==>
                  Bills(n.ledger[i].key, n.ledger[i].row, n.meter.closed[i])
                  && InInt64(n.ledger[i].row.up) && InInt64(n.ledger[i].row.dn))
            && (forall k :: Closed(n.db, k) ==> Logged(k, n.db.conns[k]) in n.ledger)
            && (forall k :: Open(n.db, k) ==>
                  k.cid in n.meter.open && Bills(k, n.db.conns[k], n.meter.open[k.cid])
                  && InInt64(n.db.conns[k].up) && InInt64(n.db.conns[k].dn))
  {
    hide NodeOk, RunFromEmpty, EndOf;
    var n := EndOf(steps);
    forall i | 0 <= i < |n.ledger|
      ensures i < |n.meter.closed| && Bills(n.ledger[i].key, n.ledger[i].row, n.meter.closed[i])
      ensures InInt64(n.ledger[i].row.up) && InInt64(n.ledger[i].row.dn)
    {
      EntryBills(n, i);
    }
    SameLength(n);
    forall k | Closed(n.db, k) ensures Logged(k, n.db.conns[k]) in n.ledger { RowIsEntry(n, k); }
    forall k | Open(n.db, k)
      ensures k.cid in n.meter.open && Bills(k, n.db.conns[k], n.meter.open[k.cid])
      ensures InInt64(n.db.conns[k].up) && InInt64(n.db.conns[k].dn)
    {
      OpenRowBills(n, k);
    }
  }

  lemma SameLength(n: Node)
    requires NodeOk(n)
    ensures |n.ledger| == |n.meter.closed|
  {}

  lemma EntryBills(n: Node, i: nat)
    requires NodeOk(n) && i < |n.ledger|
    ensures i < |n.meter.closed| && Bills(n.ledger[i].key, n.ledger[i].row, n.meter.closed[i])
    ensures InInt64(n.ledger[i].row.up) && InInt64(n.ledger[i].row.dn)
  {
    hide Sound, Agrees;
    assert EntryOk(n.db, n.ledger, n.meter.closed, i);
  }

  lemma OpenRowBills(n: Node, k: Key)
    requires NodeOk(n) && Open(n.db, k)
    ensures k.cid in n.db.base && n.db.base[k.cid].gen == k.gen
    ensures k.cid in n.meter.open && Bills(k, n.db.conns[k], n.meter.open[k.cid])
    ensures InInt64(n.db.conns[k].up) && InInt64(n.db.conns[k].dn)
  {
    hide LedgerOk;
    assert RowSound(n.db, k) && BaselineAgrees(n.db, n.meter, k.cid);
  }

  lemma BaselineIsOpen(n: Node, c: Cid)
    requires NodeOk(n) && c in n.db.base
    ensures Open(n.db, Key(c, n.db.base[c].gen)) && c in n.meter.open
  {
    hide LedgerOk;
    assert BaselineSound(n.db, c);
  }

  /** The totals: all bytes ever accounted, closed and open, are what all stretches of readings gained. */
  lemma TotalBytesOverRuns(steps: seq<Step>, order: seq<Cid>)
    requires RunFromEmpty(steps) && Visits(order, EndOf(steps).db.base.Keys)
    ensures var n := EndOf(steps);
            && AllOpen(n.db, n.meter, order)
            && RowTotal(n.ledger + OpenRows(n.db, n.meter, order)) == SpanTotal(n.meter.closed + OpenSpans(n.db, n.meter, order))
  {
    hide NodeOk, RunFromEmpty, EndOf;
    var n := EndOf(steps);
    forall i | 0 <= i < |order|
      ensures order[i] in n.db.base && Open(n.db, Key(order[i], n.db.base[order[i]].gen)) && order[i] in n.meter.open
    {
      assert order[i] in order;
      BaselineIsOpen(n, order[i]);
    }
    var rows, spans := n.ledger + OpenRows(n.db, n.meter, order), n.meter.closed + OpenSpans(n.db, n.meter, order);
    SameLength(n);
    forall i | 0 <= i < |rows| ensures Bills(rows[i].key, rows[i].row, spans[i]) {
      if i < |n.ledger| { EntryBills(n, i); } else { OpenRowBills(n, rows[i].key); }
    }
    BillsAddUp(rows, spans);
  }

  /** One open generation per connection, the highest, with a baseline of its own; the three sanity queries of
      the accounting-plane check count zero. */
  lemma PlaneChecksPass(steps: seq<Step>)
    requires RunFromEmpty(steps)
    ensures var db := EndOf(steps).db;
            && MissingOpen(db) == {} && StaleBaselines(db) == {} && DriftedRows(db) == {}
            && (forall k, j :: Open(db, k) && j in db.conns && j.cid == k.cid ==> j.gen <= k.gen && (Open(db, j) ==> j == k))
  {
    SanityQueriesCountZero(EndOf(steps).db);
  }
}
