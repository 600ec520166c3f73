/** For each promise the code keeps only under a condition: one input at which it fails. */
module Counterexamples {

  import opened Prelude
  import opened Ordering
  import opened Accounting
  import opened AccountingInvariants
  import opened NodeRuns
  import opened Wire
  import opened AuditExport
  import opened ExportValidator
  import opened AuditImport
  import opened FleetSync
  import RT = RestoreTransaction
  import WI = WorkspaceImport

  /* ---------- paging over an unchanging database ---------- */

  const TAGS: Tags := Tags("u", None, None, None, None, None)
  const FIRST: Event := Event("a", "n", TAGS, Number(0), Number(0), 0, 1)
  const SECOND: Event := Event("b", "n", TAGS, Number(0), Number(0), 0, 20)

  /** A connection closes, the clock steps back, the next one closes, and a batch deletes what is now the older row. */
  const HOLE: seq<Step> := [
    Tick(None, [FIRST], [], 1), Tick(None, [SECOND], ["a"], 20), Tick(None, [], ["b"], 2), Retain(10, RETENTION_DELETE_BATCH)]

  const OPENED: Db := Start(EMPTY, None, FIRST, 0, 0, 0)
  const CROSSED: Db := Finish(Start(OPENED, None, SECOND, 0, 0, 0), "a", 20)
  const CLOSED: Db := Finish(CROSSED, "b", 2)

  lemma DifferentIds()
    ensures "a" != "b" && FIRST.cid == "a" && SECOND.cid == "b"
  {
    assert "a"[0] != "b"[0];
  }

  /** One new connection with zero counters at most. */
  predicate Few(db: Db, live: seq<Event>) {
    |live| <= 1 && (live != [] ==> live[0].up == Number(0) == live[0].dn && live[0].cid !in db.base)
  }

  function AfterRead(db: Db, live: seq<Event>): Db
    requires Few(db, live)
  {
    if live == [] then db else Read(db, None, live[0], 0, 0)
  }

  /** A poll with one live connection at most, which closes one connection at most. */
  lemma SmallPoll(db: Db, live: seq<Event>, gone: seq<Cid>, known: Cache, now: int)
    requires Sound(db) && known.Keys <= db.base.Keys && Few(db, live) && |gone| <= 1
    requires (set c | c in gone) == db.base.Keys
    ensures Visits(gone, PollVanished(db, None, live, known))
    ensures var read := AfterRead(db, live);
            && (gone != [] ==> gone[0] in read.base && Open(read, Key(gone[0], read.base[gone[0]].gen)))
            && ApplyPoll(db, None, live, known, gone, now).db == if gone == [] then read else Finish(read, gone[0], now)
  {
    var read := AfterRead(db, live);
    SmallRead(db, live, known);
    SmallVanish(read, gone, known, now);
    VanishedNeedsNoCache(db, None, live, known);
    FewAreNew(db, live);
    FewVisits(gone);
    hide Sound, PollAll, AfterRead, Vanish, Finish, PollVanished, LiveMap, PruneBaselines, VanishAll, Few, Cids, Visits;
    PruneKeeps(VanishAll(read, None, gone, known, now));
  }

  lemma FewVisits(gone: seq<Cid>)
    requires |gone| <= 1
    ensures Visits(gone, set c | c in gone)
  {}

  lemma FewAreNew(db: Db, live: seq<Event>)
    requires Few(db, live)
    ensures db.base.Keys - Cids(live) == db.base.Keys
  {}

  lemma SmallRead(db: Db, live: seq<Event>, known: Cache)
    requires Sound(db) && Few(db, live)
    ensures Sound(AfterRead(db, live)) && db.base.Keys <= AfterRead(db, live).base.Keys
    ensures PollAll(db, None, LiveMap(live), known, map[]).db == AfterRead(db, live)
  {
    hide Sound, PollLive, Read, Advances, DictPut;
    assert PollAll(db, None, [], known, map[]) == Polled(db, map[]);
    if live != [] {
      var ev := live[0];
      PollLiveIsRead(db, None, ev, known, map[]);
      ReadSound(db, None, ev, 0, 0);
      ReadFrame(db, None, ev, 0, 0);
      OneEvent(ev);
      assert live == [ev] && [ev][..0] == [];
    }
  }

  lemma OneEvent(ev: Event)
    ensures LiveMap([ev]) == [ev]
  {
    assert [ev][..0] == [];
  }

  lemma SmallVanish(db: Db, gone: seq<Cid>, known: Cache, now: int)
    requires Sound(db) && |gone| <= 1 && forall c :: c in gone ==> c in db.base
    ensures Sound(VanishAll(db, None, gone, known, now))
    ensures gone == [] ==> VanishAll(db, None, gone, known, now) == db
    ensures gone != [] ==>
      && gone[0] in db.base && Open(db, Key(gone[0], db.base[gone[0]].gen))
      && VanishAll(db, None, gone, known, now) == Finish(db, gone[0], now)
  {
    hide Sound, Vanish, Finish, Advances;
    if gone != [] {
      assert gone[..0] == [];
      VanishSound(db, None, gone[0], known, now);
      assert VanishAll(db, None, [], known, now) == db;
    }
  }

  lemma TickOk(n: Node, live: seq<Event>, gone: seq<Cid>, now: int) returns (m: Node)
    requires NodeOk(n) && Few(n.db, live) && |gone| <= 1 && (set c | c in gone) == n.db.base.Keys
    ensures Sound(n.db) && n.known.Keys <= n.db.base.Keys
    ensures Enabled(n, Tick(None, live, gone, now)) && m == NodeRuns.Next(n, Tick(None, live, gone, now)) && NodeOk(m)
    ensures m.db == ApplyPoll(n.db, None, live, n.known, gone, now).db
  {
    CacheOfNode(n);
    hide NodeOk, Sound, ApplyPoll, PollVanished, AfterRead, Finish, Few;
    SmallPoll(n.db, live, gone, n.known, now);
    StepOk(n, Tick(None, live, gone, now));
    m := NodeRuns.Next(n, Tick(None, live, gone, now));
  }

  lemma CacheOfNode(n: Node)
    requires NodeOk(n)
    ensures Sound(n.db) && n.known.Keys <= n.db.base.Keys
  {}

  lemma FirstStep() returns (n: Node)
    ensures NodeOk(NEW_NODE) && Enabled(NEW_NODE, HOLE[0]) && n == NodeRuns.Next(NEW_NODE, HOLE[0])
    ensures NodeOk(n) && n.db == OPENED
  {
    NewNodeOk();
    assert MaxGeneration(EMPTY, FIRST.cid).None?;
    assert Read(EMPTY, None, FIRST, 0, 0) == OPENED;
    hide NodeOk, ApplyPoll, Read, PollVanished, OPENED, Sound;
    n := TickOk(NEW_NODE, [FIRST], [], 1);
    SmallPoll(EMPTY, [FIRST], [], map[], 1);
  }

  lemma SecondRead()
    ensures SECOND.cid !in OPENED.base && OPENED.base.Keys == {"a"}
    ensures Read(OPENED, None, SECOND, 0, 0) == Start(OPENED, None, SECOND, 0, 0, 0)
  {
    DifferentIds();
    assert forall k :: k in OPENED.conns ==> k.cid == FIRST.cid;
    assert MaxGeneration(OPENED, SECOND.cid).None?;
  }

  lemma SecondStep(n: Node) returns (m: Node)
    requires NodeOk(n) && n.db == OPENED
    ensures Enabled(n, HOLE[1]) && m == NodeRuns.Next(n, HOLE[1]) && NodeOk(m) && m.db == CROSSED
  {
    SecondRead();
    hide NodeOk, ApplyPoll, Read, PollVanished, OPENED, Start, Finish, Sound;
    m := TickOk(n, [SECOND], ["a"], 20);
    SmallPoll(OPENED, [SECOND], ["a"], n.known, 20);
  }

  lemma ThirdStep(n: Node) returns (m: Node)
    requires NodeOk(n) && n.db == CROSSED
    ensures Enabled(n, HOLE[2]) && m == NodeRuns.Next(n, HOLE[2]) && NodeOk(m) && m.db == CLOSED
  {
    DifferentIds();
    assert CROSSED.base.Keys == {"b"};
    hide NodeOk, ApplyPoll, PollVanished, CROSSED, Finish, Sound;
    m := TickOk(n, [], ["b"], 2);
    SmallPoll(CROSSED, [], ["b"], n.known, 2);
  }

  /** The row that stays has number 1, the one that went had number 2. */
  lemma BatchTakesTheLaterNumber()
    ensures var db := DeleteBatch(CLOSED, 10, RETENTION_DELETE_BATCH);
            && db.pruned == 2 && Key("a", 0) in db.conns && db.conns[Key("a", 0)].exportSeq == Some(1)
            && db.conns[Key("a", 0)].closedAt.Some?
  {
    assert FIRST.cid[0] == 'a' && SECOND.cid[0] == 'b';
    var a, b := Key("a", 0), Key("b", 0);
    assert CLOSED.conns.Keys == {a, b};
    assert CLOSED.conns[a].eventId == 1 && CLOSED.conns[b].eventId == 2;
    assert CLOSED.conns[a].exportSeq == Some(1) && CLOSED.conns[b].exportSeq == Some(2);
    assert CLOSED.conns[a].lastSeen == 20 && CLOSED.conns[b].lastSeen == 2;
    assert ExpiredRows(CLOSED, 10) == {b};
    assert EventIdsOf(CLOSED, {b}) == {2};
    var ids := ExpiredIds(CLOSED, 10);
    assert ids[0] in ids && ids == [2];
    assert RowsWithIds(CLOSED, [2]) == {b};
    assert SeqsOf(CLOSED, {b}) == {2};
    assert PrunedMax(0, {2}) == 2;
  }

  lemma LastStep(n: Node) returns (m: Node)
    requires NodeOk(n) && n.db == CLOSED
    ensures Enabled(n, HOLE[3]) && m == NodeRuns.Next(n, HOLE[3]) && NodeOk(m)
    ensures !PagingSafe(m.db, 0) && ReadPages(m.db, 0, 1).None?
  {
    hide NodeOk, DeleteBatch, PagingSafe, ReadPages, CLOSED;
    StepOk(n, HOLE[3]);
    m := NodeRuns.Next(n, HOLE[3]);
    BatchTakesTheLaterNumber();
    HoleIsUnsafe(m);
  }

  /** Export paging needs its condition: this run ends with a closed row below the pruned maximum, and reading one
      row at a time from the start fails on it. */
  lemma RetentionLeavesAHole()
    ensures RunFromEmpty(HOLE) && !PagingSafe(EndOf(HOLE).db, 0) && ReadPages(EndOf(HOLE).db, 0, 1).None?
  {
    hide NodeOk, NodeRuns.Next, Enabled, PagingSafe, ReadPages, OPENED, CROSSED, CLOSED, ValidRun, After;
    NewNodeOk();
    var n1 := FirstStep();
    var n2 := SecondStep(n1);
    var n3 := ThirdStep(n2);
    var n4 := LastStep(n3);
    FourSteps(NEW_NODE, n1, n2, n3, n4);
  }

  lemma FourSteps(n0: Node, n1: Node, n2: Node, n3: Node, n4: Node)
    requires NodeOk(n0) && NodeOk(n1) && NodeOk(n2) && NodeOk(n3) && NodeOk(n4)
    requires Enabled(n0, HOLE[0]) && n1 == NodeRuns.Next(n0, HOLE[0]) && Enabled(n1, HOLE[1]) && n2 == NodeRuns.Next(n1, HOLE[1])
    requires Enabled(n2, HOLE[2]) && n3 == NodeRuns.Next(n2, HOLE[2]) && Enabled(n3, HOLE[3]) && n4 == NodeRuns.Next(n3, HOLE[3])
    ensures ValidRun(n0, HOLE) && After(n0, HOLE) == n4
  {
    hide NodeOk, NodeRuns.Next, Enabled, FIRST, SECOND;
    var d := [HOLE[3]];
    var c := [HOLE[2]] + d;
    var b := [HOLE[1]] + c;
    assert [HOLE[3]] + [] == d && [HOLE[0]] + b == HOLE;
    assert ValidRun(n4, []) && After(n4, []) == n4;
    hide ValidRun, After, HOLE;
    Prepend(n3, HOLE[3], []);
    Prepend(n2, HOLE[2], d);
    Prepend(n1, HOLE[1], c);
    Prepend(n0, HOLE[0], b);
  }

  lemma Prepend(n: Node, step: Step, steps: seq<Step>)
    requires NodeOk(n) && Enabled(n, step) && NodeOk(NodeRuns.Next(n, step)) && ValidRun(NodeRuns.Next(n, step), steps)
    ensures ValidRun(n, [step] + steps) && After(n, [step] + steps) == After(NodeRuns.Next(n, step), steps)
  {
    hide NodeOk, NodeRuns.Next, Enabled;
    assert ([step] + steps)[1..] == steps;
  }

  lemma HoleIsUnsafe(n: Node)
    requires NodeOk(n) && n.db.pruned == 2 && Key("a", 0) in n.db.conns
    requires n.db.conns[Key("a", 0)].exportSeq == Some(1) && n.db.conns[Key("a", 0)].closedAt.Some?
    ensures !PagingSafe(n.db, 0) && ReadPages(n.db, 0, 1).None?
  {
    assert 1 in SeqsAfter(n.db, 0);
    UnsafeStartBreaks(n.db, 0);
  }

  /* ---------- a full sync that reports an error ---------- */

  function UuidOf(hex: char): string {
    seq(36, i => if i == 8 || i == 13 || i == 18 || i == 23 then '-' else hex)
  }

  const NODE_ID: string := UuidOf('0')
  const INSTANCE_ID: string := UuidOf('1')

  const ONE_ROW: WireRow := WireRow(
    JInt(1), JInt(1), JStr("c"), JInt(0), JStr("u"), JNull, JStr(NODE_ID), JNull, JNull, JNull, JNull, JNull,
    JInt(0), JInt(0), JStr("t0"), JStr("t1"), JStr("t1"))

  const ONE_META: Meta := Meta(
    JBool(true), JNull, JInt(EXPORT_PROTOCOL_VERSION), JStr(CURSOR_KIND_EXPORT_SEQ), JInt(0), JInt(1), JInt(1),
    JStr(NODE_ID), JStr(INSTANCE_ID), JInt(1))

  const UNFLUSHED: FullAttempt := FullAttempt(
    Attempt(Some(Identity(JStr(NODE_ID), JStr(INSTANCE_ID))), HistoryWrite.Written, Reply(0, Some(ONE_META), Some([ONE_ROW])), None, "now"),
    true, true, "node", [], false, false)

  lemma NullIsBlank()
    ensures OptionalText(JNull).None?
  {}

  lemma TheIds()
    ensures IsUuid(NODE_ID) && IsUuid(INSTANCE_ID) && INSTANCE_ID != NODE_ID
    ensures OptionalText(JStr(NODE_ID)) == Some(NODE_ID) && OptionalText(JStr(INSTANCE_ID)) == Some(INSTANCE_ID)
    ensures InstanceIdOf(UNFLUSHED.base) == Some(INSTANCE_ID)
  {
    assert NODE_ID[0] == '0' && INSTANCE_ID[0] == '1';
    TrimmedText(NODE_ID);
    TrimmedText(INSTANCE_ID);
  }

  lemma RowAccepted()
    ensures RowFits([ONE_ROW], 0, 0, NODE_ID) && HeaderFits(ONE_META, 1, 0, NODE_ID, Some(INSTANCE_ID)) && CursorFits(ONE_META, [ONE_ROW], 0)
  {
    TheIds();
    TrimmedText(CURSOR_KIND_EXPORT_SEQ);
    hide OptionalText, NODE_ID, INSTANCE_ID, CURSOR_KIND_EXPORT_SEQ;
  }

  lemma IdentityImported()
    ensures IdentityFits(NODE_ID, Some(INSTANCE_ID))
  {
    TheIds();
    hide OptionalText, NODE_ID, INSTANCE_ID, IsUuid;
  }

  lemma RowImported()
    ensures RowImportable(ONE_ROW, NODE_ID, "now")
  {
    TheIds();
    NullIsBlank();
    TrimmedText("c");
    TrimmedText("u");
    TrimmedText("t0");
    TrimmedText("t1");
    hide OptionalText, NODE_ID, INSTANCE_ID, IsUuid, UNFLUSHED, InstanceIdOf;
  }

  lemma OneRowLands()
    ensures BatchLands(NODE_ID, InstanceIdOf(UNFLUSHED.base), 0, UNFLUSHED.base)
  {
    TheIds();
    RowAccepted();
    IdentityImported();
    RowImported();
    hide OptionalText, NODE_ID, INSTANCE_ID, ONE_ROW, ONE_META, RowFits, HeaderFits, CursorFits, RowImportable, IdentityFits;
    NextIsOne();
    assert Acceptable(Some(ONE_META), [ONE_ROW], 0, NODE_ID, Some(INSTANCE_ID));
    assert Importable(NODE_ID, Some(INSTANCE_ID), [ONE_ROW], Some(1), "now");
  }

  lemma NextIsOne()
    ensures NextOf(UNFLUSHED.base.reply) == 1
  {}

  /** "No cursor advance on error" needs its condition: a node reports an instance never seen before, one row is
      imported, appending the history lines fails, the result is an error and the cursor has moved. */
  method FullSyncErrorMovesCursor() returns (r: Outcome, before: int, after: int)
    ensures r.Done? && !r.status.Succeeded? && before == 0 && after == 1
  {
    var cache := new FleetCache("fleet");
    var node := NodeEntry(NODE_ID, Active, true);
    before := CursorSeq(cache.Db(), NODE_ID);
    ghost var db := cache.Db();
    TheIds();
    OneRowLands();
    r := cache.SyncFullOneNode(node, UNFLUSHED);
    LandedCursorIsNext(db, NODE_ID, UNFLUSHED.base);
    after := CursorSeq(cache.Db(), NODE_ID);
  }

  /* ---------- a restore and an import that leave something behind ---------- */

  /** All-or-nothing restore needs its condition: the safety directory of an earlier restore still holds an
      owner.uri the target never had. The first staged write raises, and the rollback leaves that file. */
  method StaleSafetyDirectory() returns (was: RT.Tree, now: RT.Tree)
    ensures was == RT.NOTHING && now.owner == Some("of another node") && now != was
  {
    was := RT.NOTHING;
    var stale := was.(owner := Some("of another node"));
    var node := new RT.Node(was, stale);
    var r, forward := node.ApplyRestore(RT.SAMPLE, RT.AtWrite(RT.StateJson, false));
    now := node.dest;
    assert RT.At(r.k.safety, RT.OwnerUri) == RT.SafetySlot(stale, was, RT.SAMPLE, RT.OwnerUri);
    assert RT.At(now, RT.OwnerUri) == RT.RolledSlot(r.now, r.k, RT.OwnerUri);
    assert RT.At(now, RT.OwnerUri) == now.owner;
  }

  /** A workspace import needs its condition: the first write raises after its rename, and the file stays. */
  method TornImport() returns (raised: bool, was: WI.Tree, now: WI.Tree)
    ensures raised && was.manifest.None? && now != was
  {
    was := WI.Tree(None, None, None, None);
    var workspace := new WI.Workspace(was);
    var staging := was.(manifest := Some("manifest"), registry := Some("registry"));
    ghost var n;
    var fault, undo := WI.AtWrite(WI.Manifest, true), WI.Undo(false, false, false, false);
    raised, n := workspace.CommitStaged(staging, fault, undo);
    now := workspace.live;
    assert !WI.Returned(was, staging, fault, undo, n, WI.Manifest);
  }
}
