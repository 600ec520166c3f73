/** accountd's own form: tables updated row by row inside a transaction, a cache replaced after COMMIT.
    Every method is proved against the functions of Accounting.dfy, and a tick of the daemon against
    the runs of NodeRuns.dfy. */
module AccountDaemons {

  import opened Prelude
  import opened Ordering
  import opened Accounting
  import opened AccountingInvariants
  import opened NodeRuns

  /** What the environment does to one tick. */
  datatype Poll =
    | NoSnapshot                                                   // HTTP error, bad envelope, bad JSON
    | Snapshot(live: seq<Event>, raises: bool, commitFails: bool)  // raises: an exception before COMMIT

  class AccountDaemon {
    // the tables, as the open transaction sees them
    var conns: map<Key, Row>
    var base: map<Cid, Baseline>
    var lastSeq: nat
    var pruned: nat
    var nextEvent: nat
    // what the last COMMIT made durable
    var committed: Db
    var knownOpen: Cache
    const instance: Option<string>
    ghost var node: Node

    function Tables(): Db
      reads this
    {
      Db(conns, base, lastSeq, pruned, nextEvent)
    }

    /** Between ticks: no open transaction, and the object stands for a node in a good state. */
    ghost predicate Idle()
      reads this
    {
      Tables() == committed == node.db && node.known == knownOpen && NodeOk(node)
    }

    constructor (instance: Option<string>)
      ensures Idle() && node == NEW_NODE && this.instance == instance
    {
      conns, base, lastSeq, pruned, nextEvent := EMPTY.conns, EMPTY.base, EMPTY.lastSeq, EMPTY.pruned, EMPTY.nextEvent;
      committed, knownOpen, node := EMPTY, map[], NEW_NODE;
      this.instance := instance;
      NewNodeOk();
    }

    method AssignExportSeq(k: Key)
      modifies this`conns, this`lastSeq
      ensures Tables() == AssignSeq(old(Tables()), k)
    {
      if k !in conns || conns[k].closedAt.None? || conns[k].exportSeq.Some? {
        return;
      }
      lastSeq := lastSeq + 1;
      conns := conns[k := conns[k].(exportSeq := Some(lastSeq))];
    }

    method UpsertConnection(k: Key, e: Entry, now: int, close: bool) returns (landed: bool)
      modifies this`conns, this`lastSeq, this`nextEvent
      ensures Upserted(Tables(), landed) == Upsert(old(Tables()), instance, k, e, now, close)
    {
      var closedAt := if close then Some(now) else None;
      if k in conns && conns[k].closedAt.None? {
        var row := conns[k];
        conns := conns[k := row.(tags := Refresh(row.tags, e.tags), up := e.base.accUp, dn := e.base.accDn,
                                 closedAt := closedAt, lastSeen := now)];
        AssignExportSeq(k);
        return true;
      }
      if k in conns {
        return false;
      }
      conns := conns[k := Row(nextEvent, e.nodeId, instance, e.tags, e.startedAt, now, closedAt,
                              e.base.accUp, e.base.accDn, None)];
      nextEvent := nextEvent + 1;
      AssignExportSeq(k);
      return true;
    }

    method WriteOpen(ev: Event, b: Baseline) returns (entry: Entry)
      modifies this`conns, this`lastSeq, this`nextEvent, this`base
      ensures Written(Tables(), entry) == WriteOpenState(old(Tables()), instance, ev, b)
    {
      entry := Entry(ev.nodeId, ev.tags, ev.startedAt, b);
      var landed := UpsertConnection(Key(ev.cid, b.gen), entry, ev.ts, false);
      if !landed {
        var max := MaxGeneration(Tables(), ev.cid);
        var gen := (if max.Some? then max.value else 0) + 1;
        entry := entry.(base := b.(gen := gen, accUp := 0, accDn := 0));
        var _ := UpsertConnection(Key(ev.cid, gen), entry, ev.ts, false);
      }
      base := base[ev.cid := entry.base];
    }

    method CloseOpenGeneration(cid: Cid, state: Entry, now: int)
      modifies this`conns, this`lastSeq, this`nextEvent, this`base
      ensures Tables() == CloseGeneration(old(Tables()), instance, cid, state, now)
    {
      var _ := UpsertConnection(Key(cid, state.base.gen), state, now, true);
      base := base - {cid};
    }

    method AccountReading(ev: Event, up: int, dn: int) returns (entry: Entry)
      modifies this`conns, this`lastSeq, this`nextEvent, this`base
      ensures Written(Tables(), entry) == Account(old(Tables()), instance, ev, up, dn)
    {
      var prev := DurablePrev(Tables(), ev.cid);
      if prev.None? {
        var open := OpenGeneration(Tables(), ev.cid);
        if open.Some? {
          var row := conns[Key(ev.cid, open.value)];
          entry := WriteOpen(ev, Baseline(open.value, up, dn, row.up, row.dn, ev.ts));
          return;
        }
        var max := MaxGeneration(Tables(), ev.cid);
        entry := WriteOpen(ev, Baseline(if max.None? then 0 else max.value + 1, up, dn, 0, 0, ev.ts));
        return;
      }
      var b := prev.value.base;
      if up < b.rawUp || dn < b.rawDn {
        CloseOpenGeneration(ev.cid, prev.value, ev.ts);
        entry := WriteOpen(ev, Baseline(b.gen + 1, up, dn, 0, 0, ev.ts));
        return;
      }
      entry := WriteOpen(ev, Baseline(b.gen, up, dn, b.accUp + (up - b.rawUp), b.accDn + (dn - b.rawDn), ev.ts));
    }

    /** The two loops of apply_poll_delta. The set of vanished ids is walked in an arbitrary order. */
    method ApplyPollDelta(live: seq<Event>, now: int) returns (newKnown: Cache, ghost order: seq<Cid>)
      modifies this`conns, this`lastSeq, this`nextEvent, this`base
      ensures Visits(order, PollVanished(old(Tables()), instance, live, knownOpen))
      ensures Polled(Tables(), newKnown) == ApplyPoll(old(Tables()), instance, live, knownOpen, order, now)
    {
      hide LiveMap, PollAll, VanishAll, Visits;
      var evs := LiveMap(live);
      newKnown := PollLiveIds(evs);
      order := CloseVanished(evs, now);
      PrunePollBaselines();
    }

    /** The loop over the live map. */
    method PollLiveIds(evs: seq<Event>) returns (newKnown: Cache)
      modifies this`conns, this`lastSeq, this`nextEvent, this`base
      ensures Polled(Tables(), newKnown) == PollAll(old(Tables()), instance, evs, knownOpen, map[])
    {
      hide Account, PrevState;
      newKnown := map[];
      var i := 0;
      while i < |evs|
        invariant 0 <= i <= |evs|
        invariant Polled(Tables(), newKnown) == PollAll(old(Tables()), instance, evs[..i], knownOpen, map[])
      {
        var ev := evs[i];
        assert evs[..i + 1][..i] == evs[..i];
        var up, dn := EventCounter(ev.up), EventCounter(ev.dn);
        if up.None? || dn.None? {
          var kept := PrevState(Tables(), knownOpen, ev.cid);
          if kept.Some? {
            newKnown := newKnown[ev.cid := kept.value];
          }
        } else {
          var entry := AccountReading(ev, up.value, dn.value);
          newKnown := newKnown[ev.cid := entry];
        }
        i := i + 1;
      }
      assert evs[..|evs|] == evs;
    }

    /** The loop over the tracked ids that are not live, in the order a set iterates. */
    method CloseVanished(evs: seq<Event>, now: int) returns (ghost order: seq<Cid>)
      modifies this`conns, this`lastSeq, this`nextEvent, this`base
      ensures Visits(order, Vanished(old(Tables()), evs, knownOpen))
      ensures Tables() == VanishAll(old(Tables()), instance, order, knownOpen, now)
    {
      hide CloseGeneration, PrevState, Vanished;
      var todo := Vanished(Tables(), evs, knownOpen);
      ghost var all := todo;
      order := [];
      while todo != {}
        invariant Visits(order, all - todo) && todo <= all
        invariant Tables() == VanishAll(old(Tables()), instance, order, knownOpen, now)
        decreases todo
      {
        var cid :| cid in todo;
        var state := PrevState(Tables(), knownOpen, cid);
        if state.None? {
          base := base - {cid};
        } else {
          CloseOpenGeneration(cid, state.value, now);
        }
        todo := todo - {cid};
        ghost var next := order + [cid];
        assert next[..|order|] == order;
        order := next;
      }
      assert all - todo == all;
    }

    /** prune_closed_poll_baselines: a baseline stays exactly when its generation is open, and stays as it is. */
    method PrunePollBaselines()
      modifies this`base
      ensures forall c :: c in base <==> c in old(base) && Open(old(Tables()), Key(c, old(base)[c].gen))
      ensures forall c :: c in base ==> base[c] == old(base)[c]
      ensures StaleBaselines(Tables()) == {} && (StaleBaselines(old(Tables())) == {} ==> base == old(base))
      ensures Tables() == PruneBaselines(old(Tables()))
    {
      var db := Tables();
      base := map cid | cid in base && Open(db, Key(cid, base[cid].gen)) :: base[cid];
      assert forall c :: c in db.base && !Open(db, Key(c, db.base[c].gen)) ==> c in StaleBaselines(db);
      assert StaleBaselines(db) == {} ==> base == db.base;
    }

    /** The UPDATE of one stale row, guarded by closed_at IS NULL. */
    method CloseStaleRow(k: Key, now: int) returns (updated: bool)
      modifies this`conns, this`lastSeq
      ensures updated <==> Open(old(Tables()), k)
      ensures Tables() == CloseRow(old(Tables()), k, now)
    {
      updated := k in conns && conns[k].closedAt.None?;
      if updated {
        conns := conns[k := conns[k].(closedAt := Some(now), lastSeen := now)];
        AssignExportSeq(k);
      }
    }

    /** close_stale_open_connections: closes each stale row once, in some order, and counts them. */
    method CloseStale(ids: set<Cid>, now: int) returns (closed: nat, ghost order: seq<Key>)
      modifies this`conns, this`lastSeq
      ensures Lists(order, StaleRows(old(Tables()), ids)) && closed == |StaleRows(old(Tables()), ids)|
      ensures Tables() == CloseRows(old(Tables()), order, now)
      ensures StaleRows(old(Tables()), ids) == {} ==> Tables() == old(Tables())
      ensures conns.Keys == old(conns).Keys
      ensures forall k :: k in conns ==> Swept(old(Tables()), Tables(), ids, now, k)
    {
      hide CloseRow, Swept;
      var todo := StaleRows(Tables(), ids);
      ghost var all := todo;
      assert forall k :: k in todo ==> Open(Tables(), k);
      closed, order := 0, [];
      while todo != {}
        invariant todo <= all && Lists(order, all - todo) && closed + |todo| == |all|
        invariant Tables() == CloseRows(old(Tables()), order, now)
        invariant forall k :: k in todo ==> Open(Tables(), k)
        decreases todo
      {
        var k :| k in todo;
        ghost var db := Tables();
        var updated := CloseStaleRow(k, now);
        if updated { closed := closed + 1; }
        forall j | j in todo - {k} ensures Open(Tables(), j) { ClosesOnly(db, k, now, j); }
        todo := todo - {k};
        ghost var next := order + [k];
        assert next[..|order|] == order;
        order := next;
      }
      assert all - todo == all;
      SweptAll(old(Tables()), order, ids, now);
      assert all == {} ==> order == [] by { if order != [] { assert order[0] in order; } }
    }

    /** One retention batch: remember the highest deleted export_seq, then delete. */
    method DeleteExpiredBatch(cutoff: int, limit: nat) returns (deleted: nat)
      modifies this`conns, this`pruned
      ensures Tables() == DeleteBatch(old(Tables()), cutoff, limit)
      ensures deleted == |ExpiredBatch(old(Tables()), cutoff, limit)|
    {
      hide StrictTotal, OrderBy, Least;
      var db := Tables();
      var ids := ExpiredBatch(db, cutoff, limit);
      if ids == [] {
        return 0;
      }
      var victims := RowsWithIds(db, ids);
      var max := pruned;
      var todo := victims;
      while todo != {}
        invariant todo <= victims && Tables() == db
        invariant max == PrunedMax(db.pruned, SeqsOf(db, victims - todo))
        decreases todo
      {
        var k :| k in todo;
        if conns[k].exportSeq.Some? {
          max := Max(max, conns[k].exportSeq.value);
        }
        OneMoreSeq(db, victims - todo, k);
        assert victims - (todo - {k}) == victims - todo + {k};
        todo := todo - {k};
      }
      assert victims - todo == victims;
      conns := conns - victims;
      pruned := max;
      return |ids|;
    }

    method Rollback()
      modifies this`conns, this`lastSeq, this`nextEvent, this`base, this`pruned
      ensures Tables() == committed
    {
      conns, base, lastSeq, pruned, nextEvent :=
        committed.conns, committed.base, committed.lastSeq, committed.pruned, committed.nextEvent;
    }

    /** commit_accounting: the cache is replaced after COMMIT, or reloaded from what is still durable when COMMIT
        fails; either way it agrees with the committed database. */
    method CommitAccounting(newKnown: Cache, commitFails: bool) returns (ok: bool)
      modifies this`conns, this`base, this`lastSeq, this`pruned, this`nextEvent, this`committed, this`knownOpen
      ensures ok <==> !commitFails
      ensures ok ==> committed == Tables() == old(Tables()) && knownOpen == newKnown
      ensures !ok ==> committed == Tables() == old(committed) && knownOpen == ReloadKnownOpen(committed)
      ensures Sound(old(committed)) && CacheAgrees(old(Tables()), newKnown) ==> CacheAgrees(committed, knownOpen)
    {
      if commitFails {
        Rollback();
        knownOpen := ReloadKnownOpen(Tables());
        if Sound(committed) { ReloadAgrees(committed); }
        return false;
      }
      committed := Tables();
      knownOpen := newKnown;
      return true;
    }

    /** A snapshot arrived and was applied; COMMIT succeeds or fails. */
    method PollTick(live: seq<Event>, commitFails: bool, now: int) returns (ghost step: Step)
      requires Idle()
      modifies this
      ensures Idle() && Enabled(old(node), step) && node == Next(old(node), step)
      ensures if commitFails then step == FailedTick(true)
              else step.Tick? && step == Step.Tick(instance, live, step.order, now)
    {
      hide ApplyPoll, PollVanished, PruneBaselines, StaleRows, Sound, Advances, LedgerOk;
      ghost var n := node;
      var newKnown;
      ghost var order;
      newKnown, order := ApplyPollDelta(live, now);
      SweepIdle(n, instance, live, order, now);
      var _, _ := CloseStale(Cids(live), now);
      PrunePollBaselines();
      var ok := CommitAccounting(newKnown, commitFails);
      step := if ok then Step.Tick(instance, live, order, now) else FailedTick(true);
      StepOk(n, step);
      node := Next(n, step);
    }

    /** The interrupted writes are rolled back and the cache is kept. */
    method AbandonTick() returns (ghost step: Step)
      requires Idle()
      modifies this
      ensures Idle() && step == FailedTick(false) && Enabled(old(node), step) && node == Next(old(node), step)
    {
      conns, base, lastSeq, nextEvent := *, *, *, *;
      Rollback();
      step := FailedTick(false);
      StepOk(node, step);
    }

    method Maintain(cutoff: int) returns (ghost step: Step)
      requires Idle()
      modifies this
      ensures Idle() && step == Retain(cutoff, RETENTION_DELETE_BATCH)
      ensures Enabled(old(node), step) && node == Next(old(node), step)
    {
      hide DeleteBatch, ExpiredBatch, Sound, LedgerOk, CacheAgrees;
      var _ := DeleteExpiredBatch(cutoff, RETENTION_DELETE_BATCH);
      committed := Tables();
      step := Retain(cutoff, RETENTION_DELETE_BATCH);
      StepOk(node, step);
      node := Next(node, step);
    }

    /** One iteration of the daemon loop, exception handler included. The durable outcome and the cache
        are those of the abstract steps. */
    method Tick(poll: Poll, now: int, retention: Option<int>) returns (ghost steps: seq<Step>)
      requires Idle()
      modifies this
      ensures Idle() && ValidRun(old(node), steps) && node == After(old(node), steps)
      ensures poll.Snapshot? && poll.raises ==> steps == [FailedTick(false)]
      ensures poll.Snapshot? && !poll.raises && poll.commitFails ==> steps == [FailedTick(true)]
      ensures poll.NoSnapshot? ==> steps == [FailedTick(false)] + MaintenanceSteps(retention)
      ensures poll.Snapshot? && !poll.raises && !poll.commitFails ==>
                && steps != [] && steps[0].Tick?
                && steps[0] == Step.Tick(instance, poll.live, steps[0].order, now)
                && steps == [steps[0]] + MaintenanceSteps(retention)
    {
      hide NodeOk;
      ghost var n := node;
      ghost var first;
      match poll {
        case NoSnapshot =>
          first := FailedTick(false);
        case Snapshot(live, raises, commitFails) =>
          if raises {
            first := AbandonTick();
          } else {
            first := PollTick(live, commitFails, now);
          }
      }
      OneStep(n, first);
      steps := [first];
      if retention.Some? && (poll.NoSnapshot? || (!poll.raises && !poll.commitFails)) {
        ghost var last := Maintain(retention.value);
        TwoSteps(n, first, last);
        steps := [first] + [last];
      }
    }
  }

  /** A row after the sweep: closed now if it was open and its connection is not live, with bytes and tags kept;
      with no live connection at all every open row is closed. Any other row stays as it is. */
  predicate Swept(db: Db, db': Db, ids: set<Cid>, now: int, k: Key) {
    k in db.conns && k in db'.conns &&
    var row, row' := db.conns[k], db'.conns[k];
    if row.closedAt.None? && k.cid !in ids then ClosedNow(row, row', now, db.lastSeq) else row' == row
  }

  predicate ClosedNow(row: Row, row': Row, now: int, lastSeq: nat) {
    && row'.closedAt == Some(now) && row'.lastSeen == now
    && row'.up == row.up && row'.dn == row.dn && row'.tags == row.tags && row'.startedAt == row.startedAt
    && row'.eventId == row.eventId && row'.nodeId == row.nodeId && row'.instanceId == row.instanceId
    && row'.exportSeq.Some? && (row.exportSeq.None? ==> row'.exportSeq.value > lastSeq)
  }

  lemma SweptAll(db: Db, order: seq<Key>, ids: set<Cid>, now: int)
    requires Lists(order, StaleRows(db, ids))
    ensures var db' := CloseRows(db, order, now);
            db'.conns.Keys == db.conns.Keys && forall k :: k in db'.conns ==> Swept(db, db', ids, now, k)
  {
    hide CloseRows;
    forall k
      ensures k in CloseRows(db, order, now).conns <==> k in db.conns
      ensures k in db.conns ==> Swept(db, CloseRows(db, order, now), ids, now, k)
    {
      SweptAt(db, order, now, k);
    }
  }

  lemma {:induction false} SweptAt(db: Db, order: seq<Key>, now: int, k: Key)
    ensures var db' := CloseRows(db, order, now);
            && db.lastSeq <= db'.lastSeq && (k in db'.conns <==> k in db.conns)
            && (k in db.conns ==>
                  if Open(db, k) && k in order then ClosedNow(db.conns[k], db'.conns[k], now, db.lastSeq)
                  else db'.conns[k] == db.conns[k])
    decreases |order|
  {
    if order != [] {
      var n := |order| - 1;
      SweptAt(db, order[..n], now, k);
      assert order == order[..n] + [order[n]];
    }
  }

  lemma ClosesOnly(db: Db, k: Key, now: int, j: Key)
    requires j != k
    ensures Open(CloseRow(db, k, now), j) == Open(db, j)
  {}

  lemma OneMoreSeq(db: Db, keys: set<Key>, k: Key)
    requires k in db.conns
    ensures PrunedMax(db.pruned, SeqsOf(db, keys + {k}))
            == (if db.conns[k].exportSeq.Some?
                then Max(PrunedMax(db.pruned, SeqsOf(db, keys)), db.conns[k].exportSeq.value)
                else PrunedMax(db.pruned, SeqsOf(db, keys)))
  {
    var before, after := SeqsOf(db, keys), SeqsOf(db, keys + {k});
    if db.conns[k].exportSeq.Some? {
      assert after == before + {db.conns[k].exportSeq.value};
    } else {
      assert after == before;
    }
  }

  function MaintenanceSteps(retention: Option<int>): seq<Step> {
    if retention.Some? then [Retain(retention.value, 2000)] else []
  }

  lemma OneStep(n: Node, step: Step)
    requires NodeOk(n) && Enabled(n, step)
    ensures NodeOk(Next(n, step))
    ensures ValidRun(n, [step]) && After(n, [step]) == Next(n, step)
  {
    StepOk(n, step);
    assert [step][1..] == [];
  }

  lemma TwoSteps(n: Node, first: Step, second: Step)
    requires NodeOk(n) && Enabled(n, first)
    ensures NodeOk(Next(n, first))
    requires second.Retain?
    ensures ValidRun(n, [first] + [second]) && After(n, [first] + [second]) == Next(Next(n, first), second)
    ensures NodeOk(Next(Next(n, first), second))
  {
    StepOk(n, first);
    OneStep(Next(n, first), second);
    assert ([first] + [second])[1..] == [second];
  }

  /** After a poll the sweep and the second prune have nothing to do. */
  lemma SweepIdle(n: Node, inst: Option<string>, live: seq<Event>, order: seq<Cid>, now: int)
    requires NodeOk(n) && Visits(order, PollVanished(n.db, inst, live, n.known))
    ensures var db := ApplyPoll(n.db, inst, live, n.known, order, now).db;
            StaleRows(db, Cids(live)) == {} && PruneBaselines(db) == db
  {
    ApplyPollSound(n.db, inst, live, n.known, order, now);
    SweepFindsNothing(n.db, inst, live, n.known, order, now);
    PruneKeeps(ApplyPoll(n.db, inst, live, n.known, order, now).db);
  }
}
