/** What every write of the accounting daemon keeps, from an empty database on. */
module AccountingInvariants {

  import opened Prelude
  import opened Ordering
  import opened Accounting

  /* ---------- the invariant ---------- */

  predicate InInt64(v: int) {
    0 <= v <= INT64_MAX
  }

  /** One row: an open row has its baseline with equal accounted bytes; no row of a tracked connection
      is above its baseline; export_seq is set exactly on closed rows and was allocated. */
  predicate RowSound(db: Db, k: Key)
    requires k in db.conns
  {
    var row := db.conns[k];
    && (row.closedAt.None? ==>
          && k.cid in db.base && db.base[k.cid].gen == k.gen
          && row.up == db.base[k.cid].accUp && row.dn == db.base[k.cid].accDn)
    && (k.cid in db.base ==> k.gen <= db.base[k.cid].gen)
    && InInt64(row.up) && InInt64(row.dn)
    && row.eventId < db.nextEvent
    && (row.closedAt.Some? <==> row.exportSeq.Some?)
    && (row.exportSeq.Some? ==> 1 <= row.exportSeq.value <= db.lastSeq)
  }

  /** One baseline: it points at an open row; nothing negative, nothing above the raw counter. */
  predicate BaselineSound(db: Db, c: Cid)
    requires c in db.base
  {
    var b := db.base[c];
    && Open(db, Key(c, b.gen))
    && 0 <= b.accUp <= b.rawUp <= INT64_MAX
    && 0 <= b.accDn <= b.rawDn <= INT64_MAX
  }

  /** Two rows share neither an event id nor a sequence number. */
  predicate RowsApart(db: Db, k: Key, j: Key)
    requires k in db.conns && j in db.conns
  {
    k != j ==>
      && db.conns[k].eventId != db.conns[j].eventId
      && (db.conns[k].exportSeq.Some? ==> db.conns[k].exportSeq != db.conns[j].exportSeq)
  }

  ghost predicate Sound(db: Db) {
    && (forall k :: k in db.conns ==> RowSound(db, k))
    && (forall c :: c in db.base ==> BaselineSound(db, c))
    && (forall k, j {:trigger RowsApart(db, k, j)} :: k in db.conns && j in db.conns ==> RowsApart(db, k, j))
    && db.pruned <= db.lastSeq
  }

  /** What a poll may do to a row readers already saw: its event id does not move, and once closed
      the row stays as it is. */
  predicate RowKept(db: Db, db': Db, k: Key)
    requires k in db.conns
  {
    && k in db'.conns && db'.conns[k].eventId == db.conns[k].eventId
    && (db.conns[k].closedAt.Some? ==> db'.conns[k] == db.conns[k])
  }

  /** A row of the new state that is not an old closed row has a new event id or an old open row's,
      and a new sequence number if it has one. */
  predicate RowNew(db: Db, db': Db, k: Key)
    requires k in db'.conns
  {
    && (k !in db.conns ==> db'.conns[k].eventId >= db.nextEvent)
    && (db'.conns[k].exportSeq.Some? ==>
          (k in db.conns && db.conns[k] == db'.conns[k]) || db'.conns[k].exportSeq.value > db.lastSeq)
  }

  ghost predicate Advances(db: Db, db': Db) {
    && db.lastSeq <= db'.lastSeq && db.pruned == db'.pruned && db.nextEvent <= db'.nextEvent
    && (forall k :: k in db.conns ==> RowKept(db, db', k))
    && (forall k :: k in db'.conns ==> RowNew(db, db', k))
    && (forall s :: db.lastSeq < s <= db'.lastSeq ==> Carried(db', s))
  }

  ghost predicate Carried(db: Db, s: nat) {
    exists k :: k in db.conns && db.conns[k].exportSeq == Some(s)
  }

  lemma AdvancesTransitive(a: Db, b: Db, c: Db)
    requires Advances(a, b) && Advances(b, c) && Sound(b)
    ensures Advances(a, c)
  {
    forall k | k in a.conns ensures RowKept(a, c, k) {
      assert RowKept(a, b, k) && RowKept(b, c, k) && RowSound(b, k);
    }
    forall k | k in c.conns ensures RowNew(a, c, k) {
      assert RowNew(b, c, k);
      if k in b.conns { assert RowNew(a, b, k) && RowKept(b, c, k); }
    }
    forall s | a.lastSeq < s <= c.lastSeq ensures Carried(c, s) {
      if s <= b.lastSeq {
        assert Carried(b, s);
        var k :| k in b.conns && b.conns[k].exportSeq == Some(s);
        assert RowKept(b, c, k) && RowSound(b, k);
      }
    }
  }

  /* ---------- the three atomic writes a poll is made of ---------- */

  /** Start a generation: a fresh row and a baseline with nothing accounted. */
  function Start(db: Db, inst: Option<string>, ev: Event, gen: nat, up: int, dn: int): Db {
    var row := Row(db.nextEvent, ev.nodeId, inst, ev.tags, ev.startedAt, ev.ts, None, 0, 0, None);
    db.(conns := db.conns[Key(ev.cid, gen) := row], nextEvent := db.nextEvent + 1,
        base := db.base[ev.cid := Baseline(gen, up, dn, 0, 0, ev.ts)])
  }

  /** Account what the counters of the open generation gained. */
  function Extend(db: Db, ev: Event, up: int, dn: int): Db
    requires ev.cid in db.base && Open(db, Key(ev.cid, db.base[ev.cid].gen))
  {
    var b := db.base[ev.cid];
    var k := Key(ev.cid, b.gen);
    var b' := Baseline(b.gen, up, dn, b.accUp + (up - b.rawUp), b.accDn + (dn - b.rawDn), ev.ts);
    var row := db.conns[k].(tags := Refresh(db.conns[k].tags, ev.tags), up := b'.accUp, dn := b'.accDn,
                            closedAt := None, lastSeen := ev.ts);
    db.(conns := db.conns[k := row], base := db.base[ev.cid := b'])
  }

  /** Close the open generation under the next sequence number. */
  function Finish(db: Db, cid: Cid, now: int): Db
    requires cid in db.base && Open(db, Key(cid, db.base[cid].gen))
  {
    var k := Key(cid, db.base[cid].gen);
    var row := db.conns[k].(up := db.base[cid].accUp, dn := db.base[cid].accDn, closedAt := Some(now),
                            lastSeen := now, exportSeq := Some(db.lastSeq + 1));
    db.(conns := db.conns[k := row], base := db.base - {cid}, lastSeq := db.lastSeq + 1)
  }

  lemma StartSound(db: Db, inst: Option<string>, ev: Event, gen: nat, up: int, dn: int)
    requires Sound(db) && ev.cid !in db.base && InInt64(up) && InInt64(dn)
    requires forall k :: k in db.conns && k.cid == ev.cid ==> k.gen < gen
    ensures Sound(Start(db, inst, ev, gen, up, dn)) && Advances(db, Start(db, inst, ev, gen, up, dn))
  {
    var db' := Start(db, inst, ev, gen, up, dn);
    OneRowChanged(db, db', Key(ev.cid, gen));
  }

  lemma ExtendSound(db: Db, ev: Event, up: int, dn: int)
    requires Sound(db) && ev.cid in db.base
    requires db.base[ev.cid].rawUp <= up <= INT64_MAX && db.base[ev.cid].rawDn <= dn <= INT64_MAX
    ensures BaselineSound(db, ev.cid)
    ensures Sound(Extend(db, ev, up, dn)) && Advances(db, Extend(db, ev, up, dn))
  {
    var db' := Extend(db, ev, up, dn);
    var k := Key(ev.cid, db.base[ev.cid].gen);
    assert BaselineSound(db, ev.cid) && RowSound(db, k);
    OneRowChanged(db, db', k);
  }

  lemma FinishSound(db: Db, cid: Cid, now: int)
    requires Sound(db) && cid in db.base
    ensures BaselineSound(db, cid)
    ensures Sound(Finish(db, cid, now)) && Advances(db, Finish(db, cid, now))
  {
    assert BaselineSound(db, cid);
    var db' := Finish(db, cid, now);
    var k := Key(cid, db.base[cid].gen);
    assert RowSound(db, k);
    assert db'.conns[k].exportSeq == Some(db.lastSeq + 1);
    assert Carried(db', db.lastSeq + 1);
    OneRowChanged(db, db', k);
  }

  lemma FreshApart(db: Db, db': Db, k0: Key, j: Key)
    requires Sound(db) && k0 in db'.conns && j in db.conns && j in db'.conns && j != k0
    requires db'.conns[j] == db.conns[j]
    requires k0 in db.conns ==> db'.conns[k0].eventId == db.conns[k0].eventId
    requires k0 !in db.conns ==> db'.conns[k0].eventId == db.nextEvent
    requires db'.conns[k0].exportSeq.Some? ==> db'.conns[k0].exportSeq.value == db.lastSeq + 1
    ensures RowsApart(db', k0, j) && RowsApart(db', j, k0)
  {
    assert RowSound(db, j);
    if k0 in db.conns { assert RowsApart(db, k0, j); }
  }

  lemma ChangedApart(db: Db, db': Db, k0: Key)
    requires Sound(db) && k0 in db'.conns && db'.conns.Keys == db.conns.Keys + {k0}
    requires forall k :: k in db.conns && k != k0 ==> db'.conns[k] == db.conns[k]
    requires k0 in db.conns ==> db'.conns[k0].eventId == db.conns[k0].eventId
    requires k0 !in db.conns ==> db'.conns[k0].eventId == db.nextEvent
    requires db'.conns[k0].exportSeq.Some? ==> db'.conns[k0].exportSeq.value == db.lastSeq + 1
    ensures forall k, j {:trigger RowsApart(db', k, j)} :: k in db'.conns && j in db'.conns ==> RowsApart(db', k, j)
  {
    forall k, j | k in db'.conns && j in db'.conns ensures RowsApart(db', k, j) {
      if k != k0 && j != k0 {
        assert RowsApart(db, k, j);
      } else if k != k0 {
        FreshApart(db, db', k0, k);
      } else if j != k0 {
        FreshApart(db, db', k0, j);
      }
    }
  }

  /** One row and one baseline differ: the row was open or is new, and has the next sequence number if any. */
  ghost predicate OneRow(db: Db, db': Db, k0: Key) {
    && k0 in db'.conns && db'.conns.Keys == db.conns.Keys + {k0}
    && db'.base.Keys + {k0.cid} == db.base.Keys + {k0.cid}
    && (forall k :: k in db.conns && k != k0 ==> db'.conns[k] == db.conns[k])
    && (forall c :: c in db.base && c != k0.cid ==> db'.base[c] == db.base[c])
    && db.lastSeq <= db'.lastSeq && db.pruned == db'.pruned && db.nextEvent <= db'.nextEvent
    && (k0.cid in db'.base ==> db'.base[k0.cid].gen == k0.gen)
    && (k0 in db.conns ==> db.conns[k0].closedAt.None? && db'.conns[k0].eventId == db.conns[k0].eventId)
    && (k0 !in db.conns ==> db'.conns[k0].eventId == db.nextEvent && k0.cid !in db.base)
    && (k0 !in db.conns ==> forall k :: k in db.conns && k.cid == k0.cid ==> k.gen < k0.gen)
    && (if db'.conns[k0].exportSeq.Some? then db'.conns[k0].exportSeq.value == db'.lastSeq == db.lastSeq + 1
        else db'.lastSeq == db.lastSeq)
  }

  lemma OtherRow(db: Db, db': Db, k0: Key, k: Key)
    requires OneRow(db, db', k0) && k in db.conns && k != k0 && RowSound(db, k) && (k0 in db.conns ==> RowSound(db, k0))
    ensures k in db'.conns && RowSound(db', k)
  {
    assert k.cid in db'.base.Keys + {k0.cid} <==> k.cid in db.base.Keys + {k0.cid};
  }

  lemma OtherBaseline(db: Db, db': Db, k0: Key, c: Cid)
    requires OneRow(db, db', k0) && c in db.base && c != k0.cid && BaselineSound(db, c)
    ensures c in db'.base && BaselineSound(db', c)
  {
    assert c in db'.base.Keys + {k0.cid} && Key(c, db.base[c].gen) != k0;
  }

  lemma OtherRows(db: Db, db': Db, k0: Key)
    requires Sound(db) && OneRow(db, db', k0)
    ensures forall k :: k in db'.conns && k != k0 ==> RowSound(db', k)
  {
    hide RowsApart, RowSound, BaselineSound;
    forall k | k in db'.conns && k != k0 ensures RowSound(db', k) { OtherRow(db, db', k0, k); }
  }

  lemma OtherBaselines(db: Db, db': Db, k0: Key)
    requires Sound(db) && OneRow(db, db', k0)
    ensures forall c :: c in db'.base && c != k0.cid ==> BaselineSound(db', c)
  {
    hide RowsApart, RowSound, BaselineSound;
    forall c | c in db'.base && c != k0.cid ensures BaselineSound(db', c) {
      assert c in db.base.Keys + {k0.cid};
      OtherBaseline(db, db', k0, c);
    }
  }

  lemma OneRowAdvances(db: Db, db': Db, k0: Key)
    requires OneRow(db, db', k0)
    ensures Advances(db, db')
  {
    forall s | db.lastSeq < s <= db'.lastSeq ensures Carried(db', s) {
      assert db'.conns[k0].exportSeq == Some(s);
    }
  }

  /** A write that touches one row and one baseline keeps the invariant if that row and that
      baseline are right afterwards. */
  lemma OneRowChanged(db: Db, db': Db, k0: Key)
    requires Sound(db) && OneRow(db, db', k0)
    requires RowSound(db', k0) && (k0.cid in db'.base ==> BaselineSound(db', k0.cid))
    ensures Sound(db') && Advances(db, db')
  {
    OneRowAdvances(db, db', k0);
    ChangedApart(db, db', k0);
    OtherRows(db, db', k0);
    OtherBaselines(db, db', k0);
    assert db'.pruned <= db'.lastSeq;
    hide Advances, RowsApart, RowSound, BaselineSound, OneRow;
  }

  /* ---------- the code's writes are these ---------- */

  lemma CloseGenerationIsFinish(db: Db, inst: Option<string>, cid: Cid, now: int)
    requires Sound(db) && cid in db.base
    ensures DurablePrev(db, cid).Some?
    ensures CloseGeneration(db, inst, cid, DurablePrev(db, cid).value, now) == Finish(db, cid, now)
  {}

  lemma WriteFreshIsStart(db: Db, inst: Option<string>, ev: Event, gen: nat, up: int, dn: int)
    requires Key(ev.cid, gen) !in db.conns
    ensures var w := WriteOpenState(db, inst, ev, Baseline(gen, up, dn, 0, 0, ev.ts));
            w.db == Start(db, inst, ev, gen, up, dn) && w.entry.base == w.db.base[ev.cid]
  {}

  /** A valid reading of a live connection, in terms of the three writes. */
  function Read(db: Db, inst: Option<string>, ev: Event, up: int, dn: int): Db
    requires ev.cid in db.base ==> Open(db, Key(ev.cid, db.base[ev.cid].gen))
  {
    if ev.cid !in db.base then
      var max := MaxGeneration(db, ev.cid);
      Start(db, inst, ev, if max.None? then 0 else max.value + 1, up, dn)
    else if up < db.base[ev.cid].rawUp || dn < db.base[ev.cid].rawDn then
      Start(Finish(db, ev.cid, ev.ts), inst, ev, db.base[ev.cid].gen + 1, up, dn)
    else
      Extend(db, ev, up, dn)
  }

  predicate ValidReading(ev: Event) {
    EventCounter(ev.up).Some? && EventCounter(ev.dn).Some?
  }

  lemma AccountUnknown(db: Db, inst: Option<string>, ev: Event, up: int, dn: int)
    requires Sound(db) && ev.cid !in db.base
    ensures var w := Account(db, inst, ev, up, dn);
            w.db == Read(db, inst, ev, up, dn) && w.entry.base == w.db.base[ev.cid]
  {}

  lemma AccountDrop(db: Db, inst: Option<string>, ev: Event, up: int, dn: int)
    requires Sound(db) && ev.cid in db.base
    requires up < db.base[ev.cid].rawUp || dn < db.base[ev.cid].rawDn
    ensures BaselineSound(db, ev.cid)
    ensures var w := Account(db, inst, ev, up, dn);
            w.db == Read(db, inst, ev, up, dn) && w.entry.base == w.db.base[ev.cid]
  {
    assert BaselineSound(db, ev.cid);
    var next := Key(ev.cid, db.base[ev.cid].gen + 1);
    assert next in db.conns ==> RowSound(db, next);
    CloseGenerationIsFinish(db, inst, ev.cid, ev.ts);
    WriteFreshIsStart(Finish(db, ev.cid, ev.ts), inst, ev, next.gen, up, dn);
  }

  lemma AccountGrowth(db: Db, inst: Option<string>, ev: Event, up: int, dn: int)
    requires Sound(db) && ev.cid in db.base
    requires !(up < db.base[ev.cid].rawUp || dn < db.base[ev.cid].rawDn)
    ensures BaselineSound(db, ev.cid)
    ensures var w := Account(db, inst, ev, up, dn);
            w.db == Read(db, inst, ev, up, dn) && w.entry.base == w.db.base[ev.cid]
  {
    assert BaselineSound(db, ev.cid);
    assert RowSound(db, Key(ev.cid, db.base[ev.cid].gen));
  }

  lemma PollLiveIsRead(db: Db, inst: Option<string>, ev: Event, known: Cache, newKnown: Cache)
    requires Sound(db) && ValidReading(ev)
    ensures ev.cid in db.base ==> BaselineSound(db, ev.cid)
    ensures var p := PollLive(db, inst, ev, known, newKnown);
            && p.db == Read(db, inst, ev, EventCounter(ev.up).value, EventCounter(ev.dn).value)
            && ev.cid in p.db.base
            && p.known == newKnown[ev.cid := p.known[ev.cid]] && p.known[ev.cid].base == p.db.base[ev.cid]
  {
    var up, dn := EventCounter(ev.up).value, EventCounter(ev.dn).value;
    if ev.cid !in db.base {
      AccountUnknown(db, inst, ev, up, dn);
    } else if up < db.base[ev.cid].rawUp || dn < db.base[ev.cid].rawDn {
      AccountDrop(db, inst, ev, up, dn);
    } else {
      AccountGrowth(db, inst, ev, up, dn);
    }
  }

  lemma ReadFrame(db: Db, inst: Option<string>, ev: Event, up: int, dn: int)
    requires ev.cid in db.base ==> Open(db, Key(ev.cid, db.base[ev.cid].gen))
    ensures var db' := Read(db, inst, ev, up, dn);
            && db'.base == db.base[ev.cid := db'.base[ev.cid]]
            && db'.base[ev.cid].rawUp == up && db'.base[ev.cid].rawDn == dn
  {}

  lemma NoneAboveBaseline(db: Db, cid: Cid)
    requires Sound(db) && cid in db.base
    ensures forall k :: k in db.conns && k.cid == cid ==> k.gen < db.base[cid].gen + 1
  {}

  lemma ReadSound(db: Db, inst: Option<string>, ev: Event, up: int, dn: int)
    requires Sound(db) && InInt64(up) && InInt64(dn)
    ensures ev.cid in db.base ==> BaselineSound(db, ev.cid)
    ensures Sound(Read(db, inst, ev, up, dn)) && Advances(db, Read(db, inst, ev, up, dn))
  {
    hide Sound, Advances;
    if ev.cid !in db.base {
      var max := MaxGeneration(db, ev.cid);
      StartSound(db, inst, ev, if max.None? then 0 else max.value + 1, up, dn);
    } else if up < db.base[ev.cid].rawUp || dn < db.base[ev.cid].rawDn {
      var gen := db.base[ev.cid].gen;
      FinishSound(db, ev.cid, ev.ts);
      var mid := Finish(db, ev.cid, ev.ts);
      NoneAboveBaseline(db, ev.cid);
      StartSound(mid, inst, ev, gen + 1, up, dn);
      AdvancesTransitive(db, mid, Start(mid, inst, ev, gen + 1, up, dn));
    } else {
      ExtendSound(db, ev, up, dn);
    }
  }

  /* ---------- the cache ---------- */

  /** The cache is what a restart would reload, on keys, generations and counters. */
  ghost predicate CacheAgrees(db: Db, known: Cache) {
    && known.Keys == db.base.Keys
    && (forall c :: c in known ==> known[c].base == db.base[c])
  }

  lemma ReloadAgrees(db: Db)
    requires Sound(db)
    ensures CacheAgrees(db, ReloadKnownOpen(db))
    ensures forall c :: c in ReloadKnownOpen(db) ==>
              var e, row := ReloadKnownOpen(db)[c], db.conns[Key(c, db.base[c].gen)];
              e.nodeId == row.nodeId && e.tags == row.tags && e.startedAt == row.startedAt
  {}

  /** Ids the cache knows about are tracked in the database. */
  lemma PrevStateIsDurable(db: Db, known: Cache, cid: Cid)
    requires Sound(db) && (cid in known ==> cid in db.base)
    ensures PrevState(db, known, cid) == PrevState(db, map[], cid) == DurablePrev(db, cid)
    ensures DurablePrev(db, cid).Some? <==> cid in db.base
  {}

  /* ---------- one whole poll ---------- */

  /** One live id: the database effect ignores the cache, and the new cache entry is the baseline. */
  lemma PollLiveStep(db: Db, inst: Option<string>, ev: Event, known: Cache, newKnown: Cache, other: Cache)
    requires Sound(db) && known.Keys <= db.base.Keys
    ensures var p := PollLive(db, inst, ev, known, newKnown);
            && Sound(p.db) && Advances(db, p.db)
            && p.db == PollLive(db, inst, ev, map[], other).db
            && db.base.Keys <= p.db.base.Keys <= db.base.Keys + {ev.cid}
            && (forall c :: c in db.base && c != ev.cid ==> p.db.base[c] == db.base[c])
            && (if ev.cid in p.db.base then
                  && ev.cid in p.known && p.known == newKnown[ev.cid := p.known[ev.cid]]
                  && p.known[ev.cid].base == p.db.base[ev.cid]
                else p.known == newKnown)
  {
    if ValidReading(ev) {
      PollLiveIsRead(db, inst, ev, known, newKnown);
      PollLiveIsRead(db, inst, ev, map[], other);
      ReadSound(db, inst, ev, EventCounter(ev.up).value, EventCounter(ev.dn).value);
      ReadFrame(db, inst, ev, EventCounter(ev.up).value, EventCounter(ev.dn).value);
      hide Sound, Advances, Read, PollLive;
    } else {
      PrevStateIsDurable(db, known, ev.cid);
      SelfAdvance(db);
      hide Sound, Advances;
    }
  }

  lemma SelfAdvance(db: Db)
    requires Sound(db)
    ensures Advances(db, db)
  {
    forall k | k in db.conns ensures RowKept(db, db, k) && RowNew(db, db, k) {}
  }

  /** The state of the live loop after the ids in `evs`. */
  ghost predicate PolledSo(db: Db, evs: seq<Event>, p: Polled) {
    && Sound(p.db) && Advances(db, p.db)
    && db.base.Keys <= p.db.base.Keys <= db.base.Keys + Cids(evs)
    && p.known.Keys == p.db.base.Keys * Cids(evs)
    && (forall c :: c in p.known ==> p.known[c].base == p.db.base[c])
    && (forall c :: c in db.base && c !in Cids(evs) ==> p.db.base[c] == db.base[c])
  }

  lemma PolledSoStep(db: Db, evs: seq<Event>, ev: Event, inst: Option<string>, known: Cache, p: Polled)
    requires PolledSo(db, evs, p) && ev.cid !in Cids(evs) && known.Keys <= db.base.Keys
    ensures PolledSo(db, evs + [ev], PollLive(p.db, inst, ev, known, p.known))
  {
    hide Sound, Advances, PollLive, Cids;
    var p' := PollLive(p.db, inst, ev, known, p.known);
    PollLiveStep(p.db, inst, ev, known, p.known, map[]);
    AdvancesTransitive(db, p.db, p'.db);
    CidsAppend(evs, ev);
    KeysStep(p.known.Keys, p'.known.Keys, p.db.base.Keys, p'.db.base.Keys, Cids(evs), ev.cid);
    BasesStep(p, p', Cids(evs), ev.cid);
  }

  lemma BasesStep(p: Polled, p': Polled, seen: set<Cid>, cid: Cid)
    requires p.known.Keys <= p.db.base.Keys && p.known.Keys <= seen && cid !in seen
    requires p.db.base.Keys <= p'.db.base.Keys && forall c :: c in p.db.base && c != cid ==> p'.db.base[c] == p.db.base[c]
    requires forall c :: c in p.known ==> p.known[c].base == p.db.base[c]
    requires if cid in p'.db.base then cid in p'.known && p'.known == p.known[cid := p'.known[cid]] && p'.known[cid].base == p'.db.base[cid]
             else p'.known == p.known
    ensures p'.known.Keys <= p'.db.base.Keys && forall c :: c in p'.known ==> p'.known[c].base == p'.db.base[c]
  {}

  lemma CidsAppend(evs: seq<Event>, ev: Event)
    ensures Cids(evs + [ev]) == Cids(evs) + {ev.cid}
  {}

  /** The new cache gains the processed id exactly when it has a baseline. */
  lemma KeysStep(known: set<Cid>, known': set<Cid>, base: set<Cid>, base': set<Cid>, seen: set<Cid>, cid: Cid)
    requires known == base * seen && base <= base' <= base + {cid} && cid !in seen
    requires known' == if cid in base' then known + {cid} else known
    ensures known' == base' * (seen + {cid})
  {}

  /** After the live loop: sound, the same durable result for any agreeing cache, and the new cache
      holds exactly the processed ids that have a baseline. */
  lemma {:induction false} PollAllSound(db: Db, inst: Option<string>, evs: seq<Event>, known: Cache)
    requires Sound(db) && Distinct(evs) && known.Keys <= db.base.Keys
    ensures PolledSo(db, evs, PollAll(db, inst, evs, known, map[]))
    ensures PollAll(db, inst, evs, known, map[]).db == PollAll(db, inst, evs, map[], map[]).db
    decreases |evs|
  {
    hide Sound, Advances, PollLive, PolledSo, Distinct;
    if evs == [] {
      NothingPolled(db);
    } else {
      var n := |evs| - 1;
      LastIsDistinct(evs);
      PollAllSound(db, inst, evs[..n], known);
      var p := PollAll(db, inst, evs[..n], known, map[]);
      assert evs == evs[..n] + [evs[n]];
      PolledSoStep(db, evs[..n], evs[n], inst, known, p);
      PolledSoIsSound(db, evs[..n], p);
      PollLiveStep(p.db, inst, evs[n], known, p.known, PollAll(db, inst, evs[..n], map[], map[]).known);
    }
  }

  lemma NothingPolled(db: Db)
    requires Sound(db)
    ensures PolledSo(db, [], Polled(db, map[]))
  {
    SelfAdvance(db);
  }

  lemma LastIsDistinct(evs: seq<Event>)
    requires Distinct(evs) && evs != []
    ensures Distinct(evs[..|evs| - 1]) && evs[|evs| - 1].cid !in Cids(evs[..|evs| - 1])
  {}

  lemma PolledSoIsSound(db: Db, evs: seq<Event>, p: Polled)
    requires PolledSo(db, evs, p)
    ensures Sound(p.db) && db.base.Keys <= p.db.base.Keys
  {}

  lemma VanishSound(db: Db, inst: Option<string>, cid: Cid, known: Cache, now: int)
    requires Sound(db) && cid in db.base
    ensures BaselineSound(db, cid) && Vanish(db, inst, cid, known, now) == Finish(db, cid, now)
    ensures Sound(Finish(db, cid, now)) && Advances(db, Finish(db, cid, now))
  {
    CloseGenerationIsFinish(db, inst, cid, now);
    FinishSound(db, cid, now);
  }

  lemma {:induction false} VanishAllSound(db: Db, inst: Option<string>, order: seq<Cid>, known: Cache, now: int)
    requires Sound(db) && (forall c :: c in order ==> c in db.base)
    requires forall i, j :: 0 <= i < j < |order| ==> order[i] != order[j]
    ensures var db' := VanishAll(db, inst, order, known, now);
            && Sound(db') && Advances(db, db')
            && db' == VanishAll(db, inst, order, map[], now)
            && db'.base == db.base - (set c | c in order)
    decreases |order|
  {
    hide Sound, Advances, Vanish;
    if order == [] {
      SelfAdvance(db);
    } else {
      var n := |order| - 1;
      var mid := VanishAll(db, inst, order[..n], known, now);
      VanishAllSound(db, inst, order[..n], known, now);
      assert order == order[..n] + [order[n]];
      assert (set c | c in order) == (set c | c in order[..n]) + {order[n]};
      assert order[n] in mid.base;
      VanishSound(mid, inst, order[n], known, now);
      VanishSound(mid, inst, order[n], map[], now);
      AdvancesTransitive(db, mid, Finish(mid, order[n], now));
    }
  }

  lemma PruneKeeps(db: Db)
    requires Sound(db)
    ensures PruneBaselines(db) == db
  {
    assert PruneBaselines(db).base == db.base;
  }

  lemma VanishedIds(db: Db, evs: seq<Event>, known: Cache, p: Polled)
    requires PolledSo(db, evs, p) && known.Keys <= db.base.Keys
    ensures Vanished(p.db, evs, known) == db.base.Keys - Cids(evs)
    ensures forall c :: c in db.base.Keys - Cids(evs) ==> c in p.db.base
    ensures p.db.base.Keys - (db.base.Keys - Cids(evs)) == p.known.Keys
  {}

  /** One poll keeps the invariant, leaves what readers saw alone, and produces the cache a restart
      would load. Its durable effect does not depend on the cache it started from. */
  lemma ApplyPollSound(db: Db, inst: Option<string>, live: seq<Event>, known: Cache, order: seq<Cid>, now: int)
    requires Sound(db) && known.Keys <= db.base.Keys
    requires Visits(order, PollVanished(db, inst, live, known))
    ensures PollVanished(db, inst, live, known) == PollVanished(db, inst, live, map[]) == db.base.Keys - Cids(live)
    ensures var p := ApplyPoll(db, inst, live, known, order, now);
            && Sound(p.db) && Advances(db, p.db) && CacheAgrees(p.db, p.known)
            && p.db == ApplyPoll(db, inst, live, map[], order, now).db
            && p.db.base.Keys <= Cids(live)
  {
    hide Sound, Advances, VanishAll, BaselineSound;
    var evs := LiveMap(live);
    var p := PollAll(db, inst, evs, known, map[]);
    PollAllSound(db, inst, evs, known);
    PollAllSound(db, inst, evs, map[]);
    VanishedIds(db, evs, known, p);
    VanishedIds(db, evs, map[], PollAll(db, inst, evs, map[], map[]));
    VanishAllSound(p.db, inst, order, known, now);
    VanishAllSound(p.db, inst, order, map[], now);
    var db' := VanishAll(p.db, inst, order, known, now);
    PruneKeeps(db');
    AdvancesTransitive(db, p.db, db');
    assert (set c | c in order) == db.base.Keys - Cids(evs);
    assert db'.base.Keys == p.known.Keys;
    assert p.known.Keys <= Cids(live);
  }

  lemma VanishedNeedsNoCache(db: Db, inst: Option<string>, live: seq<Event>, known: Cache)
    requires Sound(db) && known.Keys <= db.base.Keys
    ensures PollVanished(db, inst, live, known) == db.base.Keys - Cids(live)
  {
    PollAllSound(db, inst, LiveMap(live), known);
    VanishedIds(db, LiveMap(live), known, PollAll(db, inst, LiveMap(live), known, map[]));
  }

  /** The stale sweep that follows a poll closes nothing. */
  lemma SweepFindsNothing(db: Db, inst: Option<string>, live: seq<Event>, known: Cache, order: seq<Cid>, now: int)
    requires Sound(db) && known.Keys <= db.base.Keys
    requires Visits(order, PollVanished(db, inst, live, known))
    ensures StaleRows(ApplyPoll(db, inst, live, known, order, now).db, Cids(live)) == {}
  {
    var db' := ApplyPoll(db, inst, live, known, order, now).db;
    ApplyPollSound(db, inst, live, known, order, now);
    forall k | k in db'.conns && db'.conns[k].closedAt.None? ensures k.cid in Cids(live) {
      assert RowSound(db', k);
    }
  }

  /** All three baseline sanity queries count zero, and a connection has at most one open generation,
      its highest. */
  lemma SanityQueriesCountZero(db: Db)
    requires Sound(db)
    ensures MissingOpen(db) == {} && StaleBaselines(db) == {} && DriftedRows(db) == {}
    ensures forall k, j :: Open(db, k) && j in db.conns && j.cid == k.cid ==> j.gen <= k.gen && (Open(db, j) ==> j == k)
  {}

  /** What the three queries find in any database. */
  lemma SanityQueriesFind(db: Db, k: Key, c: Cid)
    ensures k in MissingOpen(db) <==> Open(db, k) && (k.cid !in db.base || db.base[k.cid].gen != k.gen)
    ensures c in StaleBaselines(db) <==>
              c in db.base && (Key(c, db.base[c].gen) !in db.conns || db.conns[Key(c, db.base[c].gen)].closedAt.Some?)
    ensures k in DriftedRows(db) <==>
              && Open(db, k) && k.cid in db.base && db.base[k.cid].gen == k.gen
              && !(db.conns[k].up == db.base[k.cid].accUp && db.conns[k].dn == db.base[k.cid].accDn)
  {}

  /* ---------- retention ---------- */

  /** A batch takes the oldest event ids among the expired closed rows, at most `limit` of them, and
      leaves nothing out below the limit. */
  lemma BatchIsOldest(db: Db, cutoff: int, limit: nat)
    ensures var ids := ExpiredBatch(db, cutoff, limit);
            var all := EventIdsOf(db, ExpiredRows(db, cutoff));
            && |ids| <= |all| && ids == ExpiredIds(db, cutoff)[..|ids|]
            && (forall i, j :: 0 <= i < j < |ids| ==> ids[i] < ids[j])
            && |ids| == (if |all| <= limit then |all| else limit)
            && (forall id, other :: id in ids && other in all && other !in ids ==> id < other)
  {}

  /** What a retention batch keeps and what it removes. */
  lemma DeleteBatchSound(db: Db, cutoff: int, limit: nat)
    requires Sound(db)
    ensures var db' := DeleteBatch(db, cutoff, limit);
            && Sound(db')
            && db'.base == db.base && db'.lastSeq == db.lastSeq && db'.nextEvent == db.nextEvent
            && db.pruned <= db'.pruned
            && (forall k :: k in db'.conns ==> k in db.conns && db'.conns[k] == db.conns[k])
            && (forall k :: k in db.conns && k !in db'.conns ==>
                  && k in ExpiredRows(db, cutoff)
                  && db.conns[k].exportSeq.Some? && db.conns[k].exportSeq.value <= db'.pruned)
  {
    var db' := DeleteBatch(db, cutoff, limit);
    var ids := ExpiredBatch(db, cutoff, limit);
    var keys := RowsWithIds(db, ids);
    forall k | k in keys
      ensures k in ExpiredRows(db, cutoff)
      ensures db.conns[k].exportSeq.Some? && db.conns[k].exportSeq.value in SeqsOf(db, keys)
    {
      BatchRow(db, cutoff, limit, k);
    }
    forall s | s in SeqsOf(db, keys) ensures s <= db.lastSeq {
      var k :| k in keys && db.conns[k].exportSeq == Some(s);
      BatchRow(db, cutoff, limit, k);
    }
    assert db.pruned <= db.lastSeq;
    hide Sound, ExpiredBatch, EventIdsOf, RowsWithIds;
    FewerRowsSound(db, db');
  }

  /** A row a batch deletes is an expired one, and has a number. */
  lemma BatchRow(db: Db, cutoff: int, limit: nat, k: Key)
    requires Sound(db) && k in db.conns && db.conns[k].eventId in ExpiredBatch(db, cutoff, limit)
    ensures k in ExpiredRows(db, cutoff) && db.conns[k].exportSeq.Some? && db.conns[k].exportSeq.value <= db.lastSeq
  {
    hide ExpiredBatch;
    var id := db.conns[k].eventId;
    assert id in EventIdsOf(db, ExpiredRows(db, cutoff));
    var j :| j in ExpiredRows(db, cutoff) && db.conns[j].eventId == id;
    assert RowsApart(db, k, j) && RowSound(db, k);
  }

  lemma FewerRowsSound(db: Db, db': Db)
    requires Sound(db) && db'.base == db.base && db'.lastSeq == db.lastSeq && db'.nextEvent == db.nextEvent
    requires db'.pruned <= db'.lastSeq
    requires forall k :: k in db'.conns ==> k in db.conns && db'.conns[k] == db.conns[k]
    requires forall k :: k in db.conns && k !in db'.conns ==> db.conns[k].closedAt.Some?
    ensures Sound(db')
  {
    forall k | k in db'.conns ensures RowSound(db', k) {
      assert RowSound(db, k);
    }
    forall c | c in db'.base ensures BaselineSound(db', c) {
      assert BaselineSound(db, c);
    }
    forall k, j | k in db'.conns && j in db'.conns ensures RowsApart(db', k, j) {
      assert RowsApart(db, k, j);
    }
  }

  lemma BatchRemovesItsIds(db: Db, cutoff: int, limit: nat)
    requires Sound(db)
    ensures var db' := DeleteBatch(db, cutoff, limit);
            EventIdsOf(db', ExpiredRows(db', cutoff))
              == EventIdsOf(db, ExpiredRows(db, cutoff)) - SetOf(ExpiredBatch(db, cutoff, limit))
  {
    hide StrictTotal, OrderBy, Least;
    var db' := DeleteBatch(db, cutoff, limit);
    DeleteBatchSound(db, cutoff, limit);
    var ids := ExpiredBatch(db, cutoff, limit);
    forall id | id in EventIdsOf(db, ExpiredRows(db, cutoff)) && id !in ids
      ensures id in EventIdsOf(db', ExpiredRows(db', cutoff))
    {
      var k :| k in ExpiredRows(db, cutoff) && db.conns[k].eventId == id;
      assert k in db'.conns && db'.conns[k] == db.conns[k];
      assert k in ExpiredRows(db', cutoff);
    }
    forall id | id in EventIdsOf(db', ExpiredRows(db', cutoff))
      ensures id in EventIdsOf(db, ExpiredRows(db, cutoff)) && id !in ids
    {
      var k :| k in ExpiredRows(db', cutoff) && db'.conns[k].eventId == id;
      assert k in ExpiredRows(db, cutoff);
    }
  }

  function DeleteBatches(db: Db, cutoff: int, limit: nat, n: nat): Db
    decreases n
  {
    if n == 0 then db else DeleteBatches(DeleteBatch(db, cutoff, limit), cutoff, limit, n - 1)
  }

  lemma BatchShrinks(db: Db, cutoff: int, limit: nat)
    requires Sound(db)
    ensures var all := |EventIdsOf(db, ExpiredRows(db, cutoff))|;
            var left := |EventIdsOf(DeleteBatch(db, cutoff, limit), ExpiredRows(DeleteBatch(db, cutoff, limit), cutoff))|;
            left == (if all <= limit then 0 else all - limit)
  {
    hide Sound, ExpiredRows, EventIdsOf, DeleteBatch, ExpiredIds, ExpiredBatch, StrictTotal, Ascending, Lists, SetOf;
    var db' := DeleteBatch(db, cutoff, limit);
    var rows, ids := ExpiredIds(db, cutoff), ExpiredBatch(db, cutoff, limit);
    BatchIsOldest(db, cutoff, limit);
    BatchRemovesItsIds(db, cutoff, limit);
    SuffixLists(IdLess(), rows, EventIdsOf(db, ExpiredRows(db, cutoff)), |ids|);
    AscendingUnique(IdLess(), rows[|ids|..], ExpiredIds(db', cutoff), EventIdsOf(db', ExpiredRows(db', cutoff)));
  }

  lemma NothingExpired(db: Db, cutoff: int)
    requires |EventIdsOf(db, ExpiredRows(db, cutoff))| == 0
    ensures ExpiredRows(db, cutoff) == {}
  {
    assert forall k :: k in ExpiredRows(db, cutoff) ==> db.conns[k].eventId in EventIdsOf(db, ExpiredRows(db, cutoff));
  }

  lemma OneBatchLess(n: nat, limit: nat)
    requires n > 0
    ensures (n - 1) * limit == n * limit - limit
  {}

  /** Enough batches drain every expired closed row. */
  lemma {:induction false} BatchesDrain(db: Db, cutoff: int, limit: nat, n: nat)
    requires Sound(db) && n * limit >= |EventIdsOf(db, ExpiredRows(db, cutoff))|
    ensures Sound(DeleteBatches(db, cutoff, limit, n))
    ensures ExpiredRows(DeleteBatches(db, cutoff, limit, n), cutoff) == {}
    decreases n
  {
    hide Sound, ExpiredRows, EventIdsOf, DeleteBatch;
    if n == 0 {
      NothingExpired(db, cutoff);
    } else {
      DeleteBatchSound(db, cutoff, limit);
      BatchShrinks(db, cutoff, limit);
      OneBatchLess(n, limit);
      BatchesDrain(DeleteBatch(db, cutoff, limit), cutoff, limit, n - 1);
    }
  }

  /** Distinct event ids: as many rows as ids. */
  lemma {:induction false} AsManyRows(db: Db, keys: set<Key>)
    requires Sound(db) && keys <= db.conns.Keys
    ensures |EventIdsOf(db, keys)| == |keys|
    decreases keys
  {
    if keys == {} {
      assert EventIdsOf(db, keys) == {};
    } else {
      var k :| k in keys;
      AsManyRows(db, keys - {k});
      forall j | j in keys - {k} ensures db.conns[j].eventId != db.conns[k].eventId { assert RowsApart(db, j, k); }
      assert EventIdsOf(db, keys) == EventIdsOf(db, keys - {k}) + {db.conns[k].eventId};
    }
  }

  /** A batch in columns: deleted are at most `limit` closed rows last seen before the cutoff, and the pruned maximum
      is the greatest of what it was and the deleted numbers. */
  lemma BatchInColumns(db: Db, cutoff: int, limit: nat)
    requires Sound(db)
    ensures var db' := DeleteBatch(db, cutoff, limit);
            && (forall k :: k in db'.conns ==> k in db.conns && db'.conns[k] == db.conns[k])
            && (forall k :: k in db.conns && k !in db'.conns ==>
                  db.conns[k].closedAt.Some? && db.conns[k].lastSeen < cutoff
                  && db.conns[k].exportSeq.Some? && db.conns[k].exportSeq.value <= db'.pruned)
            && |db.conns.Keys - db'.conns.Keys| <= limit
            && (db'.pruned == db.pruned
                || (db'.pruned > db.pruned && exists k :: k in db.conns && k !in db'.conns && db.conns[k].exportSeq == Some(db'.pruned)))
  {
    DeleteBatchSound(db, cutoff, limit);
    BatchMaximum(db, cutoff, limit);
    BatchSize(db, cutoff, limit);
    hide Sound, DeleteBatch;
  }

  /** What is deleted is the oldest: an expired row stays only when the batch is full of older ones. */
  lemma BatchTakesOldest(db: Db, cutoff: int, limit: nat, j: Key)
    requires Sound(db) && j in DeleteBatch(db, cutoff, limit).conns && j in db.conns
    requires db.conns[j].closedAt.Some? && db.conns[j].lastSeen < cutoff
    ensures var db' := DeleteBatch(db, cutoff, limit);
            && |db.conns.Keys - db'.conns.Keys| == limit
            && forall k :: k in db.conns && k !in db'.conns ==> db.conns[k].eventId < db.conns[j].eventId
  {
    BatchSize(db, cutoff, limit);
    BatchLeavesYounger(db, cutoff, limit, j);
    hide Sound, ExpiredBatch;
  }

  lemma BatchSize(db: Db, cutoff: int, limit: nat)
    requires Sound(db)
    ensures var db' := DeleteBatch(db, cutoff, limit);
            |db.conns.Keys - db'.conns.Keys| == |ExpiredBatch(db, cutoff, limit)| <= limit
  {
    BatchCount(db, cutoff, limit);
    hide Sound, ExpiredBatch;
    assert db.conns.Keys - DeleteBatch(db, cutoff, limit).conns.Keys == RowsWithIds(db, ExpiredBatch(db, cutoff, limit));
  }

  lemma BatchLeavesYounger(db: Db, cutoff: int, limit: nat, j: Key)
    requires Sound(db) && j in DeleteBatch(db, cutoff, limit).conns && j in db.conns
    requires db.conns[j].closedAt.Some? && db.conns[j].lastSeen < cutoff
    ensures |ExpiredBatch(db, cutoff, limit)| == limit
    ensures forall k :: k in RowsWithIds(db, ExpiredBatch(db, cutoff, limit)) ==> db.conns[k].eventId < db.conns[j].eventId
  {
    hide ExpiredIds, PrunedMax, StrictTotal, Sound;
    var ids, all := ExpiredBatch(db, cutoff, limit), EventIdsOf(db, ExpiredRows(db, cutoff));
    assert j in ExpiredRows(db, cutoff) && db.conns[j].eventId in all;
    assert db.conns[j].eventId !in ids;
    BatchIsOldest(db, cutoff, limit);
    hide ExpiredBatch, DeleteBatch;
    LeftOver(ids, all, db.conns[j].eventId);
  }

  /** A list of distinct members of a set that misses one is shorter than the set. */
  lemma LeftOver(ids: seq<nat>, all: set<nat>, x: nat)
    requires (forall id :: id in ids ==> id in all) && x in all && x !in ids && (forall i, j :: 0 <= i < j < |ids| ==> ids[i] < ids[j])
    ensures |ids| < |all|
  {
    DistinctCount(ids);
    assert SetOf(ids) + {x} <= all;
    SmallerSet(SetOf(ids) + {x}, all);
  }

  lemma {:induction false} SmallerSet(a: set<nat>, b: set<nat>)
    requires a <= b
    ensures |a| <= |b|
  {
    assert b == a + (b - a);
  }

  lemma {:induction false} DistinctCount(ids: seq<nat>)
    requires forall i, j :: 0 <= i < j < |ids| ==> ids[i] < ids[j]
    ensures |SetOf(ids)| == |ids|
    decreases |ids|
  {
    if ids == [] {
      assert SetOf(ids) == {};
    } else {
      var n := |ids| - 1;
      DistinctCount(ids[..n]);
      assert ids == ids[..n] + [ids[n]];
      assert SetOf(ids) == SetOf(ids[..n]) + {ids[n]};
    }
  }

  lemma BatchCount(db: Db, cutoff: int, limit: nat)
    requires Sound(db)
    ensures |RowsWithIds(db, ExpiredBatch(db, cutoff, limit))| == |ExpiredBatch(db, cutoff, limit)|
  {
    hide ExpiredIds, StrictTotal, Sound;
    var ids := ExpiredBatch(db, cutoff, limit);
    BatchIsOldest(db, cutoff, limit);
    DistinctCount(ids);
    hide ExpiredBatch;
    AsManyRows(db, RowsWithIds(db, ids));
    forall id | id in ids ensures id in EventIdsOf(db, RowsWithIds(db, ids)) {
      assert id in EventIdsOf(db, ExpiredRows(db, cutoff));
      var k :| k in db.conns && db.conns[k].eventId == id;
      assert k in RowsWithIds(db, ids);
    }
    assert EventIdsOf(db, RowsWithIds(db, ids)) == SetOf(ids);
  }

  lemma BatchMaximum(db: Db, cutoff: int, limit: nat)
    ensures var db' := DeleteBatch(db, cutoff, limit);
            db'.pruned == db.pruned || (db'.pruned > db.pruned && exists k :: k in db.conns && k !in db'.conns && db.conns[k].exportSeq == Some(db'.pruned))
  {
    hide ExpiredBatch, Greatest;
    var db' := DeleteBatch(db, cutoff, limit);
    var keys := RowsWithIds(db, ExpiredBatch(db, cutoff, limit));
    if db'.pruned > db.pruned {
      assert db'.pruned in SeqsOf(db, keys);
      var k :| k in keys && k in db.conns && db.conns[k].exportSeq == Some(db'.pruned);
      assert k !in db'.conns;
    }
  }
}
