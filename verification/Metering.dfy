/** A reference meter: what a poller that never forgets anything and keeps no tables would bill.
    It sees only the committed snapshots. The database code is proved to bill the same. */
module Metering {

  import opened Prelude
  import opened Ordering
  import opened Accounting
  import opened AccountingInvariants

  /** One stretch of nondecreasing readings of one connection: its first and last valid counters. */
  datatype Span = Span(cid: Cid, firstUp: int, firstDn: int, lastUp: int, lastDn: int)

  datatype Meter = Meter(open: map<Cid, Span>, closed: seq<Span>)

  const NEW_METER: Meter := Meter(map[], [])

  /** The meter reads the report itself: a missing counter is zero, anything but an int64 number is no reading. */
  predicate Usable(raw: Raw) {
    raw.Missing? || (raw.Number? && 0 <= raw.n < 0x8000_0000_0000_0000)
  }

  function Count(raw: Raw): int {
    if raw.Number? then raw.n else 0
  }

  /** The daemon's counters are the reported ones. */
  lemma CountersAreReported(ev: Event)
    ensures ValidReading(ev) <==> Usable(ev.up) && Usable(ev.dn)
    ensures ValidReading(ev) ==> EventCounter(ev.up) == Some(Count(ev.up)) && EventCounter(ev.dn) == Some(Count(ev.dn))
  {}

  function See(m: Meter, cid: Cid, up: int, dn: int): Meter {
    if cid !in m.open then
      m.(open := m.open[cid := Span(cid, up, dn, up, dn)])
    else if up < m.open[cid].lastUp || dn < m.open[cid].lastDn then
      Meter(m.open[cid := Span(cid, up, dn, up, dn)], m.closed + [m.open[cid]])
    else
      m.(open := m.open[cid := m.open[cid].(lastUp := up, lastDn := dn)])
  }

  function Lose(m: Meter, cid: Cid): Meter {
    if cid !in m.open then m
    else Meter(m.open - {cid}, m.closed + [m.open[cid]])
  }

  function SeeAll(m: Meter, evs: seq<Event>): Meter {
    if evs == [] then m else
      var n := |evs| - 1;
      var m' := SeeAll(m, evs[..n]);
      if Usable(evs[n].up) && Usable(evs[n].dn) then See(m', evs[n].cid, Count(evs[n].up), Count(evs[n].dn))
      else m'
  }

  function LoseAll(m: Meter, order: seq<Cid>): Meter {
    if order == [] then m else
      var n := |order| - 1;
      Lose(LoseAll(m, order[..n]), order[n])
  }

  /** One committed snapshot; `order` is the order in which vanished connections are closed. */
  function Observe(m: Meter, live: seq<Event>, order: seq<Cid>): Meter {
    LoseAll(SeeAll(m, LiveMap(live)), order)
  }

  /* ---------- the database bills what the meter bills ---------- */

  /** A closed row carries last-minus-first of a span of its own connection. */
  predicate Bills(k: Key, row: Row, span: Span) {
    k.cid == span.cid && row.up == span.lastUp - span.firstUp && row.dn == span.lastDn - span.firstDn
  }

  predicate BaselineAgrees(db: Db, m: Meter, c: Cid)
    requires c in db.base && c in m.open
  {
    var b, span := db.base[c], m.open[c];
    && span.cid == c && b.rawUp == span.lastUp && b.rawDn == span.lastDn
    && b.accUp == span.lastUp - span.firstUp && b.accDn == span.lastDn - span.firstDn
  }

  predicate RowAgrees(db: Db, m: Meter, k: Key)
    requires k in db.conns
  {
    var row := db.conns[k];
    row.exportSeq.Some? ==>
      && 1 <= row.exportSeq.value <= |m.closed|
      && Bills(k, row, m.closed[row.exportSeq.value - 1])
  }

  ghost predicate Agrees(db: Db, m: Meter) {
    && m.open.Keys == db.base.Keys
    && |m.closed| == db.lastSeq
    && (forall c :: c in db.base ==> BaselineAgrees(db, m, c))
    && (forall k :: k in db.conns ==> RowAgrees(db, m, k))
  }

  lemma StartAgrees(db: Db, m: Meter, inst: Option<string>, ev: Event, gen: nat, up: int, dn: int)
    requires Agrees(db, m) && ev.cid !in db.base
    ensures Agrees(Start(db, inst, ev, gen, up, dn), See(m, ev.cid, up, dn))
  {}

  lemma FinishAgrees(db: Db, m: Meter, cid: Cid, now: int)
    requires Sound(db) && Agrees(db, m) && cid in db.base
    ensures BaselineSound(db, cid) && Agrees(Finish(db, cid, now), Lose(m, cid))
  {}

  lemma ExtendAgrees(db: Db, m: Meter, ev: Event, up: int, dn: int)
    requires Sound(db) && Agrees(db, m) && ev.cid in db.base
    requires !(up < db.base[ev.cid].rawUp || dn < db.base[ev.cid].rawDn)
    ensures BaselineSound(db, ev.cid) && Agrees(Extend(db, ev, up, dn), See(m, ev.cid, up, dn))
  {}

  lemma ReadAgrees(db: Db, m: Meter, inst: Option<string>, ev: Event, up: int, dn: int)
    requires Sound(db) && Agrees(db, m)
    ensures ev.cid in db.base ==> BaselineSound(db, ev.cid)
    ensures Agrees(Read(db, inst, ev, up, dn), See(m, ev.cid, up, dn))
  {
    hide Start, Extend, RowSound;
    if ev.cid !in db.base {
      var max := MaxGeneration(db, ev.cid);
      StartAgrees(db, m, inst, ev, if max.None? then 0 else max.value + 1, up, dn);
    } else {
      assert BaselineSound(db, ev.cid) && BaselineAgrees(db, m, ev.cid);
      if up < db.base[ev.cid].rawUp || dn < db.base[ev.cid].rawDn {
        FinishAgrees(db, m, ev.cid, ev.ts);
        StartAgrees(Finish(db, ev.cid, ev.ts), Lose(m, ev.cid), inst, ev, db.base[ev.cid].gen + 1, up, dn);
        assert See(Lose(m, ev.cid), ev.cid, up, dn) == See(m, ev.cid, up, dn);
      } else {
        ExtendAgrees(db, m, ev, up, dn);
      }
    }
  }

  lemma {:induction false} PollAllAgrees(db: Db, m: Meter, inst: Option<string>, evs: seq<Event>, known: Cache)
    requires Sound(db) && Agrees(db, m) && Distinct(evs) && known.Keys <= db.base.Keys
    ensures Agrees(PollAll(db, inst, evs, known, map[]).db, SeeAll(m, evs))
    decreases |evs|
  {
    hide Sound, Agrees;
    if evs != [] {
      var n := |evs| - 1;
      PollAllAgrees(db, m, inst, evs[..n], known);
      PollAllSound(db, inst, evs[..n], known);
      var p := PollAll(db, inst, evs[..n], known, map[]);
      CountersAreReported(evs[n]);
      if ValidReading(evs[n]) {
        PollLiveIsRead(p.db, inst, evs[n], known, p.known);
        ReadAgrees(p.db, SeeAll(m, evs[..n]), inst, evs[n], EventCounter(evs[n].up).value, EventCounter(evs[n].dn).value);
      }
    }
  }

  lemma {:induction false} VanishAllAgrees(db: Db, m: Meter, inst: Option<string>, order: seq<Cid>, known: Cache, now: int)
    requires Sound(db) && Agrees(db, m) && (forall c :: c in order ==> c in db.base)
    requires forall i, j :: 0 <= i < j < |order| ==> order[i] != order[j]
    ensures Agrees(VanishAll(db, inst, order, known, now), LoseAll(m, order))
    decreases |order|
  {
    hide Sound, Agrees, Vanish;
    if order != [] {
      var n := |order| - 1;
      var mid := VanishAll(db, inst, order[..n], known, now);
      VanishAllAgrees(db, m, inst, order[..n], known, now);
      VanishAllSound(db, inst, order[..n], known, now);
      assert order[n] in mid.base;
      VanishSound(mid, inst, order[n], known, now);
      FinishAgrees(mid, LoseAll(m, order[..n]), order[n], now);
    }
  }

  /** A committed poll moves the database and the meter in step. */
  lemma PollAgrees(db: Db, m: Meter, inst: Option<string>, live: seq<Event>, known: Cache, order: seq<Cid>, now: int)
    requires Sound(db) && Agrees(db, m) && known.Keys <= db.base.Keys
    requires Visits(order, PollVanished(db, inst, live, known))
    ensures Agrees(ApplyPoll(db, inst, live, known, order, now).db, Observe(m, live, order))
  {
    hide Sound, Agrees;
    var evs := LiveMap(live);
    var p := PollAll(db, inst, evs, known, map[]);
    PollAllSound(db, inst, evs, known);
    PollAllAgrees(db, m, inst, evs, known);
    VanishedIds(db, evs, known, p);
    VanishAllSound(p.db, inst, order, known, now);
    VanishAllAgrees(p.db, SeeAll(m, evs), inst, order, known, now);
    PruneKeeps(VanishAll(p.db, inst, order, known, now));
  }

  /** Retention is invisible to the meter. */
  lemma DeleteBatchAgrees(db: Db, m: Meter, cutoff: int, limit: nat)
    requires Sound(db) && Agrees(db, m)
    ensures Agrees(DeleteBatch(db, cutoff, limit), m)
  {
    DeleteBatchSound(db, cutoff, limit);
    FewerRowsAgree(db, DeleteBatch(db, cutoff, limit), m);
    hide Sound, DeleteBatch, Agrees;
  }

  lemma FewerRowsAgree(db: Db, db': Db, m: Meter)
    requires Agrees(db, m) && db'.base == db.base && db'.lastSeq == db.lastSeq
    requires forall k :: k in db'.conns ==> k in db.conns && db'.conns[k] == db.conns[k]
    ensures Agrees(db', m)
  {}

  /* ---------- totals ---------- */

  datatype Bytes = Bytes(up: int, dn: int)

  function RowTotal(rows: seq<Logged>): Bytes {
    if rows == [] then Bytes(0, 0) else
      var n := |rows| - 1;
      var t := RowTotal(rows[..n]);
      Bytes(t.up + rows[n].row.up, t.dn + rows[n].row.dn)
  }

  function SpanTotal(spans: seq<Span>): Bytes {
    if spans == [] then Bytes(0, 0) else
      var n := |spans| - 1;
      var t := SpanTotal(spans[..n]);
      Bytes(t.up + spans[n].lastUp - spans[n].firstUp, t.dn + spans[n].lastDn - spans[n].firstDn)
  }

  /** Rows that bill one stretch each add up to what the stretches gained. */
  lemma {:induction false} BillsAddUp(rows: seq<Logged>, spans: seq<Span>)
    requires |rows| == |spans| && forall i :: 0 <= i < |rows| ==> Bills(rows[i].key, rows[i].row, spans[i])
    ensures RowTotal(rows) == SpanTotal(spans)
    decreases |rows|
  {
    if rows != [] {
      var n := |rows| - 1;
      assert Bills(rows[n].key, rows[n].row, spans[n]);
      BillsAddUp(rows[..n], spans[..n]);
    }
  }

  predicate AllOpen(db: Db, m: Meter, order: seq<Cid>) {
    forall i :: 0 <= i < |order| ==>
      order[i] in db.base && Open(db, Key(order[i], db.base[order[i]].gen)) && order[i] in m.open
  }

  function OpenRow(db: Db, c: Cid): Logged
    requires c in db.base && Open(db, Key(c, db.base[c].gen))
  {
    Logged(Key(c, db.base[c].gen), db.conns[Key(c, db.base[c].gen)])
  }

  /** The open rows of the listed connections, and the stretches they are still billing. */
  function OpenRows(db: Db, m: Meter, order: seq<Cid>): (rows: seq<Logged>)
    requires AllOpen(db, m, order)
    ensures |rows| == |order| && forall i :: 0 <= i < |rows| ==> rows[i] == OpenRow(db, order[i])
  {
    seq(|order|, i requires 0 <= i < |order| => OpenRow(db, order[i]))
  }

  function OpenSpans(db: Db, m: Meter, order: seq<Cid>): (spans: seq<Span>)
    requires AllOpen(db, m, order)
    ensures |spans| == |order| && forall i :: 0 <= i < |spans| ==> spans[i] == m.open[order[i]]
  {
    seq(|order|, i requires 0 <= i < |order| => m.open[order[i]])
  }
}
