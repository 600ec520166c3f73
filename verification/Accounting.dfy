/** The accounting database of one node (schema 4) and the writes accountd makes to it,
    as functions on table values. AccountDaemon.dfy holds the step-by-step code. */
module Accounting {

  import opened Prelude
  import opened Ordering

  type Cid = string

  const INT64_MAX: int := 0x7FFF_FFFF_FFFF_FFFF
  const RETENTION_DELETE_BATCH: nat := 2000

  /** A counter as it comes out of the Clash JSON. */
  datatype Raw = Missing | Number(n: int) | NotANumber

  function EventCounter(raw: Raw): Option<int> {
    match raw
    case Missing => Some(0)
    case Number(n) => if 0 <= n <= INT64_MAX then Some(n) else None
    case NotANumber => None
  }

  datatype Tags = Tags(
    userId: string, userTag: Option<string>, host: Option<string>, ip: Option<string>,
    port: Option<int>, network: Option<string>)

  function Coalesce<T>(given: Option<T>, stored: Option<T>): Option<T> {
    if given.Some? then given else stored
  }

  /** An UPDATE overwrites the user columns and COALESCEs the destination columns. */
  function Refresh(stored: Tags, given: Tags): Tags {
    Tags(given.userId, given.userTag, Coalesce(given.host, stored.host), Coalesce(given.ip, stored.ip),
         Coalesce(given.port, stored.port), Coalesce(given.network, stored.network))
  }

  datatype Event = Event(
    cid: Cid, nodeId: string, tags: Tags, up: Raw, dn: Raw, startedAt: int, ts: int)

  /** UNIQUE (connection_id, generation). */
  datatype Key = Key(cid: Cid, gen: nat)

  datatype Row = Row(
    eventId: nat, nodeId: string, instanceId: Option<string>, tags: Tags, startedAt: int,
    lastSeen: int, closedAt: Option<int>, up: int, dn: int, exportSeq: Option<nat>)

  datatype Baseline = Baseline(
    gen: nat, rawUp: int, rawDn: int, accUp: int, accDn: int, lastSeen: int)

  /** One entry of the in-memory known_open cache. */
  datatype Entry = Entry(nodeId: string, tags: Tags, startedAt: int, base: Baseline)

  type Cache = map<Cid, Entry>

  /** A row together with its key, as a reader sees it. */
  datatype Logged = Logged(key: Key, row: Row)

  /** `nextEvent` is the AUTOINCREMENT counter: deleted event ids are not reused. */
  datatype Db = Db(
    conns: map<Key, Row>, base: map<Cid, Baseline>, lastSeq: nat, pruned: nat, nextEvent: nat)

  const EMPTY: Db := Db(map[], map[], 0, 0, 1)

  predicate Open(db: Db, k: Key) {
    k in db.conns && db.conns[k].closedAt.None?
  }

  predicate Closed(db: Db, k: Key) {
    k in db.conns && db.conns[k].closedAt.Some?
  }

  /* ---------- queries ---------- */

  function Greatest(s: set<nat>): (m: nat)
    requires s != {}
    ensures m in s && forall y :: y in s ==> y <= m
  {
    Least((a: nat, b: nat) => a > b, s)
  }

  function Generations(db: Db, cid: Cid): set<nat> {
    set k | k in db.conns && k.cid == cid :: k.gen
  }

  function OpenGenerations(db: Db, cid: Cid): set<nat> {
    set k | k in db.conns && k.cid == cid && db.conns[k].closedAt.None? :: k.gen
  }

  function MaxGeneration(db: Db, cid: Cid): (m: Option<nat>)
    ensures m.None? <==> forall k :: k in db.conns ==> k.cid != cid
    ensures m.Some? ==> Key(cid, m.value) in db.conns
    ensures m.Some? ==> forall k :: k in db.conns && k.cid == cid ==> k.gen <= m.value
  {
    var gens := Generations(db, cid);
    assert forall k :: k in db.conns && k.cid == cid ==> k.gen in gens;
    if gens == {} then None else Some(Greatest(gens))
  }

  /** The open row of a connection with the highest generation. */
  function OpenGeneration(db: Db, cid: Cid): (m: Option<nat>)
    ensures m.None? <==> forall k :: k in db.conns && k.cid == cid ==> db.conns[k].closedAt.Some?
    ensures m.Some? ==> Open(db, Key(cid, m.value))
  {
    var gens := OpenGenerations(db, cid);
    assert forall k :: k in db.conns && k.cid == cid && db.conns[k].closedAt.None? ==> k.gen in gens;
    if gens == {} then None else Some(Greatest(gens))
  }

  /** poll_baseline is believed only while its generation is still open. */
  function DurablePrev(db: Db, cid: Cid): Option<Entry> {
    if cid !in db.base then None else
      var b := db.base[cid];
      var k := Key(cid, b.gen);
      if !Open(db, k) then None else
        var row := db.conns[k];
        Some(Entry(row.nodeId, row.tags, row.startedAt, b))
  }

  /** Rebuild the cache from open baselines. */
  function ReloadKnownOpen(db: Db): Cache {
    map cid | cid in db.base && Open(db, Key(cid, db.base[cid].gen)) ::
      var row := db.conns[Key(cid, db.base[cid].gen)];
      Entry(row.nodeId, row.tags, row.startedAt, db.base[cid])
  }

  function PrevState(db: Db, known: Cache, cid: Cid): Option<Entry> {
    var prev := DurablePrev(db, cid);
    if prev.Some? then prev else if cid in known then Some(known[cid]) else None
  }

  /* ---------- row writes ---------- */

  /** next_export_seq and _assign_export_seq_if_needed. */
  function AssignSeq(db: Db, k: Key): Db {
    if k !in db.conns || db.conns[k].closedAt.None? || db.conns[k].exportSeq.Some? then db
    else db.(lastSeq := db.lastSeq + 1, conns := db.conns[k := db.conns[k].(exportSeq := Some(db.lastSeq + 1))])
  }

  datatype Upserted = Upserted(db: Db, landed: bool)

  /** UPDATE-first; a closed generation is never updated. */
  function Upsert(db: Db, inst: Option<string>, k: Key, e: Entry, now: int, close: bool): Upserted {
    var closedAt := if close then Some(now) else None;
    if Open(db, k) then
      var row := db.conns[k];
      var row' := row.(tags := Refresh(row.tags, e.tags), up := e.base.accUp, dn := e.base.accDn,
                       closedAt := closedAt, lastSeen := now);
      Upserted(AssignSeq(db.(conns := db.conns[k := row']), k), true)
    else if k in db.conns then
      Upserted(db, false)
    else
      var row := Row(db.nextEvent, e.nodeId, inst, e.tags, e.startedAt, now, closedAt,
                     e.base.accUp, e.base.accDn, None);
      Upserted(AssignSeq(db.(conns := db.conns[k := row], nextEvent := db.nextEvent + 1), k), true)
  }

  datatype Written = Written(db: Db, entry: Entry)

  function WriteOpenState(db: Db, inst: Option<string>, ev: Event, b: Baseline): Written {
    var e := Entry(ev.nodeId, ev.tags, ev.startedAt, b);
    var u := Upsert(db, inst, Key(ev.cid, b.gen), e, ev.ts, false);
    if u.landed then
      Written(u.db.(base := u.db.base[ev.cid := b]), e)
    else
      var max := MaxGeneration(u.db, ev.cid);
      var b' := b.(gen := (if max.Some? then max.value else 0) + 1, accUp := 0, accDn := 0);
      var e' := e.(base := b');
      var u' := Upsert(u.db, inst, Key(ev.cid, b'.gen), e', ev.ts, false);
      Written(u'.db.(base := u'.db.base[ev.cid := b']), e')
  }

  function CloseGeneration(db: Db, inst: Option<string>, cid: Cid, state: Entry, now: int): Db {
    var u := Upsert(db, inst, Key(cid, state.base.gen), state, now, true);
    u.db.(base := u.db.base - {cid})
  }

  /* ---------- one poll ---------- */

  datatype Polled = Polled(db: Db, known: Cache)

  function Cids(evs: seq<Event>): (r: set<Cid>) {
    set ev | ev in evs :: ev.cid
  }

  ghost predicate Distinct(evs: seq<Event>) {
    forall i, j :: 0 <= i < j < |evs| ==> evs[i].cid != evs[j].cid
  }

  lemma PutKeeps(dict: seq<Event>, i: nat, ev: Event)
    requires Distinct(dict) && i < |dict| && dict[i].cid == ev.cid
    ensures var r := dict[i := ev];
            && Distinct(r) && Cids(r) == Cids(dict) && ev in r
            && (forall e :: e in dict && e.cid != ev.cid ==> e in r)
  {
    var r := dict[i := ev];
    forall j | 0 <= j < |dict| ensures r[j].cid == dict[j].cid {}
    assert r[i] == ev;
    SameCids(dict, r);
    hide Cids;
    forall e | e in dict && e.cid != ev.cid ensures e in r {
      var j :| 0 <= j < |dict| && dict[j] == e;
      assert r[j] == e;
    }
  }

  lemma SameCids(a: seq<Event>, b: seq<Event>)
    requires |a| == |b| && forall j :: 0 <= j < |a| ==> a[j].cid == b[j].cid
    ensures Cids(a) == Cids(b)
  {
    forall c | c in Cids(a) ensures c in Cids(b) {
      var j :| 0 <= j < |a| && a[j].cid == c;
      assert b[j] in b;
    }
    forall c | c in Cids(b) ensures c in Cids(a) {
      var j :| 0 <= j < |b| && b[j].cid == c;
      assert a[j] in a;
    }
  }

  lemma AppendKeeps(dict: seq<Event>, ev: Event)
    requires Distinct(dict) && ev.cid !in Cids(dict)
    ensures Distinct(dict + [ev]) && Cids(dict + [ev]) == Cids(dict) + {ev.cid}
  {
    forall j | 0 <= j < |dict| ensures dict[j].cid != ev.cid { assert dict[j] in dict; }
  }

  /** Python dict semantics: first position, last value. */
  function DictPut(dict: seq<Event>, ev: Event): (r: seq<Event>)
    requires Distinct(dict)
    ensures Distinct(r) && Cids(r) == Cids(dict) + {ev.cid}
    ensures ev in r && forall e :: e in dict && e.cid != ev.cid ==> e in r
  {
    if ev.cid in Cids(dict) then
      var i: nat :| i < |dict| && dict[i].cid == ev.cid;
      PutKeeps(dict, i, ev);
      hide Distinct, Cids;
      dict[i := ev]
    else
      AppendKeeps(dict, ev);
      hide Distinct, Cids;
      dict + [ev]
  }

  /** A known id keeps its position, a new one goes to the end. */
  lemma PutInPlace(dict: seq<Event>, ev: Event)
    requires Distinct(dict)
    ensures var r := DictPut(dict, ev);
            && |dict| <= |r| && (forall i :: 0 <= i < |dict| ==> r[i] == if dict[i].cid == ev.cid then ev else dict[i])
            && (ev.cid !in Cids(dict) ==> r == dict + [ev])
  {
    forall i | 0 <= i < |dict| ensures dict[i].cid == ev.cid ==> ev.cid in Cids(dict) { assert dict[i] in dict; }
  }

  function LiveMap(live: seq<Event>): (r: seq<Event>)
    ensures Distinct(r) && Cids(r) == Cids(live)
  {
    if live == [] then [] else
      var n := |live| - 1;
      assert live == live[..n] + [live[n]];
      DictPut(LiveMap(live[..n]), live[n])
  }

  /** A valid reading: unknown id, counter drop, or growth. */
  function Account(db: Db, inst: Option<string>, ev: Event, up: int, dn: int): Written {
    var prev := DurablePrev(db, ev.cid);
    if prev.None? then
      var open := OpenGeneration(db, ev.cid);
      if open.Some? then
        var row := db.conns[Key(ev.cid, open.value)];
        WriteOpenState(db, inst, ev, Baseline(open.value, up, dn, row.up, row.dn, ev.ts))
      else
        var max := MaxGeneration(db, ev.cid);
        WriteOpenState(db, inst, ev, Baseline(if max.None? then 0 else max.value + 1, up, dn, 0, 0, ev.ts))
    else
      var b := prev.value.base;
      if up < b.rawUp || dn < b.rawDn then
        var closed := CloseGeneration(db, inst, ev.cid, prev.value, ev.ts);
        WriteOpenState(closed, inst, ev, Baseline(b.gen + 1, up, dn, 0, 0, ev.ts))
      else
        WriteOpenState(db, inst, ev,
          Baseline(b.gen, up, dn, b.accUp + (up - b.rawUp), b.accDn + (dn - b.rawDn), ev.ts))
  }

  /** The body of apply_poll_delta's first loop. */
  function PollLive(db: Db, inst: Option<string>, ev: Event, known: Cache, newKnown: Cache): Polled {
    var up, dn := EventCounter(ev.up), EventCounter(ev.dn);
    if up.None? || dn.None? then
      var kept := PrevState(db, known, ev.cid);
      Polled(db, if kept.Some? then newKnown[ev.cid := kept.value] else newKnown)
    else
      var w := Account(db, inst, ev, up.value, dn.value);
      Polled(w.db, newKnown[ev.cid := w.entry])
  }

  function PollAll(db: Db, inst: Option<string>, evs: seq<Event>, known: Cache, newKnown: Cache): Polled {
    if evs == [] then Polled(db, newKnown) else
      var n := |evs| - 1;
      var p := PollAll(db, inst, evs[..n], known, newKnown);
      PollLive(p.db, inst, evs[n], known, p.known)
  }

  /** The body of the second loop, for a tracked id that is not live. */
  function Vanish(db: Db, inst: Option<string>, cid: Cid, known: Cache, now: int): Db {
    var state := PrevState(db, known, cid);
    if state.None? then db.(base := db.base - {cid})
    else CloseGeneration(db, inst, cid, state.value, now)
  }

  function VanishAll(db: Db, inst: Option<string>, order: seq<Cid>, known: Cache, now: int): Db {
    if order == [] then db else
      var n := |order| - 1;
      Vanish(VanishAll(db, inst, order[..n], known, now), inst, order[n], known, now)
  }

  /** prune_closed_poll_baselines. */
  function PruneBaselines(db: Db): Db {
    db.(base := map cid | cid in db.base && Open(db, Key(cid, db.base[cid].gen)) :: db.base[cid])
  }

  /** Ids to close: cached or with a baseline, and not in the snapshot. */
  function Vanished(db: Db, evs: seq<Event>, known: Cache): set<Cid> {
    known.Keys + db.base.Keys - Cids(evs)
  }

  /** `order` visits each member of `s` once; a Python set may be iterated in any such order. */
  ghost predicate Visits(order: seq<Cid>, s: set<Cid>) {
    && Lists(order, s)
    && (forall i, j :: 0 <= i < j < |order| ==> order[i] != order[j])
  }

  /** apply_poll_delta, for one iteration order of the vanished ids. */
  function ApplyPoll(db: Db, inst: Option<string>, live: seq<Event>, known: Cache,
                     order: seq<Cid>, now: int): Polled
  {
    var p := PollAll(db, inst, LiveMap(live), known, map[]);
    Polled(PruneBaselines(VanishAll(p.db, inst, order, known, now)), p.known)
  }

  /** The tracked ids a poll visits in its second loop. */
  function PollVanished(db: Db, inst: Option<string>, live: seq<Event>, known: Cache): set<Cid> {
    Vanished(PollAll(db, inst, LiveMap(live), known, map[]).db, LiveMap(live), known)
  }

  /* ---------- stale sweep ---------- */

  /** Open rows outside the live ids; with an empty id list, every open row. */
  function StaleRows(db: Db, ids: set<Cid>): set<Key> {
    set k | k in db.conns && db.conns[k].closedAt.None? && (ids == {} || k.cid !in ids)
  }

  function CloseRow(db: Db, k: Key, now: int): Db {
    if !Open(db, k) then db
    else AssignSeq(db.(conns := db.conns[k := db.conns[k].(closedAt := Some(now), lastSeen := now)]), k)
  }

  function CloseRows(db: Db, order: seq<Key>, now: int): Db {
    if order == [] then db
    else CloseRow(CloseRows(db, order[..|order| - 1], now), order[|order| - 1], now)
  }

  /* ---------- the accounting-plane check ---------- */

  /** Open rows without a matching poll_baseline. */
  function MissingOpen(db: Db): set<Key> {
    set k | k in db.conns && db.conns[k].closedAt.None? && !(k.cid in db.base && db.base[k.cid].gen == k.gen)
  }

  /** Baselines pointing at a missing or closed generation. */
  function StaleBaselines(db: Db): set<Cid> {
    set c | c in db.base && !Open(db, Key(c, db.base[c].gen))
  }

  /** Open rows whose bytes drifted from the accounted bytes of their baseline. */
  function DriftedRows(db: Db): set<Key> {
    set k | k in db.conns && db.conns[k].closedAt.None? && k.cid in db.base && db.base[k.cid].gen == k.gen
            && (db.conns[k].up != db.base[k.cid].accUp || db.conns[k].dn != db.base[k.cid].accDn)
  }

  /* ---------- retention ---------- */

  function ExpiredRows(db: Db, cutoff: int): set<Key> {
    set k | k in db.conns && db.conns[k].closedAt.Some? && db.conns[k].lastSeen < cutoff
  }

  function EventIdsOf(db: Db, keys: set<Key>): set<nat> {
    set k | k in keys && k in db.conns :: db.conns[k].eventId
  }

  function IdLess(): (lt: (nat, nat) -> bool)
    ensures StrictTotal(lt)
  {
    (a: nat, b: nat) => a < b
  }

  /** SELECT event_id ... ORDER BY event_id. */
  function ExpiredIds(db: Db, cutoff: int): (ids: seq<nat>)
    ensures Ascending(IdLess(), ids) && Lists(ids, EventIdsOf(db, ExpiredRows(db, cutoff)))
    ensures |ids| == |EventIdsOf(db, ExpiredRows(db, cutoff))|
  {
    OrderBy(IdLess(), EventIdsOf(db, ExpiredRows(db, cutoff)))
  }

  /** ... LIMIT ?. */
  function ExpiredBatch(db: Db, cutoff: int, limit: nat): (ids: seq<nat>)
    ensures |ids| <= limit
    ensures forall id :: id in ids ==> id in EventIdsOf(db, ExpiredRows(db, cutoff))
  {
    Limited(ExpiredIds(db, cutoff), Some(limit))
  }

  /** The rows of `db` that carry one of the ids. */
  function RowsWithIds(db: Db, ids: seq<nat>): set<Key> {
    set k | k in db.conns && db.conns[k].eventId in ids
  }

  function SeqsOf(db: Db, keys: set<Key>): set<nat> {
    set k | k in keys && k in db.conns && db.conns[k].exportSeq.Some? :: db.conns[k].exportSeq.value
  }

  function PrunedMax(pruned: nat, seqs: set<nat>): nat {
    if seqs == {} then pruned else Max(pruned, Greatest(seqs))
  }

  /** _delete_expired_connections_batch. */
  function DeleteBatch(db: Db, cutoff: int, limit: nat): Db {
    var ids := ExpiredBatch(db, cutoff, limit);
    var keys := RowsWithIds(db, ids);
    var seqs := SeqsOf(db, keys);
    if ids == [] then db
    else db.(conns := db.conns - keys,
             pruned := PrunedMax(db.pruned, seqs))
  }
}
