/** What one committed poll does to the rows of one connection, column by column. */
module PollEffects {

  import opened Prelude
  import opened Ordering
  import opened Accounting
  import opened AccountingInvariants
  import opened Metering
  import opened NodeRuns

  /** Entry i of the snapshot is the last one with its connection id; earlier ones are overwritten. */
  ghost predicate LastReport(live: seq<Event>, i: nat) {
    i < |live| && forall j :: i < j < |live| ==> live[j].cid != live[i].cid
  }

  lemma {:induction false} LastReportCounts(live: seq<Event>, i: nat)
    requires LastReport(live, i)
    ensures live[i] in LiveMap(live)
    decreases |live|
  {
    hide DictPut;
    var n := |live| - 1;
    if i < n {
      assert live[..n][i] == live[i];
      assert LastReport(live[..n], i);
      LastReportCounts(live[..n], i);
      assert live[n].cid != live[i].cid;
    }
  }

  /** The tables hold the same about one connection. */
  ghost predicate SameConnection(a: Db, b: Db, c: Cid) {
    && (c in a.base <==> c in b.base) && (c in a.base ==> a.base[c] == b.base[c])
    && (forall g: nat :: Key(c, g) in a.conns <==> Key(c, g) in b.conns)
    && (forall g: nat :: Key(c, g) in a.conns ==> a.conns[Key(c, g)] == b.conns[Key(c, g)])
  }

  lemma ReadElsewhere(db: Db, inst: Option<string>, ev: Event, up: int, dn: int, c: Cid)
    requires Sound(db) && c != ev.cid
    ensures ev.cid in db.base ==> BaselineSound(db, ev.cid)
    ensures SameConnection(db, Read(db, inst, ev, up, dn), c)
  {
    assert ev.cid in db.base ==> BaselineSound(db, ev.cid);
    hide Sound;
  }

  lemma {:induction false} LiveElsewhere(db: Db, inst: Option<string>, evs: seq<Event>, known: Cache, c: Cid)
    requires Sound(db) && Distinct(evs) && known.Keys <= db.base.Keys && c !in Cids(evs)
    ensures SameConnection(db, PollAll(db, inst, evs, known, map[]).db, c)
    decreases |evs|
  {
    hide Sound, PollLive, Read, SameConnection;
    if evs == [] {
      SelfSame(db, c);
    } else {
      var n := |evs| - 1;
      LastOne(evs);
      LiveElsewhere(db, inst, evs[..n], known, c);
      PollAllSound(db, inst, evs[..n], known);
      LiveStepElsewhere(PollAll(db, inst, evs[..n], known, map[]), inst, evs[n], known, c);
      SameTwice(db, PollAll(db, inst, evs[..n], known, map[]).db, PollAll(db, inst, evs, known, map[]).db, c);
    }
  }

  lemma LastOne(evs: seq<Event>)
    requires Distinct(evs) && evs != []
    ensures var n := |evs| - 1; Distinct(evs[..n]) && Cids(evs) == Cids(evs[..n]) + {evs[n].cid} && evs[n].cid !in Cids(evs[..n])
  {
    var n := |evs| - 1;
    assert evs == evs[..n] + [evs[n]];
    CidsAppend(evs[..n], evs[n]);
  }

  lemma LiveStepElsewhere(p: Polled, inst: Option<string>, ev: Event, known: Cache, c: Cid)
    requires Sound(p.db) && c != ev.cid
    ensures SameConnection(p.db, PollLive(p.db, inst, ev, known, p.known).db, c)
  {
    hide Sound, Read;
    if ValidReading(ev) {
      PollLiveIsRead(p.db, inst, ev, known, p.known);
      ReadElsewhere(p.db, inst, ev, EventCounter(ev.up).value, EventCounter(ev.dn).value, c);
    }
  }

  lemma SelfSame(db: Db, c: Cid)
    ensures SameConnection(db, db, c)
  {}

  lemma SameTwice(x: Db, y: Db, z: Db, c: Cid)
    requires SameConnection(x, y, c) && SameConnection(y, z, c)
    ensures SameConnection(x, z, c)
  {}

  /** A live connection is read once, on tables that hold about it what they held before the poll. */
  lemma {:induction false} LiveRead(db: Db, inst: Option<string>, evs: seq<Event>, known: Cache, ev: Event) returns (d: Db)
    requires Sound(db) && Distinct(evs) && known.Keys <= db.base.Keys && ev in evs
    ensures Sound(d) && SameConnection(db, d, ev.cid) && d.nextEvent >= db.nextEvent && d.lastSeq >= db.lastSeq
    ensures ValidReading(ev) && ev.cid in d.base ==> BaselineSound(d, ev.cid)
    ensures var d' := if ValidReading(ev) then Read(d, inst, ev, EventCounter(ev.up).value, EventCounter(ev.dn).value) else d;
            SameConnection(d', PollAll(db, inst, evs, known, map[]).db, ev.cid)
    decreases |evs|
  {
    hide Sound, PollLive, Read, SameConnection;
    var n := |evs| - 1;
    LastOne(evs);
    PollAllSound(db, inst, evs[..n], known);
    var p := PollAll(db, inst, evs[..n], known, map[]);
    if ev == evs[n] {
      d := p.db;
      LiveElsewhere(db, inst, evs[..n], known, ev.cid);
      LiveStepHere(p, inst, ev, known);
    } else {
      assert ev in evs[..n];
      d := LiveRead(db, inst, evs[..n], known, ev);
      LiveStepElsewhere(p, inst, evs[n], known, ev.cid);
      var d' := if ValidReading(ev) then Read(d, inst, ev, EventCounter(ev.up).value, EventCounter(ev.dn).value) else d;
      SameTwice(d', p.db, PollAll(db, inst, evs, known, map[]).db, ev.cid);
    }
  }

  lemma LiveStepHere(p: Polled, inst: Option<string>, ev: Event, known: Cache)
    requires Sound(p.db)
    ensures ValidReading(ev) && ev.cid in p.db.base ==> BaselineSound(p.db, ev.cid)
    ensures var d' := if ValidReading(ev) then Read(p.db, inst, ev, EventCounter(ev.up).value, EventCounter(ev.dn).value) else p.db;
            SameConnection(d', PollLive(p.db, inst, ev, known, p.known).db, ev.cid)
  {
    hide Sound, Read;
    if ValidReading(ev) { PollLiveIsRead(p.db, inst, ev, known, p.known); }
  }

  lemma FinishElsewhere(db: Db, cid: Cid, now: int, c: Cid)
    requires Sound(db) && cid in db.base && c != cid
    ensures BaselineSound(db, cid) && SameConnection(db, Finish(db, cid, now), c)
  {
    assert BaselineSound(db, cid);
    hide Sound;
  }

  ghost predicate Tracked(db: Db, order: seq<Cid>) {
    && (forall c :: c in order ==> c in db.base)
    && (forall i, j :: 0 <= i < j < |order| ==> order[i] != order[j])
  }

  /** Closing vanished connections one by one touches each of them once and no other. */
  lemma {:induction false} VanishedOnce(db: Db, inst: Option<string>, order: seq<Cid>, known: Cache, now: int, c: Cid)
    returns (d: Db)
    requires Sound(db) && Tracked(db, order)
    ensures Sound(d) && SameConnection(db, d, c) && db.lastSeq <= d.lastSeq
    ensures c in order ==> c in d.base && BaselineSound(d, c) && SameConnection(Finish(d, c, now), VanishAll(db, inst, order, known, now), c)
    ensures c !in order ==> d == VanishAll(db, inst, order, known, now)
    decreases |order|
  {
    hide Sound, Vanish, Finish, SameConnection;
    if order == [] {
      SelfSame(db, c);
      d := db;
    } else {
      var n := |order| - 1;
      assert order == order[..n] + [order[n]];
      var mid, end := VanishAll(db, inst, order[..n], known, now), VanishAll(db, inst, order, known, now);
      d := VanishedOnce(db, inst, order[..n], known, now, c);
      VanishAllSound(db, inst, order[..n], known, now);
      assert order[n] in mid.base;
      VanishSound(mid, inst, order[n], known, now);
      if order[n] == c {
        SelfSame(end, c);
      } else {
        FinishElsewhere(mid, order[n], now, c);
        if c in order {
          SameTwice(Finish(d, c, now), mid, end, c);
        } else {
          SameTwice(db, mid, end, c);
          AdvancedSeq(mid, end);
          d := end;
        }
      }
    }
  }

  lemma AdvancedSeq(db: Db, db': Db)
    requires Advances(db, db')
    ensures db.lastSeq <= db'.lastSeq
  {}

  /* ---------- the three effects, column by column ---------- */

  /** A new generation of a connection: one above its last, opened with nothing accounted. */
  ghost predicate Opens(db: Db, db': Db, inst: Option<string>, ev: Event, up: int, dn: int) {
    ev.cid in db'.base &&
    var b := db'.base[ev.cid];
    var k := Key(ev.cid, b.gen);
    && k !in db.conns && k in db'.conns
    && (forall g: nat :: Key(ev.cid, g) in db.conns ==> g < b.gen)
    && (b.gen > 0 ==> Key(ev.cid, b.gen - 1) in db.conns)
    && b.rawUp == up && b.rawDn == dn && b.accUp == 0 && b.accDn == 0
    && var row := db'.conns[k];
    && row.eventId >= db.nextEvent && row.nodeId == ev.nodeId && row.instanceId == inst
    && row.tags == ev.tags && row.startedAt == ev.startedAt && row.lastSeen == ev.ts
    && row.closedAt.None? && row.exportSeq.None? && row.up == 0 && row.dn == 0
  }

  /** The open generation goes on: its bytes grow by what the counters grew; user columns are overwritten,
      destination columns only by known values, and nothing else changes. */
  ghost predicate Grows(db: Db, db': Db, ev: Event, up: int, dn: int)
    requires ev.cid in db.base
  {
    var b := db.base[ev.cid];
    var k := Key(ev.cid, b.gen);
    && k in db.conns && k in db'.conns && ev.cid in db'.base && db'.base[ev.cid].gen == b.gen
    && db'.base[ev.cid].rawUp == up && db'.base[ev.cid].rawDn == dn
    && var row, row' := db.conns[k], db'.conns[k];
    && row'.up == row.up + (up - b.rawUp) && row'.dn == row.dn + (dn - b.rawDn)
    && row'.lastSeen == ev.ts && row'.closedAt.None? && row'.exportSeq.None?
    && row'.eventId == row.eventId && row'.nodeId == row.nodeId && row'.instanceId == row.instanceId
    && row'.startedAt == row.startedAt
    && row'.tags.userId == ev.tags.userId && row'.tags.userTag == ev.tags.userTag
    && row'.tags.host == (if ev.tags.host.Some? then ev.tags.host else row.tags.host)
    && row'.tags.ip == (if ev.tags.ip.Some? then ev.tags.ip else row.tags.ip)
    && row'.tags.port == (if ev.tags.port.Some? then ev.tags.port else row.tags.port)
    && row'.tags.network == (if ev.tags.network.Some? then ev.tags.network else row.tags.network)
  }

  /** The open generation ends under a new sequence number, with the bytes and tags it had. */
  ghost predicate Closes(db: Db, db': Db, c: Cid, now: int)
    requires c in db.base
  {
    var k := Key(c, db.base[c].gen);
    && k in db.conns && k in db'.conns
    && var row, row' := db.conns[k], db'.conns[k];
    && row'.closedAt == Some(now) && row'.lastSeen == now
    && row'.exportSeq.Some? && row'.exportSeq.value > db.lastSeq
    && row'.up == row.up && row'.dn == row.dn && row'.tags == row.tags && row'.startedAt == row.startedAt
    && row'.eventId == row.eventId && row'.nodeId == row.nodeId && row'.instanceId == row.instanceId
  }

  /** What one report does, whatever else the snapshot holds. */
  ghost predicate Reports(db: Db, db': Db, inst: Option<string>, ev: Event, up: int, dn: int) {
    if ev.cid !in db.base then Opens(db, db', inst, ev, up, dn)
    else if up < db.base[ev.cid].rawUp || dn < db.base[ev.cid].rawDn then
      Closes(db, db', ev.cid, ev.ts) && Opens(db, db', inst, ev, up, dn)
    else Grows(db, db', ev, up, dn)
  }

  lemma ReadReports(db: Db, d: Db, db': Db, inst: Option<string>, ev: Event, up: int, dn: int)
    requires Sound(db) && Sound(d) && SameConnection(db, d, ev.cid) && d.nextEvent >= db.nextEvent && d.lastSeq >= db.lastSeq
    requires ev.cid in d.base ==> BaselineSound(d, ev.cid)
    requires SameConnection(Read(d, inst, ev, up, dn), db', ev.cid)
    ensures Reports(db, db', inst, ev, up, dn)
  {
    if ev.cid in db.base { assert BaselineSound(db, ev.cid) && RowSound(db, Key(ev.cid, db.base[ev.cid].gen)); }
    if ev.cid !in db.base {
      ReadOpens(db, d, db', inst, ev, up, dn);
    } else if up < db.base[ev.cid].rawUp || dn < db.base[ev.cid].rawDn {
      NoneAboveBaseline(db, ev.cid);
    }
  }

  lemma ReadOpens(db: Db, d: Db, db': Db, inst: Option<string>, ev: Event, up: int, dn: int)
    requires SameConnection(db, d, ev.cid) && d.nextEvent >= db.nextEvent && ev.cid !in d.base
    requires SameConnection(Read(d, inst, ev, up, dn), db', ev.cid)
    ensures Opens(db, db', inst, ev, up, dn)
  {
    var max := MaxGeneration(d, ev.cid);
    var k := Key(ev.cid, if max.None? then 0 else max.value + 1);
    assert k in Read(d, inst, ev, up, dn).conns;
    assert forall g: nat :: Key(ev.cid, g) in d.conns ==> g < k.gen;
  }

  /* ---------- a whole poll ---------- */

  ghost predicate Polls(db: Db, inst: Option<string>, live: seq<Event>, known: Cache, order: seq<Cid>) {
    Sound(db) && known.Keys <= db.base.Keys && Visits(order, PollVanished(db, inst, live, known))
  }

  lemma PollParts(db: Db, inst: Option<string>, live: seq<Event>, known: Cache, order: seq<Cid>, now: int) returns (p: Db)
    requires Polls(db, inst, live, known, order)
    ensures p == PollAll(db, inst, LiveMap(live), known, map[]).db && Sound(p) && Tracked(p, order)
    ensures p.lastSeq >= db.lastSeq
    ensures forall c :: c in order <==> c in db.base && c !in Cids(live)
    ensures ApplyPoll(db, inst, live, known, order, now).db == VanishAll(p, inst, order, known, now)
  {
    hide Sound, Advances, Distinct;
    var evs := LiveMap(live);
    var all := PollAll(db, inst, evs, known, map[]);
    p := all.db;
    PollAllSound(db, inst, evs, known);
    VanishedIds(db, evs, known, all);
    VanishedNeedsNoCache(db, inst, live, known);
    AdvancedSeq(db, p);
    VanishAllSound(p, inst, order, known, now);
    PruneKeeps(VanishAll(p, inst, order, known, now));
  }

  /** A reported connection is accounted by its last usable report, column by column; nothing else in the
      snapshot matters to it. */
  lemma ReportedConnection(db: Db, inst: Option<string>, live: seq<Event>, known: Cache, order: seq<Cid>, now: int, i: nat)
    requires Polls(db, inst, live, known, order) && LastReport(live, i)
    ensures var ev, db' := live[i], ApplyPoll(db, inst, live, known, order, now).db;
            if Usable(ev.up) && Usable(ev.dn) then Reports(db, db', inst, ev, Count(ev.up), Count(ev.dn))
            else SameConnection(db, db', ev.cid)
  {
    hide Polls, Sound, Reports, SameConnection, Read, Tracked, ApplyPoll;
    var ev := live[i];
    assert Sound(db) && known.Keys <= db.base.Keys by { PollsSound(db, inst, live, known, order); }
    var p := PollParts(db, inst, live, known, order, now);
    LastReportCounts(live, i);
    var d := LiveRead(db, inst, LiveMap(live), known, ev);
    CountersAreReported(ev);
    var v := VanishedOnce(p, inst, order, known, now, ev.cid);
    assert ev.cid in Cids(live);
    if ValidReading(ev) {
      SameTwice(Read(d, inst, ev, Count(ev.up), Count(ev.dn)), p, v, ev.cid);
      ReadReports(db, d, v, inst, ev, Count(ev.up), Count(ev.dn));
    } else {
      SameTwice(db, d, p, ev.cid);
      SameTwice(db, p, v, ev.cid);
    }
  }

  lemma PollsSound(db: Db, inst: Option<string>, live: seq<Event>, known: Cache, order: seq<Cid>)
    requires Polls(db, inst, live, known, order)
    ensures Sound(db) && known.Keys <= db.base.Keys
  {}

  /** A tracked connection that is not in the snapshot is closed at the poll's time; one that is neither tracked
      nor reported is left alone. */
  lemma UnreportedConnection(db: Db, inst: Option<string>, live: seq<Event>, known: Cache, order: seq<Cid>, now: int, c: Cid)
    requires Polls(db, inst, live, known, order) && forall i :: 0 <= i < |live| ==> live[i].cid != c
    ensures var db' := ApplyPoll(db, inst, live, known, order, now).db;
            if c in db.base then c !in db'.base && Closes(db, db', c, now) else SameConnection(db, db', c)
  {
    hide Polls, Sound, SameConnection, Closes, Tracked, ApplyPoll;
    assert Sound(db) && known.Keys <= db.base.Keys by { PollsSound(db, inst, live, known, order); }
    var p := PollParts(db, inst, live, known, order, now);
    assert c !in Cids(live);
    LiveElsewhere(db, inst, LiveMap(live), known, c);
    var d := VanishedOnce(p, inst, order, known, now, c);
    SameTwice(db, p, d, c);
    if c in db.base { FinishCloses(db, d, ApplyPoll(db, inst, live, known, order, now).db, c, now); }
  }

  lemma FinishCloses(db: Db, d: Db, db': Db, c: Cid, now: int)
    requires Sound(db) && c in db.base && SameConnection(db, d, c) && d.lastSeq >= db.lastSeq
    requires c in d.base && BaselineSound(d, c) && SameConnection(Finish(d, c, now), db', c)
    ensures c !in db'.base && Closes(db, db', c, now)
  {
    assert BaselineSound(db, c) && RowSound(db, Key(c, db.base[c].gen));
  }

  /* ---------- two committed polls ---------- */

  ghost predicate NoTick(steps: seq<Step>) {
    forall i :: 0 <= i < |steps| ==> !steps[i].Tick?
  }

  /** Failed ticks, restarts and retention leave open rows and baselines alone. */
  lemma {:induction false} QuietSteps(n: Node, steps: seq<Step>, c: Cid)
    requires NodeOk(n) && ValidRun(n, steps) && NoTick(steps) && c in n.db.base
    ensures var m := After(n, steps);
            && m.db.base == n.db.base && Open(n.db, Key(c, n.db.base[c].gen))
            && Open(m.db, Key(c, n.db.base[c].gen)) && m.db.conns[Key(c, n.db.base[c].gen)] == n.db.conns[Key(c, n.db.base[c].gen)]
    decreases |steps|
  {
    BaselineIsOpen(n, c);
    if steps != [] {
      QuietStep(n, steps[0], c);
      StepOk(n, steps[0]);
      hide NodeOk, NodeRuns.Next, Enabled;
      QuietSteps(NodeRuns.Next(n, steps[0]), steps[1..], c);
    }
  }

  lemma BaselineIsOpen(n: Node, c: Cid)
    requires NodeOk(n) && c in n.db.base
    ensures Open(n.db, Key(c, n.db.base[c].gen))
  {
    assert BaselineSound(n.db, c);
  }

  lemma QuietStep(n: Node, step: Step, c: Cid)
    requires NodeOk(n) && Enabled(n, step) && !step.Tick? && c in n.db.base && Open(n.db, Key(c, n.db.base[c].gen))
    ensures var m, k := NodeRuns.Next(n, step), Key(c, n.db.base[c].gen);
            m.db.base == n.db.base && k in m.db.conns && m.db.conns[k] == n.db.conns[k]
  {
    if step.Retain? {
      DeleteBatchSound(n.db, step.cutoff, step.limit);
      assert Sound(n.db) && RowSound(n.db, Key(c, n.db.base[c].gen));
      hide DeleteBatch, Agrees, LedgerOk;
    }
  }

  /** A connection reported as a and later, after any number of failed ticks, restarts and retention batches, as
      b: its open row has grown by exactly b - a. */
  lemma GrowthIsReported(n: Node, first: Step, quiet: seq<Step>, second: Step, i: nat, j: nat)
    requires NodeOk(n) && first.Tick? && Enabled(n, first) && LastReport(first.live, i)
    requires NodeOk(NodeRuns.Next(n, first)) && ValidRun(NodeRuns.Next(n, first), quiet) && NoTick(quiet)
    requires second.Tick? && Enabled(After(NodeRuns.Next(n, first), quiet), second) && LastReport(second.live, j)
    requires var a, b := first.live[i], second.live[j];
             && a.cid == b.cid && Usable(a.up) && Usable(a.dn) && Usable(b.up) && Usable(b.dn)
             && Count(a.up) <= Count(b.up) && Count(a.dn) <= Count(b.dn)
    ensures var n1 := NodeRuns.Next(n, first);
            var n2 := NodeRuns.Next(After(n1, quiet), second);
            var a, b := first.live[i], second.live[j];
            a.cid in n1.db.base &&
            var k := Key(a.cid, n1.db.base[a.cid].gen);
            && Open(n1.db, k) && Open(n2.db, k) && n2.db.conns[k].eventId == n1.db.conns[k].eventId
            && n2.db.conns[k].up == n1.db.conns[k].up + (Count(b.up) - Count(a.up))
            && n2.db.conns[k].dn == n1.db.conns[k].dn + (Count(b.dn) - Count(a.dn))
            && n2.db.conns[k].lastSeen == b.ts
  {
    var n1 := NodeRuns.Next(n, first);
    var a, b := first.live[i], second.live[j];
    TickReports(n, first, i);
    ReportedIsTracked(n.db, n1.db, first.inst, a, Count(a.up), Count(a.dn));
    QuietSteps(n1, quiet, a.cid);
    var m := After(n1, quiet);
    TickReports(m, second, j);
    hide NodeOk, NodeRuns.Next, Enabled, ValidRun, After, LastReport, Reports, Usable, Count, NoTick;
    ReportedGrowth(m.db, NodeRuns.Next(m, second).db, second.inst, b, Count(b.up), Count(b.dn));
  }

  lemma ReportedGrowth(db: Db, db': Db, inst: Option<string>, ev: Event, up: int, dn: int)
    requires Reports(db, db', inst, ev, up, dn) && ev.cid in db.base
    requires db.base[ev.cid].rawUp <= up && db.base[ev.cid].rawDn <= dn
    ensures var b := db.base[ev.cid];
            var k := Key(ev.cid, b.gen);
            && k in db.conns && Open(db', k) && db'.conns[k].eventId == db.conns[k].eventId && db'.conns[k].lastSeen == ev.ts
            && db'.conns[k].up == db.conns[k].up + (up - b.rawUp) && db'.conns[k].dn == db.conns[k].dn + (dn - b.rawDn)
  {}

  lemma TickReports(n: Node, step: Step, i: nat)
    requires NodeOk(n) && step.Tick? && Enabled(n, step) && LastReport(step.live, i)
    requires Usable(step.live[i].up) && Usable(step.live[i].dn)
    ensures Reports(n.db, NodeRuns.Next(n, step).db, step.inst, step.live[i], Count(step.live[i].up), Count(step.live[i].dn))
  {
    assert Polls(n.db, step.inst, step.live, n.known, step.order);
    hide NodeOk, Polls, Reports, ApplyPoll, LastReport;
    ReportedConnection(n.db, step.inst, step.live, n.known, step.order, step.now, i);
  }

  lemma ReportedIsTracked(db: Db, db': Db, inst: Option<string>, ev: Event, up: int, dn: int)
    requires Reports(db, db', inst, ev, up, dn)
    ensures ev.cid in db'.base && db'.base[ev.cid].rawUp == up && db'.base[ev.cid].rawDn == dn
  {}
}
