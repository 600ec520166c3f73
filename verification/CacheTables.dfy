/** The controller's cache tables, and daily_usage as the GROUP BY of audit_events. */
module CacheTables {

  import opened Prelude
  import opened Ordering
  import opened Lexicographic

  /** PRIMARY KEY (node_id, event_id). */
  datatype EvKey = EvKey(nodeId: string, eventId: int)

  /** The columns that come from the node. */
  datatype Remote = Remote(
    instanceId: Option<string>, exportSeq: Option<int>, connectionId: string, generation: int,
    userId: string, userTag: Option<string>, startedAt: string, lastSeen: string, closedAt: Option<string>,
    host: Option<string>, ip: Option<string>, port: Option<int>, network: Option<string>, up: int, dn: int)

  datatype Cached = Cached(remote: Remote, importedAt: string)

  type Events = map<EvKey, Cached>

  /** PRIMARY KEY (date, node_id, user_id, destination_host). */
  datatype DailyKey = DailyKey(date: string, nodeId: string, userId: string, host: string)

  /** SUM, SUM, COUNT, MAX(instance_id), MAX(user_tag). */
  datatype Usage = Usage(up: int, dn: int, count: int, instanceId: Option<string>, userTag: Option<string>)

  type Daily = map<DailyKey, Usage>

  datatype Cursor = Cursor(
    instanceId: Option<string>, lastEventId: int, lastExportSeq: int, kind: string, lastSyncAt: string,
    status: string)

  datatype UserKey = UserKey(nodeId: string, userId: string)

  datatype Instance = Instance(nodeId: string, instanceId: string)

  /** `nodes` and `users` are the snapshot tables; the columns besides the keys are one text. `instances` are the
      keys of the instance history. */
  datatype CacheDb = CacheDb(
    fleetId: string, events: Events, daily: Daily, cursors: map<string, Cursor>, nodes: map<string, string>,
    users: map<UserKey, string>, instances: set<Instance>)

  function ByEvKey(): (lt: (EvKey, EvKey) -> bool)
    ensures StrictTotal(lt)
  {
    hide StrictTotal;
    On((k: EvKey) => (k.nodeId, k.eventId), Then(ByText(), ByInt()))
  }

  function ByDailyKey(): (lt: (DailyKey, DailyKey) -> bool)
    ensures StrictTotal(lt)
  {
    hide StrictTotal;
    On((k: DailyKey) => ((k.date, k.nodeId), (k.userId, k.host)),
       Then(Then(ByText(), ByText()), Then(ByText(), ByText())))
  }

  /* ---------- SUM and COUNT over a set of rows ---------- */

  /** MAX over text; NULLs are ignored. */
  function MaxText(a: Option<string>, b: Option<string>): Option<string> {
    if a.None? then b else if b.None? then a else if TextLess(a.value, b.value) then b else a
  }

  lemma MaxTextSwaps(a: Option<string>, b: Option<string>, c: Option<string>)
    ensures MaxText(MaxText(a, b), c) == MaxText(a, MaxText(b, c)) && MaxText(a, b) == MaxText(b, a)
  {
    hide TextLess;
    if a.Some? && b.Some? { TextTotal(a.value, b.value); TextOneWay(a.value, b.value); }
    if a.Some? && b.Some? && c.Some? {
      TextTotal(b.value, c.value);
      TextTotal(a.value, c.value);
      TextOneWay(b.value, c.value);
      TextOneWay(a.value, c.value);
      if TextLess(a.value, b.value) && TextLess(b.value, c.value) { TextTransitive(a.value, b.value, c.value); }
      if TextLess(a.value, c.value) && TextLess(c.value, b.value) { TextTransitive(a.value, c.value, b.value); }
      if TextLess(b.value, a.value) && TextLess(a.value, c.value) { TextTransitive(b.value, a.value, c.value); }
      if TextLess(b.value, c.value) && TextLess(c.value, a.value) { TextTransitive(b.value, c.value, a.value); }
      if TextLess(c.value, a.value) && TextLess(a.value, b.value) { TextTransitive(c.value, a.value, b.value); }
      if TextLess(c.value, b.value) && TextLess(b.value, a.value) { TextTransitive(c.value, b.value, a.value); }
    }
  }

  function Plus(a: Usage, b: Usage): Usage {
    Usage(a.up + b.up, a.dn + b.dn, a.count + b.count, MaxText(a.instanceId, b.instanceId), MaxText(a.userTag, b.userTag))
  }

  const ZERO: Usage := Usage(0, 0, 0, None, None)

  lemma PlusAssociates(a: Usage, b: Usage, c: Usage)
    ensures Plus(Plus(a, b), c) == Plus(a, Plus(b, c))
  {
    hide MaxText;
    MaxTextSwaps(a.instanceId, b.instanceId, c.instanceId);
    MaxTextSwaps(a.userTag, b.userTag, c.userTag);
  }

  lemma PlusSwaps(a: Usage, b: Usage, c: Usage)
    ensures Plus(Plus(a, b), c) == Plus(Plus(a, c), b)
  {
    hide MaxText;
    PlusAssociates(a, b, c);
    PlusAssociates(a, c, b);
    MaxTextSwaps(b.instanceId, c.instanceId, None);
    MaxTextSwaps(b.userTag, c.userTag, None);
  }

  function Total<K(!new, ==)>(lt: (K, K) -> bool, use: map<K, Usage>, keys: set<K>): (t: Usage)
    requires StrictTotal(lt) && keys <= use.Keys
    decreases keys
  {
    if keys == {} then ZERO else
      var k := Least(lt, keys);
      Plus(Total(lt, use, keys - {k}), use[k])
  }

  lemma {:induction false} TotalRemove<K(!new)>(lt: (K, K) -> bool, use: map<K, Usage>, keys: set<K>, k: K)
    requires StrictTotal(lt) && keys <= use.Keys && k in keys
    ensures Total(lt, use, keys) == Plus(Total(lt, use, keys - {k}), use[k])
    decreases keys
  {
    hide StrictTotal, Plus;
    var m := Least(lt, keys);
    if m != k {
      TotalRemove(lt, use, keys - {m}, k);
      PlusSwaps(Total(lt, use, keys - {m} - {k}), use[k], use[m]);
      assert Least(lt, keys - {k}) == m by { LeastUnique(lt, keys - {k}, m); }
      assert keys - {m} - {k} == keys - {k} - {m};
    }
  }

  lemma LeastUnique<K(!new)>(lt: (K, K) -> bool, keys: set<K>, m: K)
    requires StrictTotal(lt) && IsLeast(lt, keys, m)
    ensures Least(lt, keys) == m
  {}

  lemma {:induction false} TotalUnion<K(!new)>(lt: (K, K) -> bool, use: map<K, Usage>, a: set<K>, b: set<K>)
    requires StrictTotal(lt) && a <= use.Keys && b <= use.Keys && a !! b
    ensures Total(lt, use, a + b) == Plus(Total(lt, use, a), Total(lt, use, b))
    decreases b
  {
    hide StrictTotal, Least;
    if b == {} {
      assert a + b == a;
    } else {
      hide Plus;
      var k :| k in b;
      TotalRemove(lt, use, a + b, k);
      TotalRemove(lt, use, b, k);
      assert a + b - {k} == a + (b - {k});
      TotalUnion(lt, use, a, b - {k});
      PlusAssociates(Total(lt, use, a), Total(lt, use, b - {k}), use[k]);
    }
  }

  lemma {:induction false} TotalSame<K(!new)>(lt: (K, K) -> bool, use: map<K, Usage>, use': map<K, Usage>, keys: set<K>)
    requires StrictTotal(lt) && keys <= use.Keys && keys <= use'.Keys
    requires forall k :: k in keys ==> use[k] == use'[k]
    ensures Total(lt, use, keys) == Total(lt, use', keys)
    decreases keys
  {
    hide StrictTotal;
    if keys != {} { TotalSame(lt, use, use', keys - {Least(lt, keys)}); }
  }

  /* ---------- the derived index ---------- */

  /** The tables agree at one key: both lack it, or both hold the same row. */
  predicate SameAt<K(==), V(==)>(a: map<K, V>, b: map<K, V>, k: K) {
    (k in a <==> k in b) && (k in a ==> a[k] == b[k])
  }

  function DateOf(startedAt: string): string {
    if |startedAt| <= 10 then startedAt else startedAt[..10]
  }

  function HostOf(r: Remote): string {
    if r.host.Some? && r.host.value != "" then r.host.value
    else if r.ip.Some? && r.ip.value != "" then r.ip.value
    else "(unknown)"
  }

  function DailyKeyOf(k: EvKey, r: Remote): DailyKey {
    DailyKey(DateOf(r.startedAt), k.nodeId, r.userId, HostOf(r))
  }

  function UseOf(events: Events): (use: map<EvKey, Usage>)
    ensures use.Keys == events.Keys
  {
    map k | k in events ::
      Usage(events[k].remote.up, events[k].remote.dn, 1, events[k].remote.instanceId, events[k].remote.userTag)
  }

  function RowsOf(events: Events, nodeId: string): set<EvKey> {
    set k | k in events && k.nodeId == nodeId
  }

  function Group(events: Events, d: DailyKey): set<EvKey> {
    set k | k in events && DailyKeyOf(k, events[k].remote) == d
  }

  /** The groups of one node; a blank node id is not indexed. */
  function DaysOf(events: Events, nodeId: string): set<DailyKey> {
    set k | k in events && k.nodeId == nodeId && nodeId != "" :: DailyKeyOf(k, events[k].remote)
  }

  function GroupUse(events: Events, d: DailyKey): Usage {
    Total(ByEvKey(), UseOf(events), Group(events, d))
  }

  /** rebuild_daily_usage_for_node: DELETE, then INSERT ... SELECT ... GROUP BY. */
  function Rebuilt(events: Events, daily: Daily, nodeId: string): (r: Daily)
    ensures forall d: DailyKey :: d.nodeId != nodeId ==> SameAt(daily, r, d)
  {
    map d | d in daily.Keys + DaysOf(events, nodeId) && (d.nodeId == nodeId ==> d in DaysOf(events, nodeId)) ::
      if d.nodeId == nodeId then GroupUse(events, d) else daily[d]
  }

  /** daily_usage agrees with audit_events on one day, node, user and host. */
  ghost predicate DayIndexed(events: Events, daily: Daily, d: DailyKey) {
    && (d in daily <==> d.nodeId != "" && Group(events, d) != {})
    && (d in daily ==> daily[d] == GroupUse(events, d))
  }

  ghost predicate Indexed(events: Events, daily: Daily) {
    forall d :: DayIndexed(events, daily, d)
  }

  lemma RebuildIndexes(events: Events, daily: Daily, nodeId: string, d: DailyKey)
    requires d.nodeId == nodeId
    ensures DayIndexed(events, Rebuilt(events, daily, nodeId), d)
  {
    hide GroupUse;
    assert d in DaysOf(events, nodeId) <==> nodeId != "" && Group(events, d) != {} by {
      if Group(events, d) != {} && nodeId != "" {
        var k :| k in Group(events, d);
        assert DailyKeyOf(k, events[k].remote) == d;
      }
      if d in DaysOf(events, nodeId) {
        var k :| k in events && DailyKeyOf(k, events[k].remote) == d;
        assert k in Group(events, d);
      }
    }
  }

  /** Rows of other nodes decide nothing about this day. */
  lemma DayUntouched(events: Events, events': Events, daily: Daily, daily': Daily, d: DailyKey)
    requires DayIndexed(events, daily, d)
    requires forall k: EvKey :: k.nodeId == d.nodeId ==> SameAt(events, events', k)
    requires SameAt(daily, daily', d)
    ensures DayIndexed(events', daily', d)
  {
    hide StrictTotal;
    assert Group(events, d) == Group(events', d);
    TotalSame(ByEvKey(), UseOf(events), UseOf(events'), Group(events, d));
  }

  /** Changing one node's rows and rebuilding that node keeps the whole index in agreement. */
  lemma RebuildKeepsIndex(events: Events, events': Events, daily: Daily, nodeId: string)
    requires Indexed(events, daily)
    requires forall k: EvKey :: k.nodeId != nodeId ==> SameAt(events, events', k)
    ensures Indexed(events', Rebuilt(events', daily, nodeId))
  {
    hide DayIndexed, Rebuilt;
    var daily' := Rebuilt(events', daily, nodeId);
    forall d ensures DayIndexed(events', daily', d) {
      if d.nodeId == nodeId {
        RebuildIndexes(events', daily, nodeId, d);
      } else {
        DayUntouched(events, events', daily, daily', d);
      }
    }
  }

  function RowsIn(events: Events, days: set<DailyKey>): set<EvKey> {
    set k | k in events && DailyKeyOf(k, events[k].remote) in days
  }

  /** Any set of indexed days carries exactly the bytes and connections of their rows. */
  lemma {:induction false} DaysCarryRows(events: Events, daily: Daily, days: set<DailyKey>)
    requires Indexed(events, daily) && days <= daily.Keys
    ensures Total(ByDailyKey(), daily, days) == Total(ByEvKey(), UseOf(events), RowsIn(events, days))
    decreases days
  {
    hide StrictTotal, Least, DailyKeyOf;
    if days != {} {
      var d := Least(ByDailyKey(), days);
      DaysCarryRows(events, daily, days - {d});
      assert DayIndexed(events, daily, d);
      assert RowsIn(events, days) == RowsIn(events, days - {d}) + Group(events, d);
      TotalUnion(ByEvKey(), UseOf(events), RowsIn(events, days - {d}), Group(events, d));
    } else {
      assert RowsIn(events, days) == {};
    }
  }

  function DaysIn(daily: Daily, nodeId: string): set<DailyKey> {
    set d | d in daily && d.nodeId == nodeId
  }

  /** Byte and connection totals of a node are the same in both tables. */
  lemma NodeTotalsAgree(events: Events, daily: Daily, nodeId: string)
    requires Indexed(events, daily) && nodeId != ""
    ensures Total(ByDailyKey(), daily, DaysIn(daily, nodeId)) == Total(ByEvKey(), UseOf(events), RowsOf(events, nodeId))
  {
    DaysCarryRows(events, daily, DaysIn(daily, nodeId));
    forall k | k in events && k.nodeId == nodeId ensures DailyKeyOf(k, events[k].remote) in DaysIn(daily, nodeId) {
      var d := DailyKeyOf(k, events[k].remote);
      assert DayIndexed(events, daily, d);
      assert k in Group(events, d);
    }
    assert RowsIn(events, DaysIn(daily, nodeId)) == RowsOf(events, nodeId);
  }

  /* ---------- a daily row, column by column ---------- */

  ghost function SumOf<K(!new)>(value: K -> int, keys: set<K>): int {
    if keys == {} then 0 else
      var k :| k in keys;
      value(k) + SumOf(value, keys - {k})
  }

  /** MAX over a nullable text column: NULL exactly when all are, otherwise one of them that none exceeds. */
  ghost predicate IsMaxText<K(!new)>(max: Option<string>, text: K -> Option<string>, keys: set<K>) {
    && (max.None? <==> forall k :: k in keys ==> text(k).None?)
    && (max.Some? ==> exists k :: k in keys && text(k) == max)
    && (forall k :: k in keys && text(k).Some? && max.Some? ==> !TextLess(max.value, text(k).value))
  }

  ghost function UpOf(events: Events): EvKey -> int {
    k => if k in events then events[k].remote.up else 0
  }

  ghost function DownOf(events: Events): EvKey -> int {
    k => if k in events then events[k].remote.dn else 0
  }

  ghost function InstanceIn(events: Events): EvKey -> Option<string> {
    k => if k in events then events[k].remote.instanceId else None
  }

  ghost function TagIn(events: Events): EvKey -> Option<string> {
    k => if k in events then events[k].remote.userTag else None
  }

  /** The order of summing does not matter. */
  lemma {:induction false} SumOfRemove<K(!new)>(value: K -> int, keys: set<K>, k: K)
    requires k in keys
    ensures SumOf(value, keys) == value(k) + SumOf(value, keys - {k})
    decreases keys
  {
    var j :| j in keys && SumOf(value, keys) == value(j) + SumOf(value, keys - {j});
    if j != k {
      SumOfRemove(value, keys - {j}, k);
      SumOfRemove(value, keys - {k}, j);
      assert keys - {j} - {k} == keys - {k} - {j};
    }
  }

  lemma {:induction false} TotalSums(events: Events, keys: set<EvKey>)
    requires keys <= events.Keys
    ensures var t := Total(ByEvKey(), UseOf(events), keys);
            t.up == SumOf(UpOf(events), keys) && t.dn == SumOf(DownOf(events), keys) && t.count == |keys|
    decreases keys
  {
    hide StrictTotal, Total, SumOf;
    if keys == {} {
      EmptyTotal(events);
      EmptySum(UpOf(events));
      EmptySum(DownOf(events));
    } else {
      var k :| k in keys;
      TotalSums(events, keys - {k});
      TotalRemove(ByEvKey(), UseOf(events), keys, k);
      SumOfRemove(UpOf(events), keys, k);
      SumOfRemove(DownOf(events), keys, k);
    }
  }

  lemma EmptySum(value: EvKey -> int)
    ensures SumOf(value, {}) == 0
  {}

  lemma EmptyTotal(events: Events)
    ensures Total(ByEvKey(), UseOf(events), {}) == Usage(0, 0, 0, None, None)
  {}

  lemma {:induction false} TotalMaxima(events: Events, keys: set<EvKey>)
    requires keys <= events.Keys
    ensures var t := Total(ByEvKey(), UseOf(events), keys);
            IsMaxText(t.instanceId, InstanceIn(events), keys) && IsMaxText(t.userTag, TagIn(events), keys)
    decreases keys
  {
    hide StrictTotal, Total;
    if keys == {} {
      EmptyTotal(events);
    } else {
      hide IsMaxText, MaxText;
      var k :| k in keys;
      TotalMaxima(events, keys - {k});
      TotalRemove(ByEvKey(), UseOf(events), keys, k);
      var s := Total(ByEvKey(), UseOf(events), keys - {k});
      OneMoreText(s.instanceId, InstanceIn(events), keys, k);
      OneMoreText(s.userTag, TagIn(events), keys, k);
    }
  }

  lemma OneMoreText(max: Option<string>, text: EvKey -> Option<string>, keys: set<EvKey>, k: EvKey)
    requires k in keys && IsMaxText(max, text, keys - {k})
    ensures IsMaxText(MaxText(max, text(k)), text, keys)
  {
    hide TextLess;
    var max' := MaxText(max, text(k));
    forall j | j in keys && text(j).Some? && max'.Some? ensures !TextLess(max'.value, text(j).value) {
      if max.Some? && text(k).Some? {
        TextTotal(max.value, text(k).value);
        TextTotal(text(k).value, text(j).value);
        TextOneWay(max.value, text(k).value);
        if TextLess(max.value, text(k).value) && TextLess(text(k).value, text(j).value) {
          TextTransitive(max.value, text(k).value, text(j).value);
        }
      } else if text(k).Some? {
        TextTotal(text(k).value, text(k).value);
      }
      assert j in keys - {k} || j == k;
    }
    assert forall j :: j in keys ==> j == k || j in keys - {k};
    if max'.Some? && max' == max && max.Some? {
      var j :| j in keys - {k} && text(j) == max;
      assert j in keys && text(j) == max';
    }
  }

  /** The rows behind a daily row: same node and user, the first ten characters of the start, and the destination
      host, or else the address, or else "(unknown)". */
  lemma GroupInColumns(events: Events, d: DailyKey, k: EvKey)
    ensures k in Group(events, d) <==>
              k in events &&
              var r := events[k].remote;
              && k.nodeId == d.nodeId && r.userId == d.userId
              && d.date <= r.startedAt && |d.date| == (if |r.startedAt| < 10 then |r.startedAt| else 10)
              && d.host == (if r.host.Some? && r.host.value != "" then r.host.value
                            else if r.ip.Some? && r.ip.value != "" then r.ip.value else "(unknown)")
  {}

  /** A daily row holds the sums of the bytes, the number of rows and the greatest instance id and user tag of
      its group. */
  lemma DayInColumns(events: Events, daily: Daily, d: DailyKey)
    requires DayIndexed(events, daily, d) && d in daily
    ensures daily[d].up == SumOf(UpOf(events), Group(events, d)) && daily[d].dn == SumOf(DownOf(events), Group(events, d))
    ensures daily[d].count == |Group(events, d)| > 0
    ensures IsMaxText(daily[d].instanceId, InstanceIn(events), Group(events, d))
    ensures IsMaxText(daily[d].userTag, TagIn(events), Group(events, d))
  {
    hide Total, IsMaxText, StrictTotal;
    TotalSums(events, Group(events, d));
    TotalMaxima(events, Group(events, d));
  }
}
