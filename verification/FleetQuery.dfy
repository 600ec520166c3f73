/** Reading the cached audit: query_fleet_audit and its three-part keyset cursor. */
module FleetQuery {

  import opened Prelude
  import opened Ordering
  import opened Lexicographic
  import opened CacheTables

  /** ORDER BY started_at, event_id, node_id. */
  datatype AuditKey = AuditKey(startedAt: string, eventId: int, nodeId: string)

  function ByAuditKey(): (lt: (AuditKey, AuditKey) -> bool)
    ensures StrictTotal(lt)
  {
    hide StrictTotal;
    On((k: AuditKey) => (k.startedAt, (k.eventId, k.nodeId)), Then(ByText(), Then(ByInt(), ByText())))
  }

  /** The cursor condition as the query spells it out. */
  predicate PastCursor(k: AuditKey, c: AuditKey) {
    || ByText()(c.startedAt, k.startedAt)
    || (k.startedAt == c.startedAt && k.eventId > c.eventId)
    || (k.startedAt == c.startedAt && k.eventId == c.eventId && ByText()(c.nodeId, k.nodeId))
  }

  /** Sorting and the cursor condition use the same order. */
  lemma SameOrder(a: AuditKey, b: AuditKey)
    ensures ByAuditKey()(a, b) <==> PastCursor(b, a)
  {
    hide StrictTotal;
  }

  /** `keep` stands for the optional destination, address, port and network filters. */
  datatype Query = Query(userId: string, from: string, to: string, nodeId: string, keep: Remote -> bool)

  /** The connection's interval meets [from, to). */
  predicate Overlaps(r: Remote, from: string, to: string) {
    TextLess(r.startedAt, to) && !TextLess(if r.closedAt.Some? then r.closedAt.value else r.lastSeen, from)
  }

  predicate Matches(k: EvKey, r: Remote, q: Query) {
    && Overlaps(r, q.from, q.to) && r.userId == q.userId && k.nodeId != ""
    && (q.nodeId != "" ==> k.nodeId == q.nodeId) && q.keep(r)
  }

  /** The filter column by column. */
  lemma MatchesInColumns(k: EvKey, r: Remote, q: Query)
    ensures Matches(k, r, q) <==>
              && r.userId == q.userId && k.nodeId != "" && (q.nodeId == "" || k.nodeId == q.nodeId) && q.keep(r)
              && TextLess(r.startedAt, q.to)
              && (r.closedAt.Some? ==> !TextLess(r.closedAt.value, q.from)) && (r.closedAt.None? ==> !TextLess(r.lastSeen, q.from))
  {}

  /** An event is in the window exactly when some instant is both in [from, to) and between the event's start and
      its end, which is its close, or for an open event its last sighting. */
  lemma OverlapIsSharedInstant(r: Remote, from: string, to: string)
    requires TextLess(from, to) && !TextLess(if r.closedAt.Some? then r.closedAt.value else r.lastSeen, r.startedAt)
    ensures Overlaps(r, from, to) <==>
              exists at: string :: !TextLess(at, from) && TextLess(at, to) && !TextLess(at, r.startedAt)
                                   && !TextLess(if r.closedAt.Some? then r.closedAt.value else r.lastSeen, at)
  {
    hide TextLess;
    var end := if r.closedAt.Some? then r.closedAt.value else r.lastSeen;
    TextTotal(from, from);
    TextTotal(r.startedAt, r.startedAt);
    TextTotal(r.startedAt, from);
    if Overlaps(r, from, to) {
      TextOneWay(r.startedAt, from);
      var at := if TextLess(r.startedAt, from) then from else r.startedAt;
      assert !TextLess(at, from) && TextLess(at, to) && !TextLess(at, r.startedAt) && !TextLess(end, at);
    }
    if at: string :| !TextLess(at, from) && TextLess(at, to) && !TextLess(at, r.startedAt) && !TextLess(end, at) {
      Before(r.startedAt, at, to);
      NotBefore(end, at, from);
    }
  }

  lemma Before(a: string, b: string, c: string)
    requires !TextLess(b, a) && TextLess(b, c)
    ensures TextLess(a, c)
  {
    TextTotal(a, b);
    if a != b { TextTransitive(a, b, c); }
  }

  lemma NotBefore(a: string, b: string, c: string)
    requires !TextLess(a, b) && !TextLess(b, c)
    ensures !TextLess(a, c)
  {
    TextTotal(a, b);
    TextTotal(b, c);
    TextOneWay(a, c);
    if a != b && b != c { TextTransitive(c, b, a); }
  }

  datatype FleetRow = FleetRow(key: EvKey, remote: Remote)

  function KeyOf(row: FleetRow): AuditKey {
    AuditKey(row.remote.startedAt, row.key.eventId, row.key.nodeId)
  }

  function Selected(events: Events, q: Query): set<AuditKey> {
    set k | k in events && Matches(k, events[k].remote, q) :: KeyOf(FleetRow(k, events[k].remote))
  }

  predicate Held(events: Events, a: AuditKey) {
    EvKey(a.nodeId, a.eventId) in events
  }

  function RowAt(events: Events, a: AuditKey): (row: FleetRow)
    requires Held(events, a)
  {
    FleetRow(EvKey(a.nodeId, a.eventId), events[EvKey(a.nodeId, a.eventId)].remote)
  }

  function RowsAt(events: Events, keys: seq<AuditKey>): (rows: seq<FleetRow>)
    requires forall a :: a in keys ==> Held(events, a)
    ensures |rows| == |keys| && forall i :: 0 <= i < |rows| ==> rows[i] == RowAt(events, keys[i])
  {
    if keys == [] then [] else [RowAt(events, keys[0])] + RowsAt(events, keys[1..])
  }

  /** What the caller passes to continue: nothing, or the three parts, any of which may be missing. */
  datatype After = FromStart | After(startedAt: string, eventId: Option<int>, nodeId: Option<string>)

  predicate Complete(after: After) {
    after.After? ==> after.eventId.Some? && after.nodeId.Some? && after.nodeId.value != ""
  }

  lemma CompleteCursors(after: After)
    ensures Complete(after) <==> after.FromStart? || (after.eventId.Some? && after.nodeId.Some? && after.nodeId.value != "")
  {}

  function Past(events: Events, q: Query, after: After): set<AuditKey>
    requires Complete(after)
  {
    if after.FromStart? then Selected(events, q)
    else Above(ByAuditKey(), Selected(events, q), AuditKey(after.startedAt, after.eventId.value, after.nodeId.value))
  }

  /** The matching keys past the cursor, in order. */
  function Ordered(events: Events, q: Query, after: After): (keys: seq<AuditKey>)
    requires Complete(after)
    ensures forall a :: a in keys ==> Held(events, a)
    ensures Lists(keys, Past(events, q, after))
  {
    hide StrictTotal, Least, PastCursor, Matches;
    var keys := OrderBy(ByAuditKey(), Past(events, q, after));
    assert forall a :: a in Past(events, q, after) ==> Held(events, a);
    keys
  }

  /** query_fleet_audit; `None` where it ends the process. */
  function QueryFleetAudit(events: Events, q: Query, after: After, limit: Option<int>): (r: Option<seq<FleetRow>>)
    ensures r.Some? <==> Complete(after) && (limit.Some? ==> limit.value >= 1)
  {
    if !Complete(after) || (limit.Some? && limit.value < 1) then None else
      hide Ordered, Held, Lists;
      var keys := Limited(Ordered(events, q, after), limit);
      assert forall a :: a in keys ==> Held(events, a);
      Some(RowsAt(events, keys))
  }

  ghost predicate Sorted(rows: seq<FleetRow>) {
    forall i, j :: 0 <= i < j < |rows| ==> PastCursor(KeyOf(rows[j]), KeyOf(rows[i]))
  }

  /** The unlimited answer: exactly the matching events, each once, sorted by the three keys. */
  lemma QueryIsExact(events: Events, q: Query)
    ensures var rows := QueryFleetAudit(events, q, FromStart, None);
            && rows.Some? && Sorted(rows.value)
            && (forall k, r :: FleetRow(k, r) in rows.value <==> k in events && events[k].remote == r && Matches(k, r, q))
  {
    hide StrictTotal, Ordered, PastCursor, Matches;
    var keys := Ordered(events, q, FromStart);
    var rows := QueryFleetAudit(events, q, FromStart, None).value;
    assert Limited(keys, None) == keys;
    forall i | 0 <= i < |keys|
      ensures KeyOf(rows[i]) == keys[i] && rows[i].key in events && events[rows[i].key].remote == rows[i].remote
      ensures Matches(rows[i].key, rows[i].remote, q)
    {
      assert keys[i] in keys;
      SelectedRow(events, q, keys[i]);
    }
    OrderedIsSorted(events, q, FromStart);
    forall k, r | k in events && events[k].remote == r && Matches(k, r, q) ensures FleetRow(k, r) in rows {
      assert KeyOf(FleetRow(k, r)) in Selected(events, q);
      assert KeyOf(FleetRow(k, r)) in keys;
      var i :| 0 <= i < |keys| && keys[i] == KeyOf(FleetRow(k, r));
      assert rows[i] == FleetRow(k, r);
    }
  }

  lemma SelectedRow(events: Events, q: Query, a: AuditKey)
    requires a in Selected(events, q)
    ensures Held(events, a) && KeyOf(RowAt(events, a)) == a
    ensures Matches(RowAt(events, a).key, RowAt(events, a).remote, q)
  {
    hide Matches;
  }

  lemma OrderedIsSorted(events: Events, q: Query, after: After)
    requires Complete(after)
    ensures var keys := Ordered(events, q, after); forall i, j :: 0 <= i < j < |keys| ==> PastCursor(keys[j], keys[i])
  {
    hide StrictTotal, OrderBy, Least, PastCursor, Past;
    var keys := Ordered(events, q, after);
    forall i, j | 0 <= i < j < |keys| ensures PastCursor(keys[j], keys[i]) {
      assert ByAuditKey()(keys[i], keys[j]);
      SameOrder(keys[i], keys[j]);
    }
  }

  function AfterRow(row: FleetRow): After {
    After(row.remote.startedAt, Some(row.key.eventId), Some(row.key.nodeId))
  }

  /** The next cursor selects exactly what the page left out. */
  lemma PageAdvances(events: Events, q: Query, after: After, limit: nat, page: seq<FleetRow>)
    requires Complete(after) && limit >= 1 && QueryFleetAudit(events, q, after, Some(limit)) == Some(page) && page != []
    ensures var next := AfterRow(page[|page| - 1]);
            && Complete(next)
            && Ordered(events, q, after) == Limited(Ordered(events, q, after), Some(limit)) + Ordered(events, q, next)
  {
    hide StrictTotal, OrderBy, Least, Selected, Ascending, ByAuditKey;
    var lt := ByAuditKey();
    var all := Past(events, q, after);
    var keys := Limited(Ordered(events, q, after), Some(limit));
    assert keys[0] in Ordered(events, q, after);
    CutPage(lt, all, limit);
    var last := keys[|keys| - 1];
    SelectedRow(events, q, last);
    assert page[|page| - 1] == RowAt(events, last);
    SelectedNode(events, q, last);
    AboveAbove(events, q, after, last);
  }

  lemma SelectedNode(events: Events, q: Query, a: AuditKey)
    requires a in Selected(events, q)
    ensures a.nodeId != ""
  {}

  lemma AboveAbove(events: Events, q: Query, after: After, last: AuditKey)
    requires Complete(after) && last in Past(events, q, after)
    ensures Above(ByAuditKey(), Past(events, q, after), last) == Above(ByAuditKey(), Selected(events, q), last)
  {
    hide OrderBy, Least, ByAuditKey, Selected;
  }

  function PageOf(events: Events, q: Query, after: After, limit: nat): (page: seq<FleetRow>)
    requires Complete(after) && limit >= 1
    ensures QueryFleetAudit(events, q, after, Some(limit)) == Some(page)
    ensures page != [] ==> var next := AfterRow(page[|page| - 1]);
                           Complete(next) && |Ordered(events, q, next)| < |Ordered(events, q, after)|
  {
    var page := QueryFleetAudit(events, q, after, Some(limit)).value;
    assert page != [] ==> Limited(Ordered(events, q, after), Some(limit)) != [];
    hide Past, Ordered, Held, Lists, StrictTotal;
    if page != [] then
      PageAdvances(events, q, after, limit, page);
      page
    else page
  }

  /** A client continuing from the last row of each page until a page is empty. */
  function ReadPages(events: Events, q: Query, after: After, limit: nat): seq<FleetRow>
    requires Complete(after) && limit >= 1
    decreases |Ordered(events, q, after)|
  {
    hide Past, Ordered, QueryFleetAudit, AfterRow, PageOf;
    var page := PageOf(events, q, after, limit);
    if page == [] then [] else page + ReadPages(events, q, AfterRow(page[|page| - 1]), limit)
  }

  lemma {:induction false} RowsAtConcat(events: Events, a: seq<AuditKey>, b: seq<AuditKey>)
    requires forall x :: x in a + b ==> Held(events, x)
    ensures (forall x :: x in a ==> x in a + b) && (forall x :: x in b ==> x in a + b)
    ensures RowsAt(events, a + b) == RowsAt(events, a) + RowsAt(events, b)
  {}

  /** Pages of any size, from any cursor, give the whole ordered answer: nothing repeated, nothing skipped. */
  lemma {:induction false} PagesAreWhole(events: Events, q: Query, after: After, limit: nat)
    requires Complete(after) && limit >= 1
    ensures QueryFleetAudit(events, q, after, None) == Some(ReadPages(events, q, after, limit))
    decreases |Ordered(events, q, after)|
  {
    hide StrictTotal, Ordered, Past, Held, Lists;
    var page := PageOf(events, q, after, limit);
    var keys := Ordered(events, q, after);
    if page != [] {
      PageAdvances(events, q, after, limit, page);
      var next := AfterRow(page[|page| - 1]);
      PagesAreWhole(events, q, next, limit);
      RowsAtConcat(events, Limited(keys, Some(limit)), Ordered(events, q, next));
    } else {
      assert keys == [];
    }
  }
}
