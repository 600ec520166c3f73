/** The node side of the cursor protocol: vincula-audit.py's export. */
module AuditExport {

  import opened Prelude
  import opened Ordering
  import opened Accounting
  import opened AccountingInvariants
  import opened Wire

  const EXPORT_PROTOCOL_VERSION: int := 2
  const CURSOR_KIND_EXPORT_SEQ: string := "export_seq"

  datatype Status = Fine | CursorExpired | CursorAhead

  /** `Refused` is the argument check that ends the process. */
  datatype Export =
    | Refused
    | Export(status: Status, rows: seq<Logged>, after: nat, maxSeq: nat, pruned: nat, next: nat)

  /** Numbers of the exportable rows above the cursor. */
  function SeqsAfter(db: Db, after: nat): set<nat> {
    set k | k in db.conns && db.conns[k].closedAt.Some? && db.conns[k].exportSeq.Some?
            && db.conns[k].exportSeq.value > after :: db.conns[k].exportSeq.value
  }

  ghost predicate Exportable(db: Db, s: nat) {
    exists k :: k in db.conns && db.conns[k].closedAt.Some? && db.conns[k].exportSeq == Some(s)
  }

  ghost function RowWithSeq(db: Db, s: nat): (e: Logged)
    requires Exportable(db, s)
    ensures e.key in db.conns && db.conns[e.key] == e.row && e.row.exportSeq == Some(s) && e.row.closedAt.Some?
  {
    var k :| k in db.conns && db.conns[k].closedAt.Some? && db.conns[k].exportSeq == Some(s);
    Logged(k, db.conns[k])
  }

  ghost function RowsWithSeqs(db: Db, seqs: seq<nat>): (rows: seq<Logged>)
    requires forall s :: s in seqs ==> Exportable(db, s)
    ensures |rows| == |seqs|
    ensures forall i :: 0 <= i < |rows| ==> rows[i] == RowWithSeq(db, seqs[i])
  {
    if seqs == [] then [] else [RowWithSeq(db, seqs[0])] + RowsWithSeqs(db, seqs[1..])
  }

  lemma SeqsAreExportable(db: Db, after: nat)
    ensures forall s :: s in SeqsAfter(db, after) <==> s > after && Exportable(db, s)
  {}

  /** SELECT ... WHERE export_seq > ? ORDER BY export_seq LIMIT ?. */
  ghost function SelectAfter(db: Db, after: nat, limit: Option<nat>): (rows: seq<Logged>) {
    SeqsAreExportable(db, after);
    RowsWithSeqs(db, Limited(OrderBy(IdLess(), SeqsAfter(db, after)), limit))
  }

  ghost function ExportAfter(db: Db, after: int, limit: Option<int>): (x: Export)
    ensures x.Export? ==> x.after == after && x.maxSeq == db.lastSeq && x.pruned == db.pruned
  {
    if after < 0 || (limit.Some? && limit.value < 1) then Refused
    else if after > 0 && after < db.pruned then
      Export(CursorExpired, [], after, db.lastSeq, db.pruned, after)
    else if after > 0 && after > db.lastSeq then
      Export(CursorAhead, [], after, db.lastSeq, db.pruned, after)
    else
      var rows := SelectAfter(db, after, limit);
      var next := if rows == [] then after else rows[|rows| - 1].row.exportSeq.value;
      Export(Fine, rows, after, db.lastSeq, db.pruned, next)
  }

  /** Row i of an unlimited selection carries the i-th smallest exportable number above the cursor. */
  lemma SelectionOrder(db: Db, after: nat)
    ensures var rows := SelectAfter(db, after, None);
            && (forall i :: 0 <= i < |rows| ==> RowStored(db, rows[i]) && rows[i].row.exportSeq.value > after)
            && (forall i, j :: 0 <= i < j < |rows| ==>
                  rows[i].row.exportSeq.Some? && rows[j].row.exportSeq.Some?
                  && rows[i].row.exportSeq.value < rows[j].row.exportSeq.value)
            && (forall s :: s in SeqsAfter(db, after) ==> exists i :: 0 <= i < |rows| && rows[i].row.exportSeq == Some(s))
  {
    var rows := SelectAfter(db, after, None);
    var seqs := OrderBy(IdLess(), SeqsAfter(db, after));
    NumbersAscend(db, after);
    SelectedRows(db, after);
    hide SelectAfter, OrderBy, SeqsAfter, RowStored;
    forall s | s in SeqsAfter(db, after) ensures exists i :: 0 <= i < |rows| && rows[i].row.exportSeq == Some(s) {
      var i :| 0 <= i < |seqs| && seqs[i] == s;
      assert rows[i].row.exportSeq == Some(s);
    }
  }

  lemma SelectedRows(db: Db, after: nat)
    ensures var rows := SelectAfter(db, after, None);
            var seqs := OrderBy<nat>(IdLess(), SeqsAfter(db, after));
            && |rows| == |seqs|
            && (forall i :: 0 <= i < |rows| ==> RowStored(db, rows[i]) && rows[i].row.exportSeq == Some(seqs[i]) && seqs[i] > after)
  {
    hide StrictTotal, OrderBy, Least, IdLess, Ascending;
    var seqs := OrderBy<nat>(IdLess(), SeqsAfter(db, after));
    SeqsAreExportable(db, after);
    assert Limited(seqs, None) == seqs;
    assert forall s :: s in seqs ==> s > after && Exportable(db, s);
    hide SeqsAfter, Lists;
    RowsHaveNumbers(db, seqs);
    hide RowStored, Exportable;
    forall i | 0 <= i < |seqs| ensures seqs[i] > after { assert seqs[i] in seqs; }
  }

  lemma RowsHaveNumbers(db: Db, seqs: seq<nat>)
    requires forall s :: s in seqs ==> Exportable(db, s)
    ensures forall i :: 0 <= i < |seqs| ==>
              RowStored(db, RowsWithSeqs(db, seqs)[i]) && RowsWithSeqs(db, seqs)[i].row.exportSeq == Some(seqs[i])
  {
    hide Exportable;
    forall i | 0 <= i < |seqs|
      ensures RowStored(db, RowsWithSeqs(db, seqs)[i]) && RowsWithSeqs(db, seqs)[i].row.exportSeq == Some(seqs[i])
    {
      assert seqs[i] in seqs;
    }
  }

  lemma NumbersAscend(db: Db, after: nat)
    ensures var seqs := OrderBy(IdLess(), SeqsAfter(db, after));
            && (forall i, j :: 0 <= i < j < |seqs| ==> seqs[i] < seqs[j])
            && (forall s :: s in seqs <==> s in SeqsAfter(db, after))
  {
    hide StrictTotal, OrderBy, Least, SeqsAfter;
    var seqs := OrderBy(IdLess(), SeqsAfter(db, after));
    forall i, j | 0 <= i < j < |seqs| ensures seqs[i] < seqs[j] { assert IdLess()(seqs[i], seqs[j]); }
  }

  predicate RowStored(db: Db, e: Logged) {
    && e.key in db.conns && db.conns[e.key] == e.row
    && e.row.exportSeq.Some? && e.row.closedAt.Some?
  }

  lemma EveryClosedRowSelected(db: Db, after: nat, k: Key)
    requires Sound(db) && k in db.conns && db.conns[k].exportSeq.Some? && db.conns[k].exportSeq.value > after
    ensures Logged(k, db.conns[k]) in SelectAfter(db, after, None)
  {
    hide StrictTotal, SelectAfter;
    var rows := SelectAfter(db, after, None);
    SelectionOrder(db, after);
    assert RowSound(db, k);
    assert db.conns[k].exportSeq.value in SeqsAfter(db, after);
    var i :| 0 <= i < |rows| && rows[i].row.exportSeq == db.conns[k].exportSeq;
    assert RowsApart(db, k, rows[i].key);
    assert rows[i] == Logged(k, db.conns[k]);
  }

  /** An export lists closed rows above the cursor as stored, in strictly increasing export_seq; the
      next cursor is the last of them and never passes what was allocated. */
  ghost predicate InOrder(db: Db, x: Export)
    requires x.Export?
  {
    && (forall i :: 0 <= i < |x.rows| ==> RowStored(db, x.rows[i]) && x.after < x.rows[i].row.exportSeq.value <= x.next)
    && (forall i, j :: 0 <= i < j < |x.rows| ==> x.rows[i].row.exportSeq.value < x.rows[j].row.exportSeq.value)
    && (if x.rows == [] then x.next == x.after else x.rows[|x.rows| - 1].row.exportSeq == Some(x.next))
    && x.after <= x.next <= db.lastSeq
  }

  lemma StoredWithin(db: Db, e: Logged)
    requires Sound(db) && RowStored(db, e)
    ensures e.row.exportSeq.value <= db.lastSeq
  {
    assert RowSound(db, e.key);
  }

  lemma SelectionInOrder(db: Db, after: nat)
    requires Sound(db) && ExportAfter(db, after, None).status.Fine?
    ensures InOrder(db, ExportAfter(db, after, None))
  {
    hide Sound, StrictTotal, SelectAfter, SeqsAfter;
    var x := ExportAfter(db, after, None);
    SelectionOrder(db, after);
    if x.rows != [] {
      assert RowStored(db, x.rows[|x.rows| - 1]);
      StoredWithin(db, x.rows[|x.rows| - 1]);
    }
  }

  /** Exactly the closed rows above the cursor come out, in order. */
  lemma ExportIsExact(db: Db, after: nat)
    requires Sound(db) && ExportAfter(db, after, None).status.Fine?
    ensures InOrder(db, ExportAfter(db, after, None))
    ensures forall k :: k in db.conns && db.conns[k].exportSeq.Some? && db.conns[k].exportSeq.value > after ==>
              Logged(k, db.conns[k]) in ExportAfter(db, after, None).rows
  {
    SelectionInOrder(db, after);
    hide StrictTotal, SelectAfter, InOrder, Sound;
    forall k | k in db.conns && db.conns[k].exportSeq.Some? && db.conns[k].exportSeq.value > after
      ensures Logged(k, db.conns[k]) in ExportAfter(db, after, None).rows
    {
      EveryClosedRowSelected(db, after, k);
    }
  }

  /** With no hole between the cursor and the pruned maximum, nothing above the cursor was deleted:
      an unexpired positive cursor is at or above it. */
  lemma FineMeansNotPruned(db: Db, after: nat, limit: Option<int>)
    requires ExportAfter(db, after, limit).Export?
    ensures ExportAfter(db, after, limit).status.Fine? <==> after == 0 || db.pruned <= after <= db.lastSeq
  {}

  /** Every outcome of an export and its condition: arguments, a positive cursor below the pruned maximum, one above
      the allocated maximum, or rows; the last three carry the cursor, and next_cursor moves only with rows. */
  lemma ExportOutcome(db: Db, after: int, limit: Option<int>)
    ensures var x := ExportAfter(db, after, limit);
            && (x.Refused? <==> after < 0 || (limit.Some? && limit.value <= 0))
            && (x.Export? ==> x.after == after && x.maxSeq == db.lastSeq && x.pruned == db.pruned)
            && (x.Export? ==> (x.status.CursorExpired? <==> 0 < after < db.pruned))
            && (x.Export? ==> (x.status.CursorAhead? <==> after > 0 && after >= db.pruned && after > db.lastSeq))
            && (x.Export? && x.rows == [] ==> x.next == after) && (x.Export? && !x.status.Fine? ==> x.rows == [])
            && (x.Export? && limit.Some? ==> |x.rows| <= limit.value)
  {
    hide OrderBy, SeqsAfter;
  }

  /* ---------- reading in pages ---------- */

  /** A client following next_cursor until an export is empty; `None` when a page is refused. */
  ghost function ReadPages(db: Db, after: nat, limit: nat): (r: Option<seq<Logged>>)
    requires limit >= 1
    decreases SeqsAfter(db, after)
  {
    var x := ExportAfter(db, after, Some(limit));
    if !x.status.Fine? then None
    else if x.rows == [] then Some([])
    else
      PageAdvances(db, after, limit);
      var rest := ReadPages(db, x.next, limit);
      if rest.None? then None else Some(x.rows + rest.value)
  }

  lemma PageAdvances(db: Db, after: nat, limit: nat)
    requires limit >= 1 && ExportAfter(db, after, Some(limit)).status.Fine?
    requires ExportAfter(db, after, Some(limit)).rows != []
    ensures var x := ExportAfter(db, after, Some(limit));
            x.next in SeqsAfter(db, after) && SeqsAfter(db, x.next) < SeqsAfter(db, after)
  {}

  /** No surviving number below the pruned maximum, or a cursor that is already past it. */
  ghost predicate PagingSafe(db: Db, after: nat) {
    && after <= db.lastSeq
    && (db.pruned <= after || (after == 0 && forall s :: s in SeqsAfter(db, 0) ==> db.pruned <= s))
  }

  lemma {:induction false} RowsWithSeqsConcat(db: Db, a: seq<nat>, b: seq<nat>)
    requires forall s :: s in a + b ==> Exportable(db, s)
    ensures (forall s :: s in a ==> Exportable(db, s)) && (forall s :: s in b ==> Exportable(db, s))
    ensures RowsWithSeqs(db, a + b) == RowsWithSeqs(db, a) + RowsWithSeqs(db, b)
  {}

  lemma AfterIsAbove(db: Db, after: nat)
    ensures SeqsAfter(db, after) == Above(IdLess(), SeqsAfter(db, 0), after)
  {}

  lemma NumbersSplit(db: Db, after: nat, page: seq<nat>, limit: nat)
    requires limit >= 1 && page == Limited(OrderBy(IdLess(), SeqsAfter(db, after)), Some(limit)) && page != []
    ensures OrderBy(IdLess(), SeqsAfter(db, after))
            == page + OrderBy(IdLess(), SeqsAfter(db, page[|page| - 1]))
  {
    hide OrderBy, SeqsAfter, Above, StrictTotal, IdLess;
    AfterIsAbove(db, after);
    AfterIsAbove(db, page[|page| - 1]);
    assert page == Page(IdLess(), SeqsAfter(db, 0), after, limit);
    PageRest(IdLess(), SeqsAfter(db, 0), after, limit);
  }

  /** The first page plus everything above its last row is everything. */
  lemma PageThenRest(db: Db, after: nat, limit: nat)
    requires limit >= 1 && ExportAfter(db, after, Some(limit)).status.Fine?
    requires ExportAfter(db, after, Some(limit)).rows != []
    ensures var x := ExportAfter(db, after, Some(limit));
            SelectAfter(db, after, None) == x.rows + SelectAfter(db, x.next, None)
  {
    hide OrderBy, SeqsAfter, StrictTotal, IdLess, Exportable, Ascending, Lists;
    var page := Limited(OrderBy(IdLess(), SeqsAfter(db, after)), Some(limit));
    SeqsAreExportable(db, after);
    var next := ExportAfter(db, after, Some(limit)).next;
    assert |page| == |ExportAfter(db, after, Some(limit)).rows|;
    assert next == page[|page| - 1];
    NumbersSplit(db, after, page, limit);
    SeqsAreExportable(db, next);
    var rest := OrderBy(IdLess(), SeqsAfter(db, next));
    ListedAreExportable(db, after);
    RowsWithSeqsConcat(db, page, rest);
  }

  lemma ListedAreExportable(db: Db, after: nat)
    ensures forall s :: s in OrderBy(IdLess(), SeqsAfter(db, after)) ==> Exportable(db, s)
  {}

  /** From a safe start, pages of any size chained by next_cursor end and equal the whole export. */
  lemma {:induction false} PagesAreWhole(db: Db, after: nat, limit: nat)
    requires limit >= 1 && PagingSafe(db, after) && Sound(db)
    ensures ReadPages(db, after, limit) == Some(SelectAfter(db, after, None))
    decreases SeqsAfter(db, after)
  {
    var x := ExportAfter(db, after, Some(limit));
    if x.rows == [] {
      assert SeqsAfter(db, after) == {};
    } else {
      PageAdvances(db, after, limit);
      PageThenRest(db, after, limit);
      NextStaysSafe(db, after, x.next);
      PagesAreWhole(db, x.next, limit);
    }
  }

  lemma NextStaysSafe(db: Db, after: nat, next: nat)
    requires Sound(db) && PagingSafe(db, after) && next in SeqsAfter(db, after)
    ensures PagingSafe(db, next)
  {}

  /** From any other start some page size fails: one row at a time runs into CURSOR_EXPIRED. */
  lemma UnsafeStartBreaks(db: Db, after: nat)
    requires !PagingSafe(db, after) && Sound(db)
    ensures ReadPages(db, after, 1).None?
  {
    hide StrictTotal, OrderBy, Least;
    if after == 0 {
      var low :| low in SeqsAfter(db, 0) && low < db.pruned;
      var seqs := OrderBy(IdLess(), SeqsAfter(db, 0));
      assert low in seqs;
      var i :| 0 <= i < |seqs| && seqs[i] == low;
      assert i > 0 ==> IdLess()(seqs[0], seqs[i]);
      assert seqs[0] in seqs;
      SeqsAreExportable(db, 0);
      var x := ExportAfter(db, 0, Some(1));
      assert Limited(seqs, Some(1)) == [seqs[0]];
      assert x.next == seqs[0];
      assert ExportAfter(db, x.next, Some(1)).status.CursorExpired?;
    }
  }

  /** Paging works for every page size exactly from the safe starts. */
  lemma PagingWorksIffSafe(db: Db, after: nat)
    requires Sound(db)
    ensures (forall limit: nat {:trigger ReadPages(db, after, limit)} :: limit >= 1 ==>
               ReadPages(db, after, limit) == Some(SelectAfter(db, after, None)))
            <==> PagingSafe(db, after)
  {
    if PagingSafe(db, after) {
      forall limit: nat | limit >= 1 ensures ReadPages(db, after, limit) == Some(SelectAfter(db, after, None)) {
        PagesAreWhole(db, after, limit);
      }
    } else {
      UnsafeStartBreaks(db, after);
    }
  }
}
