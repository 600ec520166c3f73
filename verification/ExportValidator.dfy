/** The controller's gate in front of every import: validate_export_batch. */
module ExportValidator {

  import opened Prelude
  import opened Accounting
  import opened AccountingInvariants
  import opened AuditExport
  import opened ExportStream
  import opened Wire

  /** Row i, seen with the sequence number before it, is acceptable. */
  predicate RowFits(rows: seq<WireRow>, i: nat, after: int, nodeId: string)
    requires i < |rows|
  {
    var r := rows[i];
    && r.WireRow? && r.eventId.JInt? && r.exportSeq.JInt?
    && r.exportSeq.n > after
    && OptionalText(r.nodeId) == Some(nodeId)
    && (i > 0 && rows[i - 1].WireRow? && rows[i - 1].exportSeq.JInt? ==> rows[i - 1].exportSeq.n < r.exportSeq.n)
  }

  /** The header agrees with what was asked for and with the number of rows delivered. */
  predicate HeaderFits(meta: Meta, count: nat, after: int, nodeId: string, instanceId: Option<string>) {
    && meta.ok == JBool(true) && !Truthy(meta.error)
    && EqualsInt(meta.protocol, EXPORT_PROTOCOL_VERSION)
    && OptionalText(meta.cursorKind) == Some(CURSOR_KIND_EXPORT_SEQ)
    && meta.after == JInt(after) && meta.count == JInt(count)
    && OptionalText(meta.nodeId) == Some(nodeId)
    && (instanceId.Some? && instanceId.value != "" ==> OptionalText(meta.instanceId) == instanceId)
  }

  /** The declared cursor is the last delivered number, or the old cursor when nothing was delivered. */
  predicate CursorFits(meta: Meta, rows: seq<WireRow>, after: int) {
    && meta.nextCursor.JInt?
    && (if rows == [] then meta.nextCursor.n == after
        else
          var last := rows[|rows| - 1];
          && last.WireRow? && last.exportSeq == meta.nextCursor
          && (meta.maxSeq.JNull? || (meta.maxSeq.JInt? && meta.nextCursor.n <= meta.maxSeq.n)))
  }

  ghost predicate Acceptable(meta: Option<Meta>, rows: seq<WireRow>, after: int, nodeId: string, instanceId: Option<string>) {
    && meta.Some?
    && HeaderFits(meta.value, |rows|, after, nodeId, instanceId)
    && (forall i :: 0 <= i < |rows| ==> RowFits(rows, i, after, nodeId))
    && CursorFits(meta.value, rows, after)
  }

  /** The header check in terms of the JSON values. */
  lemma HeaderInColumns(m: Meta, count: nat, after: int, nodeId: string, instanceId: Option<string>)
    ensures HeaderFits(m, count, after, nodeId, instanceId) <==>
              && m.ok == JBool(true)
              && (m.error in {JNull, JBool(false), JInt(0), JStr("")} || (m.error.JOther? && !m.error.truthy))
              && (m.protocol == JInt(2) || (m.protocol.JOther? && m.protocol.equals == Some(2)))
              && OptionalText(m.cursorKind) == Some("export_seq") && OptionalText(m.nodeId) == Some(nodeId)
              && m.after == JInt(after) && m.count == JInt(count)
              && (instanceId.Some? && instanceId.value != "" ==> OptionalText(m.instanceId) == instanceId)
  {
    hide OptionalText;
  }

  method HeaderProblem(m: Meta, count: nat, after: int, nodeId: string, instanceId: Option<string>)
    returns (problem: Option<string>)
    ensures problem.None? <==> HeaderFits(m, count, after, nodeId, instanceId)
  {
    if m.ok != JBool(true) { return Some("export meta ok is not true"); }
    if Truthy(m.error) { return Some("export meta error"); }
    if !EqualsInt(m.protocol, EXPORT_PROTOCOL_VERSION) { return Some("export protocol_version"); }
    if OptionalText(m.cursorKind) != Some(CURSOR_KIND_EXPORT_SEQ) { return Some("export cursor_kind"); }
    if !m.after.JInt? { return Some("export meta after is not an int"); }
    if m.after.n != after { return Some("export meta after"); }
    if !m.count.JInt? { return Some("export meta count is not an int"); }
    if m.count.n != count { return Some("export meta count"); }
    var nid := OptionalText(m.nodeId);
    if nid.None? { return Some("export meta node_id is missing"); }
    if nid.value != nodeId { return Some("export meta node_id"); }
    if instanceId.Some? && instanceId.value != "" {
      var iid := OptionalText(m.instanceId);
      if iid.None? { return Some("export meta instance_id is missing"); }
      if iid.value != instanceId.value { return Some("export meta instance_id"); }
    }
    return None;
  }

  /** `seqs` lists the sequence numbers of the first rows. */
  ghost predicate Numbered(rows: seq<WireRow>, seqs: seq<int>) {
    && |seqs| <= |rows|
    && forall i :: 0 <= i < |seqs| ==> rows[i].WireRow? && rows[i].exportSeq == JInt(seqs[i])
  }

  /** The loop keeps a list and a set of the numbers seen so far. */
  method RowProblem(rows: seq<WireRow>, after: int, nodeId: string)
    returns (problem: Option<string>, seqs: seq<int>)
    ensures problem.None? <==> forall i :: 0 <= i < |rows| ==> RowFits(rows, i, after, nodeId)
    ensures problem.None? ==> |seqs| == |rows| && Numbered(rows, seqs)
  {
    hide OptionalText;
    seqs := [];
    var seen: set<int> := {};
    var i := 0;
    while i < |rows|
      invariant 0 <= i <= |rows| && |seqs| == i
      invariant forall j :: 0 <= j < i ==> RowFits(rows, j, after, nodeId)
      invariant Numbered(rows, seqs)
      invariant i > 0 ==> forall s :: s in seen ==> s <= seqs[i - 1]
      invariant i > 0 ==> seqs[i - 1] in seen
      invariant i == 0 ==> seen == {}
    {
      var row := rows[i];
      if row.NotAnObject? { problem := Some("not an object"); break; }
      if !row.eventId.JInt? { problem := Some("event_id is not an int"); break; }
      if !row.exportSeq.JInt? { problem := Some("export_seq is not an int"); break; }
      var s := row.exportSeq.n;
      if s <= after { problem := Some("export_seq <= after"); break; }
      assert s in seen ==> i > 0 && s <= seqs[i - 1] && rows[i - 1].exportSeq == JInt(seqs[i - 1]);
      if s in seen { problem := Some("duplicate export_seq"); break; }
      seen := seen + {s};
      assert i > 0 ==> rows[i - 1].exportSeq == JInt(seqs[i - 1]);
      if i > 0 && s <= seqs[i - 1] { problem := Some("export_seq not strictly increasing"); break; }
      seqs := seqs + [s];
      var rowNid := OptionalText(row.nodeId);
      if rowNid.None? { problem := Some("row node_id is missing"); break; }
      if rowNid.value != nodeId { problem := Some("row node_id"); break; }
      i := i + 1;
    }
    if i == |rows| {
      problem := None;
    } else {
      assert !RowFits(rows, i, after, nodeId);
    }
  }

  method ValidateExportBatch(meta: Option<Meta>, rows: seq<WireRow>, after: int, nodeId: string,
                             instanceId: Option<string>)
    returns (r: Result<int, string>)
    ensures r.Ok? <==> Acceptable(meta, rows, after, nodeId, instanceId)
    ensures r.Ok? ==> meta.value.nextCursor == JInt(r.value)
  {
    hide HeaderFits, RowFits;
    if meta.None? { return Err("missing export meta"); }
    var m := meta.value;
    var header := HeaderProblem(m, |rows|, after, nodeId, instanceId);
    if header.Some? { return Err(header.value); }
    var problem, seqs := RowProblem(rows, after, nodeId);
    if problem.Some? { return Err(problem.value); }
    if seqs != [] && !m.maxSeq.JNull? {
      if !m.maxSeq.JInt? { return Err("max_export_seq is not an int"); }
      if seqs[|seqs| - 1] > m.maxSeq.n { return Err("row export_seq exceeds max_export_seq"); }
    }
    if !m.nextCursor.JInt? { return Err("next_cursor is not an int"); }
    if seqs != [] {
      if m.nextCursor.n != seqs[|seqs| - 1] { return Err("next_cursor != last export_seq"); }
    } else if m.nextCursor.n != after {
      return Err("next_cursor != after (empty batch)");
    }
    return Ok(m.nextCursor.n);
  }

  /** Whoever sent it, an accepted batch is strictly increasing and lies in (after, next_cursor]. */
  lemma {:induction false} AcceptedIsIncreasing(meta: Option<Meta>, rows: seq<WireRow>, after: int, nodeId: string,
                                                instanceId: Option<string>, i: nat, j: nat)
    requires Acceptable(meta, rows, after, nodeId, instanceId) && i <= j < |rows|
    ensures rows[i].WireRow? && rows[j].WireRow? && rows[i].exportSeq.JInt? && rows[j].exportSeq.JInt?
    ensures i < j ==> rows[i].exportSeq.n < rows[j].exportSeq.n
    ensures after < rows[i].exportSeq.n <= meta.value.nextCursor.n
    decreases |rows| - i
  {
    hide OptionalText, HeaderFits;
    assert RowFits(rows, i, after, nodeId) && RowFits(rows, j, after, nodeId);
    if i + 1 < |rows| {
      assert RowFits(rows, i + 1, after, nodeId);
      AcceptedIsIncreasing(meta, rows, after, nodeId, instanceId, i + 1, if j > i then j else i + 1);
    }
  }

  /** The stored label is the node's, or missing on a reseed, which fills it in. */
  ghost predicate LabelOk(e: Logged, nodeId: string, stamp: bool) {
    var stored := OptionalText(JStr(e.row.nodeId));
    stored == Some(nodeId) || (stamp && stored.None?)
  }

  lemma DeliveredLabel(e: Logged, row: WireRow, nodeId: string, instanceId: Option<string>, stamp: bool)
    requires Trimmed(nodeId) && Delivered(e, row, nodeId, instanceId, stamp) && LabelOk(e, nodeId, stamp)
    requires e.row.exportSeq.Some?
    ensures row.WireRow? && row.eventId == JInt(e.row.eventId) && row.exportSeq == JInt(e.row.exportSeq.value)
    ensures OptionalText(row.nodeId) == Some(nodeId)
  {}

  /** Completeness: every successful export of a sound database is accepted, with the same cursor. */
  lemma HonestExportAccepted(db: Db, after: nat, nodeId: string, instanceId: Option<string>, stamp: bool)
    requires Sound(db) && Trimmed(nodeId) && (instanceId.Some? ==> Trimmed(instanceId.value))
    requires Serve(db, after, Some(nodeId), instanceId, stamp).code == 0
    requires forall i :: 0 <= i < |ExportAfter(db, after, None).rows| ==>
               LabelOk(ExportAfter(db, after, None).rows[i], nodeId, stamp)
    ensures var r := Serve(db, after, Some(nodeId), instanceId, stamp);
            && r.rows.Some? && Acceptable(r.meta, r.rows.value, after, nodeId, instanceId)
            && r.meta.value.nextCursor == JInt(ExportAfter(db, after, None).next)
  {
    hide Sound, ExportAfter, Delivered, LabelOk, OptionalText, Answer, Trimmed;
    var x := ExportAfter(db, after, None);
    var r := Serve(db, after, Some(nodeId), instanceId, stamp);
    AnswerDelivers(x, nodeId, instanceId, stamp);
    ExportIsExact(db, after);
    HonestHeader(x, nodeId, instanceId);
    forall i | 0 <= i < |r.rows.value| ensures RowFits(r.rows.value, i, after, nodeId) {
      DeliveredLabel(x.rows[i], r.rows.value[i], nodeId, instanceId, stamp);
      if i > 0 { DeliveredLabel(x.rows[i - 1], r.rows.value[i - 1], nodeId, instanceId, stamp); }
    }
    if x.rows != [] {
      var last := |x.rows| - 1;
      DeliveredLabel(x.rows[last], r.rows.value[last], nodeId, instanceId, stamp);
    }
  }

  lemma HonestHeader(x: Export, nodeId: string, instanceId: Option<string>)
    requires x.Export? && x.status.Fine? && Trimmed(nodeId) && (instanceId.Some? ==> Trimmed(instanceId.value))
    ensures HeaderFits(MetaOf(x, Some(nodeId), instanceId), |x.rows|, x.after, nodeId, instanceId)
  {}
}
