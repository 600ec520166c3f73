/** From export rows to the JSON the controller reads: encoding, identity stamping, exit codes. */
module ExportStream {

  import opened Prelude
  import opened Accounting
  import opened AccountingInvariants
  import opened AuditExport
  import opened Wire

  function Encode(e: Logged): WireRow {
    var r := e.row;
    WireRow(
      JInt(r.eventId), if r.exportSeq.Some? then JInt(r.exportSeq.value) else JNull,
      JStr(e.key.cid), JInt(e.key.gen), JStr(r.tags.userId), OptionText(r.tags.userTag),
      JStr(r.nodeId), OptionText(r.instanceId), OptionText(r.tags.host), OptionText(r.tags.ip),
      OptionInt(r.tags.port), OptionText(r.tags.network), JInt(r.up), JInt(r.dn),
      JStr(Iso(r.startedAt)), JStr(Iso(r.lastSeen)),
      if r.closedAt.Some? then JStr(Iso(r.closedAt.value)) else JNull)
  }

  function EncodeAll(rows: seq<Logged>): (out: seq<WireRow>)
    ensures |out| == |rows| && forall i :: 0 <= i < |out| ==> out[i] == Encode(rows[i])
  {
    if rows == [] then [] else [Encode(rows[0])] + EncodeAll(rows[1..])
  }

  /** Fill a missing identity field; a different one is refused. */
  function Fill(current: Json, overlay: string): Option<Json> {
    var text := OptionalText(current);
    if text.None? then Some(JStr(overlay))
    else if text.value == overlay then Some(current)
    else None
  }

  function StampRow(row: WireRow, nodeId: string, instanceId: Option<string>): Option<WireRow> {
    if row.NotAnObject? then None else
      var nid := Fill(row.nodeId, nodeId);
      if nid.None? then None
      else if instanceId.None? then Some(row.(nodeId := nid.value))
      else
        var iid := Fill(row.instanceId, instanceId.value);
        if iid.None? then None else Some(row.(nodeId := nid.value, instanceId := iid.value))
  }

  ghost predicate Stamps(rows: seq<WireRow>, nodeId: Option<string>, instanceId: Option<string>) {
    nodeId.Some? && forall i :: 0 <= i < |rows| ==> StampRow(rows[i], nodeId.value, instanceId).Some?
  }

  ghost function Stamped(rows: seq<WireRow>, nodeId: string, instanceId: Option<string>): (out: seq<WireRow>)
    requires Stamps(rows, Some(nodeId), instanceId)
    ensures |out| == |rows| && forall i :: 0 <= i < |out| ==> Some(out[i]) == StampRow(rows[i], nodeId, instanceId)
  {
    if rows == [] then [] else
      assert forall i :: 0 <= i < |rows| - 1 ==> rows[1..][i] == rows[i + 1];
      [StampRow(rows[0], nodeId, instanceId).value] + Stamped(rows[1..], nodeId, instanceId)
  }

  /** stamp_export_rows: fills the row dictionaries in place, and gives up at the first mismatch. */
  method StampExportRows(rows: array<WireRow>, nodeId: Option<string>, instanceId: Option<string>)
    returns (ok: bool)
    modifies rows
    ensures ok <==> Stamps(old(rows[..]), nodeId, instanceId)
    ensures ok ==> rows[..] == Stamped(old(rows[..]), nodeId.value, instanceId)
  {
    if nodeId.None? {
      return false;
    }
    var i := 0;
    while i < rows.Length
      invariant 0 <= i <= rows.Length
      invariant forall j :: 0 <= j < i ==> Some(rows[j]) == StampRow(old(rows[j]), nodeId.value, instanceId)
      invariant forall j :: i <= j < rows.Length ==> rows[j] == old(rows[j])
    {
      if rows[i].NotAnObject? {
        assert StampRow(old(rows[..])[i], nodeId.value, instanceId).None?;
        return false;
      }
      var nid := Fill(rows[i].nodeId, nodeId.value);
      if nid.None? {
        assert StampRow(old(rows[..])[i], nodeId.value, instanceId).None?;
        return false;
      }
      var row := rows[i].(nodeId := nid.value);
      if instanceId.Some? {
        var iid := Fill(rows[i].instanceId, instanceId.value);
        if iid.None? {
          assert StampRow(old(rows[..])[i], nodeId.value, instanceId).None?;
          return false;
        }
        row := row.(instanceId := iid.value);
      }
      rows[i] := row;
      i := i + 1;
    }
    return true;
  }

  /** The stderr object, with the identity overlay of the calling script. */
  function MetaOf(x: Export, nodeId: Option<string>, instanceId: Option<string>): Meta
    requires x.Export?
  {
    Meta(JBool(x.status.Fine?),
         match x.status case Fine => JNull case CursorExpired => JStr("CURSOR_EXPIRED") case CursorAhead => JStr("CURSOR_AHEAD"),
         JInt(EXPORT_PROTOCOL_VERSION), JStr(CURSOR_KIND_EXPORT_SEQ), JInt(x.after), JInt(x.maxSeq),
         JInt(|x.rows|), OptionText(nodeId), OptionText(instanceId), JInt(x.next))
  }

  /** main_export: exit 1 on refused arguments or a stamp mismatch, 3 on an unusable cursor, else 0. */
  ghost function Answer(x: Export, nodeId: Option<string>, instanceId: Option<string>, stamp: bool): Reply {
    if x.Refused? then Reply(1, None, Some([])) else
      var rows := EncodeAll(x.rows);
      if stamp && !Stamps(rows, nodeId, instanceId) then Reply(1, None, Some([]))
      else
        var meta := MetaOf(x, nodeId, instanceId);
        if !x.status.Fine? then Reply(3, Some(meta), Some([]))
        else Reply(0, Some(meta), Some(if stamp then Stamped(rows, nodeId.value, instanceId) else rows))
  }

  /** The controller asks for everything after its cursor, without a limit. */
  ghost function Serve(db: Db, after: int, nodeId: Option<string>, instanceId: Option<string>, stamp: bool): Reply {
    Answer(ExportAfter(db, after, None), nodeId, instanceId, stamp)
  }

  /** Row i as delivered. */
  ghost predicate Delivered(e: Logged, row: WireRow, nodeId: string, instanceId: Option<string>, stamp: bool) {
    if stamp then StampRow(Encode(e), nodeId, instanceId) == Some(row) else row == Encode(e)
  }

  /** What the caller sees of the outcome: exit code, the complaint, and rows only on success. */
  lemma AnswerTells(x: Export, nodeId: Option<string>, instanceId: Option<string>, stamp: bool)
    ensures var r := Answer(x, nodeId, instanceId, stamp);
            && r.code in {0, 1, 3}
            && (r.code == 1 <==> x.Refused? || (stamp && !Stamps(EncodeAll(x.rows), nodeId, instanceId)))
            && (r.code == 3 ==> x.Export? && !x.status.Fine?) && (r.code == 0 ==> x.Export? && x.status.Fine?)
            && (r.code == 1 ==> r.meta.None?)
            && (r.code != 1 ==>
                  && r.meta.Some? && r.meta.value.ok == JBool(r.code == 0)
                  && r.meta.value.error == (if x.status.CursorExpired? then JStr("CURSOR_EXPIRED")
                                            else if x.status.CursorAhead? then JStr("CURSOR_AHEAD") else JNull)
                  && r.meta.value.after == JInt(x.after) && r.meta.value.nextCursor == JInt(x.next)
                  && r.meta.value.maxSeq == JInt(x.maxSeq) && r.meta.value.count == JInt(|x.rows|)
                  && r.meta.value.protocol == JInt(2) && r.meta.value.cursorKind == JStr("export_seq"))
            && (r.code != 0 ==> r.rows == Some([]))
  {
    hide Stamps, EncodeAll;
  }

  /** A stamp in columns: a blank identity is filled in, one that says something else is refused, and no other
      column changes. */
  lemma StampInColumns(row: WireRow, nodeId: string, instanceId: Option<string>)
    requires row.WireRow?
    ensures var s := StampRow(row, nodeId, instanceId);
            && (s.None? <==> Contradicts(row.nodeId, nodeId) || (instanceId.Some? && Contradicts(row.instanceId, instanceId.value)))
            && (s.Some? ==>
                  && s.value.WireRow? && s.value == row.(nodeId := s.value.nodeId, instanceId := s.value.instanceId)
                  && s.value.nodeId == (if OptionalText(row.nodeId).None? then JStr(nodeId) else row.nodeId)
                  && s.value.instanceId == (if instanceId.Some? && OptionalText(row.instanceId).None? then JStr(instanceId.value) else row.instanceId))
  {
    hide OptionalText;
  }

  predicate Contradicts(current: Json, overlay: string) {
    OptionalText(current).Some? && OptionalText(current) != Some(overlay)
  }

  lemma AnswerDelivers(x: Export, nodeId: string, instanceId: Option<string>, stamp: bool)
    requires Answer(x, Some(nodeId), instanceId, stamp).code == 0
    ensures var r := Answer(x, Some(nodeId), instanceId, stamp);
            && x.Export? && x.status.Fine? && r.meta == Some(MetaOf(x, Some(nodeId), instanceId))
            && r.rows.Some? && |r.rows.value| == |x.rows|
            && (forall i :: 0 <= i < |x.rows| ==> Delivered(x.rows[i], r.rows.value[i], nodeId, instanceId, stamp))
  {
    hide StampRow, Encode, MetaOf;
  }
}
