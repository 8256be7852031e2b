/** The dmaas_dub_links table: rows, unique keys, and the ON CONFLICT insert. */
module DubLinks {
  import opened Common

  type Uuid = nat

  datatype Attribution = Attribution(campaign: Uuid, channelCampaign: Uuid,
    step: Uuid, recipient: Uuid, organization: Uuid)

  datatype Row = Row(
    linkId: string, externalId: Option<string>, shortUrl: string, domain: string, key: string, destination: string,
    brand: Option<Uuid>, step: Option<Uuid>, recipient: Option<Uuid>, folder: Option<string>, tags: seq<string>,
    attribution: Option<Attribution>, createdBy: Option<Uuid>)

  /** The partial unique index covers rows with both a step and a recipient. */
  predicate SameSlot(a: Row, b: Row) {
    a.step.Some? && a.recipient.Some? && a.step == b.step && a.recipient == b.recipient
  }

  /** The other two unique columns, which the conflict clause does not cover. */
  predicate SameLink(a: Row, b: Row) { a.linkId == b.linkId || (a.externalId.Some? && a.externalId == b.externalId) }

  predicate SlotTaken(table: seq<Row>, r: Row) { exists i :: 0 <= i < |table| && SameSlot(r, table[i]) }

  predicate LinkTaken(table: seq<Row>, r: Row) { exists i :: 0 <= i < |table| && SameLink(r, table[i]) }

  datatype Inserted = Committed(table: seq<Row>) | Violation

  /** One multi-row INSERT … ON CONFLICT (step, recipient) DO NOTHING. */
  function Insert(table: seq<Row>, batch: seq<Row>): Inserted
    decreases |batch|
  {
    if batch == [] then Committed(table)
    else if SlotTaken(table, batch[0]) then Insert(table, batch[1..])
    else if LinkTaken(table, batch[0]) then Violation
    else Insert(table + [batch[0]], batch[1..])
  }

  /** All three unique indexes hold. */
  ghost predicate Unique(table: seq<Row>) {
    forall i, j :: 0 <= i < j < |table| ==> !SameSlot(table[i], table[j]) && !SameLink(table[i], table[j])
  }

  predicate HasRow(table: seq<Row>, step: Uuid, recipient: Uuid) {
    exists i :: 0 <= i < |table| && Slot(table[i], step, recipient)
  }

  predicate Slot(r: Row, step: Uuid, recipient: Uuid) { r.step == Some(step) && r.recipient == Some(recipient) }

  lemma AppendKeepsUnique(table: seq<Row>, r: Row)
    requires Unique(table) && !SlotTaken(table, r) && !LinkTaken(table, r)
    ensures Unique(table + [r])
  {
  }

  /** A committed insert only appends, keeps every index, and leaves each inserted slot taken. */
  lemma {:induction false} InsertGrows(table: seq<Row>, batch: seq<Row>)
    requires Unique(table) && Insert(table, batch).Committed?
    ensures var t := Insert(table, batch).table;
            && Unique(t) && table <= t
            && forall k, step, rcpt :: 0 <= k < |batch| && Slot(batch[k], step, rcpt) ==> HasRow(t, step, rcpt)
    decreases |batch|
  {
    if batch != [] {
      var t := Insert(table, batch).table;
      var head := batch[0];
      if SlotTaken(table, head) {
        InsertGrows(table, batch[1..]);
      } else {
        AppendKeepsUnique(table, head);
        InsertGrows(table + [head], batch[1..]);
      }
      forall k, step, rcpt | 0 <= k < |batch| && Slot(batch[k], step, rcpt) ensures HasRow(t, step, rcpt) {
        if k > 0 {
          assert batch[k] == batch[1..][k - 1];
        } else {
          HeadSlotTaken(table, batch, step, rcpt);
        }
      }
    }
  }

  lemma HeadSlotTaken(table: seq<Row>, batch: seq<Row>, step: Uuid, rcpt: Uuid)
    requires batch != [] && Insert(table, batch).Committed? && Slot(batch[0], step, rcpt)
    requires var base := if SlotTaken(table, batch[0]) then table else table + [batch[0]];
             base <= Insert(table, batch).table
    ensures HasRow(Insert(table, batch).table, step, rcpt)
  {
    var t := Insert(table, batch).table;
    if SlotTaken(table, batch[0]) {
      var i :| 0 <= i < |table| && SameSlot(batch[0], table[i]);
      assert Slot(t[i], step, rcpt);
    } else {
      assert t[|table|] == batch[0];
      assert Slot(t[|table|], step, rcpt);
    }
  }

  lemma HasRowGrows(table: seq<Row>, later: seq<Row>, step: Uuid, rcpt: Uuid)
    requires table <= later && HasRow(table, step, rcpt)
    ensures HasRow(later, step, rcpt)
  {
    var i :| 0 <= i < |table| && Slot(table[i], step, rcpt);
    assert Slot(later[i], step, rcpt);
  }

  /** Rows for slots nobody holds are all appended, unless a link id clashes. */
  lemma {:induction false} FreshInsert(table: seq<Row>, batch: seq<Row>)
    requires forall k :: 0 <= k < |batch| ==> !SlotTaken(table, batch[k])
    requires forall j, k :: 0 <= j < k < |batch| ==> !SameSlot(batch[k], batch[j])
    ensures Insert(table, batch) == Violation || Insert(table, batch) == Committed(table + batch)
    decreases |batch|
  {
    if batch != [] && !LinkTaken(table, batch[0]) {
      var next := table + [batch[0]];
      forall k | 0 <= k < |batch[1..]| ensures !SlotTaken(next, batch[1..][k]) {
        assert !SlotTaken(table, batch[k + 1]) && !SameSlot(batch[k + 1], batch[0]);
      }
      FreshInsert(next, batch[1..]);
      assert next + batch[1..] == table + batch;
    }
  }

  function RowsOf(table: seq<Row>, step: Uuid): seq<Row> {
    if table == [] then []
    else RowsOf(table[..|table| - 1], step)
         + (if table[|table| - 1].step == Some(step) then [table[|table| - 1]] else [])
  }

  /** `{r.recipient_id: r for r in rows if r.recipient_id is not None}`. */
  function ByRecipient(rows: seq<Row>): map<Uuid, Row> {
    if rows == [] then map[]
    else
      var r := rows[|rows| - 1];
      if r.recipient.Some? then ByRecipient(rows[..|rows| - 1])[r.recipient.value := r]
      else ByRecipient(rows[..|rows| - 1])
  }

  lemma {:induction false} RowsOfExact(table: seq<Row>, step: Uuid, r: Row)
    ensures r in RowsOf(table, step) <==> r in table && r.step == Some(step)
  {
    if table != [] {
      RowsOfExact(table[..|table| - 1], step, r);
      assert table == table[..|table| - 1] + [table[|table| - 1]];
    }
  }

  lemma {:induction false} ByRecipientPicks(rows: seq<Row>, rcpt: Uuid)
    ensures rcpt in ByRecipient(rows) <==> exists i :: 0 <= i < |rows| && rows[i].recipient == Some(rcpt)
    ensures rcpt in ByRecipient(rows) ==>
              ByRecipient(rows)[rcpt] in rows && ByRecipient(rows)[rcpt].recipient == Some(rcpt)
  {
    if rows != [] {
      ByRecipientPicks(rows[..|rows| - 1], rcpt);
      assert rows == rows[..|rows| - 1] + [rows[|rows| - 1]];
    }
  }

  /** The lookup dictionary of a step holds exactly the recipients with a row, and that row. */
  lemma IndexExact(table: seq<Row>, step: Uuid, rcpt: Uuid)
    ensures var index := ByRecipient(RowsOf(table, step));
            && (rcpt in index <==> HasRow(table, step, rcpt))
            && (rcpt in index ==> index[rcpt] in table && Slot(index[rcpt], step, rcpt))
  {
    var rows := RowsOf(table, step);
    ByRecipientPicks(rows, rcpt);
    if rcpt in ByRecipient(rows) {
      RowsOfExact(table, step, ByRecipient(rows)[rcpt]);
      var i :| 0 <= i < |table| && table[i] == ByRecipient(rows)[rcpt];
      assert Slot(table[i], step, rcpt);
    }
    if HasRow(table, step, rcpt) {
      var i :| 0 <= i < |table| && Slot(table[i], step, rcpt);
      RowsOfExact(table, step, table[i]);
      var j :| 0 <= j < |rows| && rows[j] == table[i];
      assert rows[j].recipient == Some(rcpt);
    }
  }

  /** Two rows of one slot in a unique table are the same row. */
  lemma OneRowPerSlot(table: seq<Row>, a: Row, b: Row, step: Uuid, rcpt: Uuid)
    requires Unique(table) && a in table && b in table && Slot(a, step, rcpt) && Slot(b, step, rcpt)
    ensures a == b
  {
    var i :| 0 <= i < |table| && table[i] == a;
    var j :| 0 <= j < |table| && table[j] == b;
    assert SameSlot(a, b) && SameSlot(b, a);
  }

  /** The stored table. */
  class LinkTable {
    var rows: seq<Row>

    constructor ()
      ensures rows == []
    {
      rows := [];
    }

    /** `bulk_insert_dub_links`; `reachable` is whether the database answered. The returned
        rows are the new ones; on failure nothing is stored. */
    method BulkInsert(batch: seq<Row>, reachable: bool) returns (ok: bool, created: seq<Row>)
      modifies this
      ensures ok <==> batch == [] || (reachable && Insert(old(rows), batch).Committed?)
      ensures ok && batch != [] ==> rows == Insert(old(rows), batch).table
      ensures ok ==> rows == old(rows) + created
      ensures !ok || batch == [] ==> rows == old(rows) && created == []
    {
      created := [];
      if batch == [] {
        return true, [];
      }
      if !reachable {
        return false, [];
      }
      var table := rows;
      for i := 0 to |batch|
        invariant Insert(rows, batch) == Insert(table, batch[i..])
        invariant table == rows + created && rows == old(rows)
      {
        assert batch[i..][1..] == batch[i + 1..];
        if !SlotTaken(table, batch[i]) {
          if LinkTaken(table, batch[i]) {
            return false, [];
          }
          table, created := table + [batch[i]], created + [batch[i]];
        }
      }
      rows := table;
      ok := true;
    }

    /** `list_dub_links_for_step`. */
    method ListForStep(step: Uuid) returns (out: seq<Row>)
      ensures out == RowsOf(rows, step)
    {
      out := [];
      for i := 0 to |rows|
        invariant out == RowsOf(rows[..i], step)
      {
        assert rows[..i + 1][..i] == rows[..i];
        if rows[i].step == Some(step) {
          out := out + [rows[i]];
        }
      }
      assert rows[..|rows|] == rows;
    }
  }
}
