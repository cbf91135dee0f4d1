/** What ingestion, rebuild and deletion do to one tenant's table (app/services/item_service.py). */
module ItemChanges {
  import opened Dicts
  import opened Items
  import opened VectorStore
  import opened Embedding

  // ---- upsert_items ----

  /** The values one `upsert_items` call writes to every row; `ids[i]` is the id its row `i` would get. */
  datatype Upload = Upload(status: Status, batch: Option<BatchId>, now: Time, config: Config, ids: seq<Id>)

  /** The table's unique constraint. */
  ghost predicate UniqueExternalIds(rows: Table) {
    forall a, b :: a in rows && b in rows && rows[a].externalId == rows[b].externalId ==> a == b
  }

  /** Each entry has a new id of its own (they are random UUIDs). */
  ghost predicate NewIds(rows: Table, entries: Dict<string, string>, ids: seq<Id>) {
    && |entries| <= |ids|
    && (forall i :: 0 <= i < |ids| ==> ids[i] !in rows)
    && forall i, j :: 0 <= i < j < |ids| ==> ids[i] != ids[j]
  }

  /** `{item["external_id"]: item for item in items}`: the last occurrence wins, in first place. */
  function Unique(items: seq<(string, string)>): (r: Dict<string, string>)
    ensures DistinctKeys(r)
    decreases |items|
  {
    if items == [] then []
    else
      var last := items[|items| - 1];
      PutKeepsDistinct(Unique(items[..|items| - 1]), last.0, last.1);
      Put(Unique(items[..|items| - 1]), last.0, last.1)
  }

  function Stamped(row: Row, data: string, u: Upload): Row {
    row.(batch := u.batch, data := data, metadata := u.config.buildMetadata(data, row.externalId),
         status := u.status, updatedAt := u.now)
  }

  function NewRow(externalId: string, data: string, u: Upload): Row {
    Row(externalId, u.batch, data, u.status, u.now, u.now, None, u.config.buildMetadata(data, externalId))
  }

  ghost predicate HasItem(rows: Table, externalId: string) {
    exists id :: id in rows && rows[id].externalId == externalId
  }

  function StampedIfSent(row: Row, entries: Dict<string, string>, u: Upload): Row {
    match Get(entries, row.externalId)
    case None => row
    case Some(data) => Stamped(row, data, u)
  }

  ghost predicate AddedBy(id: Id, row: Row, entries: Dict<string, string>, u: Upload) {
    exists i :: 0 <= i < |entries| && i < |u.ids| && id == u.ids[i] && row == NewRow(entries[i].0, entries[i].1, u)
  }

  /** Rows of the ids sent are updated in place, keeping their id, vector id and age; each other id sent
      gets one new row; no other row changes. */
  ghost predicate Uploaded(before: Table, after: Table, entries: Dict<string, string>, u: Upload) {
    RowsSent(before, after, entries, u) && NamesSent(after, entries)
  }

  ghost predicate RowsSent(before: Table, after: Table, entries: Dict<string, string>, u: Upload) {
    && (forall id :: id in before ==> id in after && after[id] == StampedIfSent(before[id], entries, u))
    && (forall id :: id in after && id !in before ==> AddedBy(id, after[id], entries, u))
  }

  ghost predicate NamesSent(after: Table, entries: Dict<string, string>) {
    && (forall i :: 0 <= i < |entries| ==> HasItem(after, entries[i].0))
    && UniqueExternalIds(after)
  }

  ghost predicate Insertable(rows: Table, entries: Dict<string, string>, u: Upload)
    ensures Insertable(rows, entries, u) ==> |entries| <= |u.ids|
  {
    DistinctKeys(entries) && NewIds(rows, entries, u.ids) && UniqueExternalIds(rows)
  }

  /** The row with this external id. */
  ghost function Found(rows: Table, externalId: string): (id: Id)
    requires HasItem(rows, externalId)
    ensures id in rows && rows[id].externalId == externalId
  {
    var id :| id in rows && rows[id].externalId == externalId; id
  }

  /** `INSERT … ON CONFLICT DO UPDATE` of one row. */
  ghost function Inserted(rows: Table, externalId: string, data: string, u: Upload, id: Id): Table {
    if HasItem(rows, externalId)
    then rows[Found(rows, externalId) := Stamped(rows[Found(rows, externalId)], data, u)]
    else rows[id := NewRow(externalId, data, u)]
  }

  /** The first `n` entries inserted one after the other. */
  ghost function InsertedAll(rows: Table, entries: Dict<string, string>, n: nat, u: Upload): Table
    requires n <= |entries| <= |u.ids|
  {
    if n == 0 then rows
    else Inserted(InsertedAll(rows, entries, n - 1, u), entries[n - 1].0, entries[n - 1].1, u, u.ids[n - 1])
  }

  lemma {:induction false} GetOfPrefix(entries: Dict<string, string>, i: nat, key: string)
    requires DistinctKeys(entries) && i < |entries|
    ensures Get(entries[..i + 1], key) == if key == entries[i].0 then Some(entries[i].1) else Get(entries[..i], key)
    ensures !HasKey(entries[..i], entries[i].0)
  {
    assert entries[..i + 1] == Put(entries[..i], entries[i].0, entries[i].1);
    GetAfterPut(entries[..i], entries[i].0, entries[i].1, key);
  }

  lemma FoundIsOld(before: Table, middle: Table, entries: Dict<string, string>, i: nat, u: Upload, found: Id)
    requires DistinctKeys(entries) && i < |entries| && Uploaded(before, middle, entries[..i], u)
    requires found in middle && middle[found].externalId == entries[i].0
    ensures found in before && before[found].externalId == entries[i].0
  {
    assert forall j :: 0 <= j < i ==> entries[..i][j].0 != entries[i].0;
  }

  lemma NewIdUnused(before: Table, middle: Table, entries: Dict<string, string>, i: nat, u: Upload)
    requires i < |entries| && NewIds(before, entries, u.ids) && Uploaded(before, middle, entries[..i], u)
    ensures u.ids[i] !in middle
  {
  }

  /** One entry more in the list, for a row it does not name. */
  lemma OtherRow(before: Table, middle: Table, entries: Dict<string, string>, i: nat, u: Upload, id: Id)
    requires DistinctKeys(entries) && i < |entries| && Uploaded(before, middle, entries[..i], u)
    requires id in middle && middle[id].externalId != entries[i].0
    ensures id in before ==> middle[id] == StampedIfSent(before[id], entries[..i + 1], u)
    ensures id !in before ==> AddedBy(id, middle[id], entries[..i + 1], u)
  {
    if id in before {
      GetOfPrefix(entries, i, before[id].externalId);
    } else {
      var j :|
        0 <= j < i && j < |u.ids| && id == u.ids[j] && middle[id] == NewRow(entries[..i][j].0, entries[..i][j].1, u);
      assert entries[..i + 1][j] == entries[..i][j];
    }
  }

  lemma OtherRows(before: Table, middle: Table, after: Table, entries: Dict<string, string>, i: nat, u: Upload,
                  touched: Id)
    requires DistinctKeys(entries) && i < |entries| && Uploaded(before, middle, entries[..i], u)
    requires forall id :: id in middle && id != touched ==>
               id in after && after[id] == middle[id] && middle[id].externalId != entries[i].0
    ensures forall id :: id in middle && id != touched ==>
              if id in before then after[id] == StampedIfSent(before[id], entries[..i + 1], u)
              else AddedBy(id, after[id], entries[..i + 1], u)
  {
    forall id | id in middle && id != touched
      ensures if id in before then after[id] == StampedIfSent(before[id], entries[..i + 1], u)
              else AddedBy(id, after[id], entries[..i + 1], u)
    {
      OtherRow(before, middle, entries, i, u, id);
    }
  }

  lemma UpdatedRows(before: Table, middle: Table, found: Id, entries: Dict<string, string>, i: nat, u: Upload)
    requires DistinctKeys(entries) && i < |entries| && Uploaded(before, middle, entries[..i], u)
    requires found in middle && middle[found].externalId == entries[i].0
    ensures RowsSent(before, middle[found := Stamped(middle[found], entries[i].1, u)], entries[..i + 1], u)
  {
    var after := middle[found := Stamped(middle[found], entries[i].1, u)];
    var done := entries[..i + 1];
    FoundIsOld(before, middle, entries, i, u, found);
    GetOfPrefix(entries, i, entries[i].0);
    OtherRows(before, middle, after, entries, i, u, found);
  }

  lemma AddedRows(before: Table, middle: Table, entries: Dict<string, string>, i: nat, u: Upload)
    requires DistinctKeys(entries) && i < |entries| && NewIds(before, entries, u.ids)
    requires Uploaded(before, middle, entries[..i], u)
    requires !HasItem(middle, entries[i].0)
    ensures RowsSent(before, middle[u.ids[i] := NewRow(entries[i].0, entries[i].1, u)], entries[..i + 1], u)
  {
    var id' := u.ids[i];
    var after := middle[id' := NewRow(entries[i].0, entries[i].1, u)];
    var done := entries[..i + 1];
    NewIdUnused(before, middle, entries, i, u);
    OtherRows(before, middle, after, entries, i, u, id');
    assert done[i] == entries[i];
    assert AddedBy(id', after[id'], done, u);
  }

  lemma NamesOneMore(middle: Table, after: Table, entries: Dict<string, string>, i: nat)
    requires i < |entries| && NamesSent(middle, entries[..i])
    requires forall id :: id in middle ==> id in after && after[id].externalId == middle[id].externalId
    requires HasItem(after, entries[i].0) && UniqueExternalIds(after)
    ensures NamesSent(after, entries[..i + 1])
  {
    assert forall j :: 0 <= j < i ==> entries[..i][j] == entries[j];
  }

  lemma InsertedNames(middle: Table, entries: Dict<string, string>, i: nat, u: Upload)
    requires i < |entries| <= |u.ids| && NamesSent(middle, entries[..i])
    requires HasItem(middle, entries[i].0) || u.ids[i] !in middle
    ensures NamesSent(Inserted(middle, entries[i].0, entries[i].1, u, u.ids[i]), entries[..i + 1])
  {
    var after := Inserted(middle, entries[i].0, entries[i].1, u, u.ids[i]);
    var id := if HasItem(middle, entries[i].0) then Found(middle, entries[i].0) else u.ids[i];
    assert id in after && after[id].externalId == entries[i].0;
    NamesOneMore(middle, after, entries, i);
  }

  lemma UploadedOneMore(before: Table, middle: Table, entries: Dict<string, string>, i: nat, u: Upload)
    requires DistinctKeys(entries) && i < |entries| && NewIds(before, entries, u.ids)
    requires Uploaded(before, middle, entries[..i], u)
    ensures Uploaded(before, Inserted(middle, entries[i].0, entries[i].1, u, u.ids[i]), entries[..i + 1], u)
  {
    NewIdUnused(before, middle, entries, i, u);
    InsertedNames(middle, entries, i, u);
    if HasItem(middle, entries[i].0) {
      UpdatedRows(before, middle, Found(middle, entries[i].0), entries, i, u);
    } else {
      AddedRows(before, middle, entries, i, u);
    }
  }

  /** Inserting the entries one by one is an upload of them all. */
  lemma {:induction false} InsertedAllUploads(before: Table, entries: Dict<string, string>, n: nat, u: Upload)
    requires DistinctKeys(entries) && n <= |entries| && NewIds(before, entries, u.ids) && UniqueExternalIds(before)
    ensures Uploaded(before, InsertedAll(before, entries, n, u), entries[..n], u)
  {
    if n == 0 {
      assert entries[..0] == [];
    } else {
      InsertedAllUploads(before, entries, n - 1, u);
      UploadedOneMore(before, InsertedAll(before, entries, n - 1, u), entries, n - 1, u);
    }
  }

  lemma InsertedAllTurn(before: Table, entries: Dict<string, string>, n: nat, u: Upload)
    requires DistinctKeys(entries) && n < |entries| && NewIds(before, entries, u.ids) && UniqueExternalIds(before)
    ensures UniqueExternalIds(InsertedAll(before, entries, n, u))
    ensures InsertedAll(before, entries, n + 1, u)
         == Inserted(InsertedAll(before, entries, n, u), entries[n].0, entries[n].1, u, u.ids[n])
  {
    InsertedAllUploads(before, entries, n, u);
  }

  // ---- rebuild, delete ----

  function Requeued(rows: Table, batch: BatchId, now: Time): Table
  {
    map id | id in rows :: rows[id].(status := PENDING, batch := Some(batch), updatedAt := now)
  }

  function NewBatch(total: nat, now: Time): Batch {
    if total == 0 then Batch(0, 0, 0, BATCH_DONE, Some(now)) else Batch(total, 0, 0, BATCH_PENDING, None)
  }

  /** What is asked of the vector store: the vectors the rows name, if they name any. */
  function VectorIds(rows: Table, targets: set<Id>): (r: set<Id>)
    ensures forall v :: v in r <==> exists id :: id in targets && id in rows && rows[id].pineconeId == Some(v)
  {
    set id | id in targets && id in rows && rows[id].pineconeId.Some? :: rows[id].pineconeId.value
  }

  /** Vectors go first; the rows go only when every vector is gone. `order` is how the vector ids are sent. */
  ghost predicate Deletion(rows: Table, vectors: Namespace, targets: set<Id>, order: seq<Id>, remote: Remote,
                           rows': Table, vectors': Namespace, outcome: DeleteOutcome) {
    && targets <= rows.Keys && SetOf(order) == VectorIds(rows, targets)
    && (vectors', outcome) == Deleted(vectors, order, remote)
    && rows' == if outcome.Gone? then rows - targets else rows
  }

  // ---- What an upload leaves, said of the items sent ----

  /** Item `i` is the last one sent under its external id. */
  ghost predicate LastSent(items: seq<(string, string)>, i: nat) {
    i < |items| && forall j :: i < j < |items| ==> items[j].0 != items[i].0
  }

  lemma {:induction false} UniqueHasSent(items: seq<(string, string)>, key: string)
    ensures HasKey(Unique(items), key) <==> exists i :: 0 <= i < |items| && items[i].0 == key
    decreases |items|
  {
    if items != [] {
      var front, last := items[..|items| - 1], items[|items| - 1];
      UniqueHasSent(front, key);
      GetAfterPut(Unique(front), last.0, last.1, key);
      if i :| 0 <= i < |front| && front[i].0 == key { assert items[i].0 == key; }
      if i :| 0 <= i < |items| && items[i].0 == key && i < |front| { assert front[i].0 == key; }
      if last.0 == key { assert items[|front|].0 == key; }
    }
  }

  lemma {:induction false} UniqueIsLast(items: seq<(string, string)>, i: nat)
    requires LastSent(items, i)
    ensures Get(Unique(items), items[i].0) == Some(items[i].1)
    decreases |items|
  {
    var front, last := items[..|items| - 1], items[|items| - 1];
    GetAfterPut(Unique(front), last.0, last.1, items[i].0);
    if i < |front| {
      assert LastSent(front, i);
      UniqueIsLast(front, i);
    }
  }

  /** A row holds what was sent for it last: data, metadata built from that, the call's batch and status. Its age
      and vector id stay; a new row has none. */
  ghost predicate HoldsSent(before: Table, after: Table, id: Id, externalId: string, data: string, u: Upload)
    requires id in after
  {
    var row := after[id];
    && row.externalId == externalId && row.data == data && row.metadata == u.config.buildMetadata(data, externalId)
    && row.batch == u.batch && row.status == u.status && row.updatedAt == u.now
    && row.createdAt == (if id in before then before[id].createdAt else u.now)
    && row.pineconeId == (if id in before then before[id].pineconeId else None)
  }

  /** After an upload each external id sent has one row, which holds what was sent last under it; and a row of an
      id not sent is as it was. */
  lemma {:induction false} UploadHoldsLastSent(before: Table, after: Table, items: seq<(string, string)>, u: Upload,
                                               i: nat)
    requires Uploaded(before, after, Unique(items), u) && LastSent(items, i)
    ensures exists id :: id in after && HoldsSent(before, after, id, items[i].0, items[i].1, u)
    ensures forall id, other :: id in after && other in after && after[id].externalId == after[other].externalId ==>
              id == other
  {
    UniqueIsLast(items, i);
    SentIsHeld(before, after, Unique(items), items[i].0, items[i].1, u);
  }

  lemma SentIsHeld(before: Table, after: Table, entries: Dict<string, string>, externalId: string, data: string,
                   u: Upload)
    requires Uploaded(before, after, entries, u) && DistinctKeys(entries) && Get(entries, externalId) == Some(data)
    ensures exists id :: id in after && HoldsSent(before, after, id, externalId, data, u)
  {
    var e := GetWitness(entries, externalId);
    assert HasItem(after, entries[e].0);
    var id :| id in after && after[id].externalId == externalId;
    if id in before {
      assert after[id] == Stamped(before[id], data, u);
    } else {
      NewRowHolds(before, after, entries, id, u);
    }
    assert HoldsSent(before, after, id, externalId, data, u);
  }

  lemma NewRowHolds(before: Table, after: Table, entries: Dict<string, string>, id: Id, u: Upload)
    requires Uploaded(before, after, entries, u) && DistinctKeys(entries) && id in after && id !in before
    ensures Get(entries, after[id].externalId).Some?
    ensures after[id] == NewRow(after[id].externalId, Get(entries, after[id].externalId).value, u)
  {
    var j :|
      0 <= j < |entries| && j < |u.ids| && id == u.ids[j] && after[id] == NewRow(entries[j].0, entries[j].1, u);
    GetAt(entries, j);
  }

  lemma {:induction false} UploadKeepsOthers(before: Table, after: Table, items: seq<(string, string)>, u: Upload,
                                             id: Id)
    requires Uploaded(before, after, Unique(items), u)
    requires id in after && forall i :: 0 <= i < |items| ==> items[i].0 != after[id].externalId
    ensures id in before && after[id] == before[id]
  {
    UniqueHasSent(items, after[id].externalId);
    if id in before {
      assert after[id] == StampedIfSent(before[id], Unique(items), u);
    } else {
      NewRowHolds(before, after, Unique(items), id, u);
    }
  }
}
