/** Item ingestion, deletion and index rebuild for one tenant (app/services/item_service.py). */
module ItemService {
  import opened Dicts
  import opened Items
  import opened VectorStore
  import opened Embedding
  import opened Batches
  import opened ItemChanges

  const UPSERT_ROWS: nat := 500

  datatype DeleteResult = Removed | NotFound | StoreFailed

  /** The rows the given external ids name, or every row. */
  ghost predicate Targeted(rows: Table, externalIds: Option<seq<string>>, targets: set<Id>) {
    forall id :: id in targets <==> id in rows && (externalIds.Some? ==> rows[id].externalId in externalIds.value)
  }

  ghost predicate DeletionOf(rows: Table, vectors: Namespace, id: Id, externalId: string, order: seq<Id>,
                             remote: Remote,
                             rows': Table, vectors': Namespace, outcome: DeleteOutcome) {
    && id in rows && rows[id].externalId == externalId
    && Deletion(rows, vectors, {id}, order, remote, rows', vectors', outcome)
  }

  ghost predicate OneDeletion(rows: Table, vectors: Namespace, externalId: string, remote: Remote,
                              rows': Table, vectors': Namespace, r: DeleteResult) {
    exists id, order, outcome ::
      && DeletionOf(rows, vectors, id, externalId, order, remote, rows', vectors', outcome)
      && (r.Removed? <==> outcome.Gone?)
  }

  class ItemService {
    const db: Database
    const store: PineconeNamespace

    constructor (db: Database, store: PineconeNamespace)
      ensures this.db == db && this.store == store
    {
      this.db, this.store := db, store;
    }

    // ---- Ingestion ----

    method Deduplicate(items: seq<(string, string)>) returns (unique: Dict<string, string>)
      ensures unique == Unique(items)
    {
      unique := [];
      assert items[..0] == [];
      for i := 0 to |items|
        invariant unique == Unique(items[..i])
      {
        assert items[..i + 1][..i] == items[..i];
        unique := Put(unique, items[i].0, items[i].1);
      }
      assert items[..|items|] == items;
    }

    /** One statement: rows `start` to `end`, each inserted or, where its id exists, updated. */
    method InsertChunk(entries: Dict<string, string>, start: nat, end: nat, u: Upload, ghost before: Table)
      requires start <= end <= |entries| && Insertable(before, entries, u)
      requires db.rows == InsertedAll(before, entries, start, u)
      modifies db`rows
      ensures db.rows == InsertedAll(before, entries, end, u)
      decreases end - start
    {
      if start < end {
        InsertOne(entries, start, u, before);
        InsertChunk(entries, start + 1, end, u, before);
      }
    }

    method InsertOne(entries: Dict<string, string>, i: nat, u: Upload, ghost before: Table)
      requires i < |entries| && Insertable(before, entries, u)
      requires db.rows == InsertedAll(before, entries, i, u)
      modifies db`rows
      ensures db.rows == InsertedAll(before, entries, i + 1, u)
    {
      InsertedAllTurn(before, entries, i, u);
      var (externalId, data) := entries[i];
      if same :| same in db.rows && db.rows[same].externalId == externalId {
        db.rows := db.rows[same := Stamped(db.rows[same], data, u)];
      } else {
        db.rows := db.rows[u.ids[i] := NewRow(externalId, data, u)];
      }
    }

    method InsertAll(entries: Dict<string, string>, u: Upload)
      requires Insertable(db.rows, entries, u)
      modifies db`rows
      ensures db.rows == InsertedAll(old(db.rows), entries, |entries|, u)
    {
      var start := 0;
      while start < |entries|
        invariant start <= |entries|
        invariant db.rows == InsertedAll(old(db.rows), entries, start, u)
      {
        var end := Min(start + UPSERT_ROWS, |entries|);
        InsertChunk(entries, start, end, u, old(db.rows));
        start := end;
      }
    }

    method UpsertItems(items: seq<(string, string)>, u: Upload) returns (stored: seq<Id>)
      requires UniqueExternalIds(db.rows) && NewIds(db.rows, Unique(items), u.ids)
      modifies db`rows
      ensures Uploaded(old(db.rows), db.rows, Unique(items), u)
      ensures Stores(db.rows, Unique(items), stored)
    {
      var entries := Deduplicate(items);
      InsertedAllUploads(db.rows, entries, |entries|, u);
      assert entries[..|entries|] == entries;
      InsertAll(entries, u);
      stored := LoadInOrder(entries);
    }

    /** The rows back, in the order sent. */
    method LoadInOrder(entries: Dict<string, string>) returns (stored: seq<Id>)
      requires forall i :: 0 <= i < |entries| ==> HasItem(db.rows, entries[i].0)
      ensures Stores(db.rows, entries, stored)
    {
      stored := [];
      for i := 0 to |entries|
        invariant |stored| == i
        invariant forall j :: 0 <= j < i ==> stored[j] in db.rows && db.rows[stored[j]].externalId == entries[j].0
      {
        assert HasItem(db.rows, entries[i].0);
        var id :| id in db.rows && db.rows[id].externalId == entries[i].0;
        stored := stored + [id];
      }
    }

    method CreateBatch(id: BatchId, total: nat, now: Time)
      requires id !in db.batches
      modifies db`batches
      ensures db.batches == old(db.batches)[id := NewBatch(total, now)]
      ensures db.batches.Keys == old(db.batches).Keys + {id}
      ensures forall b :: b in old(db.batches) ==> db.batches[b] == old(db.batches)[b]
      ensures db.batches[id].total == total && db.batches[id].processed == db.batches[id].failed == 0
      ensures db.batches[id].Complete() <==> total == 0
      ensures total == 0 ==> db.batches[id].status == BATCH_DONE && db.batches[id].completedAt == Some(now)
    {
      var batch := Batch(total, 0, 0, BATCH_PENDING, None);
      if total == 0 { batch := batch.(status := BATCH_DONE, completedAt := Some(now)); }
      db.batches := db.batches[id := batch];
    }

    /** The new batch's total is the number of items it then holds. */
    method IngestAsync(items: seq<(string, string)>, batch: BatchId, u: Upload)
      requires UniqueExternalIds(db.rows) && NewIds(db.rows, Unique(items), u.ids)
      requires batch !in db.batches && InBatch(db.rows, batch) == {} && u.batch == Some(batch) && u.status == PENDING
      modifies db
      ensures Uploaded(old(db.rows), db.rows, Unique(items), u)
      ensures db.batches == old(db.batches)[batch := NewBatch(|InBatch(db.rows, batch)|, u.now)]
    {
      var unique := Deduplicate(items);
      CreateBatch(batch, |unique|, u.now);
      ghost var before := db.rows;
      var stored := UpsertItems(items, u);
      BatchHoldsStored(before, db.rows, unique, u, batch, stored);
    }

    /** Every item is queued again, in a new batch. */
    method Rebuild(batch: BatchId, now: Time)
      requires batch !in db.batches
      modifies db
      ensures db.rows == Requeued(old(db.rows), batch, now)
      ensures forall id :: id in old(db.rows) ==>
        id in db.rows && db.rows[id] == old(db.rows)[id].(status := PENDING, batch := Some(batch), updatedAt := now)
      ensures db.batches == old(db.batches)[batch := NewBatch(|InBatch(db.rows, batch)|, now)]
    {
      CreateBatch(batch, |db.rows|, now);
      db.rows := Requeued(db.rows, batch, now);
      assert InBatch(db.rows, batch) == old(db.rows).Keys;
    }

    // ---- Deletion ----

    method DeleteItem(externalId: string, remote: Remote) returns (r: DeleteResult)
      modifies db`rows, store
      ensures r.NotFound? <==> !HasItem(old(db.rows), externalId)
      ensures r.NotFound? ==> db.rows == old(db.rows) && store.vectors == old(store.vectors)
      ensures !r.NotFound? ==>
        OneDeletion(old(db.rows), old(store.vectors), externalId, remote, db.rows, store.vectors, r)
    {
      if id :| id in db.rows && db.rows[id].externalId == externalId {
        var outcome := Gone;
        ghost var order: seq<Id> := [];
        if db.rows[id].pineconeId.Some? {
          order := [db.rows[id].pineconeId.value];
          outcome := store.DeleteItems([db.rows[id].pineconeId.value], remote);
        }
        assert SetOf(order) == VectorIds(db.rows, {id});
        if outcome.Gone? { db.rows := db.rows - {id}; }
        assert DeletionOf(old(db.rows), old(store.vectors), id, externalId, order, remote, db.rows, store.vectors,
                          outcome);
        return if outcome.Gone? then Removed else StoreFailed;
      }
      return NotFound;
    }

    /** Deletes the given items, or all of them; `missing` are the ids that named none. */
    method DeleteItems(externalIds: Option<seq<string>>, remote: Remote)
      returns (r: DeleteResult, deleted: nat, missing: seq<string>, ghost targets: set<Id>, ghost order: seq<Id>)
      requires UniqueExternalIds(db.rows)
      modifies db`rows, store
      ensures Targeted(old(db.rows), externalIds, targets)
      ensures Deletion(old(db.rows), old(store.vectors), targets, order, remote, db.rows, store.vectors,
                       Deleted(old(store.vectors), order, remote).1)
      ensures r == if Deleted(old(store.vectors), order, remote).1.Gone? then Removed else StoreFailed
      ensures r.Removed? ==> deleted == |targets|
      ensures r.Removed? ==> forall e :: e in missing <==>
        externalIds.Some? && e in externalIds.value && !HasItem(old(db.rows), e)
      ensures forall i, j :: 0 <= i < j < |missing| ==> missing[i] != missing[j]
    {
      var items := set id | id in db.rows && (externalIds.Some? ==> db.rows[id].externalId in externalIds.value);
      targets := items;
      var ids := VectorIdsInOrder(items);
      order := ids;
      var outcome := store.DeleteItems(ids, remote);
      deleted, missing := |items|, [];
      if !outcome.Gone? { return StoreFailed, deleted, missing, targets, order; }
      if externalIds.Some? { missing := NamingNone(externalIds.value); }
      db.rows := db.rows - items;
      r := Removed;
    }

    method VectorIdsInOrder(items: set<Id>) returns (ids: seq<Id>)
      requires items <= db.rows.Keys
      ensures SetOf(ids) == VectorIds(db.rows, items)
    {
      ids := [];
      var rest := items;
      while rest != {}
        invariant rest <= items && SetOf(ids) == VectorIds(db.rows, items - rest)
        decreases |rest|
      {
        var id :| id in rest;
        if db.rows[id].pineconeId.Some? {
          SetOfAppend(ids, db.rows[id].pineconeId.value);
          ids := ids + [db.rows[id].pineconeId.value];
        }
        rest := rest - {id};
      }
      assert items - {} == items;
    }

    /** Each external id that names no row, once. */
    method NamingNone(externalIds: seq<string>) returns (missing: seq<string>)
      ensures forall e :: e in missing <==> e in externalIds && !HasItem(db.rows, e)
      ensures forall i, j :: 0 <= i < j < |missing| ==> missing[i] != missing[j]
    {
      missing := [];
      for i := 0 to |externalIds|
        invariant forall e :: e in missing <==> e in externalIds[..i] && !HasItem(db.rows, e)
        invariant forall j, k :: 0 <= j < k < |missing| ==> missing[j] != missing[k]
      {
        assert externalIds[..i + 1] == externalIds[..i] + [externalIds[i]];
        var found := exists id :: id in db.rows && db.rows[id].externalId == externalIds[i];
        assert found <==> HasItem(db.rows, externalIds[i]);
        if !found && externalIds[i] !in missing { missing := missing + [externalIds[i]]; }
      }
      assert externalIds[..|externalIds|] == externalIds;
    }
  }

  /** `stored` are the rows of the entries, in their order. */
  ghost predicate Stores(rows: Table, entries: Dict<string, string>, stored: seq<Id>) {
    && |stored| == |entries|
    && forall i :: 0 <= i < |entries| ==> stored[i] in rows && rows[stored[i]].externalId == entries[i].0
  }

  lemma SetOfAppend(ids: seq<Id>, id: Id)
    ensures SetOf(ids + [id]) == SetOf(ids) + {id}
  {
  }

  lemma {:induction false} DistinctSize(ids: seq<Id>)
    requires forall i, j :: 0 <= i < j < |ids| ==> ids[i] != ids[j]
    ensures |SetOf(ids)| == |ids|
  {
    if ids == [] {
      assert SetOf(ids) == {};
    } else {
      var front, last := ids[..|ids| - 1], ids[|ids| - 1];
      DistinctSize(front);
      SetOfAppend(front, last);
      assert ids == front + [last] && last !in front;
    }
  }

  lemma BatchHoldsStored(before: Table, after: Table, entries: Dict<string, string>, u: Upload, batch: BatchId,
                         stored: seq<Id>)
    requires DistinctKeys(entries) && Uploaded(before, after, entries, u) && Stores(after, entries, stored)
    requires InBatch(before, batch) == {} && u.batch == Some(batch)
    ensures |InBatch(after, batch)| == |entries|
  {
    forall id | id in after ensures after[id].batch == Some(batch) <==> HasKey(entries, after[id].externalId) {
      if id in before {
        assert id !in InBatch(before, batch);
      } else {
        assert AddedBy(id, after[id], entries, u);
      }
    }
    forall id | id in InBatch(after, batch) ensures id in stored {
      var i := GetWitness(entries, after[id].externalId);
      assert stored[i] == id;
    }
    forall i | 0 <= i < |stored| ensures stored[i] in InBatch(after, batch) {
      assert entries[i].0 == after[stored[i]].externalId;
    }
    assert InBatch(after, batch) == SetOf(stored);
    DistinctSize(stored);
  }
}
