/** One tenant's Pinecone namespace and its chunked writes
    (app/services/embedding/pinecone_service.py). A request that fails has stored or deleted nothing. */
module VectorStore {
  import opened Items
  import opened Sequences

  datatype StoredVector = StoredVector(values: Vec, metadata: Metadata)

  type Namespace = map<Id, StoredVector>
  type Entry = (Id, StoredVector)

  const UPSERT_CHUNK_SIZE: nat := 100
  const DELETE_CHUNK_SIZE: nat := 1000

  function Min(a: nat, b: nat): nat {
    if a <= b then a else b
  }

  function SetOf(ids: seq<Id>): set<Id> {
    set id | id in ids
  }

  // ---- upsert_batch ----

  function PutAll(vectors: Namespace, entries: seq<Entry>): Namespace
    decreases |entries|
  {
    if entries == [] then vectors
    else PutAll(vectors, entries[..|entries| - 1])[entries[|entries| - 1].0 := entries[|entries| - 1].1]
  }

  function IdsOf(entries: seq<Entry>): (r: seq<Id>)
    ensures |r| == |entries| && forall i :: 0 <= i < |r| ==> r[i] == entries[i].0
  {
    seq(|entries|, i requires 0 <= i < |entries| => entries[i].0)
  }

  /** Chunks from number `k` on; `accepts(k)`: whether that request goes through. */
  function UpsertChunks(vectors: Namespace, entries: seq<Entry>, k: nat, accepts: nat -> bool): (Namespace, seq<Id>)
    decreases |entries|
  {
    if entries == [] then (vectors, [])
    else
      var n := Min(UPSERT_CHUNK_SIZE, |entries|);
      var chunk := entries[..n];
      var next := if accepts(k) then PutAll(vectors, chunk) else vectors;
      var (after, failed) := UpsertChunks(next, entries[n..], k + 1, accepts);
      (after, (if accepts(k) then [] else IdsOf(chunk)) + failed)
  }

  function Prepend(failed: seq<Id>, r: (Namespace, seq<Id>)): (Namespace, seq<Id>) {
    (r.0, failed + r.1)
  }

  /** One turn of the chunk loop. */
  lemma {:induction false} UpsertTurn(vectors: Namespace, entries: seq<Entry>, start: nat, k: nat, accepts: nat -> bool,
                                      failed: seq<Id>)
    requires start < |entries|
    ensures var n := Min(UPSERT_CHUNK_SIZE, |entries| - start);
            var chunk := entries[start..start + n];
            Prepend(failed, UpsertChunks(vectors, entries[start..], k, accepts))
            == if accepts(k) then
                 Prepend(failed, UpsertChunks(PutAll(vectors, chunk), entries[start + n..], k + 1, accepts))
               else Prepend(failed + IdsOf(chunk), UpsertChunks(vectors, entries[start + n..], k + 1, accepts))
  {
    var n := Min(UPSERT_CHUNK_SIZE, |entries| - start);
    var chunk := entries[start..start + n];
    assert entries[start..][..n] == chunk && entries[start..][n..] == entries[start + n..];
    var next := if accepts(k) then PutAll(vectors, chunk) else vectors;
    var rest := UpsertChunks(next, entries[start + n..], k + 1, accepts).1;
    assert failed + ([] + rest) == failed + rest;
    assert failed + (IdsOf(chunk) + rest) == failed + IdsOf(chunk) + rest;
  }

  // ---- delete_items ----

  datatype ChunkAnswer = ChunkDeleted | ChunkNotFound | ChunkFailed

  /** Opening the index may fail; `answers(k)` is what chunk `k` gets. There is no index only while nothing
      is stored. */
  datatype Remote = Down | NoIndex | Open(answers: nat -> ChunkAnswer)

  datatype DeleteOutcome = Gone | NotGone | Unavailable

  /** "Not found" ends the deletion, and is only said of a namespace that holds nothing; said of any other it
      counts as a request that went through. */
  function DeleteChunks(vectors: Namespace, ids: seq<Id>, k: nat, answers: nat -> ChunkAnswer): (Namespace,
                                                                                                 DeleteOutcome)
    decreases |ids|
  {
    if ids == [] || (answers(k).ChunkNotFound? && vectors == map[]) then (vectors, Gone)
    else if answers(k).ChunkFailed? then (vectors, NotGone)
    else
      var n := Min(DELETE_CHUNK_SIZE, |ids|);
      DeleteChunks(vectors - SetOf(ids[..n]), ids[n..], k + 1, answers)
  }

  function Deleted(vectors: Namespace, ids: seq<Id>, remote: Remote): (Namespace, DeleteOutcome) {
    if ids == [] then (vectors, Gone)
    else
      match remote
      case Down => (vectors, Unavailable)
      case NoIndex => if vectors == map[] then (vectors, Gone) else (vectors, Unavailable)
      case Open(answers) => DeleteChunks(vectors, ids, 0, answers)
  }

  class PineconeNamespace {
    var vectors: Namespace

    constructor ()
      ensures vectors == map[]
    {
      vectors := map[];
    }

    /** Returns the ids of the chunks that failed; it never raises. */
    method UpsertBatch(entries: seq<Entry>, accepts: nat -> bool) returns (failed: seq<Id>)
      modifies this
      ensures (vectors, failed) == UpsertChunks(old(vectors), entries, 0, accepts)
    {
      failed := [];
      var start, k := 0, 0;
      assert entries[0..] == entries;
      assert [] + UpsertChunks(vectors, entries, 0, accepts).1 == UpsertChunks(vectors, entries, 0, accepts).1;
      while start < |entries|
        invariant 0 <= start <= |entries|
        invariant Prepend(failed, UpsertChunks(vectors, entries[start..], k, accepts))
               == UpsertChunks(old(vectors), entries, 0, accepts)
      {
        UpsertTurn(vectors, entries, start, k, accepts, failed);
        var n := Min(UPSERT_CHUNK_SIZE, |entries| - start);
        var chunk := entries[start..start + n];
        if accepts(k) {
          vectors := PutAll(vectors, chunk);
        } else {
          failed := failed + IdsOf(chunk);
        }
        start, k := start + n, k + 1;
      }
      assert entries[start..] == [];
      assert failed + [] == failed;
    }

    /** True ("Gone") when all of them are gone. */
    method DeleteItems(ids: seq<Id>, remote: Remote) returns (r: DeleteOutcome)
      modifies this
      ensures (vectors, r) == Deleted(old(vectors), ids, remote)
    {
      if ids == [] { return Gone; }
      if remote.Down? || (remote.NoIndex? && vectors != map[]) { return Unavailable; }
      if remote.NoIndex? { return Gone; }
      var start, k := 0, 0;
      assert ids[0..] == ids;
      while start < |ids|
        invariant 0 <= start <= |ids|
        invariant DeleteChunks(vectors, ids[start..], k, remote.answers)
               == DeleteChunks(old(vectors), ids, 0, remote.answers)
      {
        var answer := remote.answers(k);
        if answer.ChunkNotFound? && vectors == map[] { return Gone; }
        if answer.ChunkFailed? { return NotGone; }
        var n := Min(DELETE_CHUNK_SIZE, |ids| - start);
        assert ids[start..][..n] == ids[start..start + n] && ids[start..][n..] == ids[start + n..];
        vectors := vectors - SetOf(ids[start..start + n]);
        start, k := start + n, k + 1;
      }
      assert ids[start..] == [];
      return Gone;
    }
  }

  // ---- What the chunk loops amount to ----

  ghost predicate Mentions(entries: seq<Entry>, id: Id) {
    exists i :: 0 <= i < |entries| && entries[i].0 == id
  }

  /** The entry for `id` is in `vectors`. */
  ghost predicate HoldsEntry(vectors: Namespace, entries: seq<Entry>, id: Id) {
    forall i :: 0 <= i < |entries| && entries[i].0 == id ==> id in vectors && vectors[id] == entries[i].1
  }

  ghost predicate SameAt(a: Namespace, b: Namespace, id: Id) {
    (id in a <==> id in b) && (id in b ==> a[id] == b[id])
  }

  ghost predicate DistinctEntries(entries: seq<Entry>) {
    forall i, j :: 0 <= i < j < |entries| ==> entries[i].0 != entries[j].0
  }

  lemma {:induction false} PutAllIs(vectors: Namespace, entries: seq<Entry>, id: Id)
    requires DistinctEntries(entries)
    ensures HoldsEntry(PutAll(vectors, entries), entries, id)
    ensures !Mentions(entries, id) ==> SameAt(PutAll(vectors, entries), vectors, id)
    decreases |entries|
  {
    if entries != [] { PutAllIs(vectors, entries[..|entries| - 1], id); }
  }

  /** Each entry is either stored as given or reported failed with its vector as it was; no other
      vector changes. */
  lemma {:induction false} UpsertChunksIs(vectors: Namespace, entries: seq<Entry>, k: nat, accepts: nat -> bool, id: Id)
    requires DistinctEntries(entries)
    ensures var (after, failed) := UpsertChunks(vectors, entries, k, accepts);
            && (id !in failed ==> HoldsEntry(after, entries, id))
            && (id in failed || !Mentions(entries, id) ==> SameAt(after, vectors, id))
            && (id in failed ==> Mentions(entries, id))
    decreases |entries|
  {
    if entries != [] {
      var n := Min(UPSERT_CHUNK_SIZE, |entries|);
      var chunk, rest := entries[..n], entries[n..];
      var next := if accepts(k) then PutAll(vectors, chunk) else vectors;
      assert forall i :: 0 <= i < |rest| ==> rest[i] == entries[n + i];
      assert forall i :: n <= i < |entries| ==> entries[i] == rest[i - n];
      assert forall i :: 0 <= i < n ==> entries[i] == chunk[i];
      PutAllIs(vectors, chunk, id);
      UpsertChunksIs(next, rest, k + 1, accepts, id);
      assert forall i :: 0 <= i < n ==> IdsOf(chunk)[i] == chunk[i].0;
      assert id in IdsOf(chunk) <==> exists i :: 0 <= i < n && chunk[i].0 == id;
    }
  }

  lemma ChunkNumber(i: nat)
    ensures i < UPSERT_CHUNK_SIZE ==> i / UPSERT_CHUNK_SIZE == 0
    ensures i >= UPSERT_CHUNK_SIZE ==> i / UPSERT_CHUNK_SIZE == (i - UPSERT_CHUNK_SIZE) / UPSERT_CHUNK_SIZE + 1
  {
  }

  lemma DistinctRest(entries: seq<Entry>, n: nat)
    requires DistinctEntries(entries) && n <= |entries|
    ensures DistinctEntries(entries[n..])
  {
    assert forall j :: 0 <= j < |entries| - n ==> entries[n..][j] == entries[n + j];
  }

  lemma ChunkIds(entries: seq<Entry>, n: nat, i: nat)
    requires DistinctEntries(entries) && n <= |entries| && i < |entries|
    ensures entries[i].0 in IdsOf(entries[..n]) <==> i < n
    ensures i < n ==> !Mentions(entries[n..], entries[i].0)
  {
    assert forall j :: 0 <= j < n ==> IdsOf(entries[..n])[j] == entries[j].0;
    assert forall j :: 0 <= j < |entries| - n ==> entries[n..][j] == entries[n + j];
  }

  /** One of the chunks from number `k` on holds the id and is refused. */
  ghost predicate Lost(entries: seq<Entry>, k: nat, accepts: nat -> bool, id: Id)
    decreases |entries|
  {
    entries != []
    && var n := Min(UPSERT_CHUNK_SIZE, |entries|);
       (!accepts(k) && id in IdsOf(entries[..n])) || Lost(entries[n..], k + 1, accepts, id)
  }

  lemma {:induction false} FailedIsLost(vectors: Namespace, entries: seq<Entry>, k: nat, accepts: nat -> bool, id: Id)
    ensures id in UpsertChunks(vectors, entries, k, accepts).1 <==> Lost(entries, k, accepts, id)
    decreases |entries|
  {
    if entries != [] {
      var n := Min(UPSERT_CHUNK_SIZE, |entries|);
      FailedIsLost(if accepts(k) then PutAll(vectors, entries[..n]) else vectors, entries[n..], k + 1, accepts, id);
    }
  }

  lemma {:induction false} LostIsMentioned(entries: seq<Entry>, k: nat, accepts: nat -> bool, id: Id)
    requires Lost(entries, k, accepts, id)
    ensures Mentions(entries, id)
    decreases |entries|
  {
    var n := Min(UPSERT_CHUNK_SIZE, |entries|);
    if id in IdsOf(entries[..n]) {
      var j :| 0 <= j < n && IdsOf(entries[..n])[j] == id;
      assert entries[j].0 == id;
    } else {
      LostIsMentioned(entries[n..], k + 1, accepts, id);
      var j :| 0 <= j < |entries| - n && entries[n..][j].0 == id;
      assert entries[n + j].0 == id;
    }
  }

  lemma {:induction false} LostByChunk(entries: seq<Entry>, k: nat, accepts: nat -> bool, i: nat)
    requires DistinctEntries(entries) && i < |entries|
    ensures Lost(entries, k, accepts, entries[i].0) <==> !accepts(k + i / UPSERT_CHUNK_SIZE)
    decreases |entries|
  {
    var n := Min(UPSERT_CHUNK_SIZE, |entries|);
    DistinctRest(entries, n);
    ChunkIds(entries, n, i);
    ChunkNumber(i);
    if i < n {
      if Lost(entries[n..], k + 1, accepts, entries[i].0) {
        LostIsMentioned(entries[n..], k + 1, accepts, entries[i].0);
      }
    } else {
      LostByChunk(entries[n..], k + 1, accepts, i - n);
      assert entries[n..][i - n] == entries[i] && k + 1 + (i - n) / UPSERT_CHUNK_SIZE == k + i / UPSERT_CHUNK_SIZE;
    }
  }

  /** An entry fails exactly when its own chunk is refused. */
  lemma {:induction false} FailsByChunk(vectors: Namespace, entries: seq<Entry>, accepts: nat -> bool, i: nat)
    requires DistinctEntries(entries) && i < |entries|
    ensures entries[i].0 in UpsertChunks(vectors, entries, 0, accepts).1 <==> !accepts(i / UPSERT_CHUNK_SIZE)
  {
    FailedIsLost(vectors, entries, 0, accepts, entries[i].0);
    LostByChunk(entries, 0, accepts, i);
  }

  /** The first `n` ids are deleted: all of them when it answers "Gone", whole requests when "NotGone". */
  ghost predicate DeletesFirst(vectors: Namespace, ids: seq<Id>, n: nat, after: Namespace, r: DeleteOutcome) {
    && n <= |ids| && after == vectors - SetOf(ids[..n])
    && (r.Gone? ==> after == vectors - SetOf(ids))
    && (r.NotGone? ==> n % DELETE_CHUNK_SIZE == 0 && n < |ids|)
  }

  lemma {:induction false} DeleteChunksIs(vectors: Namespace, ids: seq<Id>, k: nat, answers: nat -> ChunkAnswer)
    ensures var (after, r) := DeleteChunks(vectors, ids, k, answers);
            !r.Unavailable? && exists n: nat :: DeletesFirst(vectors, ids, n, after, r)
    decreases |ids|
  {
    var (after, r) := DeleteChunks(vectors, ids, k, answers);
    if ids == [] || (answers(k).ChunkNotFound? && vectors == map[]) || answers(k).ChunkFailed? {
      assert ids[..0] == [] && DeletesFirst(vectors, ids, 0, after, r);
    } else {
      var c := Min(DELETE_CHUNK_SIZE, |ids|);
      var next := vectors - SetOf(ids[..c]);
      DeleteChunksIs(next, ids[c..], k + 1, answers);
      var m: nat :| DeletesFirst(next, ids[c..], m, after, r);
      assert ids == ids[..c] + ids[c..];
      assert ids[..c + m] == ids[..c] + ids[c..][..m];
      assert SetOf(ids[..c + m]) == SetOf(ids[..c]) + SetOf(ids[c..][..m]);
      assert SetOf(ids) == SetOf(ids[..c]) + SetOf(ids[c..]);
      assert DeletesFirst(vectors, ids, c + m, after, r);
    }
  }

  /** Deleting removes a prefix of the ids, all of them when it reports them gone. */
  lemma DeletedIs(vectors: Namespace, ids: seq<Id>, remote: Remote) returns (n: nat)
    ensures var (after, r) := Deleted(vectors, ids, remote);
            DeletesFirst(vectors, ids, n, after, r) && (r.Unavailable? ==> after == vectors)
  {
    n := 0;
    if remote.Open? && ids != [] {
      DeleteChunksIs(vectors, ids, 0, remote.answers);
      var (after, r) := Deleted(vectors, ids, remote);
      n :| DeletesFirst(vectors, ids, n, after, r);
    }
  }
}
