/** The queue of PENDING items and the progress of a batch (app/services/embedding/pipeline.py). */
module Batches {
  import opened Dicts
  import opened Items
  import opened VectorStore
  import opened Embedding

  // ---- The queue ----

  /** PENDING and, when a batch is given, in it. */
  predicate Waiting(rows: Table, batch: Option<BatchId>, id: Id) {
    Has(rows, id, PENDING) && (batch.Some? ==> rows[id].batch == batch)
  }

  function WaitingIn(rows: Table, batch: Option<BatchId>): (r: set<Id>)
    ensures forall id :: id in r <==> Waiting(rows, batch, id)
  {
    set id | id in rows && Waiting(rows, batch, id)
  }

  /** Oldest first. */
  ghost predicate Queued(rows: Table, ids: seq<Id>)
    requires forall i :: 0 <= i < |ids| ==> ids[i] in rows
  {
    forall i, j :: 0 <= i < j < |ids| ==> rows[ids[i]].createdAt <= rows[ids[j]].createdAt
  }

  ghost predicate AfterAll(rows: Table, ids: seq<Id>, id: Id) {
    id in rows && forall i :: 0 <= i < |ids| && ids[i] in rows ==> rows[ids[i]].createdAt <= rows[id].createdAt
  }

  /** The first `limit` waiting items. */
  ghost predicate QueueFront(rows: Table, batch: Option<BatchId>, limit: nat, ids: seq<Id>) {
    && DistinctIn(rows, ids) && |ids| <= limit && Queued(rows, ids)
    && (forall id :: id in ids ==> Waiting(rows, batch, id))
    && forall id :: Waiting(rows, batch, id) && id !in ids ==> |ids| == limit && AfterAll(rows, ids, id)
  }

  lemma {:induction false} EarliestExists(rows: Table, pool: set<Id>)
    requires pool != {} && pool <= rows.Keys
    ensures exists id :: id in pool && forall other :: other in pool ==> rows[id].createdAt <= rows[other].createdAt
  {
    var first :| first in pool;
    if pool != {first} {
      EarliestExists(rows, pool - {first});
      var best :| best in pool - {first}
        && forall other :: other in pool - {first} ==> rows[best].createdAt <= rows[other].createdAt;
      var id := if rows[first].createdAt <= rows[best].createdAt then first else best;
      assert forall other :: other in pool ==> rows[id].createdAt <= rows[other].createdAt;
    }
  }

  // ---- refresh_batch ----

  function InBatch(rows: Table, batch: BatchId): set<Id> {
    set id | id in rows && rows[id].batch == Some(batch)
  }

  function InStatus(rows: Table, batch: BatchId, status: Status): set<Id> {
    set id | id in rows && rows[id].batch == Some(batch) && rows[id].status == status
  }

  function Refreshed(rows: Table, id: BatchId, batch: Batch, now: Time): Batch {
    var done, failed := |InStatus(rows, id, DONE)|, |InStatus(rows, id, FAILED)|;
    var processing := |InStatus(rows, id, PROCESSING)|;
    var outstanding := |InStatus(rows, id, PENDING)| + processing;
    var counted := batch.(processed := done, failed := failed);
    if batch.Complete() then batch
    else if outstanding == 0 then
      counted.(status := if failed > 0 then BATCH_PARTIAL_FAIL else BATCH_DONE, completedAt := Some(now))
    else if done > 0 || failed > 0 || processing > 0 then counted.(status := BATCH_PROCESSING)
    else counted
  }

  predicate Outstanding(rows: Table, batch: BatchId) {
    exists id ::
      id in rows && rows[id].batch == Some(batch) && (rows[id].status == PENDING || rows[id].status == PROCESSING)
  }

  lemma OutstandingIs(rows: Table, id: BatchId)
    ensures Outstanding(rows, id) <==> |InStatus(rows, id, PENDING)| + |InStatus(rows, id, PROCESSING)| > 0
  {
    if Outstanding(rows, id) {
      var x :| x in rows && rows[x].batch == Some(id) && (rows[x].status == PENDING || rows[x].status == PROCESSING);
      assert x in InStatus(rows, id, PENDING) || x in InStatus(rows, id, PROCESSING);
    } else {
      assert InStatus(rows, id, PENDING) == {} && InStatus(rows, id, PROCESSING) == {};
    }
  }

  lemma SettledCount(rows: Table, id: BatchId)
    requires !Outstanding(rows, id)
    ensures |InStatus(rows, id, DONE)| + |InStatus(rows, id, FAILED)| == |InBatch(rows, id)|
  {
    assert InBatch(rows, id) == InStatus(rows, id, DONE) + InStatus(rows, id, FAILED);
    assert InStatus(rows, id, DONE) !! InStatus(rows, id, FAILED);
  }

  /** What a record not yet complete becomes: its counters are the DONE and the FAILED items; it completes,
      DONE exactly when none failed, when no item is outstanding; until then it is PROCESSING unless every item
      still waits. */
  ghost predicate Recounted(rows: Table, id: BatchId, batch: Batch, now: Time, r: Batch) {
    && r.total == batch.total
    && r.processed == |InStatus(rows, id, DONE)| && r.failed == |InStatus(rows, id, FAILED)|
    && if !Outstanding(rows, id) then
         && r.processed + r.failed == |InBatch(rows, id)| && r.completedAt == Some(now)
         && r.status == (if InStatus(rows, id, FAILED) == {} then BATCH_DONE else BATCH_PARTIAL_FAIL)
       else
         && r.completedAt == batch.completedAt
         && r.status == (if AllWaiting(rows, id) then batch.status else BATCH_PROCESSING)
  }

  predicate AllWaiting(rows: Table, id: BatchId) {
    forall x :: x in rows && rows[x].batch == Some(id) ==> rows[x].status == PENDING
  }

  lemma AllWaitingIs(rows: Table, id: BatchId)
    ensures AllWaiting(rows, id) <==>
              |InStatus(rows, id, DONE)| + |InStatus(rows, id, FAILED)| + |InStatus(rows, id, PROCESSING)| == 0
  {
    if !AllWaiting(rows, id) {
      var x :| x in rows && rows[x].batch == Some(id) && rows[x].status != PENDING;
      assert x in InStatus(rows, id, DONE) || x in InStatus(rows, id, FAILED) || x in InStatus(rows, id, PROCESSING);
    } else {
      assert InStatus(rows, id, DONE) == InStatus(rows, id, FAILED) == InStatus(rows, id, PROCESSING) == {};
    }
  }

  lemma RefreshedIs(rows: Table, id: BatchId, batch: Batch, now: Time)
    requires !batch.Complete()
    ensures Recounted(rows, id, batch, now, Refreshed(rows, id, batch, now))
  {
    OutstandingIs(rows, id);
    AllWaitingIs(rows, id);
    if !Outstanding(rows, id) { SettledCount(rows, id); }
  }

  // ---- A run of process_batch ----

  datatype BatchRun = NoBatch | Paused | Finished

  predicate SameItem(a: Row, b: Row) {
    a.externalId == b.externalId && a.batch == b.batch && a.data == b.data && a.createdAt == b.createdAt
  }

  /** Only the batch's PENDING items have moved: to DONE or FAILED, or they are PENDING still. */
  ghost predicate Advanced(before: Table, after: Table, batch: BatchId) {
    && after.Keys == before.Keys
    && (forall id :: id in before && !Waiting(before, Some(batch), id) ==> after[id] == before[id])
    && forall id :: Waiting(before, Some(batch), id) ==>
         SameItem(before[id], after[id]) && after[id].status != PROCESSING
  }

  /** One round: claim, then process. */
  lemma RoundAdvances(rows: Table, vectors: Namespace, batch: BatchId, limit: nat, ids: seq<Id>, t: Time,
                      config: Config, up: Upstream, now: Time, r: Stored)
    requires QueueFront(rows, Some(batch), limit, ids)
    requires Processed(AfterClaim(rows, SetOf(ids), t), vectors, ids, config, up, now, r)
    ensures Advanced(rows, r.rows, batch)
    ensures !r.raised ==> WaitingIn(r.rows, Some(batch)) == WaitingIn(rows, Some(batch)) - SetOf(ids)
  {
    var claimed := AfterClaim(rows, SetOf(ids), t);
    forall id | id in rows
      ensures id in r.rows && (id !in ids ==> r.rows[id] == rows[id])
      ensures id in ids ==> SameItem(rows[id], r.rows[id]) && r.rows[id].status != PROCESSING
      ensures id in ids && !r.raised ==> r.rows[id].status != PENDING
    {
      assert id in ids ==> Waiting(rows, Some(batch), id);
      if id in ids { ItemSettles(claimed, vectors, ids, config, up, now, r, id); }
    }
  }

  lemma ItemSettles(rows: Table, vectors: Namespace, ids: seq<Id>, config: Config, up: Upstream, now: Time, r: Stored,
                    id: Id)
    requires Processed(rows, vectors, ids, config, up, now, r) && id in ids && rows[id].status == PROCESSING
    ensures SameItem(rows[id], r.rows[id]) && r.rows[id].status != PROCESSING
    ensures !r.raised ==> r.rows[id].status != PENDING
  {
    assert Outcome(id, rows[id], HandedBack(rows[id], now), r.rows[id], vectors, r, config, up);
  }

  predicate Started(rows: Table, batch: BatchId) {
    exists id :: id in rows && rows[id].batch == Some(batch) && rows[id].status != PENDING
  }

  lemma StartedIs(rows: Table, batch: BatchId)
    ensures Started(rows, batch) <==>
      || |InStatus(rows, batch, DONE)| > 0
      || |InStatus(rows, batch, FAILED)| > 0
      || |InStatus(rows, batch, PROCESSING)| > 0
  {
    if Started(rows, batch) {
      var id :| id in rows && rows[id].batch == Some(batch) && rows[id].status != PENDING;
      assert id in InStatus(rows, batch, rows[id].status);
    } else {
      assert forall status :: status != PENDING ==> InStatus(rows, batch, status) == {};
    }
  }

  /** Refreshing as the work goes and again at the end leaves what the last refresh alone would have. */
  lemma RefreshTwice(before: Table, after: Table, id: BatchId, batch: Batch, t0: Time, t1: Time)
    requires Advanced(before, after, id) && (before == after || Outstanding(before, id))
    ensures var b := Refreshed(before, id, batch, t0);
            Refreshed(after, id, b, t1) == Refreshed(after, id, batch, if b.Complete() then t0 else t1)
  {
    OutstandingIs(before, id);
    StartedIs(before, id);
    StartedIs(after, id);
  }

  /** The record is complete, its counters add up to the batch's items, and it is DONE exactly when all of
      them are. */
  ghost predicate Tallied(before: Table, after: Table, id: BatchId, record: Batch) {
    && record.Complete() && record.processed + record.failed == |InBatch(after, id)| == |InBatch(before, id)|
    && record.processed == |InStatus(after, id, DONE)| && record.failed == |InStatus(after, id, FAILED)|
    && (record.status == BATCH_DONE <==> forall x :: x in InBatch(after, id) ==> after[x].status == DONE)
  }

  /** A batch none of whose items was being processed elsewhere is complete when `process_batch` has
      finished: its counters add up to its items, and it is DONE exactly when none failed. */
  lemma FinishedCompletes(before: Table, after: Table, id: BatchId, batch: Batch, now: Time)
    requires Advanced(before, after, id) && WaitingIn(after, Some(id)) == {}
    requires !batch.Complete() && InStatus(before, id, PROCESSING) == {}
    ensures Tallied(before, after, id, Refreshed(after, id, batch, now))
  {
    RefreshedIs(after, id, batch, now);
    forall x | x in after && after[x].batch == Some(id) ensures after[x].status == DONE || after[x].status == FAILED {
      assert !Waiting(after, Some(id), x);
      assert before[x].status == PROCESSING ==> x in InStatus(before, id, PROCESSING);
    }
    assert InBatch(after, id) == InBatch(before, id);
    assert forall x :: x in InStatus(after, id, FAILED) ==> x in InBatch(after, id) && after[x].status != DONE;
    assert forall x :: x in InBatch(after, id) && after[x].status != DONE ==> x in InStatus(after, id, FAILED);
  }

  lemma RoundFrees(before: Table, after: Table, ids: seq<Id>, batch: BatchId)
    requires ids != [] && forall id :: id in ids ==> Waiting(before, Some(batch), id)
    ensures Outstanding(before, batch)
    ensures WaitingIn(after, Some(batch)) == WaitingIn(before, Some(batch)) - SetOf(ids)
        ==> |WaitingIn(after, Some(batch))| < |WaitingIn(before, Some(batch))|
  {
    assert ids[0] in SetOf(ids) && Waiting(before, Some(batch), ids[0]);
    if WaitingIn(after, Some(batch)) == WaitingIn(before, Some(batch)) - SetOf(ids) {
      assert ids[0] in WaitingIn(before, Some(batch)) - WaitingIn(after, Some(batch));
      SmallerSet(WaitingIn(after, Some(batch)), WaitingIn(before, Some(batch)), ids[0]);
    }
  }

  lemma SmallerSet(a: set<Id>, b: set<Id>, extra: Id)
    requires a <= b && extra in b && extra !in a
    ensures |a| < |b|
  {
    assert |b - a| + |a| == |b|;
    assert extra in b - a;
  }

  /** `b` is `batch`, refreshed on these rows at `t` or not at all. */
  ghost predicate Refreshes(batch: Batch, b: Batch, rows: Table, id: BatchId, t: Time) {
    b == batch || b == Refreshed(rows, id, batch, t)
  }

  lemma RefreshAgain(batch: Batch, b: Batch, before: Table, after: Table, id: BatchId, t: Time, now: Time)
    returns (t': Time)
    requires Refreshes(batch, b, before, id, t)
    requires Advanced(before, after, id) && (before == after || Outstanding(before, id))
    ensures Refreshed(after, id, b, now) == Refreshed(after, id, batch, t')
  {
    t' := now;
    if b != batch {
      RefreshTwice(before, after, id, batch, t, now);
      t' := if b.Complete() then t else now;
    }
  }

  /** What a round of claiming and processing leaves. */
  ghost predicate Round(before: Table, vectors: Namespace, after: Table, vectors': Namespace, batch: BatchId,
                        claimed: nat, raised: bool, up: Upstream) {
    && Advanced(before, after, batch)
    && (claimed == 0 ==> after == before && vectors' == vectors && WaitingIn(after, Some(batch)) == {} && !raised)
    && (claimed > 0 ==> Outstanding(before, batch))
    && (claimed > 0 && !raised ==> |WaitingIn(after, Some(batch))| < |WaitingIn(before, Some(batch))|)
    && (Healthy(up) ==> !raised)
    && (Linked(before, vectors) ==> Linked(after, vectors'))
  }

  lemma RoundIs(before: Table, vectors: Namespace, batch: BatchId, limit: nat, ids: seq<Id>, config: Config,
                up: Upstream,
                now: Time, r: Stored)
    requires ids != [] && QueueFront(before, Some(batch), limit, ids) && (Healthy(up) ==> !r.raised)
    requires Processed(AfterClaim(before, SetOf(ids), now), vectors, ids, config, up, now, r)
    ensures Round(before, vectors, r.rows, r.vectors, batch, |ids|, r.raised, up)
  {
    RoundAdvances(before, vectors, batch, limit, ids, now, config, up, now, r);
    RoundFrees(before, r.rows, ids, batch);
    ClaimKeepsLinked(before, vectors, ids, now);
    if Linked(before, vectors) {
      ProcessKeepsLinked(AfterClaim(before, SetOf(ids), now), vectors, ids, config, up, now, r);
    }
  }

  lemma ClaimKeepsLinked(rows: Table, vectors: Namespace, ids: seq<Id>, now: Time)
    ensures Linked(rows, vectors) ==> Linked(AfterClaim(rows, SetOf(ids), now), vectors)
  {
  }

  /** Since (rows0, v0, batch0): the batch's items have advanced, and its record is refreshed at `t` or not at all. */
  ghost predicate Underway(rows0: Table, v0: Namespace, batch0: Batch, rows: Table, v: Namespace, batch: Batch,
                           id: BatchId, t: Time)
  {
    && Advanced(rows0, rows, id)
    && Refreshes(batch0, batch, rows, id, t)
    && (Linked(rows0, v0) ==> Linked(rows, v))
  }

  ghost predicate Stage(rows0: Table, v0: Namespace, batches0: map<BatchId, Batch>,
                        rows: Table, v: Namespace, batches: map<BatchId, Batch>, id: BatchId, t: Time) {
    && id in batches0 && id in batches && batches == batches0[id := batches[id]]
    && Underway(rows0, v0, batches0[id], rows, v, batches[id], id, t)
  }

  /** The batch's record as one more refresh will make it: refreshed once since the start. */
  ghost predicate Unrefreshed(rows0: Table, v0: Namespace, batches0: map<BatchId, Batch>,
                              rows: Table, v: Namespace, batches: map<BatchId, Batch>, id: BatchId, now: Time,
                              t: Time)
  {
    && id in batches0 && id in batches && batches == batches0[id := batches[id]]
    && Advanced(rows0, rows, id) && (Linked(rows0, v0) ==> Linked(rows, v))
    && Refreshed(rows, id, batches[id], now) == Refreshed(rows, id, batches0[id], t)
  }

  lemma RoundGoesOn(rows0: Table, v0: Namespace, batches0: map<BatchId, Batch>, rows: Table, v: Namespace,
                    batches: map<BatchId, Batch>, id: BatchId, t: Time,
                    after: Table, v': Namespace, claimed: nat, raised: bool, up: Upstream, now: Time) returns (t': Time)
    requires Stage(rows0, v0, batches0, rows, v, batches, id, t) && Round(rows, v, after, v', id, claimed, raised, up)
    ensures Unrefreshed(rows0, v0, batches0, after, v', batches, id, now, t')
  {
    t' := RefreshAgain(batches0[id], batches[id], rows, after, id, t, now);
  }

  lemma RefreshReaches(rows0: Table, v0: Namespace, batches0: map<BatchId, Batch>, rows: Table, v: Namespace,
                       batches: map<BatchId, Batch>, id: BatchId, now: Time, t: Time)
    requires Unrefreshed(rows0, v0, batches0, rows, v, batches, id, now, t)
    ensures var after := batches[id := Refreshed(rows, id, batches[id], now)];
            Stage(rows0, v0, batches0, rows, v, after, id, t) && RefreshedOnce(batches0, after, rows, id)
  {
    assert batches[id := Refreshed(rows, id, batches[id], now)] == batches0[id := Refreshed(rows, id, batches0[id], t)];
  }

  /** The batch's record is refreshed on these rows; no other record changes. */
  ghost predicate RefreshedOnce(before: map<BatchId, Batch>, after: map<BatchId, Batch>, rows: Table, id: BatchId) {
    id in before && exists now :: after == before[id := Refreshed(rows, id, before[id], now)]
  }

  // ---- process_pending ----

  function BatchesOf(rows: Table, ids: seq<Id>): (r: set<BatchId>)
    ensures forall b :: b in r <==> exists id :: id in ids && id in rows && rows[id].batch == Some(b)
  {
    set id | id in ids && id in rows && rows[id].batch.Some? :: rows[id].batch.value
  }

  function RefreshedAll(rows: Table, batches: map<BatchId, Batch>, ids: set<BatchId>, now: Time): map<BatchId, Batch> {
    map id | id in batches :: if id in ids then Refreshed(rows, id, batches[id], now) else batches[id]
  }

  lemma NothingToRelease(rows: Table, ids: seq<Id>, now: Time)
    requires forall id :: id in ids ==> id in rows && rows[id].status != PROCESSING
    ensures Released(rows, SetOf(ids), now) == rows
  {
  }
}
