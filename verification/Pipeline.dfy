/** The embedding pipeline (app/services/embedding/pipeline.py). */
module Pipeline {
  import opened Dicts
  import opened Items
  import opened Sequences
  import opened VectorStore
  import opened Embedding
  import opened Batches

  class EmbeddingPipeline {
    const db: Database
    const store: PineconeNamespace

    constructor (db: Database, store: PineconeNamespace)
      ensures this.db == db && this.store == store
    {
      this.db, this.store := db, store;
    }

    /** Fails the items without text and returns the others. */
    method SelectEmbeddable(ids: seq<Id>, config: Config) returns (embeddable: seq<Id>)
      requires DistinctIn(db.rows, ids)
      modifies db`rows
      ensures embeddable == Embeddable(old(db.rows), ids, config)
      ensures db.rows == FailAll(old(db.rows), Without(ids, embeddable), config, NO_TEXT)
    {
      embeddable := [];
      assert FailAll(db.rows, {}, config, NO_TEXT) == db.rows;
      assert ids[0..] == ids && Without(ids[..0], []) == {};
      for i := 0 to |ids|
        invariant db.rows == FailAll(old(db.rows), Without(ids[..i], embeddable), config, NO_TEXT)
        invariant embeddable + Embeddable(old(db.rows), ids[i..], config) == Embeddable(old(db.rows), ids, config)
        invariant SetOf(embeddable) <= SetOf(ids[..i])
      {
        EmbeddableTurn(old(db.rows), ids, i, embeddable, config);
        WithoutTurn(ids, i, embeddable);
        FailOne(old(db.rows), Without(ids[..i], embeddable), ids[i], config, NO_TEXT);
        if config.buildText(db.rows[ids[i]].data) != "" {
          embeddable := embeddable + [ids[i]];
        } else {
          db.rows := db.rows[ids[i] := FailRow(db.rows[ids[i]], config, NO_TEXT)];
        }
      }
      assert ids[|ids|..] == [] && ids[..|ids|] == ids;
    }

    /** `_embed`: vectors by item, failing those whose text is rejected. */
    method EmbedItems(ids: seq<Id>, config: Config, up: Upstream) returns (vectors: map<Id, Vec>, down: bool)
      requires DistinctIn(db.rows, ids) && ValidUpstream(up)
      modifies db`rows
      ensures var e := Embed(old(db.rows), ids, config, up);
              && vectors == e.vectors && down == e.down
              && db.rows == FailAll(old(db.rows), e.rejected, config, REJECTED)
    {
      var answer := up.embed(0, TextsOf(db.rows, ids, config));
      assert db.rows == FailAll(db.rows, {}, config, REJECTED);
      if answer.EmbeddingDown? { return map[], true; }
      if answer.Embedded? { return Zip(ids, answer.vectors), false; }
      if |ids| == 1 {
        db.rows := db.rows[ids[0] := FailRow(db.rows[ids[0]], config, REJECTED)];
        return map[], false;
      }
      vectors, down := map[], false;
      ghost var known := NOTHING_KNOWN;
      for i := 0 to |ids|
        invariant OneByOne(old(db.rows), ids[i..], i + 1, config, up, known)
               == OneByOne(old(db.rows), ids, 1, config, up, NOTHING_KNOWN)
        invariant vectors == known.vectors && !known.down
        invariant db.rows == FailAll(old(db.rows), known.rejected, config, REJECTED)
        invariant forall id :: id in known.rejected ==> id in ids[..i]
      {
        var id := ids[i];
        assert ids[i..][1..] == ids[i + 1..] && ids[i..][0] == id;
        assert ids[..i + 1] == ids[..i] + [id] && id !in ids[..i];
        var text := [config.buildText(db.rows[id].data)];
        var one := up.embed(i + 1, text);
        if one.EmbeddingDown? { return vectors, true; }
        if one.InputRejected? {
          db.rows := db.rows[id := FailRow(db.rows[id], config, REJECTED)];
          known := known.(rejected := known.rejected + {id});
        } else {
          assert |one.vectors| == |text|;
          vectors := vectors[id := one.vectors[0]];
          known := known.(vectors := vectors);
        }
      }
    }

    /** The outcome of the upsert, written to the db.rows. */
    method SettleReady(ready: seq<Id>, failed: seq<Id>, config: Config)
      requires DistinctIn(db.rows, ready)
      modifies db`rows
      ensures db.rows == Settle(old(db.rows), SetOf(ready), SetOf(failed), config)
    {
      for i := 0 to |ready|
        invariant db.rows == Settle(old(db.rows), SetOf(ready[..i]), SetOf(failed), config)
      {
        var id := ready[i];
        if id in failed {
          db.rows := db.rows[id := FailRow(db.rows[id], config, UPSERT_FAILED)];
        } else {
          db.rows := db.rows[id := DoneRow(id, db.rows[id], config)];
        }
      }
      assert ready[..|ready|] == ready;
    }

    method EmbedAndStoreItems(ids: seq<Id>, config: Config, up: Upstream) returns (raised: bool)
      requires DistinctIn(db.rows, ids) && ValidUpstream(up)
      modifies db`rows, store
      ensures Stored(db.rows, store.vectors, raised) == EmbedAndStore(old(db.rows), old(store.vectors), ids, config, up)
    {
      var embeddable := SelectEmbeddable(ids, config);
      if embeddable == [] { return false; }
      EmbeddableDistinct(old(db.rows), ids, config);
      raised := EmbedAndStoreEmbeddable(embeddable, config, up);
    }

    method EmbedAndStoreEmbeddable(ids: seq<Id>, config: Config, up: Upstream) returns (raised: bool)
      requires DistinctIn(db.rows, ids) && ValidUpstream(up)
      modifies db`rows, store
      ensures Stored(db.rows, store.vectors, raised)
           == StoreEmbedded(old(db.rows), old(store.vectors), ids, Embed(old(db.rows), ids, config, up), config, up)
    {
      var vectors, down := EmbedItems(ids, config, up);
      if down { return true; }
      var ready := Ready(ids, vectors);
      if ready == [] { return false; }
      if !up.indexReady { return true; }
      ReadyDistinct(db.rows, ids, vectors);
      assert forall i :: 0 <= i < |ready| ==> ready[i] in ready;
      var failed := store.UpsertBatch(Entries(db.rows, ready, vectors, config), up.accepts);
      SettleReady(ready, failed, config);
      return false;
    }

    /** After a failure upstream, items not settled go back to the queue. */
    method ReturnToQueue(ids: seq<Id>, now: Time)
      requires DistinctIn(db.rows, ids)
      modifies db`rows
      ensures db.rows == Released(old(db.rows), SetOf(ids), now)
    {
      for i := 0 to |ids|
        invariant db.rows == Released(old(db.rows), SetOf(ids[..i]), now)
      {
        ReleaseOne(old(db.rows), ids, i, now);
        if db.rows[ids[i]].status == PROCESSING {
          db.rows := db.rows[ids[i] := db.rows[ids[i]].(status := PENDING, updatedAt := now)];
        }
      }
      assert ids[..|ids|] == ids;
    }

    method ProcessItems(ids: seq<Id>, config: Config, up: Upstream, now: Time) returns (raised: bool)
      requires DistinctIn(db.rows, ids) && ValidUpstream(up)
      modifies db`rows, store
      ensures Stored(db.rows, store.vectors, raised) == Process(old(db.rows), old(store.vectors), ids, config, up, now)
    {
      if ids == [] {
        assert FailAll(db.rows, {}, config, NO_TEXT) == db.rows;
        assert Without([], []) == {};
        return false;
      }
      raised := EmbedAndStoreItems(ids, config, up);
      if raised { ReturnToQueue(ids, now); }
    }

    // ---- Claiming and batch bookkeeping ----

    /** The SELECT of `claim_items`. */
    method SelectPending(batch: Option<BatchId>, limit: nat) returns (found: seq<Id>)
      ensures QueueFront(db.rows, batch, limit, found)
    {
      found := [];
      var pool := WaitingIn(db.rows, batch);
      while |found| < limit && pool != {}
        invariant DistinctIn(db.rows, found) && |found| <= limit && Queued(db.rows, found)
        invariant forall id :: Waiting(db.rows, batch, id) <==> id in pool || id in found
        invariant forall id :: id in pool ==> id !in found && AfterAll(db.rows, found, id)
        decreases |pool|
      {
        EarliestExists(db.rows, pool);
        var id :| id in pool && forall other :: other in pool ==> db.rows[id].createdAt <= db.rows[other].createdAt;
        found, pool := found + [id], pool - {id};
      }
    }

    method ClaimItems(batch: Option<BatchId>, limit: nat, now: Time) returns (claimed: seq<Id>)
      modifies db`rows
      ensures QueueFront(old(db.rows), batch, limit, claimed)
      ensures db.rows == AfterClaim(old(db.rows), SetOf(claimed), now)
    {
      claimed := SelectPending(batch, limit);
      db.rows := AfterClaim(db.rows, SetOf(claimed), now);
    }

    method RefreshBatch(id: BatchId, now: Time)
      requires id in db.batches
      modifies db`batches
      ensures db.batches == old(db.batches)[id := Refreshed(db.rows, id, old(db.batches)[id], now)]
      ensures old(db.batches)[id].Complete() ==> db.batches == old(db.batches)
      ensures !old(db.batches)[id].Complete() ==>
        Recounted(db.rows, id, old(db.batches)[id], now, db.batches[id])
    {
      if !db.batches[id].Complete() { RefreshedIs(db.rows, id, db.batches[id], now); }
      db.batches := db.batches[id := Refreshed(db.rows, id, db.batches[id], now)];
    }

    /** One turn of `process_batch`: claim, then process what was claimed. */
    method ProcessRound(id: BatchId, chunk: nat, config: Config, up: Upstream, now: Time)
      returns (claimed: nat, raised: bool)
      requires chunk > 0 && ValidUpstream(up)
      modifies db`rows, store
      ensures Round(old(db.rows), old(store.vectors), db.rows, store.vectors, id, claimed, raised, up)
    {
      ghost var before, vectors := db.rows, store.vectors;
      var items := ClaimItems(Some(id), chunk, now);
      claimed, raised := |items|, false;
      if items != [] {
        ghost var taken := db.rows;
        raised := ProcessItems(items, config, up, now);
        ProcessIs(taken, vectors, items, config, up, now);
        if Healthy(up) { HealthyNeverRaises(taken, vectors, items, config, up, now); }
        RoundIs(before, vectors, id, chunk, items, config, up, now, Stored(db.rows, store.vectors, raised));
      }
    }

    /** The rounds of `process_batch`: until nothing is left to claim or upstream fails, in round `k`. */
    method ProcessRounds(id: BatchId, chunk: nat, config: Config, ups: nat -> Upstream, now: nat -> Time)
      returns (r: BatchRun, k: nat, ghost t: Time)
      requires chunk > 0 && (forall k :: ValidUpstream(ups(k))) && id in db.batches
      modifies db, store
      ensures Unrefreshed(old(db.rows), old(store.vectors), old(db.batches), db.rows, store.vectors, db.batches, id,
                          now(k), t)
      ensures if r.Finished? then WaitingIn(db.rows, Some(id)) == {} else r.Paused? && !Healthy(ups(k))
    {
      ghost var rows0, v0, batches0 := db.rows, store.vectors, db.batches;
      assert Advanced(rows0, rows0, id);
      k, t := 0, 0;
      while true
        invariant Stage(rows0, v0, batches0, db.rows, store.vectors, db.batches, id, t)
        decreases |WaitingIn(db.rows, Some(id))|
      {
        ghost var rows, v := db.rows, store.vectors;
        var claimed, raised := ProcessRound(id, chunk, config, ups(k), now(k));
        t := RoundGoesOn(rows0, v0, batches0, rows, v, db.batches, id, t,
                         db.rows, store.vectors, claimed, raised, ups(k), now(k));
        if raised { return Paused, k, t; }
        if claimed == 0 { return Finished, k, t; }
        RefreshReaches(rows0, v0, batches0, db.rows, store.vectors, db.batches, id, now(k), t);
        RefreshBatch(id, now(k));
        k := k + 1;
      }
    }

    /** Every PENDING item of a batch, `chunk` at a time; `ups(k)` and `now(k)` are round `k`'s. */
    method ProcessBatch(id: BatchId, chunk: nat, config: Config, ups: nat -> Upstream, now: nat -> Time)
      returns (r: BatchRun)
      requires chunk > 0 && forall k :: ValidUpstream(ups(k))
      modifies db, store
      ensures r.NoBatch? <==> id !in old(db.batches)
      ensures r.NoBatch? ==>
        db.rows == old(db.rows) && db.batches == old(db.batches) && store.vectors == old(store.vectors)
      ensures Advanced(old(db.rows), db.rows, id)
      ensures r.Finished? ==> WaitingIn(db.rows, Some(id)) == {}
      ensures (forall k :: Healthy(ups(k))) ==> !r.Paused?
      ensures !r.NoBatch? ==> RefreshedOnce(old(db.batches), db.batches, db.rows, id)
      ensures r.Finished? && !old(db.batches)[id].Complete() && InStatus(old(db.rows), id, PROCESSING) == {} ==>
        id in db.batches && Tallied(old(db.rows), db.rows, id, db.batches[id])
      ensures Linked(old(db.rows), old(store.vectors)) ==> Linked(db.rows, store.vectors)
    {
      assert Advanced(db.rows, db.rows, id);
      if id !in db.batches { return NoBatch; }
      ghost var rows0, v0, batches0 := db.rows, store.vectors, db.batches;
      var k: nat;
      ghost var t: Time;
      r, k, t := ProcessRounds(id, chunk, config, ups, now);
      RefreshReaches(rows0, v0, batches0, db.rows, store.vectors, db.batches, id, now(k), t);
      if r.Finished? && !batches0[id].Complete() && InStatus(rows0, id, PROCESSING) == {} {
        FinishedCompletes(rows0, db.rows, id, batches0[id], t);
      }
      RefreshBatch(id, now(k));
    }

    method ReleaseItems(ids: seq<Id>, now: Time)
      modifies db`rows
      ensures db.rows == Released(old(db.rows), SetOf(ids), now)
    {
      db.rows := Released(db.rows, SetOf(ids), now);
    }

    method ReleaseStaleItems(cutoff: Time, now: Time)
      modifies db`rows
      ensures db.rows == Released(old(db.rows), Stale(old(db.rows), cutoff), now)
    {
      db.rows := Released(db.rows, Stale(db.rows, cutoff), now);
    }

    method RefreshBatches(ids: set<BatchId>, now: Time)
      modifies db`batches
      ensures db.batches == RefreshedAll(db.rows, old(db.batches), ids, now)
    {
      var rest := ids;
      assert RefreshedAll(db.rows, db.batches, {}, now) == db.batches;
      while rest != {}
        invariant rest <= ids && db.batches == RefreshedAll(db.rows, old(db.batches), ids - rest, now)
        decreases |rest|
      {
        var id :| id in rest;
        if id in db.batches { RefreshBatch(id, now); }
        rest := rest - {id};
      }
      assert ids - {} == ids;
    }

    /** The worker's turn, for one tenant: recover stale work, then one chunk of the queue. */
    method ProcessPending(limit: nat, cutoff: Time, config: Config, up: Upstream, now: Time)
      returns (items: seq<Id>, raised: bool)
      requires ValidUpstream(up)
      modifies db, store
      ensures var ready := Released(old(db.rows), Stale(old(db.rows), cutoff), now);
              && QueueFront(ready, None, limit, items)
              && DistinctIn(AfterClaim(ready, SetOf(items), now), items)
              && Stored(db.rows, store.vectors, raised)
                 == Process(AfterClaim(ready, SetOf(items), now), old(store.vectors), items, config, up, now)
      ensures forall id :: id in items ==>
        id in db.rows && db.rows[id].status in (if raised then {PENDING, FAILED} else {DONE, FAILED})
      ensures db.batches.Keys == old(db.batches).Keys
      ensures forall b :: b in db.batches ==>
        db.batches[b] == if exists id :: id in items && db.rows[id].batch == Some(b)
                         then Refreshed(db.rows, b, old(db.batches)[b], now) else old(db.batches)[b]
    {
      ReleaseStaleItems(cutoff, now);
      ghost var ready, vectors := db.rows, store.vectors;
      items := ClaimItems(None, limit, now);
      ghost var claimed := db.rows;
      ProcessSettles(claimed, vectors, items, config, up, now);
      raised := ProcessItems(items, config, up, now);
      if raised {
        NothingToRelease(db.rows, items, now);
        ReleaseItems(items, now);
      }
      RefreshBatches(BatchesOf(db.rows, items), now);
    }
  }
}
