/** Runs of uploads, claims, embedding, rebuilds and deletions, one after the other, with any failures
    upstream: the tenant's table and its Pinecone namespace stay in agreement
    (app/services/item_service.py, app/services/embedding/pipeline.py,
    app/services/embedding/pinecone_service.py). */
module TenantIndex {
  import opened Dicts
  import opened Items
  import opened VectorStore
  import opened Embedding
  import opened ItemChanges

  /** `lost`: history only, the vectors deleted by a deletion that then failed, until stored again. */
  datatype State = State(rows: Table, vectors: Namespace, lost: set<Id>)

  datatype Step =
    | Send(entries: Dict<string, string>, upload: Upload)
    | Claim(ids: set<Id>, now: Time)
    | Work(items: seq<Id>, config: Config, up: Upstream, now: Time)
    | Release(ids: set<Id>, now: Time)
    | Rebuild(batch: BatchId, now: Time)
    | Delete(targets: set<Id>, order: seq<Id>, remote: Remote)

  /** The deletion stopped part-way. */
  predicate CutShort(s: State, step: Step) {
    step.Delete? && Deleted(s.vectors, step.order, step.remote).1.NotGone?
  }

  ghost predicate Changes(s: State, step: Step, s': State, sanitize: Metadata -> Metadata) {
    match step
    case Send(entries, upload) =>
      && (upload.status == PENDING || upload.status == PROCESSING) && NewIds(s.rows, entries, upload.ids)
      && Uploaded(s.rows, s'.rows, entries, upload) && s'.vectors == s.vectors
    case Claim(ids, now) => s'.rows == AfterClaim(s.rows, ids, now) && s'.vectors == s.vectors
    case Work(items, config, up, now) =>
      && DistinctIn(s.rows, items) && ValidUpstream(up) && config.sanitize == sanitize
      && var r := Process(s.rows, s.vectors, items, config, up, now); s'.rows == r.rows && s'.vectors == r.vectors
    case Release(ids, now) => s'.rows == Released(s.rows, ids, now) && s'.vectors == s.vectors
    case Rebuild(batch, now) => s'.rows == Requeued(s.rows, batch, now) && s'.vectors == s.vectors
    case Delete(targets, order, remote) =>
      Deletion(s.rows, s.vectors, targets, order, remote, s'.rows, s'.vectors, Deleted(s.vectors, order, remote).1)
  }

  ghost predicate Follows(s: State, step: Step, s': State, sanitize: Metadata -> Metadata) {
    && Changes(s, step, s', sanitize)
    && s'.lost == s.lost + (if CutShort(s, step) then s.vectors.Keys else {}) - s'.vectors.Keys
  }

  ghost predicate IsRun(states: seq<State>, steps: seq<Step>, sanitize: Metadata -> Metadata) {
    && |states| == |steps| + 1
    && forall i :: 0 <= i < |steps| ==> Follows(states[i], steps[i], states[i + 1], sanitize)
  }

  ghost predicate Agrees(s: State, sanitize: Metadata -> Metadata) {
    Linked(s.rows, s.vectors) && IntactBut(s.rows, s.vectors, s.lost, sanitize)
  }

  lemma SendKeeps(s: State, step: Step, s': State, sanitize: Metadata -> Metadata)
    requires step.Send? && Follows(s, step, s', sanitize) && Agrees(s, sanitize)
    ensures Agrees(s', sanitize)
  {
    forall id | id in s'.rows
      ensures id in s.rows ==> s'.rows[id].pineconeId == s.rows[id].pineconeId
      ensures id !in s.rows ==> s'.rows[id].pineconeId == None
      ensures s'.rows[id].status == DONE ==> id in s.rows && s'.rows[id] == s.rows[id]
    {
      assert id !in s.rows ==> AddedBy(id, s'.rows[id], step.entries, step.upload);
    }
  }

  lemma DeleteKeeps(s: State, step: Step, s': State, sanitize: Metadata -> Metadata)
    requires step.Delete? && Follows(s, step, s', sanitize) && Agrees(s, sanitize)
    ensures Agrees(s', sanitize)
  {
    var n := DeletedIs(s.vectors, step.order, step.remote);
    var sent := VectorIds(s.rows, step.targets);
    forall id | id in s.vectors ensures id in sent <==> id in step.targets {
      assert id in step.targets ==> s.rows[id].pineconeId == Some(id);
      if id in sent {
        var target :| target in step.targets && target in s.rows && s.rows[target].pineconeId == Some(id);
        assert target == id;
      }
    }
    assert s'.vectors.Keys <= s.vectors.Keys;
    assert forall id :: id in s'.vectors ==> s'.vectors[id] == s.vectors[id];
    forall id | Has(s'.rows, id, DONE) && id !in s'.lost ensures HoldsVector(s'.vectors, id, s'.rows[id], sanitize) {
      assert s'.rows[id] == s.rows[id];
      assert id !in s.lost ==> HoldsVector(s.vectors, id, s.rows[id], sanitize);
      assert id in s.lost ==> id !in s'.vectors;
    }
  }

  lemma StepKeepsAgreement(s: State, step: Step, s': State, sanitize: Metadata -> Metadata)
    requires Follows(s, step, s', sanitize) && Agrees(s, sanitize)
    ensures Agrees(s', sanitize)
  {
    match step
    case Send(_, _) => SendKeeps(s, step, s', sanitize);
    case Work(items, config, up, now) =>
      var r := Process(s.rows, s.vectors, items, config, up, now);
      ProcessIs(s.rows, s.vectors, items, config, up, now);
      ProcessKeepsLinked(s.rows, s.vectors, items, config, up, now, r);
      ProcessKeepsIntact(s.rows, s.vectors, items, config, up, now, s.lost, r);
    case Delete(_, _, _) => DeleteKeeps(s, step, s', sanitize);
    case _ =>
  }

  /** In every run, each vector belongs to a live row that names it, and each DONE row has its vector with
      matching metadata unless a deletion that failed part-way took it. */
  lemma {:induction false} RunKeepsAgreement(states: seq<State>, steps: seq<Step>, sanitize: Metadata -> Metadata)
    requires IsRun(states, steps, sanitize) && Agrees(states[0], sanitize)
    ensures forall i :: 0 <= i < |states| ==> Agrees(states[i], sanitize)
  {
    for i := 0 to |steps|
      invariant forall j :: 0 <= j <= i ==> Agrees(states[j], sanitize)
    {
      MoveKeepsAgreement(states, steps, sanitize, i);
    }
  }

  /** Nothing is ever lost while each deletion that fails part-way fits in one request. */
  lemma {:induction false} SmallDeletionsLoseNothing(states: seq<State>, steps: seq<Step>,
                                                     sanitize: Metadata -> Metadata)
    requires IsRun(states, steps, sanitize) && states[0].lost == {}
    requires forall i :: 0 <= i < |steps| && CutShort(states[i], steps[i]) ==> |steps[i].order| <= DELETE_CHUNK_SIZE
    ensures forall i :: 0 <= i < |states| ==> states[i].lost == {}
  {
    for i := 0 to |steps|
      invariant forall j :: 0 <= j <= i ==> states[j].lost == {}
    {
      if CutShort(states[i], steps[i]) {
        var n := DeletedIs(states[i].vectors, steps[i].order, steps[i].remote);
        assert n == 0 && SetOf(steps[i].order[..0]) == {};
      }
    }
  }

  /** A vector is lost only to a deletion of more than one request, in one of the requests that went
      through before the one that failed. */
  lemma LostOnlyPartWay(s: State, step: Step, s': State, sanitize: Metadata -> Metadata, id: Id)
    requires Follows(s, step, s', sanitize) && Agrees(s, sanitize) && id in s'.lost && id !in s.lost
    ensures CutShort(s, step)
    ensures exists n :: 0 < n < |step.order| && n % DELETE_CHUNK_SIZE == 0 && id in step.order[..n]
  {
    assert CutShort(s, step) && id in s.vectors && id !in s'.vectors;
    var n := DeletedIs(s.vectors, step.order, step.remote);
    assert id in SetOf(step.order[..n]);
  }

  // ---- When a deletion can take the vector of a DONE row it then keeps ----

  /** The deletion fails although it took the stored vector of a DONE row. */
  ghost predicate Takes(s: State, order: seq<Id>, remote: Remote) {
    var (after, r) := Deleted(s.vectors, order, remote);
    r.NotGone? && exists id :: Has(s.rows, id, DONE) && id in s.vectors && id !in after
  }

  /** How many ids are in the requests before the last one. */
  function BeforeLast(order: seq<Id>): (n: nat)
    ensures n <= |order| && n % DELETE_CHUNK_SIZE == 0
    ensures forall m: nat :: m % DELETE_CHUNK_SIZE == 0 && m < |order| ==> m <= n
  {
    if order == [] then 0 else (|order| - 1) / DELETE_CHUNK_SIZE * DELETE_CHUNK_SIZE
  }

  /** A request goes through after the ids `sent` are deleted. */
  predicate GoesThrough(vectors: Namespace, sent: seq<Id>, answer: ChunkAnswer) {
    answer.ChunkDeleted? || (answer.ChunkNotFound? && !(vectors.Keys <= SetOf(sent)))
  }

  /** Requests `k` to `m - 1` go through, none of them finding the namespace already emptied, and request `m`
      fails. The ids from request `k` on are `order`. */
  ghost predicate FailsAt(vectors: Namespace, order: seq<Id>, k: nat, answers: nat -> ChunkAnswer, m: nat) {
    && k <= m && (m - k) * DELETE_CHUNK_SIZE < |order| && answers(m).ChunkFailed?
    && forall j :: k <= j < m ==> GoesThrough(vectors, order[..(j - k) * DELETE_CHUNK_SIZE], answers(j))
  }

  predicate StoredDone(s: State, id: Id) {
    id in s.vectors && Has(s.rows, id, DONE)
  }

  /** The answers fail the deletion after the request of some id with a vector and a DONE row. */
  ghost predicate FailsAfterTaking(s: State, order: seq<Id>, answers: nat -> ChunkAnswer) {
    exists m: nat, i: nat ::
      FailsAt(s.vectors, order, 0, answers, m) && i < m * DELETE_CHUNK_SIZE && StoredDone(s, order[i])
  }

  /** For any table, namespace, ids to delete and answers: the deletion fails although it took the vector of a
      DONE row exactly when the answers say so before it starts. */
  lemma TakesExactlyWhen(s: State, order: seq<Id>, remote: Remote)
    ensures Takes(s, order, remote) <==> remote.Open? && FailsAfterTaking(s, order, remote.answers)
  {
    if remote.Open? && order != [] {
      if m: nat :| FailsAt(s.vectors, order, 0, remote.answers, m) {
        FailsAtDeletes(s.vectors, order, 0, remote.answers, m);
      }
      if Takes(s, order, remote) {
        NotGoneFailsAt(s.vectors, order, 0, remote.answers);
        var m: nat :| FailsAt(s.vectors, order, 0, remote.answers, m);
        FailsAtDeletes(s.vectors, order, 0, remote.answers, m);
        var id :| StoredDone(s, id) && id in SetOf(order[..m * DELETE_CHUNK_SIZE]);
        var i :| 0 <= i < m * DELETE_CHUNK_SIZE && order[i] == id;
        assert StoredDone(s, order[i]);
      }
      if m: nat, i: nat :|
        FailsAt(s.vectors, order, 0, remote.answers, m) && i < m * DELETE_CHUNK_SIZE && StoredDone(s, order[i])
      {
        FailsAtDeletes(s.vectors, order, 0, remote.answers, m);
        assert order[i] in order[..m * DELETE_CHUNK_SIZE];
      }
    }
  }

  /** For any table, namespace and ids to delete: some failure part-way takes the vector of a DONE row that
      stays exactly when an id before the last request of 1000 still has its vector and a DONE row. */
  lemma TakesExactlyBeforeLast(s: State, order: seq<Id>)
    ensures (exists remote :: Takes(s, order, remote)) <==>
              exists i :: 0 <= i < BeforeLast(order) && order[i] in s.vectors && Has(s.rows, order[i], DONE)
  {
    if i :| 0 <= i < BeforeLast(order) && order[i] in s.vectors && Has(s.rows, order[i], DONE) {
      var m: nat := BeforeLast(order) / DELETE_CHUNK_SIZE;
      var answers := k => if k < m then ChunkDeleted else ChunkFailed;
      assert FailsAt(s.vectors, order, 0, answers, m) && StoredDone(s, order[i]);
      TakesExactlyWhen(s, order, Open(answers));
      assert Takes(s, order, Open(answers));
    }
    if remote :| Takes(s, order, remote) {
      TakesExactlyWhen(s, order, remote);
      var m: nat, i: nat :|
        FailsAt(s.vectors, order, 0, remote.answers, m) && i < m * DELETE_CHUNK_SIZE && StoredDone(s, order[i]);
      assert m * DELETE_CHUNK_SIZE <= BeforeLast(order);
    }
  }

  /** Every DONE row has its vector. */
  ghost predicate AllStored(s: State, sanitize: Metadata -> Metadata) {
    forall id :: Has(s.rows, id, DONE) ==> HoldsVector(s.vectors, id, s.rows[id], sanitize)
  }

  /** A deletion whose answers fail it after it took the vector of a DONE row. */
  ghost predicate Harmful(s: State, step: Step) {
    step.Delete? && step.remote.Open? && FailsAfterTaking(s, step.order, step.remote.answers)
  }

  /** In every run from such a state, every DONE row has its vector all along exactly when no deletion fails
      after taking the vector of a DONE row. */
  lemma {:induction false} StoredUnlessHarmed(states: seq<State>, steps: seq<Step>, sanitize: Metadata -> Metadata)
    requires IsRun(states, steps, sanitize) && Agrees(states[0], sanitize) && AllStored(states[0], sanitize)
    ensures (forall i :: 0 <= i < |states| ==> AllStored(states[i], sanitize)) <==>
              forall i :: 0 <= i < |steps| ==> !Harmful(states[i], steps[i])
  {
    RunKeepsAgreement(states, steps, sanitize);
    if forall i :: 0 <= i < |steps| ==> !Harmful(states[i], steps[i]) {
      for i := 0 to |steps|
        invariant forall j :: 0 <= j <= i ==> AllStored(states[j], sanitize)
      {
        StepStores(states[i], steps[i], states[i + 1], sanitize);
      }
    }
    if forall i :: 0 <= i < |states| ==> AllStored(states[i], sanitize) {
      forall i | 0 <= i < |steps| ensures !Harmful(states[i], steps[i]) {
        assert Follows(states[i], steps[i], states[i + 1], sanitize) && AllStored(states[i], sanitize);
        StepStores(states[i], steps[i], states[i + 1], sanitize);
      }
    }
  }

  // ---- One step, one request ----

  lemma MoveKeepsAgreement(states: seq<State>, steps: seq<Step>, sanitize: Metadata -> Metadata, i: nat)
    requires IsRun(states, steps, sanitize) && i < |steps| && Agrees(states[i], sanitize)
    ensures Agrees(states[i + 1], sanitize)
  {
    StepKeepsAgreement(states[i], steps[i], states[i + 1], sanitize);
  }

  lemma SentInTwo(order: seq<Id>, c: nat, n: nat)
    requires c + n <= |order|
    ensures SetOf(order[..c + n]) == SetOf(order[..c]) + SetOf(order[c..][..n])
  {
    assert order[..c + n] == order[..c] + order[c..][..n];
  }

  /** Whether a later request is the first to fail shows once request `k` is done with. */
  lemma FailsLater(vectors: Namespace, order: seq<Id>, k: nat, answers: nat -> ChunkAnswer, m: nat)
    requires k < m && DELETE_CHUNK_SIZE <= |order| && GoesThrough(vectors, [], answers(k))
    ensures FailsAt(vectors, order, k, answers, m) <==>
              FailsAt(vectors - SetOf(order[..DELETE_CHUNK_SIZE]), order[DELETE_CHUNK_SIZE..], k + 1, answers, m)
  {
    var c := DELETE_CHUNK_SIZE;
    if (m - k) * c < |order| {
      forall j | k < j < m
        ensures GoesThrough(vectors, order[..(j - k) * c], answers(j)) <==>
                  GoesThrough(vectors - SetOf(order[..c]), order[c..][..(j - k - 1) * c], answers(j))
      {
        SentInTwo(order, c, (j - k - 1) * c);
      }
      assert order[..0] == [];
    }
  }

  lemma {:induction false} FailsAtDeletes(vectors: Namespace, order: seq<Id>, k: nat, answers: nat -> ChunkAnswer,
                                          m: nat)
    requires FailsAt(vectors, order, k, answers, m)
    ensures DeleteChunks(vectors, order, k, answers) == (vectors - SetOf(order[..(m - k) * DELETE_CHUNK_SIZE]), NotGone)
    decreases m - k
  {
    if k == m {
      assert vectors - SetOf(order[..0]) == vectors;
    } else {
      var c := DELETE_CHUNK_SIZE;
      var next, rest := vectors - SetOf(order[..c]), (m - k - 1) * c;
      assert order[..0] == [] && GoesThrough(vectors, order[..(k - k) * c], answers(k));
      FailsLater(vectors, order, k, answers, m);
      FailsAtDeletes(next, order[c..], k + 1, answers, m);
      SentInTwo(order, c, rest);
      assert next - SetOf(order[c..][..rest]) == vectors - SetOf(order[..c + rest]);
    }
  }

  lemma {:induction false} NotGoneFailsAt(vectors: Namespace, order: seq<Id>, k: nat, answers: nat -> ChunkAnswer)
    requires DeleteChunks(vectors, order, k, answers).1.NotGone?
    ensures exists m: nat :: FailsAt(vectors, order, k, answers, m)
    decreases |order|
  {
    if answers(k).ChunkFailed? {
      assert FailsAt(vectors, order, k, answers, k);
    } else {
      var next, rest := vectors - SetOf(order[..DELETE_CHUNK_SIZE]), order[DELETE_CHUNK_SIZE..];
      NotGoneFailsAt(next, rest, k + 1, answers);
      var m: nat :| FailsAt(next, rest, k + 1, answers, m);
      FailsLater(vectors, order, k, answers, m);
    }
  }

  /** Only a deletion that fails after taking one can leave a DONE row without its vector. */
  lemma StepStores(s: State, step: Step, s': State, sanitize: Metadata -> Metadata)
    requires Follows(s, step, s', sanitize) && Agrees(s, sanitize) && AllStored(s, sanitize)
    ensures AllStored(s', sanitize) <==> !Harmful(s, step)
  {
    StepKeepsAgreement(s, step, s', sanitize);
    if step.Delete? {
      var n := DeletedIs(s.vectors, step.order, step.remote);
      TakesExactlyWhen(s, step.order, step.remote);
    } else {
      forall id | Has(s'.rows, id, DONE) ensures id !in s'.lost {
        if step.Work? {
          ProcessAt(s.rows, s.vectors, step.items, step.config, step.up, step.now, id);
        } else if step.Send? {
          assert id in s.rows || AddedBy(id, s'.rows[id], step.entries, step.upload);
        }
      }
    }
  }
}
