/** What embedding claimed items and storing their vectors does to the table and the tenant's namespace
    (app/services/embedding/pipeline.py). OpenAI's answers, the index being reachable and each Pinecone
    request going through are arguments. */
module Embedding {
  import opened Dicts
  import opened Matches
  import opened Items
  import opened VectorStore
  import opened Sequences

  /** What the tenant's domain config makes of an item, and how metadata is cleaned for Pinecone. */
  datatype Config = Config(
    buildText: string -> string, buildMetadata: (string, string) -> Metadata, sanitize: Metadata -> Metadata)

  datatype EmbedAnswer = Embedded(vectors: seq<Vec>) | InputRejected | EmbeddingDown

  /** `embed(k, texts)`: the answer to the call's request number `k`. */
  datatype Upstream = Upstream(embed: (nat, seq<string>) -> EmbedAnswer, indexReady: bool, accepts: nat -> bool)

  ghost predicate ValidUpstream(up: Upstream) {
    forall k, texts :: up.embed(k, texts).Embedded? ==> |up.embed(k, texts).vectors| == |texts|
  }

  ghost predicate DistinctIn(rows: Table, ids: seq<Id>) {
    && (forall i :: 0 <= i < |ids| ==> ids[i] in rows)
    && forall i, j :: 0 <= i < j < |ids| ==> ids[i] != ids[j]
  }

  // ---- Row updates ----

  function MetadataOf(row: Row, config: Config): Metadata {
    config.buildMetadata(row.data, row.externalId)
  }

  function FailRow(row: Row, config: Config, error: string): Row {
    row.(status := FAILED, metadata := MetadataOf(row, config)["error" := Str(error)])
  }

  function DoneRow(id: Id, row: Row, config: Config): Row {
    row.(status := DONE, pineconeId := Some(id), metadata := MetadataOf(row, config))
  }

  function FailAll(rows: Table, ids: set<Id>, config: Config, error: string): (r: Table)
    ensures r.Keys == rows.Keys
  {
    map id | id in rows :: if id in ids then FailRow(rows[id], config, error) else rows[id]
  }

  const NO_TEXT: string := "No embeddable text"
  const REJECTED: string := "OpenAI rejected the input text"
  const UPSERT_FAILED: string := "Pinecone upsert failed"

  function Embeddable(rows: Table, ids: seq<Id>, config: Config): (r: seq<Id>)
    requires forall i :: 0 <= i < |ids| ==> ids[i] in rows
    ensures forall id :: id in r <==> id in ids && id in rows && config.buildText(rows[id].data) != ""
  {
    if ids == [] then []
    else
      assert ids == [ids[0]] + ids[1..];
      (if config.buildText(rows[ids[0]].data) != "" then [ids[0]] else []) + Embeddable(rows, ids[1..], config)
  }

  function Without(ids: seq<Id>, kept: seq<Id>): set<Id> {
    SetOf(ids) - SetOf(kept)
  }

  // ---- _embed ----

  datatype Embeddings = Embeddings(vectors: map<Id, Vec>, rejected: set<Id>, down: bool)

  function Zip(ids: seq<Id>, vectors: seq<Vec>): (r: map<Id, Vec>)
    requires |ids| == |vectors|
    ensures r.Keys == SetOf(ids)
  {
    if ids == [] then map[]
    else
      assert ids == ids[..|ids| - 1] + [ids[|ids| - 1]];
      Zip(ids[..|ids| - 1], vectors[..|ids| - 1])[ids[|ids| - 1] := vectors[|ids| - 1]]
  }

  function TextsOf(rows: Table, ids: seq<Id>, config: Config): seq<string>
    requires forall i :: 0 <= i < |ids| ==> ids[i] in rows
  {
    seq(|ids|, i requires 0 <= i < |ids| => config.buildText(rows[ids[i]].data))
  }

  /** The retry one by one from request number `k`, stopping when the service goes down. */
  function OneByOne(rows: Table, ids: seq<Id>, k: nat, config: Config, up: Upstream, known: Embeddings): Embeddings
    requires ValidUpstream(up) && forall i :: 0 <= i < |ids| ==> ids[i] in rows
    decreases |ids|
  {
    if ids == [] then known
    else
      var text := [config.buildText(rows[ids[0]].data)];
      match up.embed(k, text)
      case EmbeddingDown => known.(down := true)
      case InputRejected => OneByOne(rows, ids[1..], k + 1, config, up, known.(rejected := known.rejected + {ids[0]}))
      case Embedded(vectors) =>
        assert |vectors| == |up.embed(k, text).vectors|;
        OneByOne(rows, ids[1..], k + 1, config, up, known.(vectors := known.vectors[ids[0] := vectors[0]]))
  }

  const NOTHING_KNOWN: Embeddings := Embeddings(map[], {}, false)

  function Embed(rows: Table, ids: seq<Id>, config: Config, up: Upstream): Embeddings
    requires ValidUpstream(up) && forall i :: 0 <= i < |ids| ==> ids[i] in rows
  {
    var texts := TextsOf(rows, ids, config);
    match up.embed(0, texts)
    case EmbeddingDown => NOTHING_KNOWN.(down := true)
    case Embedded(vectors) =>
      assert |vectors| == |up.embed(0, texts).vectors|;
      Embeddings(Zip(ids, vectors), {}, false)
    case InputRejected =>
      if |ids| == 1 then Embeddings(map[], {ids[0]}, false)
      else OneByOne(rows, ids, 1, config, up, NOTHING_KNOWN)
  }

  // ---- _embed_and_store ----

  function Ready(ids: seq<Id>, vectors: map<Id, Vec>): (r: seq<Id>)
    ensures forall id :: id in r <==> id in ids && id in vectors
  {
    if ids == [] then []
    else
      assert ids == [ids[0]] + ids[1..];
      (if ids[0] in vectors then [ids[0]] else []) + Ready(ids[1..], vectors)
  }

  function Entries(rows: Table, ready: seq<Id>, vectors: map<Id, Vec>, config: Config): seq<Entry>
    requires forall i :: 0 <= i < |ready| ==> ready[i] in rows && ready[i] in vectors
  {
    seq(|ready|, i requires 0 <= i < |ready| =>
      (ready[i], StoredVector(vectors[ready[i]], config.sanitize(MetadataOf(rows[ready[i]], config)))))
  }

  function Settle(rows: Table, ready: set<Id>, failed: set<Id>, config: Config): (r: Table)
    ensures r.Keys == rows.Keys
  {
    map id | id in rows ::
      if id !in ready then rows[id]
      else if id in failed then FailRow(rows[id], config, UPSERT_FAILED)
      else DoneRow(id, rows[id], config)
  }

  datatype Stored = Stored(rows: Table, vectors: Namespace, raised: bool)

  /** The items that have a vector, stored and settled. */
  function Upserted(rows: Table, vectors: Namespace, ready: seq<Id>, known: map<Id, Vec>, config: Config,
                    up: Upstream): Stored
    requires forall i :: 0 <= i < |ready| ==> ready[i] in rows && ready[i] in known
  {
    var (after, lost) := UpsertChunks(vectors, Entries(rows, ready, known, config), 0, up.accepts);
    Stored(Settle(rows, SetOf(ready), SetOf(lost), config), after, false)
  }

  /** From the embeddings on. */
  function StoreEmbedded(rows: Table, vectors: Namespace, ids: seq<Id>, e: Embeddings, config: Config,
                         up: Upstream): Stored
    requires forall i :: 0 <= i < |ids| ==> ids[i] in rows
  {
    var failed := FailAll(rows, e.rejected, config, REJECTED);
    var ready := Ready(ids, e.vectors);
    if e.down then Stored(failed, vectors, true)
    else if ready == [] then Stored(failed, vectors, false)
    else if !up.indexReady then Stored(failed, vectors, true)
    else
      assert forall i :: 0 <= i < |ready| ==> ready[i] in ids;
      Upserted(failed, vectors, ready, e.vectors, config, up)
  }

  function EmbedAndStore(rows: Table, vectors: Namespace, ids: seq<Id>, config: Config, up: Upstream): Stored
    requires ValidUpstream(up) && forall i :: 0 <= i < |ids| ==> ids[i] in rows
  {
    var embeddable := Embeddable(rows, ids, config);
    var texted := FailAll(rows, Without(ids, embeddable), config, NO_TEXT);
    assert forall i :: 0 <= i < |embeddable| ==> embeddable[i] in ids;
    if embeddable == [] then Stored(texted, vectors, false)
    else StoreEmbedded(texted, vectors, embeddable, Embed(texted, embeddable, config, up), config, up)
  }

  /** `process_items`: after a failure upstream, items not settled go back to the queue. */
  function Process(rows: Table, vectors: Namespace, ids: seq<Id>, config: Config, up: Upstream, now: Time): Stored
    requires ValidUpstream(up) && forall i :: 0 <= i < |ids| ==> ids[i] in rows
  {
    var r := EmbedAndStore(rows, vectors, ids, config, up);
    if r.raised then r.(rows := Released(r.rows, SetOf(ids), now)) else r
  }

  // ---- One row at a time ----

  lemma FailOne(rows: Table, failed: set<Id>, id: Id, config: Config, error: string)
    requires id in rows && id !in failed
    ensures FailAll(rows, failed, config, error)[id] == rows[id]
    ensures FailAll(rows, failed, config, error)[id := FailRow(rows[id], config, error)]
         == FailAll(rows, failed + {id}, config, error)
  {}

  lemma WithoutTurn(ids: seq<Id>, i: nat, kept: seq<Id>)
    requires i < |ids| && (forall j, k :: 0 <= j < k < |ids| ==> ids[j] != ids[k]) && SetOf(kept) <= SetOf(ids[..i])
    ensures ids[i] !in Without(ids[..i], kept)
    ensures Without(ids[..i + 1], kept) == Without(ids[..i], kept) + {ids[i]}
    ensures Without(ids[..i + 1], kept + [ids[i]]) == Without(ids[..i], kept)
    ensures SetOf(kept) <= SetOf(ids[..i + 1]) && SetOf(kept + [ids[i]]) <= SetOf(ids[..i + 1])
  {
    SetOfPrefix(ids, i);
    assert SetOf(kept + [ids[i]]) == SetOf(kept) + {ids[i]};
  }

  lemma SetOfPrefix(ids: seq<Id>, i: nat)
    requires i < |ids| && forall j, k :: 0 <= j < k < |ids| ==> ids[j] != ids[k]
    ensures SetOf(ids[..i + 1]) == SetOf(ids[..i]) + {ids[i]} && ids[i] !in SetOf(ids[..i])
  {
    assert ids[..i + 1] == ids[..i] + [ids[i]];
  }

  lemma {:induction false} EmbeddableTurn(rows: Table, ids: seq<Id>, i: nat, sofar: seq<Id>, config: Config)
    requires DistinctIn(rows, ids) && i < |ids|
    ensures sofar + Embeddable(rows, ids[i..], config)
         == (if config.buildText(rows[ids[i]].data) != "" then sofar + [ids[i]] else sofar)
            + Embeddable(rows, ids[i + 1..], config)
  {
    assert ids[i..][1..] == ids[i + 1..];
  }

  lemma ReleaseOne(rows: Table, ids: seq<Id>, i: nat, now: Time)
    requires DistinctIn(rows, ids) && i < |ids|
    ensures var id := ids[i];
            var before := Released(rows, SetOf(ids[..i]), now);
            && before[id] == rows[id]
            && Released(rows, SetOf(ids[..i + 1]), now)
               == if rows[id].status == PROCESSING then before[id := rows[id].(status := PENDING, updatedAt := now)]
                  else before
  {
    SetOfPrefix(ids, i);
  }

  lemma ConsDistinct(rows: Table, id: Id, rest: seq<Id>)
    requires id in rows && id !in rest && DistinctIn(rows, rest)
    ensures DistinctIn(rows, [id] + rest)
  {}

  lemma {:induction false} EmbeddableDistinct(rows: Table, ids: seq<Id>, config: Config)
    requires DistinctIn(rows, ids)
    ensures DistinctIn(rows, Embeddable(rows, ids, config))
  {
    if ids != [] {
      EmbeddableDistinct(rows, ids[1..], config);
      var rest := Embeddable(rows, ids[1..], config);
      assert ids[0] !in ids[1..];
      assert forall i :: 0 <= i < |rest| ==> rest[i] in rest;
    }
  }

  lemma {:induction false} ReadyDistinct(rows: Table, ids: seq<Id>, vectors: map<Id, Vec>)
    requires DistinctIn(rows, ids)
    ensures DistinctIn(rows, Ready(ids, vectors))
  {
    if ids != [] {
      ReadyDistinct(rows, ids[1..], vectors);
      var rest := Ready(ids[1..], vectors);
      assert ids[0] !in ids[1..];
      if ids[0] in vectors {
        ConsDistinct(rows, ids[0], rest);
      } else {
        assert Ready(ids, vectors) == rest;
      }
    }
  }

  // ---- What became of one item ----

  /** The service answered `vector` for this very text. */
  ghost predicate Answers(up: Upstream, text: string, vector: Vec) {
    exists k, texts, i :: AnswersAt(up, k, texts, i, text, vector)
  }

  ghost predicate AnswersAt(up: Upstream, k: nat, texts: seq<string>, i: nat, text: string, vector: Vec) {
    && up.embed(k, texts).Embedded?
    && i < |texts| && i < |up.embed(k, texts).vectors|
    && texts[i] == text && up.embed(k, texts).vectors[i] == vector
  }

  /** The service refused this text in a request of its own. */
  ghost predicate RejectedAlone(up: Upstream, text: string) {
    exists k :: up.embed(k, [text]).InputRejected?
  }

  /** Everything an embedding outcome says about one item of the call. */
  ghost predicate Accounted(e: Embeddings, rows: Table, id: Id, config: Config, up: Upstream)
    requires id in rows
  {
    && (id in e.vectors ==> id !in e.rejected && Answers(up, config.buildText(rows[id].data), e.vectors[id]))
    && (id in e.rejected ==> RejectedAlone(up, config.buildText(rows[id].data)))
    && (id in e.vectors || id in e.rejected || e.down)
  }

  ghost predicate Untouched(e: Embeddings, id: Id) {
    id !in e.vectors && id !in e.rejected
  }

  lemma {:induction false} ZipAt(ids: seq<Id>, vectors: seq<Vec>, i: nat)
    requires |ids| == |vectors| && i < |ids| && forall j, k :: 0 <= j < k < |ids| ==> ids[j] != ids[k]
    ensures ids[i] in Zip(ids, vectors) && Zip(ids, vectors)[ids[i]] == vectors[i]
  {
    if i < |ids| - 1 { ZipAt(ids[..|ids| - 1], vectors[..|ids| - 1], i); }
  }

  lemma {:induction false} OneByOneKeeps(rows: Table, ids: seq<Id>, k: nat, config: Config, up: Upstream,
                                         known: Embeddings, id: Id)
    requires DistinctIn(rows, ids) && ValidUpstream(up) && id !in ids
    ensures var e := OneByOne(rows, ids, k, config, up, known);
            && (id in e.vectors <==> id in known.vectors) && (id in e.vectors ==> e.vectors[id] == known.vectors[id])
            && (id in e.rejected <==> id in known.rejected)
    decreases |ids|
  {
    if ids != [] {
      var answer := up.embed(k, [config.buildText(rows[ids[0]].data)]);
      if answer.InputRejected? {
        OneByOneKeeps(rows, ids[1..], k + 1, config, up, known.(rejected := known.rejected + {ids[0]}), id);
      } else if answer.Embedded? {
        OneByOneKeeps(rows, ids[1..], k + 1, config, up,
                      known.(vectors := known.vectors[ids[0] := answer.vectors[0]]), id);
      }
    }
  }

  lemma {:induction false} OneByOneAccounts(rows: Table, ids: seq<Id>, k: nat, config: Config, up: Upstream,
                                            known: Embeddings, id: Id)
    requires DistinctIn(rows, ids) && ValidUpstream(up) && id in ids && Untouched(known, id)
    ensures Accounted(OneByOne(rows, ids, k, config, up, known), rows, id, config, up)
    decreases |ids|
  {
    var text := [config.buildText(rows[ids[0]].data)];
    var answer := up.embed(k, text);
    if !answer.EmbeddingDown? {
      var next := if answer.InputRejected? then known.(rejected := known.rejected + {ids[0]})
                  else known.(vectors := known.vectors[ids[0] := answer.vectors[0]]);
      if id == ids[0] {
        assert id !in ids[1..];
        OneByOneKeeps(rows, ids[1..], k + 1, config, up, next, id);
        assert answer.Embedded? ==> AnswersAt(up, k, text, 0, text[0], answer.vectors[0]);
        assert answer.InputRejected? ==> RejectedAlone(up, text[0]);
      } else {
        OneByOneAccounts(rows, ids[1..], k + 1, config, up, next, id);
      }
    }
  }

  /** Each item of an `_embed` call gets a vector for its own text or is rejected, unless the service
      goes down; no other item is concerned. */
  lemma EmbedAccounts(rows: Table, ids: seq<Id>, config: Config, up: Upstream, id: Id)
    requires DistinctIn(rows, ids) && ValidUpstream(up)
    ensures var e := Embed(rows, ids, config, up);
            if id in ids then Accounted(e, rows, id, config, up) else Untouched(e, id)
  {
    var texts := TextsOf(rows, ids, config);
    var answer := up.embed(0, texts);
    if answer.Embedded? && id in ids {
      var i :| 0 <= i < |ids| && ids[i] == id;
      ZipAt(ids, answer.vectors, i);
      assert AnswersAt(up, 0, texts, i, texts[i], answer.vectors[i]);
    } else if answer.InputRejected? && |ids| == 1 {
      assert texts == [config.buildText(rows[ids[0]].data)];
    } else if answer.InputRejected? {
      if id in ids { OneByOneAccounts(rows, ids, 1, config, up, NOTHING_KNOWN, id); }
      else { OneByOneKeeps(rows, ids, 1, config, up, NOTHING_KNOWN, id); }
    }
  }

  /** A request to store vectors was refused. */
  ghost predicate SomeRefused(up: Upstream) {
    exists k :: !up.accepts(k)
  }

  /** FAILED, for a reason of the item's own. */
  ghost predicate FailedOf(before: Row, after: Row, config: Config, up: Upstream) {
    var text := config.buildText(before.data);
    if text == "" then after == FailRow(before, config, NO_TEXT)
    else
      || (RejectedAlone(up, text) && after == FailRow(before, config, REJECTED))
      || (SomeRefused(up) && after == FailRow(before, config, UPSERT_FAILED))
  }

  /** The vector a DONE row stands for. */
  ghost predicate HoldsVector(vectors: Namespace, id: Id, row: Row, sanitize: Metadata -> Metadata) {
    row.pineconeId == Some(id) && id in vectors && vectors[id].metadata == sanitize(row.metadata)
  }

  /** The ways an item can come out: DONE with a vector for its own text stored, FAILED, or `back` after a
      failure upstream; unless DONE, its vector is as it was. */
  ghost predicate Outcome(id: Id, before: Row, back: Row, after: Row, vectors: Namespace, r: Stored, config: Config,
                          up: Upstream)
  {
    || (&& !r.raised && after == DoneRow(id, before, config) && HoldsVector(r.vectors, id, after, config.sanitize)
        && config.buildText(before.data) != ""
        && Answers(up, config.buildText(before.data), r.vectors[id].values))
    || (SameAt(r.vectors, vectors, id) && (FailedOf(before, after, config, up) || (r.raised && after == back)))
  }

  lemma UpsertedAt(rows: Table, vectors: Namespace, ready: seq<Id>, known: map<Id, Vec>, config: Config, up: Upstream,
                   id: Id)
    requires DistinctIn(rows, ready) && forall i :: 0 <= i < |ready| ==> ready[i] in known
    ensures var r := Upserted(rows, vectors, ready, known, config, up);
            && (id !in ready ==> SameAt(r.vectors, vectors, id))
            && (id in ready ==>
                  || (&& r.rows[id] == DoneRow(id, rows[id], config)
                      && HoldsVector(r.vectors, id, r.rows[id], config.sanitize)
                      && r.vectors[id].values == known[id])
                  || (&& r.rows[id] == FailRow(rows[id], config, UPSERT_FAILED) && SameAt(r.vectors, vectors, id)
                      && SomeRefused(up)))
  {
    var entries := Entries(rows, ready, known, config);
    UpsertChunksIs(vectors, entries, 0, up.accepts, id);
    if id in ready {
      var i :| 0 <= i < |ready| && ready[i] == id;
      assert entries[i].0 == id;
      FailsByChunk(vectors, entries, up.accepts, i);
    } else {
      assert !Mentions(entries, id);
    }
  }

  lemma StoreEmbeddedAt(rows: Table, vectors: Namespace, ids: seq<Id>, e: Embeddings, config: Config, up: Upstream,
                        id: Id)
    requires DistinctIn(rows, ids) && (id in ids ==> config.buildText(rows[id].data) != "")
    requires if id in ids then Accounted(e, rows, id, config, up) else Untouched(e, id)
    ensures var r := StoreEmbedded(rows, vectors, ids, e, config, up);
            && r.rows.Keys == rows.Keys
            && (id in ids ==> Outcome(id, rows[id], rows[id], r.rows[id], vectors, r, config, up))
            && (id !in ids ==> SameAt(r.vectors, vectors, id) && (id in rows ==> r.rows[id] == rows[id]))
  {
    var failed := FailAll(rows, e.rejected, config, REJECTED);
    var ready := Ready(ids, e.vectors);
    assert id in e.rejected && id in rows ==> failed[id] == FailRow(rows[id], config, REJECTED);
    if !e.down && ready != [] && up.indexReady {
      ReadyDistinct(rows, ids, e.vectors);
      assert forall i :: 0 <= i < |ready| ==> ready[i] in ready;
      UpsertedAt(failed, vectors, ready, e.vectors, config, up, id);
      assert id in ready ==> failed[id] == rows[id];
    }
  }

  /** What `_embed_and_store` does to one item and its vector. */
  lemma EmbedAndStoreAt(rows: Table, vectors: Namespace, ids: seq<Id>, config: Config, up: Upstream, id: Id)
    requires DistinctIn(rows, ids) && ValidUpstream(up)
    ensures var r := EmbedAndStore(rows, vectors, ids, config, up);
            && r.rows.Keys == rows.Keys
            && (id in ids ==> Outcome(id, rows[id], rows[id], r.rows[id], vectors, r, config, up))
            && (id !in ids ==> SameAt(r.vectors, vectors, id) && (id in rows ==> r.rows[id] == rows[id]))
  {
    var embeddable := Embeddable(rows, ids, config);
    var texted := FailAll(rows, Without(ids, embeddable), config, NO_TEXT);
    EmbeddableDistinct(rows, ids, config);
    if id in ids && id !in embeddable { assert texted[id] == FailRow(rows[id], config, NO_TEXT); }
    if embeddable != [] {
      EmbedAccounts(texted, embeddable, config, up, id);
      StoreEmbeddedAt(texted, vectors, embeddable, Embed(texted, embeddable, config, up), config, up, id);
    }
  }

  function HandedBack(row: Row, now: Time): Row {
    if row.status == PROCESSING then row.(status := PENDING, updatedAt := now) else row
  }

  lemma ProcessAt(rows: Table, vectors: Namespace, ids: seq<Id>, config: Config, up: Upstream, now: Time, id: Id)
    requires DistinctIn(rows, ids) && ValidUpstream(up)
    ensures var r := Process(rows, vectors, ids, config, up, now);
            && r.rows.Keys == rows.Keys
            && (id in ids ==> Outcome(id, rows[id], HandedBack(rows[id], now), r.rows[id], vectors, r, config, up))
            && (id !in ids ==> SameAt(r.vectors, vectors, id) && (id in rows ==> r.rows[id] == rows[id]))
  {
    EmbedAndStoreAt(rows, vectors, ids, config, up, id);
  }

  /** Everything a call does, item by item. */
  ghost predicate Processed(rows: Table, vectors: Namespace, ids: seq<Id>, config: Config, up: Upstream, now: Time,
                            r: Stored)
  {
    && r.rows.Keys == rows.Keys
    && (forall id :: id in ids ==>
          id in rows && Outcome(id, rows[id], HandedBack(rows[id], now), r.rows[id], vectors, r, config, up))
    && (forall id :: id in rows && id !in ids ==> r.rows[id] == rows[id])
    && (forall id :: id !in ids ==> SameAt(r.vectors, vectors, id))
  }

  lemma ProcessIs(rows: Table, vectors: Namespace, ids: seq<Id>, config: Config, up: Upstream, now: Time)
    requires DistinctIn(rows, ids) && ValidUpstream(up)
    ensures Processed(rows, vectors, ids, config, up, now, Process(rows, vectors, ids, config, up, now))
  {
    var r := Process(rows, vectors, ids, config, up, now);
    forall id
      ensures r.rows.Keys == rows.Keys
      ensures id in ids ==>
        id in rows && Outcome(id, rows[id], HandedBack(rows[id], now), r.rows[id], vectors, r, config, up)
      ensures id !in ids ==> SameAt(r.vectors, vectors, id) && (id in rows ==> r.rows[id] == rows[id])
    {
      ProcessAt(rows, vectors, ids, config, up, now, id);
    }
  }

  /** Claimed items all end DONE or FAILED or, when upstream fails, PENDING or FAILED. */
  lemma ProcessSettles(rows: Table, vectors: Namespace, ids: seq<Id>, config: Config, up: Upstream, now: Time)
    requires DistinctIn(rows, ids) && ValidUpstream(up)
    requires forall id :: id in ids ==> rows[id].status == PROCESSING
    ensures var r := Process(rows, vectors, ids, config, up, now);
            forall id :: id in ids ==>
              id in r.rows && r.rows[id].status in (if r.raised then {PENDING, FAILED} else {DONE, FAILED})
  {
    ProcessIs(rows, vectors, ids, config, up, now);
  }

  /** Nothing goes down during the call. */
  ghost predicate Healthy(up: Upstream) {
    up.indexReady && forall k, texts :: !up.embed(k, texts).EmbeddingDown?
  }

  lemma {:induction false} HealthyOneByOne(rows: Table, ids: seq<Id>, k: nat, config: Config, up: Upstream,
                                           known: Embeddings)
    requires Healthy(up) && ValidUpstream(up) && !known.down && forall i :: 0 <= i < |ids| ==> ids[i] in rows
    ensures !OneByOne(rows, ids, k, config, up, known).down
    decreases |ids|
  {
    if ids != [] {
      var answer := up.embed(k, [config.buildText(rows[ids[0]].data)]);
      if answer.InputRejected? {
        HealthyOneByOne(rows, ids[1..], k + 1, config, up, known.(rejected := known.rejected + {ids[0]}));
      } else {
        HealthyOneByOne(rows, ids[1..], k + 1, config, up,
                        known.(vectors := known.vectors[ids[0] := answer.vectors[0]]));
      }
    }
  }

  lemma HealthyNeverRaises(rows: Table, vectors: Namespace, ids: seq<Id>, config: Config, up: Upstream, now: Time)
    requires Healthy(up) && ValidUpstream(up) && forall i :: 0 <= i < |ids| ==> ids[i] in rows
    ensures !Process(rows, vectors, ids, config, up, now).raised
  {
    var embeddable := Embeddable(rows, ids, config);
    var texted := FailAll(rows, Without(ids, embeddable), config, NO_TEXT);
    assert forall i :: 0 <= i < |embeddable| ==> embeddable[i] in ids;
    HealthyOneByOne(texted, embeddable, 1, config, up, NOTHING_KNOWN);
  }

  /** Nothing is down, every upsert goes through, and a request is rejected exactly for a bad text in it. */
  ghost predicate Judges(up: Upstream, bad: string -> bool) {
    && up.indexReady && (forall k :: up.accepts(k))
    && forall k, texts :: if exists i :: 0 <= i < |texts| && bad(texts[i]) then up.embed(k, texts).InputRejected?
                          else up.embed(k, texts).Embedded?
  }

  lemma JudgesIsHealthy(up: Upstream, bad: string -> bool)
    requires Judges(up, bad)
    ensures Healthy(up) && !SomeRefused(up)
  {
    forall k, texts ensures !up.embed(k, texts).EmbeddingDown? {
      assert up.embed(k, texts).InputRejected? || up.embed(k, texts).Embedded?;
    }
  }

  lemma RejectedAloneIsBad(up: Upstream, bad: string -> bool, text: string)
    requires Judges(up, bad) && RejectedAlone(up, text)
    ensures bad(text)
  {
    var k :| up.embed(k, [text]).InputRejected?;
    var i :| 0 <= i < |[text]| && bad([text][i]);
  }

  lemma ServedIsGood(up: Upstream, bad: string -> bool, text: string, vector: Vec)
    requires Judges(up, bad) && Answers(up, text, vector)
    ensures !bad(text)
  {
    var k, texts, i :| AnswersAt(up, k, texts, i, text, vector);
    assert bad(texts[i]) ==> up.embed(k, texts).InputRejected?;
  }

  /** What is left of an item when nothing else can go wrong. */
  ghost predicate DoneUnlessBad(before: Row, id: Id, r: Stored, config: Config, up: Upstream, bad: string -> bool) {
    && !r.raised && id in r.rows
    && var text, built := config.buildText(before.data), config.buildMetadata(before.data, before.externalId);
       if text != "" && !bad(text) then
         && r.rows[id] == before.(status := DONE, pineconeId := Some(id), metadata := built)
         && HoldsVector(r.vectors, id, r.rows[id], config.sanitize) && Answers(up, text, r.vectors[id].values)
       else
         r.rows[id] == before.(status := FAILED,
                               metadata := built["error" := Str(if text == "" then NO_TEXT else REJECTED)])
  }

  lemma OutcomeWithoutFaults(before: Row, back: Row, id: Id, vectors: Namespace, r: Stored, config: Config,
                             up: Upstream, bad: string -> bool)
    requires Judges(up, bad) && !r.raised && id in r.rows
    requires Outcome(id, before, back, r.rows[id], vectors, r, config, up)
    ensures DoneUnlessBad(before, id, r, config, up, bad)
  {
    var text := config.buildText(before.data);
    JudgesIsHealthy(up, bad);
    if RejectedAlone(up, text) { RejectedAloneIsBad(up, bad, text); }
    if id in r.vectors && Answers(up, text, r.vectors[id].values) { ServedIsGood(up, bad, text, r.vectors[id].values); }
  }

  /** One bad text fails no other item: an item of the call ends DONE, with a vector of its own text stored, exactly
      when its text is neither empty nor bad, and else FAILED with the reason. */
  lemma BadTextFailsAlone(rows: Table, vectors: Namespace, ids: seq<Id>, config: Config, up: Upstream, now: Time,
                          bad: string -> bool, id: Id)
    requires DistinctIn(rows, ids) && ValidUpstream(up) && Judges(up, bad) && id in ids
    ensures DoneUnlessBad(rows[id], id, Process(rows, vectors, ids, config, up, now), config, up, bad)
  {
    var r := Process(rows, vectors, ids, config, up, now);
    JudgesIsHealthy(up, bad);
    HealthyNeverRaises(rows, vectors, ids, config, up, now);
    ProcessAt(rows, vectors, ids, config, up, now, id);
    OutcomeWithoutFaults(rows[id], HandedBack(rows[id], now), id, vectors, r, config, up, bad);
  }

  /** When the joint request goes through, it serves every item: each gets the vector at its own place. */
  lemma JointRequestServesAll(rows: Table, ids: seq<Id>, config: Config, up: Upstream, i: nat)
    requires DistinctIn(rows, ids) && ValidUpstream(up) && i < |ids|
    requires up.embed(0, TextsOf(rows, ids, config)).Embedded?
    ensures var e := Embed(rows, ids, config, up);
            && !e.down && e.rejected == {} && ids[i] in e.vectors
            && e.vectors[ids[i]] == up.embed(0, TextsOf(rows, ids, config)).vectors[i]
  {
    ZipAt(ids, up.embed(0, TextsOf(rows, ids, config)).vectors, i);
  }

  // ---- The table and the namespace agree ----

  /** Each vector belongs to a live row that names it, and no row names another row's vector. */
  ghost predicate Linked(rows: Table, vectors: Namespace) {
    && (forall id :: id in vectors ==> id in rows && rows[id].pineconeId == Some(id))
    && forall id :: id in rows && rows[id].pineconeId.Some? ==> rows[id].pineconeId == Some(id)
  }

  /** Among DONE rows, exactly those in `lost` miss the vector they stand for. */
  ghost predicate IntactBut(rows: Table, vectors: Namespace, lost: set<Id>, sanitize: Metadata -> Metadata) {
    && lost !! vectors.Keys
    && forall id :: Has(rows, id, DONE) && id !in lost ==> HoldsVector(vectors, id, rows[id], sanitize)
  }

  lemma ProcessKeepsLinked(rows: Table, vectors: Namespace, ids: seq<Id>, config: Config, up: Upstream, now: Time,
                           r: Stored)
    requires Processed(rows, vectors, ids, config, up, now, r) && Linked(rows, vectors)
    ensures Linked(r.rows, r.vectors)
  {
    forall id | id in r.vectors || id in r.rows
      ensures id in r.rows && (id in r.vectors ==> r.rows[id].pineconeId == Some(id))
      ensures r.rows[id].pineconeId.Some? ==> r.rows[id].pineconeId == Some(id)
    {
      if id in ids { OutcomeLinks(rows, vectors, ids, config, up, now, r, id); }
      else { assert SameAt(r.vectors, vectors, id); }
    }
  }

  /** An item of the call is DONE with its vector named, or its vector and what its row names are as they were. */
  lemma OutcomeLinks(rows: Table, vectors: Namespace, ids: seq<Id>, config: Config, up: Upstream, now: Time, r: Stored,
                     id: Id)
    requires Processed(rows, vectors, ids, config, up, now, r) && id in ids
    ensures || (r.rows[id].pineconeId == Some(id) && id in r.vectors)
            || (SameAt(r.vectors, vectors, id) && r.rows[id].pineconeId == rows[id].pineconeId)
  {
    assert Outcome(id, rows[id], HandedBack(rows[id], now), r.rows[id], vectors, r, config, up);
  }

  lemma ProcessKeepsIntact(rows: Table, vectors: Namespace, ids: seq<Id>, config: Config, up: Upstream, now: Time,
                           lost: set<Id>, r: Stored)
    requires Processed(rows, vectors, ids, config, up, now, r) && IntactBut(rows, vectors, lost, config.sanitize)
    ensures IntactBut(r.rows, r.vectors, lost - r.vectors.Keys, config.sanitize)
  {
    forall id | Has(r.rows, id, DONE) && id !in lost - r.vectors.Keys
      ensures HoldsVector(r.vectors, id, r.rows[id], config.sanitize)
    {
      assert id in ids ==> Outcome(id, rows[id], HandedBack(rows[id], now), r.rows[id], vectors, r, config, up);
      assert id !in ids ==> SameAt(r.vectors, vectors, id);
    }
  }
}
