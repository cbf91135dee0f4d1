/** Embedding texts through a cache (app/services/embedding/openai_embedder.py). Tokenising, hashing
    and the model are parameters; the API may answer in any order, or fail. */
module Embedder {
  import opened Dicts
  import opened Sorting
  import opened Sequences

  const REQUEST_CHUNK_SIZE: nat := 100

  type Indexed = (nat, Vec)

  /** `embed` is the model; `succeeds` whether a request for these texts goes through; `arrange` the
      order its answer comes in. */
  datatype Api = Api(embed: string -> Vec, succeeds: seq<string> -> bool, arrange: seq<Indexed> -> seq<Indexed>)

  datatype Config = Config(truncate: string -> string, key: string -> string, api: Api, caching: bool)

  ghost predicate ValidConfig(config: Config) {
    && (forall a, b :: config.key(a) == config.key(b) ==> a == b)
    && (forall data :: multiset(config.api.arrange(data)) == multiset(data))
  }

  datatype Outcome = Vectors(vectors: seq<Vec>) | Failed

  // ---- One request ----

  predicate ByIndex(a: Indexed, b: Indexed) {
    a.0 <= b.0
  }

  function Answers(texts: seq<string>, api: Api): (r: seq<Indexed>)
    ensures |r| == |texts| && forall i :: 0 <= i < |r| ==> r[i] == (i, api.embed(texts[i]))
  {
    seq(|texts|, i requires 0 <= i < |texts| => (i, api.embed(texts[i])))
  }

  function EmbedAll(texts: seq<string>, api: Api): seq<Vec>
  {
    seq(|texts|, i requires 0 <= i < |texts| => api.embed(texts[i]))
  }

  function VectorsOf(data: seq<Indexed>): seq<Vec>
  {
    seq(|data|, i requires 0 <= i < |data| => data[i].1)
  }

  /** `[list(d.embedding) for d in sorted(response.data, key=lambda d: d.index)]` */
  function Request(texts: seq<string>, config: Config): Outcome {
    if !config.api.succeeds(texts) then Failed
    else Vectors(VectorsOf(Sort(config.api.arrange(Answers(texts, config.api)), ByIndex)))
  }

  /** Sorting by index undoes any order the API answers in. */
  lemma RequestInOrder(texts: seq<string>, config: Config)
    requires ValidConfig(config) && config.api.succeeds(texts)
    ensures Request(texts, config) == Vectors(EmbedAll(texts, config.api))
  {
    var answers := Answers(texts, config.api);
    var arranged := config.api.arrange(answers);
    assert TotalPreorder(ByIndex);
    SortSorts(arranged, ByIndex);
    var sorted := Sort(arranged, ByIndex);
    forall x | x in sorted ensures x in answers {
      assert x in multiset(sorted);
      assert x in multiset(answers);
    }
    SortedUnique(sorted, answers, ByIndex);
  }

  // ---- Which texts are asked for ----

  function Prepare(texts: seq<string>, config: Config): (r: seq<string>)
    ensures |r| == |texts| && forall i :: 0 <= i < |texts| ==> r[i] == config.truncate(texts[i])
  {
    seq(|texts|, i requires 0 <= i < |texts| => config.truncate(texts[i]))
  }

  function CacheGet(cache: map<string, Vec>, text: string, config: Config): Option<Vec> {
    if config.caching && config.key(text) in cache then Some(cache[config.key(text)]) else None
  }

  /** The distinct texts without a cached vector, in order of first appearance. */
  function Uncached(prepared: seq<string>, cache: map<string, Vec>, config: Config): (r: seq<string>)
    ensures forall t :: t in r <==> t in prepared && CacheGet(cache, t, config).None?
    ensures forall i, j :: 0 <= i < j < |r| ==> r[i] != r[j]
    decreases |prepared|
  {
    if prepared == [] then []
    else
      var front, last := prepared[..|prepared| - 1], prepared[|prepared| - 1];
      assert prepared == front + [last];
      var r := Uncached(front, cache, config);
      if CacheGet(cache, last, config).Some? || last in r then r else r + [last]
  }

  /** Every entry is what the model would return. */
  ghost predicate CacheValid(cache: map<string, Vec>, config: Config) {
    forall text :: config.key(text) in cache ==> cache[config.key(text)] == config.api.embed(text)
  }

  ghost predicate FreshFor(computed: map<string, Vec>, texts: seq<string>, config: Config) {
    && (forall t :: t in computed <==> t in texts)
    && (forall t :: t in computed ==> computed[t] == config.api.embed(t))
  }

  /** The cache after the new vectors are stored. */
  function Stored(cache: map<string, Vec>, texts: seq<string>, config: Config): map<string, Vec>
    decreases |texts|
  {
    if !config.caching || texts == [] then cache
    else
      var last := texts[|texts| - 1];
      Stored(cache, texts[..|texts| - 1], config)[config.key(last) := config.api.embed(last)]
  }

  lemma {:induction false} StoredIsValid(cache: map<string, Vec>, texts: seq<string>, config: Config)
    requires ValidConfig(config) && CacheValid(cache, config)
    ensures CacheValid(Stored(cache, texts, config), config)
    ensures config.caching ==> forall t :: t in texts ==> config.key(t) in Stored(cache, texts, config)
    ensures forall k :: k in cache ==> k in Stored(cache, texts, config)
    decreases |texts|
  {
    if config.caching && texts != [] {
      StoredIsValid(cache, texts[..|texts| - 1], config);
      assert texts == texts[..|texts| - 1] + [texts[|texts| - 1]];
    }
  }

  /** Since `before`, the first `n` texts were sent, each once, in chunks no longer than allowed. */
  ghost predicate Sent(before: seq<seq<string>>, after: seq<seq<string>>, texts: seq<string>, n: nat) {
    && before <= after && n <= |texts|
    && Concat(after[|before|..]) == texts[..n]
    && forall i :: |before| <= i < |after| ==> 0 < |after[i]| <= REQUEST_CHUNK_SIZE
  }

  /** All of the texts when `ok`, else the first few. */
  ghost predicate SentAll(before: seq<seq<string>>, after: seq<seq<string>>, texts: seq<string>, ok: bool) {
    exists n :: Sent(before, after, texts, n) && (ok ==> n == |texts|)
  }

  lemma SentNothing(requests: seq<seq<string>>)
    ensures SentAll(requests, requests, [], true)
  {
    assert Sent(requests, requests, [], 0);
  }

  lemma SentOneMore(before: seq<seq<string>>, after: seq<seq<string>>, texts: seq<string>, start: nat, end: nat)
    requires Sent(before, after, texts, start) && start < end <= |texts| && end - start <= REQUEST_CHUNK_SIZE
    ensures Sent(before, after + [texts[start..end]], texts, end)
  {
    var chunk := texts[start..end];
    assert (after + [chunk])[|before|..] == after[|before|..] + [chunk];
    ConcatAppend(after[|before|..], chunk);
    assert texts[..start] + chunk == texts[..end];
  }

  class OpenAIEmbedder {
    const config: Config
    var cache: map<string, Vec>
    var requests: seq<seq<string>>  // every request sent, in order

    constructor (config: Config)
      ensures this.config == config && cache == map[] && requests == []
    {
      this.config := config;
      cache, requests := map[], [];
    }

    method Send(chunk: seq<string>) returns (r: Outcome)
      modifies this`requests
      ensures requests == old(requests) + [chunk]
      ensures r == Request(chunk, config)
    {
      requests := requests + [chunk];
      r := Request(chunk, config);
    }

    /** Requests the texts chunk by chunk. */
    method EmbedUncached(uncached: seq<string>) returns (ok: bool, computed: map<string, Vec>)
      requires ValidConfig(config)
      requires forall i, j :: 0 <= i < j < |uncached| ==> uncached[i] != uncached[j]
      modifies this`requests
      ensures ok ==> FreshFor(computed, uncached, config)
      ensures SentAll(old(requests), requests, uncached, ok)
    {
      ghost var before := requests;
      computed := map[];
      var start := 0;
      while start < |uncached|
        invariant Sent(before, requests, uncached, start)
        invariant FreshFor(computed, uncached[..start], config)
      {
        var end := if start + REQUEST_CHUNK_SIZE <= |uncached| then start + REQUEST_CHUNK_SIZE else |uncached|;
        var chunk := uncached[start..end];
        SentOneMore(before, requests, uncached, start, end);
        var answer := Send(chunk);
        if answer.Failed? { return false, map[]; }
        RequestInOrder(chunk, config);
        assert uncached[..start] + chunk == uncached[..end];
        computed := AddChunk(computed, uncached[..start], chunk, answer.vectors);
        start := end;
      }
      assert uncached[..start] == uncached;
      ok := true;
    }

    /** `fresh.update(zip(chunk, vectors))` */
    method AddChunk(known: map<string, Vec>, texts: seq<string>, chunk: seq<string>, vectors: seq<Vec>)
      returns (computed: map<string, Vec>)
      requires FreshFor(known, texts, config) && vectors == EmbedAll(chunk, config.api)
      ensures FreshFor(computed, texts + chunk, config)
    {
      computed := known;
      for i := 0 to |chunk|
        invariant FreshFor(computed, texts + chunk[..i], config)
      {
        assert texts + chunk[..i + 1] == texts + chunk[..i] + [chunk[i]];
        computed := computed[chunk[i] := vectors[i]];
      }
      assert chunk[..|chunk|] == chunk;
    }

    /** `_cache_set` */
    method StoreAll(texts: seq<string>, computed: map<string, Vec>)
      requires FreshFor(computed, texts, config)
      modifies this`cache
      ensures cache == Stored(old(cache), texts, config)
    {
      if !config.caching { return; }
      for i := 0 to |texts|
        invariant cache == Stored(old(cache), texts[..i], config)
      {
        assert texts[..i + 1][..i] == texts[..i];
        cache := cache[config.key(texts[i]) := computed[texts[i]]];
      }
      assert texts[..|texts|] == texts;
    }

    /** `embed_batch` is the model mapped over the truncated texts, whatever is cached, repeated or
        answered out of order; each distinct uncached text is requested exactly once, in chunks; on
        failure nothing is cached. */
    method EmbedBatch(texts: seq<string>) returns (r: Outcome)
      requires ValidConfig(config) && CacheValid(cache, config)
      modifies this
      ensures CacheValid(cache, config)
      ensures r.Vectors? ==> r.vectors == EmbedAll(Prepare(texts, config), config.api)
      ensures SentAll(old(requests), requests, Uncached(Prepare(texts, config), old(cache), config), r.Vectors?)
      ensures r.Failed? ==> cache == old(cache)
      ensures r.Vectors? ==> cache == Stored(old(cache), Uncached(Prepare(texts, config), old(cache), config), config)
    {
      if texts == [] {
        SentNothing(requests);
        assert Prepare(texts, config) == [];
        return Vectors([]);
      }
      var prepared := Prepare(texts, config);
      var found := seq(|prepared|, i requires 0 <= i < |prepared| reads this => CacheGet(cache, prepared[i], config));
      var uncached := Uncached(prepared, cache, config);
      var ok, computed := EmbedUncached(uncached);
      if !ok { return Failed; }
      var vectors := Assemble(prepared, found, computed, cache);
      StoreAll(uncached, computed);
      StoredIsValid(old(cache), uncached, config);
      r := Vectors(vectors);
    }

    /** Cached vectors and new ones, each in its text's place. */
    method Assemble(prepared: seq<string>, found: seq<Option<Vec>>, computed: map<string, Vec>,
                    ghost before: map<string, Vec>)
      returns (vectors: seq<Vec>)
      requires CacheValid(before, config) && FreshFor(computed, Uncached(prepared, before, config), config)
      requires |found| == |prepared|
      requires forall i :: 0 <= i < |prepared| ==> found[i] == CacheGet(before, prepared[i], config)
      ensures vectors == EmbedAll(prepared, config.api)
    {
      assert forall i :: 0 <= i < |prepared| ==> prepared[i] in prepared;
      vectors := seq(|prepared|, i requires 0 <= i < |prepared| =>
        if found[i].Some? then found[i].value else computed[prepared[i]]);
    }
  }

  /** Asking again costs nothing: once a batch went through, all its texts are cached. */
  lemma {:induction false} SecondBatchIsFree(texts: seq<string>, cache: map<string, Vec>, config: Config)
    requires ValidConfig(config) && CacheValid(cache, config) && config.caching
    ensures var prepared := Prepare(texts, config);
            Uncached(prepared, Stored(cache, Uncached(prepared, cache, config), config), config) == []
  {
    var prepared := Prepare(texts, config);
    var missing := Uncached(prepared, cache, config);
    StoredIsValid(cache, missing, config);
    var again := Uncached(prepared, Stored(cache, missing, config), config);
    forall t | t in prepared ensures t !in again {
      assert t in missing || CacheGet(cache, t, config).Some?;
    }
    SomeMember(again);
  }

  lemma SomeMember(s: seq<string>)
    ensures s == [] || exists t :: t in s
  {
    if s != [] { assert s[0] in s; }
  }
}
