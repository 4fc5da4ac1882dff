/** A caching wrapper around an embedder (src/alvis/embed/cache.py). */
module EmbeddingCache {
  import opened Wrappers
  import opened Models

  // "{signature}:{sha256 of the text}"
  datatype CacheKey = CacheKey(signature: string, digest: Digest)

  type Store = map<CacheKey, Vector>

  // The vectors each model signature stands for.
  type ModelOf = string -> string -> Vector

  function KeyOf(signature: string, text: string): CacheKey {
    CacheKey(signature, Sha256(text))
  }

  // Every cached vector is the one its signature's model gives its text.
  predicate Sound(store: Store, model: ModelOf) {
    forall key :: key in store ==> store[key] == model(key.signature)(key.digest.preimage)
  }

  predicate Positions(positions: seq<nat>, n: nat) {
    forall j :: 0 <= j < |positions| ==> positions[j] < n
  }

  // The positions of a batch whose text is not cached; a repeated text counts every time.
  function Missing(store: Store, signature: string, texts: seq<string>): (missing: seq<nat>)
    ensures Positions(missing, |texts|)
  {
    if texts == [] then []
    else
      var rest, last := Missing(store, signature, texts[..|texts| - 1]), |texts| - 1;
      if KeyOf(signature, texts[last]) in store then rest else rest + [last]
  }

  // The store once every text of a batch is in it.
  function StoreAfter(store: Store, signature: string, texts: seq<string>, model: ModelOf): Store {
    if texts == [] then store
    else
      var last := texts[|texts| - 1];
      StoreAfter(store, signature, texts[..|texts| - 1], model)[KeyOf(signature, last) := model(signature)(last)]
  }

  function Embeddings(signature: string, texts: seq<string>, model: ModelOf): (vectors: seq<Vector>)
    ensures |vectors| == |texts| && forall i :: 0 <= i < |texts| ==> vectors[i] == model(signature)(texts[i])
  {
    seq(|texts|, i requires 0 <= i < |texts| => model(signature)(texts[i]))
  }

  lemma {:induction false} MissingFacts(store: Store, signature: string, texts: seq<string>)
    ensures forall j :: 0 <= j < |Missing(store, signature, texts)| ==>
              KeyOf(signature, texts[Missing(store, signature, texts)[j]]) !in store
    ensures forall i :: 0 <= i < |texts| && KeyOf(signature, texts[i]) !in store ==>
              i in Missing(store, signature, texts)
    ensures forall j, k :: 0 <= j < k < |Missing(store, signature, texts)| ==>
              Missing(store, signature, texts)[j] < Missing(store, signature, texts)[k]
  {
    if texts == [] {
    } else {
      MissingFacts(store, signature, texts[..|texts| - 1]);
    }
  }

  lemma {:induction false} StoreAfterFacts(store: Store, signature: string, texts: seq<string>, model: ModelOf)
    requires Sound(store, model)
    ensures Sound(StoreAfter(store, signature, texts, model), model)
    ensures forall key :: key in StoreAfter(store, signature, texts, model)
                          <==> key in store || (key.signature == signature && key.digest.preimage in texts)
  {
    if texts == [] {
    } else {
      var rest, last := texts[..|texts| - 1], texts[|texts| - 1];
      StoreAfterFacts(store, signature, rest, model);
      assert texts == rest + [last];
    }
  }

  // The vectors of a batch once none of them is missing.
  function Plain(vectors: seq<Option<Vector>>): (plain: seq<Vector>)
    requires forall i :: 0 <= i < |vectors| ==> vectors[i].Some?
    ensures |plain| == |vectors| && forall i :: 0 <= i < |vectors| ==> plain[i] == vectors[i].value
  {
    seq(|vectors|, i requires 0 <= i < |vectors| => vectors[i].value)
  }

  class Cache {
    var store: Store

    constructor (store: Store)
      ensures this.store == store
    {
      this.store := store;
    }

    method Get(key: CacheKey) returns (vector: Option<Vector>)
      ensures vector == if key in store then Some(store[key]) else None
    {
      vector := if key in store then Some(store[key]) else None;
    }

    method Set(key: CacheKey, vector: Vector)
      modifies this
      ensures store == old(store)[key := vector]
    {
      store := store[key := vector];
    }
  }

  function TextsAt(texts: seq<string>, positions: seq<nat>): (found: seq<string>)
    requires Positions(positions, |texts|)
    ensures |found| == |positions| && forall i :: 0 <= i < |found| ==> found[i] == texts[positions[i]]
  {
    seq(|positions|, i requires 0 <= i < |positions| => texts[positions[i]])
  }

  class CachingEmbedder {
    const signature: string
    const cache: Cache
    var hits: nat
    var misses: nat
    // What the delegate has been asked, batch by batch.
    ghost var asked: seq<seq<string>>

    constructor (signature: string, cache: Cache)
      ensures this.signature == signature && this.cache == cache
      ensures hits == misses == 0 && asked == []
    {
      this.signature, this.cache := signature, cache;
      hits, misses, asked := 0, 0, [];
    }

    // The lookups of a batch: cached vectors in place, the other positions listed.
    method LookUp(texts: seq<string>) returns (vectors: seq<Option<Vector>>, missing: seq<nat>)
      modifies this`hits, this`misses
      ensures missing == Missing(cache.store, signature, texts)
      ensures |vectors| == |texts|
      ensures forall i :: 0 <= i < |texts| ==>
                var key := KeyOf(signature, texts[i]);
                vectors[i] == if key in cache.store then Some(cache.store[key]) else None
      ensures misses == old(misses) + |missing| && hits + misses == old(hits + misses) + |texts|
    {
      vectors, missing := [], [];
      for i := 0 to |texts|
        invariant missing == Missing(cache.store, signature, texts[..i])
        invariant |vectors| == i
        invariant forall j :: 0 <= j < i ==>
                    var key := KeyOf(signature, texts[j]);
                    vectors[j] == if key in cache.store then Some(cache.store[key]) else None
        invariant misses == old(misses) + |missing| && hits + misses == old(hits + misses) + i
      {
        assert texts[..i + 1][..i] == texts[..i];
        var cached := cache.Get(KeyOf(signature, texts[i]));
        if cached.None? {
          misses := misses + 1;
          missing := missing + [i];
        } else {
          hits := hits + 1;
        }
        vectors := vectors + [cached];
      }
      assert texts[..|texts|] == texts;
    }

    // Places the computed vectors of the missing positions and records them in the cache.
    method FillIn(texts: seq<string>, missing: seq<nat>, vectors: seq<Option<Vector>>, delegate: string -> Vector)
      returns (filled: seq<Option<Vector>>)
      requires Positions(missing, |texts|) && |vectors| == |texts|
      modifies cache
      ensures |filled| == |texts|
      ensures forall i :: 0 <= i < |texts| ==>
                filled[i] == if i in missing then Some(delegate(texts[i])) else vectors[i]
      ensures forall key :: key in cache.store <==>
                key in old(cache.store) || exists j :: 0 <= j < |missing| && key == KeyOf(signature, texts[missing[j]])
      ensures forall key :: key in cache.store ==>
                cache.store[key] == delegate(key.digest.preimage)
                  || (key in old(cache.store) && cache.store[key] == old(cache.store)[key])
      ensures forall key :: key in cache.store && key.signature != signature ==>
                key in old(cache.store) && cache.store[key] == old(cache.store)[key]
    {
      filled := vectors;
      for k := 0 to |missing|
        invariant |filled| == |texts|
        invariant forall i :: 0 <= i < |texts| ==>
                    filled[i] == if i in missing[..k] then Some(delegate(texts[i])) else vectors[i]
        invariant forall key :: key in cache.store <==>
                    key in old(cache.store) || exists j :: 0 <= j < k && key == KeyOf(signature, texts[missing[j]])
        invariant forall key :: key in cache.store ==>
                    cache.store[key] == delegate(key.digest.preimage)
                      || (key in old(cache.store) && cache.store[key] == old(cache.store)[key])
        invariant forall key :: key in cache.store && key.signature != signature ==>
                    key in old(cache.store) && cache.store[key] == old(cache.store)[key]
      {
        var text := texts[missing[k]];
        var vector := delegate(text);
        filled := filled[missing[k] := Some(vector)];
        cache.Set(KeyOf(signature, text), vector);
        assert missing[..k + 1] == missing[..k] + [missing[k]];
      }
      assert missing[..|missing|] == missing;
    }

    // Embeds a batch. `up` says whether the delegate answers; when it does not and is needed, the batch
    // fails with the cache unchanged. Otherwise the answer is exactly what the model gives every text.
    method EmbedBatch(texts: seq<string>, up: bool, ghost model: ModelOf, delegate: string -> Vector)
      returns (result: Option<seq<Vector>>)
      requires Sound(cache.store, model) && delegate == model(signature)
      modifies this, cache
      ensures hits + misses == old(hits + misses) + |texts|
      ensures misses == old(misses) + |Missing(old(cache.store), signature, texts)|
      ensures result
           == if up || Missing(old(cache.store), signature, texts) == [] then Some(Embeddings(signature, texts, model))
              else None
      ensures cache.store
           == if result.Some? then StoreAfter(old(cache.store), signature, texts, model) else old(cache.store)
      ensures Sound(cache.store, model)
      ensures asked == if Missing(old(cache.store), signature, texts) == [] then old(asked)
                       else old(asked) + [TextsAt(texts, Missing(old(cache.store), signature, texts))]
    {
      ghost var before := cache.store;
      var vectors, missing := LookUp(texts);
      MissingFacts(before, signature, texts);
      if missing != [] {
        asked := asked + [TextsAt(texts, missing)];
        if !up {
          return None;
        }
        vectors := FillIn(texts, missing, vectors, delegate);
      }
      AllFilled(before, cache.store, signature, texts, model, missing);
      assert forall i :: 0 <= i < |texts| ==> vectors[i] == Some(model(signature)(texts[i]));
      result := Some(Plain(vectors));
      assert result.value == Embeddings(signature, texts, model);
    }
  }

  lemma AllFilled(before: Store, after: Store, signature: string, texts: seq<string>, model: ModelOf, missing: seq<nat>)
    requires Sound(before, model) && Sound(after, model) && missing == Missing(before, signature, texts)
    requires forall key :: key in after <==>
               key in before || exists j :: 0 <= j < |missing| && key == KeyOf(signature, texts[missing[j]])
    ensures after == StoreAfter(before, signature, texts, model)
  {
    StoreAfterFacts(before, signature, texts, model);
    forall key ensures key in after <==> key in StoreAfter(before, signature, texts, model) {
      if key !in before {
        FilledKey(before, signature, texts, key);
      }
    }
  }

  // The keys missing from a batch are those of its texts that are not cached.
  lemma FilledKey(before: Store, signature: string, texts: seq<string>, key: CacheKey)
    requires key !in before
    ensures (exists j :: 0 <= j < |Missing(before, signature, texts)|
                        && key == KeyOf(signature, texts[Missing(before, signature, texts)[j]]))
            <==> key.signature == signature && key.digest.preimage in texts
  {
    var missing := Missing(before, signature, texts);
    MissingFacts(before, signature, texts);
    if key.signature == signature && key.digest.preimage in texts {
      var i :| 0 <= i < |texts| && texts[i] == key.digest.preimage;
      assert key == KeyOf(signature, texts[i]);
      var j :| 0 <= j < |missing| && missing[j] == i;
      assert key == KeyOf(signature, texts[missing[j]]);
    }
  }

  /* Whole runs of batches against one shared store. */

  // One successful batch, under one of the signatures sharing the store.
  datatype Batch = Batch(signature: string, texts: seq<string>)

  function ReplayStore(store: Store, batches: seq<Batch>, model: ModelOf): Store {
    if batches == [] then store
    else
      var last := batches[|batches| - 1];
      StoreAfter(ReplayStore(store, batches[..|batches| - 1], model), last.signature, last.texts, model)
  }

  // The shared store stays sound and holds exactly the texts embedded so far, each under its own signature.
  lemma {:induction false} ReplayFacts(store: Store, batches: seq<Batch>, model: ModelOf)
    requires Sound(store, model)
    ensures Sound(ReplayStore(store, batches, model), model)
    ensures forall key :: key in ReplayStore(store, batches, model) <==>
              key in store || exists b :: b in batches && b.signature == key.signature && key.digest.preimage in b.texts
  {
    if batches == [] {
    } else {
      var rest, last := batches[..|batches| - 1], batches[|batches| - 1];
      ReplayFacts(store, rest, model);
      StoreAfterFacts(ReplayStore(store, rest, model), last.signature, last.texts, model);
      assert batches == rest + [last];
    }
  }

  lemma {:induction false} NothingMissing(store: Store, signature: string, texts: seq<string>)
    requires forall i :: 0 <= i < |texts| ==> KeyOf(signature, texts[i]) in store
    ensures Missing(store, signature, texts) == []
  {
    if texts == [] {
    } else {
      NothingMissing(store, signature, texts[..|texts| - 1]);
    }
  }

  // After any run of batches, embedding one of them again asks the delegate nothing.
  lemma ReembeddingAsksNothing(store: Store, batches: seq<Batch>, model: ModelOf, b: Batch)
    requires Sound(store, model) && b in batches
    ensures Missing(ReplayStore(store, batches, model), b.signature, b.texts) == []
  {
    ReplayFacts(store, batches, model);
    var after := ReplayStore(store, batches, model);
    forall i | 0 <= i < |b.texts| ensures KeyOf(b.signature, b.texts[i]) in after {
      assert b.texts[i] in b.texts;
    }
    NothingMissing(after, b.signature, b.texts);
  }

  // Batches of other signatures neither help nor disturb: the delegate is asked the same texts.
  lemma {:induction false} OtherSignaturesDoNotMatter(store: Store, other: Batch, signature: string, texts: seq<string>,
                                                      model: ModelOf)
    requires Sound(store, model) && other.signature != signature
    ensures Missing(StoreAfter(store, other.signature, other.texts, model), signature, texts)
         == Missing(store, signature, texts)
  {
    StoreAfterFacts(store, other.signature, other.texts, model);
    if texts == [] {
    } else {
      OtherSignaturesDoNotMatter(store, other, signature, texts[..|texts| - 1], model);
    }
  }
}
