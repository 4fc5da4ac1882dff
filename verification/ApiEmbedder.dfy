/** Batched embedding over a remote endpoint (src/alvis/embed/openai.py). */
module ApiEmbedder {
  import opened Wrappers
  import opened Models
  import opened Sorting
  import opened Text
  import opened FanOut

  // One entry of a response: which input it belongs to, and its vector.
  datatype Entry = Entry(index: nat, embedding: Vector)

  // Consecutive batches of `size` chunks, the last one perhaps shorter.
  function Slices(chunks: seq<string>, size: nat): seq<seq<string>>
    requires size >= 1
    decreases |chunks|
  {
    if chunks == [] then []
    else if |chunks| <= size then [chunks]
    else [chunks[..size]] + Slices(chunks[size..], size)
  }

  // A batch size of zero is an error; a negative one yields no batches at all.
  function Batches(chunks: seq<string>, size: int): Result<seq<seq<string>>, string> {
    if size == 0 then Err("range() arg 3 must not be zero")
    else if size < 0 then Ok([])
    else Ok(Slices(chunks, size))
  }

  lemma {:induction false} SlicesCover(chunks: seq<string>, size: nat)
    requires size >= 1
    ensures Flatten(Slices(chunks, size)) == chunks
    ensures forall b :: 0 <= b < |Slices(chunks, size)| ==> 1 <= |Slices(chunks, size)[b]| <= size
    ensures forall b :: 0 <= b < |Slices(chunks, size)| - 1 ==> |Slices(chunks, size)[b]| == size
    decreases |chunks|
  {
    if |chunks| > size {
      SlicesCover(chunks[size..], size);
    } else if chunks != [] {
      assert Flatten([chunks]) == chunks + Flatten([]);
    }
  }

  // Exactly when the batches hold every chunk in order: for a positive size, or when there is nothing to hold.
  lemma BatchesCoverIff(chunks: seq<string>, size: int)
    requires Batches(chunks, size).Ok?
    ensures Flatten(Batches(chunks, size).value) == chunks <==> size >= 1 || chunks == []
  {
    if size >= 1 {
      SlicesCover(chunks, size);
    }
  }

  // The embeddings of a response, put in the order of the inputs they belong to.
  function Ordered(entries: seq<Entry>): seq<Vector> {
    Map(SortDescending(entries, (e: Entry) => -(e.index as real)), (e: Entry) => e.embedding)
  }

  // The entries a faithful server computes for a batch, before it permutes them.
  function Answer(batch: seq<string>, embed: string -> Vector): (entries: seq<Entry>)
    ensures |entries| == |batch| && forall i :: 0 <= i < |batch| ==> entries[i] == Entry(i, embed(batch[i]))
  {
    seq(|batch|, i requires 0 <= i < |batch| => Entry(i, embed(batch[i])))
  }

  predicate StrictlyDescending<T>(xs: seq<T>, key: T -> real) {
    forall i, j :: 0 <= i < j < |xs| ==> key(xs[i]) > key(xs[j])
  }

  lemma SameHead<T>(strict: seq<T>, other: seq<T>, key: T -> real)
    requires StrictlyDescending(strict, key) && Descending(other, key) && multiset(other) == multiset(strict)
    requires strict != [] && other != []
    ensures other[0] == strict[0]
  {
    assert strict[0] in multiset(other) && other[0] in multiset(strict);
    var i :| 0 <= i < |other| && other[i] == strict[0];
    var j :| 0 <= j < |strict| && strict[j] == other[0];
    assert key(other[0]) >= key(other[i]);
    assert j == 0;
  }

  lemma TailMultiset<T>(xs: seq<T>)
    requires xs != []
    ensures multiset(xs[1..]) == multiset(xs) - multiset{xs[0]}
  {
    assert xs == [xs[0]] + xs[1..];
  }

  // A sequence whose keys strictly descend is the only descending arrangement of its elements.
  lemma {:induction false} StrictOrderIsUnique<T>(strict: seq<T>, other: seq<T>, key: T -> real)
    requires StrictlyDescending(strict, key) && Descending(other, key) && multiset(other) == multiset(strict)
    ensures other == strict
    decreases |strict|
  {
    assert |other| == |multiset(other)| == |multiset(strict)| == |strict|;
    if strict == [] {
    } else {
      SameHead(strict, other, key);
      TailMultiset(strict);
      TailMultiset(other);
      StrictOrderIsUnique(strict[1..], other[1..], key);
      assert strict == [strict[0]] + strict[1..] && other == [other[0]] + other[1..];
    }
  }

  // Whatever order the entries of a response come in, sorting restores one vector per input, in input order.
  lemma OrderedRestoresInput(entries: seq<Entry>, batch: seq<string>, embed: string -> Vector)
    requires multiset(entries) == multiset(Answer(batch, embed))
    ensures Ordered(entries) == Map(batch, embed)
  {
    var key := (e: Entry) => -(e.index as real);
    SortSorts(entries, key);
    StrictOrderIsUnique(Answer(batch, embed), SortDescending(entries, key), key);
  }

  function EmbedEach(batches: seq<seq<string>>, embed: string -> Vector): (vectors: seq<seq<Vector>>)
    ensures |vectors| == |batches|
  {
    seq(|batches|, b requires 0 <= b < |batches| => Map(batches[b], embed))
  }

  lemma {:induction false} FlattenMap(batches: seq<seq<string>>, embed: string -> Vector)
    ensures Flatten(EmbedEach(batches, embed)) == Map(Flatten(batches), embed)
  {
    if batches == [] {
    } else {
      FlattenMap(batches[1..], embed);
      assert EmbedEach(batches, embed)[1..] == EmbedEach(batches[1..], embed);
      assert Map(batches[0] + Flatten(batches[1..]), embed)
        == Map(batches[0], embed) + Map(Flatten(batches[1..]), embed);
    }
  }

  // The vectors of all batches, in batch order.
  method Assemble(results: seq<seq<Vector>>) returns (vectors: seq<Vector>)
    ensures vectors == Flatten(results)
  {
    vectors := [];
    for b := 0 to |results|
      invariant Flatten(results) == vectors + Flatten(results[b..])
    {
      assert results[b..][1..] == results[b + 1..];
      Associate(vectors, results[b], Flatten(results[b + 1..]));
      vectors := vectors + results[b];
    }
    assert results[|results|..] == [];
  }

  // End to end: under any interleaving of the requests and any permutation of each response's entries, the
  // gathered and assembled result is vector i for chunk i.
  lemma EmbedsInInputOrder(chunks: seq<string>, size: nat, maxConcurrency: nat, embed: string -> Vector,
                           replies: seq<seq<Entry>>, pools: seq<Pool<seq<Vector>>>, moves: seq<Move>)
    requires size >= 1
    requires var batches := Slices(chunks, size);
             && |replies| == |batches|
             && (forall b :: 0 <= b < |batches| ==> multiset(replies[b]) == multiset(Answer(batches[b], embed)))
             && IsRun(pools, moves, |batches|, maxConcurrency,
                      (b: nat) => if b < |replies| then Ok(Ordered(replies[b])) else Err(""))
    requires AllDone(pools[|moves|])
    ensures Gathered(pools[|moves|]).Ok? && Flatten(Gathered(pools[|moves|]).value) == Map(chunks, embed)
  {
    var batches := Slices(chunks, size);
    var call := (b: nat) => if b < |replies| then Ok(Ordered(replies[b])) else Err("");
    GatherKeepsInputOrder(pools, moves, |batches|, maxConcurrency, call);
    var results := Gathered(pools[|moves|]).value;
    forall b | 0 <= b < |batches| ensures results[b] == Map(batches[b], embed) {
      OrderedRestoresInput(replies[b], batches[b], embed);
    }
    assert results == EmbedEach(batches, embed);
    FlattenMap(batches, embed);
    SlicesCover(chunks, size);
  }
}
