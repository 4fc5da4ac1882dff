/** Upserts that travel in batches, one request each (src/alvis/index/qdrant.py). */
module BatchUpsert {
  import opened Wrappers
  import opened Models
  import opened MemoryIndexes
  import opened RunPlans
  import opened Text

  lemma {:induction false} UpsertsFollow(p: Pipeline, points: Points, a: seq<Item>, b: seq<Item>)
    ensures UpsertAll(p, UpsertAll(p, points, a), b) == UpsertAll(p, points, a + b)
  {
    if b == [] {
      assert a + b == a;
    } else {
      UpsertsFollow(p, points, a, b[..|b| - 1]);
      assert (a + b)[..|a + b| - 1] == a + b[..|b| - 1];
    }
  }

  // One request: the server stores every point of the batch under its id.
  method Put(p: Pipeline, points: Points, batch: seq<Item>) returns (after: Points)
    ensures after == UpsertAll(p, points, batch)
  {
    after := points;
    for i := 0 to |batch|
      invariant after == UpsertAll(p, points, batch[..i])
    {
      assert batch[..i + 1][..i] == batch[..i];
      after := after[IdOf(batch[i].chunk) := PointOf(p, batch[i])];
    }
    assert batch[..|batch|] == batch;
  }

  lemma NextBatch(p: Pipeline, points: Points, items: seq<Item>, start: nat, end: nat)
    requires start <= end <= |items|
    ensures UpsertAll(p, UpsertAll(p, points, items[..start]), items[start..end]) == UpsertAll(p, points, items[..end])
  {
    UpsertsFollow(p, points, items[..start], items[start..end]);
    assert items[..start] + items[start..end] == items[..end];
  }

  // Where a request's first chunk stands.
  function Offset(request: nat, size: nat): nat {
    request * size
  }

  lemma OffsetsGrow(size: nat, k: nat, m: nat)
    ensures Offset(k + 1, size) == Offset(k, size) + size
    ensures k <= m ==> Offset(k, size) <= Offset(m, size)
  {
    if k <= m {
      assert m * size == k * size + (m - k) * size;
    }
  }

  // The requests in order, numbered from 0. A failing request leaves what the chunk-by-chunk loop leaves when it
  // stops before that request's first chunk, so it is one of the ways a run can stop in its upserts.
  method UpsertBatch(p: Pipeline, points: Points, plan: Plan, size: nat, failing: Option<nat>)
    returns (after: Points, ok: bool)
    requires size >= 1
    ensures ok == !(failing.Some? && Offset(failing.value, size) < |plan.pending|)
    ensures after == if ok then UpsertAll(p, points, plan.pending)
                     else StoppedPoints(p, points, plan, InUpsert(Offset(failing.value, size)))
  {
    after := points;
    var items := plan.pending;
    var start, request: nat := 0, 0;
    while start < |items|
      invariant start <= |items| && (start < |items| ==> start == Offset(request, size))
      invariant after == UpsertAll(p, points, items[..start])
      invariant failing.Some? && Offset(failing.value, size) < |items| ==> start < |items| && request <= failing.value
      decreases |items| - start
    {
      if failing == Some(request) {
        return after, false;
      }
      var end := Min(start + size, |items|);
      NextBatch(p, points, items, start, end);
      after := Put(p, after, items[start..end]);
      OffsetsGrow(size, request, request);
      if failing.Some? {
        OffsetsGrow(size, request + 1, failing.value);
      }
      start, request := end, request + 1;
    }
    assert items[..|items|] == items;
    ok := true;
  }
}
