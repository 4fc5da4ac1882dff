/** Reconcile against a remote or SQL point store: scan the source's points, page by page where the server
    pages, then delete the stale ones (src/alvis/index/elasticsearch.py, qdrant.py, sqlite.py). */
module PagedReconcile {
  import opened Wrappers
  import opened Models
  import opened MemoryIndexes
  import opened Sorting

  // A stored point with its id. The server keeps its points in one fixed order of their ids.
  datatype Stored = Stored(id: string, point: Point)

  function IdAt(list: seq<Stored>, i: nat): string
    requires i < |list|
  {
    list[i].id
  }

  predicate UniqueIds(list: seq<Stored>) {
    forall i: nat, j: nat {:trigger IdAt(list, i), IdAt(list, j)} ::
      i < |list| && j < |list| && i != j ==> IdAt(list, i) != IdAt(list, j)
  }

  lemma UniqueIdsOfPrefix(list: seq<Stored>, n: nat)
    requires UniqueIds(list) && n <= |list|
    ensures UniqueIds(list[..n]) && UniqueIds(list[n..])
  {
    forall i: nat, j: nat | i < n && j < n && i != j ensures IdAt(list[..n], i) != IdAt(list[..n], j) {
      assert IdAt(list, i) != IdAt(list, j);
    }
    forall i: nat, j: nat | i < |list| - n && j < |list| - n && i != j
      ensures IdAt(list[n..], i) != IdAt(list[n..], j)
    {
      assert IdAt(list, n + i) != IdAt(list, n + j);
    }
  }

  // Entries with the same id are the same entry.
  lemma SameIdSameEntry(list: seq<Stored>, s: Stored, t: Stored)
    requires UniqueIds(list) && s in list && t in list && s.id == t.id
    ensures s == t
  {
    var i :| 0 <= i < |list| && list[i] == s;
    var j :| 0 <= j < |list| && list[j] == t;
    assert IdAt(list, i) == IdAt(list, j);
  }

  lemma UniqueIdsSnoc(list: seq<Stored>, last: Stored)
    requires UniqueIds(list) && forall s :: s in list ==> s.id != last.id
    ensures UniqueIds(list + [last])
  {
    forall i: nat, j: nat | i < j <= |list| ensures IdAt(list + [last], i) != IdAt(list + [last], j) {
      assert list[i] in list;
      if j < |list| {
        assert IdAt(list, i) != IdAt(list, j);
      }
    }
  }

  lemma LastIdIsNew(list: seq<Stored>)
    requires UniqueIds(list) && list != []
    ensures UniqueIds(list[..|list| - 1])
    ensures forall s :: s in list[..|list| - 1] ==> s.id != list[|list| - 1].id
  {
    var rest, last := list[..|list| - 1], list[|list| - 1];
    UniqueIdsOfPrefix(list, |rest|);
    forall s | s in rest ensures s.id != last.id {
      var i :| 0 <= i < |rest| && rest[i] == s;
      assert IdAt(list, i) != IdAt(list, |rest|);
    }
  }

  function AsPoints(list: seq<Stored>): Points {
    if list == [] then map[] else AsPoints(list[..|list| - 1])[list[|list| - 1].id := list[|list| - 1].point]
  }

  function OfSource(list: seq<Stored>, source: string): seq<Stored> {
    if list == [] then []
    else
      var rest, last := OfSource(list[..|list| - 1], source), list[|list| - 1];
      if last.point.source == source then rest + [last] else rest
  }

  // The list without the entries of these ids.
  function Without(list: seq<Stored>, ids: seq<string>): seq<Stored> {
    if list == [] then []
    else
      var rest, last := Without(list[..|list| - 1], ids), list[|list| - 1];
      if last.id in ids then rest else rest + [last]
  }

  // The list without this source's stale entries.
  function WithoutStale(list: seq<Stored>, source: string, current: map<Uri, Digest>): seq<Stored> {
    if list == [] then []
    else
      var rest, last := WithoutStale(list[..|list| - 1], source, current), list[|list| - 1];
      if IsStale(last.point, source, current) then rest else rest + [last]
  }

  // The test both clients apply to a scanned point: its uri is not listed, or under another hash.
  predicate Outdated(point: Point, current: map<Uri, Digest>) {
    point.chunk.uri !in current || current[point.chunk.uri] != point.hash
  }

  function OutdatedIds(list: seq<Stored>, current: map<Uri, Digest>): seq<string> {
    if list == [] then []
    else
      var rest, last := OutdatedIds(list[..|list| - 1], current), list[|list| - 1];
      if Outdated(last.point, current) then rest + [last.id] else rest
  }

  lemma {:induction false} OfSourceMembers(list: seq<Stored>, source: string)
    ensures forall s :: s in OfSource(list, source) <==> s in list && s.point.source == source
    ensures UniqueIds(list) ==> UniqueIds(OfSource(list, source))
  {
    if list == [] {
    } else {
      var rest, last := list[..|list| - 1], list[|list| - 1];
      OfSourceMembers(rest, source);
      assert list == rest + [last];
      if UniqueIds(list) {
        LastIdIsNew(list);
        OfSourceMembers(rest, source);
        UniqueIdsSnoc(OfSource(rest, source), last);
      }
    }
  }

  lemma {:induction false} OutdatedMembers(list: seq<Stored>, current: map<Uri, Digest>)
    ensures forall id :: id in OutdatedIds(list, current) <==>
              exists s :: s in list && s.id == id && Outdated(s.point, current)
  {
    if list == [] {
    } else {
      var rest, last := list[..|list| - 1], list[|list| - 1];
      OutdatedMembers(rest, current);
      assert list == rest + [last];
    }
  }

  lemma {:induction false} WithoutOutdated(list: seq<Stored>, ids: seq<string>, source: string,
                                           current: map<Uri, Digest>)
    requires forall s :: s in list ==> (s.id in ids <==> IsStale(s.point, source, current))
    ensures Without(list, ids) == WithoutStale(list, source, current)
  {
    if list == [] {
    } else {
      assert list[|list| - 1] in list;
      WithoutOutdated(list[..|list| - 1], ids, source, current);
    }
  }

  // Deleting what the scan of the source's points found outdated deletes exactly the stale points.
  lemma DeletingScannedDeletesStale(list: seq<Stored>, source: string, current: map<Uri, Digest>)
    requires UniqueIds(list)
    ensures Without(list, OutdatedIds(OfSource(list, source), current)) == WithoutStale(list, source, current)
  {
    var ids := OutdatedIds(OfSource(list, source), current);
    OfSourceMembers(list, source);
    OutdatedMembers(OfSource(list, source), current);
    forall s | s in list ensures s.id in ids <==> IsStale(s.point, source, current) {
      if s.id in ids {
        var other :| other in OfSource(list, source) && other.id == s.id && Outdated(other.point, current);
        SameIdSameEntry(list, other, s);
      }
      if IsStale(s.point, source, current) {
        assert s in OfSource(list, source);
      }
    }
    WithoutOutdated(list, ids, source, current);
  }

  lemma {:induction false} AsPointsFacts(list: seq<Stored>)
    requires UniqueIds(list)
    ensures forall s :: s in list ==> s.id in AsPoints(list) && AsPoints(list)[s.id] == s.point
    ensures forall id :: id in AsPoints(list) ==> Stored(id, AsPoints(list)[id]) in list
  {
    if list == [] {
    } else {
      var rest, last := list[..|list| - 1], list[|list| - 1];
      LastIdIsNew(list);
      AsPointsFacts(rest);
      assert list == rest + [last];
    }
  }

  lemma {:induction false} WithoutStaleMembers(list: seq<Stored>, source: string, current: map<Uri, Digest>)
    ensures forall s :: s in WithoutStale(list, source, current) <==> s in list && !IsStale(s.point, source, current)
    ensures UniqueIds(list) ==> UniqueIds(WithoutStale(list, source, current))
  {
    if list == [] {
    } else {
      var rest, last := list[..|list| - 1], list[|list| - 1];
      WithoutStaleMembers(rest, source, current);
      assert list == rest + [last];
      if UniqueIds(list) {
        LastIdIsNew(list);
        WithoutStaleMembers(rest, source, current);
        UniqueIdsSnoc(WithoutStale(rest, source, current), last);
      }
    }
  }

  // What is left is what the in-memory index would have left.
  lemma WithoutStaleIsPruned(list: seq<Stored>, source: string, current: map<Uri, Digest>)
    requires UniqueIds(list)
    ensures AsPoints(WithoutStale(list, source, current)) == Pruned(AsPoints(list), source, current)
  {
    var kept := WithoutStale(list, source, current);
    WithoutStaleMembers(list, source, current);
    AsPointsFacts(list);
    AsPointsFacts(kept);
    forall id ensures id in AsPoints(kept) <==> id in Pruned(AsPoints(list), source, current) {
      if id in AsPoints(kept) {
        assert Stored(id, AsPoints(kept)[id]) in kept;
      }
      if id in Pruned(AsPoints(list), source, current) {
        assert Stored(id, AsPoints(list)[id]) in kept;
      }
    }
    forall id | id in AsPoints(kept) ensures AsPoints(kept)[id] == AsPoints(list)[id] {
      assert Stored(id, AsPoints(kept)[id]) in list;
    }
  }

  /* Deleting. */

  lemma {:induction false} WithoutMore(list: seq<Stored>, ids: seq<string>, id: string)
    ensures Without(Without(list, ids), [id]) == Without(list, ids + [id])
  {
    if list == [] {
    } else {
      WithoutMore(list[..|list| - 1], ids, id);
      var rest := Without(list[..|list| - 1], ids);
      assert (rest + [list[|list| - 1]])[..|rest|] == rest;
    }
  }

  lemma {:induction false} WithoutNothing(list: seq<Stored>)
    ensures Without(list, []) == list
  {
    if list == [] {
    } else {
      WithoutNothing(list[..|list| - 1]);
    }
  }

  method DeleteEach(list: seq<Stored>, ids: seq<string>) returns (left: seq<Stored>)
    ensures left == Without(list, ids)
  {
    left := list;
    WithoutNothing(list);
    for k := 0 to |ids|
      invariant left == Without(list, ids[..k])
    {
      WithoutMore(list, ids[..k], ids[k]);
      assert ids[..k + 1] == ids[..k] + [ids[k]];
      left := Without(left, [ids[k]]);
    }
    assert ids[..|ids|] == ids;
  }

  /* Elasticsearch: pages of a fixed size, each asked for after the last id of the one before. */

  // The entries behind an id, in server order.
  function After(list: seq<Stored>, id: string): seq<Stored> {
    if list == [] then [] else if list[0].id == id then list[1..] else After(list[1..], id)
  }

  function SearchPage(list: seq<Stored>, searchAfter: Option<string>, size: nat): seq<Stored> {
    Prefix(if searchAfter.Some? then After(list, searchAfter.value) else list, size)
  }

  lemma {:induction false} AfterIsRest(list: seq<Stored>, n: nat)
    requires UniqueIds(list) && n < |list|
    ensures After(list, list[n].id) == list[n + 1..]
  {
    if n == 0 {
    } else {
      assert IdAt(list, 0) != IdAt(list, n);
      UniqueIdsOfPrefix(list, 1);
      AfterIsRest(list[1..], n - 1);
    }
  }

  lemma {:induction false} OutdatedConcat(a: seq<Stored>, b: seq<Stored>, current: map<Uri, Digest>)
    ensures OutdatedIds(a + b, current) == OutdatedIds(a, current) + OutdatedIds(b, current)
  {
    if b == [] {
      assert a + b == a;
    } else {
      OutdatedConcat(a, b[..|b| - 1], current);
      assert (a + b)[..|a + b| - 1] == a + b[..|b| - 1];
    }
  }

  method ScanPage(page: seq<Stored>, current: map<Uri, Digest>) returns (ids: seq<string>)
    ensures ids == OutdatedIds(page, current)
  {
    ids := [];
    for i := 0 to |page|
      invariant ids == OutdatedIds(page[..i], current)
    {
      assert page[..i + 1][..i] == page[..i];
      if page[i].point.chunk.uri !in current || current[page[i].point.chunk.uri] != page[i].point.hash {
        ids := ids + [page[i].id];
      }
    }
    assert page[..|page|] == page;
  }

  // The page asked for after the first n entries is the next slice of the list.
  lemma NextSearchPage(list: seq<Stored>, n: nat, searchAfter: Option<string>, size: nat)
    requires UniqueIds(list) && n <= |list| && searchAfter == if n == 0 then None else Some(list[n - 1].id)
    ensures SearchPage(list, searchAfter, size) == list[n..if n + size <= |list| then n + size else |list|]
  {
    if n > 0 {
      AfterIsRest(list, n - 1);
    }
  }

  // The scan visits each matching point exactly once, in server order, whatever the page size.
  method ElasticScan(matching: seq<Stored>, pageSize: nat, current: map<Uri, Digest>)
    returns (staleIds: seq<string>, ghost visited: seq<Stored>)
    requires pageSize >= 1 && UniqueIds(matching)
    ensures visited == matching && staleIds == OutdatedIds(matching, current)
  {
    staleIds, visited := [], [];
    var searchAfter: Option<string> := None;
    while true
      invariant visited <= matching
      invariant searchAfter == if visited == [] then None else Some(visited[|visited| - 1].id)
      invariant staleIds == OutdatedIds(visited, current)
      decreases |matching| - |visited|
    {
      var hits := SearchPage(matching, searchAfter, pageSize);
      NextSearchPage(matching, |visited|, searchAfter, pageSize);
      if hits == [] {
        break;
      }
      var ids := ScanPage(hits, current);
      OutdatedConcat(visited, hits, current);
      staleIds := staleIds + ids;
      visited := visited + hits;
      searchAfter := Some(hits[|hits| - 1].id);
      if |hits| < pageSize {
        break;
      }
    }
  }

  // What remains after the scan and the deletes is what MemoryIndex.reconcile leaves.
  method ElasticReconcile(list: seq<Stored>, pageSize: nat, source: string, current: map<Uri, Digest>)
    returns (left: seq<Stored>, ghost visited: seq<Stored>)
    requires pageSize >= 1 && UniqueIds(list)
    ensures visited == OfSource(list, source)
    ensures left == WithoutStale(list, source, current)
    ensures AsPoints(left) == Pruned(AsPoints(list), source, current)
  {
    OfSourceMembers(list, source);
    var staleIds;
    staleIds, visited := ElasticScan(OfSource(list, source), pageSize, current);
    left := DeleteEach(list, staleIds);
    DeletingScannedDeletesStale(list, source, current);
    WithoutStaleIsPruned(list, source, current);
  }

  /* Qdrant: pages as long as the server likes, each naming the id the next one starts with. */

  // The entries from an id on, in server order.
  function FromId(list: seq<Stored>, id: string): seq<Stored> {
    if list == [] then [] else if list[0].id == id then list else FromId(list[1..], id)
  }

  datatype Scroll = Scroll(points: seq<Stored>, next: Option<string>)

  function ScrollPage(list: seq<Stored>, offset: Option<string>, length: nat): Scroll {
    var rest := if offset.Some? then FromId(list, offset.value) else list;
    Scroll(Prefix(rest, length), if length < |rest| then Some(rest[length].id) else None)
  }

  lemma {:induction false} FromIdIsRest(list: seq<Stored>, n: nat)
    requires UniqueIds(list) && n < |list|
    ensures FromId(list, list[n].id) == list[n..]
  {
    if n == 0 {
    } else {
      assert IdAt(list, 0) != IdAt(list, n);
      UniqueIdsOfPrefix(list, 1);
      FromIdIsRest(list[1..], n - 1);
    }
  }

  // A page continues what was visited so far, and its offset says whether and where anything is left.
  lemma NextScrollPage(list: seq<Stored>, visited: seq<Stored>, offset: Option<string>, length: nat)
    requires UniqueIds(list) && visited <= list && length >= 1
    requires if offset.None? then visited == [] else |visited| < |list| && offset.value == list[|visited|].id
    ensures var after := visited + ScrollPage(list, offset, length).points;
            && after <= list && (|after| == |visited| ==> after == list)
            && (ScrollPage(list, offset, length).next.None? ==> after == list)
            && (ScrollPage(list, offset, length).next.Some? ==>
                  |visited| < |after| < |list| && ScrollPage(list, offset, length).next.value == list[|after|].id)
  {
    if offset.Some? {
      FromIdIsRest(list, |visited|);
    }
  }

  // The same for the scroll scan, with `lengths` choosing how long each page is.
  method QdrantScan(matching: seq<Stored>, lengths: nat -> nat, current: map<Uri, Digest>)
    returns (staleIds: seq<string>, ghost visited: seq<Stored>)
    requires UniqueIds(matching) && forall page :: lengths(page) >= 1
    ensures visited == matching && staleIds == OutdatedIds(matching, current)
  {
    staleIds, visited := [], [];
    var offset: Option<string> := None;
    var page := 0;
    while true
      invariant visited <= matching
      invariant if offset.None? then visited == [] else |visited| < |matching| && offset.value == matching[|visited|].id
      invariant staleIds == OutdatedIds(visited, current)
      decreases |matching| - |visited|
    {
      var length := lengths(page);
      var result := ScrollPage(matching, offset, length);
      NextScrollPage(matching, visited, offset, length);
      var ids := ScanPage(result.points, current);
      OutdatedConcat(visited, result.points, current);
      staleIds := staleIds + ids;
      visited := visited + result.points;
      offset := result.next;
      page := page + 1;
      if offset.None? || result.points == [] {
        break;
      }
    }
  }

  method QdrantReconcile(list: seq<Stored>, lengths: nat -> nat, source: string, current: map<Uri, Digest>)
    returns (left: seq<Stored>, ghost visited: seq<Stored>)
    requires UniqueIds(list) && forall page :: lengths(page) >= 1
    ensures visited == OfSource(list, source)
    ensures left == WithoutStale(list, source, current)
    ensures AsPoints(left) == Pruned(AsPoints(list), source, current)
  {
    OfSourceMembers(list, source);
    var staleIds;
    staleIds, visited := QdrantScan(OfSource(list, source), lengths, current);
    left := if staleIds == [] then list else Without(list, staleIds);
    WithoutNothing(list);
    DeletingScannedDeletesStale(list, source, current);
    WithoutStaleIsPruned(list, source, current);
  }

  /* SQLite: one query for the source's rows, then the deletes. */

  method SqliteReconcile(list: seq<Stored>, source: string, current: map<Uri, Digest>) returns (left: seq<Stored>)
    requires UniqueIds(list)
    ensures left == WithoutStale(list, source, current)
    ensures AsPoints(left) == Pruned(AsPoints(list), source, current)
  {
    var stale := ScanPage(OfSource(list, source), current);
    left := list;
    if stale != [] {
      left := DeleteEach(list, stale);
    }
    WithoutNothing(list);
    DeletingScannedDeletesStale(list, source, current);
    WithoutStaleIsPruned(list, source, current);
  }
}
