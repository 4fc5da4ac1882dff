/** The Confluence page-tree walk and its paginated child listing (src/alvis/sources/confluence.py). */
module PageTree {
  import opened Sorting
  import opened Text

  datatype Page = Page(id: string, title: string)

  // The server's view: the child pages of each page id, in the server's order. It may be cyclic.
  type Tree = map<string, seq<Page>>

  const PAGE_LIMIT: nat := 100

  function ChildrenOf(tree: Tree, id: string): seq<Page> {
    if id in tree then tree[id] else []
  }

  // What the server returns for one request: the results from `start`, at most as many as asked for.
  function Batch(all: seq<Page>, start: nat, limit: nat): seq<Page> {
    if start >= |all| then [] else Prefix(all[start..], limit)
  }

  // The part of the tree a client sees when the server answers every request with at most `cap` results.
  function Served(tree: Tree, cap: nat): Tree {
    map id | id in tree :: if cap >= PAGE_LIMIT then tree[id] else Prefix(tree[id], cap)
  }

  // Exactly when paging loses nothing: when the server grants the page size that is asked for, or no list is
  // longer than what it grants. A shorter page is taken for the last one.
  lemma ServedIsWholeIff(tree: Tree, cap: nat)
    ensures Served(tree, cap) == tree <==> cap >= PAGE_LIMIT || forall id :: id in tree ==> |tree[id]| <= cap
  {
    if Served(tree, cap) == tree && cap < PAGE_LIMIT {
      forall id | id in tree ensures |tree[id]| <= cap {
        assert Served(tree, cap)[id] == tree[id];
      }
    }
  }

  method ListChildren(tree: Tree, id: string, cap: nat) returns (children: seq<Page>)
    ensures children == ChildrenOf(Served(tree, cap), id)
  {
    children := [];
    var start := 0;
    while true
      invariant start == |children| <= |ChildrenOf(tree, id)|
      invariant children == ChildrenOf(tree, id)[..start]
      invariant cap < PAGE_LIMIT ==> start == 0
      decreases |ChildrenOf(tree, id)| - start
    {
      var results := Batch(ChildrenOf(tree, id), start, Min(PAGE_LIMIT, cap));
      children := children + results;
      if |results| < PAGE_LIMIT {
        break;
      }
      start := start + |results|;
    }
  }

  // A child link; pages without an id do not count.
  ghost predicate Links(tree: Tree, v: string, id: string) {
    id != "" && exists i :: 0 <= i < |ChildrenOf(tree, v)| && ChildrenOf(tree, v)[i].id == id
  }

  // The id is reached from the root by following at most n child links.
  ghost predicate Within(tree: Tree, root: string, n: nat, id: string) {
    if n == 0 then id == root
    else Within(tree, root, n - 1, id) || exists v :: Within(tree, root, n - 1, v) && Links(tree, v, id)
  }

  ghost predicate Reachable(tree: Tree, root: string, id: string) {
    exists n: nat :: Within(tree, root, n, id)
  }

  ghost predicate AtDistance(tree: Tree, root: string, id: string, n: nat) {
    Within(tree, root, n, id) && (n > 0 ==> !Within(tree, root, n - 1, id))
  }

  function AllIds(tree: Tree, root: string): set<string> {
    {root} + set v, page | v in tree && page in tree[v] :: page.id
  }

  predicate NonDecreasing(depth: seq<nat>) {
    forall i, j :: 0 <= i <= j < |depth| ==> depth[i] <= depth[j]
  }

  // The id has been found, at most this deep.
  predicate Found(ids: seq<string>, depth: seq<nat>, id: string, d: nat)
    requires |ids| == |depth|
  {
    exists j :: 0 <= j < |ids| && ids[j] == id && depth[j] <= d
  }

  // The record was listed as a child of one of the first n ids.
  predicate ListedUnder(tree: Tree, ids: seq<string>, n: nat, page: Page)
    requires n <= |ids|
  {
    exists j :: 0 <= j < n && page in ChildrenOf(tree, ids[j])
  }

  // Beside each found id stands the page record it was found with.
  predicate Recorded(tree: Tree, pages: seq<Page>, ids: seq<string>) {
    |pages| == |ids| >= 1
    && forall i {:trigger pages[i]} :: 1 <= i < |ids| ==> pages[i].id == ids[i] && ListedUnder(tree, ids, i, pages[i])
  }

  lemma RecordGrows(tree: Tree, pages: seq<Page>, ids: seq<string>, parent: nat, child: Page)
    requires Recorded(tree, pages, ids) && parent < |ids| && child in ChildrenOf(tree, ids[parent])
    ensures Recorded(tree, pages + [child], ids + [child.id])
  {
    var pages', ids', n := pages + [child], ids + [child.id], |ids|;
    forall i | 1 <= i <= n ensures pages'[i].id == ids'[i] && ListedUnder(tree, ids', i, pages'[i]) {
      if i == n {
        assert child in ChildrenOf(tree, ids'[parent]);
      } else {
        assert pages'[i] == pages[i];
        var j :| 0 <= j < i && pages[i] in ChildrenOf(tree, ids[j]);
        assert pages'[i] in ChildrenOf(tree, ids'[j]);
      }
    }
  }

  // The walk so far: every found id is really that close to the root, in breadth-first order, each once.
  ghost predicate Walked(tree: Tree, root: string, ids: seq<string>, depth: seq<nat>) {
    && |ids| == |depth| >= 1
    && ids[0] == root && depth[0] == 0
    && Distinct(ids) && NonDecreasing(depth)
    && (forall i :: 0 <= i < |ids| ==> Within(tree, root, depth[i], ids[i]))
    && (forall i :: 0 <= i < |ids| ==> ids[i] in AllIds(tree, root))
  }

  // All children of the first `head` ids have been found, one step further at most.
  ghost predicate Expanded(tree: Tree, ids: seq<string>, depth: seq<nat>, head: nat)
    requires |ids| == |depth| && head <= |ids|
  {
    forall i, k :: 0 <= i < head && 0 <= k < |ChildrenOf(tree, ids[i])| && ChildrenOf(tree, ids[i])[k].id != ""
                   ==> Found(ids, depth, ChildrenOf(tree, ids[i])[k].id, depth[i] + 1)
  }

  lemma FoundStays(ids: seq<string>, depth: seq<nat>, id: string, d: nat, more: string, at: nat)
    requires |ids| == |depth| && Found(ids, depth, id, d)
    ensures Found(ids + [more], depth + [at], id, d)
  {
    var j :| 0 <= j < |ids| && ids[j] == id && depth[j] <= d;
    assert (ids + [more])[j] == id && (depth + [at])[j] <= d;
  }

  lemma ExpandedStays(tree: Tree, ids: seq<string>, depth: seq<nat>, head: nat, more: string, at: nat)
    requires |ids| == |depth| && head <= |ids| && Expanded(tree, ids, depth, head)
    ensures Expanded(tree, ids + [more], depth + [at], head)
  {
    forall i, k | 0 <= i < head && 0 <= k < |ChildrenOf(tree, ids[i])| && ChildrenOf(tree, ids[i])[k].id != ""
      ensures Found(ids + [more], depth + [at], ChildrenOf(tree, ids[i])[k].id, depth[i] + 1)
    {
      FoundStays(ids, depth, ChildrenOf(tree, ids[i])[k].id, depth[i] + 1, more, at);
    }
  }

  lemma WalkedGrows(tree: Tree, root: string, ids: seq<string>, depth: seq<nat>, parent: nat, k: nat)
    requires Walked(tree, root, ids, depth)
    requires parent < |ids| && k < |ChildrenOf(tree, ids[parent])|
    requires depth[|ids| - 1] <= depth[parent] + 1
    requires var child := ChildrenOf(tree, ids[parent])[k]; child.id != "" && child.id !in ids
    ensures var child := ChildrenOf(tree, ids[parent])[k];
            Walked(tree, root, ids + [child.id], depth + [depth[parent] + 1])
  {
    var child, n := ChildrenOf(tree, ids[parent])[k], |ids|;
    var ids', depth' := ids + [child.id], depth + [depth[parent] + 1];
    forall i | 0 <= i <= n ensures Within(tree, root, depth'[i], ids'[i]) && ids'[i] in AllIds(tree, root) {
      if i == n {
        assert Links(tree, ids[parent], child.id);
        assert Within(tree, root, depth[parent], ids[parent]);
        InAllIds(tree, root, ids[parent], k);
      }
    }
    assert NonDecreasing(depth') by {
      forall i, j | 0 <= i <= j <= n ensures depth'[i] <= depth'[j] {
        if j == n && i < n {
          assert depth[i] <= depth[n - 1];
        }
      }
    }
  }

  lemma InAllIds(tree: Tree, root: string, v: string, k: nat)
    requires k < |ChildrenOf(tree, v)|
    ensures ChildrenOf(tree, v)[k].id in AllIds(tree, root)
  {
    var page := ChildrenOf(tree, v)[k];
    assert v in tree && page in tree[v];
  }

  // Once everything is expanded, whatever lies within n links has been found at depth n or less.
  lemma {:induction false} FullyExpanded(tree: Tree, root: string, ids: seq<string>, depth: seq<nat>,
                                         n: nat, id: string)
    requires Walked(tree, root, ids, depth) && Expanded(tree, ids, depth, |ids|)
    requires Within(tree, root, n, id)
    ensures Found(ids, depth, id, n)
  {
    if n == 0 {
    } else {
      if Within(tree, root, n - 1, id) {
        FullyExpanded(tree, root, ids, depth, n - 1, id);
      } else {
        var v :| Within(tree, root, n - 1, v) && Links(tree, v, id);
        FullyExpanded(tree, root, ids, depth, n - 1, v);
        var j :| 0 <= j < |ids| && ids[j] == v && depth[j] <= n - 1;
        var i :| 0 <= i < |ChildrenOf(tree, v)| && ChildrenOf(tree, v)[i].id == id;
        assert Found(ids, depth, ChildrenOf(tree, ids[j])[i].id, depth[j] + 1);
      }
    }
  }

  lemma DepthIsDistance(tree: Tree, root: string, ids: seq<string>, depth: seq<nat>, i: nat)
    requires Walked(tree, root, ids, depth) && Expanded(tree, ids, depth, |ids|)
    requires i < |ids|
    ensures AtDistance(tree, root, ids[i], depth[i])
  {
    if depth[i] > 0 && Within(tree, root, depth[i] - 1, ids[i]) {
      FullyExpanded(tree, root, ids, depth, depth[i] - 1, ids[i]);
      assert false;
    }
  }

  // Halfway through the children of `parent`: the first k have been found.
  ghost predicate Visiting(tree: Tree, root: string, ids: seq<string>, depth: seq<nat>, parent: nat, k: nat) {
    && Walked(tree, root, ids, depth)
    && parent < |ids| && k <= |ChildrenOf(tree, ids[parent])|
    && depth[|ids| - 1] <= depth[parent] + 1
    && Expanded(tree, ids, depth, parent)
    && forall j :: 0 <= j < k && ChildrenOf(tree, ids[parent])[j].id != ""
                   ==> Found(ids, depth, ChildrenOf(tree, ids[parent])[j].id, depth[parent] + 1)
  }

  lemma KnownChild(tree: Tree, root: string, ids: seq<string>, depth: seq<nat>, parent: nat, k: nat)
    requires Visiting(tree, root, ids, depth, parent, k) && k < |ChildrenOf(tree, ids[parent])|
    requires var child := ChildrenOf(tree, ids[parent])[k]; child.id == "" || child.id in ids
    ensures Visiting(tree, root, ids, depth, parent, k + 1)
  {
    var child := ChildrenOf(tree, ids[parent])[k];
    if child.id != "" {
      var j :| 0 <= j < |ids| && ids[j] == child.id;
      assert depth[j] <= depth[|ids| - 1];
    }
  }

  lemma NewChild(tree: Tree, root: string, ids: seq<string>, depth: seq<nat>, parent: nat, k: nat)
    requires Visiting(tree, root, ids, depth, parent, k) && k < |ChildrenOf(tree, ids[parent])|
    requires var child := ChildrenOf(tree, ids[parent])[k]; child.id != "" && child.id !in ids
    ensures var child := ChildrenOf(tree, ids[parent])[k];
            Visiting(tree, root, ids + [child.id], depth + [depth[parent] + 1], parent, k + 1)
  {
    var children, at := ChildrenOf(tree, ids[parent]), depth[parent] + 1;
    var child := children[k];
    WalkedGrows(tree, root, ids, depth, parent, k);
    ExpandedStays(tree, ids, depth, parent, child.id, at);
    var ids', depth' := ids + [child.id], depth + [at];
    assert ids'[parent] == ids[parent] && depth'[parent] == depth[parent];
    forall j | 0 <= j <= k && children[j].id != "" ensures Found(ids', depth', children[j].id, at) {
      if j == k {
        assert ids'[|ids|] == child.id && depth'[|ids|] <= at;
      } else {
        FoundStays(ids, depth, children[j].id, at, child.id, at);
      }
    }
  }

  // Between two pages of the walk: everything before `head` is expanded, and the queue spans two levels.
  ghost predicate Ready(tree: Tree, root: string, ids: seq<string>, depth: seq<nat>, head: nat) {
    && Walked(tree, root, ids, depth)
    && head <= |ids| && Expanded(tree, ids, depth, head)
    && (head < |ids| ==> depth[|ids| - 1] <= depth[head] + 1)
  }

  lemma VisitedAll(tree: Tree, root: string, ids: seq<string>, depth: seq<nat>, parent: nat)
    requires parent < |ids|
    requires Visiting(tree, root, ids, depth, parent, |ChildrenOf(tree, ids[parent])|)
    ensures Ready(tree, root, ids, depth, parent + 1)
  {
  }

  // The set of seen ids is the ids found, each once.
  ghost predicate Tracks(seen: set<string>, ids: seq<string>) {
    (forall id :: id in seen <==> id in ids) && |seen| == |ids|
  }

  lemma TracksMore(seen: set<string>, ids: seq<string>, id: string)
    requires Tracks(seen, ids) && id !in seen
    ensures Tracks(seen + {id}, ids + [id])
  {
  }

  // Halfway through the children of `parent`, with the walk's variables.
  ghost predicate Walking(tree: Tree, root: string, pages: seq<Page>, seen: set<string>, queue: seq<string>,
                          ids: seq<string>, depth: seq<nat>, parent: nat, k: nat)
  {
    && Visiting(tree, root, ids, depth, parent, k) && Recorded(tree, pages, ids)
    && Tracks(seen, ids) && queue == ids[parent + 1..]
  }

  lemma SkipsChild(tree: Tree, root: string, pages: seq<Page>, seen: set<string>, queue: seq<string>,
                   ids: seq<string>, depth: seq<nat>, parent: nat, k: nat)
    requires Walking(tree, root, pages, seen, queue, ids, depth, parent, k) && k < |ChildrenOf(tree, ids[parent])|
    requires var child := ChildrenOf(tree, ids[parent])[k]; child.id == "" || child.id in seen
    ensures Walking(tree, root, pages, seen, queue, ids, depth, parent, k + 1)
  {
    KnownChild(tree, root, ids, depth, parent, k);
  }

  lemma AddsChild(tree: Tree, root: string, pages: seq<Page>, seen: set<string>, queue: seq<string>,
                  ids: seq<string>, depth: seq<nat>, parent: nat, k: nat)
    requires Walking(tree, root, pages, seen, queue, ids, depth, parent, k) && k < |ChildrenOf(tree, ids[parent])|
    requires var child := ChildrenOf(tree, ids[parent])[k]; child.id != "" && child.id !in seen
    ensures var child := ChildrenOf(tree, ids[parent])[k];
            Walking(tree, root, pages + [child], seen + {child.id}, queue + [child.id],
                    ids + [child.id], depth + [depth[parent] + 1], parent, k + 1)
  {
    var child := ChildrenOf(tree, ids[parent])[k];
    NewChild(tree, root, ids, depth, parent, k);
    RecordGrows(tree, pages, ids, parent, child);
    TracksMore(seen, ids, child.id);
  }

  // The children of one page: each new one is recorded and queued. `parent` is the page's place in the walk.
  method VisitChildren(tree: Tree, cap: nat, root: string, pages: seq<Page>, seen: set<string>, queue: seq<string>,
                       ghost ids: seq<string>, ghost depth: seq<nat>, ghost parent: nat, parentId: string)
    returns (pages': seq<Page>, seen': set<string>, queue': seq<string>, ghost ids': seq<string>,
             ghost depth': seq<nat>)
    requires Walking(Served(tree, cap), root, pages, seen, queue, ids, depth, parent, 0) && parentId == ids[parent]
    ensures |ids'| >= |ids| && |pages'| >= |pages| && pages'[0] == pages[0]
    ensures Walking(Served(tree, cap), root, pages', seen', queue', ids', depth', parent,
              |ChildrenOf(Served(tree, cap), parentId)|)
    ensures ids'[parent] == parentId
  {
    pages', seen', queue', ids', depth' := pages, seen, queue, ids, depth;
    ghost var served := Served(tree, cap);
    var children := ListChildren(tree, parentId, cap);
    for k := 0 to |children|
      invariant |ids'| >= |ids| && |pages'| >= |pages| && pages'[0] == pages[0]
      invariant Walking(served, root, pages', seen', queue', ids', depth', parent, k) && ids'[parent] == parentId
    {
      var child := children[k];
      if child.id == "" || child.id in seen' {
        SkipsChild(served, root, pages', seen', queue', ids', depth', parent, k);
        continue;
      }
      AddsChild(served, root, pages', seen', queue', ids', depth', parent, k);
      seen' := seen' + {child.id};
      pages' := pages' + [child];
      queue' := queue' + [child.id];
      ids', depth' := ids' + [child.id], depth' + [depth'[parent] + 1];
    }
  }

  lemma WalkedFits(tree: Tree, root: string, ids: seq<string>, depth: seq<nat>, seen: set<string>)
    requires Walked(tree, root, ids, depth) && Tracks(seen, ids)
    ensures |ids| <= |AllIds(tree, root)|
  {
    assert seen <= AllIds(tree, root);
    SubsetSize(seen, AllIds(tree, root));
  }

  lemma RootIsReady(tree: Tree, root: string)
    ensures Ready(tree, root, [root], [0], 0)
  {
  }

  lemma {:induction false} SubsetSize(a: set<string>, b: set<string>)
    requires a <= b
    ensures |a| <= |b|
    decreases a
  {
    if a == {} {
    } else {
      var x :| x in a;
      SubsetSize(a - {x}, b - {x});
    }
  }

  lemma WalkComplete(tree: Tree, root: string, ids: seq<string>, depth: seq<nat>)
    requires Walked(tree, root, ids, depth) && Expanded(tree, ids, depth, |ids|)
    ensures forall i :: 0 <= i < |ids| ==> AtDistance(tree, root, ids[i], depth[i])
    ensures forall id :: id in ids <==> Reachable(tree, root, id)
  {
    forall i | 0 <= i < |ids| ensures AtDistance(tree, root, ids[i], depth[i]) && Reachable(tree, root, ids[i]) {
      DepthIsDistance(tree, root, ids, depth, i);
      assert Within(tree, root, depth[i], ids[i]);
    }
    forall id | Reachable(tree, root, id) ensures id in ids {
      var n: nat :| Within(tree, root, n, id);
      FullyExpanded(tree, root, ids, depth, n, id);
    }
  }

  lemma {:induction false} WithinGrows(tree: Tree, root: string, id: string, m: nat, n: nat)
    requires m <= n && Within(tree, root, m, id)
    ensures Within(tree, root, n, id)
  {
    if m >= n {
    } else {
      WithinGrows(tree, root, id, m, n - 1);
    }
  }

  lemma DistanceIsUnique(tree: Tree, root: string, id: string, m: nat, n: nat)
    requires AtDistance(tree, root, id, m) && AtDistance(tree, root, id, n)
    ensures m == n
  {
    if m < n {
      WithinGrows(tree, root, id, m, n - 1);
    } else if n < m {
      WithinGrows(tree, root, id, n, m - 1);
    }
  }

  // Earlier ids are no farther from the root than later ones.
  ghost predicate NearestFirst(tree: Tree, root: string, ids: seq<string>) {
    forall i, j, m: nat, n: nat :: 0 <= i <= j < |ids|
                                    && AtDistance(tree, root, ids[i], m) && AtDistance(tree, root, ids[j], n)
                                   ==> m <= n
  }

  lemma DepthsOrder(tree: Tree, root: string, ids: seq<string>, depth: seq<nat>)
    requires |ids| == |depth| && NonDecreasing(depth)
    requires forall i :: 0 <= i < |ids| ==> AtDistance(tree, root, ids[i], depth[i])
    ensures NearestFirst(tree, root, ids)
  {
    forall i, j, m: nat, n: nat | 0 <= i <= j < |ids|
                                    && AtDistance(tree, root, ids[i], m) && AtDistance(tree, root, ids[j], n)
      ensures m <= n
    {
      DistanceIsUnique(tree, root, ids[i], m, depth[i]);
      DistanceIsUnique(tree, root, ids[j], n, depth[j]);
    }
  }

  // The ids of a walk's records; the root is asked for by its id.
  function IdsOf(rootId: string, pages: seq<Page>): (ids: seq<string>)
    ensures |ids| == |pages|
  {
    seq(|pages|, i requires 0 <= i < |pages| => if i == 0 then rootId else pages[i].id)
  }

  // What the records of a finished walk amount to.
  lemma ListingIsComplete(tree: Tree, rootId: string, pages: seq<Page>, ids: seq<string>, depth: seq<nat>)
    requires Ready(tree, rootId, ids, depth, |ids|) && Recorded(tree, pages, ids)
    ensures IdsOf(rootId, pages) == ids && Distinct(ids) && NearestFirst(tree, rootId, ids)
    ensures forall id :: id in ids <==> Reachable(tree, rootId, id)
    ensures forall i :: 1 <= i < |pages| ==> ListedUnder(tree, ids, i, pages[i])
  {
    WalkComplete(tree, rootId, ids, depth);
    DepthsOrder(tree, rootId, ids, depth);
  }

  // The walk terminates on every finite graph, cycles included, and returns the root's record followed by
  // exactly one record per id reachable from it in the tree as served, nearest to the root first.
  method ListTree(tree: Tree, cap: nat, rootId: string, root: Page) returns (pages: seq<Page>)
    ensures |pages| >= 1 && pages[0] == root
    ensures Distinct(IdsOf(rootId, pages))
    ensures forall id :: id in IdsOf(rootId, pages) <==> Reachable(Served(tree, cap), rootId, id)
    ensures NearestFirst(Served(tree, cap), rootId, IdsOf(rootId, pages))
    ensures forall i :: 1 <= i < |pages| ==> ListedUnder(Served(tree, cap), IdsOf(rootId, pages), i, pages[i])
  {
    pages := [root];
    var seen, queue := {rootId}, [rootId];
    ghost var served := Served(tree, cap);
    ghost var ids: seq<string>, depth: seq<nat>, head: nat := [rootId], [0], 0;
    RootIsReady(served, rootId);
    while queue != []
      invariant Ready(served, rootId, ids, depth, head) && Recorded(served, pages, ids) && pages[0] == root
      invariant queue == ids[head..] && Tracks(seen, ids)
      decreases |AllIds(served, rootId)| - head
    {
      var parentId := queue[0];
      queue := queue[1..];
      WalkedFits(served, rootId, ids, depth, seen);
      pages, seen, queue, ids, depth :=
        VisitChildren(tree, cap, rootId, pages, seen, queue, ids, depth, head, parentId);
      VisitedAll(served, rootId, ids, depth, head);
      head := head + 1;
    }
    ListingIsComplete(served, rootId, pages, ids, depth);
  }
}
