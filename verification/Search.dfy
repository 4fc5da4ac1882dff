/** Dense and keyword search over stored points, in two implementations that must agree
    (src/alvis/index/memory.py, src/alvis/index/sqlite.py, src/alvis/index/_acl.py). */
module Search {
  import opened Wrappers
  import opened Models
  import opened MemoryIndexes
  import opened Sorting
  import opened Cosine
  import opened Bm25

  // A point is visible when it declares no principals or shares one with the caller; a caller without an
  // identity sees everything.
  predicate AclVisible(metadata: Metadata, principals: Option<seq<string>>) {
    principals.None? || "acl" !in metadata || metadata["acl"].Scalar? || metadata["acl"].items == []
    || exists i :: 0 <= i < |metadata["acl"].items| && metadata["acl"].items[i] in principals.value
  }

  // The text a filter compares a key with; a missing key reads as None.
  function TextOfKey(metadata: Metadata, key: string): string {
    if key in metadata then metadata[key].text else "None"
  }

  predicate Matches(metadata: Metadata, filters: map<string, string>) {
    forall key :: key in filters ==> TextOfKey(metadata, key) == filters[key]
  }

  predicate Admitted(point: Point, filters: map<string, string>, principals: Option<seq<string>>) {
    Matches(point.chunk.metadata, filters) && AclVisible(point.chunk.metadata, principals)
  }

  function Visible(points: seq<Point>, filters: map<string, string>, principals: Option<seq<string>>): seq<Point> {
    if points == [] then []
    else
      var rest, last := Visible(points[..|points| - 1], filters, principals), points[|points| - 1];
      if Admitted(last, filters, principals) then rest + [last] else rest
  }

  lemma {:induction false} VisibleMembers(points: seq<Point>, filters: map<string, string>,
                                          principals: Option<seq<string>>)
    ensures forall p :: p in Visible(points, filters, principals) <==> p in points && Admitted(p, filters, principals)
  {
    if points == [] {
    } else {
      VisibleMembers(points[..|points| - 1], filters, principals);
      assert points == points[..|points| - 1] + [points[|points| - 1]];
    }
  }

  // The similarity of a point to the query vector; vectors of another length never get this far.
  function Similarity(root: real -> real, query: Vector, point: Point): real {
    if |query| == |point.vector| then CosineSimilarity(root, query, point.vector) else 0.0
  }

  predicate SameLength(query: Vector, points: seq<Point>) {
    forall i :: 0 <= i < |points| ==> |points[i].vector| == |query|
  }

  function HitOf(point: Point, score: real): SearchHit {
    SearchHit(point.chunk.text, point.chunk.uri, point.chunk.metadata, score)
  }

  // MemoryIndex.search: sort the visible points by similarity, cut, then clamp the scores. A visible point
  // whose vector has another length than the query's makes the whole search fail.
  function MemorySearch(root: real -> real, points: seq<Point>, query: Vector, topK: int,
                        filters: map<string, string>, principals: Option<seq<string>>): Result<seq<SearchHit>, string>
  {
    var visible := Visible(points, filters, principals);
    if !SameLength(query, visible) then Err("vector lengths differ")
    else
      var sorted := SortDescending(visible, (p: Point) => Similarity(root, query, p));
      Ok(Map(Prefix(sorted, topK), (p: Point) => HitOf(p, Clamp(Similarity(root, query, p)))))
  }

  // A scored row of the SQLite search.
  datatype Row = Row(similarity: real, point: Point)

  function RowOf(root: real -> real, query: Vector, p: Point): Row {
    Row(Clamp(Similarity(root, query, p)), p)
  }

  // SqliteIndex.search: score and clamp row by row, sort the scored rows, cut. Its answer on any sequence
  // of points is the in-memory search's, hit for hit.
  method SqliteSearch(root: real -> real, points: seq<Point>, query: Vector, topK: int,
                      filters: map<string, string>, principals: Option<seq<string>>)
    returns (hits: Result<seq<SearchHit>, string>)
    requires IsSquareRoot(root)
    ensures hits == MemorySearch(root, points, query, topK, filters, principals)
  {
    var scored: seq<Row> := [];
    var decorate := (p: Point) => RowOf(root, query, p);
    for i := 0 to |points|
      invariant SameLength(query, Visible(points[..i], filters, principals))
      invariant scored == Map(Visible(points[..i], filters, principals), decorate)
    {
      assert points[..i + 1][..i] == points[..i];
      var point := points[i];
      if !Matches(point.chunk.metadata, filters) {
        continue;
      }
      if !AclVisible(point.chunk.metadata, principals) {
        continue;
      }
      if |point.vector| != |query| {
        OneMismatchFails(points, query, i, filters, principals);
        return Err("vector lengths differ");
      }
      scored := scored + [Row(Clamp(CosineSimilarity(root, query, point.vector)), point)];
    }
    assert points[..|points|] == points;
    var sorted := SortDescending(scored, (row: Row) => row.similarity);
    hits := Ok(Map(Prefix(sorted, topK), (row: Row) => HitOf(row.point, row.similarity)));
    SearchesAgree(root, Visible(points, filters, principals), query, topK);
  }

  lemma {:induction false} OneMismatchFails(points: seq<Point>, query: Vector, i: nat, filters: map<string, string>,
                                            principals: Option<seq<string>>)
    requires i < |points| && Admitted(points[i], filters, principals) && |points[i].vector| != |query|
    ensures !SameLength(query, Visible(points, filters, principals))
  {
    VisibleMembers(points, filters, principals);
    assert points[i] in Visible(points, filters, principals);
  }

  // Since similarities already lie in [-1, 1], clamping before or after the stable sort is the same.
  lemma SearchesAgree(root: real -> real, visible: seq<Point>, query: Vector, topK: int)
    requires IsSquareRoot(root) && SameLength(query, visible)
    ensures var key := (p: Point) => Similarity(root, query, p);
            var scored := Map(visible, (p: Point) => RowOf(root, query, p));
            (Map(Prefix(SortDescending(scored, (row: Row) => row.similarity), topK),
                 (row: Row) => HitOf(row.point, row.similarity))
             == Map(Prefix(SortDescending(visible, key), topK),
                    (p: Point) => HitOf(p, Clamp(Similarity(root, query, p)))))
  {
    var key, decorate := (p: Point) => Similarity(root, query, p), (p: Point) => RowOf(root, query, p);
    var keyOf := (row: Row) => row.similarity;
    forall i | 0 <= i < |visible| ensures keyOf(decorate(visible[i])) == key(visible[i]) {
      ClampIsIdentity(root, query, visible[i].vector);
    }
    SortMap(visible, decorate, key, keyOf);
    SortSorts(visible, key);
    assert Prefix(Map(SortDescending(visible, key), decorate), topK)
      == Map(Prefix(SortDescending(visible, key), topK), decorate);
  }

  function ScoredPoints(points: seq<Point>, scores: seq<real>): seq<Row>
    requires |points| == |scores|
  {
    seq(|points|, i requires 0 <= i < |points| => Row(scores[i], points[i]))
  }

  // The BM25 score of each visible point, beside the point.
  function KeywordRows(ln: real -> real, tokenize: string -> seq<string>, visible: seq<Point>, text: string): seq<Row> {
    ScoredPoints(visible, Scores(ln, tokenize(text), Map(visible, (p: Point) => tokenize(p.chunk.text))))
  }

  // keyword_search of both indexes: BM25 over the visible points, sorted, cut.
  function KeywordSearch(ln: real -> real, tokenize: string -> seq<string>, points: seq<Point>, text: string, topK: int,
                         filters: map<string, string>, principals: Option<seq<string>>): seq<SearchHit>
  {
    var rows := KeywordRows(ln, tokenize, Visible(points, filters, principals), text);
    var ranked := SortDescending(rows, (row: Row) => row.similarity);
    Map(Prefix(ranked, topK), (row: Row) => HitOf(row.point, row.similarity))
  }

  // What a dense search promises: at most top_k hits, best first, all of them visible, and no visible point
  // left out outscores one returned.
  lemma DenseSearchFacts(root: real -> real, points: seq<Point>, query: Vector, topK: nat,
                         filters: map<string, string>, principals: Option<seq<string>>)
    requires MemorySearch(root, points, query, topK, filters, principals).Ok? && IsSquareRoot(root)
    ensures var hits := MemorySearch(root, points, query, topK, filters, principals).value;
            var sorted :=
              SortDescending(Visible(points, filters, principals), (p: Point) => Similarity(root, query, p));
            && |hits| == (if |sorted| < topK then |sorted| else topK)
            && (forall i :: 0 <= i < |hits| ==> hits[i] == HitOf(sorted[i], Similarity(root, query, sorted[i])))
            && (forall i, j :: 0 <= i < |hits| && i < j < |sorted| ==>
                 hits[i].score >= Similarity(root, query, sorted[j]))
            && multiset(sorted) == multiset(Visible(points, filters, principals))
  {
    var visible := Visible(points, filters, principals);
    var key := (p: Point) => Similarity(root, query, p);
    SortSorts(visible, key);
    var sorted := SortDescending(visible, key);
    forall i | 0 <= i < |sorted| ensures Clamp(key(sorted[i])) == key(sorted[i]) {
      assert sorted[i] in multiset(visible);
      assert sorted[i] in visible;
      ClampIsIdentity(root, query, sorted[i].vector);
    }
  }

  // The same for a keyword search: the best top_k visible points by BM25, best first.
  lemma KeywordSearchFacts(ln: real -> real, tokenize: string -> seq<string>, points: seq<Point>, text: string,
                           topK: nat, filters: map<string, string>, principals: Option<seq<string>>)
    ensures var hits := KeywordSearch(ln, tokenize, points, text, topK, filters, principals);
            var rows := KeywordRows(ln, tokenize, Visible(points, filters, principals), text);
            var ranked := SortDescending(rows, (row: Row) => row.similarity);
            && multiset(ranked) == multiset(rows)
            && |hits| == (if |rows| < topK then |rows| else topK)
            && (forall i :: 0 <= i < |hits| ==> hits[i] == HitOf(ranked[i].point, ranked[i].similarity))
            && (forall i, j :: 0 <= i < |hits| && i < j < |ranked| ==> hits[i].score >= ranked[j].similarity)
  {
    SortSorts(KeywordRows(ln, tokenize, Visible(points, filters, principals), text), (row: Row) => row.similarity);
  }
}
