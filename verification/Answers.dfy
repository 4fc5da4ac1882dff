/** What a query answers, in terms of the stored points and their metadata alone: who may see what, how many hits come
    back, and that none left out would have been better (src/alvis/pipeline/runner.py, src/alvis/index/_acl.py). */
module Answers {
  import opened Wrappers
  import opened Models
  import opened MemoryIndexes
  import opened Sorting
  import opened Cosine
  import opened Search
  import opened Fusion
  import opened Text
  import opened Bm25
  import opened Query

  /* Access and filters. */

  // Every filtered key has the wanted text, a missing one reading "None"; and of a list of principals that is not empty
  // one is the caller's, unless the caller named none at all.
  predicate Permitted(metadata: Metadata, q: Request) {
    && (forall key :: key in q.filters ==>
          if key in metadata then metadata[key].text == q.filters[key] else q.filters[key] == "None")
    && (q.principals.Some? && "acl" in metadata && metadata["acl"].List? && metadata["acl"].items != [] ==>
          exists item :: item in metadata["acl"].items && item in q.principals.value)
  }

  lemma AdmittedIffPermitted(point: Point, q: Request)
    ensures Admitted(point, q.filters, q.principals) <==> Permitted(point.chunk.metadata, q)
  {
    var metadata := point.chunk.metadata;
    assert Matches(metadata, q.filters)
      <==> forall key :: key in q.filters ==>
             if key in metadata then metadata[key].text == q.filters[key] else q.filters[key] == "None" by {
      if Matches(metadata, q.filters) {
        assert forall key :: key in q.filters ==> TextOfKey(metadata, key) == q.filters[key];
      }
    }
    if q.principals.Some? && "acl" in metadata && metadata["acl"].List? {
      var items := metadata["acl"].items;
      if item :| item in items && item in q.principals.value {
        var i :| 0 <= i < |items| && items[i] == item;
        assert items[i] in q.principals.value;
      }
    }
  }

  // Points stored under different ids are different to a query.
  lemma StoredPointsAreDistinct(points: seq<Point>)
    requires Distinct(Map(points, (p: Point) => IdOf(p.chunk)))
    ensures Distinct(Map(points, PointIdentity))
  {
    var ids, identities := Map(points, (p: Point) => IdOf(p.chunk)), Map(points, PointIdentity);
    forall i, j | 0 <= i < j < |points| ensures identities[i] != identities[j] {
      assert ids[i] != ids[j];
    }
  }

  // Whatever the mode and the reply, the caller sees nothing the metadata does not permit.
  lemma HitsArePermitted(t: Tools, points: seq<Point>, q: Request, mode: Mode, i: nat)
    requires Distinct(Map(points, PointIdentity)) && q.topK >= 0 && QueryHits(t, points, q, mode).Ok?
    requires i < |QueryHits(t, points, q, mode).value|
    ensures var hit := QueryHits(t, points, q, mode).value[i];
            Permitted(hit.metadata, q) && exists p :: p in points && p.chunk == Chunk(hit.text, hit.uri, hit.metadata)
  {
    QueryIsProper(t, points, q, mode);
    var hit := QueryHits(t, points, q, mode).value[i];
    var j :| 0 <= j < |points| && Admitted(points[j], q.filters, q.principals) && hit.text == points[j].chunk.text
             && hit.uri == points[j].chunk.uri && hit.metadata == points[j].chunk.metadata;
    AdmittedIffPermitted(points[j], q);
    assert points[j].chunk == Chunk(hit.text, hit.uri, hit.metadata);
  }

  /* How many. */

  function PermittedPlaces(points: seq<Point>, q: Request): set<int> {
    set i | 0 <= i < |points| && Permitted(points[i].chunk.metadata, q)
  }

  lemma {:induction false} VisibleCount(points: seq<Point>, q: Request)
    ensures |Visible(points, q.filters, q.principals)| == |PermittedPlaces(points, q)|
  {
    if points == [] {
      assert PermittedPlaces(points, q) == {};
    } else {
      var rest, last := points[..|points| - 1], |points| - 1;
      VisibleCount(rest, q);
      AdmittedIffPermitted(points[last], q);
      var before := PermittedPlaces(rest, q);
      assert last !in before;
      assert PermittedPlaces(points, q) == before + if Permitted(points[last].chunk.metadata, q) then {last} else {};
    }
  }

  lemma VisibleIsPermitted(points: seq<Point>, q: Request, p: Point)
    ensures p in Visible(points, q.filters, q.principals) <==> p in points && Permitted(p.chunk.metadata, q)
  {
    VisibleMembers(points, q.filters, q.principals);
    AdmittedIffPermitted(p, q);
  }

  // A query without fusion and reranking is the dense search for top_k hits, however many candidates it fetched.
  lemma PlainQueryIsDense(t: Tools, points: seq<Point>, q: Request, mode: Mode)
    requires q.topK >= 0 && (!mode.hybrid || !mode.keywords) && mode.rerank.None?
    requires QueryHits(t, points, q, mode).Ok?
    ensures DenseHits(t, points, q, q.topK) == QueryHits(t, points, q, mode)
  {
    if mode.hybrid {
      MoreHitsStartTheSame(t, points, q, q.topK, q.topK * CANDIDATE_FACTOR);
    }
  }

  function Smaller(a: nat, b: nat): nat {
    if a < b then a else b
  }

  // Without fusion and reranking, with or without a keyword search to fall back from: as many hits as were asked for,
  // or all permitted points when there are fewer; each the hit of a permitted point, best first.
  lemma PlainQueryIsFull(t: Tools, points: seq<Point>, q: Request, mode: Mode)
    requires IsSquareRoot(t.root) && q.topK >= 0 && (!mode.hybrid || !mode.keywords) && mode.rerank.None?
    requires QueryHits(t, points, q, mode).Ok?
    ensures var hits := QueryHits(t, points, q, mode).value;
            && |hits| == Smaller(q.topK, |PermittedPlaces(points, q)|)
            && (forall i :: 0 <= i < |hits| ==> IsHitOfPermitted(t, points, q, hits[i]))
            && (forall i, j :: 0 <= i < j < |hits| ==> hits[i].score >= hits[j].score)
  {
    PlainQueryIsDense(t, points, q, mode);
    DenseSearchFacts(t.root, points, q.vector, q.topK, q.filters, q.principals);
    VisibleCount(points, q);
    var visible := Visible(points, q.filters, q.principals);
    var sorted := SortDescending(visible, (p: Point) => Similarity(t.root, q.vector, p));
    var hits := QueryHits(t, points, q, mode).value;
    assert |multiset(sorted)| == |multiset(visible)|;
    forall i | 0 <= i < |hits| ensures IsHitOfPermitted(t, points, q, hits[i]) {
      assert sorted[i] in multiset(visible);
      VisibleIsPermitted(points, q, sorted[i]);
    }
  }

  predicate IsHitOfPermitted(t: Tools, points: seq<Point>, q: Request, hit: SearchHit) {
    exists p :: p in points && Permitted(p.chunk.metadata, q) && hit == HitOf(p, Similarity(t.root, q.vector, p))
  }

  // And no permitted point left out is closer to the query than any that is returned.
  lemma PlainQueryIsBest(t: Tools, points: seq<Point>, q: Request, mode: Mode, p: Point)
    requires IsSquareRoot(t.root) && q.topK >= 0 && (!mode.hybrid || !mode.keywords) && mode.rerank.None?
    requires QueryHits(t, points, q, mode).Ok? && p in points && Permitted(p.chunk.metadata, q)
    ensures var hits := QueryHits(t, points, q, mode).value;
            HitOf(p, Similarity(t.root, q.vector, p)) in hits
            || forall i :: 0 <= i < |hits| ==> hits[i].score >= Similarity(t.root, q.vector, p)
  {
    var hits := QueryHits(t, points, q, mode).value;
    PlainQueryIsDense(t, points, q, mode);
    DenseSearchFacts(t.root, points, q.vector, q.topK, q.filters, q.principals);
    VisibleIsPermitted(points, q, p);
    var visible := Visible(points, q.filters, q.principals);
    var sorted := SortDescending(visible, (p: Point) => Similarity(t.root, q.vector, p));
    assert p in multiset(visible) && p in multiset(sorted);
    var j :| 0 <= j < |sorted| && sorted[j] == p;
    if j < |hits| {
      assert hits[j] == HitOf(p, Similarity(t.root, q.vector, p));
    }
  }

  // The BM25 score of a point's text for a query, among the texts of all permitted points.
  function WordScore(t: Tools, points: seq<Point>, q: Request, p: Point): real {
    var texts := Map(Visible(points, q.filters, q.principals), (p: Point) => t.tokenize(p.chunk.text));
    Score(t.ln, texts, FirstSeen(t.tokenize(q.text)), t.tokenize(p.chunk.text))
  }

  // A keyword search returns as many hits as were asked for, or all permitted points when there are fewer, best first.
  lemma KeywordHitsAreFull(t: Tools, points: seq<Point>, q: Request, k: nat)
    ensures var hits := KeywordHits(t, points, q, k);
            && |hits| == Smaller(k, |PermittedPlaces(points, q)|)
            && (forall i :: 0 <= i < |hits| ==> IsWordHit(t, points, q, hits[i]))
            && (forall i, j :: 0 <= i < j < |hits| ==> hits[i].score >= hits[j].score)
  {
    var hits, visible := KeywordHits(t, points, q, k), Visible(points, q.filters, q.principals);
    var rows := KeywordRows(t.ln, t.tokenize, visible, q.text);
    var ranked := SortDescending(rows, (row: Row) => row.similarity);
    KeywordSearchFacts(t.ln, t.tokenize, points, q.text, k, q.filters, q.principals);
    VisibleCount(points, q);
    SortSorts(rows, (row: Row) => row.similarity);
    forall i | 0 <= i < |hits| ensures IsWordHit(t, points, q, hits[i]) {
      assert ranked[i] in multiset(rows);
      var j :| 0 <= j < |rows| && rows[j] == ranked[i];
      VisibleIsPermitted(points, q, visible[j]);
      assert hits[i] == HitOf(visible[j], WordScore(t, points, q, visible[j]));
    }
  }

  predicate IsWordHit(t: Tools, points: seq<Point>, q: Request, hit: SearchHit) {
    exists p :: p in points && Permitted(p.chunk.metadata, q) && hit == HitOf(p, WordScore(t, points, q, p))
  }

  // And no permitted point left out scores higher than any that is returned.
  lemma KeywordHitsAreBest(t: Tools, points: seq<Point>, q: Request, k: nat, p: Point)
    requires p in points && Permitted(p.chunk.metadata, q)
    ensures var hits := KeywordHits(t, points, q, k);
            HitOf(p, WordScore(t, points, q, p)) in hits
            || forall i :: 0 <= i < |hits| ==> hits[i].score >= WordScore(t, points, q, p)
  {
    var hits, visible := KeywordHits(t, points, q, k), Visible(points, q.filters, q.principals);
    var rows := KeywordRows(t.ln, t.tokenize, visible, q.text);
    var ranked := SortDescending(rows, (row: Row) => row.similarity);
    KeywordSearchFacts(t.ln, t.tokenize, points, q.text, k, q.filters, q.principals);
    VisibleIsPermitted(points, q, p);
    var m :| 0 <= m < |visible| && visible[m] == p;
    assert rows[m] == Row(WordScore(t, points, q, p), p);
    assert rows[m] in multiset(rows) && rows[m] in multiset(ranked);
    var j :| 0 <= j < |ranked| && ranked[j] == rows[m];
    if j < |hits| {
      assert hits[j] == HitOf(p, WordScore(t, points, q, p));
    }
  }

  /* Hybrid answers. */

  function SetOf<T>(xs: seq<T>): set<T> {
    set x | x in xs
  }

  lemma {:induction false} SetOfDistinct<T>(xs: seq<T>)
    ensures |SetOf(xs)| <= |xs|
    ensures Distinct(xs) ==> |SetOf(xs)| == |xs|
  {
    if xs == [] {
      assert SetOf(xs) == {};
    } else {
      var rest, last := xs[..|xs| - 1], xs[|xs| - 1];
      SetOfDistinct(rest);
      assert xs == rest + [last];
      assert SetOf(xs) == SetOf(rest) + {last};
      if Distinct(xs) {
        assert last !in rest;
      }
    }
  }

  // The identities either ranker found.
  function FoundByEither(dense: seq<SearchHit>, words: seq<SearchHit>): set<Identity> {
    SetOf(Identities(dense)) + SetOf(Identities(words))
  }

  lemma FoundIsFused(dense: seq<SearchHit>, words: seq<SearchHit>, id: Identity)
    ensures id in AddAll([dense, words], DEFAULT_K).order <==> id in FoundByEither(dense, words)
  {
    var rankings := [dense, words];
    FoundInSome(rankings, id, DEFAULT_K);
    AddAllIsConsistent(rankings, DEFAULT_K);
    if r, i :| 0 <= r < |rankings| && 0 <= i < |rankings[r]| && IdentityOf(rankings[r][i]) == id {
      assert Identities(rankings[r])[i] == id;
    }
    if i :| 0 <= i < |dense| && Identities(dense)[i] == id {
      assert IdentityOf(rankings[0][i]) == id;
    }
    if i :| 0 <= i < |words| && Identities(words)[i] == id {
      assert IdentityOf(rankings[1][i]) == id;
    }
  }

  lemma SameMembers<T>(xs: seq<T>, ys: seq<T>)
    requires multiset(xs) == multiset(ys)
    ensures SetOf(xs) == SetOf(ys)
  {
    forall x ensures x in xs <==> x in ys {
      assert x in xs <==> x in multiset(xs);
      assert x in ys <==> x in multiset(ys);
    }
  }

  // A fusion of two rankings has one hit for each identity either of them holds.
  lemma FusedIdentities(dense: seq<SearchHit>, words: seq<SearchHit>)
    ensures var ids := Identities(Fuse([dense, words], DEFAULT_K));
            Distinct(ids) && SetOf(ids) == FoundByEither(dense, words) && |ids| == |FoundByEither(dense, words)|
  {
    var rankings := [dense, words];
    var f := AddAll(rankings, DEFAULT_K);
    var ids := SortDescending(f.order, (id: Identity) => ScoreOf(f, id));
    FuseFacts(rankings, DEFAULT_K);
    assert Identities(Fuse(rankings, DEFAULT_K)) == ids;
    SameMembers(ids, f.order);
    forall id ensures id in SetOf(f.order) <==> id in FoundByEither(dense, words) {
      FoundIsFused(dense, words, id);
    }
    assert SetOf(f.order) == FoundByEither(dense, words);
    SetOfDistinct(ids);
  }

  // Each with all its points for its score, best first.
  predicate IsRanked(hits: seq<SearchHit>, rankings: seq<Ranking>) {
    && (forall i, j :: 0 <= i < j < |hits| ==> hits[i].score >= hits[j].score)
    && forall i :: 0 <= i < |hits| ==> hits[i].score == PointsInAll(rankings, IdentityOf(hits[i]), 60)
  }

  lemma FusionIsRanked(rankings: seq<Ranking>)
    ensures IsRanked(Fuse(rankings, DEFAULT_K), rankings)
  {
    FuseFacts(rankings, DEFAULT_K);
  }

  // An identity is among the hits, or none of them has fewer points.
  predicate IsAmongBest(hits: seq<SearchHit>, rankings: seq<Ranking>, id: Identity) {
    id in Identities(hits)
    || forall i :: 0 <= i < |hits| ==> hits[i].score >= PointsInAll(rankings, id, 60)
  }

  lemma FirstRankedAreBest(all: seq<SearchHit>, rankings: seq<Ranking>, k: nat, id: Identity)
    requires IsRanked(all, rankings) && id in Identities(all)
    ensures IsAmongBest(Prefix(all, k), rankings, id)
  {
    var hits := Prefix(all, k);
    var j :| 0 <= j < |all| && Identities(all)[j] == id;
    if j < |hits| {
      assert Identities(hits)[j] == id;
    }
  }

  // The answer of a hybrid query without reranking: as many hits as were asked for, or one for each identity that
  // either ranker found among four times as many, best first.
  lemma HybridQueryIsFull(t: Tools, points: seq<Point>, q: Request, dense: seq<SearchHit>)
    requires q.topK >= 0 && !Blank(q.text) && DenseHits(t, points, q, q.topK * 4) == Ok(dense)
    ensures QueryHits(t, points, q, Mode(true, true, None)).Ok?
    ensures var words := KeywordHits(t, points, q, q.topK * 4);
            var hits := QueryHits(t, points, q, Mode(true, true, None)).value;
            |hits| == Smaller(q.topK, |FoundByEither(dense, words)|) && IsRanked(hits, [dense, words])
  {
    var words := KeywordHits(t, points, q, q.topK * 4);
    HybridAnswer(t, points, q, dense, words);
    FusedIdentities(dense, words);
    FusionIsRanked([dense, words]);
  }

  // And no identity left out has more points than any that is returned.
  lemma HybridQueryIsBest(t: Tools, points: seq<Point>, q: Request, dense: seq<SearchHit>, id: Identity)
    requires q.topK >= 0 && !Blank(q.text) && DenseHits(t, points, q, q.topK * 4) == Ok(dense)
    requires id in FoundByEither(dense, KeywordHits(t, points, q, q.topK * 4))
    ensures QueryHits(t, points, q, Mode(true, true, None)).Ok?
    ensures var rankings := [dense, KeywordHits(t, points, q, q.topK * 4)];
            IsAmongBest(QueryHits(t, points, q, Mode(true, true, None)).value, rankings, id)
  {
    var words := KeywordHits(t, points, q, q.topK * 4);
    HybridAnswer(t, points, q, dense, words);
    FusedIdentities(dense, words);
    FusionIsRanked([dense, words]);
    assert id in SetOf(Identities(Fuse([dense, words], DEFAULT_K)));
    FirstRankedAreBest(Fuse([dense, words], DEFAULT_K), [dense, words], q.topK, id);
  }

  /* Nothing permitted is left out when there is room for it. */

  predicate ShowsPoint(hits: seq<SearchHit>, p: Point) {
    exists i :: 0 <= i < |hits| && hits[i].text == p.chunk.text && hits[i].uri == p.chunk.uri
                && hits[i].metadata == p.chunk.metadata
  }

  lemma DenseShowsAll(t: Tools, points: seq<Point>, q: Request, k: nat, p: Point)
    requires DenseHits(t, points, q, k).Ok? && k >= |points| && p in points && Permitted(p.chunk.metadata, q)
    ensures ShowsPoint(DenseHits(t, points, q, k).value, p)
  {
    var visible := Visible(points, q.filters, q.principals);
    var key := (p: Point) => Similarity(t.root, q.vector, p);
    var sorted := SortDescending(visible, key);
    SortSorts(visible, key);
    VisibleIsPermitted(points, q, p);
    VisibleIsShorter(points, q);
    assert p in multiset(visible) && p in multiset(sorted);
    var j :| 0 <= j < |sorted| && sorted[j] == p;
    assert DenseHits(t, points, q, k).value[j] == HitOf(p, Clamp(key(p)));
  }

  lemma VisibleIsShorter(points: seq<Point>, q: Request)
    ensures |Visible(points, q.filters, q.principals)| <= |points|
  {
    VisibleCount(points, q);
    var places := PermittedPlaces(points, q);
    var all := seq(|points|, (i: int) => i);
    SetOfDistinct(all);
    assert places <= SetOf(all) by {
      forall i | i in places ensures i in SetOf(all) {
        assert all[i] == i;
      }
    }
    SubsetSize(places, SetOf(all));
  }

  lemma SubsetSize<T>(a: set<T>, b: set<T>)
    requires a <= b
    ensures |a| <= |b|
  {
    assert b == a + (b - a);
  }

  // Proper hits are no more than the points they show.
  lemma ProperIsShort(hits: seq<SearchHit>, points: seq<Point>, q: Request)
    requires Proper(hits, points, q)
    ensures |hits| <= |points|
  {
    var found, stored := Identities(hits), Map(points, PointIdentity);
    SetOfDistinct(found);
    SetOfDistinct(stored);
    assert SetOf(found) <= SetOf(stored) by {
      forall id | id in SetOf(found) ensures id in SetOf(stored) {
        var i :| 0 <= i < |found| && found[i] == id;
        assert Shows(hits[i], points, q);
        var j :| 0 <= j < |points| && hits[i].text == points[j].chunk.text && hits[i].uri == points[j].chunk.uri;
        assert stored[j] == id;
      }
    }
    SubsetSize(SetOf(found), SetOf(stored));
  }

  // A proper hit with a point's identity shows the point.
  lemma SameIdentityShows(hits: seq<SearchHit>, points: seq<Point>, q: Request, i: nat, p: Point)
    requires Proper(hits, points, q) && Distinct(Map(points, PointIdentity)) && p in points
    requires i < |hits| && IdentityOf(hits[i]) == PointIdentity(p)
    ensures ShowsPoint(hits, p)
  {
    assert Shows(hits[i], points, q);
    var stored := Map(points, PointIdentity);
    var j :| 0 <= j < |points| && hits[i].text == points[j].chunk.text && hits[i].uri == points[j].chunk.uri
             && hits[i].metadata == points[j].chunk.metadata;
    var k :| 0 <= k < |points| && points[k] == p;
    assert stored[j] == stored[k];
  }

  lemma CandidatesShowAll(t: Tools, points: seq<Point>, q: Request, mode: Mode, p: Point)
    requires Distinct(Map(points, PointIdentity)) && Candidates(t, points, q, mode).Ok? && q.topK >= |points|
    requires p in points && Permitted(p.chunk.metadata, q)
    ensures ShowsPoint(Candidates(t, points, q, mode).value, p)
  {
    var k := CandidateK(mode, q.topK);
    var candidates, dense := Candidates(t, points, q, mode).value, DenseHits(t, points, q, k).value;
    DenseShowsAll(t, points, q, k, p);
    if mode.hybrid && mode.keywords {
      var words := KeywordHits(t, points, q, k);
      FusedIdentities(dense, words);
      CandidatesAreProper(t, points, q, mode);
      var i :| 0 <= i < |dense| && dense[i].text == p.chunk.text && dense[i].uri == p.chunk.uri;
      assert Identities(dense)[i] == PointIdentity(p);
      assert PointIdentity(p) in SetOf(Identities(candidates));
      var j :| 0 <= j < |candidates| && Identities(candidates)[j] == PointIdentity(p);
      SameIdentityShows(candidates, points, q, j, p);
    }
  }

  lemma SameHitsShow(before: seq<SearchHit>, after: seq<SearchHit>, p: Point)
    requires multiset(before) == multiset(after) && ShowsPoint(before, p)
    ensures ShowsPoint(after, p)
  {
    var i :| 0 <= i < |before| && before[i].text == p.chunk.text && before[i].uri == p.chunk.uri
             && before[i].metadata == p.chunk.metadata;
    assert before[i] in multiset(after);
    var j :| 0 <= j < |after| && after[j] == before[i];
  }

  // Reranking with room for all hits loses none and adds none.
  lemma RerankKeepsHits(hits: seq<SearchHit>, reply: Option<seq<int>>, topK: nat)
    requires topK >= |hits|
    ensures multiset(Rerank(hits, reply, topK)) == multiset(hits)
  {
    var order := ParseOrder(reply, |hits|);
    if order.Ok? {
      PickKeepsHits(hits, order.value);
    }
  }

  // With room for all of them, every permitted point is in the answer, in every mode and for any reply.
  lemma PermittedAreShown(t: Tools, points: seq<Point>, q: Request, mode: Mode, p: Point)
    requires Distinct(Map(points, PointIdentity)) && QueryHits(t, points, q, mode).Ok? && q.topK >= |points|
    requires p in points && Permitted(p.chunk.metadata, q)
    ensures ShowsPoint(QueryHits(t, points, q, mode).value, p)
  {
    var candidates := Candidates(t, points, q, mode).value;
    CandidatesShowAll(t, points, q, mode, p);
    CandidatesAreProper(t, points, q, mode);
    ProperIsShort(candidates, points, q);
    if mode.rerank.Some? {
      RerankKeepsHits(candidates, mode.rerank.value, q.topK);
    }
    SameHitsShow(candidates, QueryHits(t, points, q, mode).value, p);
  }

  // What a reranked query without fusion reorders: the hits of the same query for four times as many.
  lemma RerankedFetchesMore(t: Tools, points: seq<Point>, q: Request, mode: Mode, numbers: seq<int>)
    requires !Blank(q.text) && q.topK >= 0 && (!mode.hybrid || !mode.keywords) && mode.rerank == Some(Some(numbers))
    requires QueryHits(t, points, q.(topK := q.topK * 4), Mode(false, true, None)).Ok?
    requires var fetched := QueryHits(t, points, q.(topK := q.topK * 4), Mode(false, true, None)).value;
             IsPermutation(OrderOf(numbers), |fetched|)
    ensures QueryHits(t, points, q, mode).Ok?
    ensures var fetched := QueryHits(t, points, q.(topK := q.topK * 4), Mode(false, true, None)).value;
            var hits := QueryHits(t, points, q, mode).value;
            && |hits| == Smaller(q.topK, |fetched|)
            && forall i :: 0 <= i < |hits| ==> 1 <= numbers[i] <= |fetched| && hits[i] == fetched[numbers[i] - 1]
  {
    var wider := q.(topK := q.topK * 4);
    PlainQueryIsDense(t, points, wider, Mode(false, true, None));
    assert DenseHits(t, points, wider, q.topK * 4) == DenseHits(t, points, q, q.topK * 4);
    assert Candidates(t, points, q, mode) == DenseHits(t, points, q, q.topK * 4);
    GoodReplyIsFollowed(t, points, q, mode, numbers);
  }
}
