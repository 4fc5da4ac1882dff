/** The exact reach of hybrid consensus: from top_k 16 on, a point both rankers find can come after one only
    one of them finds (src/alvis/index/fusion.py, src/alvis/pipeline/runner.py). */
module Consensus {
  import opened Wrappers
  import opened Models
  import opened MemoryIndexes
  import opened Sorting
  import opened Text
  import opened Cosine
  import opened Bm25
  import opened Search
  import opened Fusion
  import opened Query

  /* A tie at the top of a fusion goes to the hit seen first. */

  // Two rankings that share just the hit at rank k + 2 of both.
  predicate ShareOnlyOne(a: Ranking, b: Ranking, k: nat) {
    && DuplicateFree(a) && DuplicateFree(b) && |a| > k + 1 && |b| > k + 1
    && IdentityOf(a[k + 1]) == IdentityOf(b[k + 1])
    && forall i, j :: 0 <= i < |a| && 0 <= j < |b| && IdentityOf(a[i]) == IdentityOf(b[j]) ==> i == k + 1 && j == k + 1
  }

  lemma NoneScoresMore(a: Ranking, b: Ranking, k: nat, id: Identity)
    requires ShareOnlyOne(a, b, k)
    ensures PointsInAll([a, b], id, k) <= Contribution(k, 1)
  {
    TwoRankings(a, b, id, k);
    TwiceWorstBeatsBest(k);
    LowerRankScoresLess(k, 1, 1);
    AtMostBest(a, id, k);
    AtMostBest(b, id, k);
    if id == IdentityOf(a[k + 1]) {
      OnePlaceScores(a, k + 1, k);
      OnePlaceScores(b, k + 1, k);
    } else if i :| 0 <= i < |a| && IdentityOf(a[i]) == id {
      AbsentScoresNothing(b, id, k);
    } else {
      AbsentScoresNothing(a, id, k);
    }
  }

  lemma FirstScoresBest(a: Ranking, b: Ranking, k: nat)
    requires ShareOnlyOne(a, b, k)
    ensures PointsInAll([a, b], IdentityOf(a[0]), k) == Contribution(k, 1)
  {
    TwoRankings(a, b, IdentityOf(a[0]), k);
    OnePlaceScores(a, 0, k);
    AbsentScoresNothing(b, IdentityOf(a[0]), k);
  }

  lemma OrderStartsWithFirst(a: Ranking, b: Ranking, k: nat)
    requires a != []
    ensures AddAll([a, b], k).order != [] && AddAll([a, b], k).order[0] == IdentityOf(a[0])
  {
    var hits := Flatten([a, b]);
    FusionKeepsFirstSeen([a, b], k);
    assert hits == a + Flatten([b]);
    assert Map(hits, IdentityOf)[0] == IdentityOf(a[0]);
    FirstSeenHead(Map(hits, IdentityOf));
  }

  lemma TieGoesToFirst(a: Ranking, b: Ranking, k: nat)
    requires ShareOnlyOne(a, b, k)
    ensures Fuse([a, b], k) != [] && IdentityOf(Fuse([a, b], k)[0]) == IdentityOf(a[0])
  {
    var f := AddAll([a, b], k);
    var key := (id: Identity) => ScoreOf(f, id);
    OrderStartsWithFirst(a, b, k);
    FuseFacts([a, b], k);
    FirstScoresBest(a, b, k);
    forall i | 0 <= i < |f.order| ensures key(f.order[i]) <= key(f.order[0]) {
      ScoreIsPoints([a, b], f.order[i], k);
      ScoreIsPoints([a, b], f.order[0], k);
      NoneScoresMore(a, b, k, f.order[i]);
    }
    GreatestFirst(f.order, key);
  }

  /* An index and a query on which one ranker alone decides. */

  const QUERY_TEXT: string := "a"

  // How many candidates each ranker returns.
  type Width = n: int | n >= 62 witness 62

  // The first 61 points are near the query, the next 61 hold its word, the one after does both, and of the
  // rest each does one of the two, so that both rankers have n points to return.
  predicate Near(i: nat, n: Width) {
    i < 61 || i == 122 || 122 < i < n + 61
  }

  predicate Wordy(i: nat, n: Width) {
    61 <= i <= 122 || n + 61 <= i
  }

  function PointAt(i: nat, n: Width): Point {
    Point("s", Sha256(""), Chunk(if Wordy(i, n) then QUERY_TEXT else "b", seq(i, _ => 'p'), map[]),
          if Near(i, n) then [1.0] else [0.0])
  }

  function Block(lo: nat, hi: nat, n: Width): (points: seq<Point>)
    requires lo <= hi
    ensures |points| == hi - lo
  {
    seq(hi - lo, i requires 0 <= i < hi - lo => PointAt(lo + i, n))
  }

  function Stored(n: Width): seq<Point>
  {
    Block(0, 2 * n - 1, n)
  }

  function Blocks(n: Width): seq<Point>
  {
    Block(0, 61, n) + (Block(61, 122, n) + (Block(122, 123, n) + (Block(123, n + 61, n) + Block(n + 61, 2 * n - 1, n))))
  }

  lemma StoredInBlocks(n: Width)
    ensures Stored(n) == Blocks(n)
  {
    BlockConcat(123, n + 61, 2 * n - 1, n);
    BlockConcat(122, 123, 2 * n - 1, n);
    BlockConcat(61, 122, 2 * n - 1, n);
    BlockConcat(0, 61, 2 * n - 1, n);
  }

  lemma BlockConcat(lo: nat, mid: nat, hi: nat, n: Width)
    requires lo <= mid <= hi
    ensures Block(lo, mid, n) + Block(mid, hi, n) == Block(lo, hi, n)
  {
  }

  // The points a ranker finds, in stored order.
  function NearPoints(n: Width): (points: seq<Point>)
    ensures |points| == n
  {
    Block(0, 61, n) + (Block(122, 123, n) + Block(123, n + 61, n))
  }

  function WordyPoints(n: Width): (points: seq<Point>)
    ensures |points| == n
  {
    Block(61, 122, n) + (Block(122, 123, n) + Block(n + 61, 2 * n - 1, n))
  }

  lemma BlockWith(lo: nat, hi: nat, n: Width, key: Point -> real, k: real, has: bool)
    requires lo <= hi && forall i: nat :: lo <= i < hi ==> (key(PointAt(i, n)) == k <==> has)
    ensures WithKey(Block(lo, hi, n), key, k) == if has then Block(lo, hi, n) else []
  {
    if has {
      WithKeyAll(Block(lo, hi, n), key, k);
    } else {
      WithKeyNone(Block(lo, hi, n), key, k);
    }
  }

  lemma BlocksWith(n: Width, key: Point -> real, k: real)
    ensures WithKey(Stored(n), key, k)
         == WithKey(Block(0, 61, n), key, k)
          + (WithKey(Block(61, 122, n), key, k) + (WithKey(Block(122, 123, n), key, k)
            + (WithKey(Block(123, n + 61, n), key, k) + WithKey(Block(n + 61, 2 * n - 1, n), key, k))))
  {
    var a, b, c, d, e :=
      Block(0, 61, n), Block(61, 122, n), Block(122, 123, n), Block(123, n + 61, n), Block(n + 61, 2 * n - 1, n);
    StoredInBlocks(n);
    WithKeyConcat(a, b + (c + (d + e)), key, k);
    WithKeyConcat(b, c + (d + e), key, k);
    WithKeyConcat(c, d + e, key, k);
    WithKeyConcat(d, e, key, k);
  }

  lemma WithoutEmpties<T>(b: seq<T>, c: seq<T>, d: seq<T>)
    ensures b + ([] + (c + (d + []))) == b + (c + d)
    ensures [] + (b + (c + ([] + d))) == b + (c + d)
  {
    assert d + [] == d && [] + (c + d) == c + d && [] + d == d && [] + (b + (c + d)) == b + (c + d);
  }

  // A key that tells near points from the others ranks them first.
  lemma NearFirst(n: Width, key: Point -> real, high: real, low: real)
    requires high > low && forall i: nat :: key(PointAt(i, n)) == if Near(i, n) then high else low
    ensures Prefix(SortDescending(Stored(n), key), n) == NearPoints(n)
  {
    BlocksWith(n, key, high);
    BlockWith(0, 61, n, key, high, true);
    BlockWith(61, 122, n, key, high, false);
    BlockWith(122, 123, n, key, high, true);
    BlockWith(123, n + 61, n, key, high, true);
    BlockWith(n + 61, 2 * n - 1, n, key, high, false);
    WithoutEmpties(Block(0, 61, n), Block(122, 123, n), Block(123, n + 61, n));
    FirstOfTwo(n, key, high, low, NearPoints(n));
  }

  lemma WordyFirst(n: Width, key: Point -> real, high: real, low: real)
    requires high > low && forall i: nat :: key(PointAt(i, n)) == if Wordy(i, n) then high else low
    ensures Prefix(SortDescending(Stored(n), key), n) == WordyPoints(n)
  {
    BlocksWith(n, key, high);
    BlockWith(0, 61, n, key, high, false);
    BlockWith(61, 122, n, key, high, true);
    BlockWith(122, 123, n, key, high, true);
    BlockWith(123, n + 61, n, key, high, false);
    BlockWith(n + 61, 2 * n - 1, n, key, high, true);
    WithoutEmpties(Block(61, 122, n), Block(122, 123, n), Block(n + 61, 2 * n - 1, n));
    FirstOfTwo(n, key, high, low, WordyPoints(n));
  }

  lemma FirstOfTwo(n: Width, key: Point -> real, high: real, low: real, best: seq<Point>)
    requires high > low && |best| == n && WithKey(Stored(n), key, high) == best
    requires forall i: nat :: key(PointAt(i, n)) == high || key(PointAt(i, n)) == low
    ensures Prefix(SortDescending(Stored(n), key), n) == best
  {
    SortTwoKeys(Stored(n), key, high, low);
  }

  lemma StoredIsDistinct(n: Width)
    ensures Distinct(Map(Stored(n), PointIdentity))
  {
    var ids := Map(Stored(n), PointIdentity);
    forall i, j | 0 <= i < j < |ids| ensures ids[i] != ids[j] {
      assert Stored(n)[i] == PointAt(i, n) && Stored(n)[j] == PointAt(j, n);
      assert |ids[i].0| == i && |ids[j].0| == j;
    }
  }

  lemma {:induction false} AllVisible(points: seq<Point>)
    ensures Visible(points, map[], None) == points
  {
    if points == [] {
    } else {
      AllVisible(points[..|points| - 1]);
      assert points == points[..|points| - 1] + [points[|points| - 1]];
    }
  }

  function Wanted(topK: nat): Request {
    Request(QUERY_TEXT, [1.0], topK, map[], None)
  }

  function OneToken(root: real -> real, ln: real -> real): Tools {
    Tools(root, ln, (text: string) => [text])
  }

  lemma UnitSimilarity(root: real -> real, i: nat, n: Width)
    requires IsSquareRoot(root)
    ensures Similarity(root, [1.0], PointAt(i, n)) == if Near(i, n) then 1.0 else 0.0
  {
    var v := PointAt(i, n).vector;
    assert Dot([1.0], v) == 1.0 * v[0] + Dot([], []) && Dot(v, v) == v[0] * v[0] + Dot([], []);
    assert Dot([1.0], [1.0]) == 1.0 * 1.0 + Dot([], []);
    var r := root(1.0);
    assert r * r == 1.0;
    if !Near(i, n) {
      assert root(0.0) * root(0.0) == 0.0;
    }
  }

  // The hits show these points, in order.
  predicate Shown(hits: seq<SearchHit>, points: seq<Point>) {
    |hits| == |points|
    && forall i :: 0 <= i < |hits| ==> hits[i].uri == points[i].chunk.uri && hits[i].text == points[i].chunk.text
  }

  // A dense search over points that all pass and whose vectors all have the query's length.
  lemma OpenSearch(t: Tools, points: seq<Point>, q: Request, k: int) returns (hits: seq<SearchHit>)
    requires Visible(points, q.filters, q.principals) == points && SameLength(q.vector, points)
    ensures DenseHits(t, points, q, k) == Ok(hits)
    ensures Shown(hits, Prefix(SortDescending(points, (p: Point) => Similarity(t.root, q.vector, p)), k))
  {
    hits := DenseHits(t, points, q, k).value;
  }

  lemma DenseCandidates(root: real -> real, ln: real -> real, topK: nat, n: Width) returns (dense: seq<SearchHit>)
    requires IsSquareRoot(root)
    ensures DenseHits(OneToken(root, ln), Stored(n), Wanted(topK), n) == Ok(dense) && Shown(dense, NearPoints(n))
  {
    var t, q := OneToken(root, ln), Wanted(topK);
    var key := (p: Point) => Similarity(t.root, q.vector, p);
    AllVisible(Stored(n));
    dense := OpenSearch(t, Stored(n), q, n);
    forall i: nat ensures key(PointAt(i, n)) == if Near(i, n) then 1.0 else 0.0 {
      UnitSimilarity(root, i, n);
    }
    NearFirst(n, key, 1.0, 0.0);
  }

  // The BM25 score of a point for the one-word query.
  function WordScore(ln: real -> real, docs: seq<seq<string>>, p: Point): real {
    Score(ln, docs, [QUERY_TEXT], [p.chunk.text])
  }

  lemma WordScores(ln: real -> real, docs: seq<seq<string>>, i: nat, n: Width)
    requires IsLogarithm(ln)
    ensures Score(ln, docs, [QUERY_TEXT], [QUERY_TEXT]) > 0.0
    ensures WordScore(ln, docs, PointAt(i, n))
         == if Wordy(i, n) then Score(ln, docs, [QUERY_TEXT], [QUERY_TEXT]) else 0.0
  {
    assert Count([QUERY_TEXT], QUERY_TEXT) == 1 + Count([QUERY_TEXT][1..], QUERY_TEXT);
    assert Shares([QUERY_TEXT], [QUERY_TEXT]) by {
      assert [QUERY_TEXT][0] == QUERY_TEXT;
    }
    ScoreBounds(ln, docs, [QUERY_TEXT], [QUERY_TEXT]);
    assert Count(["b"], QUERY_TEXT) == 0 + Count(["b"][1..], QUERY_TEXT);
    ScoreBounds(ln, docs, [QUERY_TEXT], ["b"]);
  }

  lemma KeywordCandidates(root: real -> real, ln: real -> real, topK: nat, n: Width) returns (words: seq<SearchHit>)
    requires IsLogarithm(ln)
    ensures KeywordHits(OneToken(root, ln), Stored(n), Wanted(topK), n) == words && Shown(words, WordyPoints(n))
  {
    var points, t := Stored(n), OneToken(root, ln);
    var docs := Map(points, (p: Point) => t.tokenize(p.chunk.text));
    AllVisible(points);
    words := KeywordHits(t, points, Wanted(topK), n);
    assert FirstSeen([QUERY_TEXT]) == [QUERY_TEXT] by {
      FirstSeenHead([QUERY_TEXT]);
    }
    var key := (p: Point) => WordScore(ln, docs, p);
    var toRow, keyOf := (p: Point) => Row(WordScore(ln, docs, p), p), (row: Row) => row.similarity;
    assert ScoredPoints(points, Scores(ln, [QUERY_TEXT], docs)) == Map(points, toRow);
    SortMap(points, toRow, key, keyOf);
    var high := Score(ln, docs, [QUERY_TEXT], [QUERY_TEXT]);
    forall i: nat ensures high > 0.0 && key(PointAt(i, n)) == if Wordy(i, n) then high else 0.0 {
      WordScores(ln, docs, i, n);
    }
    WordScores(ln, docs, 0, n);
    WordyFirst(n, key, high, 0.0);
  }

  // The URI lengths of the hits tell which stored points they show.
  lemma NearUris(n: Width, i: nat)
    requires i < n
    ensures NearPoints(n)[i] == PointAt(if i < 61 then i else i + 61, n)
    ensures |NearPoints(n)[i].chunk.uri| == if i < 61 then i else i + 61
  {
    if i > 61 {
      assert NearPoints(n)[i] == Block(123, n + 61, n)[i - 62];
    }
  }

  lemma WordyUris(n: Width, i: nat)
    requires i < n
    ensures WordyPoints(n)[i] == PointAt(if i < 62 then i + 61 else i + n - 1, n)
    ensures |WordyPoints(n)[i].chunk.uri| == if i < 62 then i + 61 else i + n - 1
  {
    if i > 61 {
      assert WordyPoints(n)[i] == Block(n + 61, 2 * n - 1, n)[i - 62];
    }
  }

  lemma CandidatesShareOnlyOne(n: Width, dense: seq<SearchHit>, words: seq<SearchHit>)
    requires Shown(dense, NearPoints(n)) && Shown(words, WordyPoints(n))
    ensures ShareOnlyOne(dense, words, DEFAULT_K)
  {
    forall i | 0 <= i < n
      ensures |dense[i].uri| == if i < 61 then i else i + 61
      ensures |words[i].uri| == if i < 62 then i + 61 else i + n - 1
    {
      NearUris(n, i);
      WordyUris(n, i);
    }
    NearUris(n, 61);
    WordyUris(n, 61);
    assert NearPoints(n)[61] == WordyPoints(n)[61];
  }

  // When both rankings share only their hits at rank k + 2, the answer starts with a hit the second never found.
  lemma SingleComesFirst(t: Tools, points: seq<Point>, q: Request, dense: seq<SearchHit>, words: seq<SearchHit>)
    requires ShareOnlyOne(dense, words, DEFAULT_K) && q.topK > 0 && !Blank(q.text)
    requires DenseHits(t, points, q, q.topK * CANDIDATE_FACTOR) == Ok(dense)
    requires KeywordHits(t, points, q, q.topK * CANDIDATE_FACTOR) == words
    ensures IdentityOf(dense[DEFAULT_K + 1]) in Identities(dense)
            && IdentityOf(dense[DEFAULT_K + 1]) in Identities(words)
    ensures QueryHits(t, points, q, Mode(true, true, None)).Ok?
    ensures var hits := QueryHits(t, points, q, Mode(true, true, None)).value;
            hits != [] && IdentityOf(hits[0]) !in Identities(words)
  {
    assert Identities(dense)[DEFAULT_K + 1] == IdentityOf(dense[DEFAULT_K + 1]) == Identities(words)[DEFAULT_K + 1];
    HybridAnswer(t, points, q, dense, words);
    TieGoesToFirst(dense, words, DEFAULT_K);
    forall j | 0 <= j < |words| ensures Identities(words)[j] != IdentityOf(dense[0]) {
      assert Identities(words)[j] == IdentityOf(words[j]);
    }
  }

  // From top_k 16 on the bound of HybridPutsConsensusFirst fails: on these points the first hit of the answer
  // is one the keyword ranking never found, though both rankings hold another point.
  lemma ConsensusCanLose(root: real -> real, ln: real -> real, topK: nat)
    returns (dense: seq<SearchHit>, words: seq<SearchHit>, both: Identity)
    requires IsSquareRoot(root) && IsLogarithm(ln) && topK >= 16
    ensures var t, points, q := OneToken(root, ln), Stored(topK * CANDIDATE_FACTOR), Wanted(topK);
            && Distinct(Map(points, PointIdentity))
            && DenseHits(t, points, q, topK * CANDIDATE_FACTOR) == Ok(dense)
            && KeywordHits(t, points, q, topK * CANDIDATE_FACTOR) == words
            && both in Identities(dense) && both in Identities(words)
            && QueryHits(t, points, q, Mode(true, true, None)).Ok?
            && QueryHits(t, points, q, Mode(true, true, None)).value != []
            && IdentityOf(QueryHits(t, points, q, Mode(true, true, None)).value[0]) !in Identities(words)
  {
    var n: Width := topK * CANDIDATE_FACTOR;
    dense := DenseCandidates(root, ln, topK, n);
    words := KeywordCandidates(root, ln, topK, n);
    StoredIsDistinct(n);
    CandidatesShareOnlyOne(n, dense, words);
    both := IdentityOf(dense[DEFAULT_K + 1]);
    assert !IsSpace(QUERY_TEXT[0]);
    SingleComesFirst(OneToken(root, ln), Stored(n), Wanted(topK), dense, words);
  }
}
