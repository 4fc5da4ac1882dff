/** Reranking and the query pipeline around it (src/alvis/rerank.py, src/alvis/pipeline/runner.py). */
module Query {
  import opened Wrappers
  import opened Models
  import opened MemoryIndexes
  import opened Sorting
  import opened Cosine
  import opened Search
  import opened Fusion
  import opened Text

  const CANDIDATE_FACTOR: int := 4

  /* Reranking. A reply is the array found in the model's answer, or nothing when the call failed or no
     array was found. */

  function Range(n: nat): (r: seq<int>)
    ensures |r| == n && forall i :: 0 <= i < n ==> r[i] == i
  {
    seq(n, i => i)
  }

  // Each index below `count` occurs exactly once.
  predicate IsPermutation(indices: seq<int>, count: nat) {
    multiset(indices) == multiset(Range(count))
  }

  // The order a reply asks for, as indices.
  function OrderOf(numbers: seq<int>): (indices: seq<int>)
    ensures |indices| == |numbers| && forall i :: 0 <= i < |numbers| ==> indices[i] == numbers[i] - 1
  {
    Map(numbers, (number: int) => number - 1)
  }

  function ParseOrder(reply: Option<seq<int>>, count: nat): Result<seq<int>, string> {
    if reply.None? then Err("no JSON array found in rerank response")
    else
      var indices := OrderOf(reply.value);
      if IsPermutation(indices, count) then Ok(indices) else Err("rerank response is not a permutation")
  }

  lemma PermutationFacts(indices: seq<int>, count: nat)
    requires IsPermutation(indices, count)
    ensures |indices| == count && Distinct(indices)
    ensures forall i :: 0 <= i < count ==> 0 <= indices[i] < count
  {
    assert |multiset(indices)| == |multiset(Range(count))|;
    DistinctByMultiset(Range(count), indices);
    forall i | 0 <= i < count ensures 0 <= indices[i] < count {
      assert indices[i] in multiset(Range(count));
    }
  }

  function Pick(hits: seq<SearchHit>, order: seq<int>): (picked: seq<SearchHit>)
    requires IsPermutation(order, |hits|)
    ensures |picked| == |hits| == |order|
    ensures forall i :: 0 <= i < |hits| ==> 0 <= order[i] < |hits| && picked[i] == hits[order[i]]
  {
    PermutationFacts(order, |hits|);
    seq(|order|, i requires 0 <= i < |order| => hits[order[i]])
  }

  function Rerank(hits: seq<SearchHit>, reply: Option<seq<int>>, topK: int): seq<SearchHit> {
    if hits == [] then []
    else
      var order := ParseOrder(reply, |hits|);
      if order.Ok? then Prefix(Pick(hits, order.value), topK) else Prefix(hits, topK)
  }

  /* The query. */

  // How a query is asked: hybrid or not, against a backend with keyword search or not, reranked or not.
  datatype Mode = Mode(hybrid: bool, keywords: bool, rerank: Option<Option<seq<int>>>)

  datatype Request = Request(
    text: string, vector: Vector, topK: int, filters: map<string, string>, principals: Option<seq<string>>)

  // The numeric functions and the tokenizer a query relies on.
  datatype Tools = Tools(root: real -> real, ln: real -> real, tokenize: string -> seq<string>)

  function CandidateK(mode: Mode, topK: int): int {
    if mode.hybrid || mode.rerank.Some? then topK * CANDIDATE_FACTOR else topK
  }

  function DenseHits(t: Tools, points: seq<Point>, q: Request, k: int): Result<seq<SearchHit>, string> {
    MemorySearch(t.root, points, q.vector, k, q.filters, q.principals)
  }

  function KeywordHits(t: Tools, points: seq<Point>, q: Request, k: int): seq<SearchHit> {
    KeywordSearch(t.ln, t.tokenize, points, q.text, k, q.filters, q.principals)
  }

  function Candidates(t: Tools, points: seq<Point>, q: Request, mode: Mode): Result<seq<SearchHit>, string> {
    var k := CandidateK(mode, q.topK);
    var dense := DenseHits(t, points, q, k);
    if dense.Err? || !mode.hybrid || !mode.keywords then dense
    else Ok(Fuse([dense.value, KeywordHits(t, points, q, k)], DEFAULT_K))
  }

  function QueryHits(t: Tools, points: seq<Point>, q: Request, mode: Mode): Result<seq<SearchHit>, string> {
    var hits := Candidates(t, points, q, mode);
    if Blank(q.text) then Err("query text must not be empty")
    else if hits.Err? then hits
    else if mode.rerank.Some? then Ok(Rerank(hits.value, mode.rerank.value, q.topK))
    else Ok(Prefix(hits.value, q.topK))
  }

  lemma PrefixOfLonger(hits: seq<SearchHit>, short: nat, long: nat)
    requires short <= long
    ensures Prefix(Prefix(hits, long), short) == Prefix(hits, short)
  {
  }

  // A dense search for more hits starts with the hits of a search for fewer.
  lemma MoreHitsStartTheSame(t: Tools, points: seq<Point>, q: Request, short: nat, long: nat)
    requires short <= long && DenseHits(t, points, q, short).Ok?
    ensures DenseHits(t, points, q, long).Ok?
    ensures Prefix(DenseHits(t, points, q, long).value, short) == Prefix(DenseHits(t, points, q, short).value, short)
  {
    var sorted :=
      SortDescending(Visible(points, q.filters, q.principals), (p: Point) => Similarity(t.root, q.vector, p));
    var hits := Map(sorted, (p: Point) => HitOf(p, Clamp(Similarity(t.root, q.vector, p))));
    assert DenseHits(t, points, q, long).value == Prefix(hits, long);
    assert DenseHits(t, points, q, short).value == Prefix(hits, short);
    PrefixOfLonger(hits, short, long);
    PrefixOfLonger(hits, short, short);
  }

  // A missing reply, or one that is not a permutation of 1..n, gives exactly the answer the query would have
  // had without reranking, although more candidates were fetched for it.
  lemma BadReplyKeepsOrder(t: Tools, points: seq<Point>, q: Request, mode: Mode)
    requires q.topK >= 0 && mode.rerank.Some?
    requires mode.rerank.value.None? || Candidates(t, points, q, mode).Err?
             || !IsPermutation(OrderOf(mode.rerank.value.value), |Candidates(t, points, q, mode).value|)
    ensures QueryHits(t, points, q, mode) == QueryHits(t, points, q, mode.(rerank := None))
  {
    if !mode.hybrid && Candidates(t, points, q, mode).Ok? {
      MoreHitsStartTheSame(t, points, q, q.topK, q.topK * CANDIDATE_FACTOR);
    }
  }

  lemma PickKeepsHits(hits: seq<SearchHit>, order: seq<int>)
    requires IsPermutation(order, |hits|)
    ensures multiset(Pick(hits, order)) == multiset(hits)
  {
    PermutationFacts(order, |hits|);
    if hits != [] {
      var at := (i: int) => if 0 <= i < |hits| then hits[i] else hits[0];
      MapKeepsMultiset(order, Range(|hits|), at);
      assert Map(order, at) == Pick(hits, order);
      assert Map(Range(|hits|), at) == hits;
    }
  }

  // A reply that is a permutation of 1..n decides the answer: its hits are the candidates the reply names, in its
  // order, and when top_k leaves room for them all, every candidate exactly once.
  lemma GoodReplyIsFollowed(t: Tools, points: seq<Point>, q: Request, mode: Mode, numbers: seq<int>)
    requires !Blank(q.text) && q.topK >= 0 && mode.rerank == Some(Some(numbers))
    requires Candidates(t, points, q, mode).Ok?
    requires IsPermutation(OrderOf(numbers), |Candidates(t, points, q, mode).value|)
    ensures QueryHits(t, points, q, mode).Ok?
    ensures var candidates, hits := Candidates(t, points, q, mode).value, QueryHits(t, points, q, mode).value;
            && |hits| == (if |candidates| < q.topK then |candidates| else q.topK)
            && (forall i :: 0 <= i < |hits| ==>
                 1 <= numbers[i] <= |candidates| && hits[i] == candidates[numbers[i] - 1])
            && (|candidates| <= q.topK ==> multiset(hits) == multiset(candidates))
  {
    PickKeepsHits(Candidates(t, points, q, mode).value, OrderOf(numbers));
  }

  /* What every answer satisfies. */

  function PointIdentity(p: Point): Identity {
    (p.chunk.uri, p.chunk.text)
  }

  function Identities(hits: seq<SearchHit>): seq<Identity> {
    Map(hits, IdentityOf)
  }

  // The hit shows a stored point that passes the filters and the access check.
  predicate Shows(hit: SearchHit, points: seq<Point>, q: Request) {
    exists i :: 0 <= i < |points| && Admitted(points[i], q.filters, q.principals)
                && hit.text == points[i].chunk.text && hit.uri == points[i].chunk.uri
                && hit.metadata == points[i].chunk.metadata
  }

  predicate Proper(hits: seq<SearchHit>, points: seq<Point>, q: Request) {
    Distinct(Identities(hits)) && forall i :: 0 <= i < |hits| ==> Shows(hits[i], points, q)
  }

  lemma PrefixIsProper(hits: seq<SearchHit>, k: int, points: seq<Point>, q: Request)
    requires Proper(hits, points, q)
    ensures Proper(Prefix(hits, k), points, q)
  {
    var prefix := Prefix(hits, k);
    assert Identities(prefix) == Identities(hits)[..|prefix|];
  }

  lemma {:induction false} VisibleIsDistinct(points: seq<Point>, filters: map<string, string>,
                                             principals: Option<seq<string>>)
    requires Distinct(Map(points, PointIdentity))
    ensures Distinct(Map(Visible(points, filters, principals), PointIdentity))
  {
    if points == [] {
    } else {
      var rest, last := points[..|points| - 1], points[|points| - 1];
      assert Map(points, PointIdentity) == Map(rest, PointIdentity) + [PointIdentity(last)];
      assert Distinct(Map(rest, PointIdentity)) by {
        assert Map(rest, PointIdentity) == Map(points, PointIdentity)[..|rest|];
      }
      VisibleIsDistinct(rest, filters, principals);
      VisibleMembers(rest, filters, principals);
      var visible := Visible(rest, filters, principals);
      forall i | 0 <= i < |visible| ensures PointIdentity(visible[i]) != PointIdentity(last) {
        assert visible[i] in rest;
        var j :| 0 <= j < |rest| && rest[j] == visible[i];
        assert Map(points, PointIdentity)[j] != Map(points, PointIdentity)[|rest|];
      }
    }
  }

  // Hits made from an arrangement of the visible points are proper, whatever their scores.
  lemma ArrangedIsProper(arranged: seq<Point>, hits: seq<SearchHit>, points: seq<Point>, q: Request)
    requires Distinct(Map(points, PointIdentity))
    requires multiset(arranged) == multiset(Visible(points, q.filters, q.principals))
    requires |hits| == |arranged| && forall i :: 0 <= i < |hits| ==> hits[i] == HitOf(arranged[i], hits[i].score)
    ensures Proper(hits, points, q)
  {
    var visible := Visible(points, q.filters, q.principals);
    VisibleIsDistinct(points, q.filters, q.principals);
    VisibleMembers(points, q.filters, q.principals);
    MapKeepsMultiset(visible, arranged, PointIdentity);
    DistinctByMultiset(Map(visible, PointIdentity), Map(arranged, PointIdentity));
    assert Identities(hits) == Map(arranged, PointIdentity);
    forall i | 0 <= i < |hits| ensures Shows(hits[i], points, q) {
      assert arranged[i] in multiset(visible);
      assert arranged[i] in points;
    }
  }

  lemma DenseIsProper(t: Tools, points: seq<Point>, q: Request, k: int)
    requires Distinct(Map(points, PointIdentity)) && DenseHits(t, points, q, k).Ok?
    ensures Proper(DenseHits(t, points, q, k).value, points, q)
  {
    var visible := Visible(points, q.filters, q.principals);
    var key := (p: Point) => Similarity(t.root, q.vector, p);
    var toHit := (p: Point) => HitOf(p, Clamp(Similarity(t.root, q.vector, p)));
    var sorted := SortDescending(visible, key);
    SortSorts(visible, key);
    ArrangedIsProper(sorted, Map(sorted, toHit), points, q);
    PrefixIsProper(Map(sorted, toHit), k, points, q);
    assert Map(Prefix(sorted, k), toHit) == Prefix(Map(sorted, toHit), k);
  }

  lemma KeywordIsProper(t: Tools, points: seq<Point>, q: Request, k: int)
    requires Distinct(Map(points, PointIdentity))
    ensures Proper(KeywordHits(t, points, q, k), points, q)
  {
    var visible := Visible(points, q.filters, q.principals);
    var rows := KeywordRows(t.ln, t.tokenize, visible, q.text);
    var key, toHit, toPoint :=
      (row: Row) => row.similarity, (row: Row) => HitOf(row.point, row.similarity), (row: Row) => row.point;
    var ranked := SortDescending(rows, key);
    SortSorts(rows, key);
    MapKeepsMultiset(rows, ranked, toPoint);
    assert Map(rows, toPoint) == visible;
    ArrangedIsProper(Map(ranked, toPoint), Map(ranked, toHit), points, q);
    PrefixIsProper(Map(ranked, toHit), k, points, q);
    assert Map(Prefix(ranked, k), toHit) == Prefix(Map(ranked, toHit), k);
  }

  lemma {:induction false} FirstHitsShow(rankings: seq<Ranking>, k: nat, points: seq<Point>, q: Request)
    requires forall r, i :: 0 <= r < |rankings| && 0 <= i < |rankings[r]| ==> Shows(rankings[r][i], points, q)
    ensures forall id :: id in AddAll(rankings, k).first ==> Shows(AddAll(rankings, k).first[id], points, q)
  {
    if rankings == [] {
    } else {
      var rest, last := rankings[..|rankings| - 1], rankings[|rankings| - 1];
      assert forall r :: 0 <= r < |rest| ==> rest[r] == rankings[r];
      FirstHitsShow(rest, k, points, q);
      assert forall i :: 0 <= i < |last| ==> Shows(rankings[|rest|][i], points, q);
      FirstHitsShowIn(AddAll(rest, k), last, k, points, q);
    }
  }

  lemma {:induction false} FirstHitsShowIn(f: Fused, ranking: Ranking, k: nat, points: seq<Point>, q: Request)
    requires forall id :: id in f.first ==> Shows(f.first[id], points, q)
    requires forall i :: 0 <= i < |ranking| ==> Shows(ranking[i], points, q)
    ensures forall id :: id in AddRanking(f, ranking, k).first ==> Shows(AddRanking(f, ranking, k).first[id], points, q)
  {
    if ranking == [] {
    } else {
      FirstHitsShowIn(f, ranking[..|ranking| - 1], k, points, q);
    }
  }

  lemma FusedIsProper(rankings: seq<Ranking>, k: nat, points: seq<Point>, q: Request)
    requires forall r :: 0 <= r < |rankings| ==> Proper(rankings[r], points, q)
    ensures Proper(Fuse(rankings, k), points, q)
  {
    FuseFacts(rankings, k);
    FirstHitsShow(rankings, k, points, q);
    AddAllIsConsistent(rankings, k);
    var f, hits := AddAll(rankings, k), Fuse(rankings, k);
    var ids := SortDescending(f.order, (id: Identity) => ScoreOf(f, id));
    assert Identities(hits) == ids;
    forall i | 0 <= i < |hits| ensures Shows(hits[i], points, q) {
      assert ids[i] in multiset(f.order);
      assert Shows(f.first[ids[i]], points, q);
    }
  }

  lemma PickIsProper(hits: seq<SearchHit>, order: seq<int>, points: seq<Point>, q: Request)
    requires Proper(hits, points, q) && IsPermutation(order, |hits|)
    ensures Proper(Pick(hits, order), points, q)
  {
    PermutationFacts(order, |hits|);
    var picked := Pick(hits, order);
    forall i, j | 0 <= i < j < |picked| ensures Identities(picked)[i] != Identities(picked)[j] {
      assert Identities(hits)[order[i]] != Identities(hits)[order[j]];
    }
  }

  lemma RerankIsProper(hits: seq<SearchHit>, reply: Option<seq<int>>, topK: int, points: seq<Point>, q: Request)
    requires Proper(hits, points, q)
    ensures Proper(Rerank(hits, reply, topK), points, q)
  {
    var order := ParseOrder(reply, |hits|);
    if order.Ok? {
      PickIsProper(hits, order.value, points, q);
      PrefixIsProper(Pick(hits, order.value), topK, points, q);
    } else {
      PrefixIsProper(hits, topK, points, q);
    }
  }

  lemma CandidatesAreProper(t: Tools, points: seq<Point>, q: Request, mode: Mode)
    requires Distinct(Map(points, PointIdentity)) && Candidates(t, points, q, mode).Ok?
    ensures Proper(Candidates(t, points, q, mode).value, points, q)
  {
    var k := CandidateK(mode, q.topK);
    DenseIsProper(t, points, q, k);
    if mode.hybrid && mode.keywords {
      var dense, words := DenseHits(t, points, q, k).value, KeywordHits(t, points, q, k);
      KeywordIsProper(t, points, q, k);
      FusedIsProper([dense, words], DEFAULT_K, points, q);
    }
  }

  // In every mode, for any reply of the reranking model: at most top_k hits, none repeated, each of them a
  // stored point that passes the filters and the access check.
  lemma QueryIsProper(t: Tools, points: seq<Point>, q: Request, mode: Mode)
    requires Distinct(Map(points, PointIdentity)) && q.topK >= 0 && QueryHits(t, points, q, mode).Ok?
    ensures var hits := QueryHits(t, points, q, mode).value;
            |hits| <= q.topK && Proper(hits, points, q)
  {
    CandidatesAreProper(t, points, q, mode);
    var candidates := Candidates(t, points, q, mode).value;
    if mode.rerank.Some? {
      RerankIsProper(candidates, mode.rerank.value, q.topK, points, q);
    } else {
      PrefixIsProper(candidates, q.topK, points, q);
    }
  }

  // A query fails exactly when its text is blank or some visible point has a vector of another length than the query's.
  lemma QueryFailsIff(t: Tools, points: seq<Point>, q: Request, mode: Mode)
    ensures QueryHits(t, points, q, mode).Err?
            <==> Blank(q.text)
                 || exists i :: 0 <= i < |points| && Admitted(points[i], q.filters, q.principals)
                                && |points[i].vector| != |q.vector|
  {
    var visible := Visible(points, q.filters, q.principals);
    VisibleMembers(points, q.filters, q.principals);
    if i :| 0 <= i < |points| && Admitted(points[i], q.filters, q.principals) && |points[i].vector| != |q.vector| {
      OneMismatchFails(points, q.vector, i, q.filters, q.principals);
    }
    if !SameLength(q.vector, visible) {
      var j :| 0 <= j < |visible| && |visible[j].vector| != |q.vector|;
      assert visible[j] in points;
    }
  }

  lemma IdentitiesDuplicateFree(hits: seq<SearchHit>)
    requires Distinct(Identities(hits))
    ensures DuplicateFree(hits)
  {
    forall i, j | 0 <= i < j < |hits| ensures IdentityOf(hits[i]) != IdentityOf(hits[j]) {
      assert Identities(hits)[i] != Identities(hits)[j];
    }
  }

  lemma ConsensusAmong(dense: seq<SearchHit>, words: seq<SearchHit>, i: nat, j: nat, single: Identity)
    requires Distinct(Identities(dense)) && Distinct(Identities(words)) && |dense| <= DEFAULT_K + 1
             && |words| <= DEFAULT_K + 1
    requires i < |dense| && j < |words| && IdentityOf(dense[i]) == IdentityOf(words[j])
    requires single !in Identities(dense) || single !in Identities(words)
    ensures PointsInAll([dense, words], IdentityOf(dense[i]), DEFAULT_K)
          > PointsInAll([dense, words], single, DEFAULT_K)
  {
    IdentitiesDuplicateFree(dense);
    IdentitiesDuplicateFree(words);
    if single !in Identities(dense) {
      assert forall m :: 0 <= m < |dense| ==> Identities(dense)[m] == IdentityOf(dense[m]);
    } else {
      assert forall m :: 0 <= m < |words| ==> Identities(words)[m] == IdentityOf(words[m]);
    }
    ConsensusWins(dense, words, i, j, single, DEFAULT_K);
  }

  // Both candidate lists are duplicate-free, and up to top_k 15 short enough for consensus to win.
  lemma CandidateLists(t: Tools, points: seq<Point>, q: Request, dense: seq<SearchHit>, words: seq<SearchHit>)
    requires Distinct(Map(points, PointIdentity)) && 0 <= q.topK <= 15
    requires DenseHits(t, points, q, q.topK * CANDIDATE_FACTOR) == Ok(dense)
    requires KeywordHits(t, points, q, q.topK * CANDIDATE_FACTOR) == words
    ensures Distinct(Identities(dense)) && Distinct(Identities(words))
    ensures |dense| <= DEFAULT_K + 1 && |words| <= DEFAULT_K + 1
  {
    DenseIsProper(t, points, q, q.topK * CANDIDATE_FACTOR);
    KeywordIsProper(t, points, q, q.topK * CANDIDATE_FACTOR);
  }

  // Up to top_k 15 every candidate rank is within the consensus bound of fusion: a point both rankers find
  // scores strictly above every point only one of them finds.
  lemma HybridConsensus(t: Tools, points: seq<Point>, q: Request, dense: seq<SearchHit>, words: seq<SearchHit>,
                        i: nat, j: nat, single: Identity)
    requires Distinct(Map(points, PointIdentity)) && 0 <= q.topK <= 15
    requires DenseHits(t, points, q, q.topK * CANDIDATE_FACTOR) == Ok(dense)
    requires KeywordHits(t, points, q, q.topK * CANDIDATE_FACTOR) == words
    requires i < |dense| && j < |words| && IdentityOf(dense[i]) == IdentityOf(words[j])
    requires single !in Identities(dense) || single !in Identities(words)
    ensures PointsInAll([dense, words], IdentityOf(dense[i]), DEFAULT_K)
          > PointsInAll([dense, words], single, DEFAULT_K)
  {
    CandidateLists(t, points, q, dense, words);
    ConsensusAmong(dense, words, i, j, single);
  }

  lemma HigherIsEarlier(hits: seq<SearchHit>, a: nat, b: nat)
    requires forall i, j :: 0 <= i < j < |hits| ==> hits[i].score >= hits[j].score
    requires a < |hits| && b < |hits| && hits[b].score > hits[a].score
    ensures b < a
  {
  }

  // Where an identity stands in a fused result.
  lemma FusedPlace(rankings: seq<Ranking>, r: nat, i: nat) returns (b: nat)
    requires r < |rankings| && i < |rankings[r]|
    ensures b < |Fuse(rankings, DEFAULT_K)|
    ensures IdentityOf(Fuse(rankings, DEFAULT_K)[b]) == IdentityOf(rankings[r][i])
  {
    var f, id := AddAll(rankings, DEFAULT_K), IdentityOf(rankings[r][i]);
    var ids := SortDescending(f.order, (id: Identity) => ScoreOf(f, id));
    FuseFacts(rankings, DEFAULT_K);
    AddAllIsConsistent(rankings, DEFAULT_K);
    FoundInSome(rankings, id, DEFAULT_K);
    assert id in multiset(f.order);
    assert id in ids;
    b :| 0 <= b < |ids| && ids[b] == id;
  }

  lemma FusedConsensusFirst(dense: seq<SearchHit>, words: seq<SearchHit>, both: Identity, a: nat) returns (b: nat)
    requires Distinct(Identities(dense)) && Distinct(Identities(words)) && |dense| <= DEFAULT_K + 1
             && |words| <= DEFAULT_K + 1
    requires both in Identities(dense) && both in Identities(words) && a < |Fuse([dense, words], DEFAULT_K)|
    requires var single := IdentityOf(Fuse([dense, words], DEFAULT_K)[a]);
             single !in Identities(dense) || single !in Identities(words)
    ensures b < a && IdentityOf(Fuse([dense, words], DEFAULT_K)[b]) == both
  {
    var rankings, hits := [dense, words], Fuse([dense, words], DEFAULT_K);
    var i :| 0 <= i < |dense| && Identities(dense)[i] == both;
    var j :| 0 <= j < |words| && Identities(words)[j] == both;
    b := FusedPlace(rankings, 0, i);
    FuseFacts(rankings, DEFAULT_K);
    ConsensusAmong(dense, words, i, j, IdentityOf(hits[a]));
    HigherIsEarlier(hits, a, b);
  }

  // What a hybrid query without reranking answers.
  lemma HybridAnswer(t: Tools, points: seq<Point>, q: Request, dense: seq<SearchHit>, words: seq<SearchHit>)
    requires !Blank(q.text)
    requires DenseHits(t, points, q, q.topK * CANDIDATE_FACTOR) == Ok(dense)
    requires KeywordHits(t, points, q, q.topK * CANDIDATE_FACTOR) == words
    ensures QueryHits(t, points, q, Mode(true, true, None)) == Ok(Prefix(Fuse([dense, words], DEFAULT_K), q.topK))
  {
  }

  // In the answer of a hybrid query, up to top_k 15, every point both rankers found comes before every point
  // only one of them found.
  lemma HybridPutsConsensusFirst(t: Tools, points: seq<Point>, q: Request, dense: seq<SearchHit>, words: seq<SearchHit>,
                                 both: Identity, a: nat) returns (b: nat)
    requires Distinct(Map(points, PointIdentity)) && 0 <= q.topK <= 15 && !Blank(q.text)
    requires DenseHits(t, points, q, q.topK * CANDIDATE_FACTOR) == Ok(dense)
    requires KeywordHits(t, points, q, q.topK * CANDIDATE_FACTOR) == words
    requires both in Identities(dense) && both in Identities(words)
    requires a < |Prefix(Fuse([dense, words], DEFAULT_K), q.topK)|
    requires var single := IdentityOf(Fuse([dense, words], DEFAULT_K)[a]);
             single !in Identities(dense) || single !in Identities(words)
    ensures QueryHits(t, points, q, Mode(true, true, None)) == Ok(Prefix(Fuse([dense, words], DEFAULT_K), q.topK))
    ensures b < a && IdentityOf(Prefix(Fuse([dense, words], DEFAULT_K), q.topK)[b]) == both
  {
    CandidateLists(t, points, q, dense, words);
    HybridAnswer(t, points, q, dense, words);
    b := FusedConsensusFirst(dense, words, both, a);
  }
}
