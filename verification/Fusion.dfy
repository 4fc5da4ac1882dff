/** Reciprocal Rank Fusion over the reals (src/alvis/index/fusion.py). */
module Fusion {
  import opened Models
  import opened Sorting
  import opened Text
  import opened Wrappers

  const DEFAULT_K: nat := 60

  type Identity = (Uri, string)

  type Ranking = seq<SearchHit>

  function IdentityOf(hit: SearchHit): Identity {
    (hit.uri, hit.text)
  }

  // The two dicts of the fusion: fused scores and first hits, by identity, in first-seen order.
  datatype Fused = Fused(order: seq<Identity>, scores: map<Identity, real>, first: map<Identity, SearchHit>)

  const EMPTY := Fused([], map[], map[])

  // What a hit at a 1-based rank contributes.
  function Contribution(k: nat, rank: nat): real
    requires rank >= 1
  {
    1.0 / ((k + rank) as real)
  }

  function AddHit(f: Fused, hit: SearchHit, k: nat, rank: nat): Fused
    requires rank >= 1
  {
    var id := IdentityOf(hit);
    if id in f.scores then f.(scores := f.scores[id := f.scores[id] + Contribution(k, rank)])
    else Fused(f.order + [id], f.scores[id := 0.0 + Contribution(k, rank)], f.first[id := hit])
  }

  function AddRanking(f: Fused, ranking: Ranking, k: nat): Fused {
    if ranking == [] then f
    else AddHit(AddRanking(f, ranking[..|ranking| - 1], k), ranking[|ranking| - 1], k, |ranking|)
  }

  function AddAll(rankings: seq<Ranking>, k: nat): Fused {
    if rankings == [] then EMPTY
    else AddRanking(AddAll(rankings[..|rankings| - 1], k), rankings[|rankings| - 1], k)
  }

  predicate Consistent(f: Fused) {
    && Distinct(f.order)
    && (forall i :: 0 <= i < |f.order| ==> f.order[i] in f.scores && f.order[i] in f.first)
    && (forall id :: id in f.scores ==> id in f.order)
    && (forall id :: id in f.first ==> IdentityOf(f.first[id]) == id)
  }

  lemma AddHitStaysConsistent(f: Fused, hit: SearchHit, k: nat, rank: nat)
    requires Consistent(f) && rank >= 1
    ensures Consistent(AddHit(f, hit, k, rank))
  {
  }

  lemma {:induction false} AddRankingStaysConsistent(f: Fused, ranking: Ranking, k: nat)
    requires Consistent(f)
    ensures Consistent(AddRanking(f, ranking, k))
  {
    if ranking == [] {
    } else {
      AddRankingStaysConsistent(f, ranking[..|ranking| - 1], k);
      AddHitStaysConsistent(AddRanking(f, ranking[..|ranking| - 1], k), ranking[|ranking| - 1], k, |ranking|);
    }
  }

  lemma {:induction false} AddAllIsConsistent(rankings: seq<Ranking>, k: nat)
    ensures Consistent(AddAll(rankings, k))
  {
    if rankings == [] {
    } else {
      AddAllIsConsistent(rankings[..|rankings| - 1], k);
      AddRankingStaysConsistent(AddAll(rankings[..|rankings| - 1], k), rankings[|rankings| - 1], k);
    }
  }

  method FuseLoop(rankings: seq<Ranking>, k: nat) returns (f: Fused)
    ensures f == AddAll(rankings, k)
  {
    f := EMPTY;
    for r := 0 to |rankings|
      invariant f == AddAll(rankings[..r], k)
    {
      var ranking := rankings[r];
      ghost var before := f;
      for i := 0 to |ranking|
        invariant f == AddRanking(before, ranking[..i], k)
      {
        assert ranking[..i + 1][..i] == ranking[..i];
        var hit := ranking[i];
        var id := IdentityOf(hit);
        var score := (if id in f.scores then f.scores[id] else 0.0) + Contribution(k, i + 1);
        if id in f.scores {
          f := f.(scores := f.scores[id := score]);
        } else {
          f := Fused(f.order + [id], f.scores[id := score], f.first[id := hit]);
        }
      }
      assert ranking[..|ranking|] == ranking;
      assert rankings[..r + 1][..r] == rankings[..r];
    }
    assert rankings[..|rankings|] == rankings;
  }

  function ScoreOf(f: Fused, id: Identity): real {
    if id in f.scores then f.scores[id] else 0.0
  }

  function FusedHit(f: Fused, id: Identity): SearchHit {
    if id in f.first then f.first[id].(score := ScoreOf(f, id)) else SearchHit(id.1, id.0, map[], ScoreOf(f, id))
  }

  function Fuse(rankings: seq<Ranking>, k: nat): seq<SearchHit> {
    var f := AddAll(rankings, k);
    Map(SortDescending(f.order, (id: Identity) => ScoreOf(f, id)), (id: Identity) => FusedHit(f, id))
  }

  /* What a fused score is. */

  // The points one ranking gives an identity.
  function PointsIn(ranking: Ranking, id: Identity, k: nat): real {
    if ranking == [] then 0.0
    else
      PointsIn(ranking[..|ranking| - 1], id, k)
      + if IdentityOf(ranking[|ranking| - 1]) == id then Contribution(k, |ranking|) else 0.0
  }

  function PointsInAll(rankings: seq<Ranking>, id: Identity, k: nat): real {
    if rankings == [] then 0.0
    else PointsInAll(rankings[..|rankings| - 1], id, k) + PointsIn(rankings[|rankings| - 1], id, k)
  }

  lemma {:induction false} RankingAddsPoints(f: Fused, ranking: Ranking, id: Identity, k: nat)
    ensures ScoreOf(AddRanking(f, ranking, k), id) == ScoreOf(f, id) + PointsIn(ranking, id, k)
    ensures id in AddRanking(f, ranking, k).scores
            <==> id in f.scores || exists i :: 0 <= i < |ranking| && IdentityOf(ranking[i]) == id
  {
    if ranking == [] {
    } else {
      var rest := ranking[..|ranking| - 1];
      RankingAddsPoints(f, rest, id, k);
      assert forall i :: 0 <= i < |ranking| ==> ranking[i] == if i < |rest| then rest[i] else ranking[|ranking| - 1];
    }
  }

  // A fused score is the sum of 1 / (k + rank) over every occurrence of the identity.
  lemma {:induction false} ScoreIsPoints(rankings: seq<Ranking>, id: Identity, k: nat)
    ensures ScoreOf(AddAll(rankings, k), id) == PointsInAll(rankings, id, k)
  {
    if rankings == [] {
    } else {
      ScoreIsPoints(rankings[..|rankings| - 1], id, k);
      RankingAddsPoints(AddAll(rankings[..|rankings| - 1], k), rankings[|rankings| - 1], id, k);
    }
  }

  /* Conservation. */

  function SumOver(order: seq<Identity>, scores: map<Identity, real>): real {
    if order == [] then 0.0
    else
      var id := order[|order| - 1];
      SumOver(order[..|order| - 1], scores) + if id in scores then scores[id] else 0.0
  }

  function RankMass(k: nat, n: nat): real {
    if n == 0 then 0.0 else RankMass(k, n - 1) + Contribution(k, n)
  }

  function TotalMass(rankings: seq<Ranking>, k: nat): real {
    if rankings == [] then 0.0 else TotalMass(rankings[..|rankings| - 1], k) + RankMass(k, |rankings[|rankings| - 1]|)
  }

  lemma {:induction false} SumUnaffected(order: seq<Identity>, scores: map<Identity, real>, id: Identity, value: real)
    requires id !in order
    ensures SumOver(order, scores[id := value]) == SumOver(order, scores)
  {
    if order == [] {
    } else {
      SumUnaffected(order[..|order| - 1], scores, id, value);
    }
  }

  lemma {:induction false} SumShifts(order: seq<Identity>, scores: map<Identity, real>, id: Identity, more: real)
    requires Distinct(order) && id in order && id in scores
    ensures SumOver(order, scores[id := scores[id] + more]) == SumOver(order, scores) + more
  {
    var rest := order[..|order| - 1];
    if order[|order| - 1] == id {
      SumUnaffected(rest, scores, id, scores[id] + more);
    } else {
      SumShifts(rest, scores, id, more);
    }
  }

  lemma HitAddsMass(f: Fused, hit: SearchHit, k: nat, rank: nat)
    requires Consistent(f) && rank >= 1
    ensures SumOver(AddHit(f, hit, k, rank).order, AddHit(f, hit, k, rank).scores)
         == SumOver(f.order, f.scores) + Contribution(k, rank)
  {
    var id := IdentityOf(hit);
    if id in f.scores {
      SumShifts(f.order, f.scores, id, Contribution(k, rank));
    } else {
      SumUnaffected(f.order, f.scores, id, 0.0 + Contribution(k, rank));
      assert (f.order + [id])[..|f.order|] == f.order;
    }
  }

  lemma {:induction false} RankingAddsMass(f: Fused, ranking: Ranking, k: nat)
    requires Consistent(f)
    ensures SumOver(AddRanking(f, ranking, k).order, AddRanking(f, ranking, k).scores)
         == SumOver(f.order, f.scores) + RankMass(k, |ranking|)
  {
    if ranking == [] {
    } else {
      var rest := ranking[..|ranking| - 1];
      RankingAddsMass(f, rest, k);
      AddRankingStaysConsistent(f, rest, k);
      HitAddsMass(AddRanking(f, rest, k), ranking[|ranking| - 1], k, |ranking|);
    }
  }

  // Fusion hands out exactly the points the rankings bring: the fused scores sum to all the 1 / (k + rank).
  lemma {:induction false} FusionConservesMass(rankings: seq<Ranking>, k: nat)
    ensures SumOver(AddAll(rankings, k).order, AddAll(rankings, k).scores) == TotalMass(rankings, k)
  {
    if rankings == [] {
    } else {
      var rest := rankings[..|rankings| - 1];
      FusionConservesMass(rest, k);
      AddAllIsConsistent(rest, k);
      RankingAddsMass(AddAll(rest, k), rankings[|rankings| - 1], k);
    }
  }

  /* The order of the result. */

  lemma {:induction false} FoundInSome(rankings: seq<Ranking>, id: Identity, k: nat)
    ensures id in AddAll(rankings, k).scores
            <==> exists r, i :: 0 <= r < |rankings| && 0 <= i < |rankings[r]| && IdentityOf(rankings[r][i]) == id
  {
    if rankings == [] {
    } else {
      var rest, last := rankings[..|rankings| - 1], rankings[|rankings| - 1];
      FoundInSome(rest, id, k);
      RankingAddsPoints(AddAll(rest, k), last, id, k);
      if r, i :| 0 <= r < |rankings| && 0 <= i < |rankings[r]| && IdentityOf(rankings[r][i]) == id {
        assert if r < |rest| then rest[r] == rankings[r] else last == rankings[r];
      }
      if id in AddAll(rest, k).scores {
        var r, i :| 0 <= r < |rest| && 0 <= i < |rest[r]| && IdentityOf(rest[r][i]) == id;
        assert rankings[r] == rest[r];
      }
      if i :| 0 <= i < |last| && IdentityOf(last[i]) == id {
        assert rankings[|rankings| - 1] == last;
      }
    }
  }

  // The first hit with an identity.
  function FirstWith(hits: seq<SearchHit>, id: Identity): Option<SearchHit> {
    if hits == [] then None
    else if FirstWith(hits[..|hits| - 1], id).Some? then FirstWith(hits[..|hits| - 1], id)
    else if IdentityOf(hits[|hits| - 1]) == id then Some(hits[|hits| - 1])
    else None
  }

  // Identities stand in first-seen order, each beside the hit that introduced it.
  ghost predicate Introduces(f: Fused, hits: seq<SearchHit>) {
    && f.order == FirstSeen(Map(hits, IdentityOf)) && f.first.Keys == f.scores.Keys
    && forall id :: FirstWith(hits, id) == if id in f.first then Some(f.first[id]) else None
  }

  lemma FirstWithMore(hits: seq<SearchHit>, hit: SearchHit, id: Identity)
    ensures FirstWith(hits + [hit], id)
         == if FirstWith(hits, id).Some? then FirstWith(hits, id) else if IdentityOf(hit) == id then Some(hit) else None
  {
    assert (hits + [hit])[..|hits|] == hits;
  }

  lemma FirstSeenMore(hits: seq<SearchHit>, hit: SearchHit)
    ensures FirstSeen(Map(hits + [hit], IdentityOf))
         == FirstSeen(Map(hits, IdentityOf)) + if IdentityOf(hit) in FirstSeen(Map(hits, IdentityOf))
                                                 then [] else [IdentityOf(hit)]
  {
    var ids := Map(hits + [hit], IdentityOf);
    assert ids[..|ids| - 1] == Map(hits, IdentityOf);
    assert FirstSeen(Map(hits, IdentityOf)) + [] == FirstSeen(Map(hits, IdentityOf));
  }

  lemma HitIsIntroduced(f: Fused, hits: seq<SearchHit>, hit: SearchHit, k: nat, rank: nat)
    requires Consistent(f) && Introduces(f, hits) && rank >= 1
    ensures Introduces(AddHit(f, hit, k, rank), hits + [hit])
  {
    var next := AddHit(f, hit, k, rank);
    FirstSeenMore(hits, hit);
    forall id ensures FirstWith(hits + [hit], id) == if id in next.first then Some(next.first[id]) else None {
      FirstWithMore(hits, hit, id);
    }
  }

  lemma {:induction false} RankingIsIntroduced(f: Fused, hits: seq<SearchHit>, ranking: Ranking, k: nat)
    requires Consistent(f) && Introduces(f, hits)
    ensures Introduces(AddRanking(f, ranking, k), hits + ranking)
  {
    if ranking == [] {
      assert hits + ranking == hits;
    } else {
      var rest, last := ranking[..|ranking| - 1], ranking[|ranking| - 1];
      RankingIsIntroduced(f, hits, rest, k);
      AddRankingStaysConsistent(f, rest, k);
      HitIsIntroduced(AddRanking(f, rest, k), hits + rest, last, k, |ranking|);
      Associate(hits, rest, [last]);
      assert ranking == rest + [last];
    }
  }

  // The fused order is the first-seen order over all rankings, and each identity keeps the hit that introduced it.
  lemma {:induction false} FusionKeepsFirstSeen(rankings: seq<Ranking>, k: nat)
    ensures Introduces(AddAll(rankings, k), Flatten(rankings))
  {
    if rankings != [] {
      var rest, last := rankings[..|rankings| - 1], rankings[|rankings| - 1];
      FusionKeepsFirstSeen(rest, k);
      AddAllIsConsistent(rest, k);
      RankingIsIntroduced(AddAll(rest, k), Flatten(rest), last, k);
      FlattenConcat(rest, [last]);
      FlattenOne(last);
      assert rankings == rest + [last];
    } else {
      NothingIntroduced();
    }
  }

  lemma FlattenOne(hits: seq<SearchHit>)
    ensures Flatten([hits]) == hits
  {
    assert Flatten([hits]) == hits + Flatten<SearchHit>([]);
  }

  lemma NothingIntroduced()
    ensures Introduces(EMPTY, [])
  {
    assert Map<SearchHit, Identity>([], IdentityOf) == [];
  }

  // The result holds each identity found in some ranking exactly once, best score first, equal scores in
  // first-seen order, and each hit carries the points its identity collected.
  lemma FuseFacts(rankings: seq<Ranking>, k: nat)
    ensures var hits, f := Fuse(rankings, k), AddAll(rankings, k);
            var ids := SortDescending(f.order, (id: Identity) => ScoreOf(f, id));
            && |hits| == |ids| == |f.order|
            && Distinct(ids) && multiset(ids) == multiset(f.order)
            && (forall i :: 0 <= i < |hits| ==>
                 IdentityOf(hits[i]) == ids[i] && hits[i].score == PointsInAll(rankings, ids[i], k))
            && (forall i, j :: 0 <= i < j < |hits| ==> hits[i].score >= hits[j].score)
            && SameTies(ids, f.order, (id: Identity) => ScoreOf(f, id))
  {
    var f := AddAll(rankings, k);
    var key := (id: Identity) => ScoreOf(f, id);
    var ids := SortDescending(f.order, key);
    AddAllIsConsistent(rankings, k);
    SortSorts(f.order, key);
    DistinctByMultiset(f.order, ids);
    forall i | 0 <= i < |ids|
      ensures IdentityOf(FusedHit(f, ids[i])) == ids[i] && ScoreOf(f, ids[i]) == PointsInAll(rankings, ids[i], k)
    {
      assert ids[i] in multiset(f.order);
      ScoreIsPoints(rankings, ids[i], k);
    }
    forall s: real ensures WithKey(ids, key, s) == WithKey(f.order, key, s) {
      SortIsStable(f.order, key, s);
    }
  }

  lemma {:induction false} FirstWithFound(hits: seq<SearchHit>, id: Identity) returns (i: nat)
    requires FirstWith(hits, id).Some?
    ensures i < |hits| && FirstWith(hits, id) == Some(hits[i]) && IdentityOf(hits[i]) == id
    ensures forall j :: 0 <= j < i ==> IdentityOf(hits[j]) != id
  {
    var rest := hits[..|hits| - 1];
    if FirstWith(rest, id).Some? {
      i := FirstWithFound(rest, id);
    } else {
      i := |rest|;
      FirstWithNone(rest, id);
    }
  }

  lemma {:induction false} FirstWithNone(hits: seq<SearchHit>, id: Identity)
    requires FirstWith(hits, id).None?
    ensures forall j :: 0 <= j < |hits| ==> IdentityOf(hits[j]) != id
  {
    if hits == [] {
    } else {
      FirstWithNone(hits[..|hits| - 1], id);
    }
  }

  // Each fused hit is the first one with its identity over all rankings, text, URI and metadata included, with
  // the collected points for its score.
  lemma FusedHitsAreFirst(rankings: seq<Ranking>, k: nat, i: nat) returns (at: nat)
    requires i < |Fuse(rankings, k)|
    ensures at < |Flatten(rankings)|
    ensures var hit, all := Fuse(rankings, k)[i], Flatten(rankings);
            && hit == all[at].(score := PointsInAll(rankings, IdentityOf(hit), k))
            && forall j :: 0 <= j < at ==> IdentityOf(all[j]) != IdentityOf(hit)
  {
    var f, hit := AddAll(rankings, k), Fuse(rankings, k)[i];
    var ids := SortDescending(f.order, (id: Identity) => ScoreOf(f, id));
    FuseFacts(rankings, k);
    AddAllIsConsistent(rankings, k);
    FusionKeepsFirstSeen(rankings, k);
    assert ids[i] in multiset(f.order);
    at := FirstWithFound(Flatten(rankings), ids[i]);
  }

  /* Consensus between two rankings. */

  predicate DuplicateFree(ranking: Ranking) {
    forall i, j :: 0 <= i < j < |ranking| ==> IdentityOf(ranking[i]) != IdentityOf(ranking[j])
  }

  lemma {:induction false} AbsentScoresNothing(ranking: Ranking, id: Identity, k: nat)
    requires forall i :: 0 <= i < |ranking| ==> IdentityOf(ranking[i]) != id
    ensures PointsIn(ranking, id, k) == 0.0
  {
    if ranking == [] {
    } else {
      AbsentScoresNothing(ranking[..|ranking| - 1], id, k);
    }
  }

  lemma {:induction false} OnePlaceScores(ranking: Ranking, i: nat, k: nat)
    requires DuplicateFree(ranking) && i < |ranking|
    ensures PointsIn(ranking, IdentityOf(ranking[i]), k) == Contribution(k, i + 1)
  {
    var rest := ranking[..|ranking| - 1];
    if i < |rest| {
      OnePlaceScores(rest, i, k);
    } else {
      AbsentScoresNothing(rest, IdentityOf(ranking[i]), k);
    }
  }

  // What a hit at each rank brings: k + rank times it is 1, so every further rank brings strictly less.
  lemma ContributionFacts(k: nat, rank: nat, lower: nat)
    requires 1 <= rank < lower
    ensures Contribution(k, rank) * ((k + rank) as real) == 1.0
    ensures Contribution(k, rank) > Contribution(k, lower) > 0.0
  {
    var x, y := Contribution(k, rank), Contribution(k, lower);
    assert y * ((k + lower) as real) == 1.0;
    if x <= y {
      SmallerOrEqualProduct(x, y, (k + rank) as real, (k + lower) as real);
    }
  }

  lemma LowerRankScoresLess(k: nat, high: nat, low: nat)
    requires 1 <= high <= low
    ensures Contribution(k, high) >= Contribution(k, low) > 0.0
  {
    var a, b := (k + high) as real, (k + low) as real;
    assert (1.0 / a) * a == 1.0 && (1.0 / b) * b == 1.0;
    if 1.0 / a < 1.0 / b {
      SmallerProduct(1.0 / a, 1.0 / b, a, b);
    }
  }

  lemma SmallerProduct(x: real, y: real, a: real, b: real)
    requires x < y && 0.0 < a <= b && y > 0.0
    ensures x * a < y * b
  {
    assert x * a < y * a;
    assert y * a <= y * b;
  }

  lemma TwiceWorstBeatsBest(k: nat)
    ensures Contribution(k, k + 1) + Contribution(k, k + 1) > Contribution(k, 1)
    ensures Contribution(k, k + 2) + Contribution(k, k + 2) == Contribution(k, 1)
  {
    var x := k as real;
    assert 1.0 / (2.0 * x + 2.0) + 1.0 / (2.0 * x + 2.0) == 1.0 / (x + 1.0) by {
      var q := 1.0 / (2.0 * x + 2.0);
      assert q * (2.0 * x + 2.0) == 1.0;
      assert (q + q) * (x + 1.0) == 1.0;
      SameQuotient(q + q, x + 1.0);
    }
    var p := 1.0 / (2.0 * x + 1.0);
    var q := 1.0 / (2.0 * x + 2.0);
    assert p * (2.0 * x + 1.0) == 1.0 && q * (2.0 * x + 2.0) == 1.0;
    if p <= q {
      assert q > 0.0;
      SmallerOrEqualProduct(p, q, 2.0 * x + 1.0, 2.0 * x + 2.0);
    }
    assert (k + (k + 1)) as real == 2.0 * x + 1.0 && (k + (k + 2)) as real == 2.0 * x + 2.0
      && (k + 1) as real == x + 1.0;
  }

  lemma SmallerOrEqualProduct(x: real, y: real, a: real, b: real)
    requires x <= y && 0.0 < a < b && y > 0.0
    ensures x * a < y * b
  {
    assert x * a <= y * a;
    assert y * a < y * b;
  }

  lemma SameQuotient(q: real, d: real)
    requires d != 0.0 && q * d == 1.0
    ensures q == 1.0 / d
  {
  }

  // A hit at rank k + 1 or better in both rankings strictly beats every hit found in only one.
  lemma ConsensusWins(a: Ranking, b: Ranking, i: nat, j: nat, single: Identity, k: nat)
    requires DuplicateFree(a) && DuplicateFree(b)
    requires i < |a| && j < |b| && IdentityOf(a[i]) == IdentityOf(b[j]) && i <= k && j <= k
    requires (forall m :: 0 <= m < |a| ==> IdentityOf(a[m]) != single)
             || (forall m :: 0 <= m < |b| ==> IdentityOf(b[m]) != single)
    ensures PointsInAll([a, b], IdentityOf(a[i]), k) > PointsInAll([a, b], single, k)
  {
    TwoRankings(a, b, IdentityOf(a[i]), k);
    TwoRankings(a, b, single, k);
    OnePlaceScores(a, i, k);
    OnePlaceScores(b, j, k);
    LowerRankScoresLess(k, i + 1, k + 1);
    LowerRankScoresLess(k, j + 1, k + 1);
    TwiceWorstBeatsBest(k);
    AtMostBest(a, single, k);
    AtMostBest(b, single, k);
    if forall m :: 0 <= m < |a| ==> IdentityOf(a[m]) != single {
      AbsentScoresNothing(a, single, k);
    } else {
      AbsentScoresNothing(b, single, k);
    }
  }

  lemma TwoRankings(a: Ranking, b: Ranking, id: Identity, k: nat)
    ensures PointsInAll([a, b], id, k) == PointsIn(a, id, k) + PointsIn(b, id, k)
  {
    assert [a, b][..1] == [a] && [a][..0] == [];
    assert PointsInAll([a], id, k) == PointsInAll([], id, k) + PointsIn(a, id, k);
  }

  lemma AtMostBest(ranking: Ranking, id: Identity, k: nat)
    requires DuplicateFree(ranking)
    ensures PointsIn(ranking, id, k) <= Contribution(k, 1)
  {
    LowerRankScoresLess(k, 1, 1);
    if i :| 0 <= i < |ranking| && IdentityOf(ranking[i]) == id {
      OnePlaceScores(ranking, i, k);
      LowerRankScoresLess(k, 1, i + 1);
    } else {
      AbsentScoresNothing(ranking, id, k);
    }
  }

  // The bound is tight: at rank k + 2 in both, a hit only ties with the other ranking's first.
  lemma ConsensusBoundIsTight(a: Ranking, b: Ranking, k: nat)
    requires DuplicateFree(a) && DuplicateFree(b) && |a| > k + 1 && |b| > k + 1
    requires IdentityOf(a[k + 1]) == IdentityOf(b[k + 1])
    requires forall m :: 0 <= m < |b| ==> IdentityOf(b[m]) != IdentityOf(a[0])
    ensures PointsInAll([a, b], IdentityOf(a[k + 1]), k) == PointsInAll([a, b], IdentityOf(a[0]), k)
  {
    TwoRankings(a, b, IdentityOf(a[k + 1]), k);
    TwoRankings(a, b, IdentityOf(a[0]), k);
    OnePlaceScores(a, k + 1, k);
    OnePlaceScores(b, k + 1, k);
    OnePlaceScores(a, 0, k);
    AbsentScoresNothing(b, IdentityOf(a[0]), k);
    TwiceWorstBeatsBest(k);
  }
}
