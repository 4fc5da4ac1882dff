/** BM25 keyword scores over the reals (src/alvis/index/keyword.py). */
module Bm25 {
  import opened Sorting

  const K1: real := 1.5
  const B: real := 0.75

  // log, given by its defining properties.
  ghost predicate IsLogarithm(ln: real -> real) {
    && ln(1.0) == 0.0
    && forall x, y :: 0.0 < x < y ==> ln(x) < ln(y)
  }

  function Count(doc: seq<string>, term: string): nat {
    if doc == [] then 0 else (if doc[0] == term then 1 else 0) + Count(doc[1..], term)
  }

  function DocFreq(docs: seq<seq<string>>, term: string): (n: nat)
    ensures n <= |docs|
  {
    if docs == [] then 0 else (if Count(docs[0], term) > 0 then 1 else 0) + DocFreq(docs[1..], term)
  }

  function TotalLength(docs: seq<seq<string>>): nat {
    if docs == [] then 0 else |docs[0]| + TotalLength(docs[1..])
  }

  function Idf(ln: real -> real, docs: seq<seq<string>>, term: string): real {
    var n, df := |docs| as real, DocFreq(docs, term) as real;
    ln((n - df + 0.5) / (df + 0.5) + 1.0)
  }

  function Average(total: real, n: real): (average: real)
    requires total > 0.0 && n > 0.0
    ensures average > 0.0
  {
    total / n
  }

  // A document's length relative to the average; 1 when every document is empty.
  function NormLength(docs: seq<seq<string>>, length: nat): (norm: real)
    ensures norm >= 0.0
  {
    if docs == [] || TotalLength(docs) == 0 then 1.0
    else Relative(length as real, Average(TotalLength(docs) as real, |docs| as real))
  }

  function Relative(length: real, average: real): (norm: real)
    requires average > 0.0
    ensures length >= 0.0 ==> norm >= 0.0
  {
    length / average
  }

  function TermScore(idf: real, frequency: nat, norm: real): real
    requires norm >= 0.0
  {
    if frequency == 0 then 0.0
    else idf * ((frequency as real) * (K1 + 1.0)) / ((frequency as real) + K1 * (1.0 - B + B * norm))
  }

  // The score of one document, summed over the query's distinct terms in some order.
  function Score(ln: real -> real, docs: seq<seq<string>>, terms: seq<string>, doc: seq<string>): real {
    if terms == [] then 0.0
    else
      Score(ln, docs, terms[..|terms| - 1], doc)
      + TermScore(Idf(ln, docs, terms[|terms| - 1]), Count(doc, terms[|terms| - 1]), NormLength(docs, |doc|))
  }

  // One score per document; the query's terms are visited in the order of first occurrence.
  function Scores(ln: real -> real, query: seq<string>, docs: seq<seq<string>>): (scores: seq<real>)
    ensures |scores| == |docs|
  {
    seq(|docs|, i requires 0 <= i < |docs| => Score(ln, docs, FirstSeen(query), docs[i]))
  }

  method ScoresLoop(ln: real -> real, query: seq<string>, docs: seq<seq<string>>) returns (scores: seq<real>)
    ensures scores == Scores(ln, query, docs)
  {
    if |docs| == 0 || query == [] {
      return seq(|docs|, _ => 0.0);
    }
    var terms := FirstSeen(query);
    scores := [];
    for d := 0 to |docs|
      invariant |scores| == d && forall i :: 0 <= i < d ==> scores[i] == Score(ln, docs, terms, docs[i])
    {
      var score, norm := 0.0, NormLength(docs, |docs[d]|);
      for t := 0 to |terms|
        invariant score == Score(ln, docs, terms[..t], docs[d])
      {
        assert terms[..t + 1][..t] == terms[..t];
        var frequency := Count(docs[d], terms[t]);
        if frequency == 0 {
          continue;
        }
        score := score + TermScore(Idf(ln, docs, terms[t]), frequency, norm);
      }
      assert terms[..|terms|] == terms;
      scores := scores + [score];
    }
  }

  lemma QuotientAboveOne(x: real, y: real)
    requires x > 0.0 && y > 0.0
    ensures x / y + 1.0 > 1.0
  {
  }

  lemma IdfIsPositive(ln: real -> real, docs: seq<seq<string>>, term: string)
    requires IsLogarithm(ln)
    ensures Idf(ln, docs, term) > 0.0
  {
    var n, df := |docs| as real, DocFreq(docs, term) as real;
    QuotientAboveOne(n - df + 0.5, df + 0.5);
  }

  lemma ProductOrder(x: real, y: real, d: real)
    requires x <= y && d > 0.0
    ensures x * d <= y * d
  {
  }

  lemma QuotientBelow(a: real, b: real, d: real)
    requires d > 0.0 && a < b * d
    ensures a / d < b
  {
    var q := a / d;
    assert q * d == a;
    if q >= b {
      ProductOrder(b, q, d);
    }
  }

  lemma PositiveQuotient(a: real, d: real)
    requires a > 0.0 && d > 0.0
    ensures a / d > 0.0
  {
  }

  // One term contributes a positive amount, below its idf times k1 + 1.
  lemma TermScoreBounds(idf: real, frequency: nat, norm: real)
    requires idf > 0.0 && norm >= 0.0 && frequency > 0
    ensures 0.0 < TermScore(idf, frequency, norm) < (K1 + 1.0) * idf
  {
    var f := frequency as real;
    var c := K1 * (1.0 - B + B * norm);
    assert c > 0.0;
    var top, bottom := idf * (f * (K1 + 1.0)), f + c;
    assert top > 0.0;
    PositiveQuotient(top, bottom);
    assert (K1 + 1.0) * idf * bottom == top + (K1 + 1.0) * idf * c;
    assert (K1 + 1.0) * idf * c > 0.0;
    QuotientBelow(top, (K1 + 1.0) * idf, bottom);
  }

  lemma SaturationGrows(f: real, g: real, c: real, w: real)
    requires 0.0 < f < g && c > 0.0 && w > 0.0
    ensures w * f / (f + c) < w * g / (g + c)
  {
    var q := w * g / (g + c);
    assert q * (g + c) == w * g;
    assert w * g * (f + c) == w * f * (g + c) + w * c * (g - f);
    assert w * c * (g - f) > 0.0;
    assert q * (f + c) * (g + c) == w * g * (f + c);
    assert q * (f + c) * (g + c) > w * f * (g + c);
    if q * (f + c) <= w * f {
      ProductOrder(q * (f + c), w * f, g + c);
    }
    QuotientBelow(w * f, q, f + c);
  }

  lemma TermScoreGrows(idf: real, low: nat, high: nat, norm: real)
    requires idf > 0.0 && norm >= 0.0 && low <= high
    ensures TermScore(idf, low, norm) <= TermScore(idf, high, norm)
    ensures low < high ==> TermScore(idf, low, norm) < TermScore(idf, high, norm)
  {
    if low < high {
      if low == 0 {
        TermScoreBounds(idf, high, norm);
      } else {
        var c, w := K1 * (1.0 - B + B * norm), idf * (K1 + 1.0);
        SaturationGrows(low as real, high as real, c, w);
        assert w * (low as real) == idf * ((low as real) * (K1 + 1.0));
        assert w * (high as real) == idf * ((high as real) * (K1 + 1.0));
      }
    }
  }

  // The idf of the terms the document shares with the query, summed.
  function SharedIdf(ln: real -> real, docs: seq<seq<string>>, terms: seq<string>, doc: seq<string>): real {
    if terms == [] then 0.0
    else
      var term := terms[|terms| - 1];
      SharedIdf(ln, docs, terms[..|terms| - 1], doc) + if Count(doc, term) > 0 then Idf(ln, docs, term) else 0.0
  }

  predicate Shares(terms: seq<string>, doc: seq<string>) {
    exists i :: 0 <= i < |terms| && Count(doc, terms[i]) > 0
  }

  lemma SharesLast(terms: seq<string>, doc: seq<string>)
    requires terms != []
    ensures Shares(terms, doc) <==> Shares(terms[..|terms| - 1], doc) || Count(doc, terms[|terms| - 1]) > 0
  {
    var rest := terms[..|terms| - 1];
    if Shares(rest, doc) {
      var i :| 0 <= i < |rest| && Count(doc, rest[i]) > 0;
      assert terms[i] == rest[i];
    }
    if Shares(terms, doc) {
      var i :| 0 <= i < |terms| && Count(doc, terms[i]) > 0;
      assert i == |rest| || rest[i] == terms[i];
    }
  }

  // Scores are never negative, zero exactly when no query term occurs, and otherwise strictly below
  // k1 + 1 times the summed idf of the terms that do.
  lemma {:induction false} ScoreBounds(ln: real -> real, docs: seq<seq<string>>, terms: seq<string>, doc: seq<string>)
    requires IsLogarithm(ln)
    ensures Score(ln, docs, terms, doc) >= 0.0
    ensures Score(ln, docs, terms, doc) == 0.0 <==> !Shares(terms, doc)
    ensures Shares(terms, doc) ==> Score(ln, docs, terms, doc) < (K1 + 1.0) * SharedIdf(ln, docs, terms, doc)
    ensures !Shares(terms, doc) ==> SharedIdf(ln, docs, terms, doc) == 0.0
  {
    if terms == [] {
    } else {
      var term := terms[|terms| - 1];
      ScoreBounds(ln, docs, terms[..|terms| - 1], doc);
      SharesLast(terms, doc);
      IdfIsPositive(ln, docs, term);
      if Count(doc, term) > 0 {
        TermScoreBounds(Idf(ln, docs, term), Count(doc, term), NormLength(docs, |doc|));
      }
    }
  }

  // Among documents of one length, more occurrences of query terms mean a strictly higher score.
  lemma {:induction false} ScoreGrowsWithCounts(ln: real -> real, docs: seq<seq<string>>, terms: seq<string>,
                                                poor: seq<string>, rich: seq<string>)
    requires IsLogarithm(ln) && |poor| == |rich|
    requires forall i :: 0 <= i < |terms| ==> Count(poor, terms[i]) <= Count(rich, terms[i])
    ensures Score(ln, docs, terms, poor) <= Score(ln, docs, terms, rich)
    ensures (exists i :: 0 <= i < |terms| && Count(poor, terms[i]) < Count(rich, terms[i]))
            ==> Score(ln, docs, terms, poor) < Score(ln, docs, terms, rich)
  {
    if terms == [] {
    } else {
      var rest, term := terms[..|terms| - 1], terms[|terms| - 1];
      ScoreGrowsWithCounts(ln, docs, rest, poor, rich);
      IdfIsPositive(ln, docs, term);
      TermScoreGrows(Idf(ln, docs, term), Count(poor, term), Count(rich, term), NormLength(docs, |poor|));
      if i :| 0 <= i < |terms| && Count(poor, terms[i]) < Count(rich, terms[i]) {
        assert i == |rest| || rest[i] == terms[i];
      }
    }
  }

  // Leaving out one element and then the last one is leaving them out in the other order.
  lemma WithoutOneAndLast(terms: seq<string>, i: nat)
    requires i < |terms| - 1
    ensures var rest, without := terms[..|terms| - 1], terms[..i] + terms[i + 1..];
            && without != [] && without[|without| - 1] == terms[|terms| - 1]
            && without[..|without| - 1] == rest[..i] + rest[i + 1..]
  {
  }

  lemma {:induction false} ScoreSwapsOut(ln: real -> real, docs: seq<seq<string>>, terms: seq<string>, doc: seq<string>,
                                         i: nat)
    requires i < |terms|
    ensures Score(ln, docs, terms, doc)
         == Score(ln, docs, terms[..i] + terms[i + 1..], doc)
            + TermScore(Idf(ln, docs, terms[i]), Count(doc, terms[i]), NormLength(docs, |doc|))
  {
    if i == |terms| - 1 {
      assert terms[..i] + terms[i + 1..] == terms[..i];
    } else {
      ScoreSwapsOut(ln, docs, terms[..|terms| - 1], doc, i);
      WithoutOneAndLast(terms, i);
    }
  }

  // The order in which the set of terms is visited does not matter.
  lemma {:induction false} ScoreIgnoresOrder(ln: real -> real, docs: seq<seq<string>>, a: seq<string>, b: seq<string>,
                                             doc: seq<string>)
    requires multiset(a) == multiset(b)
    ensures Score(ln, docs, a, doc) == Score(ln, docs, b, doc)
    decreases |a|
  {
    if a == [] {
      assert |b| == |multiset(b)|;
    } else {
      var i := WithoutLast(a, b);
      ScoreSwapsOut(ln, docs, b, doc, i);
      ScoreIgnoresOrder(ln, docs, a[..|a| - 1], b[..i] + b[i + 1..], doc);
    }
  }

  /* The numbers behind a score, each by what it counts. */

  lemma {:induction false} CountIsMultiplicity(doc: seq<string>, term: string)
    ensures Count(doc, term) == multiset(doc)[term]
  {
    if doc == [] {
    } else {
      CountIsMultiplicity(doc[1..], term);
      assert doc == [doc[0]] + doc[1..];
    }
  }

  lemma {:induction false} DocFreqOfSplit(before: seq<seq<string>>, doc: seq<string>, after: seq<seq<string>>,
                                          term: string)
    ensures DocFreq(before + [doc] + after, term)
         == DocFreq(before, term) + (if term in doc then 1 else 0) + DocFreq(after, term)
  {
    var all := before + [doc] + after;
    CountIsMultiplicity(doc, term);
    if before == [] {
      assert all[1..] == after;
    } else {
      DocFreqOfSplit(before[1..], doc, after, term);
      assert all[1..] == before[1..] + [doc] + after;
    }
  }

  lemma {:induction false} TotalLengthOfSplit(before: seq<seq<string>>, doc: seq<string>, after: seq<seq<string>>)
    ensures TotalLength(before + [doc] + after) == TotalLength(before) + |doc| + TotalLength(after)
  {
    var all := before + [doc] + after;
    if before == [] {
      assert all[1..] == after;
    } else {
      TotalLengthOfSplit(before[1..], doc, after);
      assert all[1..] == before[1..] + [doc] + after;
    }
  }

  lemma Multiplied(top: real, bottom: real)
    requires bottom > 0.0
    ensures top / bottom * bottom == top
  {
  }

  // The average length times the number of documents is their total length, and a length relative to an average
  // times that average is the length.
  lemma NormFormula(total: real, n: real, length: real, average: real)
    requires total > 0.0 && n > 0.0 && average > 0.0
    ensures Average(total, n) * n == total && Relative(length, average) * average == length
  {
    Multiplied(total, n);
    Multiplied(length, average);
  }

  // A term's score, without a quotient: idf times 2.5 f over f + 1.5 (0.25 + 0.75 norm).
  lemma TermScoreFormula(idf: real, frequency: nat, f: real, norm: real)
    requires norm >= 0.0 && f == frequency as real
    ensures TermScore(idf, frequency, norm) * (f + 1.5 * (0.25 + 0.75 * norm)) == idf * (2.5 * f)
  {
    var bottom := f + K1 * (1.0 - B + B * norm);
    assert bottom == f + 1.5 * (0.25 + 0.75 * norm);
    if frequency > 0 {
      var top := idf * (f * (K1 + 1.0));
      assert f * (K1 + 1.0) == 2.5 * f;
      Multiplied(top, bottom);
    }
  }

  // A term's weight is the logarithm of the number of documents plus 1 over those that hold the term plus a half.
  lemma IdfFormula(ln: real -> real, docs: seq<seq<string>>, term: string) returns (x: real)
    ensures Idf(ln, docs, term) == ln(x) && x * ((DocFreq(docs, term) as real) + 0.5) == (|docs| as real) + 1.0
  {
    var n, df := |docs| as real, DocFreq(docs, term) as real;
    x := (n - df + 0.5) / (df + 0.5) + 1.0;
    Multiplied(n - df + 0.5, df + 0.5);
  }

  lemma SmallerQuotient(a: real, b: real, x: real, y: real)
    requires 0.0 < a < b && 0.0 < y < x
    ensures a / x < b / y
  {
    var p, q := a / x, b / y;
    assert p * x == a && q * y == b;
    PositiveQuotient(b, y);
    if p >= q {
      ProductOrder(q, p, x);
      ProductOrder(y, x, q);
    }
  }

  // The rarer a term, the more it weighs.
  lemma RarerWeighsMore(ln: real -> real, docs: seq<seq<string>>, rare: string, common: string)
    requires IsLogarithm(ln) && DocFreq(docs, rare) < DocFreq(docs, common)
    ensures Idf(ln, docs, rare) > Idf(ln, docs, common)
  {
    var n, df, more := |docs| as real, DocFreq(docs, rare) as real, DocFreq(docs, common) as real;
    SmallerQuotient(n - more + 0.5, n - df + 0.5, more + 0.5, df + 0.5);
    QuotientAboveOne(n - more + 0.5, more + 0.5);
  }

  lemma SmallerDivisor(w: real, x: real, y: real)
    requires w > 0.0 && 0.0 < x < y
    ensures w / y < w / x
  {
    var p, q := w / x, w / y;
    assert p * x == w && q * y == w;
    PositiveQuotient(w, y);
    if q >= p {
      ProductOrder(p, q, x);
      assert q * x < q * y;
    }
  }

  lemma ShorterNorm(docs: seq<seq<string>>, short: nat, long: nat)
    requires TotalLength(docs) > 0 && short < long
    ensures NormLength(docs, short) < NormLength(docs, long)
  {
    SmallerRelative(short as real, long as real, Average(TotalLength(docs) as real, |docs| as real));
  }

  lemma SmallerRelative(x: real, y: real, d: real)
    requires x < y && d > 0.0
    ensures Relative(x, d) < Relative(y, d)
  {
    Multiplied(x, d);
    Multiplied(y, d);
    SmallerFactor(x / d, y / d, d);
  }

  lemma SmallerFactor(x: real, y: real, d: real)
    requires x * d < y * d && d > 0.0
    ensures x < y
  {
    if x >= y {
      ProductOrder(y, x, d);
    }
  }

  lemma TermScoreOfShorter(idf: real, frequency: nat, short: real, long: real)
    requires idf > 0.0 && 0.0 <= short < long
    ensures TermScore(idf, frequency, short) >= TermScore(idf, frequency, long)
    ensures frequency > 0 ==> TermScore(idf, frequency, short) > TermScore(idf, frequency, long)
  {
    if frequency > 0 {
      var f := frequency as real;
      SmallerDivisor(idf * (f * (K1 + 1.0)), f + K1 * (1.0 - B + B * short), f + K1 * (1.0 - B + B * long));
    }
  }

  // Of two documents with the same counts of the query's terms, some of them positive, the shorter scores higher.
  lemma {:induction false} ShorterScoresHigher(ln: real -> real, docs: seq<seq<string>>, terms: seq<string>,
                                               short: seq<string>, long: seq<string>)
    requires IsLogarithm(ln) && TotalLength(docs) > 0 && |short| < |long|
    requires forall i :: 0 <= i < |terms| ==> Count(short, terms[i]) == Count(long, terms[i])
    ensures Score(ln, docs, terms, short) >= Score(ln, docs, terms, long)
    ensures Shares(terms, short) ==> Score(ln, docs, terms, short) > Score(ln, docs, terms, long)
  {
    if terms == [] {
    } else {
      var rest, term := terms[..|terms| - 1], terms[|terms| - 1];
      ShorterScoresHigher(ln, docs, rest, short, long);
      SharesLast(terms, short);
      IdfIsPositive(ln, docs, term);
      ShorterNorm(docs, |short|, |long|);
      TermScoreOfShorter(Idf(ln, docs, term), Count(short, term), NormLength(docs, |short|), NormLength(docs, |long|));
    }
  }
}
