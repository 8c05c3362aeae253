/** The simplified BM25 formula and what it prefers. */
module SearchFormula {
  import opened Collections
  import opened SearchIndex
  import opened SearchRanking
  import opened Sums

  const K1 := 1.2

  const B := 0.75

  function Idf(log: real -> real, n: nat, df: nat): real {
    log(1.0 + (n as real - df as real + 0.5) / (df as real + 0.5))
  }

  function NormalizedTf(tf: nat, len: nat, avg: real): real {
    if avg == 0.0 then tf as real else
    var denominator := tf as real + K1 * (1.0 - B + B * len as real / avg);
    if denominator == 0.0 then 0.0 else tf as real * (K1 + 1.0) / denominator
  }

  function Bm25(log: real -> real): Weigh {
    (n: nat, df: nat, tf: nat, len: nat, avg: real) => Idf(log, n, df) * NormalizedTf(tf, len, avg)
  }

  /** Positive above 1 and strictly increasing there. */
  ghost predicate Logarithmic(log: real -> real) {
    && (forall x | x > 1.0 :: log(x) > 0.0)
    && forall x, y | 1.0 < x < y :: log(x) < log(y)
  }

  // ---- arithmetic ----

  lemma QuotientNotNegative(a: real, b: real)
    requires a >= 0.0 && b > 0.0
    ensures a / b >= 0.0
  {
  }

  lemma ProductPositive(a: real, b: real)
    requires a > 0.0 && b > 0.0
    ensures a * b > 0.0
  {
  }

  lemma ProductLess(a: real, b: real, c: real)
    requires a < b && c > 0.0
    ensures a * c < b * c && c * a < c * b
  {
  }

  lemma QuotientIs(a: real, b: real, x: real)
    requires b > 0.0 && x * b == a
    ensures a / b == x
  {
  }

  lemma ProductLeast(a: real, b: real, c: real)
    requires a >= b && c > 0.0
    ensures a * c >= b * c
  {
  }

  lemma CrossLeast(x: real, y: real, b: real, d: real)
    requires x >= y && b > 0.0 && d > 0.0
    ensures x * b * d >= y * d * b
  {
    ProductLeast(x, y, b);
    ProductLeast(x * b, y * b, d);
    assert y * b * d == y * d * b;
  }

  /** Comparing two quotients by their cross products. */
  lemma QuotientLess(a: real, b: real, c: real, d: real)
    requires b > 0.0 && d > 0.0 && a * d < c * b
    ensures a / b < c / d
  {
    var x, y := a / b, c / d;
    assert x * b == a && y * d == c;
    if x >= y {
      CrossLeast(x, y, b, d);
    }
  }

  // ---- the inverse document frequency ----

  /** The argument of the logarithm is a plain quotient, above 1 for a token that occurs. */
  lemma IdfIs(log: real -> real, n: nat, df: nat)
    ensures Idf(log, n, df) == log((n as real + 1.0) / (df as real + 0.5))
    ensures df <= n ==> (n as real + 1.0) / (df as real + 0.5) > 1.0
  {
    var d := df as real + 0.5;
    var x := (n as real - df as real + 0.5) / d;
    assert x * d == n as real - df as real + 0.5;
    assert (1.0 + x) * d == n as real + 1.0;
    QuotientIs(n as real + 1.0, d, 1.0 + x);
    if df <= n {
      QuotientPositive(n as real - df as real + 0.5, d);
    }
  }

  /** Rarer tokens weigh more. */
  lemma IdfFalls(log: real -> real, n: nat, df: nat, df': nat)
    requires Logarithmic(log) && df < df' <= n
    ensures Idf(log, n, df) > Idf(log, n, df') > 0.0
  {
    IdfIs(log, n, df);
    IdfIs(log, n, df');
    ProductLess(df as real + 0.5, df' as real + 0.5, n as real + 1.0);
    QuotientLess(n as real + 1.0, df' as real + 0.5, n as real + 1.0, df as real + 0.5);
  }

  // ---- the normalised term frequency ----

  /** What a document's length adds to the denominator. */
  function LengthPart(len: nat, avg: real): real
    requires avg > 0.0
  {
    K1 * (1.0 - B + B * len as real / avg)
  }

  lemma LengthPartIs(len: nat, avg: real)
    requires avg > 0.0
    ensures LengthPart(len, avg) > 0.0
    ensures len as real == avg ==> LengthPart(len, avg) == K1
  {
    QuotientNotNegative(B * len as real, avg);
  }

  lemma LengthPartRises(len: nat, len': nat, avg: real)
    requires avg > 0.0 && len < len'
    ensures LengthPart(len, avg) < LengthPart(len', avg)
  {
    ProductLess(B * len as real, B * len' as real, avg);
    QuotientLess(B * len as real, avg, B * len' as real, avg);
  }

  lemma NormalizedTfIs(tf: nat, len: nat, avg: real)
    requires avg > 0.0
    ensures tf as real + LengthPart(len, avg) > 0.0
    ensures NormalizedTf(tf, len, avg) == tf as real * (K1 + 1.0) / (tf as real + LengthPart(len, avg))
  {
    LengthPartIs(len, avg);
  }

  lemma CrossRises(t: real, t': real, c: real, a: real, a': real)
    requires t * c < t' * c && a == t * (K1 + 1.0) && a' == t' * (K1 + 1.0)
    ensures a * (t' + c) < a' * (t + c)
  {
    assert t * (t' + c) < t' * (t + c);
    ProductLess(t * (t' + c), t' * (t + c), K1 + 1.0);
    assert a * (t' + c) == t * (t' + c) * (K1 + 1.0);
    assert a' * (t + c) == t' * (t + c) * (K1 + 1.0);
  }

  lemma SaturationBound(t: real, c: real)
    requires t >= 0.0 && c > 0.0
    ensures 0.0 <= t * (K1 + 1.0) / (t + c) < K1 + 1.0
  {
    QuotientNotNegative(t * (K1 + 1.0), t + c);
    QuotientLess(t * (K1 + 1.0), t + c, K1 + 1.0, 1.0);
  }

  lemma SaturationRises(t: real, t': real, c: real)
    requires 0.0 <= t < t' && c > 0.0
    ensures 0.0 <= t * (K1 + 1.0) / (t + c) < t' * (K1 + 1.0) / (t' + c) < K1 + 1.0
  {
    SaturationBound(t, c);
    SaturationBound(t', c);
    ProductLess(t, t', c);
    var a, a' := t * (K1 + 1.0), t' * (K1 + 1.0);
    CrossRises(t, t', c, a, a');
    QuotientLess(a, t + c, a', t' + c);
  }

  /** More occurrences count for more, but never for more than the bound. */
  lemma NormalizedTfRises(tf: nat, tf': nat, len: nat, avg: real)
    requires avg > 0.0 && tf < tf'
    ensures 0.0 <= NormalizedTf(tf, len, avg) < NormalizedTf(tf', len, avg) < K1 + 1.0
  {
    LengthPartIs(len, avg);
    NormalizedTfIs(tf, len, avg);
    NormalizedTfIs(tf', len, avg);
    SaturationRises(tf as real, tf' as real, LengthPart(len, avg));
  }

  /** Longer documents count for less. */
  lemma NormalizedTfFalls(tf: nat, len: nat, len': nat, avg: real)
    requires avg > 0.0 && tf > 0 && len < len'
    ensures NormalizedTf(tf, len, avg) > NormalizedTf(tf, len', avg) > 0.0
  {
    var a, d, d' := tf as real * (K1 + 1.0), tf as real + LengthPart(len, avg), tf as real + LengthPart(len', avg);
    NormalizedTfIs(tf, len, avg);
    NormalizedTfIs(tf, len', avg);
    LengthPartRises(len, len', avg);
    ProductLess(d, d', a);
    QuotientLess(a, d', a, d);
    QuotientPositive(a, d');
  }

  // ---- the formula ----

  lemma NormalizedTfPositive(tf: nat, len: nat, avg: real)
    requires tf > 0 && avg > 0.0
    ensures NormalizedTf(tf, len, avg) > 0.0
  {
    NormalizedTfRises(0, tf, len, avg);
  }

  lemma Bm25IsPositive(log: real -> real)
    requires forall x | x > 1.0 :: log(x) > 0.0
    ensures PositiveWeigh(Bm25(log))
  {
    forall n: nat, df: nat, tf: nat, len: nat, avg: real | 0 < df <= n && tf > 0 && avg > 0.0
      ensures Bm25(log)(n, df, tf, len, avg) > 0.0
    {
      IdfIs(log, n, df);
      NormalizedTfPositive(tf, len, avg);
      ProductPositive(Idf(log, n, df), NormalizedTf(tf, len, avg));
    }
  }

  lemma Bm25IsProduct(log: real -> real, n: nat, df: nat, tf: nat, len: nat, avg: real)
    ensures Bm25(log)(n, df, tf, len, avg) == Idf(log, n, df) * NormalizedTf(tf, len, avg)
  {
  }

  /** The fewer documents hold the token, the more it weighs. */
  lemma RarerWeighsMore(log: real -> real, n: nat, df: nat, df': nat, tf: nat, len: nat, avg: real)
    requires Logarithmic(log) && df < df' <= n && tf > 0 && avg > 0.0
    ensures Bm25(log)(n, df, tf, len, avg) > Bm25(log)(n, df', tf, len, avg)
  {
    Bm25IsProduct(log, n, df, tf, len, avg);
    Bm25IsProduct(log, n, df', tf, len, avg);
    IdfFalls(log, n, df, df');
    NormalizedTfPositive(tf, len, avg);
    ProductLess(Idf(log, n, df'), Idf(log, n, df), NormalizedTf(tf, len, avg));
  }

  /** The more often the document holds the token, the more it weighs, up to 2.2 times its logarithm. */
  lemma OftenWeighsMore(log: real -> real, n: nat, df: nat, tf: nat, tf': nat, len: nat, avg: real)
    requires Logarithmic(log) && df <= n && tf < tf' && avg > 0.0
    ensures Bm25(log)(n, df, tf, len, avg) < Bm25(log)(n, df, tf', len, avg)
    ensures Bm25(log)(n, df, tf', len, avg) < 2.2 * log((n as real + 1.0) / (df as real + 0.5))
  {
    Bm25IsProduct(log, n, df, tf, len, avg);
    Bm25IsProduct(log, n, df, tf', len, avg);
    IdfIs(log, n, df);
    NormalizedTfRises(tf, tf', len, avg);
    ProductLess(NormalizedTf(tf, len, avg), NormalizedTf(tf', len, avg), Idf(log, n, df));
    ProductLess(NormalizedTf(tf', len, avg), K1 + 1.0, Idf(log, n, df));
  }

  /** The longer the document, the less it weighs. */
  lemma LongerWeighsLess(log: real -> real, n: nat, df: nat, tf: nat, len: nat, len': nat, avg: real)
    requires Logarithmic(log) && df <= n && tf > 0 && len < len' && avg > 0.0
    ensures Bm25(log)(n, df, tf, len, avg) > Bm25(log)(n, df, tf, len', avg)
  {
    Bm25IsProduct(log, n, df, tf, len, avg);
    Bm25IsProduct(log, n, df, tf, len', avg);
    IdfIs(log, n, df);
    NormalizedTfFalls(tf, len, len', avg);
    ProductLess(NormalizedTf(tf, len', avg), NormalizedTf(tf, len, avg), Idf(log, n, df));
  }

  /** Once in a document of average length a token weighs just its logarithm. */
  lemma Bm25AtAverage(log: real -> real, n: nat, df: nat, len: nat)
    requires len > 0
    ensures Bm25(log)(n, df, 1, len, len as real) == log((n as real + 1.0) / (df as real + 0.5))
  {
    IdfIs(log, n, df);
    NormalizedTfIs(1, len, len as real);
    LengthPartIs(len, len as real);
    assert NormalizedTf(1, len, len as real) == 1.0;
  }

  /** Without an average length the count is taken as it is. */
  lemma Bm25WithoutAverage(log: real -> real, n: nat, df: nat, tf: nat, len: nat)
    ensures Bm25(log)(n, df, tf, len, 0.0) == log((n as real + 1.0) / (df as real + 0.5)) * tf as real
  {
    IdfIs(log, n, df);
  }

  // ---- what comes first ----

  ghost predicate RankedBefore(ranked: seq<(string, real)>, a: string, b: string) {
    exists i, j :: 0 <= i < j < |ranked| && ranked[i].0 == a && ranked[j].0 == b
  }

  lemma PlaceOf(weigh: Weigh, sp: Space, query: seq<string>, d: string) returns (k: nat)
    requires OrderOk(sp) && PositiveWeigh(weigh) && d in MatchingIds(sp.docs, query)
    ensures k < |Ranking(weigh, sp, query)|
    ensures Ranking(weigh, sp, query)[k] == (d, ScoreTo(weigh, sp.docs, query, d, |query|))
  {
    var ranked := Ranking(weigh, sp, query);
    RankingIs(weigh, sp, query);
    assert d in Ids(ranked);
    k :| 0 <= k < |ranked| && ranked[k].0 == d;
    assert ranked[k] in ranked;
  }

  /** Of two matching documents the one with the higher score comes first. */
  lemma HigherScoreFirst(weigh: Weigh, sp: Space, query: seq<string>, a: string, b: string)
    requires OrderOk(sp) && PositiveWeigh(weigh)
    requires a in MatchingIds(sp.docs, query) && b in MatchingIds(sp.docs, query)
    requires ScoreTo(weigh, sp.docs, query, a, |query|) > ScoreTo(weigh, sp.docs, query, b, |query|)
    ensures RankedBefore(Ranking(weigh, sp, query), a, b)
  {
    var i := PlaceOf(weigh, sp, query, a);
    var j := PlaceOf(weigh, sp, query, b);
    RankingIs(weigh, sp, query);
    assert i < j;
  }

  /** Of the query tokens the document holds just `t`. */
  ghost predicate HoldsOnly(docs: map<string, Document>, query: seq<string>, d: string, t: string) {
    && d in docs && t in query && Occurrences(docs[d], t) > 0
    && forall x | x in query && x != t :: Occurrences(docs[d], x) == 0
  }

  /** Then its score is the weight of this token, as often as the query holds it. */
  lemma {:induction false} ScoreOfOne(weigh: Weigh, docs: map<string, Document>, query: seq<string>, d: string,
                                      t: string, n: nat)
    requires HoldsOnly(docs, query, d, t) && n <= |query|
    ensures ScoreTo(weigh, docs, query, d, n) == Times(OccurrencesTo(query, t, n), TokenWeight(weigh, docs, t, d))
  {
    if n > 0 {
      ScoreOfOne(weigh, docs, query, d, t, n - 1);
      assert query[n - 1] in query;
    }
  }

  lemma OnlyMatches(docs: map<string, Document>, query: seq<string>, d: string, t: string)
    requires HoldsOnly(docs, query, d, t)
    ensures d in MatchingIds(docs, query) && docs[d].tokens != []
    ensures d in Holders(docs, t) && 0 < |Holders(docs, t)| <= |docs|
  {
    OccursIff(docs[d].tokens, t, |docs[d].tokens|);
    assert docs[d].tokens[..|docs[d].tokens|] == docs[d].tokens;
    assert Holders(docs, t) <= docs.Keys;
    SubsetSize(Holders(docs, t), docs.Keys);
    assert |docs.Keys| == |docs|;
  }

  lemma TimesLess(n: nat, x: real, y: real)
    requires n > 0 && x > y
    ensures Times(n, x) > Times(n, y)
  {
    TimesIsProduct(n, x);
    TimesIsProduct(n, y);
    ProductLess(y, x, n as real);
  }

  lemma HeavierFirst(log: real -> real, sp: Space, query: seq<string>, a: string, b: string, t: string, u: string)
    requires Logarithmic(log) && OrderOk(sp)
    requires HoldsOnly(sp.docs, query, a, t) && HoldsOnly(sp.docs, query, b, u)
    requires OccurrencesTo(query, t, |query|) == OccurrencesTo(query, u, |query|)
    requires TokenWeight(Bm25(log), sp.docs, t, a) > TokenWeight(Bm25(log), sp.docs, u, b)
    ensures RankedBefore(Ranking(Bm25(log), sp, query), a, b)
  {
    Bm25IsPositive(log);
    ScoreOfOne(Bm25(log), sp.docs, query, a, t, |query|);
    ScoreOfOne(Bm25(log), sp.docs, query, b, u, |query|);
    OnlyMatches(sp.docs, query, a, t);
    OnlyMatches(sp.docs, query, b, u);
    OccursIff(query, t, |query|);
    assert query[..|query|] == query;
    TimesLess(OccurrencesTo(query, t, |query|), TokenWeight(Bm25(log), sp.docs, t, a),
              TokenWeight(Bm25(log), sp.docs, u, b));
    HigherScoreFirst(Bm25(log), sp, query, a, b);
  }

  /** Of two equally long documents that hold one query token each, equally often, the one with the rarer token comes
      first. */
  lemma RarerTokenFirst(log: real -> real, sp: Space, query: seq<string>, a: string, b: string, t: string, u: string)
    requires Logarithmic(log) && OrderOk(sp)
    requires HoldsOnly(sp.docs, query, a, t) && HoldsOnly(sp.docs, query, b, u)
    requires OccurrencesTo(query, t, |query|) == OccurrencesTo(query, u, |query|)
    requires |sp.docs[a].tokens| == |sp.docs[b].tokens| && Occurrences(sp.docs[a], t) == Occurrences(sp.docs[b], u)
    requires |Holders(sp.docs, t)| < |Holders(sp.docs, u)|
    ensures RankedBefore(Ranking(Bm25(log), sp, query), a, b)
  {
    OnlyMatches(sp.docs, query, a, t);
    OnlyMatches(sp.docs, query, b, u);
    AveragePositive(sp.docs, a);
    RarerWeighsMore(log, |sp.docs|, |Holders(sp.docs, t)|, |Holders(sp.docs, u)|, Occurrences(sp.docs[a], t),
                    |sp.docs[a].tokens|, AverageLength(sp.docs));
    HeavierFirst(log, sp, query, a, b, t, u);
  }

  /** Of two equally long documents that hold the same query token the one that holds it more often comes first. */
  lemma MoreOftenFirst(log: real -> real, sp: Space, query: seq<string>, a: string, b: string, t: string)
    requires Logarithmic(log) && OrderOk(sp)
    requires HoldsOnly(sp.docs, query, a, t) && HoldsOnly(sp.docs, query, b, t)
    requires |sp.docs[a].tokens| == |sp.docs[b].tokens| && Occurrences(sp.docs[a], t) > Occurrences(sp.docs[b], t)
    ensures RankedBefore(Ranking(Bm25(log), sp, query), a, b)
  {
    OnlyMatches(sp.docs, query, a, t);
    OnlyMatches(sp.docs, query, b, t);
    AveragePositive(sp.docs, a);
    OftenWeighsMore(log, |sp.docs|, |Holders(sp.docs, t)|, Occurrences(sp.docs[b], t), Occurrences(sp.docs[a], t),
                    |sp.docs[a].tokens|, AverageLength(sp.docs));
    HeavierFirst(log, sp, query, a, b, t, t);
  }

  /** Of two documents that hold the same query token equally often the shorter one comes first. */
  lemma ShorterFirst(log: real -> real, sp: Space, query: seq<string>, a: string, b: string, t: string)
    requires Logarithmic(log) && OrderOk(sp)
    requires HoldsOnly(sp.docs, query, a, t) && HoldsOnly(sp.docs, query, b, t)
    requires |sp.docs[a].tokens| < |sp.docs[b].tokens| && Occurrences(sp.docs[a], t) == Occurrences(sp.docs[b], t)
    ensures RankedBefore(Ranking(Bm25(log), sp, query), a, b)
  {
    OnlyMatches(sp.docs, query, a, t);
    OnlyMatches(sp.docs, query, b, t);
    AveragePositive(sp.docs, a);
    LongerWeighsLess(log, |sp.docs|, |Holders(sp.docs, t)|, Occurrences(sp.docs[a], t), |sp.docs[a].tokens|,
                     |sp.docs[b].tokens|, AverageLength(sp.docs));
    HeavierFirst(log, sp, query, a, b, t, t);
  }

  // ---- a collection of equally long documents ----

  lemma {:induction false} SumEqual(ids: set<string>, f: string -> real, x: real)
    requires forall d | d in ids :: f(d) == x
    ensures SumOver(ids, f) == |ids| as real * x
  {
    if ids != {} {
      var d :| d in ids;
      SumTakeOut(ids, f, d);
      SumEqual(ids - {d}, f, x);
    }
  }

  lemma AverageOfEqual(docs: map<string, Document>, len: nat)
    requires docs != map[] && forall d | d in docs :: |docs[d].tokens| == len
    ensures AverageLength(docs) == len as real
  {
    SumEqual(docs.Keys, LengthOf(docs), len as real);
    assert |docs| as real > 0.0;
    QuotientIs(|docs| as real * len as real, |docs| as real, len as real);
  }

  /** Where all documents are equally long, one that holds the only query token once has the logarithm for its score. */
  lemma PlainScore(log: real -> real, docs: map<string, Document>, t: string, d: string, len: nat)
    requires (forall x | x in docs :: |docs[x].tokens| == len) && d in docs && Occurrences(docs[d], t) == 1
    ensures ScoreTo(Bm25(log), docs, [t], d, 1) == log((|docs| as real + 1.0) / (|Holders(docs, t)| as real + 0.5))
  {
    AverageOfEqual(docs, len);
    OccursIff(docs[d].tokens, t, |docs[d].tokens|);
    Bm25AtAverage(log, |docs|, |Holders(docs, t)|, len);
    assert ScoreTo(Bm25(log), docs, [t], d, 0) == 0.0;
    assert d in Holders(docs, t);
  }
}
