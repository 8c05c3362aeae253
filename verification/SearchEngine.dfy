/** Ranking through the inverted index, against ranking by scanning the documents; and the engine itself. */
module SearchRanking {
  import opened Collections
  import opened SearchIndex
  import opened Sums

  /** What one query token adds to the score of a document that contains it: from the number of documents, the number
      that contain the token, its count in the document, the document's length and the average length. */
  type Weigh = (nat, nat, nat, nat, real) -> real

  // ---- the scan ----

  ghost function LengthOf(docs: map<string, Document>): string -> real {
    d => if d in docs then |docs[d].tokens| as real else 0.0
  }

  ghost function AverageLength(docs: map<string, Document>): real {
    if docs.Keys == {} then 0.0 else SumOver(docs.Keys, LengthOf(docs)) / |docs| as real
  }

  ghost function TokenWeight(weigh: Weigh, docs: map<string, Document>, t: string, d: string): real {
    if d in Holders(docs, t)
    then weigh(|docs|, |Holders(docs, t)|, Occurrences(docs[d], t), |docs[d].tokens|, AverageLength(docs))
    else 0.0
  }

  /** The score of `d` for the first `n` query tokens; a repeated token counts each time. */
  ghost function ScoreTo(weigh: Weigh, docs: map<string, Document>, query: seq<string>, d: string, n: nat): real
    requires n <= |query|
  {
    if n == 0 then 0.0 else
    ScoreTo(weigh, docs, query, d, n - 1) + TokenWeight(weigh, docs, query[n - 1], d)
  }

  ghost function NewIn(before: seq<string>, more: seq<string>): seq<string> {
    Keep(more, Elements(more) - Elements(before))
  }

  /** The documents hit by the first `n` query tokens, in the order they are first hit; for one token, in write order.
      */
  ghost function HitsTo(docs: map<string, Document>, order: seq<string>, query: seq<string>, n: nat): seq<string>
    requires n <= |query|
  {
    if n == 0 then [] else
    var before := HitsTo(docs, order, query, n - 1);
    before + NewIn(before, Keep(order, Holders(docs, query[n - 1])))
  }

  /** The hits with their scores. */
  ghost function ScoredHits(weigh: Weigh, sp: Space, query: seq<string>): seq<(string, real)> {
    var hits := HitsTo(sp.docs, sp.order, query, |query|);
    seq(|hits|, k requires 0 <= k < |hits| => (hits[k], ScoreTo(weigh, sp.docs, query, hits[k], |query|)))
  }

  /** Larger scores first. */
  function ByScore(): ((string, real)) -> real {
    (item: (string, real)) => -item.1
  }

  /** The ranking by scanning the documents: no index involved. */
  ghost function Ranking(weigh: Weigh, sp: Space, query: seq<string>): seq<(string, real)> {
    SortByKey(ScoredHits(weigh, sp, query), ByScore())
  }

  /** The part of a ranking from `offset` on, at most `size` long. */
  function Page<T>(ranked: seq<T>, offset: nat, size: nat): seq<T> {
    ranked[Min(offset, |ranked|)..Min(offset + size, |ranked|)]
  }

  // ---- accumulating through the index ----

  type Scores = Dict<string, real>

  function Plus(scores: Scores, d: string, w: real): Scores {
    scores.Put(d, (if d in scores.at then scores.at[d] else 0.0) + w)
  }

  /** The scores after adding `weights` of the first `n` ids of a posting list. */
  ghost function AddedTo(scores: Scores, ids: seq<string>, weight: string -> real, n: nat): Scores
    requires n <= |ids|
  {
    if n == 0 then scores else Plus(AddedTo(scores, ids, weight, n - 1), ids[n - 1], weight(ids[n - 1]))
  }

  function ScoreIn(scores: Scores, d: string): real {
    if d in scores.at then scores.at[d] else 0.0
  }

  lemma PlusScore(scores: Scores, id: string, w: real, d: string)
    ensures ScoreIn(Plus(scores, id, w), d) == ScoreIn(scores, d) + (if d == id then w else 0.0)
    ensures d in Plus(scores, id, w).at <==> d in scores.at || d == id
  {
  }

  lemma InLonger(ids: seq<string>, n: nat, d: string)
    requires 0 < n <= |ids| && Distinct(ids)
    ensures d in ids[..n] <==> d in ids[..n - 1] || d == ids[n - 1]
    ensures ids[n - 1] !in ids[..n - 1]
  {
    assert ids[..n] == ids[..n - 1] + [ids[n - 1]];
  }

  /** Walking one posting list adds its weight to each of its documents once. */
  lemma {:induction false} AddedScore(scores: Scores, ids: seq<string>, weight: string -> real, n: nat, d: string)
    requires n <= |ids| && Distinct(ids)
    ensures ScoreIn(AddedTo(scores, ids, weight, n), d)
            == ScoreIn(scores, d) + (if d in ids[..n] then weight(d) else 0.0)
    ensures d in AddedTo(scores, ids, weight, n).at <==> d in scores.at || d in ids[..n]
  {
    if n > 0 {
      AddedScore(scores, ids, weight, n - 1, d);
      PlusScore(AddedTo(scores, ids, weight, n - 1), ids[n - 1], weight(ids[n - 1]), d);
      InLonger(ids, n, d);
    }
  }

  lemma KeepOneMore(ids: seq<string>, kept: set<string>, n: nat)
    requires 0 < n <= |ids|
    ensures KeepTo(ids, kept, n) == KeepTo(ids, kept, n - 1) + (if ids[n - 1] in kept then [ids[n - 1]] else [])
  {
  }

  lemma NextIsNewIff(scores: Scores, ids: seq<string>, weight: string -> real, n: nat)
    requires 0 < n <= |ids| && Distinct(ids) && Elements(scores.keys) == scores.at.Keys
    ensures ids[n - 1] in AddedTo(scores, ids, weight, n - 1).at <==> ids[n - 1] in Elements(scores.keys)
    ensures ids[n - 1] in Elements(ids)
  {
    AddedScore(scores, ids, weight, n - 1, ids[n - 1]);
    assert ids[n - 1] !in ids[..n - 1];
  }

  lemma PlusKeys(scores: Scores, d: string, w: real)
    requires Elements(scores.keys) == scores.at.Keys
    ensures Plus(scores, d, w).keys == if d in scores.at then scores.keys else scores.keys + [d]
    ensures Elements(Plus(scores, d, w).keys) == Plus(scores, d, w).at.Keys
  {
    ElementsSnoc(scores.keys, d);
  }

  lemma NextKeys(scores: Scores, ids: seq<string>, weight: string -> real, n: nat, added: Scores)
    requires 0 < n <= |ids| && Distinct(ids) && Elements(scores.keys) == scores.at.Keys
    requires added == AddedTo(scores, ids, weight, n - 1) && Elements(added.keys) == added.at.Keys
    requires added.keys == scores.keys + KeepTo(ids, Elements(ids) - Elements(scores.keys), n - 1)
    ensures var added' := Plus(added, ids[n - 1], weight(ids[n - 1]));
            && added'.keys == scores.keys + KeepTo(ids, Elements(ids) - Elements(scores.keys), n)
            && Elements(added'.keys) == added'.at.Keys
  {
    NextIsNewIff(scores, ids, weight, n);
    PlusKeys(added, ids[n - 1], weight(ids[n - 1]));
    KeepOneMore(ids, Elements(ids) - Elements(scores.keys), n);
  }

  /** It puts the new ones behind those already hit. */
  lemma {:induction false} AddedKeys(scores: Scores, ids: seq<string>, weight: string -> real, n: nat)
    requires n <= |ids| && Distinct(ids) && Elements(scores.keys) == scores.at.Keys
    ensures AddedTo(scores, ids, weight, n).keys == scores.keys + KeepTo(ids, Elements(ids) - Elements(scores.keys), n)
    ensures Elements(AddedTo(scores, ids, weight, n).keys) == AddedTo(scores, ids, weight, n).at.Keys
  {
    if n > 0 {
      AddedKeys(scores, ids, weight, n - 1);
      NextKeys(scores, ids, weight, n, AddedTo(scores, ids, weight, n - 1));
    }
  }

  /** The accumulated scores are those of the scan: the right documents in the right order with the right sums. */
  ghost predicate ScoresOk(weigh: Weigh, sp: Space, query: seq<string>, n: nat, scores: Scores)
    requires n <= |query|
  {
    && scores.keys == HitsTo(sp.docs, sp.order, query, n)
    && Elements(scores.keys) == scores.at.Keys
    && forall d :: ScoreIn(scores, d) == ScoreTo(weigh, sp.docs, query, d, n)
  }

  ghost function WeightOfToken(weigh: Weigh, docs: map<string, Document>, t: string): string -> real {
    d => TokenWeight(weigh, docs, t, d)
  }

  ghost function TokenAdded(weigh: Weigh, sp: Space, t: string, scores: Scores): Scores {
    AddedTo(scores, PostingsOf(sp.terms, t).keys, WeightOfToken(weigh, sp.docs, t), |PostingsOf(sp.terms, t).keys|)
  }

  lemma PostingsAreHolders(sp: Space, t: string)
    requires IndexOk(sp)
    ensures Distinct(PostingsOf(sp.terms, t).keys)
    ensures PostingsOf(sp.terms, t).keys == Keep(sp.order, Holders(sp.docs, t))
    ensures Elements(PostingsOf(sp.terms, t).keys) == Holders(sp.docs, t)
    ensures |PostingsOf(sp.terms, t).keys| == |Holders(sp.docs, t)|
  {
    assert TermOk(sp, t);
    var ids := PostingsOf(sp.terms, t).keys;
    KeepToDistinct(sp.order, Holders(sp.docs, t), |sp.order|);
    KeepMembers(sp.order, Holders(sp.docs, t));
    forall d ensures d in Elements(ids) <==> d in Holders(sp.docs, t) {
      assert d in Holders(sp.docs, t) ==> d in Elements(sp.order);
    }
    assert Elements(ids) == Holders(sp.docs, t);
    DistinctSize(ids);
  }

  /** Walking the posting list of one token takes the scores of the scan one token further. */
  lemma TokenKeepsScores(weigh: Weigh, sp: Space, query: seq<string>, n: nat, scores: Scores)
    requires IndexOk(sp) && n < |query| && ScoresOk(weigh, sp, query, n, scores)
    ensures ScoresOk(weigh, sp, query, n + 1, TokenAdded(weigh, sp, query[n], scores))
  {
    var t, ids, weight := query[n], PostingsOf(sp.terms, query[n]).keys, WeightOfToken(weigh, sp.docs, query[n]);
    PostingsAreHolders(sp, t);
    AddedKeys(scores, ids, weight, |ids|);
    assert ids[..|ids|] == ids;
    forall d ensures ScoreIn(AddedTo(scores, ids, weight, |ids|), d) == ScoreTo(weigh, sp.docs, query, d, n + 1) {
      AddedScore(scores, ids, weight, |ids|, d);
      assert d in ids <==> d in Elements(ids);
    }
  }

  // ---- what the ranking promises ----

  /** A weight of a token that occurs is positive. */
  ghost predicate PositiveWeigh(weigh: Weigh) {
    forall n: nat, df: nat, tf: nat, len: nat, avg: real | 0 < df <= n && tf > 0 && avg > 0.0 ::
      weigh(n, df, tf, len, avg) > 0.0
  }

  ghost predicate Matches(doc: Document, query: seq<string>) {
    exists t :: t in query && t in doc.tokens
  }

  lemma {:induction false} OccursIff(tokens: seq<string>, t: string, n: nat)
    requires n <= |tokens|
    ensures OccurrencesTo(tokens, t, n) > 0 <==> t in tokens[..n]
  {
    if n > 0 {
      OccursIff(tokens, t, n - 1);
      assert tokens[..n] == tokens[..n - 1] + [tokens[n - 1]];
    }
  }

  lemma JoinedDistinct(a: seq<string>, b: seq<string>)
    requires Distinct(a) && Distinct(b) && forall d | d in b :: d !in Elements(a)
    ensures Distinct(a + b)
  {
    forall i, j | 0 <= i < j < |a + b| ensures (a + b)[i] != (a + b)[j] {
      if i < |a| <= j {
        assert (a + b)[i] in Elements(a) && (a + b)[j] in b;
      }
    }
  }

  /** One of the first `n` query tokens is in the document. */
  ghost predicate HitBy(docs: map<string, Document>, query: seq<string>, n: nat, d: string)
    requires n <= |query|
  {
    exists k :: 0 <= k < n && d in Holders(docs, query[k])
  }

  lemma HitByOneMore(docs: map<string, Document>, query: seq<string>, n: nat, d: string)
    requires 0 < n <= |query|
    ensures HitBy(docs, query, n, d) <==> HitBy(docs, query, n - 1, d) || d in Holders(docs, query[n - 1])
  {
  }

  /** Joining the new ones of `more` to `before` joins the two, without repetitions. */
  lemma JoinNew(before: seq<string>, more: seq<string>)
    requires Distinct(before) && Distinct(more)
    ensures Distinct(before + NewIn(before, more))
    ensures forall d :: d in before + NewIn(before, more) <==> d in before || d in more
  {
    KeepToDistinct(more, Elements(more) - Elements(before), |more|);
    KeepMembers(more, Elements(more) - Elements(before));
    JoinedDistinct(before, NewIn(before, more));
  }

  /** The hits of the first `n` tokens are, once each, the documents that contain one of them. */
  lemma {:induction false} HitsAre(docs: map<string, Document>, order: seq<string>, query: seq<string>, n: nat)
    requires n <= |query| && Distinct(order) && Elements(order) == docs.Keys
    ensures Distinct(HitsTo(docs, order, query, n))
    ensures forall d :: d in HitsTo(docs, order, query, n) <==> HitBy(docs, query, n, d)
  {
    if n > 0 {
      HitsAre(docs, order, query, n - 1);
      var holders := Holders(docs, query[n - 1]);
      KeepToDistinct(order, holders, |order|);
      KeepMembers(order, holders);
      JoinNew(HitsTo(docs, order, query, n - 1), Keep(order, holders));
      forall d ensures d in HitsTo(docs, order, query, n) <==> HitBy(docs, query, n, d) {
        HitByOneMore(docs, query, n, d);
        assert d in holders ==> d in Elements(order);
      }
    }
  }

  lemma HitsMatch(sp: Space, query: seq<string>)
    requires OrderOk(sp)
    ensures Distinct(HitsTo(sp.docs, sp.order, query, |query|))
    ensures forall d :: d in HitsTo(sp.docs, sp.order, query, |query|) <==> d in sp.docs && Matches(sp.docs[d], query)
  {
    HitsAre(sp.docs, sp.order, query, |query|);
    forall d
      ensures HitBy(sp.docs, query, |query|, d) <==> d in sp.docs && Matches(sp.docs[d], query)
    {
      if d in sp.docs {
        forall t ensures d in Holders(sp.docs, t) <==> t in sp.docs[d].tokens {
          OccursIff(sp.docs[d].tokens, t, |sp.docs[d].tokens|);
          assert sp.docs[d].tokens[..|sp.docs[d].tokens|] == sp.docs[d].tokens;
        }
      }
    }
  }

  lemma QuotientPositive(a: real, b: real)
    requires a > 0.0 && b > 0.0
    ensures a / b > 0.0
  {
  }

  lemma AveragePositive(docs: map<string, Document>, d: string)
    requires d in docs && docs[d].tokens != []
    ensures AverageLength(docs) > 0.0
  {
    SumTakeOut(docs.Keys, LengthOf(docs), d);
    SumZero(docs.Keys - {d}, LengthOf(docs));
    assert |docs| as real > 0.0;
    QuotientPositive(SumOver(docs.Keys, LengthOf(docs)), |docs| as real);
  }

  lemma TokenWeightPositive(weigh: Weigh, docs: map<string, Document>, t: string, d: string)
    requires PositiveWeigh(weigh)
    ensures TokenWeight(weigh, docs, t, d) >= 0.0
    ensures d in Holders(docs, t) ==> TokenWeight(weigh, docs, t, d) > 0.0
  {
    if d in Holders(docs, t) {
      AveragePositive(docs, d);
      assert Holders(docs, t) <= docs.Keys;
      SubsetSize(Holders(docs, t), docs.Keys);
      assert Holders(docs, t) != {};
    }
  }

  lemma {:induction false} ScorePositive(weigh: Weigh, docs: map<string, Document>, query: seq<string>, d: string,
                                         n: nat)
    requires n <= |query| && PositiveWeigh(weigh)
    ensures ScoreTo(weigh, docs, query, d, n) >= 0.0
    ensures (exists k :: 0 <= k < n && d in Holders(docs, query[k])) ==> ScoreTo(weigh, docs, query, d, n) > 0.0
  {
    if n > 0 {
      ScorePositive(weigh, docs, query, d, n - 1);
      TokenWeightPositive(weigh, docs, query[n - 1], d);
    }
  }

  ghost predicate Descending(ranked: seq<(string, real)>) {
    forall i, j | 0 <= i < j < |ranked| :: ranked[i].1 >= ranked[j].1
  }

  ghost function Ids(ranked: seq<(string, real)>): set<string> {
    set r | r in ranked :: r.0
  }

  /** The documents that share a token with the query. */
  ghost function MatchingIds(docs: map<string, Document>, query: seq<string>): set<string> {
    set d | d in docs && Matches(docs[d], query)
  }

  /** Ids occur once each. */
  ghost predicate DistinctIds(ranked: seq<(string, real)>) {
    forall i, j | 0 <= i < j < |ranked| :: ranked[i].0 != ranked[j].0
  }

  lemma ScoredIds(weigh: Weigh, sp: Space, query: seq<string>)
    ensures forall d :: d in HitsTo(sp.docs, sp.order, query, |query|) <==> d in Ids(ScoredHits(weigh, sp, query))
  {
    var hits, scored := HitsTo(sp.docs, sp.order, query, |query|), ScoredHits(weigh, sp, query);
    forall d ensures d in hits <==> d in Ids(scored) {
      if d in hits {
        var k :| 0 <= k < |hits| && hits[k] == d;
        assert scored[k] in scored;
      }
    }
  }

  lemma ScoredHitsAre(weigh: Weigh, sp: Space, query: seq<string>)
    requires OrderOk(sp) && PositiveWeigh(weigh)
    ensures Ids(ScoredHits(weigh, sp, query)) == MatchingIds(sp.docs, query)
    ensures forall r | r in ScoredHits(weigh, sp, query) ::
              r.1 == ScoreTo(weigh, sp.docs, query, r.0, |query|) && r.1 > 0.0
    ensures DistinctIds(ScoredHits(weigh, sp, query))
  {
    var hits, scored := HitsTo(sp.docs, sp.order, query, |query|), ScoredHits(weigh, sp, query);
    HitsAre(sp.docs, sp.order, query, |query|);
    HitsMatch(sp, query);
    ScoredIds(weigh, sp, query);
    forall r | r in scored ensures r.1 == ScoreTo(weigh, sp.docs, query, r.0, |query|) && r.1 > 0.0 {
      var k :| 0 <= k < |hits| && scored[k] == r;
      assert hits[k] in hits;
      ScorePositive(weigh, sp.docs, query, hits[k], |query|);
    }
  }

  lemma ByScoreDescends(ranked: seq<(string, real)>)
    requires Ascending(ranked, ByScore())
    ensures Descending(ranked)
  {
    forall i, j | 0 <= i < j < |ranked| ensures ranked[i].1 >= ranked[j].1 {
      assert ByScore()(ranked[i]) <= ByScore()(ranked[j]);
    }
  }

  lemma InMultiset(a: seq<(string, real)>, b: seq<(string, real)>, i: nat)
    requires multiset(a) == multiset(b) && i < |b|
    ensures b[i] in a
  {
    assert b[i] in multiset(b);
  }

  lemma {:induction false} DistinctOnce(a: seq<(string, real)>, x: (string, real))
    requires DistinctIds(a)
    ensures multiset(a)[x] <= 1
  {
    if a != [] {
      DistinctOnce(a[..|a| - 1], x);
      assert a == a[..|a| - 1] + [a[|a| - 1]];
    }
  }

  lemma {:induction false} PermutedDistinctIds(a: seq<(string, real)>, b: seq<(string, real)>)
    requires DistinctIds(a) && multiset(a) == multiset(b)
    ensures DistinctIds(b)
  {
    forall i, j | 0 <= i < j < |b| ensures b[i].0 != b[j].0 {
      if b[i].0 == b[j].0 {
        InMultiset(a, b, i);
        InMultiset(a, b, j);
        assert b[i] == b[j];
        DistinctOnce(a, b[i]);
        CountedTwice(b, i, j);
        assert false;
      }
    }
  }

  /** The ranking holds exactly the documents that share a token with the query, each once and with the score of the
      formula evaluated on the documents, which is positive; larger scores come first. */
  lemma RankingIs(weigh: Weigh, sp: Space, query: seq<string>)
    requires OrderOk(sp) && PositiveWeigh(weigh)
    ensures Ids(Ranking(weigh, sp, query)) == MatchingIds(sp.docs, query)
    ensures forall r | r in Ranking(weigh, sp, query) ::
              r.1 == ScoreTo(weigh, sp.docs, query, r.0, |query|) && r.1 > 0.0
    ensures DistinctIds(Ranking(weigh, sp, query)) && Descending(Ranking(weigh, sp, query))
  {
    var scored, ranked := ScoredHits(weigh, sp, query), Ranking(weigh, sp, query);
    ScoredHitsAre(weigh, sp, query);
    SortSorts(scored, ByScore());
    assert Ids(ranked) == Ids(scored);
    ByScoreDescends(ranked);
    PermutedDistinctIds(scored, ranked);
  }

  /** Among equal scores the document that is hit first comes first. */
  lemma EqualScoresKeepHitOrder(weigh: Weigh, sp: Space, query: seq<string>, i: nat, j: nat)
    requires i < j < |ScoredHits(weigh, sp, query)|
    requires ScoredHits(weigh, sp, query)[i].1 == ScoredHits(weigh, sp, query)[j].1
    ensures Precedes(Ranking(weigh, sp, query), ScoredHits(weigh, sp, query)[i], ScoredHits(weigh, sp, query)[j])
  {
    SortIsStable(ScoredHits(weigh, sp, query), ByScore(), |ScoredHits(weigh, sp, query)|, i, j);
  }

  // ---- pages ----

  /** The first `n` pages of one size, one after another. */
  function PagesTo<T>(ranked: seq<T>, size: nat, n: nat): seq<T> {
    if n == 0 then [] else PagesTo(ranked, size, n - 1) + Page(ranked, (n - 1) * size, size)
  }

  lemma NextPage<T>(ranked: seq<T>, offset: nat, size: nat)
    ensures ranked[..Min(offset, |ranked|)] + Page(ranked, offset, size) == ranked[..Min(offset + size, |ranked|)]
  {
  }

  /** Consecutive pages make up the ranking: no entry is missing and none is shown twice. */
  lemma {:induction false} PagesMakeUpRanking<T>(ranked: seq<T>, size: nat, n: nat)
    ensures PagesTo(ranked, size, n) == ranked[..Min(n * size, |ranked|)]
  {
    if n > 0 {
      PagesMakeUpRanking(ranked, size, n - 1);
      NextPage(ranked, (n - 1) * size, size);
    }
  }

  /** Enough pages make up the whole ranking. */
  lemma AllPagesMakeUpRanking<T>(ranked: seq<T>, size: nat, n: nat)
    requires n * size >= |ranked|
    ensures PagesTo(ranked, size, n) == ranked
  {
    PagesMakeUpRanking(ranked, size, n);
    assert ranked[..|ranked|] == ranked;
  }
}

/** The engine: namespaces of documents with their inverted indexes, changed in place. */
module SearchEngine {
  import opened Collections
  import opened SearchFormula
  import opened SearchIndex
  import opened SearchRanking
  import opened Options
  import opened Sums

  /** Tenant and index name. */
  type Namespace = (string, string)

  /** Neither part is empty or holds the separator. */
  predicate ValidNamespace(key: Namespace) {
    key.0 != "" && key.1 != "" && '_' !in key.0 && '_' !in key.1
  }

  datatype Hit = Hit(id: string, score: real, source: Document)

  /** An element of a bulk write; one without an id is skipped. */
  datatype BulkItem = BulkItem(id: Option<string>, doc: Document)

  predicate Skipped(item: BulkItem) {
    item.id.None? || item.id.value == ""
  }

  /** The space after writing the first `n` items. */
  ghost function BulkIndexed(sp: Space, items: seq<BulkItem>, limit: Option<int>, n: nat): Space
    requires n <= |items|
  {
    if n == 0 then sp else
    var before := BulkIndexed(sp, items, limit, n - 1);
    if Skipped(items[n - 1]) then before else Indexed(before, items[n - 1].id.value, items[n - 1].doc, limit)
  }

  /** Without a limit a write changes the one document. */
  lemma WriteIs(sp: Space, written: string, doc: Document, id: string)
    ensures var sp' := Indexed(sp, written, doc, None);
            && (id in sp'.docs <==> id in sp.docs || id == written)
            && (id in sp'.docs ==> sp'.docs[id] == if id == written then doc else sp.docs[id])
  {
  }

  /** Without a limit a bulk write leaves a document as it is if no item has its id; under the empty id nothing is ever
      written. */
  lemma {:induction false} BulkKeepsOthers(sp: Space, items: seq<BulkItem>, from: nat, n: nat, id: string)
    requires from <= n <= |items|
    requires id == "" || forall i | from <= i < n :: items[i].id != Some(id)
    ensures var before, after := BulkIndexed(sp, items, None, from), BulkIndexed(sp, items, None, n);
            && (id in after.docs <==> id in before.docs)
            && (id in after.docs ==> after.docs[id] == before.docs[id])
  {
    hide Indexed;
    if from < n {
      BulkKeepsOthers(sp, items, from, n - 1, id);
      var before, item := BulkIndexed(sp, items, None, n - 1), items[n - 1];
      if item.id.Some? && item.id.value != "" {
        WriteIs(before, item.id.value, item.doc, id);
      }
    }
  }

  /** And the last item with its id is the document. */
  lemma BulkWritesLast(sp: Space, items: seq<BulkItem>, n: nat, id: string, k: nat)
    requires k < n <= |items| && id != "" && items[k].id == Some(id)
    requires forall i | k < i < n :: items[i].id != Some(id)
    ensures var after := BulkIndexed(sp, items, None, n); id in after.docs && after.docs[id] == items[k].doc
  {
    hide Indexed;
    WriteIs(BulkIndexed(sp, items, None, k), id, items[k].doc, id);
    BulkKeepsOthers(sp, items, k + 1, n, id);
  }

  ghost function SpaceAt(spaces: map<Namespace, Space>, key: Namespace): Space {
    if key in spaces then spaces[key] else EMPTY_SPACE
  }

  lemma OnlyOneWritten(spaces: map<Namespace, Space>, key: Namespace, sp: Space)
    ensures spaces[key := sp] - {key} == spaces - {key}
  {
  }

  ghost function WithDeleted(spaces: map<Namespace, Space>, key: Namespace, id: string): map<Namespace, Space> {
    if key in spaces then spaces[key := Deleted(spaces[key], id)] else spaces
  }

  ghost function SpacesOf(docs: map<Namespace, map<string, Document>>, terms: map<Namespace, map<string, Postings>>,
                          lengths: map<Namespace, map<string, nat>>, order: map<Namespace, seq<string>>)
    : map<Namespace, Space>
    requires docs.Keys == terms.Keys == lengths.Keys == order.Keys
  {
    map key | key in docs :: Space(docs[key], terms[key], lengths[key], order[key])
  }

  lemma SpacesOfPut(docs: map<Namespace, map<string, Document>>, terms: map<Namespace, map<string, Postings>>,
                    lengths: map<Namespace, map<string, nat>>, order: map<Namespace, seq<string>>,
                    key: Namespace, sp: Space)
    requires docs.Keys == terms.Keys == lengths.Keys == order.Keys
    ensures SpacesOf(docs[key := sp.docs], terms[key := sp.terms], lengths[key := sp.lengths], order[key := sp.order])
            == SpacesOf(docs, terms, lengths, order)[key := sp]
  {
  }

  /** In every namespace the index agrees with the documents. */
  ghost predicate AllOk(spaces: map<Namespace, Space>) {
    forall key | key in spaces :: IndexOk(spaces[key])
  }

  lemma PutKeepsAllOk(spaces: map<Namespace, Space>, key: Namespace, sp: Space)
    requires AllOk(spaces) && IndexOk(sp)
    ensures AllOk(spaces[key := sp])
  {
  }

  lemma SpaceAtOk(spaces: map<Namespace, Space>, key: Namespace)
    requires AllOk(spaces)
    ensures IndexOk(SpaceAt(spaces, key))
  {
  }

  lemma IndexedKeepsAllOk(spaces: map<Namespace, Space>, key: Namespace, id: string, doc: Document, limit: Option<int>)
    requires AllOk(spaces)
    ensures AllOk(spaces[key := Indexed(SpaceAt(spaces, key), id, doc, limit)])
  {
    SpaceAtOk(spaces, key);
    IndexedIs(SpaceAt(spaces, key), id, doc, limit);
    PutKeepsAllOk(spaces, key, Indexed(SpaceAt(spaces, key), id, doc, limit));
  }

  lemma DeletedKeepsAllOk(spaces: map<Namespace, Space>, key: Namespace, id: string)
    requires AllOk(spaces)
    ensures AllOk(WithDeleted(spaces, key, id))
  {
    if key in spaces {
      DeleteKeepsIndex(spaces[key], id);
      PutKeepsAllOk(spaces, key, Deleted(spaces[key], id));
    }
  }

  /** Deleting and then inserting is writing. */
  lemma DeletedThenInserted(spaces: map<Namespace, Space>, key: Namespace, id: string, doc: Document,
                            limit: Option<int>)
    ensures var after := WithDeleted(spaces, key, id);
            after[key := Evicted(Inserted(SpaceAt(after, key), id, doc), limit)]
            == spaces[key := Indexed(SpaceAt(spaces, key), id, doc, limit)]
  {
  }

  ghost predicate InDocs(page: seq<(string, real)>, docs: map<string, Document>) {
    forall k | 0 <= k < |page| :: page[k].0 in docs
  }

  /** A hit for each entry of the page, with its score and its document. */
  function HitsOf(page: seq<(string, real)>, docs: map<string, Document>): (hits: seq<Hit>)
    requires InDocs(page, docs)
    ensures |hits| == |page|
    ensures forall k | 0 <= k < |page| ::
              (hits[k].id, hits[k].score) == page[k] && hits[k].id in docs && hits[k].source == docs[hits[k].id]
  {
    seq(|page|, k requires 0 <= k < |page| => Hit(page[k].0, page[k].1, docs[page[k].0]))
  }

  lemma ScoredInDocs(weigh: Weigh, sp: Space, query: seq<string>)
    requires OrderOk(sp)
    ensures InDocs(ScoredHits(weigh, sp, query), sp.docs)
  {
    var hits := HitsTo(sp.docs, sp.order, query, |query|);
    HitsMatch(sp, query);
    forall k | 0 <= k < |ScoredHits(weigh, sp, query)| ensures ScoredHits(weigh, sp, query)[k].0 in sp.docs {
      assert hits[k] in hits;
    }
  }

  lemma PageInDocs(weigh: Weigh, sp: Space, query: seq<string>, offset: nat, size: nat)
    requires OrderOk(sp)
    ensures InDocs(Page(Ranking(weigh, sp, query), offset, size), sp.docs)
  {
    var ranked := Ranking(weigh, sp, query);
    SortSorts(ScoredHits(weigh, sp, query), ByScore());
    ScoredInDocs(weigh, sp, query);
    forall k | 0 <= k < |ranked| ensures ranked[k].0 in sp.docs {
      assert ranked[k] in ScoredHits(weigh, sp, query);
    }
  }

  /** Without a query token or without a posting list there is nothing to find. */
  lemma NothingToFind(weigh: Weigh, sp: Space, query: seq<string>)
    requires IndexOk(sp) && (query == [] || sp.docs == map[] || sp.terms == map[])
    ensures Ranking(weigh, sp, query) == []
  {
    HitsAre(sp.docs, sp.order, query, |query|);
    var hits := HitsTo(sp.docs, sp.order, query, |query|);
    if hits != [] {
      assert hits[0] in hits;
      var k :| 0 <= k < |query| && hits[0] in Holders(sp.docs, query[k]);
      assert TermOk(sp, query[k]);
      PostingsAreHolders(sp, query[k]);
      assert false;
    }
  }

  /** The average token length over the stored lengths, added up in any order. */
  method Average(docs: map<string, Document>, lengths: map<string, nat>) returns (avg: real)
    requires lengths.Keys == docs.Keys && forall d | d in docs :: lengths[d] == |docs[d].tokens|
    requires docs != map[]
    ensures avg == AverageLength(docs)
  {
    var total, rest := 0.0, docs.Keys;
    while rest != {}
      invariant rest <= docs.Keys
      invariant total + SumOver(rest, LengthOf(docs)) == SumOver(docs.Keys, LengthOf(docs))
    {
      var d :| d in rest;
      SumTakeOut(rest, LengthOf(docs), d);
      total := total + lengths[d] as real;
      rest := rest - {d};
    }
    assert |docs| > 0;
    avg := total / |docs| as real;
  }

  /** What a posting list says about its `k`-th document is what the document itself says. */
  lemma TokenWeightIs(weigh: Weigh, sp: Space, t: string, k: nat)
    requires IndexOk(sp) && k < |PostingsOf(sp.terms, t).keys|
    ensures var postings := PostingsOf(sp.terms, t);
            var d := postings.keys[k];
            && d in postings.at && d in sp.lengths
            && TokenWeight(weigh, sp.docs, t, d)
               == weigh(|sp.docs|, |postings.keys|, postings.at[d], sp.lengths[d], AverageLength(sp.docs))
  {
    var postings := PostingsOf(sp.terms, t);
    assert TermOk(sp, t);
    PostingsAreHolders(sp, t);
    assert postings.keys[k] in Elements(postings.keys);
  }

  method AccumulateToken(weigh: Weigh, n: nat, avg: real, t: string, postings: Postings, lengths: map<string, nat>,
                         before: Scores, ghost sp: Space)
    returns (scores: Scores)
    requires IndexOk(sp) && n == |sp.docs| && avg == AverageLength(sp.docs)
    requires postings == PostingsOf(sp.terms, t) && lengths == sp.lengths
    ensures scores == TokenAdded(weigh, sp, t, before)
  {
    scores := before;
    for k := 0 to |postings.keys|
      invariant scores == AddedTo(before, postings.keys, WeightOfToken(weigh, sp.docs, t), k)
    {
      var d := postings.keys[k];
      TokenWeightIs(weigh, sp, t, k);
      var len := if d in lengths then lengths[d] else 0;
      scores := Plus(scores, d, weigh(n, |postings.keys|, postings.at[d], len, avg));
    }
  }

  /** Adds up the scores of the query tokens over their posting lists. */
  method Accumulate(weigh: Weigh, n: nat, avg: real, terms: map<string, Postings>, lengths: map<string, nat>,
                    query: seq<string>, ghost sp: Space)
    returns (scores: Scores)
    requires IndexOk(sp) && n == |sp.docs| && avg == AverageLength(sp.docs)
    requires terms == sp.terms && lengths == sp.lengths
    ensures ScoresOk(weigh, sp, query, |query|, scores)
  {
    scores := EmptyDict();
    for k := 0 to |query|
      invariant ScoresOk(weigh, sp, query, k, scores)
    {
      TokenKeepsScores(weigh, sp, query, k, scores);
      if query[k] in terms && terms[query[k]].keys != [] {
        scores := AccumulateToken(weigh, n, avg, query[k], terms[query[k]], lengths, scores, sp);
      } else {
        assert TermOk(sp, query[k]);
      }
    }
  }

  class InMemorySearchEngine {
    const limit: Option<int>
    var docs: map<Namespace, map<string, Document>>
    var terms: map<Namespace, map<string, Postings>>
    var lengths: map<Namespace, map<string, nat>>
    var order: map<Namespace, seq<string>>

    ghost predicate SameKeys()
      reads this
    {
      docs.Keys == terms.Keys == lengths.Keys == order.Keys
    }

    ghost function Spaces(): map<Namespace, Space>
      requires SameKeys()
      reads this
    {
      SpacesOf(docs, terms, lengths, order)
    }

    ghost predicate Valid()
      reads this
    {
      SameKeys() && AllOk(Spaces())
    }

    constructor (limit: Option<int>)
      ensures Valid() && this.limit == limit
      ensures Spaces() == map[]
    {
      this.limit := limit;
      docs, terms, lengths, order := map[], map[], map[], map[];
    }

    /** Updates the four dictionaries of one namespace together. */
    method Store(key: Namespace, d: map<string, Document>, t: map<string, Postings>, l: map<string, nat>,
                 o: seq<string>)
      requires SameKeys()
      modifies this
      ensures SameKeys() && Spaces() == old(Spaces())[key := Space(d, t, l, o)]
    {
      SpacesOfPut(docs, terms, lengths, order, key, Space(d, t, l, o));
      docs := docs[key := d];
      terms := terms[key := t];
      lengths := lengths[key := l];
      order := order[key := o];
    }

    /** Removes a document with its postings; silent when there is none. */
    method DeleteDoc(key: Namespace, id: string)
      requires SameKeys()
      modifies this
      ensures SameKeys()
      ensures Spaces() == WithDeleted(old(Spaces()), key, id)
    {
      if key !in docs || id !in docs[key] {
        return;
      }
      var tokens := docs[key][id].tokens;
      var termMap := TakeOut(terms[key], id, tokens);
      Store(key, docs[key] - {id}, termMap, lengths[key] - {id}, Without(order[key], id));
    }

    method TakeOut(terms: map<string, Postings>, id: string, tokens: seq<string>)
      returns (termMap: map<string, Postings>)
      ensures termMap == Unposted(terms, id, tokens, |tokens|)
    {
      termMap := terms;
      for n := 0 to |tokens|
        invariant termMap == Unposted(terms, id, tokens, n)
      {
        if tokens[n] in termMap && termMap[tokens[n]].keys != [] {
          var postings := termMap[tokens[n]].Drop(id);
          termMap := if postings.keys == [] then termMap - {tokens[n]} else termMap[tokens[n] := postings];
        }
      }
    }

    /** Files a document, then drops the oldest ones over the limit. */
    method InsertDoc(key: Namespace, id: string, doc: Document)
      requires SameKeys()
      modifies this
      ensures SameKeys()
      ensures Spaces() == old(Spaces())[key := Evicted(Inserted(SpaceAt(old(Spaces()), key), id, doc), limit)]
    {
      AddDoc(key, id, doc);
      Evict(key);
    }

    method Evict(key: Namespace)
      requires SameKeys() && key in docs
      modifies this
      ensures SameKeys()
      ensures Spaces() == old(Spaces())[key := Evicted(old(Spaces())[key], limit)]
    {
      ghost var sp := Spaces()[key];
      assert sp.docs == docs[key] && sp.order == order[key];
      if limit.Some? && |docs[key]| > limit.value {
        EvictOldest(key, Min(|docs[key]| - limit.value, |order[key]|));
      }
    }

    method AddDoc(key: Namespace, id: string, doc: Document)
      requires SameKeys()
      modifies this
      ensures SameKeys() && key in docs
      ensures Spaces() == old(Spaces())[key := Inserted(SpaceAt(old(Spaces()), key), id, doc)]
    {
      var data := if key in docs then docs[key] else map[];
      var written := if key in docs then order[key] else [];
      var termMap := if key in docs then terms[key] else map[];
      var lens := if key in docs then lengths[key] else map[];
      termMap := PutIn(termMap, id, doc.tokens);
      Store(key, data[id := doc], termMap, lens[id := |doc.tokens|],
            if id in written then written else written + [id]);
      assert key in Spaces();
    }

    method PutToken(terms: map<string, Postings>, id: string, token: string) returns (termMap: map<string, Postings>)
      ensures termMap == Counted(terms, id, token)
    {
      var postings := PostingsOf(terms, token);
      termMap := terms[token := postings.Put(id, (if id in postings.at then postings.at[id] else 0) + 1)];
    }

    method PutIn(terms: map<string, Postings>, id: string, tokens: seq<string>) returns (termMap: map<string, Postings>)
      ensures termMap == Posted(terms, id, tokens, |tokens|)
    {
      termMap := terms;
      for n := 0 to |tokens|
        invariant termMap == Posted(terms, id, tokens, n)
      {
        termMap := PutToken(termMap, id, tokens[n]);
      }
    }

    /** Deletes the `n` documents written first. */
    method EvictOldest(key: Namespace, n: nat)
      requires SameKeys() && key in docs && n <= |order[key]|
      modifies this
      ensures SameKeys()
      ensures Spaces() == old(Spaces())[key := DeletedAll(old(Spaces())[key], old(order)[key], n)]
    {
      ghost var spaces := Spaces();
      var oldest := order[key][..n];
      assert spaces == spaces[key := spaces[key]];
      for k := 0 to n
        invariant SameKeys()
        invariant Spaces() == spaces[key := DeletedAll(spaces[key], spaces[key].order, k)]
      {
        DeleteDoc(key, oldest[k]);
      }
    }

    /** Writes or overwrites one document; false when the namespace is refused. */
    method IndexDocument(key: Namespace, id: string, doc: Document) returns (ok: bool)
      requires Valid()
      modifies this
      ensures Valid()
      ensures ok <==> ValidNamespace(key)
      ensures Spaces() == if ok then old(Spaces())[key := Indexed(SpaceAt(old(Spaces()), key), id, doc, limit)]
                          else old(Spaces())
    {
      ok := ValidNamespace(key);
      if ok {
        Write(key, id, doc);
      }
    }

    method Write(key: Namespace, id: string, doc: Document)
      requires Valid()
      modifies this
      ensures Valid()
      ensures Spaces() == old(Spaces())[key := Indexed(SpaceAt(old(Spaces()), key), id, doc, limit)]
    {
      ghost var spaces := Spaces();
      IndexedKeepsAllOk(spaces, key, id, doc, limit);
      DeleteDoc(key, id);
      InsertDoc(key, id, doc);
      DeletedThenInserted(spaces, key, id, doc, limit);
    }

    /** Writes the items that have an id, in order. */
    method BulkIndex(key: Namespace, items: seq<BulkItem>) returns (ok: bool)
      requires Valid()
      modifies this
      ensures Valid()
      ensures ok <==> ValidNamespace(key)
      ensures ok ==> SpaceAt(Spaces(), key) == BulkIndexed(SpaceAt(old(Spaces()), key), items, limit, |items|)
      ensures Spaces() - {key} == old(Spaces()) - {key}
      ensures !ok ==> Spaces() == old(Spaces())
    {
      ok := ValidNamespace(key);
      if !ok {
        return;
      }
      ghost var spaces := Spaces();
      for n := 0 to |items|
        invariant Valid()
        invariant SpaceAt(Spaces(), key) == BulkIndexed(SpaceAt(spaces, key), items, limit, n)
        invariant Spaces() - {key} == spaces - {key}
      {
        ghost var before := Spaces();
        if !Skipped(items[n]) {
          Write(key, items[n].id.value, items[n].doc);
          OnlyOneWritten(before, key, Spaces()[key]);
        }
      }
    }

    /** Deletes one document; false when the namespace is refused. */
    method DeleteDocument(key: Namespace, id: string) returns (ok: bool)
      requires Valid()
      modifies this
      ensures Valid()
      ensures ok <==> ValidNamespace(key)
      ensures Spaces() == if ok then WithDeleted(old(Spaces()), key, id) else old(Spaces())
    {
      ok := ValidNamespace(key);
      if ok {
        DeletedKeepsAllOk(Spaces(), key, id);
        DeleteDoc(key, id);
      }
    }

    /** Drops a whole namespace; false when the namespace is refused. */
    method DeleteIndex(key: Namespace) returns (ok: bool)
      requires Valid()
      modifies this
      ensures Valid()
      ensures ok <==> ValidNamespace(key)
      ensures Spaces() == if ok then old(Spaces()) - {key} else old(Spaces())
    {
      ok := ValidNamespace(key);
      if ok {
        docs := docs - {key};
        terms := terms - {key};
        lengths := lengths - {key};
        order := order - {key};
        assert Spaces() == old(Spaces()) - {key};
      }
    }

    /** One page of the ranking, accumulated through the index; none when the namespace is refused. */
    method Search(key: Namespace, query: seq<string>, offset: nat, size: nat, log: real -> real)
      returns (hits: Option<seq<Hit>>)
      requires Valid()
      ensures hits.Some? <==> key.0 != "" && key.1 != "" && '_' !in key.0 && '_' !in key.1
      ensures hits.Some? ==>
                var page := Page(Ranking(Bm25(log), SpaceAt(Spaces(), key), query), offset, size);
                InDocs(page, SpaceAt(Spaces(), key).docs) && hits.value == HitsOf(page, SpaceAt(Spaces(), key).docs)
    {
      if !ValidNamespace(key) {
        return None;
      }
      ghost var sp := SpaceAt(Spaces(), key);
      SpaceAtOk(Spaces(), key);
      if query == [] || key !in docs || docs[key] == map[] || terms[key] == map[] {
        NothingToFind(Bm25(log), sp, query);
        return Some([]);
      }
      var avg := Average(docs[key], lengths[key]);
      var scores := Accumulate(Bm25(log), |docs[key]|, avg, terms[key], lengths[key], query, sp);
      var items := seq(|scores.keys|, k requires 0 <= k < |scores.keys| =>
                                        (scores.keys[k], ScoreIn(scores, scores.keys[k])));
      assert items == ScoredHits(Bm25(log), sp, query);
      var page := Page(SortByKey(items, ByScore()), offset, size);
      PageInDocs(Bm25(log), sp, query, offset, size);
      hits := Some(HitsOf(page, docs[key]));
    }
  }
}
