/** The inverted index of one namespace of the in-memory search engine: what writing, overwriting, deleting and
    evicting documents do to it, against a scan of the documents. */
module SearchIndex {
  import opened Collections
  import opened Options

  /** A stored document: the tokens of its text fields, in order, and the rest of it. */
  datatype Document = Document(tokens: seq<string>, source: string)

  /** Document ids and term frequencies, in the order the ids were put in. */
  type Postings = Dict<string, nat>

  /** The four dictionaries of a namespace. */
  datatype Space = Space(docs: map<string, Document>, terms: map<string, Postings>, lengths: map<string, nat>,
                         order: seq<string>)

  const EMPTY_SPACE := Space(map[], map[], map[], [])

  // ---- the scan ----

  /** How often `t` is among the first `n` tokens. */
  function OccurrencesTo(tokens: seq<string>, t: string, n: nat): nat
    requires n <= |tokens|
  {
    if n == 0 then 0 else OccurrencesTo(tokens, t, n - 1) + (if tokens[n - 1] == t then 1 else 0)
  }

  lemma {:induction false} OccurrencesAre(tokens: seq<string>, t: string, n: nat)
    requires n <= |tokens|
    ensures OccurrencesTo(tokens, t, n) == multiset(tokens[..n])[t]
  {
    if n > 0 {
      OccurrencesAre(tokens, t, n - 1);
      assert tokens[..n] == tokens[..n - 1] + [tokens[n - 1]];
    }
  }

  function Occurrences(doc: Document, t: string): nat {
    OccurrencesTo(doc.tokens, t, |doc.tokens|)
  }

  /** The ids of the documents that contain `t`. */
  function Holders(docs: map<string, Document>, t: string): set<string> {
    set d | d in docs && Occurrences(docs[d], t) > 0
  }

  // ---- the index agrees with the scan ----

  function PostingsOf(terms: map<string, Postings>, t: string): Postings {
    if t in terms then terms[t] else EmptyDict()
  }

  /** The posting list of `t` names exactly the documents that contain it, in write order, with their counts; there is
      none when no document does. */
  ghost predicate TermOk(sp: Space, t: string) {
    var p := PostingsOf(sp.terms, t);
    && p.keys == Keep(sp.order, Holders(sp.docs, t))
    && Elements(p.keys) == p.at.Keys
    && (t in sp.terms <==> p.keys != [])
    && forall d | d in p.at :: d in sp.docs && p.at[d] == Occurrences(sp.docs[d], t)
  }

  /** The write order lists each stored document once, and the lengths are theirs. */
  ghost predicate OrderOk(sp: Space) {
    && Distinct(sp.order) && Elements(sp.order) == sp.docs.Keys
    && sp.lengths.Keys == sp.docs.Keys
    && forall d | d in sp.docs :: sp.lengths[d] == |sp.docs[d].tokens|
  }

  ghost predicate IndexOk(sp: Space) {
    OrderOk(sp) && forall t :: TermOk(sp, t)
  }

  // ---- writing ----

  /** The terms after counting one more occurrence of `t` in document `id`. */
  function Counted(terms: map<string, Postings>, id: string, t: string): map<string, Postings> {
    var p := PostingsOf(terms, t);
    terms[t := p.Put(id, (if id in p.at then p.at[id] else 0) + 1)]
  }

  /** The terms after counting the first `n` tokens of document `id`. */
  function Posted(terms: map<string, Postings>, id: string, tokens: seq<string>, n: nat): map<string, Postings>
    requires n <= |tokens|
  {
    if n == 0 then terms else
    Counted(Posted(terms, id, tokens, n - 1), id, tokens[n - 1])
  }

  function Inserted(sp: Space, id: string, doc: Document): Space {
    Space(sp.docs[id := doc], Posted(sp.terms, id, doc.tokens, |doc.tokens|), sp.lengths[id := |doc.tokens|],
          if id in sp.order then sp.order else sp.order + [id])
  }

  lemma PutTwice(p: Postings, id: string, c: nat, c': nat)
    ensures p.Put(id, c).Put(id, c') == p.Put(id, c')
  {
  }

  /** The posting list `p` of `t` after `c` occurrences in the document `id`, which it did not name. */
  predicate CountedTo(after: map<string, Postings>, listed: bool, p: Postings, id: string, t: string, c: nat) {
    && (t in after <==> listed || c > 0)
    && PostingsOf(after, t) == if c == 0 then p else p.Put(id, c)
  }

  lemma CountOnce(before: map<string, Postings>, listed: bool, p: Postings, id: string, t: string, c: nat,
                  token: string)
    requires id !in p.at && CountedTo(before, listed, p, id, t, c)
    ensures CountedTo(Counted(before, id, token), listed, p, id, t, if token == t then c + 1 else c)
  {
    if token == t && c > 0 {
      PutTwice(p, id, c, c + 1);
    }
  }

  /** Counting a new document touches exactly the posting lists of its tokens. */
  lemma {:induction false} PostedAt(terms: map<string, Postings>, id: string, tokens: seq<string>, n: nat, t: string)
    requires n <= |tokens| && id !in PostingsOf(terms, t).at
    ensures var after, c := Posted(terms, id, tokens, n), OccurrencesTo(tokens, t, n);
            && (t in after <==> t in terms || c > 0)
            && PostingsOf(after, t) == if c == 0 then PostingsOf(terms, t) else PostingsOf(terms, t).Put(id, c)
  {
    if n > 0 {
      PostedAt(terms, id, tokens, n - 1, t);
      CountOnce(Posted(terms, id, tokens, n - 1), t in terms, PostingsOf(terms, t), id, t,
                OccurrencesTo(tokens, t, n - 1), tokens[n - 1]);
    }
  }

  lemma HoldersAfterInsert(sp: Space, id: string, doc: Document, t: string)
    requires id !in sp.docs && id !in sp.order
    ensures Keep(sp.order + [id], Holders(sp.docs[id := doc], t))
            == Keep(sp.order, Holders(sp.docs, t)) + (if Occurrences(doc, t) > 0 then [id] else [])
  {
    var after := Holders(sp.docs[id := doc], t);
    assert id in after <==> Occurrences(doc, t) > 0;
    KeepSnoc(sp.order, id, after);
    KeepToSame(sp.order, Holders(sp.docs, t), after, |sp.order|);
  }

  lemma InsertKeepsTerm(sp: Space, id: string, doc: Document, t: string)
    requires OrderOk(sp) && TermOk(sp, t) && id !in sp.docs && id !in sp.order
    ensures TermOk(Inserted(sp, id, doc), t)
  {
    var p, sp' := PostingsOf(sp.terms, t), Inserted(sp, id, doc);
    assert id !in p.at;
    PostedAt(sp.terms, id, doc.tokens, |doc.tokens|, t);
    HoldersAfterInsert(sp, id, doc, t);
    if Occurrences(doc, t) > 0 {
      assert Elements(p.keys + [id]) == Elements(p.keys) + {id};
    }
    assert PostingsOf(sp'.terms, t).keys == Keep(sp'.order, Holders(sp'.docs, t));
  }

  lemma InsertKeepsIndex(sp: Space, id: string, doc: Document)
    requires IndexOk(sp) && id !in sp.docs
    ensures IndexOk(Inserted(sp, id, doc))
    ensures Inserted(sp, id, doc).order == sp.order + [id]
  {
    var sp' := Inserted(sp, id, doc);
    DistinctSnoc(sp.order, id);
    assert Elements(sp.order + [id]) == Elements(sp.order) + {id};
    forall t ensures TermOk(sp', t) {
      assert TermOk(sp, t);
      InsertKeepsTerm(sp, id, doc, t);
    }
  }

  // ---- deleting ----

  /** The terms after taking document `id` out of the posting lists of its first `n` tokens. */
  function Unposted(terms: map<string, Postings>, id: string, tokens: seq<string>, n: nat): map<string, Postings>
    requires n <= |tokens|
  {
    if n == 0 then terms else
    var before := Unposted(terms, id, tokens, n - 1);
    var p := PostingsOf(before, tokens[n - 1]);
    if p.keys == [] then before
    else if p.Drop(id).keys == [] then before - {tokens[n - 1]}
    else before[tokens[n - 1] := p.Drop(id)]
  }

  function Deleted(sp: Space, id: string): Space {
    if id !in sp.docs then sp else
    var tokens := sp.docs[id].tokens;
    Space(sp.docs - {id}, Unposted(sp.terms, id, tokens, |tokens|), sp.lengths - {id}, Without(sp.order, id))
  }

  lemma DropTwice(p: Postings, id: string)
    ensures p.Drop(id).Drop(id) == p.Drop(id)
  {
    KeepMembers(p.keys, Elements(p.keys) - {id});
    var once := Without(p.keys, id);
    assert id !in once;
    WithoutAbsent(once, id);
  }

  /** Without entries there is no posting list. */
  ghost predicate NoEmptyList(terms: map<string, Postings>, t: string) {
    && (t in terms <==> PostingsOf(terms, t).keys != [])
    && Elements(PostingsOf(terms, t).keys) == PostingsOf(terms, t).at.Keys
  }

  lemma DropEmpty(p: Postings, id: string)
    requires Elements(p.keys) == p.at.Keys
    ensures Elements(p.Drop(id).keys) == p.Drop(id).at.Keys
    ensures p.Drop(id).keys == [] ==> p.Drop(id) == EmptyDict()
    ensures p.keys == [] ==> p == EmptyDict() && p.Drop(id) == p
  {
    KeepMembers(p.keys, Elements(p.keys) - {id});
    var r := p.Drop(id);
    forall d ensures d in r.keys <==> d in p.keys && d != id {
      assert d in r.keys <==> d in p.keys && d in Elements(p.keys) - {id};
    }
    assert Elements(r.keys) == Elements(p.keys) - {id};
    assert forall q: Postings :: q.keys == [] && Elements(q.keys) == q.at.Keys ==> q.at == map[];
  }

  /** Taking a document out touches exactly the posting lists of its tokens, and leaves no empty one behind. */
  lemma {:induction false} UnpostedAt(terms: map<string, Postings>, id: string, tokens: seq<string>, n: nat, t: string)
    requires n <= |tokens| && NoEmptyList(terms, t)
    ensures var after, c := Unposted(terms, id, tokens, n), OccurrencesTo(tokens, t, n);
            && NoEmptyList(after, t)
            && PostingsOf(after, t) == if c == 0 then PostingsOf(terms, t) else PostingsOf(terms, t).Drop(id)
  {
    if n > 0 {
      UnpostedAt(terms, id, tokens, n - 1, t);
      var before := PostingsOf(Unposted(terms, id, tokens, n - 1), t);
      if tokens[n - 1] == t {
        DropTwice(PostingsOf(terms, t), id);
        DropEmpty(before, id);
      }
    }
  }

  lemma HoldersAfterDelete(sp: Space, id: string, t: string)
    requires OrderOk(sp)
    ensures Keep(Without(sp.order, id), Holders(sp.docs - {id}, t))
            == Without(Keep(sp.order, Holders(sp.docs, t)), id)
  {
    WithoutKept(sp.order, Holders(sp.docs, t), id);
    assert Holders(sp.docs - {id}, t) == Holders(sp.docs, t) - {id};
    WithoutKeeps(sp.order, id);
    assert id !in Elements(Without(sp.order, id));
    KeepToSame(Without(sp.order, id), Holders(sp.docs, t), Holders(sp.docs - {id}, t), |Without(sp.order, id)|);
  }

  lemma DeleteKeepsTerm(sp: Space, id: string, t: string)
    requires OrderOk(sp) && TermOk(sp, t) && id in sp.docs
    ensures TermOk(Deleted(sp, id), t)
  {
    var tokens := sp.docs[id].tokens;
    var p := PostingsOf(sp.terms, t);
    UnpostedAt(sp.terms, id, tokens, |tokens|, t);
    HoldersAfterDelete(sp, id, t);
    DropEmpty(p, id);
    if Occurrences(sp.docs[id], t) == 0 {
      KeepMembers(sp.order, Holders(sp.docs, t));
      assert id !in p.keys;
      WithoutAbsent(p.keys, id);
      assert p.Drop(id) == p;
    }
  }

  lemma DeleteKeepsIndex(sp: Space, id: string)
    requires IndexOk(sp)
    ensures IndexOk(Deleted(sp, id))
    ensures Deleted(sp, id).order == Without(sp.order, id) && Deleted(sp, id).docs == sp.docs - {id}
  {
    if id in sp.docs {
      WithoutKeeps(sp.order, id);
      forall t ensures TermOk(Deleted(sp, id), t) {
        assert TermOk(sp, t);
        DeleteKeepsTerm(sp, id, t);
      }
    } else {
      WithoutAbsent(sp.order, id);
    }
  }

  // ---- eviction and the whole write ----

  /** The space after deleting the first `n` of `ids`, one after another. */
  function DeletedAll(sp: Space, ids: seq<string>, n: nat): Space
    requires n <= |ids|
  {
    if n == 0 then sp else Deleted(DeletedAll(sp, ids, n - 1), ids[n - 1])
  }

  function Min(a: int, b: int): int {
    if a < b then a else b
  }

  /** How many documents are over the limit: none without a limit, and never more than there are. */
  function Overflow(sp: Space, limit: Option<int>): nat {
    if limit.Some? && |sp.docs| > limit.value then Min(|sp.docs| - limit.value, |sp.order|) else 0
  }

  function Evicted(sp: Space, limit: Option<int>): Space {
    DeletedAll(sp, sp.order, Overflow(sp, limit))
  }

  /** Writing a document: out with the old one, in with the new one, out with the oldest ones over the limit. */
  function Indexed(sp: Space, id: string, doc: Document, limit: Option<int>): Space {
    Evicted(Inserted(Deleted(sp, id), id, doc), limit)
  }

  /** `sp'` holds what is left of `sp` after its `n` oldest documents. */
  ghost predicate IsRest(sp: Space, n: nat, sp': Space)
    requires n <= |sp.order|
  {
    sp'.order == sp.order[n..] && sp'.docs == sp.docs - Elements(sp.order[..n])
  }

  lemma OneOlder(sp: Space, n: nat, before: Space, after: Space)
    requires 0 < n <= |sp.order| && Distinct(sp.order) && IsRest(sp, n - 1, before)
    requires after.order == Without(before.order, sp.order[n - 1]) && after.docs == before.docs - {sp.order[n - 1]}
    ensures IsRest(sp, n, after)
  {
    assert before.order[0] == sp.order[n - 1];
    WithoutFirst(before.order);
    assert sp.order[..n] == sp.order[..n - 1] + [sp.order[n - 1]];
    assert Elements(sp.order[..n]) == Elements(sp.order[..n - 1]) + {sp.order[n - 1]};
  }

  lemma {:induction false} DeletingOldest(sp: Space, n: nat)
    requires IndexOk(sp) && n <= |sp.order|
    ensures IndexOk(DeletedAll(sp, sp.order, n))
    ensures IsRest(sp, n, DeletedAll(sp, sp.order, n))
  {
    if n == 0 {
      assert sp.docs == sp.docs - Elements(sp.order[..0]);
    } else {
      DeletingOldest(sp, n - 1);
      var before := DeletedAll(sp, sp.order, n - 1);
      DeleteKeepsIndex(before, sp.order[n - 1]);
      OneOlder(sp, n, before, Deleted(before, sp.order[n - 1]));
    }
  }

  lemma OrderIsSize(sp: Space)
    requires OrderOk(sp)
    ensures |sp.order| == |sp.docs|
  {
    DistinctSize(sp.order);
    assert |sp.docs| == |sp.docs.Keys|;
  }

  function WithinLimit(n: nat, limit: Option<int>): (m: nat)
    ensures m <= n
    ensures limit.Some? && limit.value >= 0 ==> m <= limit.value
  {
    if limit.Some? && limit.value < n then (if limit.value < 0 then 0 else limit.value) else n
  }

  /** `sp'` holds the last documents of the write order `written`, as many as the limit allows. */
  ghost predicate IsLatest(docs: map<string, Document>, written: seq<string>, id: string, doc: Document,
                           limit: Option<int>, sp': Space) {
    && |sp'.order| == WithinLimit(|written|, limit)
    && sp'.order == written[|written| - |sp'.order|..]
    && sp'.docs.Keys == Elements(sp'.order)
    && forall d | d in sp'.docs :: if d == id then sp'.docs[d] == doc else d in docs && sp'.docs[d] == docs[d]
  }

  /** `sp'` is `sp` after writing `doc`: it is the newest document, only the oldest are gone, and exactly as many as
      the limit demands. */
  ghost predicate IsWrite(sp: Space, id: string, doc: Document, limit: Option<int>, sp': Space) {
    IsLatest(sp.docs, Without(sp.order, id) + [id], id, doc, limit, sp')
  }

  lemma OverflowLeaves(sp: Space, limit: Option<int>)
    requires |sp.order| == |sp.docs|
    ensures Overflow(sp, limit) == |sp.order| - WithinLimit(|sp.order|, limit)
  {
  }

  lemma RestIsLatest(docs: map<string, Document>, id: string, doc: Document, limit: Option<int>, added: Space,
                     sp': Space)
    requires sp'.docs.Keys == Elements(sp'.order) && |added.order| == |added.docs|
    requires added.docs == (docs - {id})[id := doc]
    requires IsRest(added, Overflow(added, limit), sp')
    ensures IsLatest(docs, added.order, id, doc, limit, sp')
  {
    OverflowLeaves(added, limit);
    assert |sp'.order| == WithinLimit(|added.order|, limit);
  }

  /** After a write the index agrees with the documents again, and they are the right ones. */
  lemma IndexedIs(sp: Space, id: string, doc: Document, limit: Option<int>)
    requires IndexOk(sp)
    ensures IndexOk(Indexed(sp, id, doc, limit))
    ensures IsWrite(sp, id, doc, limit, Indexed(sp, id, doc, limit))
  {
    DeleteKeepsIndex(sp, id);
    InsertKeepsIndex(Deleted(sp, id), id, doc);
    var added := Inserted(Deleted(sp, id), id, doc);
    OrderIsSize(added);
    DeletingOldest(added, Overflow(added, limit));
    RestIsLatest(sp.docs, id, doc, limit, added, Indexed(sp, id, doc, limit));
  }
}
