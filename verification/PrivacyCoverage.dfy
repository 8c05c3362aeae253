/** Which detected text the masks hide: a match that overlaps an earlier one is left out whole, so the part of it
    behind that one may stay readable. */
module PrivacyCoverage {
  import opened Collections
  import opened PrivacyMasking

  /** Position `p` of the text belongs to the match. */
  predicate Holds(m: PiiMatch, p: int) {
    m.start <= p < m.end
  }

  ghost predicate Covered(ms: seq<PiiMatch>, p: int) {
    exists i :: 0 <= i < |ms| && Holds(ms[i], p)
  }

  /** Every detected position lies in a chosen match. */
  ghost predicate AllHidden(ms: seq<PiiMatch>) {
    forall p: int | Covered(ms, p) :: Covered(Deduplicate(ms), p)
  }

  /** The end of `k` lies inside of `m`. */
  predicate EndsInside(k: PiiMatch, m: PiiMatch) {
    m.start < k.end < m.end
  }

  /** `b` begins in `a` and goes on behind it. */
  predicate OverlapsPartly(a: PiiMatch, b: PiiMatch) {
    a.start <= b.start < a.end < b.end
  }

  predicate StartsAt(m: PiiMatch, p: int) {
    m.start == p
  }

  ghost predicate SomeStartsAt(ms: seq<PiiMatch>, p: int) {
    exists i :: 0 <= i < |ms| && StartsAt(ms[i], p)
  }

  // ---- chosen matches ----

  lemma CoveredBy(ms: seq<PiiMatch>, m: PiiMatch, p: int)
    requires m in ms && Holds(m, p)
    ensures Covered(ms, p)
  {
    var i :| 0 <= i < |ms| && ms[i] == m;
    assert Holds(ms[i], p);
  }

  /** The beginning of every match lies in a chosen one. */
  lemma StartIsHidden(ms: seq<PiiMatch>, m: PiiMatch) returns (k: PiiMatch)
    requires Lengthy(ms) && m in ms
    ensures k in Deduplicate(ms) && k.start <= m.start < k.end
  {
    ChosenOk(ms);
    assert ChosenOrOverlapped(Deduplicate(ms), m);
    if m in Deduplicate(ms) {
      var i :| 0 <= i < |ms| && ms[i] == m;
      assert NotEmpty(ms[i]);
      k := m;
    } else {
      var j :| 0 <= j < |Deduplicate(ms)| && Covers(Deduplicate(ms)[j], m);
      k := Deduplicate(ms)[j];
    }
  }

  lemma SeparateEnds(kept: seq<PiiMatch>, i: nat, j: nat)
    requires Separate(kept) && Lengthy(kept) && i < |kept| && j < |kept| && kept[i].end < kept[j].end
    ensures kept[i].end <= kept[j].start
  {
    assert NotEmpty(kept[i]);
    if i < j {
      assert Before(kept[i], kept[j]);
    }
  }

  /** A chosen match that reaches over the end of another one begins there. */
  lemma NextBeginsAtEnd(ms: seq<PiiMatch>, k: PiiMatch, k2: PiiMatch)
    requires Lengthy(ms) && k in Deduplicate(ms) && k2 in Deduplicate(ms) && k2.start <= k.end < k2.end
    ensures k2.start == k.end
  {
    ChosenOk(ms);
    var kept := Deduplicate(ms);
    var i :| 0 <= i < |kept| && kept[i] == k;
    var j :| 0 <= j < |kept| && kept[j] == k2;
    SortedLengthy(ms);
    ChosenSeparate(Sorted(ms), |Sorted(ms)|);
    SeparateEnds(kept, i, j);
  }

  // ---- when everything is hidden ----

  /** Wherever a chosen match ends inside of a match, another match begins. */
  ghost predicate Continued(ms: seq<PiiMatch>) {
    forall k, m | k in Deduplicate(ms) && m in ms && EndsInside(k, m) :: SomeStartsAt(ms, k.end)
  }

  /** From a chosen match that reaches into `m`, on to the one that holds `p`. */
  lemma Continue(ms: seq<PiiMatch>, k: PiiMatch, m: PiiMatch, p: int)
    requires Lengthy(ms) && Continued(ms) && k in Deduplicate(ms) && m in ms && Holds(m, p)
    requires k.start <= p && m.start < k.end
    ensures Covered(Deduplicate(ms), p)
    decreases p - k.end
  {
    if p < k.end {
      CoveredBy(Deduplicate(ms), k, p);
    } else {
      assert EndsInside(k, m);
      var i :| 0 <= i < |ms| && StartsAt(ms[i], k.end);
      var next := StartIsHidden(ms, ms[i]);
      Continue(ms, next, m, p);
    }
  }

  lemma EndIsHidden(ms: seq<PiiMatch>, k: PiiMatch, m: PiiMatch)
    requires Lengthy(ms) && AllHidden(ms) && k in Deduplicate(ms) && m in ms && EndsInside(k, m)
    ensures SomeStartsAt(ms, k.end)
  {
    CoveredBy(ms, m, k.end);
    var j :| 0 <= j < |Deduplicate(ms)| && Holds(Deduplicate(ms)[j], k.end);
    var next := Deduplicate(ms)[j];
    NextBeginsAtEnd(ms, k, next);
    ChosenOk(ms);
    assert next in ms;
    var i :| 0 <= i < |ms| && ms[i] == next;
    assert StartsAt(ms[i], k.end);
  }

  /** Every detected position is hidden exactly if, wherever a chosen match ends inside of a match, another match
      begins. */
  lemma AllHiddenIff(ms: seq<PiiMatch>)
    requires Lengthy(ms)
    ensures AllHidden(ms) <==> Continued(ms)
  {
    if Continued(ms) {
      forall p: int | Covered(ms, p) ensures Covered(Deduplicate(ms), p) {
        var i :| 0 <= i < |ms| && Holds(ms[i], p);
        var k := StartIsHidden(ms, ms[i]);
        Continue(ms, k, ms[i], p);
      }
    }
    if AllHidden(ms) {
      forall k, m | k in Deduplicate(ms) && m in ms && EndsInside(k, m) ensures SomeStartsAt(ms, k.end) {
        EndIsHidden(ms, k, m);
      }
    }
  }

  /** In particular if no match begins in another one and goes on behind it. */
  lemma HiddenWithoutOverlaps(ms: seq<PiiMatch>)
    requires Lengthy(ms) && forall a, b | a in ms && b in ms :: !OverlapsPartly(a, b)
    ensures AllHidden(ms)
  {
    forall p: int | Covered(ms, p) ensures Covered(Deduplicate(ms), p) {
      var i :| 0 <= i < |ms| && Holds(ms[i], p);
      var k := StartIsHidden(ms, ms[i]);
      ChosenOk(ms);
      assert k in ms && !OverlapsPartly(k, ms[i]);
      CoveredBy(Deduplicate(ms), k, p);
    }
  }

  // ---- what is not hidden is readable ----

  /** How many of the chosen matches end at or before `p`. */
  lemma PlaceBetween(kept: seq<PiiMatch>, p: nat, n: nat) returns (k: nat)
    requires Separate(kept) && Lengthy(kept) && n <= |kept| && !Covered(kept, p)
    requires n < |kept| ==> p < kept[n].start
    ensures k <= |kept| && Between(kept, k, p)
  {
    if n == 0 {
      k := 0;
    } else {
      assert !Holds(kept[n - 1], p);
      if kept[n - 1].end <= p {
        k := n;
      } else {
        k := PlaceBetween(kept, p, n - 1);
      }
    }
  }

  /** A position outside of the chosen matches is copied to the output. */
  lemma OutsideIsReadable(text: string, ms: seq<PiiMatch>, p: nat) returns (at: int)
    requires SpansOk(text, ms) && p < |text| && !Covered(Deduplicate(ms), p)
    ensures StandsAt(Masked(text, ms), at, [text[p]])
  {
    ChosenSpansOk(text, ms);
    var kept := Deduplicate(ms);
    assert Lengthy(kept) by {
      forall i | 0 <= i < |kept| ensures NotEmpty(kept[i]) {
        assert SpanOk(text, kept[i]);
      }
    }
    var n := PlaceBetween(kept, p, |kept|);
    OutsideStays(text, kept, 0, 0, n, p);
    at := p + Growth(kept, 0, n);
  }

  // ---- two matches ----

  lemma SortTwo(a: PiiMatch, b: PiiMatch)
    ensures InsertByKey([a], StartOf, b) == if a.start <= b.start then [a, b] else [b, a]
  {
    assert StartOf(a) <= StartOf(b) <==> a.start <= b.start;
    assert [a][..0] == [];
    assert InsertByKey([], StartOf, b) == [b];
  }

  lemma ChooseTwo(a: PiiMatch, b: PiiMatch)
    requires NotEmpty(a) && NotEmpty(b)
    ensures Deduplicate([a, b]) == if a.start <= b.start then (if b.start < a.end then [a] else [a, b])
                                   else if a.start < b.end then [b] else [b, a]
  {
    var ms := [a, b];
    var first, second := if a.start <= b.start then a else b, if a.start <= b.start then b else a;
    assert SortTo(ms, StartOf, 0) == [];
    assert SortTo(ms, StartOf, 1) == [a];
    SortTwo(a, b);
    assert Sorted(ms) == [first, second];
    assert ChosenTo([first, second], 1) == [first];
    assert ChosenTo([first, second], 2) == if second.start >= first.end then [first, second] else [first];
  }

  lemma TailIsCovered(ms: seq<PiiMatch>, kept: seq<PiiMatch>, first: PiiMatch, second: PiiMatch)
    requires kept == [first] && second in ms && OverlapsPartly(first, second)
    ensures Covered(ms, first.end) && !Covered(kept, first.end)
  {
    CoveredBy(ms, second, first.end);
  }

  /** Of two matches everything is hidden exactly if the second one in the text does not begin in the first and go on
      behind it; of two that begin together the one listed first counts as the first. */
  lemma TwoHiddenIff(a: PiiMatch, b: PiiMatch)
    requires NotEmpty(a) && NotEmpty(b)
    ensures AllHidden([a, b]) <==> !OverlapsPartly(a, b) && !(b.start < a.start && OverlapsPartly(b, a))
  {
    ChooseTwo(a, b);
    var ms, kept := [a, b], Deduplicate([a, b]);
    if OverlapsPartly(a, b) {
      TailIsCovered(ms, kept, a, b);
    } else if b.start < a.start && OverlapsPartly(b, a) {
      TailIsCovered(ms, kept, b, a);
    } else {
      forall p: int | Covered(ms, p) ensures Covered(kept, p) {
        var i :| 0 <= i < |ms| && Holds(ms[i], p);
        if Holds(a, p) && a in kept {
          CoveredBy(kept, a, p);
        } else if Holds(b, p) && b in kept {
          CoveredBy(kept, b, p);
        } else {
          assert Holds(kept[0], p);
        }
      }
    }
  }
}
