/** Sequences without repetitions, insertion-ordered dictionaries and stable sorting. */
module Collections {
  ghost predicate Distinct<T>(s: seq<T>) {
    forall i, j | 0 <= i < j < |s| :: s[i] != s[j]
  }

  function Elements<T>(s: seq<T>): set<T> {
    set x | x in s
  }

  lemma ElementsSnoc<T>(s: seq<T>, x: T)
    ensures Elements(s + [x]) == Elements(s) + {x}
  {
  }

  lemma {:induction false} DistinctSize<T>(s: seq<T>)
    requires Distinct(s)
    ensures |Elements(s)| == |s|
  {
    if s != [] {
      var front := s[..|s| - 1];
      DistinctSize(front);
      assert s == front + [s[|s| - 1]];
      ElementsSnoc(front, s[|s| - 1]);
      assert s[|s| - 1] !in Elements(front);
    }
  }

  lemma {:induction false} SubsetSize<T>(a: set<T>, b: set<T>)
    requires a <= b
    ensures |a| <= |b|
  {
    if a != {} {
      var x :| x in a;
      SubsetSize(a - {x}, b - {x});
    }
  }

  lemma {:induction false} DistinctCount<T>(s: seq<T>, x: T)
    requires Distinct(s)
    ensures multiset(s)[x] == if x in s then 1 else 0
  {
    if s != [] {
      assert s == s[..|s| - 1] + [s[|s| - 1]];
      DistinctCount(s[..|s| - 1], x);
    }
  }

  lemma CountedTwice<T>(s: seq<T>, i: nat, j: nat)
    requires i < j < |s| && s[i] == s[j]
    ensures multiset(s)[s[i]] >= 2
  {
    assert s == s[..i] + [s[i]] + s[i + 1..j] + [s[j]] + s[j + 1..];
  }

  /** The elements among the first `n` of `s` that are in `kept`, in order. */
  function KeepTo<T(==)>(s: seq<T>, kept: set<T>, n: nat): seq<T>
    requires n <= |s|
  {
    if n == 0 then [] else KeepTo(s, kept, n - 1) + (if s[n - 1] in kept then [s[n - 1]] else [])
  }

  /** The elements of `s` that are in `kept`, in order. */
  function Keep<T(==)>(s: seq<T>, kept: set<T>): seq<T> {
    KeepTo(s, kept, |s|)
  }

  /** `s` without `x`. */
  function Without<T(==)>(s: seq<T>, x: T): seq<T> {
    Keep(s, Elements(s) - {x})
  }

  lemma {:induction false} KeepToMembers<T>(s: seq<T>, kept: set<T>, n: nat)
    requires n <= |s|
    ensures forall x :: x in KeepTo(s, kept, n) <==> x in s[..n] && x in kept
  {
    if n > 0 {
      KeepToMembers(s, kept, n - 1);
      assert s[..n] == s[..n - 1] + [s[n - 1]];
    }
  }

  lemma KeepMembers<T>(s: seq<T>, kept: set<T>)
    ensures forall x :: x in Keep(s, kept) <==> x in s && x in kept
  {
    KeepToMembers(s, kept, |s|);
    assert s[..|s|] == s;
  }

  lemma {:induction false} KeepToDistinct<T>(s: seq<T>, kept: set<T>, n: nat)
    requires Distinct(s) && n <= |s|
    ensures Distinct(KeepTo(s, kept, n))
  {
    if n > 0 {
      KeepToDistinct(s, kept, n - 1);
      KeepToMembers(s, kept, n - 1);
    }
  }

  lemma {:induction false} KeepToSame<T>(s: seq<T>, a: set<T>, b: set<T>, n: nat)
    requires n <= |s|
    requires forall x | x in s :: x in a <==> x in b
    ensures KeepTo(s, a, n) == KeepTo(s, b, n)
  {
    if n > 0 {
      KeepToSame(s, a, b, n - 1);
    }
  }

  lemma {:induction false} KeepToPrefix<T>(s: seq<T>, t: seq<T>, kept: set<T>, n: nat)
    requires n <= |s| && n <= |t| && s[..n] == t[..n]
    ensures KeepTo(s, kept, n) == KeepTo(t, kept, n)
  {
    if n > 0 {
      assert s[..n - 1] == s[..n][..n - 1] && t[..n - 1] == t[..n][..n - 1];
      assert s[n - 1] == s[..n][n - 1] == t[..n][n - 1] == t[n - 1];
      KeepToPrefix(s, t, kept, n - 1);
    }
  }

  lemma KeepSnoc<T>(s: seq<T>, x: T, kept: set<T>)
    ensures Keep(s + [x], kept) == Keep(s, kept) + (if x in kept then [x] else [])
  {
    assert (s + [x])[..|s|] == s[..|s|];
    KeepToPrefix(s + [x], s, kept, |s|);
  }

  /** Keeping twice is keeping what both keep. */
  lemma {:induction false} KeepTwice<T>(s: seq<T>, a: set<T>, b: set<T>, n: nat)
    requires n <= |s|
    ensures Keep(KeepTo(s, a, n), b) == KeepTo(s, a * b, n)
  {
    if n > 0 {
      KeepTwice(s, a, b, n - 1);
      KeepSnoc(KeepTo(s, a, n - 1), s[n - 1], b);
      assert s[n - 1] !in a ==> KeepTo(s, a, n) == KeepTo(s, a, n - 1);
    }
  }

  lemma {:induction false} KeepAll<T>(s: seq<T>, kept: set<T>, n: nat)
    requires n <= |s| && forall x | x in s :: x in kept
    ensures KeepTo(s, kept, n) == s[..n]
  {
    if n > 0 {
      KeepAll(s, kept, n - 1);
      assert s[..n] == s[..n - 1] + [s[n - 1]];
    }
  }

  lemma WithoutKeeps<T>(s: seq<T>, x: T)
    requires Distinct(s)
    ensures Distinct(Without(s, x))
    ensures Elements(Without(s, x)) == Elements(s) - {x}
  {
    KeepToDistinct(s, Elements(s) - {x}, |s|);
    KeepMembers(s, Elements(s) - {x});
    var r := Without(s, x);
    forall y ensures y in r <==> y in s && y != x {
      assert y in r <==> y in s && y in Elements(s) - {x};
    }
    assert Elements(r) == Elements(s) - {x};
  }

  /** Leaving out and keeping commute. */
  lemma WithoutKept<T>(s: seq<T>, kept: set<T>, x: T)
    ensures Without(Keep(s, kept), x) == Keep(Without(s, x), kept) == Keep(s, kept - {x})
  {
    var inner := Keep(s, kept);
    KeepMembers(s, kept);
    KeepTwice(s, kept, Elements(inner) - {x}, |s|);
    KeepToSame(s, kept * (Elements(inner) - {x}), kept - {x}, |s|);
    KeepTwice(s, Elements(s) - {x}, kept, |s|);
    KeepToSame(s, (Elements(s) - {x}) * kept, kept - {x}, |s|);
  }

  lemma WithoutAbsent<T>(s: seq<T>, x: T)
    requires x !in s
    ensures Without(s, x) == s
  {
    KeepAll(s, Elements(s) - {x}, |s|);
    assert s[..|s|] == s;
  }

  lemma {:induction false} KeepTail<T>(s: seq<T>, kept: set<T>, n: nat)
    requires 0 < n <= |s| && s[0] !in kept && forall i | 0 < i < |s| :: s[i] in kept
    ensures KeepTo(s, kept, n) == s[1..n]
  {
    if n > 1 {
      KeepTail(s, kept, n - 1);
      assert s[1..n] == s[1..n - 1] + [s[n - 1]];
    }
  }

  lemma WithoutFirst<T>(s: seq<T>)
    requires Distinct(s) && s != []
    ensures Without(s, s[0]) == s[1..]
  {
    KeepTail(s, Elements(s) - {s[0]}, |s|);
  }

  lemma DistinctSnoc<T>(s: seq<T>, x: T)
    requires Distinct(s) && x !in s
    ensures Distinct(s + [x])
  {
  }

  // ---- insertion-ordered dictionaries ----

  /** A dictionary that remembers the order in which its keys were first put in. */
  datatype Dict<K(==), V> = Dict(keys: seq<K>, at: map<K, V>) {
    ghost predicate Ok() {
      Distinct(keys) && Elements(keys) == at.Keys
    }

    function Put(k: K, v: V): Dict<K, V> {
      Dict(if k in at then keys else keys + [k], at[k := v])
    }

    function Drop(k: K): Dict<K, V> {
      Dict(Without(keys, k), at - {k})
    }

    lemma PutOk(k: K, v: V)
      requires Ok()
      ensures Put(k, v).Ok()
    {
    }
  }

  function EmptyDict<K, V>(): Dict<K, V> {
    Dict([], map[])
  }

  // ---- stable sorting ----

  /** `x` put in after the elements whose key is not larger. */
  function InsertByKey<T>(s: seq<T>, key: T -> real, x: T): seq<T> {
    if s == [] then [x]
    else if key(s[|s| - 1]) <= key(x) then s + [x]
    else InsertByKey(s[..|s| - 1], key, x) + [s[|s| - 1]]
  }

  /** The first `n` elements sorted by ascending key; equal keys keep their order. */
  function SortTo<T>(s: seq<T>, key: T -> real, n: nat): seq<T>
    requires n <= |s|
  {
    if n == 0 then [] else InsertByKey(SortTo(s, key, n - 1), key, s[n - 1])
  }

  function SortByKey<T>(s: seq<T>, key: T -> real): seq<T> {
    SortTo(s, key, |s|)
  }

  ghost predicate Ascending<T>(s: seq<T>, key: T -> real) {
    forall i, j | 0 <= i < j < |s| :: key(s[i]) <= key(s[j])
  }

  ghost predicate Precedes<T>(s: seq<T>, x: T, y: T) {
    exists i, j :: 0 <= i < j < |s| && s[i] == x && s[j] == y
  }

  lemma {:induction false} InsertAdds<T>(s: seq<T>, key: T -> real, x: T)
    ensures multiset(InsertByKey(s, key, x)) == multiset(s) + multiset{x}
  {
    if s != [] && key(s[|s| - 1]) > key(x) {
      InsertAdds(s[..|s| - 1], key, x);
      assert s == s[..|s| - 1] + [s[|s| - 1]];
    }
  }

  lemma InsertMembers<T>(s: seq<T>, key: T -> real, x: T, y: T)
    requires y in InsertByKey(s, key, x)
    ensures y in s || y == x
  {
    InsertAdds(s, key, x);
    assert y in multiset(InsertByKey(s, key, x));
  }

  lemma SnocKeepsSorted<T>(s: seq<T>, key: T -> real, x: T)
    requires Ascending(s, key) && forall y | y in s :: key(y) <= key(x)
    ensures Ascending(s + [x], key)
  {
  }

  lemma {:induction false} InsertKeepsSorted<T>(s: seq<T>, key: T -> real, x: T)
    requires Ascending(s, key)
    ensures Ascending(InsertByKey(s, key, x), key)
  {
    if s != [] && key(s[|s| - 1]) > key(x) {
      var front, last := s[..|s| - 1], s[|s| - 1];
      InsertKeepsSorted(front, key, x);
      forall y | y in InsertByKey(front, key, x) ensures key(y) <= key(last) {
        InsertMembers(front, key, x, y);
        if y in front {
          var i :| 0 <= i < |front| && front[i] == y;
          assert s[i] == y;
        }
      }
      SnocKeepsSorted(InsertByKey(front, key, x), key, last);
    }
  }

  lemma {:induction false} SortToSorts<T>(s: seq<T>, key: T -> real, n: nat)
    requires n <= |s|
    ensures Ascending(SortTo(s, key, n), key)
  {
    if n > 0 {
      SortToSorts(s, key, n - 1);
      InsertKeepsSorted(SortTo(s, key, n - 1), key, s[n - 1]);
    }
  }

  lemma TakeAdds<T>(s: seq<T>, n: nat)
    requires 0 < n <= |s|
    ensures multiset(s[..n]) == multiset(s[..n - 1]) + multiset{s[n - 1]}
  {
    assert s[..n] == s[..n - 1] + [s[n - 1]];
  }

  lemma {:induction false} SortToPermutes<T>(s: seq<T>, key: T -> real, n: nat)
    requires n <= |s|
    ensures multiset(SortTo(s, key, n)) == multiset(s[..n])
  {
    if n > 0 {
      SortToPermutes(s, key, n - 1);
      InsertAdds(SortTo(s, key, n - 1), key, s[n - 1]);
      TakeAdds(s, n);
    }
  }

  /** Sorting yields the same elements in ascending order of their keys. */
  lemma SortSorts<T>(s: seq<T>, key: T -> real)
    ensures Ascending(SortByKey(s, key), key)
    ensures multiset(SortByKey(s, key)) == multiset(s)
    ensures |SortByKey(s, key)| == |s|
    ensures forall x :: x in SortByKey(s, key) <==> x in s
  {
    SortToSorts(s, key, |s|);
    SortToPermutes(s, key, |s|);
    assert s[..|s|] == s;
    var r := SortByKey(s, key);
    assert |multiset(r)| == |r| && |multiset(s)| == |s|;
    forall x ensures x in r <==> x in s {
      assert x in multiset(r) <==> x in multiset(s);
    }
  }

  lemma InLonger<T>(s: seq<T>, x: T, a: T, b: T)
    requires Precedes(s, a, b)
    ensures Precedes(s + [x], a, b)
  {
    var i, j :| 0 <= i < j < |s| && s[i] == a && s[j] == b;
    assert (s + [x])[i] == a && (s + [x])[j] == b;
  }

  lemma {:induction false} InsertHoldsNew<T>(s: seq<T>, key: T -> real, x: T)
    ensures x in InsertByKey(s, key, x)
  {
    if s != [] && key(s[|s| - 1]) > key(x) {
      InsertHoldsNew(s[..|s| - 1], key, x);
    }
  }

  lemma {:induction false} InsertHolds<T>(s: seq<T>, key: T -> real, x: T, a: T, i: nat)
    requires i < |s| && s[i] == a
    ensures a in InsertByKey(s, key, x) && x in InsertByKey(s, key, x)
  {
    if key(s[|s| - 1]) > key(x) && i < |s| - 1 {
      InsertHolds(s[..|s| - 1], key, x, a, i);
    } else if key(s[|s| - 1]) > key(x) {
      InsertHoldsNew(s[..|s| - 1], key, x);
    }
  }

  /** Inserting keeps the order of what was there and puts `x` behind its equals. */
  lemma {:induction false} InsertIsStable<T>(s: seq<T>, key: T -> real, x: T, a: T, b: T)
    requires Precedes(s, a, b) || (a in s && b == x && key(a) <= key(x))
    ensures Precedes(InsertByKey(s, key, x), a, b)
  {
    var r := InsertByKey(s, key, x);
    if key(s[|s| - 1]) <= key(x) {
      if Precedes(s, a, b) {
        var i, j :| 0 <= i < j < |s| && s[i] == a && s[j] == b;
        assert r[i] == a && r[j] == b;
      } else {
        var i :| 0 <= i < |s| && s[i] == a;
        assert r[i] == a && r[|s|] == b;
      }
    } else {
      var front, last := s[..|s| - 1], s[|s| - 1];
      var inner := InsertByKey(front, key, x);
      assert r == inner + [last];
      if Precedes(s, a, b) {
        var i, j :| 0 <= i < j < |s| && s[i] == a && s[j] == b;
        if j < |s| - 1 {
          assert front[i] == a && front[j] == b;
          InsertIsStable(front, key, x, a, b);
          InLonger(inner, last, a, b);
        } else {
          InsertHolds(front, key, x, a, i);
          var i' :| 0 <= i' < |inner| && inner[i'] == a;
          assert r[i'] == a && r[|inner|] == b;
        }
      } else {
        var i :| 0 <= i < |s| && s[i] == a;
        assert front[i] == a;
        InsertIsStable(front, key, x, a, b);
        InLonger(inner, last, a, b);
      }
    }
  }

  lemma SortToHolds<T>(s: seq<T>, key: T -> real, n: nat, i: nat)
    requires i < n <= |s|
    ensures s[i] in SortTo(s, key, n)
  {
    SortToPermutes(s, key, n);
    assert s[..n][i] == s[i];
    assert s[i] in multiset(s[..n]);
    assert s[i] in multiset(SortTo(s, key, n));
  }

  /** Elements with equal keys stay in the order they came in. */
  lemma {:induction false} SortIsStable<T>(s: seq<T>, key: T -> real, n: nat, i: nat, j: nat)
    requires i < j < n <= |s| && key(s[i]) <= key(s[j])
    ensures Precedes(SortTo(s, key, n), s[i], s[j])
  {
    if j == n - 1 {
      SortToHolds(s, key, n - 1, i);
    } else {
      SortIsStable(s, key, n - 1, i, j);
    }
    InsertIsStable(SortTo(s, key, n - 1), key, s[n - 1], s[i], s[j]);
  }
}
