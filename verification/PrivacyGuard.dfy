/** Choosing among overlapping matches of personal data, and replacing them in the text. */
module PrivacyMasking {
  import opened Collections
  import opened Options

  /** A match covers the text from `start` up to `end`; without a mask it stays as it is. */
  datatype PiiMatch = PiiMatch(category: string, start: nat, end: nat, masked: Option<string>)

  predicate SpanOk(text: string, m: PiiMatch) {
    m.start < m.end <= |text|
  }

  ghost predicate SpansOk(text: string, ms: seq<PiiMatch>) {
    forall i {:trigger SpanOk(text, ms[i])} | 0 <= i < |ms| :: SpanOk(text, ms[i])
  }

  predicate Before(a: PiiMatch, b: PiiMatch) {
    a.end <= b.start
  }

  /** In order, and no two overlap. */
  ghost predicate Separate(ms: seq<PiiMatch>) {
    forall i, j | 0 <= i < j < |ms| :: Before(ms[i], ms[j])
  }

  /** `a` begins no later than `m` and covers its beginning. */
  predicate Covers(a: PiiMatch, m: PiiMatch) {
    a.start <= m.start < a.end
  }

  ghost predicate Overlapped(kept: seq<PiiMatch>, m: PiiMatch) {
    exists k :: 0 <= k < |kept| && Covers(kept[k], m)
  }

  predicate NotEmpty(m: PiiMatch) {
    m.start < m.end
  }

  ghost predicate Lengthy(ms: seq<PiiMatch>) {
    forall i {:trigger NotEmpty(ms[i])} | 0 <= i < |ms| :: NotEmpty(ms[i])
  }

  // ---- choosing ----

  function StartOf(m: PiiMatch): real {
    m.start as real
  }

  predicate Clear(kept: seq<PiiMatch>, m: PiiMatch) {
    kept == [] || m.start >= kept[|kept| - 1].end
  }

  /** The matches among the first `n` that begin at or after the end of the last one chosen. */
  function ChosenTo(sorted: seq<PiiMatch>, n: nat): seq<PiiMatch>
    requires n <= |sorted|
  {
    if n == 0 then [] else
    var kept := ChosenTo(sorted, n - 1);
    if Clear(kept, sorted[n - 1]) then kept + [sorted[n - 1]] else kept
  }

  function Sorted(ms: seq<PiiMatch>): seq<PiiMatch> {
    SortByKey(ms, StartOf)
  }

  function Deduplicate(ms: seq<PiiMatch>): seq<PiiMatch> {
    ChosenTo(Sorted(ms), |Sorted(ms)|)
  }

  /** Each chosen match is one of the first `n`. */
  predicate Among(sorted: seq<PiiMatch>, n: nat, m: PiiMatch)
    requires n <= |sorted|
  {
    exists i :: 0 <= i < n && sorted[i] == m
  }

  lemma {:induction false} ChosenAmong(sorted: seq<PiiMatch>, n: nat)
    requires n <= |sorted|
    ensures forall k | 0 <= k < |ChosenTo(sorted, n)| :: Among(sorted, n, ChosenTo(sorted, n)[k])
  {
    if n > 0 {
      ChosenAmong(sorted, n - 1);
      var kept, kept' := ChosenTo(sorted, n - 1), ChosenTo(sorted, n);
      forall k | 0 <= k < |kept'| ensures Among(sorted, n, kept'[k]) {
        if k < |kept| {
          assert Among(sorted, n - 1, kept[k]);
        } else {
          assert sorted[n - 1] == kept'[k];
        }
      }
    }
  }

  /** The last one ends last. */
  lemma EndsBy(kept: seq<PiiMatch>, i: nat)
    requires Separate(kept) && Lengthy(kept) && i < |kept|
    ensures kept[i].end <= kept[|kept| - 1].end
  {
    if i < |kept| - 1 {
      assert Before(kept[i], kept[|kept| - 1]);
      assert NotEmpty(kept[|kept| - 1]);
    }
  }

  lemma {:induction false} ChosenSeparate(sorted: seq<PiiMatch>, n: nat)
    requires n <= |sorted| && Lengthy(sorted)
    ensures Separate(ChosenTo(sorted, n)) && Lengthy(ChosenTo(sorted, n))
  {
    if n > 0 {
      ChosenSeparate(sorted, n - 1);
      var kept, m := ChosenTo(sorted, n - 1), sorted[n - 1];
      assert NotEmpty(m);
      if Clear(kept, m) {
        forall i, j | 0 <= i < j < |kept + [m]| ensures Before((kept + [m])[i], (kept + [m])[j]) {
          if j < |kept| {
            assert Before(kept[i], kept[j]);
          } else {
            EndsBy(kept, i);
          }
        }
      }
    }
  }

  lemma OverlapStays(kept: seq<PiiMatch>, m: PiiMatch, x: PiiMatch)
    requires Overlapped(kept, m)
    ensures Overlapped(kept + [x], m)
  {
    var k :| 0 <= k < |kept| && Covers(kept[k], m);
    assert Covers((kept + [x])[k], m);
  }

  ghost predicate ChosenOrOverlapped(kept: seq<PiiMatch>, m: PiiMatch) {
    m in kept || Overlapped(kept, m)
  }

  lemma {:induction false} LastBeginsBy(sorted: seq<PiiMatch>, n: nat, j: nat)
    requires n <= j < |sorted| && Ascending(sorted, StartOf) && ChosenTo(sorted, n) != []
    ensures ChosenTo(sorted, n)[|ChosenTo(sorted, n)| - 1].start <= sorted[j].start
  {
    if Clear(ChosenTo(sorted, n - 1), sorted[n - 1]) {
      assert StartOf(sorted[n - 1]) <= StartOf(sorted[j]);
    } else {
      LastBeginsBy(sorted, n - 1, j);
    }
  }

  lemma LastOverlaps(kept: seq<PiiMatch>, m: PiiMatch)
    requires !Clear(kept, m) && kept[|kept| - 1].start <= m.start
    ensures Overlapped(kept, m)
  {
    assert Covers(kept[|kept| - 1], m);
  }

  /** A match that is not clear of the last chosen one overlaps it. */
  lemma NotClearOverlaps(sorted: seq<PiiMatch>, kept: seq<PiiMatch>, n: nat)
    requires n < |sorted| && Ascending(sorted, StartOf) && kept == ChosenTo(sorted, n) && !Clear(kept, sorted[n])
    ensures Overlapped(kept, sorted[n])
  {
    LastBeginsBy(sorted, n, n);
    LastOverlaps(kept, sorted[n]);
  }

  lemma {:induction false} OthersOverlap(sorted: seq<PiiMatch>, n: nat)
    requires n <= |sorted| && Ascending(sorted, StartOf)
    ensures forall i | 0 <= i < n :: ChosenOrOverlapped(ChosenTo(sorted, n), sorted[i])
  {
    if n > 0 {
      OthersOverlap(sorted, n - 1);
      var kept, m := ChosenTo(sorted, n - 1), sorted[n - 1];
      if Clear(kept, m) {
        forall i | 0 <= i < n ensures ChosenOrOverlapped(kept + [m], sorted[i]) {
          if i < n - 1 {
            assert ChosenOrOverlapped(kept, sorted[i]);
            if Overlapped(kept, sorted[i]) {
              OverlapStays(kept, sorted[i], m);
            }
          }
        }
      } else {
        NotClearOverlaps(sorted, kept, n - 1);
      }
    }
  }

  lemma SortedLengthy(ms: seq<PiiMatch>)
    requires Lengthy(ms)
    ensures Lengthy(Sorted(ms))
  {
    SortSorts(ms, StartOf);
    forall i | 0 <= i < |Sorted(ms)| ensures NotEmpty(Sorted(ms)[i]) {
      assert Sorted(ms)[i] in ms;
    }
  }

  /** The chosen matches are in order and do not overlap; each match that is left out overlaps a chosen one that
      begins no later. */
  lemma ChosenOk(ms: seq<PiiMatch>)
    requires Lengthy(ms)
    ensures Separate(Deduplicate(ms))
    ensures forall m | m in Deduplicate(ms) :: m in ms
    ensures forall m | m in ms :: ChosenOrOverlapped(Deduplicate(ms), m)
  {
    var sorted := Sorted(ms);
    SortSorts(ms, StartOf);
    SortedLengthy(ms);
    ChosenSeparate(sorted, |sorted|);
    ChosenAmong(sorted, |sorted|);
    OthersOverlap(sorted, |sorted|);
    forall m | m in Deduplicate(ms) ensures m in ms {
      var k :| 0 <= k < |Deduplicate(ms)| && Deduplicate(ms)[k] == m;
      assert Among(sorted, |sorted|, Deduplicate(ms)[k]);
      assert m in sorted;
    }
    forall m | m in ms ensures ChosenOrOverlapped(Deduplicate(ms), m) {
      assert m in sorted;
    }
  }

  lemma ChosenSpansOk(text: string, ms: seq<PiiMatch>)
    requires SpansOk(text, ms)
    ensures Lengthy(ms) && SpansOk(text, Deduplicate(ms)) && Separate(Deduplicate(ms))
  {
    assert Lengthy(ms) by {
      forall i | 0 <= i < |ms| ensures NotEmpty(ms[i]) {
        assert SpanOk(text, ms[i]);
      }
    }
    ChosenOk(ms);
    forall i | 0 <= i < |Deduplicate(ms)| ensures SpanOk(text, Deduplicate(ms)[i]) {
      assert Deduplicate(ms)[i] in ms;
    }
  }

  // ---- which of two matches at one place ----

  lemma CoveredIsNotClear(kept: seq<PiiMatch>, k: nat, m: PiiMatch)
    requires Separate(kept) && Lengthy(kept) && k < |kept| && Covers(kept[k], m)
    ensures !Clear(kept, m)
  {
    EndsBy(kept, k);
  }

  lemma NotClearAgain(sorted: seq<PiiMatch>, i: nat, j: nat)
    requires i < j < |sorted| && sorted[i].start == sorted[j].start
    requires Ascending(sorted, StartOf) && Lengthy(sorted)
    ensures !Clear(ChosenTo(sorted, j), sorted[j])
  {
    var kept := ChosenTo(sorted, j);
    OthersOverlap(sorted, j);
    ChosenSeparate(sorted, j);
    assert ChosenOrOverlapped(kept, sorted[i]) && NotEmpty(sorted[i]);
    if sorted[i] in kept {
      var k :| 0 <= k < |kept| && kept[k] == sorted[i];
      CoveredIsNotClear(kept, k, sorted[j]);
    } else {
      var k :| 0 <= k < |kept| && Covers(kept[k], sorted[i]);
      CoveredIsNotClear(kept, k, sorted[j]);
    }
  }

  lemma NotChosenBefore(sorted: seq<PiiMatch>, j: nat)
    requires j < |sorted| && Distinct(sorted)
    ensures sorted[j] !in ChosenTo(sorted, j)
  {
    ChosenAmong(sorted, j);
    forall k | 0 <= k < |ChosenTo(sorted, j)| ensures ChosenTo(sorted, j)[k] != sorted[j] {
      assert Among(sorted, j, ChosenTo(sorted, j)[k]);
    }
  }

  lemma {:induction false} SecondNotChosen(sorted: seq<PiiMatch>, i: nat, j: nat, n: nat)
    requires i < j < n <= |sorted| && sorted[i].start == sorted[j].start && Distinct(sorted)
    requires Ascending(sorted, StartOf) && Lengthy(sorted)
    ensures sorted[j] !in ChosenTo(sorted, n)
  {
    if j < n - 1 {
      SecondNotChosen(sorted, i, j, n - 1);
    } else {
      NotClearAgain(sorted, i, j);
      NotChosenBefore(sorted, j);
    }
  }

  lemma SortedDistinct(ms: seq<PiiMatch>)
    requires Distinct(ms)
    ensures Distinct(Sorted(ms))
  {
    var sorted := Sorted(ms);
    SortSorts(ms, StartOf);
    forall i, j | 0 <= i < j < |sorted| ensures sorted[i] != sorted[j] {
      DistinctCount(ms, sorted[i]);
      if sorted[i] == sorted[j] {
        CountedTwice(sorted, i, j);
      }
    }
  }

  /** Of two matches that begin at the same place, the one whose pattern comes later is never chosen. */
  lemma EarlierPatternWins(ms: seq<PiiMatch>, i: nat, j: nat)
    requires i < j < |ms| && ms[i].start == ms[j].start && Distinct(ms) && Lengthy(ms)
    ensures ms[j] !in Deduplicate(ms)
  {
    var sorted := Sorted(ms);
    SortSorts(ms, StartOf);
    SortedDistinct(ms);
    SortedLengthy(ms);
    SortIsStable(ms, StartOf, |ms|, i, j);
    var a, b :| 0 <= a < b < |sorted| && sorted[a] == ms[i] && sorted[b] == ms[j];
    SecondNotChosen(sorted, a, b, |sorted|);
  }

  // ---- replacing ----

  function MaskOf(text: string, m: PiiMatch): string
    requires SpanOk(text, m)
  {
    if m.masked.Some? then m.masked.value else text[m.start..m.end]
  }

  /** The matches from the `k`-th on fit into the text from `from` on. */
  ghost predicate Fits(text: string, ms: seq<PiiMatch>, k: nat, from: nat) {
    && SpansOk(text, ms) && Separate(ms)
    && k <= |ms| && from <= |text|
    && (k < |ms| ==> from <= ms[k].start)
  }

  lemma FitsNext(text: string, ms: seq<PiiMatch>, k: nat, from: nat)
    requires Fits(text, ms, k, from) && k < |ms|
    ensures SpanOk(text, ms[k]) && Fits(text, ms, k + 1, ms[k].end)
  {
    assert SpanOk(text, ms[k]);
    if k + 1 < |ms| {
      assert Before(ms[k], ms[k + 1]);
    }
  }

  /** What is written for the `k`-th match, with the text before it. */
  function Piece(text: string, ms: seq<PiiMatch>, k: nat, from: nat): string
    requires Fits(text, ms, k, from) && k < |ms|
  {
    FitsNext(text, ms, k, from);
    text[from..ms[k].start] + MaskOf(text, ms[k])
  }

  /** The text from `from` on with the matches from the `k`-th on replaced. */
  function Spliced(text: string, ms: seq<PiiMatch>, k: nat, from: nat): string
    requires Fits(text, ms, k, from)
    decreases |ms| - k
  {
    if k == |ms| then text[from..] else
    FitsNext(text, ms, k, from);
    Piece(text, ms, k, from) + Spliced(text, ms, k + 1, ms[k].end)
  }

  lemma Regroup(a: string, b: string, c: string, d: string)
    ensures a + ((b + c) + d) == (a + b + c) + d
  {
  }

  lemma SplicedStep(text: string, ms: seq<PiiMatch>, k: nat, from: nat, out: string)
    requires Fits(text, ms, k, from) && k < |ms|
    ensures SpanOk(text, ms[k]) && Fits(text, ms, k + 1, ms[k].end)
    ensures out + Spliced(text, ms, k, from)
         == (out + text[from..ms[k].start] + MaskOf(text, ms[k])) + Spliced(text, ms, k + 1, ms[k].end)
  {
    FitsNext(text, ms, k, from);
    Regroup(out, text[from..ms[k].start], MaskOf(text, ms[k]), Spliced(text, ms, k + 1, ms[k].end));
  }

  /** The match among the first `n` that begins at `i`, if any. */
  function BeginningAt(ms: seq<PiiMatch>, i: nat, n: nat): Option<PiiMatch>
    requires n <= |ms|
  {
    if n == 0 then None else if ms[n - 1].start == i then Some(ms[n - 1]) else BeginningAt(ms, i, n - 1)
  }

  lemma {:induction false} BeginningAtIs(ms: seq<PiiMatch>, i: nat, n: nat)
    requires n <= |ms|
    ensures BeginningAt(ms, i, n).Some? ==> exists h ::
      0 <= h < n && ms[h] == BeginningAt(ms, i, n).value && ms[h].start == i
    ensures BeginningAt(ms, i, n).None? ==> forall h | 0 <= h < n :: ms[h].start != i
  {
    if n > 0 && ms[n - 1].start != i {
      BeginningAtIs(ms, i, n - 1);
    }
  }

  lemma BeginningFits(text: string, ms: seq<PiiMatch>, i: nat)
    requires SpansOk(text, ms)
    ensures var m := BeginningAt(ms, i, |ms|); m.Some? ==> SpanOk(text, m.value) && m.value.start == i
  {
    BeginningAtIs(ms, i, |ms|);
  }

  /** Reading the text character by character: where a match begins its mask is written and the match skipped, every
      other character is copied. */
  function Scanned(text: string, ms: seq<PiiMatch>, i: nat): string
    requires SpansOk(text, ms) && i <= |text|
    decreases |text| - i
  {
    if i == |text| then "" else
    BeginningFits(text, ms, i);
    match BeginningAt(ms, i, |ms|)
    case Some(m) => (if m.masked.Some? then m.masked.value else text[m.start..m.end]) + Scanned(text, ms, m.end)
    case None => [text[i]] + Scanned(text, ms, i + 1)
  }

  predicate PastBefore(ms: seq<PiiMatch>, k: nat, i: nat) {
    0 < k <= |ms| ==> ms[k - 1].end <= i
  }

  lemma EndsBefore(text: string, ms: seq<PiiMatch>, h: nat, k: nat)
    requires SpansOk(text, ms) && Separate(ms) && h < k <= |ms|
    ensures ms[h].end <= ms[k - 1].end
  {
    if h < k - 1 {
      assert Before(ms[h], ms[k - 1]);
      assert SpanOk(text, ms[k - 1]);
    }
  }

  lemma BeginsAfter(text: string, ms: seq<PiiMatch>, k: nat, h: nat)
    requires SpansOk(text, ms) && Separate(ms) && k < h < |ms|
    ensures ms[k].start < ms[h].start
  {
    assert SpanOk(text, ms[k]);
    assert Before(ms[k], ms[h]);
  }

  /** Only the next match can begin here. */
  lemma OnlyNextBegins(text: string, ms: seq<PiiMatch>, k: nat, i: nat, h: nat)
    requires Fits(text, ms, k, i) && PastBefore(ms, k, i) && h < |ms| && ms[h].start == i
    ensures h == k
  {
    assert SpanOk(text, ms[h]);
    if h < k {
      EndsBefore(text, ms, h, k);
    } else if h > k {
      BeginsAfter(text, ms, k, h);
    }
  }

  lemma NextMatch(text: string, ms: seq<PiiMatch>, k: nat, i: nat)
    requires Fits(text, ms, k, i) && PastBefore(ms, k, i)
    ensures BeginningAt(ms, i, |ms|) == if k < |ms| && ms[k].start == i then Some(ms[k]) else None
  {
    BeginningAtIs(ms, i, |ms|);
    if BeginningAt(ms, i, |ms|).Some? {
      var h :| 0 <= h < |ms| && ms[h] == BeginningAt(ms, i, |ms|).value && ms[h].start == i;
      OnlyNextBegins(text, ms, k, i, h);
    }
  }

  lemma PieceOne(text: string, ms: seq<PiiMatch>, k: nat, i: nat)
    requires Fits(text, ms, k, i) && k < |ms| && i < ms[k].start
    ensures i < |text| && Fits(text, ms, k, i + 1)
    ensures Piece(text, ms, k, i) == [text[i]] + Piece(text, ms, k, i + 1)
  {
    FitsNext(text, ms, k, i);
    assert text[i..ms[k].start] == [text[i]] + text[i + 1..ms[k].start];
  }

  lemma CopyOne(text: string, ms: seq<PiiMatch>, k: nat, i: nat)
    requires Fits(text, ms, k, i) && i < |text| && Fits(text, ms, k, i + 1)
    ensures Spliced(text, ms, k, i) == [text[i]] + Spliced(text, ms, k, i + 1)
  {
    if k == |ms| {
      assert text[i..] == [text[i]] + text[i + 1..];
    } else {
      FitsNext(text, ms, k, i);
      PieceOne(text, ms, k, i);
    }
  }

  /** Replacing match by match writes the same as reading character by character. */
  lemma {:induction false} SplicedIsScanned(text: string, ms: seq<PiiMatch>, k: nat, i: nat)
    requires Fits(text, ms, k, i) && PastBefore(ms, k, i)
    ensures Spliced(text, ms, k, i) == Scanned(text, ms, i)
    decreases |text| - i
  {
    NextMatch(text, ms, k, i);
    if k < |ms| {
      FitsNext(text, ms, k, i);
    }
    if i < |text| {
      if k < |ms| && ms[k].start == i {
        SplicedIsScanned(text, ms, k + 1, ms[k].end);
        assert Piece(text, ms, k, i) == MaskOf(text, ms[k]);
      } else {
        SplicedIsScanned(text, ms, k, i + 1);
        CopyOne(text, ms, k, i);
      }
    }
  }

  // ---- where everything ends up ----

  /** How much longer the mask is than what it replaces. */
  function GrowthOf(m: PiiMatch): int {
    if m.masked.Some? then |m.masked.value| - (m.end - m.start) else 0
  }

  /** How much longer the masks of the matches from the `k`-th up to the `n`-th are than what they replace. */
  function Growth(ms: seq<PiiMatch>, k: nat, n: nat): int
    requires k <= n <= |ms|
    decreases n - k
  {
    if k == n then 0 else GrowthOf(ms[k]) + Growth(ms, k + 1, n)
  }

  lemma PieceLength(text: string, ms: seq<PiiMatch>, k: nat, from: nat)
    requires Fits(text, ms, k, from) && k < |ms|
    ensures |Piece(text, ms, k, from)| == ms[k].end - from + GrowthOf(ms[k])
  {
    FitsNext(text, ms, k, from);
  }

  /** The output is as much longer than the text as the masks are than the matches. */
  lemma {:induction false} LengthIs(text: string, ms: seq<PiiMatch>, k: nat, from: nat)
    requires Fits(text, ms, k, from)
    ensures |Spliced(text, ms, k, from)| == |text| - from + Growth(ms, k, |ms|)
    decreases |ms| - k
  {
    if k < |ms| {
      FitsNext(text, ms, k, from);
      PieceLength(text, ms, k, from);
      LengthIs(text, ms, k + 1, ms[k].end);
    }
  }

  /** The text position `p` lies between the `n - 1`-th and the `n`-th match. */
  predicate Between(ms: seq<PiiMatch>, n: nat, p: nat)
    requires n <= |ms|
  {
    (n > 0 ==> ms[n - 1].end <= p) && (n < |ms| ==> p < ms[n].start)
  }

  /** `part` stands in `s` at `at`. */
  predicate StandsAt(s: string, at: int, part: string) {
    0 <= at && at + |part| <= |s| && s[at..at + |part|] == part
  }

  lemma StandsLater(head: string, s: string, at: int, part: string)
    requires StandsAt(s, at, part)
    ensures StandsAt(head + s, |head| + at, part)
  {
    assert (head + s)[|head| + at..|head| + at + |part|] == s[at..at + |part|];
  }

  lemma StandsInside(a: string, part: string, b: string)
    ensures StandsAt((a + part) + b, |a|, part)
  {
    assert ((a + part) + b)[|a|..|a| + |part|] == part;
  }

  lemma StandsEarlier(s: string, at: int, part: string, tail: string)
    requires StandsAt(s, at, part)
    ensures StandsAt(s + tail, at, part)
  {
    assert (s + tail)[at..at + |part|] == s[at..at + |part|];
  }

  /** What stands in the rest of the output stands later in the output with one more match before it. */
  lemma StandsAfterPiece(text: string, ms: seq<PiiMatch>, k: nat, from: nat, at: int, part: string)
    requires Fits(text, ms, k, from) && k < |ms|
    requires Fits(text, ms, k + 1, ms[k].end) && StandsAt(Spliced(text, ms, k + 1, ms[k].end), at, part)
    ensures StandsAt(Spliced(text, ms, k, from), at + ms[k].end - from + GrowthOf(ms[k]), part)
  {
    PieceLength(text, ms, k, from);
    StandsLater(Piece(text, ms, k, from), Spliced(text, ms, k + 1, ms[k].end), at, part);
  }

  /** A character before the next match stands in the output as far from the beginning as in the text. */
  lemma BeforeStays(text: string, ms: seq<PiiMatch>, k: nat, from: nat, p: nat)
    requires Fits(text, ms, k, from) && from <= p < |text| && (k < |ms| ==> p < ms[k].start)
    ensures StandsAt(Spliced(text, ms, k, from), p - from, [text[p]])
  {
    if k == |ms| {
      assert text[from..][p - from] == text[p];
    } else {
      FitsNext(text, ms, k, from);
      var before := text[from..ms[k].start];
      assert before[p - from] == text[p];
      assert StandsAt(before, p - from, [text[p]]);
      StandsEarlier(before, p - from, [text[p]], MaskOf(text, ms[k]));
      StandsEarlier(Piece(text, ms, k, from), p - from, [text[p]], Spliced(text, ms, k + 1, ms[k].end));
    }
  }

  lemma SkipsMatch(text: string, ms: seq<PiiMatch>, k: nat, from: nat, n: nat, p: nat)
    requires Fits(text, ms, k, from) && k < n <= |ms| && Between(ms, n, p)
    ensures Fits(text, ms, k + 1, ms[k].end) && ms[k].end <= p
  {
    FitsNext(text, ms, k, from);
    EndsBefore(text, ms, k, n);
  }

  lemma StaysBehindMatch(text: string, ms: seq<PiiMatch>, k: nat, from: nat, n: nat, p: nat)
    requires Fits(text, ms, k, from) && k < n <= |ms| && p < |text|
    requires Fits(text, ms, k + 1, ms[k].end)
    requires StandsAt(Spliced(text, ms, k + 1, ms[k].end), p - ms[k].end + Growth(ms, k + 1, n), [text[p]])
    ensures StandsAt(Spliced(text, ms, k, from), p - from + Growth(ms, k, n), [text[p]])
  {
    var at := p - ms[k].end + Growth(ms, k + 1, n);
    assert at + ms[k].end - from + GrowthOf(ms[k]) == p - from + Growth(ms, k, n);
    StandsAfterPiece(text, ms, k, from, at, [text[p]]);
  }

  /** A character between two matches stands in the output, moved by as much as the masks before it are longer than
      their matches. */
  lemma {:induction false} OutsideStays(text: string, ms: seq<PiiMatch>, k: nat, from: nat, n: nat, p: nat)
    requires Fits(text, ms, k, from) && k <= n <= |ms| && Between(ms, n, p) && from <= p < |text|
    ensures StandsAt(Spliced(text, ms, k, from), p - from + Growth(ms, k, n), [text[p]])
    decreases |ms| - k
  {
    if n > k {
      SkipsMatch(text, ms, k, from, n, p);
      OutsideStays(text, ms, k + 1, ms[k].end, n, p);
      StaysBehindMatch(text, ms, k, from, n, p);
    } else {
      assert Growth(ms, k, n) == 0;
      BeforeStays(text, ms, k, from, p);
    }
  }

  lemma OwnMaskStands(text: string, ms: seq<PiiMatch>, k: nat, from: nat)
    requires Fits(text, ms, k, from) && k < |ms|
    ensures SpanOk(text, ms[k])
    ensures StandsAt(Spliced(text, ms, k, from), ms[k].start - from, MaskOf(text, ms[k]))
  {
    FitsNext(text, ms, k, from);
    StandsInside(text[from..ms[k].start], MaskOf(text, ms[k]), Spliced(text, ms, k + 1, ms[k].end));
  }

  /** The mask of the `n`-th match stands in the output in its place. */
  lemma {:induction false} MaskStands(text: string, ms: seq<PiiMatch>, k: nat, from: nat, n: nat)
    requires Fits(text, ms, k, from) && k <= n < |ms|
    ensures SpanOk(text, ms[n])
    ensures StandsAt(Spliced(text, ms, k, from), ms[n].start - from + Growth(ms, k, n),
                     if ms[n].masked.Some? then ms[n].masked.value else text[ms[n].start..ms[n].end])
    decreases |ms| - k
  {
    if n == k {
      OwnMaskStands(text, ms, k, from);
    } else {
      FitsNext(text, ms, k, from);
      MaskStands(text, ms, k + 1, ms[k].end, n);
      var at := ms[n].start - ms[k].end + Growth(ms, k + 1, n);
      assert at + ms[k].end - from + GrowthOf(ms[k]) == ms[n].start - from + Growth(ms, k, n);
      StandsAfterPiece(text, ms, k, from, at, MaskOf(text, ms[n]));
    }
  }

  /** The whole text with its chosen matches replaced. */
  function Masked(text: string, ms: seq<PiiMatch>): string
    requires SpansOk(text, ms)
  {
    ChosenSpansOk(text, ms);
    Spliced(text, Deduplicate(ms), 0, 0)
  }

  predicate NoMask(m: PiiMatch) {
    m.masked.None?
  }

  /** A text without matches, or whose matches have no masks, stays as it is. */
  lemma {:induction false} NoMasksNoChange(text: string, ms: seq<PiiMatch>, k: nat, from: nat)
    requires Fits(text, ms, k, from) && forall i | 0 <= i < |ms| :: NoMask(ms[i])
    ensures Spliced(text, ms, k, from) == text[from..]
    decreases |ms| - k
  {
    if k < |ms| {
      var m := ms[k];
      assert NoMask(ms[k]);
      FitsNext(text, ms, k, from);
      NoMasksNoChange(text, ms, k + 1, m.end);
      assert text[from..] == text[from..m.start] + text[m.start..m.end] + text[m.end..];
    }
  }

  lemma ChooseFirst(a: PiiMatch, b: PiiMatch)
    requires a.start <= b.start < a.end
    ensures Deduplicate([a, b]) == [a]
  {
    var ms := [a, b];
    assert StartOf(a) <= StartOf(b);
    assert SortTo(ms, StartOf, 0) == [];
    assert SortTo(ms, StartOf, 1) == [a];
    assert SortTo(ms, StartOf, 2) == [a, b];
    assert ChosenTo([a, b], 1) == [a];
    assert ChosenTo([a, b], 2) == [a];
  }

  /** Of two overlapping matches the second is left out, and what it covers beyond the end of the first stays
      readable. */
  lemma TailStaysReadable(text: string, a: PiiMatch, b: PiiMatch)
    requires SpanOk(text, a) && SpanOk(text, b) && a.start <= b.start < a.end < b.end
    ensures Masked(text, [a, b]) == text[..a.start] + MaskOf(text, a) + text[a.end..]
  {
    var ms := [a, b];
    ChooseFirst(a, b);
    ChosenSpansOk(text, ms);
    assert Spliced(text, [a], 1, a.end) == text[a.end..];
    assert text[0..a.start] == text[..a.start];
  }
}

/** The guard's loops. */
module PrivacyGuards {
  import opened PrivacyMasking

  method DeduplicateMatches(ms: seq<PiiMatch>) returns (kept: seq<PiiMatch>)
    requires Lengthy(ms)
    ensures kept == Deduplicate(ms)
    ensures Separate(kept)
    ensures forall m | m in ms :: ChosenOrOverlapped(kept, m)
  {
    ChosenOk(ms);
    var sorted := Sorted(ms);
    kept := [];
    for i := 0 to |sorted|
      invariant kept == ChosenTo(sorted, i)
    {
      if kept == [] || sorted[i].start >= kept[|kept| - 1].end {
        kept := kept + [sorted[i]];
      }
    }
  }

  method ApplyMasks(text: string, ms: seq<PiiMatch>) returns (out: string)
    requires SpansOk(text, ms) && Separate(ms)
    ensures out == Spliced(text, ms, 0, 0)
    ensures out == Scanned(text, ms, 0)
    ensures |out| == |text| + Growth(ms, 0, |ms|)
  {
    SplicedIsScanned(text, ms, 0, 0);
    LengthIs(text, ms, 0, 0);
    out := "";
    var lastEnd: nat := 0;
    for i := 0 to |ms|
      invariant Fits(text, ms, i, lastEnd)
      invariant out + Spliced(text, ms, i, lastEnd) == Spliced(text, ms, 0, 0)
    {
      FitsNext(text, ms, i, lastEnd);
      SplicedStep(text, ms, i, lastEnd, out);
      var m := ms[i];
      var mask := if m.masked.Some? then m.masked.value else text[m.start..m.end];
      out := out + text[lastEnd..m.start];
      out := out + mask;
      lastEnd := m.end;
    }
    out := out + text[lastEnd..];
  }

  /** Given the matches of all patterns in order. */
  method Detect(text: string, ms: seq<PiiMatch>) returns (hasPii: bool, kept: seq<PiiMatch>, masked: string)
    requires SpansOk(text, ms)
    ensures hasPii <==> ms != []
    ensures kept == Deduplicate(ms) && masked == Masked(text, ms)
    ensures SpansOk(text, kept) && masked == Scanned(text, kept, 0)
  {
    hasPii, kept := ms != [], [];
    ChosenSpansOk(text, ms);
    if ms != [] {
      kept := DeduplicateMatches(ms);
      masked := ApplyMasks(text, kept);
    } else {
      masked := text;
      SplicedIsScanned(text, [], 0, 0);
    }
  }
}
