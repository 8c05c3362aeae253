/** What the masked text tells about the original one. */
module PrivacyHiding {
  import opened PrivacyCoverage
  import opened PrivacyMasking

  ghost predicate AllMasked(ms: seq<PiiMatch>) {
    forall m | m in ms :: m.masked.Some?
  }

  /** The two texts differ at most inside of the matches. */
  ghost predicate AgreeOutside(text: string, text': string, ms: seq<PiiMatch>) {
    |text| == |text'| && forall p | 0 <= p < |text| && !Covered(ms, p) :: text[p] == text'[p]
  }

  lemma GapIsOutside(text: string, ms: seq<PiiMatch>, k: nat, from: nat, p: nat)
    requires Fits(text, ms, k, from) && PastBefore(ms, k, from) && from <= p && (k < |ms| ==> p < ms[k].start)
    ensures !Covered(ms, p)
  {
    if Covered(ms, p) {
      var h :| 0 <= h < |ms| && Holds(ms[h], p);
      if h < k {
        EndsBefore(text, ms, h, k);
      } else if h > k {
        BeginsAfter(text, ms, k, h);
      }
    }
  }

  lemma GapsAgree(text: string, text': string, ms: seq<PiiMatch>, k: nat, from: nat, to: nat)
    requires Fits(text, ms, k, from) && PastBefore(ms, k, from) && AgreeOutside(text, text', ms)
    requires from <= to <= |text| && (k < |ms| ==> to <= ms[k].start)
    ensures text[from..to] == text'[from..to]
  {
    forall p | from <= p < to ensures text[p] == text'[p] {
      GapIsOutside(text, ms, k, from, p);
    }
  }

  lemma {:induction false} SplicedAlike(text: string, text': string, ms: seq<PiiMatch>, k: nat, from: nat)
    requires Fits(text, ms, k, from) && Fits(text', ms, k, from) && PastBefore(ms, k, from)
    requires AllMasked(ms) && AgreeOutside(text, text', ms)
    ensures Spliced(text, ms, k, from) == Spliced(text', ms, k, from)
    decreases |ms| - k
  {
    if k == |ms| {
      GapsAgree(text, text', ms, k, from, |text|);
    } else {
      FitsNext(text, ms, k, from);
      FitsNext(text', ms, k, from);
      GapsAgree(text, text', ms, k, from, ms[k].start);
      assert ms[k] in ms;
      SplicedAlike(text, text', ms, k + 1, ms[k].end);
    }
  }

  /** What lies inside of the masked matches does not show: texts that agree outside of them give the same output. */
  lemma InsideIsHidden(text: string, text': string, ms: seq<PiiMatch>)
    requires SpansOk(text, ms) && SpansOk(text', ms) && AllMasked(Deduplicate(ms))
    requires AgreeOutside(text, text', Deduplicate(ms))
    ensures Masked(text, ms) == Masked(text', ms)
  {
    ChosenSpansOk(text, ms);
    ChosenSpansOk(text', ms);
    SplicedAlike(text, text', Deduplicate(ms), 0, 0);
  }

  lemma KeptLengthy(text: string, ms: seq<PiiMatch>)
    requires SpansOk(text, ms)
    ensures SpansOk(text, Deduplicate(ms)) && Separate(Deduplicate(ms)) && Lengthy(Deduplicate(ms))
  {
    ChosenSpansOk(text, ms);
    var kept := Deduplicate(ms);
    forall i | 0 <= i < |kept| ensures NotEmpty(kept[i]) {
      assert SpanOk(text, kept[i]);
    }
  }

  /** A position outside of the kept matches shows: texts that differ there have different outputs. */
  lemma OutsideShows(text: string, text': string, ms: seq<PiiMatch>, p: nat)
    requires SpansOk(text, ms) && SpansOk(text', ms) && |text| == |text'|
    requires p < |text| && !Covered(Deduplicate(ms), p) && text[p] != text'[p]
    ensures Masked(text, ms) != Masked(text', ms)
  {
    var kept := Deduplicate(ms);
    KeptLengthy(text, ms);
    KeptLengthy(text', ms);
    var n := PlaceBetween(kept, p, |kept|);
    OutsideStays(text, kept, 0, 0, n, p);
    OutsideStays(text', kept, 0, 0, n, p);
    var at := p + Growth(kept, 0, n);
    assert StandsAt(Masked(text, ms), at, [text[p]]) && StandsAt(Masked(text', ms), at, [text'[p]]);
    assert [text[p]][0] != [text'[p]][0];
  }

  /** If every kept match has a mask, two texts of one length have the same output exactly if they agree outside of the
      kept matches: what is inside is hidden and what is outside is not. */
  lemma SameOutputIff(text: string, text': string, ms: seq<PiiMatch>)
    requires SpansOk(text, ms) && SpansOk(text', ms) && |text| == |text'| && AllMasked(Deduplicate(ms))
    ensures Masked(text, ms) == Masked(text', ms) <==> AgreeOutside(text, text', Deduplicate(ms))
  {
    if AgreeOutside(text, text', Deduplicate(ms)) {
      InsideIsHidden(text, text', ms);
    } else {
      var p :| 0 <= p < |text| && !Covered(Deduplicate(ms), p) && text[p] != text'[p];
      OutsideShows(text, text', ms, p);
    }
  }

  /** The output depends on nothing that was detected. */
  ghost predicate TellsNothing(text: string, ms: seq<PiiMatch>)
    requires SpansOk(text, ms)
  {
    forall text': string | AgreeOutside(text, text', ms) :: SameMasked(text, text', ms)
  }

  ghost predicate SameMasked(text: string, text': string, ms: seq<PiiMatch>)
    requires SpansOk(text, ms)
  {
    SpansOk(text', ms) && Masked(text, ms) == Masked(text', ms)
  }

  lemma SpansOkAlike(text: string, text': string, ms: seq<PiiMatch>)
    requires SpansOk(text, ms) && |text| == |text'|
    ensures SpansOk(text', ms)
  {
    forall i | 0 <= i < |ms| ensures SpanOk(text', ms[i]) {
      assert SpanOk(text, ms[i]);
    }
  }

  /** Where all kept matches have masks, the output depends on nothing that was detected exactly if everything detected
      is hidden. */
  lemma TellsNothingIff(text: string, ms: seq<PiiMatch>)
    requires SpansOk(text, ms) && AllMasked(Deduplicate(ms))
    ensures TellsNothing(text, ms) <==> AllHidden(ms)
  {
    if AllHidden(ms) {
      forall text': string | AgreeOutside(text, text', ms) ensures SameMasked(text, text', ms) {
        SpansOkAlike(text, text', ms);
        InsideIsHidden(text, text', ms);
      }
    } else {
      var p: int :| Covered(ms, p) && !Covered(Deduplicate(ms), p);
      var i :| 0 <= i < |ms| && Holds(ms[i], p);
      assert SpanOk(text, ms[i]);
      var text' := text[p := if text[p] == 'a' then 'b' else 'a'];
      SpansOkAlike(text, text', ms);
      OutsideShows(text, text', ms, p);
      assert AgreeOutside(text, text', ms) && !SameMasked(text, text', ms);
    }
  }
}
