/** Sums of a real-valued function over a finite set, in no particular order. */
module Sums {
  ghost function SumOver<T>(s: set<T>, f: T -> real): real {
    if s == {} then 0.0 else
    var x :| x in s;
    f(x) + SumOver(s - {x}, f)
  }

  /** The sum does not depend on which element is taken out first. */
  lemma {:induction false} SumTakeOut<T>(s: set<T>, f: T -> real, x: T)
    requires x in s
    ensures SumOver(s, f) == f(x) + SumOver(s - {x}, f)
  {
    var y :| y in s && SumOver(s, f) == f(y) + SumOver(s - {y}, f);
    if y != x {
      SumTakeOut(s - {y}, f, x);
      SumTakeOut(s - {x}, f, y);
      assert s - {y} - {x} == s - {x} - {y};
    }
  }

  /** Matching the elements of two sets one to one, with equal terms. */
  lemma {:induction false} SumMatched<S, T>(s: set<S>, t: set<T>, f: S -> real, g: T -> real, to: S -> T, back: T -> S)
    requires forall x | x in s :: to(x) in t && back(to(x)) == x && f(x) == g(to(x))
    requires forall y | y in t :: back(y) in s && to(back(y)) == y
    ensures SumOver(s, f) == SumOver(t, g) && |s| == |t|
  {
    if s == {} {
      assert t == {} by {
        if y :| y in t {
          assert back(y) in s;
        }
      }
    } else {
      var x :| x in s;
      SumTakeOut(s, f, x);
      SumTakeOut(t, g, to(x));
      SumMatched(s - {x}, t - {to(x)}, f, g, to, back);
    }
  }

  /** Pointwise equal functions have equal sums. */
  lemma {:induction false} SumCongruent<T>(s: set<T>, f: T -> real, g: T -> real)
    requires forall x | x in s :: f(x) == g(x)
    ensures SumOver(s, f) == SumOver(s, g)
  {
    if s != {} {
      var x :| x in s;
      SumTakeOut(s, f, x);
      SumTakeOut(s, g, x);
      SumCongruent(s - {x}, f, g);
    }
  }

  /** The sum of two functions added pointwise. */
  lemma {:induction false} SumPlus<T>(s: set<T>, f: T -> real, g: T -> real, h: T -> real)
    requires forall x | x in s :: f(x) == g(x) + h(x)
    ensures SumOver(s, f) == SumOver(s, g) + SumOver(s, h)
  {
    if s != {} {
      var x :| x in s;
      SumTakeOut(s, f, x);
      SumTakeOut(s, g, x);
      SumTakeOut(s, h, x);
      SumPlus(s - {x}, f, g, h);
    }
  }

  /** Changing the function at one element changes the sum by as much. */
  lemma SumChangeOne<T>(s: set<T>, f: T -> real, g: T -> real, x: T, d: real)
    requires x in s && f(x) == g(x) + d
    requires forall y | y in s && y != x :: f(y) == g(y)
    ensures SumOver(s, f) == SumOver(s, g) + d
  {
    SumTakeOut(s, f, x);
    SumTakeOut(s, g, x);
    SumCongruent(s - {x}, f, g);
  }

  lemma {:induction false} SumNotPositive<T>(s: set<T>, f: T -> real)
    requires forall x | x in s :: f(x) <= 0.0
    ensures SumOver(s, f) <= 0.0
  {
    if s != {} {
      var x :| x in s;
      SumTakeOut(s, f, x);
      SumNotPositive(s - {x}, f);
    }
  }

  /** `x` added `n` times: the product, in a form that is unfolded one summand at a time. */
  ghost function Times(n: nat, x: real): real {
    if n == 0 then 0.0 else Times(n - 1, x) + x
  }

  lemma {:induction false} TimesIsProduct(n: nat, x: real)
    ensures Times(n, x) == n as real * x
  {
    if n > 0 {
      TimesIsProduct(n - 1, x);
      assert n as real == (n - 1) as real + 1.0;
      assert n as real * x == (n - 1) as real * x + x;
    }
  }

  lemma {:induction false} TimesSum(a: nat, b: nat, x: real)
    ensures Times(a + b, x) == Times(a, x) + Times(b, x)
  {
    if b > 0 {
      TimesSum(a, b - 1, x);
    }
  }

  lemma {:induction false} TimesNested(a: nat, b: nat, x: real)
    ensures Times(b, Times(a, x)) == Times(a * b, x)
  {
    if b > 0 {
      TimesNested(a, b - 1, x);
      TimesSum(a * (b - 1), a, x);
      assert a * (b - 1) + a == a * b;
    }
  }

  lemma {:induction false} TimesPositive(n: nat, x: real)
    requires x > 0.0
    ensures n > 0 ==> Times(n, x) >= x
  {
    if n > 1 {
      TimesPositive(n - 1, x);
    }
  }

  /** Terms that are all above `-bound` sum to more than minus their number times the bound. */
  lemma {:induction false} SumAbove<T>(s: set<T>, f: T -> real, bound: real)
    requires s != {} && forall x | x in s :: f(x) > -bound
    ensures SumOver(s, f) > -Times(|s|, bound)
  {
    var x :| x in s;
    var rest := s - {x};
    SumTakeOut(s, f, x);
    assert |s| == |rest| + 1;
    assert Times(|s|, bound) == Times(|rest|, bound) + bound;
    if rest == {} {
      assert Times(|rest|, bound) == 0.0;
    } else {
      SumAbove(rest, f, bound);
    }
  }

  /** Terms that are all at most `bound` sum to at most their number times the bound, and to less if one is smaller. */
  lemma {:induction false} SumAtMost<T>(s: set<T>, f: T -> real, bound: real)
    requires forall x | x in s :: f(x) <= bound
    ensures SumOver(s, f) <= Times(|s|, bound)
    ensures SumOver(s, f) == Times(|s|, bound) ==> forall x | x in s :: f(x) == bound
  {
    if s != {} {
      var x :| x in s;
      var rest := s - {x};
      SumTakeOut(s, f, x);
      SumAtMost(rest, f, bound);
      assert Times(|s|, bound) == Times(|rest|, bound) + bound;
      forall y | y in s && y != x ensures y in rest {
      }
    }
  }

  /** Terms that are all at least zero and sum to zero are all zero. */
  lemma {:induction false} SumZero<T>(s: set<T>, f: T -> real)
    requires forall x | x in s :: f(x) >= 0.0
    ensures SumOver(s, f) >= 0.0
    ensures SumOver(s, f) == 0.0 ==> forall x | x in s :: f(x) == 0.0
  {
    if s != {} {
      var x :| x in s;
      SumTakeOut(s, f, x);
      SumZero(s - {x}, f);
    }
  }
}
