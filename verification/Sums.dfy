/** Option/Result, and finite sums of reals over sequences: the arithmetic behind
    `sum(...)` in the portfolio code and behind every conservation argument. */
module Sums {

  datatype Option<+T> = None | Some(value: T)

  datatype Result<+T, +E> = Success(value: T) | Failure(error: E)

  function Lookup<K, V>(m: map<K, V>, k: K, default: V): V
  {
    if k in m then m[k] else default
  }

  function Min(x: real, y: real): real { if x <= y then x else y }

  function Max(x: real, y: real): real { if x >= y then x else y }

  function Abs(x: real): real { if x < 0.0 then -x else x }

  /** A positive factor can be cancelled from an inequality. */
  lemma CancelFactor(q: real, r: real, p: real)
    requires q * p <= r * p && p > 0.0
    ensures q <= r
  {
    assert (r - q) * p >= 0.0;
  }

  ghost predicate Distinct<T>(xs: seq<T>)
  {
    forall i, j :: 0 <= i < j < |xs| ==> xs[i] != xs[j]
  }

  /** Sum of f over xs; the recursion follows a loop that appends on the right. */
  function Sum<T>(xs: seq<T>, f: T -> real): real
  {
    if |xs| == 0 then 0.0 else Sum(xs[..|xs| - 1], f) + f(xs[|xs| - 1])
  }

  /** Appending one element adds its term. */
  lemma SumSnoc<T>(xs: seq<T>, x: T, f: T -> real)
    ensures Sum(xs + [x], f) == Sum(xs, f) + f(x)
  {
    assert (xs + [x])[..|xs|] == xs;
  }

  /** One more element of a prefix adds its term. */
  lemma SumPrefix<T>(xs: seq<T>, n: nat, f: T -> real)
    requires n < |xs|
    ensures Sum(xs[..n + 1], f) == Sum(xs[..n], f) + f(xs[n])
  {
    assert xs[..n + 1] == xs[..n] + [xs[n]];
    SumSnoc(xs[..n], xs[n], f);
  }

  lemma {:induction false} SumConcat<T>(xs: seq<T>, ys: seq<T>, f: T -> real)
    ensures Sum(xs + ys, f) == Sum(xs, f) + Sum(ys, f)
  {
    if |ys| == 0 {
      assert xs + ys == xs;
    } else {
      var n := |ys| - 1;
      assert (xs + ys)[..|xs + ys| - 1] == xs + ys[..n];
      SumConcat(xs, ys[..n], f);
    }
  }

  /** Functions that agree on the summed elements have equal sums. */
  lemma {:induction false} SumCongruent<T>(xs: seq<T>, f: T -> real, g: T -> real)
    requires forall x :: x in xs ==> f(x) == g(x)
    ensures Sum(xs, f) == Sum(xs, g)
  {
    if |xs| == 0 {
    } else {
      var n := |xs| - 1;
      assert xs[n] in xs;
      SumCongruent(xs[..n], f, g);
    }
  }

  lemma {:induction false} SumMonotone<T>(xs: seq<T>, f: T -> real, g: T -> real)
    requires forall x :: x in xs ==> f(x) <= g(x)
    ensures Sum(xs, f) <= Sum(xs, g)
  {
    if |xs| == 0 {
    } else {
      var n := |xs| - 1;
      assert xs[n] in xs;
      SumMonotone(xs[..n], f, g);
    }
  }

  lemma {:induction false} SumLinear<T>(xs: seq<T>, f: T -> real, g: T -> real, h: T -> real, k: real)
    requires forall x :: x in xs ==> h(x) == f(x) + k * g(x)
    ensures Sum(xs, h) == Sum(xs, f) + k * Sum(xs, g)
  {
    if |xs| == 0 {
    } else {
      var n := |xs| - 1;
      assert xs[n] in xs;
      SumLinear(xs[..n], f, g, h, k);
    }
  }

  lemma {:induction false} SumConstant<T>(xs: seq<T>, f: T -> real, c: real)
    requires forall x :: x in xs ==> f(x) == c
    ensures Sum(xs, f) == |xs| as real * c
  {
    if |xs| == 0 {
    } else {
      var n := |xs| - 1;
      assert xs[n] in xs;
      SumConstant(xs[..n], f, c);
    }
  }

  /** Over distinct elements, changing f at one of them changes the sum by that difference. */
  lemma {:induction false} SumChangeOne<T>(xs: seq<T>, f: T -> real, g: T -> real, c: T)
    requires Distinct(xs) && c in xs
    requires forall x :: x in xs && x != c ==> f(x) == g(x)
    ensures Sum(xs, g) == Sum(xs, f) + g(c) - f(c)
  {
    var n := |xs| - 1;
    if xs[n] == c {
      SumCongruent(xs[..n], f, g);
    } else {
      assert xs[n] in xs;
      assert c in xs[..n];
      SumChangeOne(xs[..n], f, g, c);
    }
  }

  /** One non-negative term is at most the whole sum. */
  lemma {:induction false} SumAtLeastTerm<T>(xs: seq<T>, f: T -> real, c: T)
    requires c in xs
    requires forall x :: x in xs ==> f(x) >= 0.0
    ensures Sum(xs, f) >= f(c)
  {
    var n := |xs| - 1;
    assert xs[n] in xs;
    if xs[n] == c {
      SumMonotone(xs[..n], _ => 0.0, f);
      SumConstant<T>(xs[..n], _ => 0.0, 0.0);
    } else {
      SumAtLeastTerm(xs[..n], f, c);
    }
  }

  /** The elements of xs that satisfy p, in order. */
  function Filter<T(!new)>(xs: seq<T>, p: T -> bool): (r: seq<T>)
    ensures forall x :: x in r <==> x in xs && p(x)
  {
    if |xs| == 0 then []
    else
      var r := Filter(xs[..|xs| - 1], p);
      if p(xs[|xs| - 1]) then r + [xs[|xs| - 1]] else r
  }

  lemma {:induction false} FilterCongruent<T(!new)>(xs: seq<T>, p: T -> bool, q: T -> bool)
    requires forall x :: x in xs ==> p(x) == q(x)
    ensures Filter(xs, p) == Filter(xs, q)
  {
    if |xs| == 0 {
    } else {
      var n := |xs| - 1;
      assert xs[n] in xs;
      FilterCongruent(xs[..n], p, q);
    }
  }

  /** What satisfies p all along is kept as it is. */
  lemma {:induction false} FilterKeepsAll<T(!new)>(xs: seq<T>, p: T -> bool)
    requires forall x :: x in xs ==> p(x)
    ensures Filter(xs, p) == xs
  {
    if |xs| == 0 {
    } else {
      var n := |xs| - 1;
      assert xs[n] in xs;
      FilterKeepsAll(xs[..n], p);
    }
  }

  lemma {:induction false} FilterConcat<T(!new)>(xs: seq<T>, ys: seq<T>, p: T -> bool)
    ensures Filter(xs + ys, p) == Filter(xs, p) + Filter(ys, p)
  {
    if |ys| == 0 {
      assert xs + ys == xs;
    } else {
      var n := |ys| - 1;
      assert (xs + ys)[..|xs + ys| - 1] == xs + ys[..n];
      FilterConcat(xs, ys[..n], p);
    }
  }

  lemma {:induction false} FilterDistinct<T(!new)>(xs: seq<T>, p: T -> bool)
    requires Distinct(xs)
    ensures Distinct(Filter(xs, p))
  {
    if |xs| == 0 {
    } else {
      FilterDistinct(xs[..|xs| - 1], p);
    }
  }

  function Masked<T>(p: T -> bool, f: T -> real): T -> real
  {
    x => if p(x) then f(x) else 0.0
  }

  /** Summing over a filtered list is summing with the other terms set to zero. */
  lemma {:induction false} SumFilter<T(!new)>(xs: seq<T>, p: T -> bool, f: T -> real)
    ensures Sum(Filter(xs, p), f) == Sum(xs, Masked(p, f))
  {
    if |xs| == 0 {
    } else {
      var n := |xs| - 1;
      SumFilter(xs[..n], p, f);
      if p(xs[n]) {
        SumSnoc(Filter(xs[..n], p), xs[n], f);
      }
    }
  }

  /** `before` for each of i terms, one term `at`, and `after` for each of the rest. */
  function Parts(i: nat, before: real, at: real, rest: nat, after: real): real
  {
    i as real * before + at + rest as real * after
  }

  /** A sum whose terms agree before position i and after it. */
  lemma SumThreeParts<T>(xs: seq<T>, i: nat, f: T -> real, before: real, at: real, after: real)
    requires i < |xs| && f(xs[i]) == at
    requires forall j :: 0 <= j < i ==> f(xs[j]) == before
    requires forall j :: i < j < |xs| ==> f(xs[j]) == after
    ensures Sum(xs, f) == Parts(i, before, at, |xs| - 1 - i, after)
  {
    hide Sum;
    assert xs == xs[..i + 1] + xs[i + 1..];
    SumConcat(xs[..i + 1], xs[i + 1..], f);
    SumPrefix(xs, i, f);
    SumConstant(xs[..i], f, before);
    SumConstant(xs[i + 1..], f, after);
  }

  /** Subtracting a constant from every term subtracts it once per element. */
  lemma {:induction false} SumShift<T>(xs: seq<T>, f: T -> real, g: T -> real, c: real)
    requires forall x :: x in xs ==> g(x) == f(x) - c
    ensures Sum(xs, g) == Sum(xs, f) - |xs| as real * c
  {
    if |xs| == 0 {
    } else {
      var n := |xs| - 1;
      assert xs[n] in xs;
      SumShift(xs[..n], f, g, c);
    }
  }
}
