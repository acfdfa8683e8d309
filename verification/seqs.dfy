/** Filtering and summing rows: the two aggregate shapes every metric query is built from. */
module Seqs {

  /** The rows of `xs` that satisfy `keep`, in their original order (a WHERE clause). */
  function Filter<T(==, !new)>(xs: seq<T>, keep: T -> bool): (r: seq<T>)
    ensures |r| <= |xs|
    ensures forall x :: x in r ==> x in xs && keep(x)
  {
    if |xs| == 0 then []
    else
      var init := xs[..|xs| - 1];
      var last := xs[|xs| - 1];
      assert xs == init + [last];
      if keep(last) then Filter(init, keep) + [last] else Filter(init, keep)
  }

  /** The sum of `f` over the rows of `xs` (a SUM aggregate; 0 over no rows). */
  function Sum<T>(xs: seq<T>, f: T -> int): (r: int)
    ensures |xs| == 0 ==> r == 0
    ensures (forall i :: 0 <= i < |xs| ==> f(xs[i]) >= 0) ==> r >= 0
  {
    if |xs| == 0 then 0 else Sum(xs[..|xs| - 1], f) + f(xs[|xs| - 1])
  }

  /** Each qualifying row is kept as often as it occurs; no other row is kept. */
  lemma {:induction false} FilterCounts<T(!new)>(xs: seq<T>, keep: T -> bool)
    ensures forall x :: multiset(Filter(xs, keep))[x] == if keep(x) then multiset(xs)[x] else 0
  {
    if |xs| > 0 {
      var init := xs[..|xs| - 1];
      assert xs == init + [xs[|xs| - 1]];
      FilterCounts(init, keep);
    }
  }

  /** The summand `f` where `keep` holds and 0 elsewhere: a CASE expression in place of a WHERE clause. */
  function Masked<T>(keep: T -> bool, f: T -> int): T -> int {
    (x: T) => if keep(x) then f(x) else 0
  }

  /** The summand `f` minus the summand `g`. */
  function Minus<T>(f: T -> int, g: T -> int): T -> int {
    (x: T) => f(x) - g(x)
  }

  /** Summing over the qualifying rows is summing the masked summand over every row. */
  lemma {:induction false} FilterSum<T(!new)>(xs: seq<T>, keep: T -> bool, f: T -> int)
    ensures Sum(Filter(xs, keep), f) == Sum(xs, Masked(keep, f))
  {
    if |xs| > 0 {
      var init := xs[..|xs| - 1];
      var last := xs[|xs| - 1];
      FilterSum(init, keep, f);
      if keep(last) {
        assert (Filter(init, keep) + [last])[..|Filter(init, keep)|] == Filter(init, keep);
      }
    }
  }

  /** The difference of two sums over the same rows is the sum of the row-wise differences. */
  lemma {:induction false} SumDifference<T>(xs: seq<T>, f: T -> int, g: T -> int)
    ensures Sum(xs, f) - Sum(xs, g) == Sum(xs, Minus(f, g))
  {
    if |xs| > 0 {
      SumDifference(xs[..|xs| - 1], f, g);
    }
  }

  /** The sum over one row is that row's summand. */
  lemma SumSingle<T>(x: T, f: T -> int)
    ensures Sum([x], f) == f(x)
  {
    assert [x][..0] == [];
  }

  /** Filtering one row keeps it exactly when it qualifies. */
  lemma FilterSingle<T(!new)>(x: T, keep: T -> bool)
    ensures Filter([x], keep) == if keep(x) then [x] else []
  {
    assert [x][..0] == [];
  }

  /** Filtering distributes over concatenation. */
  lemma {:induction false} FilterAppend<T(!new)>(a: seq<T>, b: seq<T>, keep: T -> bool)
    ensures Filter(a + b, keep) == Filter(a, keep) + Filter(b, keep)
  {
    if |b| == 0 {
      assert a + b == a;
    } else {
      var b' := b[..|b| - 1];
      assert (a + b)[..|a + b| - 1] == a + b';
      assert (a + b)[|a + b| - 1] == b[|b| - 1];
      FilterAppend(a, b', keep);
    }
  }

  /** Filtering keeps nothing when no row qualifies. */
  lemma {:induction false} FilterNone<T(!new)>(xs: seq<T>, keep: T -> bool)
    requires forall i :: 0 <= i < |xs| ==> !keep(xs[i])
    ensures Filter(xs, keep) == []
  {
    if |xs| > 0 {
      FilterNone(xs[..|xs| - 1], keep);
    }
  }

  /** Filters that agree on every row give the same rows. */
  lemma {:induction false} FilterPointwise<T(!new)>(xs: seq<T>, p: T -> bool, q: T -> bool)
    requires forall x :: x in xs ==> p(x) == q(x)
    ensures Filter(xs, p) == Filter(xs, q)
  {
    if |xs| > 0 {
      assert forall x :: x in xs[..|xs| - 1] ==> x in xs;
      FilterPointwise(xs[..|xs| - 1], p, q);
    }
  }

  /** Summing distributes over concatenation. */
  lemma {:induction false} SumAppend<T>(a: seq<T>, b: seq<T>, f: T -> int)
    ensures Sum(a + b, f) == Sum(a, f) + Sum(b, f)
  {
    if |b| == 0 {
      assert a + b == a;
    } else {
      var b' := b[..|b| - 1];
      assert (a + b)[..|a + b| - 1] == a + b';
      assert (a + b)[|a + b| - 1] == b[|b| - 1];
      SumAppend(a, b', f);
    }
  }

  /** Summands that agree on every row give the same sum. */
  lemma {:induction false} SumPointwise<T>(xs: seq<T>, f: T -> int, g: T -> int)
    requires forall i :: 0 <= i < |xs| ==> f(xs[i]) == g(xs[i])
    ensures Sum(xs, f) == Sum(xs, g)
  {
    if |xs| > 0 {
      SumPointwise(xs[..|xs| - 1], f, g);
    }
  }

  /** Taking one row out of a sum subtracts its summand. */
  lemma {:induction false} SumRemove<T>(b: seq<T>, k: nat, f: T -> int)
    requires k < |b|
    ensures Sum(b, f) == Sum(b[..k] + b[k + 1..], f) + f(b[k])
  {
    var init := b[..|b| - 1];
    if k == |b| - 1 {
      assert b[..k] + b[k + 1..] == init;
    } else {
      SumRemove(init, k, f);
      var rest := init[..k] + init[k + 1..];
      assert b[..k] + b[k + 1..] == rest + [b[|b| - 1]];
      assert (rest + [b[|b| - 1]])[..|rest|] == rest;
    }
  }

  /** Taking one row out of a sequence takes one copy out of its multiset. */
  lemma MultisetRemove<T>(b: seq<T>, k: nat)
    requires k < |b|
    ensures multiset(b[..k] + b[k + 1..]) == multiset(b) - multiset{b[k]}
  {
    assert b == b[..k] + [b[k]] + b[k + 1..];
    assert multiset(b) == multiset(b[..k]) + multiset{b[k]} + multiset(b[k + 1..]);
  }

  /** In a reordering of `a`, finds a position of `a`'s last row, whose removal leaves a reordering of the rest. */
  lemma MatchLast<T>(a: seq<T>, b: seq<T>) returns (k: nat)
    requires |a| > 0 && multiset(a) == multiset(b)
    ensures k < |b| && b[k] == a[|a| - 1]
    ensures multiset(a[..|a| - 1]) == multiset(b[..k] + b[k + 1..])
  {
    var x := a[|a| - 1];
    assert x in multiset(b);
    k :| 0 <= k < |b| && b[k] == x;
    MultisetRemove(a, |a| - 1);
    MultisetRemove(b, k);
    assert a[..|a| - 1] + a[|a|..] == a[..|a| - 1];
  }

  /** A sum does not depend on the order the rows come in. */
  lemma {:induction false} SumPermutation<T>(a: seq<T>, b: seq<T>, f: T -> int)
    requires multiset(a) == multiset(b)
    ensures Sum(a, f) == Sum(b, f)
  {
    if |a| == 0 {
      assert |multiset(b)| == 0;
      assert b == [];
    } else {
      var k := MatchLast(a, b);
      SumPermutation(a[..|a| - 1], b[..k] + b[k + 1..], f);
      SumRemove(b, k, f);
    }
  }

  /** Filtering rows that are a reordering of each other gives rows that are a reordering of each other. */
  lemma FilterPermutation<T(!new)>(a: seq<T>, b: seq<T>, keep: T -> bool)
    requires multiset(a) == multiset(b)
    ensures multiset(Filter(a, keep)) == multiset(Filter(b, keep))
  {
    FilterCounts(a, keep);
    FilterCounts(b, keep);
    var fa, fb := multiset(Filter(a, keep)), multiset(Filter(b, keep));
    assert forall x :: fa[x] == fb[x];
  }
}
