// Totals over sequences and maps of amounts, and the u64 fold beside them.
module Sums {
  import opened Text

  type u64 = n: nat | n < U64_BOUND

  function Sum(xs: seq<nat>): nat {
    if xs == [] then 0 else Sum(xs[..|xs| - 1]) + xs[|xs| - 1]
  }

  // The release-build fold over u64: every addition wraps.
  function WrapSum(xs: seq<nat>): u64 {
    if xs == [] then 0 else (WrapSum(xs[..|xs| - 1]) + xs[|xs| - 1]) % U64_BOUND
  }

  lemma {:induction false} WrapSumIsSumModulo(xs: seq<nat>)
    ensures WrapSum(xs) == Sum(xs) % U64_BOUND
  {
    if xs != [] {
      WrapSumIsSumModulo(xs[..|xs| - 1]);
    }
  }

  // The fold counts truly exactly when the total fits.
  lemma WrapSumExact(xs: seq<nat>)
    ensures WrapSum(xs) == Sum(xs) <==> Sum(xs) < U64_BOUND
  {
    WrapSumIsSumModulo(xs);
  }

  // No addition of the fold overflows when the true total fits.
  lemma {:induction false} PrefixSumsFit(xs: seq<nat>, k: nat)
    requires k <= |xs|
    ensures Sum(xs[..k]) <= Sum(xs)
  {
    if k < |xs| {
      PrefixSumsFit(xs[..|xs| - 1], k);
      assert xs[..|xs| - 1][..k] == xs[..k];
    } else {
      assert xs[..k] == xs;
    }
  }

  lemma {:induction false} SumAppend(xs: seq<nat>, ys: seq<nat>)
    ensures Sum(xs + ys) == Sum(xs) + Sum(ys)
  {
    if ys == [] {
      assert xs + ys == xs;
    } else {
      SumAppend(xs, ys[..|ys| - 1]);
      assert (xs + ys)[..|xs + ys| - 1] == xs + ys[..|ys| - 1];
    }
  }

  ghost function Total(m: map<string, u64>): nat
    decreases |m|
  {
    if m == map[] then 0
    else
      var k :| k in m;
      DropShrinks(m, k);
      m[k] + Total(m - {k})
  }

  lemma DropShrinks(m: map<string, u64>, k: string)
    requires k in m
    ensures |m - {k}| < |m|
  {
    assert (m - {k}).Keys == m.Keys - {k};
  }

  // The total does not depend on the order in which entries are taken.
  lemma {:induction false} TotalWithout(m: map<string, u64>, k: string)
    requires k in m
    ensures Total(m) == m[k] + Total(m - {k})
    decreases |m|
  {
    var j :| j in m && Total(m) == m[j] + Total(m - {j});
    if j != k {
      DropShrinks(m, j);
      DropShrinks(m, k);
      TotalWithout(m - {j}, k);
      TotalWithout(m - {k}, j);
      assert m - {j} - {k} == m - {k} - {j};
    }
  }

  lemma TotalAdd(m: map<string, u64>, k: string, v: u64)
    requires k !in m
    ensures Total(m[k := v]) == Total(m) + v
  {
    TotalWithout(m[k := v], k);
    assert m[k := v] - {k} == m;
  }

  lemma TotalRemove(m: map<string, u64>, k: string)
    ensures Total(m - {k}) + (if k in m then m[k] else 0) == Total(m)
  {
    if k in m {
      TotalWithout(m, k);
    } else {
      assert m - {k} == m;
    }
  }
}
