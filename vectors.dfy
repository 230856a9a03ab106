/** Vector arithmetic of the search engine, over `real`: numpy's sum,
 *  elementwise mask, add and divide, argmax, the prior renormalisation of a
 *  leaf, and the normalisation of visit counts into a policy. */
module Vectors {

  /** Sum of a vector, accumulated from the front. */
  function Sum(xs: seq<real>): real
  {
    if xs == [] then 0.0 else Sum(xs[..|xs| - 1]) + xs[|xs| - 1]
  }

  function SumNat(xs: seq<nat>): nat
  {
    if xs == [] then 0 else SumNat(xs[..|xs| - 1]) + xs[|xs| - 1]
  }

  /** Number of legal actions in a mask. */
  function Count(valids: seq<bool>): nat
  {
    if valids == [] then 0 else Count(valids[..|valids| - 1]) + (if valids[|valids| - 1] then 1 else 0)
  }

  predicate NonNegative(xs: seq<real>)
  {
    forall i :: 0 <= i < |xs| ==> 0.0 <= xs[i]
  }

  predicate InUnitRange(xs: seq<real>)
  {
    forall i :: 0 <= i < |xs| ==> -1.0 <= xs[i] <= 1.0
  }

  predicate HasValid(valids: seq<bool>)
  {
    exists a :: 0 <= a < |valids| && valids[a]
  }

  /** A prior over the actions of a mask: non-negative, zero on every illegal
   *  action, summing to one. */
  predicate IsPrior(p: seq<real>, valids: seq<bool>)
  {
    && |p| == |valids|
    && NonNegative(p)
    && (forall a :: 0 <= a < |p| && !valids[a] ==> p[a] == 0.0)
    && Sum(p) == 1.0
  }

  /** `ps * valids`: the policy with its illegal actions zeroed. */
  function Mask(ps: seq<real>, valids: seq<bool>): seq<real>
    requires |ps| == |valids|
  {
    seq(|ps|, i requires 0 <= i < |ps| => if valids[i] then ps[i] else 0.0)
  }

  /** The mask read as numbers: 1 for a legal action, 0 otherwise. */
  function Indicator(valids: seq<bool>): seq<real>
  {
    seq(|valids|, i requires 0 <= i < |valids| => if valids[i] then 1.0 else 0.0)
  }

  function Add(xs: seq<real>, ys: seq<real>): seq<real>
    requires |xs| == |ys|
  {
    seq(|xs|, i requires 0 <= i < |xs| => xs[i] + ys[i])
  }

  function Divide(xs: seq<real>, d: real): seq<real>
    requires d != 0.0
  {
    seq(|xs|, i requires 0 <= i < |xs| => xs[i] / d)
  }

  function AsReals(xs: seq<nat>): seq<real>
  {
    seq(|xs|, i requires 0 <= i < |xs| => xs[i] as real)
  }

  /** The prior stored for a new leaf: the evaluator's policy masked to the
   *  legal actions and divided by its sum; when that sum is not positive, the
   *  mask is added first, so that every legal action gets the same share. */
  function Renormalize(ps: seq<real>, valids: seq<bool>): seq<real>
    requires |ps| == |valids| && NonNegative(ps) && HasValid(valids)
  {
    var masked := Mask(ps, valids);
    var total := Sum(masked);
    if total > 0.0 then Divide(masked, total)
    else
      var fallback := Add(masked, Indicator(valids));
      FallbackIsIndicator(ps, valids);
      SumIndicator(valids);
      CountPositive(valids);
      Divide(fallback, Sum(fallback))
  }

  /** The counts divided by their total. */
  function Normalize(counts: seq<nat>): seq<real>
    requires SumNat(counts) > 0
  {
    Divide(AsReals(counts), SumNat(counts) as real)
  }

  /** A vector of `n` zeros with a one at index `k`. */
  function OneHot(n: nat, k: nat): seq<real>
  {
    seq(n, i => if i == k then 1.0 else 0.0)
  }

  /** numpy's argmax: the first index of a largest element. */
  function FirstArgMax(xs: seq<int>): (k: nat)
    requires |xs| > 0
    ensures k < |xs|
    ensures forall j :: 0 <= j < |xs| ==> xs[j] <= xs[k]
    ensures forall j :: 0 <= j < k ==> xs[j] < xs[k]
  {
    if |xs| == 1 then 0
    else
      var k := FirstArgMax(xs[..|xs| - 1]);
      if xs[|xs| - 1] > xs[k] then |xs| - 1 else k
  }

  /** The arithmetic mean of a non-empty history. */
  function Mean(h: seq<real>): real
    requires |h| > 0
  {
    Sum(h) / |h| as real
  }

  // ---------------------------------------------------------------------
  // Sums

  lemma {:induction false} SumDivide(xs: seq<real>, d: real)
    requires d != 0.0
    ensures Sum(Divide(xs, d)) == Sum(xs) / d
  {
    if xs != [] {
      var n := |xs| - 1;
      assert Divide(xs, d)[..n] == Divide(xs[..n], d);
      SumDivide(xs[..n], d);
    }
  }

  lemma {:induction false} SumNonNegative(xs: seq<real>)
    requires NonNegative(xs)
    ensures Sum(xs) >= 0.0
  {
    if xs != [] {
      SumNonNegative(xs[..|xs| - 1]);
    }
  }

  /** A non-negative vector sums to zero only if all of it is zero. */
  lemma {:induction false} SumZeroMeansZeros(xs: seq<real>)
    requires NonNegative(xs) && Sum(xs) <= 0.0
    ensures forall i :: 0 <= i < |xs| ==> xs[i] == 0.0
  {
    if xs != [] {
      var n := |xs| - 1;
      SumNonNegative(xs[..n]);
      SumZeroMeansZeros(xs[..n]);
      forall i | 0 <= i < |xs| ensures xs[i] == 0.0 {
        if i < n { assert xs[i] == xs[..n][i]; }
      }
    }
  }

  lemma {:induction false} SumIndicator(valids: seq<bool>)
    ensures Sum(Indicator(valids)) == Count(valids) as real
  {
    if valids != [] {
      var n := |valids| - 1;
      assert Indicator(valids)[..n] == Indicator(valids[..n]);
      SumIndicator(valids[..n]);
    }
  }

  lemma {:induction false} CountPositive(valids: seq<bool>)
    requires HasValid(valids)
    ensures Count(valids) >= 1
  {
    var n := |valids| - 1;
    if !valids[n] {
      var a :| 0 <= a < |valids| && valids[a];
      assert valids[..n][a];
      CountPositive(valids[..n]);
    }
  }

  lemma {:induction false} SumAsReals(xs: seq<nat>)
    ensures Sum(AsReals(xs)) == SumNat(xs) as real
  {
    if xs != [] {
      var n := |xs| - 1;
      assert AsReals(xs)[..n] == AsReals(xs[..n]);
      SumAsReals(xs[..n]);
    }
  }

  /** The natural-number sum is zero exactly when every count is zero. */
  lemma {:induction false} SumNatZero(xs: seq<nat>)
    ensures SumNat(xs) == 0 <==> forall i :: 0 <= i < |xs| ==> xs[i] == 0
  {
    if xs != [] {
      var n := |xs| - 1;
      SumNatZero(xs[..n]);
      assert forall i :: 0 <= i < n ==> xs[..n][i] == xs[i];
    }
  }

  /** Adding one to one count adds one to the sum. */
  lemma {:induction false} SumNatIncrement(xs: seq<nat>, i: nat)
    requires i < |xs|
    ensures SumNat(xs[i := xs[i] + 1]) == SumNat(xs) + 1
  {
    var n := |xs| - 1;
    var ys := xs[i := xs[i] + 1];
    if i < n {
      assert ys[..n] == xs[..n][i := xs[i] + 1];
      SumNatIncrement(xs[..n], i);
    } else {
      assert ys[..n] == xs[..n];
    }
  }

  lemma {:induction false} SumOneHot(n: nat, k: nat)
    ensures Sum(OneHot(n, k)) == if k < n then 1.0 else 0.0
  {
    if n > 0 {
      assert OneHot(n, k)[..n - 1] == OneHot(n - 1, k);
      SumOneHot(n - 1, k);
    }
  }

  // ---------------------------------------------------------------------
  // The renormalised prior

  lemma FallbackIsIndicator(ps: seq<real>, valids: seq<bool>)
    requires |ps| == |valids| && NonNegative(ps)
    requires Sum(Mask(ps, valids)) <= 0.0
    ensures Add(Mask(ps, valids), Indicator(valids)) == Indicator(valids)
  {
    SumZeroMeansZeros(Mask(ps, valids));
  }

  lemma DivideNonNegative(xs: seq<real>, d: real)
    requires NonNegative(xs) && d > 0.0
    ensures NonNegative(Divide(xs, d))
  {
    forall i | 0 <= i < |xs| ensures 0.0 <= Divide(xs, d)[i] {
      var x := xs[i];
      assert x / d >= 0.0;
    }
  }

  lemma DivideSelf(d: real)
    requires d != 0.0
    ensures d / d == 1.0
  {
  }

  /** A non-negative vector with positive sum that is zero on the illegal
   *  actions, divided by its sum, is a prior over the legal actions. */
  lemma DivideIsPrior(xs: seq<real>, valids: seq<bool>)
    requires |xs| == |valids| && NonNegative(xs) && Sum(xs) > 0.0
    requires forall a :: 0 <= a < |xs| && !valids[a] ==> xs[a] == 0.0
    ensures IsPrior(Divide(xs, Sum(xs)), valids)
  {
    SumDivide(xs, Sum(xs));
    DivideSelf(Sum(xs));
    DivideNonNegative(xs, Sum(xs));
  }

  /** The stored prior is a distribution over the legal actions. */
  lemma RenormalizeIsPrior(ps: seq<real>, valids: seq<bool>)
    requires |ps| == |valids| && NonNegative(ps) && HasValid(valids)
    ensures IsPrior(Renormalize(ps, valids), valids)
  {
    var masked := Mask(ps, valids);
    if Sum(masked) > 0.0 {
      assert NonNegative(masked);
      DivideIsPrior(masked, valids);
    } else {
      RenormalizeFallback(ps, valids);
      SumIndicator(valids);
      DivideIsPrior(Indicator(valids), valids);
    }
  }

  /** When the evaluator gives the legal actions positive mass, the stored
   *  prior is proportional to its policy on them. */
  lemma RenormalizeProportional(ps: seq<real>, valids: seq<bool>, a: int)
    requires |ps| == |valids| && NonNegative(ps) && HasValid(valids)
    requires Sum(Mask(ps, valids)) > 0.0
    requires 0 <= a < |ps| && valids[a]
    ensures Renormalize(ps, valids)[a] * Sum(Mask(ps, valids)) == ps[a]
  {
    var masked := Mask(ps, valids);
    var total := Sum(masked);
    assert Renormalize(ps, valids) == Divide(masked, total);
    DivideTimes(masked[a], total);
  }

  lemma RenormalizeFallback(ps: seq<real>, valids: seq<bool>)
    requires |ps| == |valids| && NonNegative(ps) && HasValid(valids)
    requires Sum(Mask(ps, valids)) <= 0.0
    ensures Count(valids) >= 1
    ensures Renormalize(ps, valids) == Divide(Indicator(valids), Count(valids) as real)
  {
    FallbackIsIndicator(ps, valids);
    SumIndicator(valids);
    CountPositive(valids);
  }

  /** When it gives them no mass, the stored prior is uniform over them. */
  lemma RenormalizeUniform(ps: seq<real>, valids: seq<bool>, a: int)
    requires |ps| == |valids| && NonNegative(ps) && HasValid(valids)
    requires Sum(Mask(ps, valids)) <= 0.0
    requires 0 <= a < |ps| && valids[a]
    ensures Count(valids) >= 1
    ensures Renormalize(ps, valids)[a] == 1.0 / Count(valids) as real
  {
    RenormalizeFallback(ps, valids);
    assert Indicator(valids)[a] == 1.0;
  }

  lemma DividePositive(x: real, d: real)
    requires x >= 0.0 && d > 0.0
    ensures x / d >= 0.0 && (x / d == 0.0 <==> x == 0.0)
  {
  }

  lemma DivideTimes(x: real, d: real)
    requires d != 0.0
    ensures (x / d) * d == x
  {
  }

  // ---------------------------------------------------------------------
  // The output policy

  /** When some count is positive, the first largest count is positive. */
  lemma ArgMaxPositive(xs: seq<nat>)
    requires SumNat(xs) > 0
    ensures |xs| > 0 && xs[FirstArgMax(xs)] > 0
  {
    SumNatZero(xs);
  }

  /** The one-hot policy is a distribution. */
  lemma OneHotIsDistribution(n: nat, k: nat)
    requires k < n
    ensures NonNegative(OneHot(n, k)) && Sum(OneHot(n, k)) == 1.0
  {
    SumOneHot(n, k);
  }

  /** The normalised counts sum to one. */
  lemma NormalizeSumsToOne(counts: seq<nat>)
    requires SumNat(counts) > 0
    ensures Sum(Normalize(counts)) == 1.0
  {
    var total := SumNat(counts) as real;
    SumDivide(AsReals(counts), total);
    SumAsReals(counts);
    DivideSelf(total);
  }

  /** Dividing by `d` and multiplying back gives every entry again. */
  lemma DivideScales(xs: seq<real>, d: real)
    requires d != 0.0
    ensures forall i :: 0 <= i < |xs| ==> Divide(xs, d)[i] * d == xs[i]
  {
    forall i | 0 <= i < |xs| ensures Divide(xs, d)[i] * d == xs[i] {
      DivideTimes(xs[i], d);
    }
  }

  /** Each share times the total visit count is that action's count: the
   *  policy is proportional to the counts. */
  lemma NormalizeProportional(counts: seq<nat>)
    requires SumNat(counts) > 0
    ensures var r := Normalize(counts);
      forall a :: 0 <= a < |r| ==> r[a] * SumNat(counts) as real == counts[a] as real
  {
    DivideScales(AsReals(counts), SumNat(counts) as real);
  }

  /** Shares are non-negative, and only unvisited actions get a zero share. */
  lemma NormalizeZeros(counts: seq<nat>)
    requires SumNat(counts) > 0
    ensures var r := Normalize(counts);
      forall a :: 0 <= a < |r| ==> 0.0 <= r[a] && (r[a] == 0.0 <==> counts[a] == 0)
  {
    var total := SumNat(counts) as real;
    var r := Normalize(counts);
    forall a | 0 <= a < |r|
      ensures 0.0 <= r[a] && (r[a] == 0.0 <==> counts[a] == 0)
    {
      DividePositive(counts[a] as real, total);
    }
  }

  /** The normalized counts form a probability distribution. */
  lemma NormalizeIsDistribution(counts: seq<nat>)
    requires SumNat(counts) > 0
    ensures NonNegative(Normalize(counts)) && Sum(Normalize(counts)) == 1.0
  {
    NormalizeZeros(counts);
    NormalizeSumsToOne(counts);
  }

  // ---------------------------------------------------------------------
  // Running means

  /** The running-mean update of the source is the mean of the history with
   *  the new value appended. */
  lemma RunningMean(h: seq<real>, v: real)
    requires |h| > 0
    ensures Mean(h + [v]) == (|h| as real * Mean(h) + v) / (|h| as real + 1.0)
  {
    assert (h + [v])[..|h|] == h;
    var n := |h| as real;
    assert n * (Sum(h) / n) == Sum(h);
  }

  /** A one-value history has that value as its mean. */
  lemma MeanSingleton(v: real)
    requires -1.0 <= v <= 1.0
    ensures Mean([v]) == v && InUnitRange([v])
  {
    assert [v][..0] == [];
    assert Sum([v]) == v;
  }

  lemma {:induction false} SumInUnitRange(h: seq<real>)
    requires InUnitRange(h)
    ensures -(|h| as real) <= Sum(h) <= |h| as real
  {
    if h != [] {
      SumInUnitRange(h[..|h| - 1]);
    }
  }

  /** The mean of values in [-1, 1] lies in [-1, 1]. */
  lemma MeanInUnitRange(h: seq<real>)
    requires |h| > 0 && InUnitRange(h)
    ensures -1.0 <= Mean(h) <= 1.0
  {
    SumInUnitRange(h);
  }
}
