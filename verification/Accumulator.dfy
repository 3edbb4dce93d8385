// On-line statistics over exact reals: the number of samples, their mean and the sum of their
// squared deviations, sample by sample and by merging.

module Accumulator {

  // ------------------------------------------------------------------ sums and folds

  function SumOf(f: real -> real, xs: seq<real>): real {
    if xs == [] then 0.0 else SumOf(f, xs[..|xs| - 1]) + f(xs[|xs| - 1])
  }

  function Fold<A>(step: (A, real) -> A, start: A, xs: seq<real>): A {
    if xs == [] then start else step(Fold(step, start, xs[..|xs| - 1]), xs[|xs| - 1])
  }

  lemma {:induction false} SumAppend(f: real -> real, a: seq<real>, b: seq<real>)
    ensures SumOf(f, a + b) == SumOf(f, a) + SumOf(f, b)
  {
    if b == [] {
      assert a + b == a;
    } else {
      SumAppend(f, a, b[..|b| - 1]);
      assert (a + b)[..|a + b| - 1] == a + b[..|b| - 1];
    }
  }

  lemma {:induction false} SumWithout(f: real -> real, ys: seq<real>, i: nat)
    requires i < |ys|
    ensures SumOf(f, ys) == SumOf(f, ys[..i] + ys[i + 1..]) + f(ys[i])
    ensures multiset(ys[..i] + ys[i + 1..]) == multiset(ys) - multiset{ys[i]}
  {
    var before, after, x := ys[..i], ys[i + 1..], [ys[i]];
    assert ys == before + (x + after);
    SumAppend(f, before, x + after);
    SumAppend(f, x, after);
    SumAppend(f, before, after);
    assert x[..0] == [];
  }

  /** A sum does not depend on the order. */
  lemma {:induction false} SumOrder(f: real -> real, xs: seq<real>, ys: seq<real>)
    requires multiset(xs) == multiset(ys)
    ensures SumOf(f, xs) == SumOf(f, ys) && |xs| == |ys|
  {
    if xs == [] {
      assert |multiset(ys)| == 0;
    } else {
      var init, x := xs[..|xs| - 1], xs[|xs| - 1];
      assert xs == init + [x];
      assert x in multiset(ys);
      var i :| 0 <= i < |ys| && ys[i] == x;
      SumWithout(f, ys, i);
      SumOrder(f, init, ys[..i] + ys[i + 1..]);
    }
  }

  /** A relation that every sample keeps relates the results of a fold and of two sums. */
  lemma {:induction false} FoldKeeps<A>(step: (A, real) -> A, start: A, f: real -> real, g: real -> real, rel: (A, nat, real, real) -> bool, xs: seq<real>)
    requires rel(start, 0, 0.0, 0.0)
    requires forall a, n: nat, s, q, x :: rel(a, n, s, q) ==> rel(step(a, x), n + 1, s + f(x), q + g(x))
    ensures rel(Fold(step, start, xs), |xs|, SumOf(f, xs), SumOf(g, xs))
  {
    if xs != [] {
      FoldKeeps(step, start, f, g, rel, xs[..|xs| - 1]);
    }
  }

  // ------------------------------------------------------------------ statistics

  function Sum(xs: seq<real>): real {
    SumOf(x => x, xs)
  }

  function Squares(xs: seq<real>): real {
    SumOf(x => x * x, xs)
  }

  function Mean(xs: seq<real>): real
    requires xs != []
  {
    Sum(xs) / |xs| as real
  }

  /** Sum of squared deviations from m. */
  function Deviations(xs: seq<real>, m: real): real {
    Fold((d, x) => Deviated(d, x, m), 0.0, xs)
  }

  /** Number of samples, mean, and sum of squared deviations from it. */
  datatype Stats = Stats(n: nat, mean: real, variance: real)

  const NOTHING: Stats := Stats(0, 0.0, 0.0)

  /** One more sample. */
  function Sampled(a: Stats, x: real): Stats {
    var delta := x - a.mean;
    var mean := a.mean + delta / (a.n + 1) as real;
    Stats(a.n + 1, mean, a.variance + delta * (x - mean))
  }

  /** How far n of total samples at distance delta move the mean, and what they add to the
      second moment. */
  function MeanShift(delta: real, n: nat, total: nat): real
    requires total > 0
  {
    delta * n as real / total as real
  }

  function MomentShift(delta: real, m: nat, n: nat, total: nat): real
    requires total > 0
  {
    delta * delta * m as real * n as real / total as real
  }

  /** Another accumulator's samples. */
  function Merged(a: Stats, o: Stats): Stats {
    if o.n == 0 then a
    else if a.n == 0 then o
    else
      var delta, total := o.mean - a.mean, a.n + o.n;
      Stats(total, a.mean + MeanShift(delta, o.n, total), a.variance + (o.variance + MomentShift(delta, a.n, o.n, total)))
  }

  /** Sample by sample. */
  function Accumulated(xs: seq<real>): Stats {
    Fold(Sampled, NOTHING, xs)
  }

  // ------------------------------------------------------------------ algebra

  /** The statistics in terms of sums: what both ways of accumulating keep up to date. */
  ghost predicate Moments(a: Stats, n: nat, sum: real, squares: real) {
    a.n == n && n as real * a.mean == sum && a.variance == squares - n as real * (a.mean * a.mean)
  }

  lemma {:induction false} Cancel(k: real, a: real, b: real)
    requires k != 0.0 && k * a == k * b
    ensures a == b
  {
  }

  lemma {:induction false} MomentsUnique(a: Stats, b: Stats, n: nat, sum: real, squares: real)
    requires Moments(a, n, sum, squares) && Moments(b, n, sum, squares) && n > 0
    ensures a == b
  {
    var k := n as real;
    assert k > 0.0;
    assert k * a.mean == k * b.mean;
    Cancel(k, a.mean, b.mean);
  }

  lemma {:induction false} Ratio(d: real, t: real) returns (e: real)
    requires t != 0.0
    ensures e == d / t && t * e == d
  {
    e := d / t;
  }

  /** One sample x at e = (x - mean) / k from the mean, k samples afterwards. */
  lemma {:induction false} SampleAlgebra(k: real, m: real, e: real)
    ensures k * (m + e) == (k - 1.0) * m + (m + k * e)
    ensures k * e * (m + k * e - (m + e)) == (m + k * e) * (m + k * e) + (k - 1.0) * (m * m) - k * ((m + e) * (m + e))
  {
  }

  lemma {:induction false} SampleMoments(a: Stats, n: nat, sum: real, squares: real, x: real)
    requires Moments(a, n, sum, squares)
    ensures Moments(Sampled(a, x), n + 1, sum + x, squares + x * x)
  {
    var k := (n + 1) as real;
    var e := Ratio(x - a.mean, k);
    SampleAlgebra(k, a.mean, e);
  }

  /** Two groups of a and b samples with means m and mo, e their distance per sample. */
  lemma {:induction false} MergeAlgebra(a: real, b: real, m: real, mo: real, e: real)
    requires (a + b) * e == mo - m
    ensures (a + b) * (m + e * b) == a * m + b * mo
    ensures (a + b) * (e * e) * (a * b) == a * (m * m) + b * (mo * mo) - (a + b) * ((m + e * b) * (m + e * b))
  {
    MergeAlgebraExpanded(a, b, m, e);
    var d := m + (a + b) * e;
    assert mo == d;
    assert mo * mo == d * d && b * (mo * mo) == b * (d * d);
  }

  lemma {:induction false} MergeAlgebraExpanded(a: real, b: real, m: real, e: real)
    ensures (a + b) * (m + e * b) == a * m + b * (m + (a + b) * e)
    ensures (a + b) * (e * e) * (a * b)
         == a * (m * m) + b * ((m + (a + b) * e) * (m + (a + b) * e)) - (a + b) * ((m + e * b) * (m + e * b))
  {
  }

  lemma {:induction false} Quotient(d: real, t: real, e: real, b: real)
    requires t != 0.0 && t * e == d
    ensures d * b / t == e * b
  {
    assert d * b == t * (e * b);
  }

  lemma {:induction false} SquareQuotient(d: real, t: real, e: real, a: real, b: real)
    requires t != 0.0 && t * e == d
    ensures d * d * a * b / t == t * (e * e) * (a * b)
  {
    assert d * d * a * b == t * (t * (e * e) * (a * b)) by {
      assert d * d == t * e * (t * e);
      assert t * e * (t * e) == t * (t * (e * e));
    }
  }

  /** The new mean and second moment, from e, the distance of the means divided by the total. */
  lemma {:induction false} MergedIs(a: Stats, o: Stats) returns (e: real)
    requires a.n > 0 && o.n > 0
    ensures IsMerge(a, o, e, Merged(a, o))
  {
    var delta, total := o.mean - a.mean, (a.n + o.n) as real;
    e := Ratio(delta, total);
    assert total == a.n as real + o.n as real;
    Quotient(delta, total, e, o.n as real);
    SquareQuotient(delta, total, e, a.n as real, o.n as real);
  }

  /** r results from merging a and o, whose means are e times the total apart. */
  ghost predicate IsMerge(a: Stats, o: Stats, e: real, r: Stats) {
    var p, q := a.n as real, o.n as real;
    && (p + q) * e == o.mean - a.mean
    && r.n == a.n + o.n && r.mean == a.mean + e * q
    && r.variance == a.variance + (o.variance + (p + q) * (e * e) * (p * q))
  }

  lemma {:induction false} PartsMoments(a: Stats, o: Stats, e: real, r: Stats, sum: real, squares: real, sum2: real, squares2: real)
    requires Moments(a, a.n, sum, squares) && Moments(o, o.n, sum2, squares2) && IsMerge(a, o, e, r)
    ensures Moments(r, a.n + o.n, sum + sum2, squares + squares2)
  {
    MergeAlgebra(a.n as real, o.n as real, a.mean, o.mean, e);
    MergedMoments(a.n as real, o.n as real, a.mean, o.mean, e, a.variance, o.variance, sum, squares, sum2, squares2, r.mean, r.variance,
                  (a.n + o.n) as real);
  }

  lemma {:induction false} MergeMoments(a: Stats, o: Stats, sum: real, squares: real, sum2: real, squares2: real)
    requires Moments(a, a.n, sum, squares) && Moments(o, o.n, sum2, squares2) && a.n > 0 && o.n > 0
    ensures Moments(Merged(a, o), a.n + o.n, sum + sum2, squares + squares2)
  {
    var e := MergedIs(a, o);
    PartsMoments(a, o, e, Merged(a, o), sum, squares, sum2, squares2);
  }

  lemma {:induction false} MergedMoments(p: real, q: real, m: real, mo: real, e: real, v: real, vo: real, sum: real, squares: real,
                                         sum2: real, squares2: real, mean: real, variance: real, total: real)
    requires total == p + q
    requires p * m == sum && v == squares - p * (m * m) && q * mo == sum2 && vo == squares2 - q * (mo * mo)
    requires (p + q) * (m + e * q) == p * m + q * mo
    requires (p + q) * (e * e) * (p * q) == p * (m * m) + q * (mo * mo) - (p + q) * ((m + e * q) * (m + e * q))
    requires mean == m + e * q && variance == v + (vo + (p + q) * (e * e) * (p * q))
    ensures total * mean == sum + sum2 && variance == squares + squares2 - total * (mean * mean)
  {
  }

  // ------------------------------------------------------------------ what is accumulated

  lemma {:induction false} AccumulatedMoments(xs: seq<real>)
    ensures Accumulated(xs).n == |xs| && Moments(Accumulated(xs), |xs|, Sum(xs), Squares(xs))
  {
    forall a, n: nat, s, q, x | Moments(a, n, s, q)
      ensures Moments(Sampled(a, x), n + 1, s + x, q + x * x)
    {
      SampleMoments(a, n, s, q, x);
    }
    FoldKeeps(Sampled, NOTHING, x => x, x => x * x, (a, n, s, q) => Moments(a, n, s, q), xs);
  }

  ghost predicate Expanded(d: real, n: nat, s: real, q: real, m: real) {
    d == q - 2.0 * (m * s) + n as real * (m * m)
  }

  function Deviated(d: real, x: real, m: real): real {
    d + (x - m) * (x - m)
  }

  lemma {:induction false} DeviationStep(d: real, n: nat, s: real, q: real, m: real, x: real)
    requires Expanded(d, n, s, q, m)
    ensures Expanded(Deviated(d, x, m), n + 1, s + x, q + x * x, m)
  {
    assert (x - m) * (x - m) == x * x - 2.0 * (m * x) + m * m;
    assert (n + 1) as real * (m * m) == n as real * (m * m) + m * m;
  }

  lemma {:induction false} DeviationsAre(xs: seq<real>, m: real)
    ensures Expanded(Deviations(xs, m), |xs|, Sum(xs), Squares(xs), m)
  {
    forall d, n: nat, s, q, x | Expanded(d, n, s, q, m)
      ensures Expanded(Deviated(d, x, m), n + 1, s + x, q + x * x, m)
    {
      DeviationStep(d, n, s, q, m, x);
    }
    FoldKeeps((d, x) => Deviated(d, x, m), 0.0, x => x, x => x * x, (d, n, s, q) => Expanded(d, n, s, q, m), xs);
  }

  lemma {:induction false} TrueMoments(xs: seq<real>)
    requires xs != []
    ensures Moments(Stats(|xs|, Mean(xs), Deviations(xs, Mean(xs))), |xs|, Sum(xs), Squares(xs))
  {
    var k := |xs| as real;
    var m := Ratio(Sum(xs), k);
    DeviationsAre(xs, m);
    assert m * (k * m) == k * (m * m);
  }

  /** After any samples, the mean is their mean and the second moment is the sum of their
      squared deviations from it. */
  lemma {:induction false} StatisticsAreTrue(xs: seq<real>)
    requires xs != []
    ensures Accumulated(xs) == Stats(|xs|, Mean(xs), Deviations(xs, Mean(xs)))
  {
    AccumulatedMoments(xs);
    TrueMoments(xs);
    MomentsUnique(Accumulated(xs), Stats(|xs|, Mean(xs), Deviations(xs, Mean(xs))), |xs|, Sum(xs), Squares(xs));
  }

  /** Merging two accumulators is accumulating the samples of both. */
  lemma {:induction false} MergeIsConcatenation(xs: seq<real>, ys: seq<real>)
    ensures Merged(Accumulated(xs), Accumulated(ys)) == Accumulated(xs + ys)
  {
    AccumulatedMoments(xs);
    AccumulatedMoments(ys);
    if ys == [] {
      assert xs + ys == xs;
    } else if xs == [] {
      assert xs + ys == ys;
    } else {
      MergeOfSamples(Accumulated(xs), Accumulated(ys), xs, ys);
      AccumulatedMoments(xs + ys);
      MomentsUnique(Merged(Accumulated(xs), Accumulated(ys)), Accumulated(xs + ys), |xs + ys|, Sum(xs + ys), Squares(xs + ys));
    }
  }

  lemma {:induction false} MergeOfSamples(a: Stats, o: Stats, xs: seq<real>, ys: seq<real>)
    requires xs != [] && ys != []
    requires Moments(a, |xs|, Sum(xs), Squares(xs)) && Moments(o, |ys|, Sum(ys), Squares(ys))
    ensures Moments(Merged(a, o), |xs + ys|, Sum(xs + ys), Squares(xs + ys))
  {
    SumAppend(x => x, xs, ys);
    SumAppend(x => x * x, xs, ys);
    MergeMoments(a, o, Sum(xs), Squares(xs), Sum(ys), Squares(ys));
  }

  /** However the samples are spread over ranks and ordered, the result of reduce is the same. */
  lemma {:induction false} SpreadDoesNotMatter(xs: seq<real>, ys: seq<real>)
    requires multiset(xs) == multiset(ys)
    ensures Accumulated(xs) == Accumulated(ys)
  {
    SumOrder(x => x, xs, ys);
    SumOrder(x => x * x, xs, ys);
    if xs != [] {
      AccumulatedMoments(xs);
      AccumulatedMoments(ys);
      MomentsUnique(Accumulated(xs), Accumulated(ys), |xs|, Sum(xs), Squares(xs));
    } else {
      assert ys == [];
    }
  }

  lemma {:induction false} OneMoreSample(xs: seq<real>, x: real)
    ensures Accumulated(xs + [x]) == Sampled(Accumulated(xs), x)
  {
    assert (xs + [x])[..|xs|] == xs;
  }

  // ------------------------------------------------------------------ the accumulator

  class Collector {
    var numSamples: nat
    var mean: real
    var variance: real

    ghost function State(): Stats
      reads this
    {
      Stats(numSamples, mean, variance)
    }

    constructor ()
      ensures State() == NOTHING
    {
      numSamples, mean, variance := 0, 0.0, 0.0;
    }

    /** operator()(sample) */
    method Sample(x: real)
      modifies this
      ensures State() == Sampled(old(State()), x)
    {
      var delta := x - mean;
      numSamples := numSamples + 1;
      mean := mean + delta / numSamples as real;
      variance := variance + delta * (x - mean);
    }

    /** operator()(first, last) on top of the samples xs. */
    method Samples(samples: seq<real>, ghost xs: seq<real>)
      requires State() == Accumulated(xs)
      modifies this
      ensures State() == Accumulated(xs + samples)
    {
      assert xs + samples[..0] == xs;
      for i := 0 to |samples|
        invariant State() == Accumulated(xs + samples[..i])
      {
        Sample(samples[i]);
        OneMoreSample(xs + samples[..i], samples[i]);
        assert xs + samples[..i + 1] == xs + samples[..i] + [samples[i]];
      }
      assert samples[..|samples|] == samples;
    }

    /** operator()(other) */
    method Merge(o: Stats)
      modifies this
      ensures State() == Merged(old(State()), o)
    {
      if o.n == 0 {
        return;
      }
      if numSamples == 0 {
        numSamples, mean, variance := o.n, o.mean, o.variance;
        return;
      }
      var delta := o.mean - mean;
      var total := numSamples + o.n;
      mean := mean + MeanShift(delta, o.n, total);
      variance := variance + (o.variance + MomentShift(delta, numSamples, o.n, total));
      numSamples := total;
    }
  }

  function Concat(parts: seq<seq<real>>): seq<real> {
    if parts == [] then [] else Concat(parts[..|parts| - 1]) + parts[|parts| - 1]
  }

  /** reduce: merging the accumulators of all ranks gives the statistics of all samples. */
  method Reduce(accs: seq<Stats>, ghost parts: seq<seq<real>>) returns (all: Stats)
    requires |accs| == |parts| && forall r :: 0 <= r < |accs| ==> accs[r] == Accumulated(parts[r])
    ensures all == Accumulated(Concat(parts))
  {
    var c := new Collector();
    for r := 0 to |accs|
      invariant fresh(c) && c.State() == Accumulated(Concat(parts[..r]))
    {
      c.Merge(accs[r]);
      MergeIsConcatenation(Concat(parts[..r]), parts[r]);
      assert parts[..r + 1][..r] == parts[..r];
    }
    assert parts[..|accs|] == parts;
    all := Stats(c.numSamples, c.mean, c.variance);
  }
}
