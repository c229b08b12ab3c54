/** The quadratic form of rt_server/src/postprocs/var.rs while windows have different lengths: exactly
    when it is a variance. */
module UnequalWindows {
  import opened Wrappers
  import opened RealSums
  import opened ValueAtRisk

  /** No return but the last two, which cancel. */
  function Pulse(n: nat): (xs: seq<real>)
    requires n >= 2
    ensures |xs| == n
  {
    Zeros(n - 2) + [1.0, -1.0]
  }

  lemma SumOfPulse(n: nat, a: real, b: real)
    ensures Sum(Zeros(n) + [a, b]) == a + b
  {
    SumZeros(n);
    SumAppend(Zeros(n), a);
    SumAppend(Zeros(n) + [a], b);
    assert Zeros(n) + [a] + [b] == Zeros(n) + [a, b];
  }

  lemma PulseVariance(n: nat)
    requires n >= 2
    ensures Covariance(Pulse(n), Pulse(n)) == 2.0 / (n - 1) as real
  {
    hide Sum;
    SumOfPulse(n - 2, 1.0, -1.0);
    assert Mean(Pulse(n)) == 0.0;
    assert Products(Pulse(n), Pulse(n), 0.0, 0.0) == Zeros(n - 2) + [1.0, 1.0];
    SumOfPulse(n - 2, 1.0, 1.0);
  }

  lemma PulseTail(n: nat, k: nat)
    requires 2 <= k <= n
    ensures Tail(Pulse(n), k) == Reversed(Pulse(k))
  {
    assert Pulse(n)[n - k..] == Pulse(k);
  }

  /** Two pulses of different lengths look the same over their common part. */
  lemma PulseCovariance(a: nat, b: nat, minObservations: nat)
    requires a >= 2 && b >= 2 && a >= minObservations && b >= minObservations
    ensures var n := if a <= b then a else b;
            RollingCovariance(Pulse(a), Pulse(b), minObservations) == Some(2.0 / (n - 1) as real)
  {
    hide Covariance, Pulse, Tail;
    var n := if a <= b then a else b;
    PulseTail(a, n);
    PulseTail(b, n);
    CovarianceReversed(Pulse(n), Pulse(n));
    PulseVariance(n);
  }

  predicate DistinctFactors(fs: seq<string>) {
    forall i, j :: 0 <= i < j < |fs| ==> fs[i] != fs[j]
  }

  /** Exposures to two factors only. */
  predicate OnlyTwo(exposures: Exposures, p: string, q: string) {
    forall f :: f in exposures && f != p && f != q ==> exposures[f] == 0.0
  }

  predicate Has(exposures: Exposures, series: Returns, f: string) {
    f in exposures && f in series
  }

  function PairTerm(exposures: Exposures, series: Returns, minObservations: nat, f: string, g: string): real
    requires Has(exposures, series, f) && Has(exposures, series, g)
  {
    Term(exposures[f], exposures[g], RollingCovariance(series[f], series[g], minObservations))
  }

  lemma NoTerm(x: real, c: Option<real>)
    ensures Term(x, 0.0, c) == 0.0 && Term(0.0, x, c) == 0.0
  {
  }

  lemma RowAppend(exposures: Exposures, series: Returns, minObservations: nat, f: string, gs: seq<string>)
    requires Has(exposures, series, f) && Known(exposures, series, gs) && gs != []
    ensures Known(exposures, series, gs[..|gs| - 1]) && Has(exposures, series, gs[|gs| - 1])
    ensures RowForm(exposures, series, minObservations, f, gs)
         == RowForm(exposures, series, minObservations, f, gs[..|gs| - 1])
          + PairTerm(exposures, series, minObservations, f, gs[|gs| - 1])
    ensures exposures[gs[|gs| - 1]] == 0.0 ==> PairTerm(exposures, series, minObservations, f, gs[|gs| - 1]) == 0.0
    ensures exposures[f] == 0.0 ==> PairTerm(exposures, series, minObservations, f, gs[|gs| - 1]) == 0.0
  {
    hide RollingCovariance, Term;
    var g := gs[|gs| - 1];
    NoTerm(exposures[f], RollingCovariance(series[f], series[g], minObservations));
    NoTerm(exposures[g], RollingCovariance(series[f], series[g], minObservations));
  }

  lemma {:induction false} RowOfTwo(exposures: Exposures, series: Returns, minObservations: nat, f: string,
                                    gs: seq<string>, p: string, q: string)
    requires Has(exposures, series, f) && Known(exposures, series, gs)
    requires Has(exposures, series, p) && Has(exposures, series, q)
    requires DistinctFactors(gs) && p != q && OnlyTwo(exposures, p, q)
    ensures RowForm(exposures, series, minObservations, f, gs)
         == (if p in gs then PairTerm(exposures, series, minObservations, f, p) else 0.0)
          + (if q in gs then PairTerm(exposures, series, minObservations, f, q) else 0.0)
    decreases gs
  {
    if gs != [] {
      hide RowForm, PairTerm;
      var n := |gs| - 1;
      assert gs == gs[..n] + [gs[n]];
      RowAppend(exposures, series, minObservations, f, gs);
      RowOfTwo(exposures, series, minObservations, f, gs[..n], p, q);
    }
  }

  lemma {:induction false} RowOfNone(exposures: Exposures, series: Returns, minObservations: nat, f: string,
                                     gs: seq<string>)
    requires Has(exposures, series, f) && Known(exposures, series, gs) && exposures[f] == 0.0
    ensures RowForm(exposures, series, minObservations, f, gs) == 0.0
    decreases gs
  {
    if gs != [] {
      RowAppend(exposures, series, minObservations, f, gs);
      RowOfNone(exposures, series, minObservations, f, gs[..|gs| - 1]);
    }
  }

  /** Factors without exposure do not matter. */
  lemma {:induction false} FormOfTwo(exposures: Exposures, series: Returns, minObservations: nat, fs: seq<string>,
                                     gs: seq<string>, p: string, q: string)
    requires Known(exposures, series, fs) && Known(exposures, series, gs)
    requires Has(exposures, series, p) && Has(exposures, series, q)
    requires DistinctFactors(fs) && p != q && OnlyTwo(exposures, p, q)
    ensures QuadraticForm(exposures, series, minObservations, fs, gs)
         == (if p in fs then RowForm(exposures, series, minObservations, p, gs) else 0.0)
          + (if q in fs then RowForm(exposures, series, minObservations, q, gs) else 0.0)
    decreases fs
  {
    if fs != [] {
      hide RowForm;
      var n := |fs| - 1;
      assert fs == fs[..n] + [fs[n]];
      FormOfTwo(exposures, series, minObservations, fs[..n], gs, p, q);
      if fs[n] != p && fs[n] != q {
        RowOfNone(exposures, series, minObservations, fs[n], gs);
      }
    }
  }

  type Lengths = map<string, nat>

  /** Windows of the given lengths, each long enough for a covariance. */
  predicate LongEnough(lengths: Lengths, minObservations: nat, fs: seq<string>) {
    forall i :: 0 <= i < |fs| ==> fs[i] in lengths && lengths[fs[i]] >= 2 && lengths[fs[i]] >= minObservations
  }

  predicate HasLengths(series: Returns, lengths: Lengths, fs: seq<string>) {
    forall i :: 0 <= i < |fs| ==> fs[i] in lengths && fs[i] in series && |series[fs[i]]| == lengths[fs[i]]
  }

  predicate EqualLengths(lengths: Lengths, fs: seq<string>) {
    forall i, j :: 0 <= i < |fs| && 0 <= j < |fs| && fs[i] in lengths && fs[j] in lengths ==>
      lengths[fs[i]] == lengths[fs[j]]
  }

  /** Long one factor and short another whose window is longer. */
  function LongShort(fs: seq<string>, p: string, q: string): Exposures {
    map f | f in fs :: if f == p then 1.0 else if f == q then -1.0 else 0.0
  }

  function Pulses(lengths: Lengths, fs: seq<string>): Returns {
    map f | f in fs && f in lengths && lengths[f] >= 2 :: Pulse(lengths[f])
  }

  lemma PulsesHaveLengths(lengths: Lengths, minObservations: nat, fs: seq<string>, p: string, q: string)
    requires LongEnough(lengths, minObservations, fs) && p in fs && q in fs && p != q
    ensures var exposures, series := LongShort(fs, p, q), Pulses(lengths, fs);
            && Known(exposures, series, fs) && HasLengths(series, lengths, fs) && OnlyTwo(exposures, p, q)
            && Has(exposures, series, p) && Has(exposures, series, q)
            && p in lengths && lengths[p] >= 2 && series[p] == Pulse(lengths[p]) && exposures[p] == 1.0
            && q in lengths && lengths[q] >= 2 && series[q] == Pulse(lengths[q]) && exposures[q] == -1.0
  {
    hide Pulse;
    forall i | 0 <= i < |fs| ensures |Pulses(lengths, fs)[fs[i]]| == lengths[fs[i]] {
      assert fs[i] in fs;
    }
  }

  lemma FourTerms(exposures: Exposures, series: Returns, minObservations: nat, fs: seq<string>, p: string, q: string)
    requires Known(exposures, series, fs) && Has(exposures, series, p) && Has(exposures, series, q)
    requires DistinctFactors(fs) && p in fs && q in fs && p != q && OnlyTwo(exposures, p, q)
    ensures QuadraticForm(exposures, series, minObservations, fs, fs)
         == PairTerm(exposures, series, minObservations, p, p) + PairTerm(exposures, series, minObservations, p, q)
          + PairTerm(exposures, series, minObservations, q, p) + PairTerm(exposures, series, minObservations, q, q)
  {
    hide RowForm, QuadraticForm, PairTerm;
    FormOfTwo(exposures, series, minObservations, fs, fs, p, q);
    RowOfTwo(exposures, series, minObservations, p, fs, p, q);
    RowOfTwo(exposures, series, minObservations, q, fs, p, q);
  }

  /** Any two windows of different lengths admit returns and exposures with a negative form. */
  lemma NegativeForm(lengths: Lengths, minObservations: nat, fs: seq<string>, p: string, q: string)
    requires DistinctFactors(fs) && LongEnough(lengths, minObservations, fs) && p in fs && q in fs
    requires p in lengths && q in lengths && 2 <= lengths[p] < lengths[q]
    ensures var exposures, series := LongShort(fs, p, q), Pulses(lengths, fs);
            && Known(exposures, series, fs) && HasLengths(series, lengths, fs)
            && QuadraticForm(exposures, series, minObservations, fs, fs)
            == 2.0 / (lengths[q] - 1) as real - 2.0 / (lengths[p] - 1) as real < 0.0
  {
    hide Pulse, RollingCovariance, QuadraticForm, OnlyTwo, LongShort, Pulses, Known, HasLengths;
    var a, b := lengths[p], lengths[q];
    PulsesHaveLengths(lengths, minObservations, fs, p, q);
    FourTerms(LongShort(fs, p, q), Pulses(lengths, fs), minObservations, fs, p, q);
    hide DistinctFactors;
    assert a >= minObservations && b >= minObservations;
    PulseCovariance(a, a, minObservations);
    PulseCovariance(a, b, minObservations);
    PulseCovariance(b, a, minObservations);
    PulseCovariance(b, b, minObservations);
    SmallerQuotient((a - 1) as real, (b - 1) as real);
  }

  lemma SmallerQuotient(x: real, y: real)
    requires 0.0 < x < y
    ensures 2.0 / y < 2.0 / x
  {
    var u, v := 2.0 / y, 2.0 / x;
    assert u * y == 2.0 && v * x == 2.0;
    assert v * y > v * x;
    assert (v - u) * y > 0.0;
    PositiveFactor(v - u, y);
  }

  lemma PositiveFactor(d: real, y: real)
    requires y > 0.0 && d * y > 0.0
    ensures d > 0.0
  {
  }

  lemma EqualWindowsNonNegative(lengths: Lengths, minObservations: nat, fs: seq<string>, exposures: Exposures,
                                series: Returns)
    requires LongEnough(lengths, minObservations, fs) && EqualLengths(lengths, fs)
    requires Known(exposures, series, fs) && HasLengths(series, lengths, fs)
    ensures QuadraticForm(exposures, series, minObservations, fs, fs) >= 0.0
  {
    if fs != [] {
      var n := lengths[fs[0]];
      assert Balanced(series, fs, n);
      FormIsVariance(exposures, series, minObservations, fs, n);
    }
  }

  /** For any factors with windows of given lengths: the double loop is non-negative for all exposures
      and all returns of these lengths, so that the clamp never acts, if and only if the lengths are
      equal.  Otherwise, while some window is still filling up, each covariance is taken over the common
      part of its two series only, and the form need not be a variance. */
  lemma NonNegativeIffEqualWindows(lengths: Lengths, minObservations: nat, fs: seq<string>)
    requires DistinctFactors(fs) && LongEnough(lengths, minObservations, fs)
    ensures EqualLengths(lengths, fs) <==>
      forall exposures, series :: Known(exposures, series, fs) && HasLengths(series, lengths, fs) ==>
        QuadraticForm(exposures, series, minObservations, fs, fs) >= 0.0
  {
    if EqualLengths(lengths, fs) {
      forall exposures, series | Known(exposures, series, fs) && HasLengths(series, lengths, fs)
        ensures QuadraticForm(exposures, series, minObservations, fs, fs) >= 0.0
      {
        EqualWindowsNonNegative(lengths, minObservations, fs, exposures, series);
      }
    } else {
      var i, j :| 0 <= i < |fs| && 0 <= j < |fs| && lengths[fs[i]] < lengths[fs[j]];
      NegativeForm(lengths, minObservations, fs, fs[i], fs[j]);
    }
  }

  /** One case: at the default of 20 observations, with one window of 20 and one of 21. */
  lemma UnequalWindowsCanBeNegative()
    ensures var fs, lengths := ["x", "y"], map["x" := 20, "y" := 21];
            var exposures, series := LongShort(fs, "x", "y"), Pulses(lengths, fs);
            && Known(exposures, series, fs)
            && QuadraticForm(exposures, series, 20, fs, fs) == 2.0 / 20.0 - 2.0 / 19.0 < 0.0
  {
    NegativeForm(map["x" := 20, "y" := 21], 20, ["x", "y"], "x", "y");
  }
}
