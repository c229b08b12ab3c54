/** `VarProcessor` of rt_server/src/postprocs/var.rs: keeps the latest prices and rolling log-returns
    of every factor and aggregates them with the exposures. */
module VarProcessing {
  import opened Wrappers
  import opened RealSums
  import opened ValueAtRisk

  // ---------- Rolling windows ----------

  datatype Windows = Windows(prices: map<string, real>, series: Returns)

  const NOTHING_YET := Windows(map[], map[])

  function LastN(n: nat, xs: seq<real>): seq<real> {
    if |xs| <= n then xs else xs[|xs| - n..]
  }

  function SeriesOf(w: Windows, f: string): seq<real> {
    if f in w.series then w.series[f] else []
  }

  /** The log-return from one price to the next. */
  function LogReturn(ln: real -> real, before: real, after: real): real
    requires before > 0.0
  {
    ln(after / before)
  }

  /** The effect of one price: an invalid one is ignored, the first one of a factor has no return. */
  function Update(ln: real -> real, window: nat, w: Windows, f: string, price: real): Windows {
    if price <= 0.0 then w
    else if f in w.prices && w.prices[f] > 0.0 then
      Windows(w.prices[f := price], w.series[f := LastN(window, SeriesOf(w, f) + [LogReturn(ln, w.prices[f], price)])])
    else w.(prices := w.prices[f := price])
  }

  datatype Quote = Quote(factor: string, price: real)

  function Exec(ln: real -> real, window: nat, quotes: seq<Quote>): Windows {
    if quotes == [] then NOTHING_YET
    else
      var q := quotes[|quotes| - 1];
      Update(ln, window, Exec(ln, window, quotes[..|quotes| - 1]), q.factor, q.price)
  }

  predicate Positive(ps: seq<real>) {
    forall i :: 0 <= i < |ps| ==> ps[i] > 0.0
  }

  /** The valid prices of a factor, in order. */
  function ValidPrices(quotes: seq<Quote>, f: string): (ps: seq<real>)
    ensures Positive(ps)
  {
    if quotes == [] then []
    else
      var q := quotes[|quotes| - 1];
      ValidPrices(quotes[..|quotes| - 1], f) + if q.factor == f && q.price > 0.0 then [q.price] else []
  }

  /** The log-returns of consecutive prices. */
  function LogReturns(ln: real -> real, ps: seq<real>): (rs: seq<real>)
    requires Positive(ps)
    ensures |rs| == if ps == [] then 0 else |ps| - 1
  {
    if |ps| <= 1 then []
    else
      var init := ps[..|ps| - 1];
      LogReturns(ln, init) + [LogReturn(ln, ps[|ps| - 2], ps[|ps| - 1])]
  }

  lemma LastNAppend(n: nat, xs: seq<real>, x: real)
    ensures LastN(n, LastN(n, xs) + [x]) == LastN(n, xs + [x])
  {
  }

  /** A window holds the log-returns of the last of the given prices. */
  predicate Rolling(ln: real -> real, window: nat, w: Windows, f: string, ps: seq<real>)
    requires Positive(ps)
  {
    && SeriesOf(w, f) == LastN(window, LogReturns(ln, ps))
    && (f in w.prices <==> ps != [])
    && (ps != [] ==> w.prices[f] == ps[|ps| - 1])
  }

  lemma UpdateRolls(ln: real -> real, window: nat, w: Windows, f: string, ps: seq<real>, price: real)
    requires price > 0.0 && Positive(ps)
    requires Rolling(ln, window, w, f, ps)
    ensures Rolling(ln, window, Update(ln, window, w, f, price), f, ps + [price])
  {
    hide LogReturn;
    var ps' := ps + [price];
    assert ps'[..|ps'| - 1] == ps;
    if ps != [] {
      LastNAppend(window, LogReturns(ln, ps), LogReturn(ln, ps[|ps| - 1], price));
    }
  }

  lemma UpdateLeaves(ln: real -> real, window: nat, w: Windows, f: string, ps: seq<real>, g: string, price: real)
    requires Positive(ps)
    requires Rolling(ln, window, w, f, ps) && (g != f || price <= 0.0)
    ensures Rolling(ln, window, Update(ln, window, w, g, price), f, ps)
  {
    hide LogReturn, LastN, LogReturns;
  }

  lemma ValidPricesStep(quotes: seq<Quote>, f: string)
    requires quotes != []
    ensures var init, q := quotes[..|quotes| - 1], quotes[|quotes| - 1];
            ValidPrices(quotes, f)
            == if q.factor == f && q.price > 0.0 then ValidPrices(init, f) + [q.price] else ValidPrices(init, f)
  {
  }

  /** After any stream of prices, each factor's window is exactly the log-returns of its last valid
      prices, at most `window` of them, and its latest price is the last valid one. */
  lemma {:induction false} WindowsAreRolling(ln: real -> real, window: nat, quotes: seq<Quote>, f: string)
    ensures Rolling(ln, window, Exec(ln, window, quotes), f, ValidPrices(quotes, f))
    decreases quotes
  {
    if quotes != [] {
      hide Update, Rolling, ValidPrices;
      var init, q := quotes[..|quotes| - 1], quotes[|quotes| - 1];
      WindowsAreRolling(ln, window, init, f);
      ValidPricesStep(quotes, f);
      if q.factor == f && q.price > 0.0 {
        UpdateRolls(ln, window, Exec(ln, window, init), f, ValidPrices(init, f), q.price);
      } else {
        UpdateLeaves(ln, window, Exec(ln, window, init), f, ValidPrices(init, f), q.factor, q.price);
      }
    }
  }

  /** The logarithm of a quotient, the only law of the logarithm that is needed. */
  ghost predicate IsLogarithm(ln: real -> real) {
    forall a: real, b: real :: a > 0.0 && b > 0.0 ==> ln(a / b) == ln(a) - ln(b)
  }

  lemma LogReturnIs(ln: real -> real, before: real, after: real)
    requires IsLogarithm(ln) && before > 0.0 && after > 0.0
    ensures LogReturn(ln, before, after) == ln(after) - ln(before)
  {
  }

  lemma LastNOfAppended(n: nat, rs: seq<real>, r: real)
    requires 0 < n <= |rs| + 1
    ensures LastN(n, rs + [r]) == LastN(n - 1, rs) + [r]
  {
  }

  lemma LogReturnsStep(ln: real -> real, ps: seq<real>)
    requires Positive(ps) && |ps| >= 2
    ensures Positive(ps[..|ps| - 1]) && ps[|ps| - 2] > 0.0 && ps[|ps| - 1] > 0.0
    ensures LogReturns(ln, ps) == LogReturns(ln, ps[..|ps| - 1]) + [LogReturn(ln, ps[|ps| - 2], ps[|ps| - 1])]
  {
    hide LogReturn;
  }

  lemma {:induction false} ReturnsTelescope(ln: real -> real, ps: seq<real>, n: nat)
    requires IsLogarithm(ln) && Positive(ps) && n < |ps|
    ensures Sum(LastN(n, LogReturns(ln, ps))) == ln(ps[|ps| - 1]) - ln(ps[|ps| - 1 - n])
    decreases n
  {
    hide LogReturn, LogReturns, IsLogarithm, Positive;
    if n == 0 {
      assert LastN(0, LogReturns(ln, ps)) == [];
    } else {
      hide Sum, LastN;
      var init := ps[..|ps| - 1];
      LogReturnsStep(ln, ps);
      var r := LogReturn(ln, ps[|ps| - 2], ps[|ps| - 1]);
      ReturnsTelescope(ln, init, n - 1);
      LogReturnIs(ln, ps[|ps| - 2], ps[|ps| - 1]);
      LastNOfAppended(n, LogReturns(ln, init), r);
      SumAppend(LastN(n - 1, LogReturns(ln, init)), r);
    }
  }

  /** The sum of a window is the log of the latest price less that of the price where it starts. */
  lemma WindowTelescopes(ln: real -> real, window: nat, quotes: seq<Quote>, f: string)
    requires IsLogarithm(ln) && ValidPrices(quotes, f) != []
    ensures var ps := ValidPrices(quotes, f);
            var n := if window <= |ps| - 1 then window else |ps| - 1;
            Sum(SeriesOf(Exec(ln, window, quotes), f)) == ln(ps[|ps| - 1]) - ln(ps[|ps| - 1 - n])
  {
    hide LogReturn, IsLogarithm, Exec, Sum;
    var ps := ValidPrices(quotes, f);
    var n := if window <= |ps| - 1 then window else |ps| - 1;
    WindowsAreRolling(ln, window, quotes, f);
    assert LastN(window, LogReturns(ln, ps)) == LastN(n, LogReturns(ln, ps));
    ReturnsTelescope(ln, ps, n);
  }

  // ---------- The processor ----------

  /** `z_score_from_confidence`. */
  function ZScore(confidence: real): real {
    if confidence >= 0.995 then 2.576
    else if confidence >= 0.99 then 2.326
    else if confidence >= 0.975 then 1.960
    else if confidence >= 0.95 then 1.645
    else if confidence >= 0.90 then 1.282
    else 1.0
  }

  function ClampAtZero(x: real): real {
    if x < 0.0 then 0.0 else x
  }

  /** The selected factors listed once each, in some order. */
  ghost predicate Enumerates(fs: seq<string>, exposures: Exposures, series: Returns, minObservations: nat) {
    && (forall i, j :: 0 <= i < j < |fs| ==> fs[i] != fs[j])
    && (forall i :: 0 <= i < |fs| ==> Selected(exposures, series, minObservations, fs[i]))
    && Known(exposures, series, fs)
    && forall f :: Selected(exposures, series, minObservations, f) ==> f in fs
  }

  /** The loss quantile of a variance. */
  function Quantile(confidence: real, sqrt: real -> real, variance: real): real {
    ZScore(confidence) * sqrt(ClampAtZero(variance))
  }

  ghost predicate IsRoot(sqrt: real -> real) {
    forall x: real :: x >= 0.0 ==> sqrt(x) >= 0.0 && sqrt(x) * sqrt(x) == x
  }

  lemma RootIs(sqrt: real -> real, x: real)
    requires IsRoot(sqrt) && x >= 0.0
    ensures sqrt(x) >= 0.0 && sqrt(x) * sqrt(x) == x
  {
  }

  /** Products are kept behind a name, so that the verifier does not multiply out under a sum. */
  function By(s: real, x: real): real {
    s * x
  }

  lemma ScaledSquare(z: real, r: real, x: real)
    requires z > 0.0 && r >= 0.0 && r * r == x
    ensures z * r >= 0.0 && (z * r) * (z * r) == By(By(z, z), x)
  {
    assert (z * r) * (z * r) == z * z * (r * r);
  }

  /** The square of the value is the variance, where it is not negative, times the square of the tabulated
      score. */
  lemma QuantileSquared(confidence: real, sqrt: real -> real, variance: real)
    requires IsRoot(sqrt)
    ensures var value := Quantile(confidence, sqrt, variance);
            var z :=
              if confidence >= 0.995 then 2.576 else if confidence >= 0.99 then 2.326
              else if confidence >= 0.975 then 1.96 else if confidence >= 0.95 then 1.645
              else if confidence >= 0.9 then 1.282 else 1.0;
            value >= 0.0 && value * value == By(By(z, z), if variance >= 0.0 then variance else 0.0)
  {
    hide IsRoot, By;
    RootIs(sqrt, ClampAtZero(variance));
    ScaledSquare(ZScore(confidence), sqrt(ClampAtZero(variance)), ClampAtZero(variance));
  }

  /** Once all windows have the same length, the value at risk is the tabulated score of the confidence
      times the root of the sample variance of the exposure-weighted returns: the clamp does not act. */
  lemma BalancedValueAtRisk(confidence: real, sqrt: real -> real, exposures: Exposures, series: Returns,
                            minObservations: nat, fs: seq<string>, n: nat)
    requires Enumerates(fs, exposures, series, minObservations) && fs != [] && Balanced(series, fs, n) && n >= 2
    requires IsRoot(sqrt)
    ensures var value := Quantile(confidence, sqrt, QuadraticForm(exposures, series, minObservations, fs, fs));
            var w := Weighted(exposures, series, fs, n);
            var variance := FromSums(Sum(Crossed(w, w)), Sum(w), Sum(w), n as real);
            var z :=
              if confidence >= 0.995 then 2.576 else if confidence >= 0.99 then 2.326
              else if confidence >= 0.975 then 1.96 else if confidence >= 0.95 then 1.645
              else if confidence >= 0.9 then 1.282 else 1.0;
            variance >= 0.0 && value >= 0.0 && value * value == By(By(z, z), variance)
  {
    hide Quantile, Covariance, IsRoot, QuadraticForm, Weighted, Sum, Crossed, FromSums, By;
    assert |series[fs[0]]| == n;
    FormIsVariance(exposures, series, minObservations, fs, n);
    var w := Weighted(exposures, series, fs, n);
    VarianceNonNegative(w);
    CovarianceClosedForm(w, w);
    QuantileSquared(confidence, sqrt, QuadraticForm(exposures, series, minObservations, fs, fs));
  }

  // ---------- Scaling the position ----------

  function Scaled(c: real, exposures: Exposures): Exposures {
    map f | f in exposures :: c * exposures[f]
  }

  lemma ScaledAt(c: real, exposures: Exposures, f: string)
    ensures Scaled(c, exposures).Keys == exposures.Keys
    ensures f in exposures ==> Scaled(c, exposures)[f] == By(c, exposures[f])
  {
  }

  lemma ByPlus(s: real, x: real, y: real)
    ensures By(s, x + y) == By(s, x) + By(s, y) && By(s, 0.0) == 0.0
  {
  }

  lemma TermScaled(c: real, s: real, x: real, y: real, cov: Option<real>)
    requires s == c * c
    ensures Term(By(c, x), By(c, y), cov) == By(s, Term(x, y, cov))
  {
    if cov.Some? {
      assert c * x * (c * y) == s * (x * y);
      assert c * x * (c * y) * cov.value == s * (x * y) * cov.value == s * (x * y * cov.value);
    }
  }

  /** The factor s is c * c. */
  lemma {:induction false} RowScaled(c: real, s: real, exposures: Exposures, series: Returns, minObservations: nat,
                                     f: string, fs: seq<string>)
    requires f in exposures && f in series && Known(exposures, series, fs) && s == c * c
    ensures Known(Scaled(c, exposures), series, fs)
    ensures RowForm(Scaled(c, exposures), series, minObservations, f, fs)
         == By(s, RowForm(exposures, series, minObservations, f, fs))
    decreases fs
  {
    ScaledAt(c, exposures, "");
    if fs == [] {
      ByPlus(s, 0.0, 0.0);
    } else {
      hide Term, RollingCovariance, By, Scaled;
      ScaledAt(c, exposures, f);
      ScaledAt(c, exposures, fs[|fs| - 1]);
      var init, g := fs[..|fs| - 1], fs[|fs| - 1];
      var cov := RollingCovariance(series[f], series[g], minObservations);
      RowScaled(c, s, exposures, series, minObservations, f, init);
      TermScaled(c, s, exposures[f], exposures[g], cov);
      ByPlus(s, RowForm(exposures, series, minObservations, f, init), Term(exposures[f], exposures[g], cov));
    }
  }

  lemma FormInit(exposures: Exposures, series: Returns, minObservations: nat, fs: seq<string>, gs: seq<string>)
    requires Known(exposures, series, fs) && Known(exposures, series, gs) && fs != []
    ensures var init, f := fs[..|fs| - 1], fs[|fs| - 1];
            && f in exposures && f in series && Known(exposures, series, init)
            && QuadraticForm(exposures, series, minObservations, fs, gs)
               == QuadraticForm(exposures, series, minObservations, init, gs)
                 + RowForm(exposures, series, minObservations, f, gs)
  {
  }

  lemma {:induction false} FormScaled(c: real, s: real, exposures: Exposures, series: Returns, minObservations: nat,
                                      fs: seq<string>, gs: seq<string>)
    requires Known(exposures, series, fs) && Known(exposures, series, gs) && s == c * c
    ensures Known(Scaled(c, exposures), series, fs) && Known(Scaled(c, exposures), series, gs)
    ensures QuadraticForm(Scaled(c, exposures), series, minObservations, fs, gs)
         == By(s, QuadraticForm(exposures, series, minObservations, fs, gs))
    decreases fs
  {
    ScaledAt(c, exposures, "");
    if fs == [] {
      ByPlus(s, 0.0, 0.0);
    } else {
      hide RowForm, By, Scaled, QuadraticForm;
      var init, f := fs[..|fs| - 1], fs[|fs| - 1];
      FormInit(exposures, series, minObservations, fs, gs);
      FormInit(Scaled(c, exposures), series, minObservations, fs, gs);
      FormScaled(c, s, exposures, series, minObservations, init, gs);
      RowScaled(c, s, exposures, series, minObservations, f, gs);
      ByPlus(s, QuadraticForm(exposures, series, minObservations, init, gs),
             RowForm(exposures, series, minObservations, f, gs));
    }
  }

  /** Roots are unique. */
  lemma SameRoot(a: real, b: real)
    requires a >= 0.0 && b >= 0.0 && a * a == b * b
    ensures a == b
  {
    if a < b {
      SmallerSquare(a, b);
    } else if b < a {
      SmallerSquare(b, a);
    }
  }

  lemma SmallerSquare(a: real, b: real)
    requires 0.0 <= a < b
    ensures a * a < b * b
  {
    assert b * b - a * a == (b - a) * (b + a);
    PositiveProduct(b - a, b + a);
  }

  lemma PositiveProduct(x: real, y: real)
    requires x > 0.0 && y > 0.0
    ensures x * y > 0.0
  {
  }

  lemma SquareOf(c: real, r: real)
    ensures By(c, r) * By(c, r) == By(c * c, r * r)
    ensures c >= 0.0 && r >= 0.0 ==> By(c, r) >= 0.0
  {
    assert (c * r) * (c * r) == c * c * (r * r);
  }

  lemma ScaledRoot(c: real, s: real, r: real, t: real, x: real)
    requires c >= 0.0 && s == c * c && r >= 0.0 && t >= 0.0 && r * r == x && t * t == By(s, x)
    ensures t == By(c, r)
  {
    hide By;
    SquareOf(c, r);
    SameRoot(t, By(c, r));
  }

  lemma ByCommutes(z: real, c: real, r: real)
    ensures By(z, By(c, r)) == By(c, By(z, r))
  {
    assert z * (c * r) == c * (z * r);
  }

  lemma QuantileIs(confidence: real, sqrt: real -> real, variance: real)
    ensures Quantile(confidence, sqrt, variance) == By(ZScore(confidence), sqrt(ClampAtZero(variance)))
  {
  }

  lemma QuantileScaled(confidence: real, sqrt: real -> real, c: real, s: real, variance: real)
    requires IsRoot(sqrt) && c >= 0.0 && s == c * c
    ensures Quantile(confidence, sqrt, By(s, variance)) == By(c, Quantile(confidence, sqrt, variance))
  {
    hide IsRoot, ZScore, By, Quantile;
    var x := ClampAtZero(variance);
    QuantileIs(confidence, sqrt, variance);
    QuantileIs(confidence, sqrt, By(s, variance));
    ClampScaled(c, s, variance);
    RootIs(sqrt, x);
    RootIs(sqrt, By(s, x));
    ScaledRoot(c, s, sqrt(x), sqrt(By(s, x)), x);
    ByCommutes(ZScore(confidence), c, sqrt(x));
  }

  lemma ClampScaled(c: real, s: real, x: real)
    requires s == c * c
    ensures ClampAtZero(By(s, x)) == By(s, ClampAtZero(x)) && By(s, ClampAtZero(x)) >= 0.0
  {
    hide By;
    SquareSign(c);
    SignOf(s, x);
    SignOf(s, 0.0);
  }

  lemma SquareSign(c: real)
    ensures c * c >= 0.0
  {
  }

  lemma SignOf(s: real, x: real)
    requires s >= 0.0
    ensures x >= 0.0 ==> By(s, x) >= 0.0
    ensures x <= 0.0 ==> By(s, x) <= 0.0
  {
  }

  /** Holding c times as much of everything risks c times as much, whatever the windows; the factors are the
      same. */
  lemma ValueAtRiskScales(confidence: real, sqrt: real -> real, c: real, exposures: Exposures, series: Returns,
                          minObservations: nat, fs: seq<string>)
    requires Enumerates(fs, exposures, series, minObservations) && IsRoot(sqrt) && c >= 0.0
    ensures Enumerates(fs, Scaled(c, exposures), series, minObservations)
    ensures Quantile(confidence, sqrt, QuadraticForm(Scaled(c, exposures), series, minObservations, fs, fs))
         == c * Quantile(confidence, sqrt, QuadraticForm(exposures, series, minObservations, fs, fs))
  {
    hide Quantile, IsRoot, QuadraticForm, Scaled;
    ScaledAt(c, exposures, "");
    FormScaled(c, c * c, exposures, series, minObservations, fs, fs);
    QuantileScaled(confidence, sqrt, c, c * c, QuadraticForm(exposures, series, minObservations, fs, fs));
  }

  class VarProcessor {
    const confidence: real
    const returnWindow: nat
    const minObservations: nat
    const ln: real -> real
    const sqrt: real -> real

    var latestExposures: Exposures
    var latestPrices: map<string, real>
    var series: Returns

    function View(): Windows
      reads this
    {
      Windows(latestPrices, series)
    }

    constructor (confidence: real, returnWindow: nat, minObservations: nat, ln: real -> real, sqrt: real -> real)
      ensures View() == NOTHING_YET && latestExposures == map[]
      ensures this.confidence == confidence && this.returnWindow == returnWindow
        && this.minObservations == minObservations
      ensures this.ln == ln && this.sqrt == sqrt
    {
      this.confidence, this.returnWindow, this.minObservations := confidence, returnWindow, minObservations;
      this.ln, this.sqrt := ln, sqrt;
      latestExposures, latestPrices, series := map[], map[], map[];
    }

    /** A PV01 message replaces the exposures. */
    method ReplaceExposures(exposures: Exposures)
      modifies this`latestExposures
      ensures latestExposures == exposures
    {
      latestExposures := exposures;
    }

    method UpdatePrice(f: string, price: real)
      modifies this`latestPrices, this`series
      ensures View() == Update(ln, returnWindow, old(View()), f, price)
    {
      if price <= 0.0 {
        return;
      }
      var known := f in latestPrices;
      var prev := if known then latestPrices[f] else 0.0;
      latestPrices := latestPrices[f := price];
      if known && prev > 0.0 {
        var deque := (if f in series then series[f] else []) + [LogReturn(ln, prev, price)];
        ghost var pushed := deque;
        while |deque| > returnWindow
          invariant |deque| <= |pushed| && deque == pushed[|pushed| - |deque|..]
          invariant |deque| >= returnWindow || deque == pushed
        {
          deque := deque[1..];
        }
        assert deque == LastN(returnWindow, pushed);
        series := series[f := deque];
      }
    }

    /** `aggregate`: the factors in some order, and the z-score times the root of the quadratic form;
        nothing if there is no factor or a selected factor has fewer than two observations. */
    method Aggregate() returns (value: Option<real>, factors: seq<string>)
      ensures Enumerates(factors, latestExposures, series, minObservations)
      ensures value.None? <==> factors == [] || exists f :: f in factors && |series[f]| < 2
      ensures value.Some? ==>
        value.value
        == Quantile(confidence, sqrt, QuadraticForm(latestExposures, series, minObservations, factors, factors))
    {
      hide RowForm, Selected, ClampAtZero, ZScore;
      factors := SelectFactors();
      if factors == [] {
        return None, factors;
      }
      var variance := 0.0;
      for i := 0 to |factors|
        invariant variance == QuadraticForm(latestExposures, series, minObservations, factors[..i], factors)
        invariant forall k :: 0 <= k < i ==> |series[factors[k]]| >= 2
      {
        assert factors[..i + 1] == factors[..i] + [factors[i]];
        var more := AddRow(variance, factors, i);
        if more.None? {
          return None, factors;
        }
        variance := more.value;
      }
      assert factors[..|factors|] == factors;
      value := Some(ZScore(confidence) * sqrt(ClampAtZero(variance)));
    }

    /** The inner loop: the covariances of factor i with all factors, or nothing if one is missing. */
    method AddRow(variance: real, factors: seq<string>, i: nat) returns (more: Option<real>)
      requires Enumerates(factors, latestExposures, series, minObservations) && i < |factors|
      ensures more.None? <==> exists f :: f in factors && (|series[factors[i]]| < 2 || |series[f]| < 2)
      ensures more.Some? ==>
        more.value == variance + RowForm(latestExposures, series, minObservations, factors[i], factors)
    {
      hide Term, RollingCovariance;
      var sum := variance;
      for j := 0 to |factors|
        invariant sum == variance + RowForm(latestExposures, series, minObservations, factors[i], factors[..j])
        invariant forall k :: 0 <= k < j ==> |series[factors[i]]| >= 2 && |series[factors[k]]| >= 2
      {
        assert factors[..j + 1] == factors[..j] + [factors[j]];
        var cov := RollingCovariance(series[factors[i]], series[factors[j]], minObservations);
        ShortSeries(series[factors[i]], series[factors[j]], minObservations);
        if cov.None? {
          return None;
        }
        sum := sum + Term(latestExposures[factors[i]], latestExposures[factors[j]], cov);
      }
      assert factors[..|factors|] == factors;
      more := Some(sum);
    }

    method SelectFactors() returns (factors: seq<string>)
      ensures Enumerates(factors, latestExposures, series, minObservations)
      ensures forall f :: f in factors <==> f in latestExposures && f in series && |series[f]| >= minObservations
    {
      factors := [];
      var rest := latestExposures.Keys;
      while rest != {}
        invariant rest <= latestExposures.Keys
        invariant forall i, j :: 0 <= i < j < |factors| ==> factors[i] != factors[j]
        invariant forall i :: 0 <= i < |factors| ==>
          factors[i] !in rest && Selected(latestExposures, series, minObservations, factors[i])
        invariant forall f :: Selected(latestExposures, series, minObservations, f) ==> f in rest || f in factors
        decreases rest
      {
        var f :| f in rest;
        if f in series && |series[f]| >= minObservations {
          factors := factors + [f];
        }
        rest := rest - {f};
      }
    }
  }

  /** With enough observations, a covariance is missing only for want of two entries. */
  lemma ShortSeries(xs: seq<real>, ys: seq<real>, minObservations: nat)
    requires |xs| >= minObservations && |ys| >= minObservations
    ensures RollingCovariance(xs, ys, minObservations).None? <==> |xs| < 2 || |ys| < 2
  {
  }
}
