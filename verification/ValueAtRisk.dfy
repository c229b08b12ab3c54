/** The delta-normal value at risk of rt_server/src/postprocs/var.rs: rolling windows of log-returns
    and the quadratic form of exposures and rolling covariances. */
module ValueAtRisk {
  import opened Wrappers
  import opened RealSums

  // ---------- Covariance ----------

  function Mean(xs: seq<real>): real
    requires xs != []
  {
    Sum(xs) / |xs| as real
  }

  function Product(x: real, y: real, mx: real, my: real): real {
    (x - mx) * (y - my)
  }

  /** The products of the deviations from given centres. */
  function Products(xs: seq<real>, ys: seq<real>, mx: real, my: real): seq<real>
    requires |xs| == |ys|
  {
    seq(|xs|, i requires 0 <= i < |xs| => Product(xs[i], ys[i], mx, my))
  }

  /** Sample covariance of two series of equal length. */
  function Covariance(xs: seq<real>, ys: seq<real>): real
    requires |xs| == |ys| >= 2
  {
    Sum(Products(xs, ys, Mean(xs), Mean(ys))) / (|xs| - 1) as real
  }

  /** The last n entries, the latest first. */
  function Tail(xs: seq<real>, n: nat): seq<real>
    requires n <= |xs|
  {
    Reversed(xs[|xs| - n..])
  }

  /** `rolling_covariance`. */
  function RollingCovariance(xs: seq<real>, ys: seq<real>, minObservations: nat): Option<real> {
    var n := if |xs| <= |ys| then |xs| else |ys|;
    if n < minObservations || n < 2 then None
    else Some(Covariance(Tail(xs, n), Tail(ys, n)))
  }

  lemma MeanReversed(xs: seq<real>)
    requires xs != []
    ensures Mean(Reversed(xs)) == Mean(xs)
  {
    SumReversed(xs);
  }

  lemma ProductsReversed(xs: seq<real>, ys: seq<real>, mx: real, my: real)
    requires |xs| == |ys|
    ensures Products(Reversed(xs), Reversed(ys), mx, my) == Reversed(Products(xs, ys, mx, my))
  {
    hide Product;
  }

  /** Taking the tails backwards makes no difference. */
  lemma CovarianceReversed(xs: seq<real>, ys: seq<real>)
    requires |xs| == |ys| >= 2
    ensures Covariance(Reversed(xs), Reversed(ys)) == Covariance(xs, ys)
  {
    hide Products, Mean;
    MeanReversed(xs);
    MeanReversed(ys);
    ProductsReversed(xs, ys, Mean(xs), Mean(ys));
    SumReversed(Products(xs, ys, Mean(xs), Mean(ys)));
  }

  lemma RollingIsCovariance(xs: seq<real>, ys: seq<real>, minObservations: nat)
    requires |xs| == |ys| >= 2 && |xs| >= minObservations
    ensures RollingCovariance(xs, ys, minObservations) == Some(Covariance(xs, ys))
  {
    hide Covariance;
    assert xs[0..] == xs && ys[0..] == ys;
    CovarianceReversed(xs, ys);
  }

  /** The covariance of two windows is that of their latest returns, as many as both have; there is none if
      these are fewer than two or than required. */
  lemma RollingIsOfLatest(xs: seq<real>, ys: seq<real>, minObservations: nat)
    ensures var n := if |xs| <= |ys| then |xs| else |ys|;
            RollingCovariance(xs, ys, minObservations)
            == if n < 2 || n < minObservations then None else Some(Covariance(xs[|xs| - n..], ys[|ys| - n..]))
  {
    hide Covariance;
    var n := if |xs| <= |ys| then |xs| else |ys|;
    if n >= 2 {
      CovarianceReversed(xs[|xs| - n..], ys[|ys| - n..]);
    }
  }

  lemma ProductsSymmetric(xs: seq<real>, ys: seq<real>, mx: real, my: real)
    requires |xs| == |ys|
    ensures Products(xs, ys, mx, my) == Products(ys, xs, my, mx)
  {
    forall i | 0 <= i < |xs| ensures Product(xs[i], ys[i], mx, my) == Product(ys[i], xs[i], my, mx) {
    }
  }

  lemma CovarianceSymmetric(xs: seq<real>, ys: seq<real>)
    requires |xs| == |ys| >= 2
    ensures Covariance(xs, ys) == Covariance(ys, xs)
  {
    hide Products, Mean;
    ProductsSymmetric(xs, ys, Mean(xs), Mean(ys));
  }

  lemma LinearQuotient(a: real, p: real, q: real, d: real)
    requires d > 0.0
    ensures Linear(a, p, q) / d == Linear(a, p / d, q / d)
  {
    assert (a * p + q) / d == a * (p / d) + q / d;
  }

  lemma MeanCombine(a: real, xs: seq<real>, ys: seq<real>)
    requires |xs| == |ys| && xs != []
    ensures Mean(Combine(a, xs, ys)) == Linear(a, Mean(xs), Mean(ys))
  {
    hide Linear, Sum;
    SumCombine(a, xs, ys);
    LinearQuotient(a, Sum(xs), Sum(ys), |xs| as real);
  }

  lemma ProductLinear(x: real, mx: real, a: real, y: real, z: real, my: real, mz: real)
    ensures Product(x, Linear(a, y, z), mx, Linear(a, my, mz))
      == Linear(a, Product(x, y, mx, my), Product(x, z, mx, mz))
  {
    assert (x - mx) * ((a * y + z) - (a * my + mz)) == a * ((x - mx) * (y - my)) + (x - mx) * (z - mz);
  }

  lemma ProductsLinear(xs: seq<real>, mx: real, a: real, ys: seq<real>, zs: seq<real>, my: real, mz: real)
    requires |xs| == |ys| == |zs|
    ensures Products(xs, Combine(a, ys, zs), mx, Linear(a, my, mz))
         == Combine(a, Products(xs, ys, mx, my), Products(xs, zs, mx, mz))
  {
    hide Product, Linear;
    forall i | 0 <= i < |xs|
      ensures Products(xs, Combine(a, ys, zs), mx, Linear(a, my, mz))[i]
           == Combine(a, Products(xs, ys, mx, my), Products(xs, zs, mx, mz))[i]
    {
      ProductLinear(xs[i], mx, a, ys[i], zs[i], my, mz);
    }
  }

  /** Covariance is linear in its second series. */
  lemma CovarianceLinear(xs: seq<real>, a: real, ys: seq<real>, zs: seq<real>)
    requires |xs| == |ys| == |zs| >= 2
    ensures Covariance(xs, Combine(a, ys, zs)) == Linear(a, Covariance(xs, ys), Covariance(xs, zs))
  {
    hide Product, Linear, Mean, Sum;
    var mx, my, mz := Mean(xs), Mean(ys), Mean(zs);
    var p, q := Products(xs, ys, mx, my), Products(xs, zs, mx, mz);
    MeanCombine(a, ys, zs);
    ProductsLinear(xs, mx, a, ys, zs, my, mz);
    SumCombine(a, p, q);
    LinearQuotient(a, Sum(p), Sum(q), (|xs| - 1) as real);
  }

  lemma CovarianceZeros(xs: seq<real>)
    requires |xs| >= 2
    ensures Covariance(xs, Zeros(|xs|)) == 0.0
  {
    SumZeros(|xs|);
    forall i | 0 <= i < |xs| ensures Product(xs[i], 0.0, Mean(xs), 0.0) == 0.0 {
    }
    assert Products(xs, Zeros(|xs|), Mean(xs), 0.0) == Zeros(|xs|);
  }

  lemma ProductsInit(xs: seq<real>, ys: seq<real>, mx: real, my: real)
    requires |xs| == |ys| && xs != []
    ensures var n := |xs| - 1;
            Products(xs, ys, mx, my) == Products(xs[..n], ys[..n], mx, my) + [Product(xs[n], ys[n], mx, my)]
  {
    hide Product;
  }

  /** What the centres contribute to a sum of n products. */
  function Centres(sx: real, sy: real, n: real, mx: real, my: real): real {
    n * (mx * my) - my * sx - mx * sy
  }

  lemma {:induction false} ProductsExpanded(xs: seq<real>, ys: seq<real>, mx: real, my: real)
    requires |xs| == |ys|
    ensures Sum(Products(xs, ys, mx, my))
         == Sum(Products(xs, ys, 0.0, 0.0)) + Centres(Sum(xs), Sum(ys), |xs| as real, mx, my)
    decreases xs
  {
    if xs != [] {
      hide Products, Product, Centres;
      var n := |xs| - 1;
      ProductsExpanded(xs[..n], ys[..n], mx, my);
      ProductsInit(xs, ys, mx, my);
      ProductsInit(xs, ys, 0.0, 0.0);
      SumAppend(Products(xs[..n], ys[..n], mx, my), Product(xs[n], ys[n], mx, my));
      SumAppend(Products(xs[..n], ys[..n], 0.0, 0.0), Product(xs[n], ys[n], 0.0, 0.0));
      OneProduct(xs[n], ys[n], mx, my, Sum(xs[..n]), Sum(ys[..n]), n as real);
    }
  }

  lemma OneProduct(x: real, y: real, mx: real, my: real, sx: real, sy: real, n: real)
    ensures Product(x, y, mx, my) + Centres(sx, sy, n, mx, my)
         == Product(x, y, 0.0, 0.0) + Centres(sx + x, sy + y, n + 1.0, mx, my)
  {
  }

  function Crossed(xs: seq<real>, ys: seq<real>): seq<real>
    requires |xs| == |ys|
  {
    seq(|xs|, i requires 0 <= i < |xs| => xs[i] * ys[i])
  }

  lemma PlainProducts(xs: seq<real>, ys: seq<real>)
    requires |xs| == |ys|
    ensures Products(xs, ys, 0.0, 0.0) == Crossed(xs, ys)
  {
    forall i | 0 <= i < |xs| ensures Product(xs[i], ys[i], 0.0, 0.0) == xs[i] * ys[i] {
    }
  }

  /** The sample covariance of n pairs with these sums of x * y, x and y. */
  function FromSums(sxy: real, sx: real, sy: real, n: real): real
    requires n > 1.0
  {
    (sxy - sx * sy / n) / (n - 1.0)
  }

  lemma Centred(p: real, sxy: real, sx: real, sy: real, n: real, mx: real, my: real, d: real)
    requires n > 1.0 && d == n - 1.0 && mx == sx / n && my == sy / n
    requires p == sxy + Centres(sx, sy, n, mx, my)
    ensures p == (sxy - sx * sy / n) && p / d == FromSums(sxy, sx, sy, n)
  {
    var c := mx * my;
    assert sx == n * mx && sy == n * my;
    assert my * sx == n * c && mx * sy == n * c;
    assert sx * sy == n * (n * c);
    assert n * (n * c) / n == n * c;
  }

  /** The sample covariance in terms of plain sums: (sum of x * y - sum of x * sum of y / n) / (n - 1). */
  lemma CovarianceClosedForm(xs: seq<real>, ys: seq<real>)
    requires |xs| == |ys| >= 2
    ensures Covariance(xs, ys) == FromSums(Sum(Crossed(xs, ys)), Sum(xs), Sum(ys), |xs| as real)
  {
    hide Sum, Products, Centres, Crossed, FromSums, Covariance;
    ProductsExpanded(xs, ys, Mean(xs), Mean(ys));
    PlainProducts(xs, ys);
    var p, d := Sum(Products(xs, ys, Mean(xs), Mean(ys))), (|xs| - 1) as real;
    Centred(p, Sum(Crossed(xs, ys)), Sum(xs), Sum(ys), |xs| as real, Mean(xs), Mean(ys), d);
    CovarianceIs(xs, ys, p, d);
  }

  lemma CovarianceIs(xs: seq<real>, ys: seq<real>, p: real, d: real)
    requires |xs| == |ys| >= 2 && p == Sum(Products(xs, ys, Mean(xs), Mean(ys))) && d == (|xs| - 1) as real
    ensures Covariance(xs, ys) == p / d
  {
  }

  /** Adding a constant to a series leaves its covariances as they are. */
  lemma CovarianceShifted(xs: seq<real>, ys: seq<real>, c: real)
    requires |xs| == |ys| >= 2
    ensures Covariance(seq(|xs|, i requires 0 <= i < |xs| => xs[i] + c), ys) == Covariance(xs, ys)
  {
    hide Products, Mean, Product;
    var shifted := seq(|xs|, i requires 0 <= i < |xs| => xs[i] + c);
    MeanShifted(xs, c);
    ProductsShifted(xs, ys, c, Mean(xs), Mean(ys));
  }

  lemma ProductsShifted(xs: seq<real>, ys: seq<real>, c: real, mx: real, my: real)
    requires |xs| == |ys|
    ensures Products(seq(|xs|, i requires 0 <= i < |xs| => xs[i] + c), ys, mx + c, my) == Products(xs, ys, mx, my)
  {
    forall i | 0 <= i < |xs| ensures Product(xs[i] + c, ys[i], mx + c, my) == Product(xs[i], ys[i], mx, my) {
      assert xs[i] + c - (mx + c) == xs[i] - mx;
    }
  }

  lemma {:induction false} SumShifted(xs: seq<real>, c: real)
    ensures Sum(seq(|xs|, i requires 0 <= i < |xs| => xs[i] + c)) == Sum(xs) + |xs| as real * c
    decreases xs
  {
    if xs != [] {
      var n := |xs| - 1;
      var shifted := seq(|xs|, i requires 0 <= i < |xs| => xs[i] + c);
      SumShifted(xs[..n], c);
      assert shifted[..n] == seq(|xs[..n]|, i requires 0 <= i < |xs[..n]| => xs[..n][i] + c);
      assert (n as real + 1.0) * c == n as real * c + c;
    }
  }

  lemma MeanShifted(xs: seq<real>, c: real)
    requires xs != []
    ensures Mean(seq(|xs|, i requires 0 <= i < |xs| => xs[i] + c)) == Mean(xs) + c
  {
    hide Sum;
    SumShifted(xs, c);
    ShiftedQuotient(Sum(xs), |xs| as real, c);
  }

  lemma ShiftedQuotient(sum: real, n: real, c: real)
    requires n > 0.0
    ensures (sum + n * c) / n == sum / n + c
  {
    assert sum + n * c == n * (sum / n + c);
  }

  /** A constant series varies with no other: returns that are all alike carry no risk. */
  lemma CovarianceOfConstant(xs: seq<real>, c: real)
    requires |xs| >= 2
    ensures Covariance(xs, seq(|xs|, i => c)) == 0.0
  {
    hide Covariance;
    var constant := seq(|xs|, i => c);
    CovarianceZeros(xs);
    CovarianceShifted(Zeros(|xs|), xs, c);
    assert constant == seq(|xs|, i requires 0 <= i < |xs| => Zeros(|xs|)[i] + c);
    CovarianceSymmetric(xs, constant);
    CovarianceSymmetric(xs, Zeros(|xs|));
  }

  lemma {:induction false} SumOfSquares(xs: seq<real>)
    requires forall i :: 0 <= i < |xs| ==> xs[i] >= 0.0
    ensures Sum(xs) >= 0.0
    decreases xs
  {
    if xs != [] {
      SumOfSquares(xs[..|xs| - 1]);
    }
  }

  lemma VarianceNonNegative(xs: seq<real>)
    requires |xs| >= 2
    ensures Covariance(xs, xs) >= 0.0
  {
    var p := Products(xs, xs, Mean(xs), Mean(xs));
    forall i | 0 <= i < |xs| ensures p[i] >= 0.0 {
      var d := xs[i] - Mean(xs);
      assert p[i] == d * d;
    }
    SumOfSquares(p);
  }

  // ---------- The quadratic form ----------

  type Exposures = map<string, real>
  type Returns = map<string, seq<real>>

  /** The factors with an exposure and enough observations. */
  predicate Selected(exposures: Exposures, series: Returns, minObservations: nat, f: string) {
    f in exposures && f in series && |series[f]| >= minObservations
  }

  predicate Known(exposures: Exposures, series: Returns, fs: seq<string>) {
    forall i :: 0 <= i < |fs| ==> fs[i] in exposures && fs[i] in series
  }

  /** All series have n entries. */
  predicate Balanced(series: Returns, fs: seq<string>, n: nat) {
    forall i :: 0 <= i < |fs| ==> fs[i] in series && |series[fs[i]]| == n
  }

  /** One term of the double loop; a covariance that cannot be formed ends the loop in the source. */
  function Term(x: real, y: real, c: Option<real>): real {
    if c.Some? then x * y * c.value else 0.0
  }

  /** One row of the double loop. */
  function RowForm(exposures: Exposures, series: Returns, minObservations: nat, f: string, fs: seq<string>): real
    requires f in exposures && f in series && Known(exposures, series, fs)
  {
    if fs == [] then 0.0
    else
      var init, g := fs[..|fs| - 1], fs[|fs| - 1];
      RowForm(exposures, series, minObservations, f, init)
        + Term(exposures[f], exposures[g], RollingCovariance(series[f], series[g], minObservations))
  }

  /** The double loop over factors fs against gs. */
  function QuadraticForm(exposures: Exposures, series: Returns, minObservations: nat, fs: seq<string>,
                         gs: seq<string>): real
    requires Known(exposures, series, fs) && Known(exposures, series, gs)
  {
    if fs == [] then 0.0
    else
      var init, f := fs[..|fs| - 1], fs[|fs| - 1];
      QuadraticForm(exposures, series, minObservations, init, gs) + RowForm(exposures, series, minObservations, f, gs)
  }

  /** The exposure-weighted return series. */
  function Weighted(exposures: Exposures, series: Returns, fs: seq<string>, n: nat): (ws: seq<real>)
    requires Known(exposures, series, fs) && Balanced(series, fs, n)
    ensures |ws| == n
  {
    if fs == [] then Zeros(n)
    else
      var f := fs[|fs| - 1];
      Combine(exposures[f], series[f], Weighted(exposures, series, fs[..|fs| - 1], n))
  }

  lemma TermLinear(x: real, y: real, c: real, d: real)
    ensures x * d + Term(x, y, Some(c)) == x * Linear(y, c, d)
  {
    assert x * (y * c + d) == x * d + x * y * c;
  }

  lemma {:induction false} RowIsCovariance(exposures: Exposures, series: Returns, minObservations: nat, f: string,
                                           fs: seq<string>, n: nat)
    requires f in exposures && f in series && |series[f]| == n && n >= 2 && n >= minObservations
    requires Known(exposures, series, fs) && Balanced(series, fs, n)
    ensures RowForm(exposures, series, minObservations, f, fs)
         == exposures[f] * Covariance(series[f], Weighted(exposures, series, fs, n))
    decreases fs
  {
    hide Term, Linear, Covariance, RollingCovariance;
    if fs == [] {
      CovarianceZeros(series[f]);
    } else {
      var init, g := fs[..|fs| - 1], fs[|fs| - 1];
      var w := Weighted(exposures, series, init, n);
      RowIsCovariance(exposures, series, minObservations, f, init, n);
      RollingIsCovariance(series[f], series[g], minObservations);
      CovarianceLinear(series[f], exposures[g], series[g], w);
      TermLinear(exposures[f], exposures[g], Covariance(series[f], series[g]), Covariance(series[f], w));
    }
  }

  lemma {:induction false} FormIsCovariance(exposures: Exposures, series: Returns, minObservations: nat,
                                            fs: seq<string>, gs: seq<string>, n: nat)
    requires n >= 2 && n >= minObservations
    requires Known(exposures, series, fs) && Balanced(series, fs, n)
    requires Known(exposures, series, gs) && Balanced(series, gs, n)
    ensures QuadraticForm(exposures, series, minObservations, fs, gs)
         == Covariance(Weighted(exposures, series, gs, n), Weighted(exposures, series, fs, n))
    decreases fs
  {
    hide Covariance, RowForm;
    var w := Weighted(exposures, series, gs, n);
    if fs == [] {
      CovarianceZeros(w);
    } else {
      var init, f := fs[..|fs| - 1], fs[|fs| - 1];
      FormIsCovariance(exposures, series, minObservations, init, gs, n);
      RowIsCovariance(exposures, series, minObservations, f, gs, n);
      CovarianceLinear(w, exposures[f], series[f], Weighted(exposures, series, init, n));
      CovarianceSymmetric(w, series[f]);
    }
  }

  /** The double loop is the sample variance of the exposure-weighted returns: it is never negative, so
      the clamp at zero never acts. */
  lemma FormIsVariance(exposures: Exposures, series: Returns, minObservations: nat, fs: seq<string>, n: nat)
    requires n >= 2 && n >= minObservations
    requires Known(exposures, series, fs) && Balanced(series, fs, n)
    ensures var w := Weighted(exposures, series, fs, n);
            QuadraticForm(exposures, series, minObservations, fs, fs) == Covariance(w, w) >= 0.0
  {
    FormIsCovariance(exposures, series, minObservations, fs, fs, n);
    VarianceNonNegative(Weighted(exposures, series, fs, n));
  }

  // ---------- Independence of the order of the factors ----------

  /** The contribution of a factor to one entry of the weighted series. */
  function Share(exposures: Exposures, series: Returns, f: string, t: nat): real {
    if f in exposures && f in series && t < |series[f]| then exposures[f] * series[f][t] else 0.0
  }

  function SumShares(exposures: Exposures, series: Returns, fs: seq<string>, t: nat): real {
    if fs == [] then 0.0
    else SumShares(exposures, series, fs[..|fs| - 1], t) + Share(exposures, series, fs[|fs| - 1], t)
  }

  lemma {:induction false} WeightedIsSum(exposures: Exposures, series: Returns, fs: seq<string>, n: nat, t: nat)
    requires Known(exposures, series, fs) && Balanced(series, fs, n) && t < n
    ensures Weighted(exposures, series, fs, n)[t] == SumShares(exposures, series, fs, t)
    decreases fs
  {
    if fs != [] {
      WeightedIsSum(exposures, series, fs[..|fs| - 1], n, t);
    }
  }

  /** Any one occurrence can be taken out. */
  lemma {:induction false} TakeOut(exposures: Exposures, series: Returns, fs: seq<string>, j: nat, t: nat)
    requires j < |fs|
    ensures SumShares(exposures, series, fs, t)
         == SumShares(exposures, series, fs[..j] + fs[j + 1..], t) + Share(exposures, series, fs[j], t)
    decreases fs
  {
    hide Share;
    var n := |fs| - 1;
    if j == n {
      assert fs[..j] + fs[j + 1..] == fs[..n];
    } else {
      var init := fs[..n];
      TakeOut(exposures, series, init, j, t);
      var rest := fs[..j] + fs[j + 1..];
      assert rest[..|rest| - 1] == init[..j] + init[j + 1..];
      assert rest[|rest| - 1] == fs[n];
    }
  }

  lemma MultisetWithout(fs: seq<string>, j: nat)
    requires j < |fs|
    ensures multiset(fs[..j] + fs[j + 1..]) == multiset(fs) - multiset{fs[j]}
  {
    assert fs == fs[..j] + [fs[j]] + fs[j + 1..];
  }

  /** A sum over factors does not depend on their order. */
  lemma {:induction false} SharesPermuted(exposures: Exposures, series: Returns, fs: seq<string>, gs: seq<string>,
                                          t: nat)
    requires multiset(fs) == multiset(gs)
    ensures SumShares(exposures, series, fs, t) == SumShares(exposures, series, gs, t)
    decreases fs
  {
    hide Share;
    if fs == [] {
      assert |multiset(gs)| == 0;
    } else {
      var n := |fs| - 1;
      var f := fs[n];
      assert f in multiset(gs);
      var j :| 0 <= j < |gs| && gs[j] == f;
      MultisetWithout(fs, n);
      MultisetWithout(gs, j);
      assert fs[..n] + fs[n + 1..] == fs[..n];
      SharesPermuted(exposures, series, fs[..n], gs[..j] + gs[j + 1..], t);
      TakeOut(exposures, series, gs, j, t);
    }
  }

  /** The value does not depend on the order in which the factors are enumerated. */
  lemma OrderIrrelevant(exposures: Exposures, series: Returns, minObservations: nat, fs: seq<string>, gs: seq<string>,
                        n: nat)
    requires n >= 2 && n >= minObservations && multiset(fs) == multiset(gs)
    requires Known(exposures, series, fs) && Balanced(series, fs, n)
    requires Known(exposures, series, gs) && Balanced(series, gs, n)
    ensures QuadraticForm(exposures, series, minObservations, fs, fs)
      == QuadraticForm(exposures, series, minObservations, gs, gs)
  {
    var v, w := Weighted(exposures, series, fs, n), Weighted(exposures, series, gs, n);
    forall t | 0 <= t < n ensures v[t] == w[t] {
      WeightedIsSum(exposures, series, fs, n, t);
      WeightedIsSum(exposures, series, gs, n, t);
      SharesPermuted(exposures, series, fs, gs, t);
    }
    assert v == w;
    FormIsVariance(exposures, series, minObservations, fs, n);
    FormIsVariance(exposures, series, minObservations, gs, n);
  }
}
