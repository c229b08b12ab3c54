/** The Volterra kernel of rt_server/src/yf/src/bergomi_calib.rs, with the power function left open.
    y is the convolution of the increments of a driver with the integrals of u^(h - 1/2) over the grid
    intervals.  The source means it to approximate the integral of (t - s)^(h - 1/2) dW(s), but does not
    divide these integrals by the length dt of an interval; `IntegralIff` says when that matters. */
module VolterraKernel {
  import opened RealSums

  /** x^hp at the grid point k. */
  function GridPower(powf: (real, real) -> real, dt: real, hp: real, k: int): real {
    powf(k as real * dt, hp)
  }

  function Quotient(a: real, b: real): real
    requires b != 0.0
  {
    a / b
  }

  /** The integral of u^(hp - 1) over the k-th interval counted back from the present. */
  function Weight(powf: (real, real) -> real, dt: real, hp: real, k: nat): real
    requires hp != 0.0
  {
    Quotient(GridPower(powf, dt, hp, k) - GridPower(powf, dt, hp, k - 1), hp)
  }

  /** The weights as stored: index 0 is unused. */
  function Weights(powf: (real, real) -> real, dt: real, hp: real, n: nat): seq<real>
    requires hp != 0.0
  {
    seq(n + 1, k requires 0 <= k => if k == 0 then 0.0 else Weight(powf, dt, hp, k))
  }

  function Contribution(weight: real, increment: real): real {
    weight * increment
  }

  /** w[k] * dW[i + 1 - k], for k = 1, 2, ..., m. */
  function Terms(w: seq<real>, dW: seq<real>, i: nat, m: nat): seq<real>
    requires i < |dW| && m <= i + 1 < |w|
  {
    seq(m, k requires 0 <= k < m => Contribution(w[k + 1], dW[i - k]))
  }

  /** The convolution at index i. */
  function Response(w: seq<real>, dW: seq<real>, i: nat): real
    requires i < |dW| && i + 1 < |w|
  {
    Sum(Terms(w, dW, i, i + 1))
  }

  class HybridKernel {
    const h: real
    const dt: real
    const n: nat
    const w: array<real>

    constructor (h: real, dt: real, n: nat, powf: (real, real) -> real)
      requires h + 0.5 != 0.0
      ensures this.h == h && this.dt == dt && this.n == n && fresh(w)
      ensures w[..] == Weights(powf, dt, h + 0.5, n)
    {
      var hp := h + 0.5;
      this.h, this.dt, this.n := h, dt, n;
      var weights := new real[n + 1](k => 0.0);
      for k := 1 to n + 1
        invariant weights[0] == 0.0
        invariant forall m :: 1 <= m < k ==> weights[m] == Weight(powf, dt, hp, m)
      {
        var a := GridPower(powf, dt, hp, k);
        var b := GridPower(powf, dt, hp, k - 1);
        weights[k] := Quotient(a - b, hp);
      }
      w := weights;
    }

    method BuildY(dW: seq<real>) returns (y: array<real>)
      requires w.Length == n + 1 && n <= |dW|
      ensures fresh(y) && y.Length == n
      ensures forall i :: 0 <= i < n ==> y[i] == Response(w[..], dW, i)
    {
      hide Response;
      y := new real[n](i => 0.0);
      for i := 0 to n
        invariant forall j :: 0 <= j < i ==> y[j] == Response(w[..], dW, j)
      {
        var acc := Convolve(dW, i);
        y[i] := acc;
      }
    }

    /** The inner loop. */
    method Convolve(dW: seq<real>, i: nat) returns (acc: real)
      requires i < |dW| && i + 1 < w.Length
      ensures acc == Response(w[..], dW, i)
    {
      hide Contribution;
      acc := 0.0;
      for k := 1 to i + 2
        invariant acc == Sum(Terms(w[..], dW, i, k - 1))
      {
        var term := Contribution(w[k], dW[i + 1 - k]);
        assert Terms(w[..], dW, i, k) == Terms(w[..], dW, i, k - 1) + [term];
        SumAppend(Terms(w[..], dW, i, k - 1), term);
        acc := acc + term;
      }
    }
  }

  // ---------- The closed form ----------

  lemma {:induction false} SameTerms(c: real, xs: seq<real>, ys: seq<real>)
    requires |xs| == |ys| && forall k :: 0 <= k < |xs| ==> ys[k] == Contribution(xs[k], c)
    ensures Sum(ys) == Contribution(Sum(xs), c)
    decreases xs
  {
    if xs != [] {
      var m := |xs| - 1;
      SameTerms(c, xs[..m], ys[..m]);
    }
  }

  lemma QuotientsAdd(a: real, b: real, c: real, d: real)
    requires d != 0.0
    ensures Quotient(b - a, d) + Quotient(c - b, d) == Quotient(c - a, d)
    ensures Quotient(a - a, d) == 0.0
  {
  }

  lemma WeightsSlice(powf: (real, real) -> real, dt: real, hp: real, n: nat, m: nat)
    requires hp != 0.0 && 0 < m <= n
    ensures |Weights(powf, dt, hp, n)| == n + 1
    ensures Weights(powf, dt, hp, n)[1..m + 1] == Weights(powf, dt, hp, n)[1..m] + [Weight(powf, dt, hp, m)]
  {
    hide Weight;
  }

  lemma {:induction false} Telescope(powf: (real, real) -> real, dt: real, hp: real, n: nat, m: nat)
    requires hp != 0.0 && m <= n
    ensures |Weights(powf, dt, hp, n)| == n + 1
    ensures Sum(Weights(powf, dt, hp, n)[1..m + 1])
      == Quotient(GridPower(powf, dt, hp, m) - GridPower(powf, dt, hp, 0), hp)
  {
    hide GridPower, Quotient;
    if m == 0 {
      QuotientsAdd(GridPower(powf, dt, hp, 0), 0.0, 0.0, hp);
    } else {
      hide Sum, Weights;
      Telescope(powf, dt, hp, n, m - 1);
      WeightsSlice(powf, dt, hp, n, m);
      SumAppend(Weights(powf, dt, hp, n)[1..m], Weight(powf, dt, hp, m));
      QuotientsAdd(GridPower(powf, dt, hp, 0), GridPower(powf, dt, hp, m - 1), GridPower(powf, dt, hp, m), hp);
    }
  }

  /** The weights telescope: the first m of them add up to the integral of the kernel over the last m
      intervals. */
  lemma WeightsTelescope(powf: (real, real) -> real, dt: real, hp: real, n: nat, m: nat)
    requires hp != 0.0 && m <= n
    ensures |Weights(powf, dt, hp, n)| == n + 1
    ensures Sum(Weights(powf, dt, hp, n)[1..m + 1]) == (powf(m as real * dt, hp) - powf(0.0, hp)) / hp
  {
    hide Weights, Sum;
    Telescope(powf, dt, hp, n, m);
    assert 0 as real * dt == 0.0;
  }

  /** The stored weights: the integral of the kernel over each interval, counted back from the present. */
  lemma WeightsAre(powf: (real, real) -> real, dt: real, hp: real, n: nat, k: nat)
    requires hp != 0.0 && 1 <= k <= n
    ensures |Weights(powf, dt, hp, n)| == n + 1
    ensures Weights(powf, dt, hp, n)[k] == (powf(k as real * dt, hp) - powf((k - 1) as real * dt, hp)) / hp
  {
    GridPowerIs(powf, dt, hp, k, k as real * dt);
    GridPowerIs(powf, dt, hp, k - 1, (k - 1) as real * dt);
    SameQuotient(GridPower(powf, dt, hp, k), GridPower(powf, dt, hp, k - 1),
                 powf(k as real * dt, hp), powf((k - 1) as real * dt, hp), hp);
  }

  lemma GridPowerIs(powf: (real, real) -> real, dt: real, hp: real, k: int, x: real)
    requires x == k as real * dt
    ensures GridPower(powf, dt, hp, k) == powf(x, hp)
  {
  }

  lemma SameQuotient(a: real, b: real, c: real, d: real, hp: real)
    requires a == c && b == d && hp != 0.0
    ensures Quotient(a - b, hp) == (c - d) / hp
  {
  }

  lemma ConstantResponse(w: seq<real>, dW: seq<real>, c: real, i: nat)
    requires i < |dW| && i + 1 < |w| && forall j :: 0 <= j <= i ==> dW[j] == c
    ensures Response(w, dW, i) == Contribution(Sum(w[1..i + 2]), c)
  {
    hide Contribution;
    SameTerms(c, w[1..i + 2], Terms(w, dW, i, i + 1));
  }

  lemma WeightCount(powf: (real, real) -> real, dt: real, hp: real, n: nat)
    requires hp != 0.0
    ensures |Weights(powf, dt, hp, n)| == n + 1
  {
  }

  lemma ConstantDriverSum(powf: (real, real) -> real, dt: real, hp: real, n: nat, dW: seq<real>, c: real, i: nat)
    requires hp > 0.0 && powf(0.0, hp) == 0.0
    requires i < n <= |dW| && forall j :: 0 <= j <= i ==> dW[j] == c
    ensures Response(Weights(powf, dt, hp, n), dW, i) == Contribution(Quotient(GridPower(powf, dt, hp, i + 1), hp), c)
  {
    hide Response, Weights, Sum, GridPower, Contribution, Quotient;
    WeightCount(powf, dt, hp, n);
    ConstantResponse(Weights(powf, dt, hp, n), dW, c, i);
    var m := i + 1;
    Telescope(powf, dt, hp, n, m);
    ZeroPower(powf, dt, hp);
  }

  /** A driver that is c up to index i yields c times the integral of the kernel over [0, (i + 1) dt].
      With 0^hp == 0, as for every hp > 0, this is c * ((i + 1) dt)^hp / hp. */
  lemma ConstantDriver(powf: (real, real) -> real, dt: real, hp: real, n: nat, dW: seq<real>, c: real, i: nat)
    requires hp > 0.0 && powf(0.0, hp) == 0.0
    requires i < n <= |dW| && forall j :: 0 <= j <= i ==> dW[j] == c
    ensures |Weights(powf, dt, hp, n)| == n + 1
    ensures Response(Weights(powf, dt, hp, n), dW, i) == c * powf((i + 1) as real * dt, hp) / hp
  {
    hide Response, Weights;
    WeightCount(powf, dt, hp, n);
    ConstantDriverSum(powf, dt, hp, n, dW, c, i);
    Regrouped(powf((i + 1) as real * dt, hp), hp, c);
  }

  lemma Regrouped(p: real, hp: real, c: real)
    requires hp != 0.0
    ensures Contribution(Quotient(p, hp), c) == c * p / hp
  {
    var q := p / hp;
    assert q * hp == p;
    assert c * p == q * c * hp;
    assert q * c * hp / hp == q * c;
  }

  lemma ZeroPower(powf: (real, real) -> real, dt: real, hp: real)
    requires powf(0.0, hp) == 0.0
    ensures GridPower(powf, dt, hp, 0) == 0.0
  {
  }

  lemma ScaledDriver(q: real, c: real, dt: real)
    requires q != 0.0
    ensures Contribution(q, c * dt) == dt * Contribution(q, c)
    ensures Contribution(q, c * dt) == Contribution(q, c) <==> dt == 1.0 || c == 0.0
  {
    assert q * (c * dt) == dt * (q * c);
    if dt != 1.0 && c != 0.0 {
      NonZeroProduct(q, c);
      NonZeroProduct(dt - 1.0, q * c);
      assert (dt - 1.0) * (q * c) == dt * (q * c) - q * c;
    }
  }

  lemma NonZeroProduct(x: real, y: real)
    requires x != 0.0 && y != 0.0
    ensures x * y != 0.0
  {
  }

  lemma QuotientNotZero(a: real, b: real)
    requires a != 0.0 && b != 0.0
    ensures Quotient(a, b) != 0.0
  {
    assert Quotient(a, b) * b == a;
  }

  /** Against a driver that moves at the rate c, by c * dt in each interval, the integral that is meant
      is c * ((i + 1) dt)^hp / hp; the code yields dt times that, which is the same only for dt == 1 or
      a driver at rest. */
  lemma IntegralIff(powf: (real, real) -> real, dt: real, hp: real, n: nat, dW: seq<real>, c: real, i: nat)
    requires hp > 0.0 && powf(0.0, hp) == 0.0 && powf((i + 1) as real * dt, hp) != 0.0
    requires i < n <= |dW| && forall j :: 0 <= j <= i ==> dW[j] == c * dt
    ensures |Weights(powf, dt, hp, n)| == n + 1
    ensures var integral := c * powf((i + 1) as real * dt, hp) / hp;
            && Response(Weights(powf, dt, hp, n), dW, i) == dt * integral
            && (Response(Weights(powf, dt, hp, n), dW, i) == integral <==> dt == 1.0 || c == 0.0)
  {
    hide Response, Weights, Contribution, Quotient;
    var p := powf((i + 1) as real * dt, hp);
    var q := Quotient(p, hp);
    WeightCount(powf, dt, hp, n);
    QuotientNotZero(p, hp);
    ConstantDriverSum(powf, dt, hp, n, dW, c * dt, i);
    ScaledDriver(q, c, dt);
    Regrouped(p, hp, c);
  }

  // ---------- Linear, causal and stationary ----------

  /** y[i] depends on the increments 0..i only. */
  lemma Causal(w: seq<real>, dW: seq<real>, dV: seq<real>, i: nat)
    requires i < |dW| && i < |dV| && i + 1 < |w| && dW[..i + 1] == dV[..i + 1]
    ensures Response(w, dW, i) == Response(w, dV, i)
  {
    hide Contribution;
    forall j | 0 <= j <= i ensures dW[j] == dV[j] {
      assert dW[j] == dW[..i + 1][j] && dV[j] == dV[..i + 1][j];
    }
    assert Terms(w, dW, i, i + 1) == Terms(w, dV, i, i + 1);
  }

  lemma ContributionLinear(weight: real, a: real, x: real, y: real)
    ensures Contribution(weight, Linear(a, x, y)) == Linear(a, Contribution(weight, x), Contribution(weight, y))
  {
  }

  lemma TermsLinear(w: seq<real>, a: real, dW: seq<real>, dV: seq<real>, i: nat)
    requires |dW| == |dV| && i < |dW| && i + 1 < |w|
    ensures Terms(w, Combine(a, dW, dV), i, i + 1) == Combine(a, Terms(w, dW, i, i + 1), Terms(w, dV, i, i + 1))
  {
    hide Contribution, Linear;
    var xs, ys := Terms(w, dW, i, i + 1), Terms(w, dV, i, i + 1);
    forall k | 0 <= k <= i ensures Terms(w, Combine(a, dW, dV), i, i + 1)[k] == Combine(a, xs, ys)[k] {
      ContributionLinear(w[k + 1], a, dW[i - k], dV[i - k]);
    }
  }

  lemma ResponseLinear(w: seq<real>, a: real, dW: seq<real>, dV: seq<real>, i: nat)
    requires |dW| == |dV| && i < |dW| && i + 1 < |w|
    ensures Response(w, Combine(a, dW, dV), i) == a * Response(w, dW, i) + Response(w, dV, i)
  {
    hide Contribution, Combine, Sum;
    TermsLinear(w, a, dW, dV, i);
    SumCombine(a, Terms(w, dW, i, i + 1), Terms(w, dV, i, i + 1));
  }

  /** A unit impulse at index j. */
  function Impulse(n: nat, j: nat): seq<real>
    requires j < n
  {
    Zeros(n)[j := 1.0]
  }

  /** The weights are the impulse response: increment j reaches y[i] with weight w[i + 1 - j] if it is
      not in the future, and not at all otherwise. */
  lemma ImpulseResponse(w: seq<real>, n: nat, i: nat, j: nat)
    requires i < n && j < n && n < |w|
    ensures Response(w, Impulse(n, j), i) == if j <= i then w[i + 1 - j] else 0.0
  {
    var ts := Terms(w, Impulse(n, j), i, i + 1);
    if j <= i {
      assert ts == Zeros(i - j) + [w[i + 1 - j]] + Zeros(j);
      SumConcat(Zeros(i - j) + [w[i + 1 - j]], Zeros(j));
      SumAppend(Zeros(i - j), w[i + 1 - j]);
      SumZeros(i - j);
      SumZeros(j);
    } else {
      assert ts == Zeros(i + 1);
      SumZeros(i + 1);
    }
  }

  /** Delaying the driver delays the response. */
  lemma Stationary(w: seq<real>, dW: seq<real>, delay: nat, i: nat)
    requires i < |dW| && i + delay + 1 < |w|
    ensures Response(w, Zeros(delay) + dW, i + delay) == Response(w, dW, i)
  {
    var ts := Terms(w, Zeros(delay) + dW, i + delay, i + delay + 1);
    assert ts == Terms(w, dW, i, i + 1) + Zeros(delay) by {
      assert forall k :: i < k <= i + delay ==> ts[k] == 0.0;
    }
    SumConcat(Terms(w, dW, i, i + 1), Zeros(delay));
    SumZeros(delay);
  }
}
