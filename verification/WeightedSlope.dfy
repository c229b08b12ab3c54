/** `_exp_weighted_slope` of rt_server/src/trade_sender.rs: how fast the number of processed trades
    grows, with recent observations weighing more. */
module WeightedSlope {
  import opened Wrappers

  /** A time in nanoseconds and the number of trades processed until then. */
  datatype Sample = Sample(time: int, count: nat)

  const SECOND := 1000000000

  /** `num_seconds`: truncates towards zero. */
  function NumSeconds(duration: int): int {
    if duration >= 0 then duration / SECOND else -(-duration / SECOND)
  }

  /** An observation: time, value and weight. */
  datatype Point = Point(t: real, x: real, w: real)

  function Exponent(decay: real, age: int): real {
    -decay * age as real
  }

  function Observation(decay: real, exp: real -> real, last: int, s: Sample): Point {
    var age := NumSeconds(last - s.time);
    Point(-(age as real), s.count as real, exp(Exponent(decay, age)))
  }

  function Observations(decay: real, exp: real -> real, buffer: seq<Sample>): seq<Point>
    requires buffer != []
  {
    seq(|buffer|, i requires 0 <= i < |buffer| => Observation(decay, exp, buffer[|buffer| - 1].time, buffer[i]))
  }

  // ---------- Weighted sums ----------

  function Init(ps: seq<Point>): seq<Point>
    requires ps != []
  {
    ps[..|ps| - 1]
  }

  function Last(ps: seq<Point>): Point
    requires ps != []
  {
    ps[|ps| - 1]
  }

  /** Products are kept behind names, so that the verifier does not multiply out under a sum. */
  function Product(w: real, y: real, z: real): real {
    w * y * z
  }

  function TotalWeight(ps: seq<Point>): real {
    if ps == [] then 0.0 else TotalWeight(Init(ps)) + Last(ps).w
  }

  function WeightedTime(ps: seq<Point>): real {
    if ps == [] then 0.0 else WeightedTime(Init(ps)) + Product(Last(ps).w, Last(ps).t, 1.0)
  }

  function WeightedValue(ps: seq<Point>): real {
    if ps == [] then 0.0 else WeightedValue(Init(ps)) + Product(Last(ps).w, Last(ps).x, 1.0)
  }

  /** The sum of w * (t - c) * (x - d). */
  function CoMoment(ps: seq<Point>, c: real, d: real): real {
    if ps == [] then 0.0 else CoMoment(Init(ps), c, d) + Product(Last(ps).w, Last(ps).t - c, Last(ps).x - d)
  }

  function TimeMoment(ps: seq<Point>, c: real): real {
    if ps == [] then 0.0 else TimeMoment(Init(ps), c) + Product(Last(ps).w, Last(ps).t - c, Last(ps).t - c)
  }

  function ValueMoment(ps: seq<Point>, d: real): real {
    if ps == [] then 0.0 else ValueMoment(Init(ps), d) + Product(Last(ps).w, Last(ps).x - d, Last(ps).x - d)
  }

  function Residual(p: Point, a: real, b: real): real {
    p.x - a - b * p.t
  }

  /** The weighted squared error of the line x = a + b * t. */
  function SquaredError(ps: seq<Point>, a: real, b: real): real {
    if ps == [] then 0.0
    else SquaredError(Init(ps), a, b) + Product(Last(ps).w, Residual(Last(ps), a, b), Residual(Last(ps), a, b))
  }

  ghost predicate Weighted(ps: seq<Point>) {
    forall p :: p in ps ==> p.w > 0.0
  }

  lemma WeightedInit(ps: seq<Point>)
    requires Weighted(ps) && ps != []
    ensures Weighted(Init(ps)) && Last(ps).w > 0.0 && Last(ps) in ps
    ensures forall p :: p in ps <==> p in Init(ps) || p == Last(ps)
  {
    assert ps == Init(ps) + [Last(ps)];
  }

  lemma {:induction false} TotalWeightPositive(ps: seq<Point>)
    requires Weighted(ps)
    ensures TotalWeight(ps) >= 0.0 && (ps != [] ==> TotalWeight(ps) > 0.0)
  {
    if ps != [] {
      WeightedInit(ps);
      TotalWeightPositive(Init(ps));
    }
  }

  function TimeMean(ps: seq<Point>): real
    requires TotalWeight(ps) != 0.0
  {
    WeightedTime(ps) / TotalWeight(ps)
  }

  function ValueMean(ps: seq<Point>): real
    requires TotalWeight(ps) != 0.0
  {
    WeightedValue(ps) / TotalWeight(ps)
  }

  /** The slope as the code computes it. */
  function Slope(ps: seq<Point>): Option<real>
    requires TotalWeight(ps) != 0.0
  {
    var den := TimeMoment(ps, TimeMean(ps));
    if den == 0.0 then None else Some(CoMoment(ps, TimeMean(ps), ValueMean(ps)) / den)
  }

  method ExpWeightedSlope(buffer: seq<Sample>, decay: real, exp: real -> real) returns (slope: Option<real>)
    requires forall x :: exp(x) > 0.0
    ensures slope == None <==>
      |buffer| < 2 || forall s :: s in buffer ==> -SECOND < buffer[|buffer| - 1].time - s.time < SECOND
    ensures |buffer| >= 2 ==>
      var ps := Observations(decay, exp, buffer);
      Weighted(ps) && TotalWeight(ps) > 0.0 && slope == Slope(ps)
  {
    if |buffer| < 2 {
      return None;
    }
    var ps, wSum, tSum, xSum := Observe(buffer, decay, exp);
    NoSlopeWithinASecond(buffer, decay, exp);
    hide Weighted, TimeMoment, CoMoment, TotalWeight;
    var tMean, xMean := tSum / wSum, xSum / wSum;
    var num, den := Moments(ps, tMean, xMean);
    slope := if den == 0.0 then None else Some(num / den);
  }

  /** The loop that collects times, values and weights, and the sums for the weighted means. */
  method Observe(buffer: seq<Sample>, decay: real, exp: real -> real)
    returns (ps: seq<Point>, wSum: real, tSum: real, xSum: real)
    requires buffer != []
    ensures ps == Observations(decay, exp, buffer)
    ensures wSum == TotalWeight(ps) && tSum == WeightedTime(ps) && xSum == WeightedValue(ps)
  {
    hide Product, Observation;
    var last := buffer[|buffer| - 1].time;
    ps, wSum, tSum, xSum := [], 0.0, 0.0, 0.0;
    for i := 0 to |buffer|
      invariant ps == Observations(decay, exp, buffer)[..i]
      invariant wSum == TotalWeight(ps) && tSum == WeightedTime(ps) && xSum == WeightedValue(ps)
    {
      var p := Observation(decay, exp, last, buffer[i]);
      assert Init(ps + [p]) == ps;
      ps := ps + [p];
      wSum, tSum, xSum := wSum + p.w, tSum + Product(p.w, p.t, 1.0), xSum + Product(p.w, p.x, 1.0);
    }
  }

  /** The loop for the weighted covariance and the weighted variance of the times. */
  method Moments(ps: seq<Point>, tMean: real, xMean: real) returns (num: real, den: real)
    ensures num == CoMoment(ps, tMean, xMean) && den == TimeMoment(ps, tMean)
  {
    hide Product;
    num, den := 0.0, 0.0;
    for i := 0 to |ps|
      invariant num == CoMoment(ps[..i], tMean, xMean) && den == TimeMoment(ps[..i], tMean)
    {
      assert Init(ps[..i + 1]) == ps[..i];
      var dt, dx := ps[i].t - tMean, ps[i].x - xMean;
      num, den := num + Product(ps[i].w, dt, dx), den + Product(ps[i].w, dt, dt);
    }
    assert ps[..|ps|] == ps;
  }

  // ---------- When there is a slope ----------

  lemma SquareNonNegative(w: real, d: real)
    requires w > 0.0
    ensures Product(w, d, d) >= 0.0 && (Product(w, d, d) == 0.0 <==> d == 0.0)
  {
    SignRule(w, d);
    SignRule(w * d, d);
  }

  lemma SignRule(x: real, y: real)
    ensures x > 0.0 && y > 0.0 ==> x * y > 0.0
    ensures x > 0.0 && y < 0.0 ==> x * y < 0.0
    ensures x < 0.0 && y < 0.0 ==> x * y > 0.0
    ensures y == 0.0 ==> x * y == 0.0
  {
  }

  /** Zero exactly if all times are c. */
  lemma {:induction false} TimeMomentZero(ps: seq<Point>, c: real)
    requires Weighted(ps)
    ensures TimeMoment(ps, c) >= 0.0
    ensures TimeMoment(ps, c) == 0.0 <==> forall p :: p in ps ==> p.t == c
  {
    hide Product;
    if ps != [] {
      WeightedInit(ps);
      TimeMomentZero(Init(ps), c);
      SquareNonNegative(Last(ps).w, Last(ps).t - c);
    }
  }

  lemma {:induction false} ConstantTime(ps: seq<Point>, c: real)
    requires forall p :: p in ps ==> p.t == c
    ensures WeightedTime(ps) == Product(TotalWeight(ps), c, 1.0)
  {
    if ps != [] {
      assert ps == Init(ps) + [Last(ps)];
      ConstantTime(Init(ps), c);
    }
  }

  lemma ProductQuotient(w: real, c: real)
    requires w != 0.0
    ensures Product(w, c, 1.0) / w == c
  {
    assert (c * w) / w == c;
  }

  /** There is no slope exactly if all observations have the same time. */
  lemma NoSlopeIff(ps: seq<Point>)
    requires Weighted(ps) && ps != []
    ensures TotalWeight(ps) > 0.0
    ensures Slope(ps).None? <==> forall p :: p in ps ==> p.t == Last(ps).t
  {
    TotalWeightPositive(ps);
    hide TotalWeight, WeightedTime, Product;
    TimeMomentZero(ps, TimeMean(ps));
    if forall p :: p in ps ==> p.t == Last(ps).t {
      ConstantTime(ps, Last(ps).t);
      ProductQuotient(TotalWeight(ps), Last(ps).t);
    }
  }

  // ---------- Least squares ----------

  /** Weighted sums about a centre: of 1, t, x, t * t, t * x and x * x. */
  datatype Sums = Sums(w: real, t: real, x: real, tt: real, tx: real, xx: real)

  function SumsAbout(ps: seq<Point>, c: real, d: real): Sums {
    Sums(TotalWeight(ps), WeightedTime(ps) - c * TotalWeight(ps), WeightedValue(ps) - d * TotalWeight(ps),
         TimeMoment(ps, c), CoMoment(ps, c, d), ValueMoment(ps, d))
  }

  /** The weighted squared error of a line with slope b that passes the centre at height e. */
  function ErrorAbout(s: Sums, b: real, e: real): real {
    s.xx - 2.0 * b * s.tx + b * b * s.tt + e * e * s.w - 2.0 * e * s.x + 2.0 * e * b * s.t
  }

  lemma SquareExpansion(w: real, dt: real, dx: real, b: real, e: real)
    ensures w * (dx - b * dt - e) * (dx - b * dt - e)
         == w * dx * dx - 2.0 * b * (w * dt * dx) + b * b * (w * dt * dt) + e * e * w - 2.0 * e * (w * dx)
           + 2.0 * e * b * (w * dt)
  {
  }

  /** The sums of a single observation. */
  function SumsOf(p: Point, c: real, d: real): Sums {
    var dt, dx := p.t - c, p.x - d;
    Sums(p.w, p.w * dt, p.w * dx, Product(p.w, dt, dt), Product(p.w, dt, dx), Product(p.w, dx, dx))
  }

  function Plus(r: Sums, s: Sums): Sums {
    Sums(r.w + s.w, r.t + s.t, r.x + s.x, r.tt + s.tt, r.tx + s.tx, r.xx + s.xx)
  }

  lemma ErrorOfPoint(p: Point, a: real, b: real, c: real, d: real)
    ensures Product(p.w, Residual(p, a, b), Residual(p, a, b)) == ErrorAbout(SumsOf(p, c, d), b, a + b * c - d)
  {
    var dt, dx, e := p.t - c, p.x - d, a + b * c - d;
    assert Residual(p, a, b) == dx - b * dt - e;
    SquareExpansion(p.w, dt, dx, b, e);
  }

  lemma SumsStep(ps: seq<Point>, c: real, d: real)
    requires ps != []
    ensures SumsAbout(ps, c, d) == Plus(SumsAbout(Init(ps), c, d), SumsOf(Last(ps), c, d))
  {
    var p, w := Last(ps), TotalWeight(Init(ps));
    assert Product(p.w, p.t, 1.0) - c * p.w == p.w * (p.t - c);
    assert Product(p.w, p.x, 1.0) - d * p.w == p.w * (p.x - d);
    assert c * (w + p.w) == c * w + c * p.w && d * (w + p.w) == d * w + d * p.w;
  }

  lemma ErrorPlus(r: Sums, s: Sums, b: real, e: real)
    ensures ErrorAbout(Plus(r, s), b, e) == ErrorAbout(r, b, e) + ErrorAbout(s, b, e)
  {
  }

  lemma {:induction false} ErrorFromSums(ps: seq<Point>, a: real, b: real, c: real, d: real)
    ensures SquaredError(ps, a, b) == ErrorAbout(SumsAbout(ps, c, d), b, a + b * c - d)
  {
    if ps != [] {
      hide Product, SumsAbout, SumsOf, Plus, ErrorAbout, Residual;
      ErrorFromSums(Init(ps), a, b, c, d);
      SumsStep(ps, c, d);
      ErrorPlus(SumsAbout(Init(ps), c, d), SumsOf(Last(ps), c, d), b, a + b * c - d);
      ErrorOfPoint(Last(ps), a, b, c, d);
    }
  }

  lemma SumsAboutMeans(ps: seq<Point>)
    requires TotalWeight(ps) != 0.0
    ensures var s := SumsAbout(ps, TimeMean(ps), ValueMean(ps)); s.t == 0.0 && s.x == 0.0
  {
    assert TimeMean(ps) * TotalWeight(ps) == WeightedTime(ps);
    assert ValueMean(ps) * TotalWeight(ps) == WeightedValue(ps);
  }

  lemma CompleteSquare(s: Sums, b: real, e: real)
    requires s.tt != 0.0 && s.t == 0.0 && s.x == 0.0
    ensures var slope := s.tx / s.tt;
            ErrorAbout(s, b, e) == ErrorAbout(s, slope, 0.0) + Product(s.tt, b - slope, b - slope) + Product(s.w, e, e)
  {
    var slope := s.tx / s.tt;
    assert s.tx == slope * s.tt;
    assert Product(s.tt, b - slope, b - slope) == b * b * s.tt - 2.0 * b * (slope * s.tt) + slope * (slope * s.tt);
  }

  /** The line that goes with the slope passes the weighted means. */
  function Intercept(ps: seq<Point>): real
    requires TotalWeight(ps) != 0.0 && Slope(ps).Some?
  {
    ValueMean(ps) - Slope(ps).value * TimeMean(ps)
  }

  /** The height of a line above the weighted means. */
  function Offset(ps: seq<Point>, a: real, b: real): real
    requires TotalWeight(ps) != 0.0
  {
    a + b * TimeMean(ps) - ValueMean(ps)
  }

  /** The error of any line: the error of the computed one, and a weighted square for each of the two
      ways to differ from it. */
  lemma ErrorDecomposed(ps: seq<Point>, a: real, b: real)
    requires TotalWeight(ps) != 0.0 && Slope(ps).Some?
    ensures SquaredError(ps, a, b) == SquaredError(ps, Intercept(ps), Slope(ps).value)
          + Product(TimeMoment(ps, TimeMean(ps)), b - Slope(ps).value, b - Slope(ps).value)
          + Product(TotalWeight(ps), Offset(ps, a, b), Offset(ps, a, b))
  {
    var c, d := TimeMean(ps), ValueMean(ps);
    var s := SumsAbout(ps, c, d);
    SumsAboutMeans(ps);
    CompleteSquare(s, b, Offset(ps, a, b));
    ErrorFromSums(ps, a, b, c, d);
    ErrorFromSums(ps, Intercept(ps), Slope(ps).value, c, d);
    hide ErrorAbout, Product, TotalWeight, TimeMoment, CoMoment, SquaredError, TimeMean, ValueMean;
  }

  /** Least squares: no line has a smaller weighted squared error than the one with the computed
      slope, and any line that does as well has that slope and passes the weighted means. */
  lemma LeastSquares(ps: seq<Point>, a: real, b: real)
    requires Weighted(ps) && TotalWeight(ps) > 0.0 && Slope(ps).Some?
    ensures SquaredError(ps, Intercept(ps), Slope(ps).value) <= SquaredError(ps, a, b)
    ensures SquaredError(ps, a, b) == SquaredError(ps, Intercept(ps), Slope(ps).value) <==>
      b == Slope(ps).value && a == Intercept(ps)
  {
    hide Product, SquaredError, TotalWeight, TimeMoment, CoMoment, TimeMean, ValueMean;
    ErrorDecomposed(ps, a, b);
    TimeMomentZero(ps, TimeMean(ps));
    SquareNonNegative(TimeMoment(ps, TimeMean(ps)), b - Slope(ps).value);
    SquareNonNegative(TotalWeight(ps), Offset(ps, a, b));
  }

  lemma {:induction false} ErrorZero(ps: seq<Point>, a: real, b: real)
    requires Weighted(ps)
    ensures SquaredError(ps, a, b) >= 0.0
    ensures SquaredError(ps, a, b) == 0.0 <==> forall p :: p in ps ==> p.x == a + b * p.t
  {
    if ps != [] {
      WeightedInit(ps);
      ErrorZero(Init(ps), a, b);
      SquareNonNegative(Last(ps).w, Residual(Last(ps), a, b));
    }
  }

  /** Trades processed at a constant rate b show the slope b. */
  lemma ExactRecovery(ps: seq<Point>, a: real, b: real)
    requires Weighted(ps) && TotalWeight(ps) > 0.0 && Slope(ps).Some?
    requires forall p :: p in ps ==> p.x == a + b * p.t
    ensures Slope(ps).value == b && Intercept(ps) == a
  {
    ErrorZero(ps, a, b);
    ErrorZero(ps, Intercept(ps), Slope(ps).value);
    LeastSquares(ps, a, b);
  }

  // ---------- Observations ----------

  /** At least two observations yield no slope exactly if each is less than a second away from the
      last: the code looks at whole seconds only. */
  lemma NoSlopeWithinASecond(buffer: seq<Sample>, decay: real, exp: real -> real)
    requires buffer != [] && forall x :: exp(x) > 0.0
    ensures var ps, last := Observations(decay, exp, buffer), buffer[|buffer| - 1].time;
            && Weighted(ps) && TotalWeight(ps) > 0.0
            && (Slope(ps).None? <==> forall s :: s in buffer ==> -1000000000 < last - s.time < 1000000000)
  {
    var ps, last := Observations(decay, exp, buffer), buffer[|buffer| - 1].time;
    ObservationsWeigh(buffer, decay, exp);
    NoSlopeIff(ps);
    hide TotalWeight, Slope, Weighted, Observation;
    forall i | 0 <= i < |ps| ensures ps[i].t == 0.0 <==> -SECOND < last - buffer[i].time < SECOND {
      ObservedAt(decay, exp, last, buffer[i]);
    }
    if forall p :: p in ps ==> p.t == 0.0 {
      forall s | s in buffer ensures -SECOND < last - s.time < SECOND {
        var i :| 0 <= i < |buffer| && buffer[i] == s;
        assert ps[i] in ps;
      }
    }
  }

  lemma ObservationsWeigh(buffer: seq<Sample>, decay: real, exp: real -> real)
    requires buffer != [] && forall x :: exp(x) > 0.0
    ensures Weighted(Observations(decay, exp, buffer))
  {
  }

  lemma ObservedAt(decay: real, exp: real -> real, last: int, s: Sample)
    ensures Observation(decay, exp, last, s).t == 0.0 <==> -SECOND < last - s.time < SECOND
  {
  }

  /** Sampled a whole number of seconds apart, counts that grow by b a second show the slope b. */
  lemma ConstantRate(buffer: seq<Sample>, decay: real, exp: real -> real, b: real)
    requires |buffer| >= 2 && forall x :: exp(x) > 0.0
    requires var last := buffer[|buffer| - 1];
             forall s :: s in buffer ==>
               && (last.time - s.time) % 1000000000 == 0
               && last.count as real - s.count as real == b * ((last.time - s.time) / 1000000000) as real
    requires buffer[0].time != buffer[|buffer| - 1].time
    ensures var ps := Observations(decay, exp, buffer); TotalWeight(ps) > 0.0 && Slope(ps) == Some(b)
  {
    hide TotalWeight, Slope, Weighted, Observation;
    var ps, last := Observations(decay, exp, buffer), buffer[|buffer| - 1];
    NoSlopeWithinASecond(buffer, decay, exp);
    assert buffer[0] in buffer;
    forall p | p in ps ensures p.x == last.count as real + b * p.t {
      var i :| 0 <= i < |ps| && ps[i] == p;
      assert buffer[i] in buffer;
      ObservedIs(decay, exp, last.time, buffer[i]);
      RateAt(last, buffer[i], b, p.t);
    }
    ExactRecovery(ps, last.count as real, b);
  }

  lemma ObservedIs(decay: real, exp: real -> real, last: int, s: Sample)
    ensures var p := Observation(decay, exp, last, s);
            p.t == -(NumSeconds(last - s.time) as real) && p.x == s.count as real
  {
  }

  lemma RateAt(last: Sample, s: Sample, b: real, t: real)
    requires (last.time - s.time) % SECOND == 0 && t == -(NumSeconds(last.time - s.time) as real)
    requires last.count as real - s.count as real == b * ((last.time - s.time) / SECOND) as real
    ensures s.count as real == last.count as real + b * t
  {
    Negated(b, ((last.time - s.time) / SECOND) as real, t);
  }

  lemma Negated(b: real, x: real, y: real)
    requires y == -x
    ensures b * y == -(b * x)
  {
  }

  /** Weights: a later sample never weighs less than an earlier one, and the last one weighs exp(0). */
  lemma LaterWeighsMore(buffer: seq<Sample>, decay: real, exp: real -> real, i: nat, j: nat)
    requires i < |buffer| && j < |buffer| && buffer[i].time <= buffer[j].time
    requires decay >= 0.0 && forall x, y :: x <= y ==> exp(x) <= exp(y)
    ensures var ps := Observations(decay, exp, buffer); ps[i].w <= ps[j].w && ps[|ps| - 1].w == exp(0.0)
  {
    hide NumSeconds, Exponent;
    var last := buffer[|buffer| - 1].time;
    OlderAge(last - buffer[j].time, last - buffer[i].time);
    Ordered(decay, NumSeconds(last - buffer[j].time), NumSeconds(last - buffer[i].time));
    NoAge(decay);
  }

  lemma OlderAge(newer: int, older: int)
    requires newer <= older
    ensures NumSeconds(newer) <= NumSeconds(older)
  {
  }

  lemma NoAge(decay: real)
    ensures NumSeconds(0) == 0 && Exponent(decay, 0) == 0.0
  {
  }

  lemma Ordered(decay: real, x: int, y: int)
    requires decay >= 0.0 && x <= y
    ensures Exponent(decay, y) <= Exponent(decay, x)
  {
    NonNegativeProduct(decay, y as real - x as real);
  }

  lemma NonNegativeProduct(x: real, y: real)
    requires x >= 0.0 && y >= 0.0
    ensures x * y >= 0.0
  {
  }

  /** Two different times need not be enough. */
  lemma HalfASecondApart(decay: real, exp: real -> real)
    requires forall x :: exp(x) > 0.0
    ensures var ps := Observations(decay, exp, [Sample(0, 1), Sample(500000000, 2)]);
            TotalWeight(ps) > 0.0 && Slope(ps) == None
  {
    NoSlopeWithinASecond([Sample(0, 1), Sample(500000000, 2)], decay, exp);
  }
}
