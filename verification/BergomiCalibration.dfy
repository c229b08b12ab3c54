/** The calibration of rt_server/src/yf/src/bergomi_calib.rs around the optimiser. */
module BergomiCalibration {
  import opened Wrappers
  import opened NelderMead

  datatype Quote = Quote(maturity: real, strike: real, call: bool, mid: real, weight: real)

  datatype CalibrationError =
    | NoQuotes | BadMaturity | BadStrike | BadMid | BadWeight
    | BadH | BadEta | BadXi | BadRho

  datatype Calibration = Calibrated(model: Point) | Failed(error: CalibrationError)

  /** An error found before the search. */
  predicate AboutQuotes(e: CalibrationError) {
    e in {NoQuotes, BadMaturity, BadStrike, BadMid, BadWeight}
  }

  /** `BergomiModel::validate`, on (h, eta, rho, xi). */
  function Validate(p: Point): (e: Option<CalibrationError>)
    ensures e.Some? ==> !AboutQuotes(e.value)
  {
    if !(0.0 < p[0] < 0.5) then Some(BadH)
    else if !(p[1] > 0.0) then Some(BadEta)
    else if !(p[3] > 0.0) then Some(BadXi)
    else if !(-1.0 < p[2] < 1.0) then Some(BadRho)
    else None
  }

  function QuoteError(q: Quote): (e: Option<CalibrationError>)
    ensures e.Some? ==> AboutQuotes(e.value) && e.value != NoQuotes
  {
    if q.maturity <= 0.0 then Some(BadMaturity)
    else if q.strike <= 0.0 then Some(BadStrike)
    else if q.mid < 0.0 then Some(BadMid)
    else if q.weight <= 0.0 then Some(BadWeight)
    else None
  }

  /** The weighted squared pricing errors; the Monte Carlo price is a parameter. */
  function SquaredErrors(price: (Point, Quote) -> real, quotes: seq<Quote>, p: Point): real {
    if quotes == [] then 0.0
    else
      var q := quotes[|quotes| - 1];
      SquaredErrors(price, quotes[..|quotes| - 1], p) + q.weight * (price(p, q) - q.mid) * (price(p, q) - q.mid)
  }

  /** A model is valid exactly if h lies between 0 and 1/2, rho between -1 and 1, and eta and xi are
      positive; the first of h, eta, xi and rho that is not is reported. */
  lemma ValidIff(p: Point)
    ensures Validate(p).None? <==> 0.0 < p[0] < 0.5 && p[1] > 0.0 && -1.0 < p[2] < 1.0 && p[3] > 0.0
    ensures Validate(p) == Some(BadH) <==> p[0] <= 0.0 || p[0] >= 0.5
    ensures Validate(p) == Some(BadEta) <==> 0.0 < p[0] < 0.5 && p[1] <= 0.0
    ensures Validate(p) == Some(BadXi) <==> 0.0 < p[0] < 0.5 && p[1] > 0.0 && p[3] <= 0.0
  {
  }

  /** A quote is good exactly if maturity, strike and weight are positive and the price is not negative; the
      first of maturity, strike, price and weight that is not is reported. */
  lemma GoodQuoteIff(q: Quote)
    ensures QuoteError(q).None? <==> q.maturity > 0.0 && q.strike > 0.0 && q.mid >= 0.0 && q.weight > 0.0
    ensures QuoteError(q) == Some(BadMaturity) <==> q.maturity <= 0.0
    ensures QuoteError(q) == Some(BadStrike) <==> q.maturity > 0.0 && q.strike <= 0.0
    ensures QuoteError(q) == Some(BadMid) <==> q.maturity > 0.0 && q.strike > 0.0 && q.mid < 0.0
  {
  }

  /** One quote costs its weight times the square of the mispricing. */
  function Cost(price: (Point, Quote) -> real, q: Quote, p: Point): real {
    q.weight * (price(p, q) - q.mid) * (price(p, q) - q.mid)
  }

  lemma CostSign(w: real, d: real)
    requires w > 0.0
    ensures w * d * d >= 0.0 && (w * d * d == 0.0 <==> d == 0.0)
  {
    SignRule(w, d);
    SignRule(w * d, d);
  }

  lemma SignRule(x: real, y: real)
    ensures x > 0.0 && y > 0.0 ==> x * y > 0.0
    ensures x > 0.0 && y < 0.0 ==> x * y < 0.0
    ensures x < 0.0 && y < 0.0 ==> x * y > 0.0
    ensures y == 0.0 ==> x * y == 0.0
  {
  }

  /** The error of a fit to good quotes is never negative, and zero exactly if every quote is matched; adding
      a quote adds its cost. */
  lemma {:induction false} PerfectFitIff(price: (Point, Quote) -> real, quotes: seq<Quote>, p: Point)
    requires forall q :: q in quotes ==> q.weight > 0.0
    ensures SquaredErrors(price, quotes, p) >= 0.0
    ensures SquaredErrors(price, quotes, p) == 0.0 <==> forall q :: q in quotes ==> price(p, q) == q.mid
    decreases quotes
  {
    if quotes != [] {
      var n := |quotes| - 1;
      assert quotes == quotes[..n] + [quotes[n]];
      PerfectFitIff(price, quotes[..n], p);
      CostSign(quotes[n].weight, price(p, quotes[n]) - quotes[n].mid);
    }
  }

  lemma OneMoreQuote(price: (Point, Quote) -> real, quotes: seq<Quote>, q: Quote, p: Point)
    ensures SquaredErrors(price, quotes + [q], p) == SquaredErrors(price, quotes, p) + Cost(price, q, p)
  {
    assert (quotes + [q])[..|quotes|] == quotes;
  }

  /** The objective clamps its argument before it prices. */
  function Objective(price: (Point, Quote) -> real, quotes: seq<Quote>, bounds: Bounds): Point -> real {
    (x: Point) =>
      var p := Clamped(x, bounds);
      if Validate(p).Some? then PENALTY else SquaredErrors(price, quotes, p)
  }

  const GUESS: Point := [0.10, 1.0, -0.7, 0.04]

  /** The models the search starts from: h = 0.1, eta = 1, rho = -0.7 and xi = 0.04, and one step away from
      these in each parameter; all of them valid, if the bounds admit them. */
  lemma FirstModels(bounds: Bounds)
    requires bounds[0].low <= 0.1 && bounds[1].low <= 1.0 && bounds[2].low <= -0.7 && bounds[3].low <= 0.04
    requires bounds[0].high >= 0.12 && bounds[1].high >= 1.2 && bounds[2].high >= -0.65 && bounds[3].high >= 0.05
    ensures StartVertices(GUESS, bounds)
         == [[0.1, 1.0, -0.7, 0.04], [0.12, 1.0, -0.7, 0.04], [0.1, 1.2, -0.7, 0.04], [0.1, 1.0, -0.65, 0.04],
             [0.1, 1.0, -0.7, 0.05]]
    ensures forall p :: p in StartVertices(GUESS, bounds) ==> Validate(p).None?
  {
    var start := StartVertices(GUESS, bounds);
    assert start[0] == [0.1, 1.0, -0.7, 0.04] && start[1] == [0.12, 1.0, -0.7, 0.04];
    assert start[2] == [0.1, 1.2, -0.7, 0.04] && start[3] == [0.1, 1.0, -0.65, 0.04];
    assert start[4] == [0.1, 1.0, -0.7, 0.05];
  }

  const PENALTY := 1000000000000.0

  /** The error of the first bad quote. */
  function FirstError(quotes: seq<Quote>): (e: Option<CalibrationError>)
    ensures e.Some? ==> AboutQuotes(e.value) && e.value != NoQuotes
  {
    if quotes == [] then None
    else
      var e := FirstError(quotes[..|quotes| - 1]);
      if e.Some? then e else QuoteError(quotes[|quotes| - 1])
  }

  lemma {:induction false} FirstErrorIffBadQuote(quotes: seq<Quote>)
    ensures FirstError(quotes).Some? <==> exists q :: q in quotes && QuoteError(q).Some?
  {
    if quotes != [] {
      var n := |quotes| - 1;
      assert quotes == quotes[..n] + [quotes[n]];
      FirstErrorIffBadQuote(quotes[..n]);
    }
  }

  /** The search behind a calibration: a complete run of the optimiser from the guess. */
  ghost predicate SearchedBy(objective: Point -> real, bounds: Bounds, maxIter: nat, tol: real, sqrt: real -> real,
                             rounds: seq<Simplex>, trace: seq<Point>) {
    && History(objective, GUESS, bounds, rounds, trace) && |rounds| <= maxIter
    && (|rounds| < maxIter ==> Converged(objective, VerticesAfter(objective, GUESS, bounds, rounds), tol, sqrt))
  }

  /** A result backed by a set of evaluated points: a calibrated model is valid, in the bounds and no
      worse than any of them; it fails only if every one of them was penalised. */
  ghost predicate BackedBy(result: Calibration, objective: Point -> real, bounds: Bounds, trace: seq<Point>) {
    match result
    case Calibrated(model) =>
      && Validate(model).None? && Settled(model, bounds) && (Ordered(bounds) ==> InBounds(model, bounds))
      && forall p :: p in trace ==> objective(model) <= objective(p)
    case Failed(e) => !AboutQuotes(e) && forall p :: p in trace ==> objective(p) >= PENALTY
  }

  /** `calibrate_bergomi_to_vix_options_with_config`, for any Monte Carlo price. */
  method Calibrate(quotes: seq<Quote>, bounds: Bounds, maxIter: nat, tol: real, sqrt: real -> real,
                   price: (Point, Quote) -> real)
    returns (result: Calibration, ghost trace: seq<Point>, ghost rounds: seq<Simplex>)
    ensures result == Failed(NoQuotes) <==> quotes == []
    ensures quotes != [] ==>
      (result.Failed? && AboutQuotes(result.error) <==> exists q :: q in quotes && QuoteError(q).Some?)
    ensures FirstError(quotes).Some? ==> result == Failed(FirstError(quotes).value)
    ensures quotes != [] && FirstError(quotes).None? ==>
      var objective := Objective(price, quotes, bounds);
      && SearchedBy(objective, bounds, maxIter, tol, sqrt, rounds, trace)
      && GUESS in trace && BackedBy(result, objective, bounds, trace)
  {
    hide SearchedBy, Objective, Settled, Ordered, InBounds, Validate, QuoteError;
    FirstErrorIffBadQuote(quotes);
    trace, rounds := [], [];
    if quotes == [] {
      return Failed(NoQuotes), trace, rounds;
    }
    for i := 0 to |quotes|
      invariant FirstError(quotes[..i]).None?
    {
      assert quotes[..i + 1][..i] == quotes[..i];
      var e := QuoteError(quotes[i]);
      if e.Some? {
        FirstErrorStays(quotes, i);
        return Failed(e.value), trace, rounds;
      }
    }
    assert quotes[..|quotes|] == quotes;
    result, trace, rounds := Fit(quotes, bounds, maxIter, tol, sqrt, price);
  }

  lemma {:induction false} FirstErrorStays(quotes: seq<Quote>, i: nat)
    requires i < |quotes| && FirstError(quotes[..i]).None? && QuoteError(quotes[i]).Some?
    ensures FirstError(quotes) == QuoteError(quotes[i])
  {
    var n := |quotes| - 1;
    if i < n {
      assert quotes[..n][..i] == quotes[..i];
      FirstErrorStays(quotes[..n], i);
    }
  }

  /** Clamping once more does not change the objective, which is the penalty on invalid models and the
      weighted squared pricing error on valid ones. */
  lemma ObjectiveClamps(price: (Point, Quote) -> real, quotes: seq<Quote>, bounds: Bounds, x: Point)
    ensures var p := Clamped(x, bounds);
            && Settled(p, bounds) && (Ordered(bounds) ==> InBounds(p, bounds))
            && Objective(price, quotes, bounds)(p) == Objective(price, quotes, bounds)(x)
            && Objective(price, quotes, bounds)(p)
              == if Validate(p).Some? then 1000000000000.0 else SquaredErrors(price, quotes, p)
  {
    ClampedInBounds(x, bounds);
    ClampedInBounds(Clamped(x, bounds), bounds);
  }

  /** The part of the calibration after the quotes have been checked. */
  method Fit(quotes: seq<Quote>, bounds: Bounds, maxIter: nat, tol: real, sqrt: real -> real,
             price: (Point, Quote) -> real)
    returns (result: Calibration, ghost trace: seq<Point>, ghost rounds: seq<Simplex>)
    ensures var objective := Objective(price, quotes, bounds);
            && SearchedBy(objective, bounds, maxIter, tol, sqrt, rounds, trace)
            && GUESS in trace && BackedBy(result, objective, bounds, trace)
  {
    var objective := Objective(price, quotes, bounds);
    hide Objective, Clamped, Settled, InBounds, Ordered, SquaredErrors, Validate, Rounds, EvaluatedBy, Converged;
    var best, value;
    best, value, trace, rounds := NelderMead4d(GUESS, objective, bounds, maxIter, tol, sqrt);
    var model := Clamp(best, bounds);
    ObjectiveClamps(price, quotes, bounds, best);
    assert forall p :: p in trace ==> objective(model) <= objective(p);
    var e := Validate(model);
    result := if e.Some? then Failed(e.value) else Calibrated(model);
  }
}
