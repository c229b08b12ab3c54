/** The optimiser of rt_server/src/yf/src/bergomi_calib.rs. */
module NelderMead {
  import opened RealSums

  /** `[f64; 4]`: the parameters h, eta, rho and xi. */
  type Point = p: seq<real> | |p| == 4 witness [0.0, 0.0, 0.0, 0.0]

  type Simplex = s: seq<Point> | |s| == 5 witness [ORIGIN, ORIGIN, ORIGIN, ORIGIN, ORIGIN]

  const ORIGIN: Point := [0.0, 0.0, 0.0, 0.0]

  datatype Range = Range(low: real, high: real)

  type Bounds = b: seq<Range> | |b| == 4 witness [Range(0.0, 0.0), Range(0.0, 0.0), Range(0.0, 0.0), Range(0.0, 0.0)]

  predicate Ordered(bounds: Bounds) {
    forall i :: 0 <= i < 4 ==> bounds[i].low <= bounds[i].high
  }

  predicate InBounds(p: Point, bounds: Bounds) {
    forall i :: 0 <= i < 4 ==> bounds[i].low <= p[i] <= bounds[i].high
  }

  /** Clamping leaves the point where it is. */
  predicate Settled(p: Point, bounds: Bounds) {
    Clamped(p, bounds) == p
  }

  // ---------- Points ----------

  function Plus(a: Point, b: Point): Point {
    [a[0] + b[0], a[1] + b[1], a[2] + b[2], a[3] + b[3]]
  }

  function Minus(a: Point, b: Point): Point {
    [a[0] - b[0], a[1] - b[1], a[2] - b[2], a[3] - b[3]]
  }

  function Scale(a: Point, s: real): Point {
    [a[0] * s, a[1] * s, a[2] * s, a[3] * s]
  }

  /** The point c + s * (a - b). */
  function Towards(c: Point, a: Point, b: Point, s: real): Point {
    Plus(c, Scale(Minus(a, b), s))
  }

  function SquaredLength(a: Point): real {
    a[0] * a[0] + a[1] * a[1] + a[2] * a[2] + a[3] * a[3]
  }

  /** `clamp_params`: into the bounds, and nothing else. */
  method Clamp(x: Point, bounds: Bounds) returns (y: Point)
    ensures y == Clamped(x, bounds) && Settled(y, bounds)
    ensures Ordered(bounds) ==> InBounds(y, bounds)
    ensures InBounds(x, bounds) ==> y == x
  {
    var z: seq<real> := x;
    for i := 0 to 4
      invariant |z| == 4
      invariant forall k :: 0 <= k < i ==> z[k] == ClampedTo(x[k], bounds[k])
      invariant forall k :: i <= k < 4 ==> z[k] == x[k]
    {
      if z[i] < bounds[i].low {
        z := z[i := bounds[i].low];
      }
      if z[i] > bounds[i].high {
        z := z[i := bounds[i].high];
      }
    }
    y := z;
  }

  function ClampedTo(x: real, r: Range): real {
    var y := if x < r.low then r.low else x;
    if y > r.high then r.high else y
  }

  function Clamped(x: Point, bounds: Bounds): Point {
    [ClampedTo(x[0], bounds[0]), ClampedTo(x[1], bounds[1]), ClampedTo(x[2], bounds[2]), ClampedTo(x[3], bounds[3])]
  }

  lemma ClampedInBounds(x: Point, bounds: Bounds)
    ensures Settled(Clamped(x, bounds), bounds)
    ensures Ordered(bounds) ==> InBounds(Clamped(x, bounds), bounds)
    ensures InBounds(x, bounds) ==> Clamped(x, bounds) == x
  {
  }

  /** What clamping settles on: a point of the range or, if the range is given the wrong way round, its
      second end. */
  lemma SettledIff(p: Point, bounds: Bounds)
    ensures Settled(p, bounds) <==>
      forall i :: 0 <= i < 4 ==>
        if bounds[i].low <= bounds[i].high then bounds[i].low <= p[i] <= bounds[i].high else p[i] == bounds[i].high
    ensures Ordered(bounds) ==> (Settled(p, bounds) <==> InBounds(p, bounds))
  {
    assert Settled(p, bounds) <==> forall i :: 0 <= i < 4 ==> ClampedTo(p[i], bounds[i]) == p[i];
  }

  /** `centroid_4`: the mean of the points, coordinate by coordinate. */
  method Centroid(points: seq<Point>) returns (c: Point)
    requires points != []
    ensures c == Mean(points)
  {
    var sums: seq<real> := [0.0, 0.0, 0.0, 0.0];
    for k := 0 to |points|
      invariant |sums| == 4
      invariant forall i :: 0 <= i < 4 ==> sums[i] == Sum(Coordinate(points[..k], i))
    {
      forall i | 0 <= i < 4
        ensures Sum(Coordinate(points[..k + 1], i)) == Sum(Coordinate(points[..k], i)) + points[k][i]
      {
        assert Coordinate(points[..k + 1], i) == Coordinate(points[..k], i) + [points[k][i]];
        SumAppend(Coordinate(points[..k], i), points[k][i]);
      }
      var p := points[k];
      sums := [sums[0] + p[0], sums[1] + p[1], sums[2] + p[2], sums[3] + p[3]];
    }
    assert points[..|points|] == points;
    var n := |points| as real;
    c := [sums[0] / n, sums[1] / n, sums[2] / n, sums[3] / n];
  }

  function Mean(points: seq<Point>): Point
    requires points != []
  {
    var n := |points| as real;
    [Sum(Coordinate(points, 0)) / n, Sum(Coordinate(points, 1)) / n,
     Sum(Coordinate(points, 2)) / n, Sum(Coordinate(points, 3)) / n]
  }

  function Coordinate(points: seq<Point>, i: nat): seq<real>
    requires i < 4
  {
    seq(|points|, k requires 0 <= k < |points| => points[k][i])
  }

  function Distance(sqrt: real -> real, a: Point, b: Point): real {
    sqrt(SquaredLength(Minus(a, b)))
  }

  /** `simplex_diameter`: the largest distance of two vertices, 0 if there are none. */
  method Diameter(simplex: seq<Point>, sqrt: real -> real) returns (d: real)
    ensures d >= 0.0
    ensures forall i, j :: 0 <= i < j < |simplex| ==> Distance(sqrt, simplex[i], simplex[j]) <= d
    ensures d == 0.0 || exists i, j :: 0 <= i < j < |simplex| && Distance(sqrt, simplex[i], simplex[j]) == d
  {
    hide Distance;
    d := 0.0;
    for i := 0 to |simplex|
      invariant d >= 0.0
      invariant forall a, b :: 0 <= a < i && a < b < |simplex| ==> Distance(sqrt, simplex[a], simplex[b]) <= d
      invariant d == 0.0 || exists a, b :: 0 <= a < b < |simplex| && Distance(sqrt, simplex[a], simplex[b]) == d
    {
      for j := i + 1 to |simplex|
        invariant d >= 0.0
        invariant forall a, b :: 0 <= a < i && a < b < |simplex| ==> Distance(sqrt, simplex[a], simplex[b]) <= d
        invariant forall b :: i < b < j ==> Distance(sqrt, simplex[i], simplex[b]) <= d
        invariant d == 0.0 || exists a, b :: 0 <= a < b < |simplex| && Distance(sqrt, simplex[a], simplex[b]) == d
      {
        var l := Distance(sqrt, simplex[i], simplex[j]);
        if l > d {
          d := l;
        }
      }
    }
  }

  /** All distances between vertices are below the tolerance, which must be positive. */
  predicate Small(simplex: seq<Point>, tol: real, sqrt: real -> real) {
    0.0 < tol && forall i, j :: 0 <= i < j < |simplex| ==> Distance(sqrt, simplex[i], simplex[j]) < tol
  }

  method IsSmall(simplex: seq<Point>, tol: real, sqrt: real -> real) returns (small: bool)
    ensures small == Small(simplex, tol, sqrt)
  {
    var size := Diameter(simplex, sqrt);
    small := size < tol;
  }

  // ---------- Sorting the vertices ----------

  /** Strictly before in the stable order by value. */
  predicate Before(vals: seq<real>, a: nat, b: nat)
    requires a < |vals| && b < |vals|
  {
    vals[a] < vals[b] || (vals[a] == vals[b] && a < b)
  }

  /** The stable order by value of the indices below |vals|, each occurring once. */
  predicate SortedIndices(vals: seq<real>, idx: seq<nat>) {
    && (forall i :: 0 <= i < |idx| ==> idx[i] < |vals|)
    && forall i, j :: 0 <= i < j < |idx| ==> Before(vals, idx[i], idx[j])
  }

  /** `idx.sort_by(partial_cmp)`: a stable sort. */
  method SortIndices(vals: seq<real>) returns (idx: seq<nat>)
    ensures |idx| == |vals| && SortedIndices(vals, idx)
    ensures forall i, j :: 0 <= i < j < |idx| ==>
      vals[idx[i]] < vals[idx[j]] || (vals[idx[i]] == vals[idx[j]] && idx[i] < idx[j])
    ensures forall k :: 0 <= k < |vals| ==> k in idx
  {
    idx := [];
    for k := 0 to |vals|
      invariant |idx| == k && SortedIndices(vals, idx)
      invariant forall i :: 0 <= i < |idx| ==> idx[i] < k
      invariant forall m :: 0 <= m < k ==> m in idx
    {
      var p := k;
      while p > 0 && vals[idx[p - 1]] > vals[k]
        invariant 0 <= p <= k
        invariant forall i :: p <= i < k ==> vals[idx[i]] > vals[k]
      {
        p := p - 1;
      }
      InsertSorted(vals, idx, k, p);
      InsertedElements(idx, k, p);
      idx := idx[..p] + [k] + idx[p..];
    }
  }

  lemma InsertSorted(vals: seq<real>, idx: seq<nat>, k: nat, p: nat)
    requires |idx| == k < |vals| && SortedIndices(vals, idx) && p <= k
    requires forall i :: 0 <= i < |idx| ==> idx[i] < k
    requires forall i :: p <= i < k ==> vals[idx[i]] > vals[k]
    requires p > 0 ==> vals[idx[p - 1]] <= vals[k]
    ensures SortedIndices(vals, idx[..p] + [k] + idx[p..])
  {
    var out := idx[..p] + [k] + idx[p..];
    forall i | 0 <= i < p ensures Before(vals, idx[i], k) {
      if i < p - 1 {
        assert Before(vals, idx[i], idx[p - 1]);
      }
    }
    hide Before;
    forall i | 0 <= i < |out| ensures out[i] < |vals| {
      assert out[i] == if i < p then idx[i] else if i == p then k else idx[i - 1];
    }
    forall i, j | 0 <= i < j < |out| ensures Before(vals, out[i], out[j]) {
      InsertedPair(vals, idx, k, p, i, j);
    }
  }

  lemma InsertedElements(idx: seq<nat>, k: nat, p: nat)
    requires p <= |idx| && forall i :: 0 <= i < |idx| ==> idx[i] < k
    ensures forall m: nat :: m in idx || m == k ==> m in idx[..p] + [k] + idx[p..]
    ensures forall i :: 0 <= i <= |idx| ==> (idx[..p] + [k] + idx[p..])[i] <= k
  {
    assert idx == idx[..p] + idx[p..];
  }

  lemma InsertedPair(vals: seq<real>, idx: seq<nat>, k: nat, p: nat, i: nat, j: nat)
    requires |idx| == k < |vals| && SortedIndices(vals, idx) && p <= k && i < j <= k
    requires forall m :: p <= m < k ==> vals[idx[m]] > vals[k]
    requires forall m :: 0 <= m < p ==> Before(vals, idx[m], k)
    ensures var out := idx[..p] + [k] + idx[p..];
            out[i] < |vals| && out[j] < |vals| && Before(vals, out[i], out[j])
  {
    var out := idx[..p] + [k] + idx[p..];
    assert out[i] == if i < p then idx[i] else if i == p then k else idx[i - 1];
    assert out[j] == if j < p then idx[j] else if j == p then k else idx[j - 1];
  }

  // ---------- The state of a search ----------

  /** Every vertex has been evaluated, lies in the bounds (or is the start) and has its true value. */
  ghost predicate Vertices(f: Point -> real, x0: Point, bounds: Bounds, simplex: seq<Point>, vals: seq<real>,
                           trace: seq<Point>)
  {
    && |simplex| == |vals| == 5
    && forall i :: 0 <= i < 5 ==>
         vals[i] == f(simplex[i]) && simplex[i] in trace && (Settled(simplex[i], bounds) || simplex[i] == x0)
  }

  /** Some vertex is at least as good as p. */
  ghost predicate Matched(f: Point -> real, vals: seq<real>, p: Point) {
    exists k :: 0 <= k < |vals| && vals[k] <= f(p)
  }

  /** No point evaluated so far is better than the best vertex. */
  ghost predicate NothingBetter(f: Point -> real, vals: seq<real>, trace: seq<Point>) {
    forall i :: 0 <= i < |trace| ==> Matched(f, vals, trace[i])
  }

  /** The search so far: its vertices, and the best of everything evaluated among them. */
  ghost predicate Searching(f: Point -> real, x0: Point, bounds: Bounds, simplex: seq<Point>, vals: seq<real>,
                            trace: seq<Point>)
  {
    Vertices(f, x0, bounds, simplex, vals, trace) && NothingBetter(f, vals, trace)
  }

  predicate Ascending(vals: seq<real>) {
    forall i, j :: 0 <= i < j < |vals| ==> vals[i] <= vals[j]
  }

  lemma RearrangedNothingBetter(f: Point -> real, vals: seq<real>, trace: seq<Point>, idx: seq<nat>, vals': seq<real>)
    requires NothingBetter(f, vals, trace) && |vals'| == |idx|
    requires forall j :: 0 <= j < |idx| ==> idx[j] < |vals| && vals'[j] == vals[idx[j]]
    requires forall k :: 0 <= k < |vals| ==> k in idx
    ensures NothingBetter(f, vals', trace)
  {
    forall i | 0 <= i < |trace| ensures Matched(f, vals', trace[i]) {
      assert Matched(f, vals, trace[i]);
      var k :| 0 <= k < |vals| && vals[k] <= f(trace[i]);
      assert k in idx;
      var j :| 0 <= j < |idx| && idx[j] == k;
      assert vals'[j] <= f(trace[i]);
    }
  }

  lemma SortedAscending(vals: seq<real>, idx: seq<nat>)
    requires SortedIndices(vals, idx)
    ensures forall i :: 0 <= i < |idx| ==> idx[i] < |vals|
    ensures forall i, j :: 0 <= i < j < |idx| ==> vals[idx[i]] <= vals[idx[j]]
  {
    forall i, j | 0 <= i < j < |idx| ensures vals[idx[i]] <= vals[idx[j]] {
      assert Before(vals, idx[i], idx[j]);
    }
  }

  function Values(f: Point -> real, simplex: seq<Point>): seq<real> {
    seq(|simplex|, i requires 0 <= i < |simplex| => f(simplex[i]))
  }

  /** The same five vertices in stable order by value. */
  ghost predicate Sorted(f: Point -> real, simplex: Simplex, simplex': Simplex) {
    exists idx: seq<nat> ::
      && |idx| == 5 && SortedIndices(Values(f, simplex), idx)
      && forall i :: 0 <= i < 5 ==> simplex'[i] == simplex[idx[i]]
  }

  method SortVertices(f: Point -> real, x0: Point, bounds: Bounds, simplex: seq<Point>, vals: seq<real>,
                      ghost trace: seq<Point>)
    returns (simplex': Simplex, vals': seq<real>)
    requires Searching(f, x0, bounds, simplex, vals, trace)
    ensures Searching(f, x0, bounds, simplex', vals', trace) && Ascending(vals')
    ensures |simplex| == 5 && Sorted(f, simplex, simplex')
  {
    hide Matched, NothingBetter, SortedIndices, Before, Settled;
    assert vals == Values(f, simplex);
    var idx := SortIndices(vals);
    SortedAscending(vals, idx);
    simplex' := seq(5, i requires 0 <= i < 5 => simplex[idx[i]]);
    vals' := seq(5, i requires 0 <= i < 5 => vals[idx[i]]);
    RearrangedNothingBetter(f, vals, trace, idx, vals');
  }

  /** Replacing the worst vertex by a point just evaluated; another point evaluated in the same step
      may be dropped if it is no better than one that stays. */
  lemma ReplaceWorst(f: Point -> real, x0: Point, bounds: Bounds, simplex: seq<Point>, vals: seq<real>,
                     trace: seq<Point>,
                     kept: Point, more: seq<Point>)
    requires Searching(f, x0, bounds, simplex, vals, trace) && Ascending(vals)
    requires Settled(kept, bounds) && kept in more
    requires forall p :: p in more ==> f(kept) <= f(p) || vals[0] <= f(p)
    ensures Searching(f, x0, bounds, simplex[4 := kept], vals[4 := f(kept)], trace + more)
  {
    var vals' := vals[4 := f(kept)];
    forall i | 0 <= i < |trace + more| ensures Matched(f, vals', (trace + more)[i]) {
      var p := (trace + more)[i];
      if i < |trace| {
        var k :| 0 <= k < |vals| && vals[k] <= f(trace[i]);
        assert vals'[0] <= vals[k];
      } else {
        assert p == more[i - |trace|] && p in more;
        assert vals'[4] <= f(p) || vals'[0] <= f(p);
      }
    }
  }

  // ---------- The candidates of one pass ----------

  function Reflected(simplex: seq<Point>, bounds: Bounds): Point
    requires |simplex| == 5
  {
    var m := Mean(simplex[..4]);
    Clamped(Towards(m, m, simplex[4], 1.0), bounds)
  }

  function Expanded(simplex: seq<Point>, bounds: Bounds): Point
    requires |simplex| == 5
  {
    var m := Mean(simplex[..4]);
    Clamped(Towards(m, Reflected(simplex, bounds), m, 2.0), bounds)
  }

  function Contracted(simplex: seq<Point>, bounds: Bounds, inside: bool): Point
    requires |simplex| == 5
  {
    var m := Mean(simplex[..4]);
    Clamped(if inside then Towards(m, simplex[4], m, -0.5) else Towards(m, Reflected(simplex, bounds), m, 0.5), bounds)
  }

  function HalfWay(best: Point, p: Point, bounds: Bounds): Point {
    Clamped(Towards(best, p, best, 0.5), bounds)
  }

  /** One coordinate of the two contractions, from the centroid c and the worst vertex w. */
  function InsideAt(c: real, w: real, r: Range): real {
    ClampedTo(c + (w - c) * -0.5, r)
  }

  function OutsideAt(c: real, w: real, r: Range): real {
    ClampedTo(c + (ClampedTo(c + (c - w), r) - c) * 0.5, r)
  }

  /** When the two contractions agree in one coordinate: no bound has cut off the reflection, or the
      centroid is already at or beyond the bound that did, or it is so far beyond the other bound that
      neither contraction gets back inside, or the range holds no more than one value. */
  predicate Agree(c: real, w: real, r: Range) {
    var u := c + (c - w);
    || r.low >= r.high
    || r.low <= u <= r.high
    || (u > r.high && (c >= r.high || (c < r.low && c + u <= 2.0 * r.low)))
    || (u < r.low && (c <= r.low || (c > r.high && c + u >= 2.0 * r.high)))
  }

  lemma AgreeIff(c: real, w: real, r: Range)
    ensures InsideAt(c, w, r) == OutsideAt(c, w, r) <==> Agree(c, w, r)
    ensures r.low <= c <= r.high ==>
      (Agree(c, w, r) <==> r.low <= c + (c - w) <= r.high || c == ClampedTo(c + (c - w), r))
    ensures r.low <= c <= r.high ==> (w < c ==> InsideAt(c, w, r) >= c) && (w > c ==> InsideAt(c, w, r) <= c)
  {
  }

  lemma ContractedAt(simplex: seq<Point>, bounds: Bounds, i: nat)
    requires |simplex| == 5 && i < 4
    ensures var c := Mean(simplex[..4])[i];
            && Contracted(simplex, bounds, true)[i] == InsideAt(c, simplex[4][i], bounds[i])
            && Contracted(simplex, bounds, false)[i] == OutsideAt(c, simplex[4][i], bounds[i])
  {
    hide Mean, ClampedTo;
    var m, w := Mean(simplex[..4]), simplex[4];
    assert Towards(m, w, m, -0.5)[i] == m[i] + (w[i] - m[i]) * -0.5;
    var xr := Reflected(simplex, bounds);
    assert xr[i] == ClampedTo(m[i] + (m[i] - w[i]), bounds[i]);
    assert Towards(m, xr, m, 0.5)[i] == m[i] + (xr[i] - m[i]) * 0.5;
  }

  /** The contraction that the code calls inside tries the same point as the outside contraction
      exactly if they agree in every coordinate. */
  lemma InsideIsOutsideIff(simplex: seq<Point>, bounds: Bounds)
    requires |simplex| == 5
    ensures Contracted(simplex, bounds, true) == Contracted(simplex, bounds, false) <==>
      forall i :: 0 <= i < 4 ==> Agree(Mean(simplex[..4])[i], simplex[4][i], bounds[i])
  {
    hide Mean, Contracted, Agree, InsideAt, OutsideAt;
    var inside, outside := Contracted(simplex, bounds, true), Contracted(simplex, bounds, false);
    forall i | 0 <= i < 4
      ensures inside[i] == outside[i] <==> Agree(Mean(simplex[..4])[i], simplex[4][i], bounds[i])
    {
      ContractedAt(simplex, bounds, i);
      AgreeIff(Mean(simplex[..4])[i], simplex[4][i], bounds[i]);
    }
    assert inside == outside <==> forall i :: 0 <= i < 4 ==> inside[i] == outside[i];
  }

  /** With the centroid in the bounds, the condition is that in every coordinate the reflection is not
      cut off, or only back to the centroid itself; and in no case does the inside contraction move
      from the centroid towards the worst vertex. */
  lemma InsideContraction(simplex: seq<Point>, bounds: Bounds)
    requires |simplex| == 5 && InBounds(Mean(simplex[..4]), bounds)
    ensures var c, w := Mean(simplex[..4]), simplex[4];
            var u := Towards(c, c, w, 1.0);
            && (Contracted(simplex, bounds, true) == Contracted(simplex, bounds, false) <==>
                 forall i :: 0 <= i < 4 ==> bounds[i].low <= u[i] <= bounds[i].high || c[i] == Clamped(u, bounds)[i])
            && forall i :: 0 <= i < 4 ==>
                 var x := Contracted(simplex, bounds, true)[i];
                 (w[i] < c[i] ==> x >= c[i]) && (w[i] > c[i] ==> x <= c[i])
  {
    hide Mean, Contracted, Agree, InsideAt, OutsideAt;
    var c, w := Mean(simplex[..4]), simplex[4];
    var u := Towards(c, c, w, 1.0);
    InsideIsOutsideIff(simplex, bounds);
    forall i | 0 <= i < 4
      ensures Agree(c[i], w[i], bounds[i]) <==> bounds[i].low <= u[i] <= bounds[i].high || c[i] == Clamped(u, bounds)[i]
      ensures var x := Contracted(simplex, bounds, true)[i];
              (w[i] < c[i] ==> x >= c[i]) && (w[i] > c[i] ==> x <= c[i])
    {
      AgreeIff(c[i], w[i], bounds[i]);
      ContractedAt(simplex, bounds, i);
      assert u[i] == c[i] + (c[i] - w[i]) && Clamped(u, bounds)[i] == ClampedTo(u[i], bounds[i]);
    }
  }

  lemma {:induction false} MeanInRange(points: seq<Point>, i: nat, r: Range)
    requires i < 4 && forall k :: 0 <= k < |points| ==> r.low <= points[k][i] <= r.high
    ensures r.low * |points| as real <= Sum(Coordinate(points, i)) <= r.high * |points| as real
    decreases points
  {
    if points != [] {
      var n := |points| - 1;
      MeanInRange(points[..n], i, r);
      assert Coordinate(points, i) == Coordinate(points[..n], i) + [points[n][i]];
      SumAppend(Coordinate(points[..n], i), points[n][i]);
    }
  }

  /** The centroid is in the bounds as soon as the vertices are. */
  lemma CentroidInBounds(points: seq<Point>, bounds: Bounds)
    requires points != [] && forall k :: 0 <= k < |points| ==> InBounds(points[k], bounds)
    ensures InBounds(Mean(points), bounds)
  {
    hide Sum, Coordinate, Mean;
    forall i | 0 <= i < 4 ensures bounds[i].low <= Mean(points)[i] <= bounds[i].high {
      MeanInRange(points, i, bounds[i]);
      Divided(bounds[i].low, Sum(Coordinate(points, i)), bounds[i].high, |points| as real);
      MeanAt(points, i);
    }
  }

  lemma MeanAt(points: seq<Point>, i: nat)
    requires points != [] && i < 4
    ensures Mean(points)[i] == Sum(Coordinate(points, i)) / |points| as real
  {
  }

  lemma Divided(low: real, sum: real, high: real, n: real)
    requires n > 0.0 && low * n <= sum <= high * n
    ensures low <= sum / n <= high
  {
    assert sum == (sum / n) * n;
  }

  /** Cut off by a bound, the two contractions can differ. */
  lemma CutOffContractionsDiffer()
    ensures var bounds := [Range(-10.0, 1.0), Range(-1.0, 1.0), Range(-1.0, 1.0), Range(-1.0, 1.0)];
            var simplex: Simplex := [ORIGIN, ORIGIN, ORIGIN, ORIGIN, [-10.0, 0.0, 0.0, 0.0]];
            && Contracted(simplex, bounds, true)[0] == 1.0 && Contracted(simplex, bounds, false)[0] == 0.5
  {
    var bounds := [Range(-10.0, 1.0), Range(-1.0, 1.0), Range(-1.0, 1.0), Range(-1.0, 1.0)];
    var simplex: Simplex := [ORIGIN, ORIGIN, ORIGIN, ORIGIN, [-10.0, 0.0, 0.0, 0.0]];
    assert Coordinate(simplex[..4], 0) == Zeros(4);
    SumZeros(4);
    ContractedAt(simplex, bounds, 0);
  }

  method Reflect(simplex: seq<Point>, bounds: Bounds) returns (xr: Point)
    requires |simplex| == 5
    ensures xr == Reflected(simplex, bounds) && Settled(xr, bounds)
  {
    hide Mean, Towards, Clamped;
    var centroid := Centroid(simplex[..4]);
    xr := Clamp(Towards(centroid, centroid, simplex[4], 1.0), bounds);
  }

  method Expand(simplex: seq<Point>, bounds: Bounds, xr: Point) returns (xe: Point)
    requires |simplex| == 5 && xr == Reflected(simplex, bounds)
    ensures xe == Expanded(simplex, bounds) && Settled(xe, bounds)
  {
    hide Mean, Towards, Clamped, Reflected;
    var centroid := Centroid(simplex[..4]);
    xe := Clamp(Towards(centroid, xr, centroid, 2.0), bounds);
  }

  method Contraction(simplex: seq<Point>, bounds: Bounds, xr: Point, inside: bool) returns (xc: Point)
    requires |simplex| == 5 && xr == Reflected(simplex, bounds)
    ensures xc == Contracted(simplex, bounds, inside) && Settled(xc, bounds)
  {
    hide Mean, Towards, Clamped, Reflected;
    var centroid := Centroid(simplex[..4]);
    var toward :=
      if inside then Towards(centroid, simplex[4], centroid, -0.5) else Towards(centroid, xr, centroid, 0.5);
    xc := Clamp(toward, bounds);
  }

  /** All vertices but the first moved half way towards the first. */
  function Shrunk(simplex: seq<Point>, bounds: Bounds): seq<Point>
    requires |simplex| == 5
  {
    [simplex[0]] + seq(4, i requires 0 <= i < 4 => HalfWay(simplex[0], simplex[i + 1], bounds))
  }

  datatype Pass = Pass(simplex: Simplex, evaluated: seq<Point>)

  /** The vertices after one pass over sorted vertices, and the points the pass evaluates. */
  function NextPass(f: Point -> real, bounds: Bounds, simplex: seq<Point>, vals: seq<real>): (next: Pass)
    requires |simplex| == |vals| == 5
    ensures 1 <= |next.evaluated| <= 6
  {
    var xr := Reflected(simplex, bounds);
    if f(xr) < vals[0] then
      var xe := Expanded(simplex, bounds);
      Pass(simplex[4 := if f(xe) < f(xr) then xe else xr], [xr, xe])
    else if f(xr) < vals[3] then
      Pass(simplex[4 := xr], [xr])
    else
      var xc := Contracted(simplex, bounds, f(xr) >= vals[4]);
      if f(xc) < vals[4] then Pass(simplex[4 := xc], [xr, xc])
      else Pass(Shrunk(simplex, bounds), [xr, xc] + Shrunk(simplex, bounds)[1..])
  }

  /** Reflection, expansion, contraction or shrinking: one pass of the loop after sorting. */
  method Improve(f: Point -> real, x0: Point, bounds: Bounds, simplex: seq<Point>, vals: seq<real>,
                 ghost trace: seq<Point>)
    returns (simplex': Simplex, vals': seq<real>, ghost trace': seq<Point>)
    requires Searching(f, x0, bounds, simplex, vals, trace) && Ascending(vals)
    ensures Searching(f, x0, bounds, simplex', vals', trace')
    ensures simplex' == NextPass(f, bounds, simplex, vals).simplex && vals' == Values(f, simplex')
    ensures trace' == trace + NextPass(f, bounds, simplex, vals).evaluated
  {
    hide Searching, Mean, Reflected, Expanded, Contracted, Shrunk, Settled, InBounds, Clamped;
    VertexCount(f, x0, bounds, simplex, vals, trace);
    var xr := Reflect(simplex, bounds);
    var fr := f(xr);
    if fr < vals[0] {
      var xe := Expand(simplex, bounds, xr);
      var kept := if f(xe) < fr then xe else xr;
      trace' := trace + [xr, xe];
      ReplaceWorst(f, x0, bounds, simplex, vals, trace, kept, [xr, xe]);
      simplex', vals' := simplex[4 := kept], vals[4 := f(kept)];
    } else if fr < vals[3] {
      trace' := trace + [xr];
      ReplaceWorst(f, x0, bounds, simplex, vals, trace, xr, [xr]);
      simplex', vals' := simplex[4 := xr], vals[4 := fr];
    } else {
      var xc := Contraction(simplex, bounds, xr, fr >= vals[4]);
      var fc := f(xc);
      if fc < vals[4] {
        trace' := trace + [xr, xc];
        ReplaceWorst(f, x0, bounds, simplex, vals, trace, xc, [xr, xc]);
        simplex', vals' := simplex[4 := xc], vals[4 := fc];
      } else {
        Dropped(f, x0, bounds, simplex, vals, trace, [xr, xc]);
        simplex', vals', trace' := Shrink(f, x0, bounds, simplex, vals, trace + [xr, xc]);
      }
    }
    VertexCount(f, x0, bounds, simplex', vals', trace');
  }

  // ---------- Where the points of a pass lie ----------

  /** y is x as far as the range admits it: the bound that x is beyond, and the second end of a range
      given the wrong way round. */
  predicate Admitted(y: real, x: real, r: Range) {
    if r.low <= r.high then r.low <= y <= r.high && (y == x || (x < r.low && y == r.low) || (x > r.high && y == r.high))
    else y == r.high
  }

  lemma ClampAdmits(x: Point, bounds: Bounds, i: nat)
    requires i < 4
    ensures Admitted(Clamped(x, bounds)[i], x[i], bounds[i])
  {
  }

  /** The mean of the four best vertices in one coordinate. */
  function Middle(simplex: seq<Point>, i: nat): real
    requires |simplex| == 5 && i < 4
  {
    (simplex[0][i] + simplex[1][i] + simplex[2][i] + simplex[3][i]) / 4.0
  }

  lemma MiddleIsMean(simplex: seq<Point>, i: nat)
    requires |simplex| == 5 && i < 4
    ensures Mean(simplex[..4])[i] == Middle(simplex, i)
  {
    var c := Coordinate(simplex[..4], i);
    assert c == [simplex[0][i], simplex[1][i], simplex[2][i], simplex[3][i]];
    FourTerms(simplex[0][i], simplex[1][i], simplex[2][i], simplex[3][i]);
  }

  lemma FourTerms(a: real, b: real, c: real, d: real)
    ensures Sum([a, b, c, d]) == a + b + c + d
  {
    assert [a, b, c, d] == [] + [a] + [b] + [c] + [d];
    SumAppend([], a);
    SumAppend([] + [a], b);
    SumAppend([] + [a] + [b], c);
    SumAppend([] + [a] + [b] + [c], d);
  }

  /** The point c + s * (a - b) in one coordinate. */
  lemma TowardsAt(c: Point, a: Point, b: Point, s: real, i: nat)
    requires i < 4
    ensures Towards(c, a, b, s)[i] == c[i] + (a[i] - b[i]) * s
  {
  }

  /** One coordinate of the candidates: the centroid lies half way from the worst vertex to the
      reflection, the reflection half way from the centroid to the expansion, the outside contraction
      half way from the centroid to the reflection and the inside one half as far beyond the centroid as
      the worst vertex is before it; a bound in between stops each of them. */
  lemma CandidatesAt(simplex: seq<Point>, bounds: Bounds, i: nat)
    requires |simplex| == 5 && i < 4
    ensures var c, w, xr := Middle(simplex, i), simplex[4][i], Reflected(simplex, bounds)[i];
            && Admitted(xr, 2.0 * c - w, bounds[i])
            && Admitted(Expanded(simplex, bounds)[i], 2.0 * xr - c, bounds[i])
            && Admitted(Contracted(simplex, bounds, false)[i], (c + xr) / 2.0, bounds[i])
            && Admitted(Contracted(simplex, bounds, true)[i], c + (c - w) / 2.0, bounds[i])
  {
    hide Mean, Towards, Clamped, Admitted;
    var m, w, xr := Mean(simplex[..4]), simplex[4], Reflected(simplex, bounds);
    MiddleIsMean(simplex, i);
    TowardsAt(m, m, w, 1.0, i);
    ClampAdmits(Towards(m, m, w, 1.0), bounds, i);
    assert xr == Clamped(Towards(m, m, w, 1.0), bounds);
    assert Towards(m, m, w, 1.0)[i] == 2.0 * Middle(simplex, i) - w[i];
    TowardsAt(m, xr, m, 2.0, i);
    ClampAdmits(Towards(m, xr, m, 2.0), bounds, i);
    assert Towards(m, xr, m, 2.0)[i] == 2.0 * xr[i] - Middle(simplex, i);
    TowardsAt(m, xr, m, 0.5, i);
    ClampAdmits(Towards(m, xr, m, 0.5), bounds, i);
    assert Towards(m, xr, m, 0.5)[i] == (Middle(simplex, i) + xr[i]) / 2.0;
    TowardsAt(m, w, m, -0.5, i);
    ClampAdmits(Towards(m, w, m, -0.5), bounds, i);
    assert Towards(m, w, m, -0.5)[i] == Middle(simplex, i) + (Middle(simplex, i) - w[i]) / 2.0;
  }

  /** The points a pass evaluates, in one coordinate: first the reflection; then the expansion if that is a new
      best, nothing if it beats the second worst vertex, and otherwise a contraction, outside if it
      beats the worst vertex and inside if not. */
  lemma EvaluatedAt(f: Point -> real, bounds: Bounds, simplex: seq<Point>, vals: seq<real>, i: nat)
    requires |simplex| == |vals| == 5 && i < 4
    ensures var c, w, tried := Middle(simplex, i), simplex[4][i], NextPass(f, bounds, simplex, vals).evaluated;
            var fr := f(tried[0]);
            && Admitted(tried[0][i], 2.0 * c - w, bounds[i])
            && (fr < vals[0] ==> |tried| == 2 && Admitted(tried[1][i], 2.0 * tried[0][i] - c, bounds[i]))
            && (vals[0] <= fr < vals[3] ==> |tried| == 1)
            && (vals[0] <= fr && vals[3] <= fr ==>
                 && |tried| >= 2
                 && Admitted(tried[1][i], if fr < vals[4] then (c + tried[0][i]) / 2.0 else c + (c - w) / 2.0,
                             bounds[i])
                 && |tried| == if f(tried[1]) < vals[4] then 2 else 6)
  {
    hide Reflected, Expanded, Contracted, HalfWay, Middle, Admitted;
    CandidatesAt(simplex, bounds, i);
  }

  /** What a pass keeps: the four best vertices and, in place of the worst one, the better of reflection and
      expansion, the reflection, or the contraction; or, if even the contraction is no better than the
      worst vertex, the best vertex and all others moved half way towards it. */
  lemma KeptAt(f: Point -> real, bounds: Bounds, simplex: seq<Point>, vals: seq<real>, i: nat)
    requires |simplex| == |vals| == 5 && i < 4
    ensures var pass := NextPass(f, bounds, simplex, vals);
            var tried, fr := pass.evaluated, f(pass.evaluated[0]);
            if fr < vals[0] then
              pass.simplex == simplex[4 := if f(tried[1]) < fr then tried[1] else tried[0]]
            else if fr < vals[3] then pass.simplex == simplex[4 := tried[0]]
            else if f(tried[1]) < vals[4] then pass.simplex == simplex[4 := tried[1]]
            else
              && pass.simplex[0] == simplex[0] && tried[2..] == pass.simplex[1..]
              && forall k :: 1 <= k < 5 ==>
                   Admitted(pass.simplex[k][i], (simplex[0][i] + simplex[k][i]) / 2.0, bounds[i])
  {
    hide Reflected, Expanded, Contracted, HalfWay, Admitted;
    forall k | 1 <= k < 5
      ensures Admitted(Shrunk(simplex, bounds)[k][i], (simplex[0][i] + simplex[k][i]) / 2.0, bounds[i])
    {
      assert Shrunk(simplex, bounds)[k] == HalfWay(simplex[0], simplex[k - 1 + 1], bounds);
      HalfWayAt(simplex[0], simplex[k], bounds, i);
    }
    var tried := NextPass(f, bounds, simplex, vals).evaluated;
    assert |tried| == 6 ==> tried[2..] == Shrunk(simplex, bounds)[1..];
  }

  lemma HalfWayAt(best: Point, p: Point, bounds: Bounds, i: nat)
    requires i < 4
    ensures Admitted(HalfWay(best, p, bounds)[i], (best[i] + p[i]) / 2.0, bounds[i])
  {
    hide Towards, Clamped, Admitted;
    TowardsAt(best, p, best, 0.5, i);
    ClampAdmits(Towards(best, p, best, 0.5), bounds, i);
    assert best[i] + (p[i] - best[i]) * 0.5 == (best[i] + p[i]) / 2.0;
    assert Towards(best, p, best, 0.5)[i] == (best[i] + p[i]) / 2.0;
  }

  /** The start itself, as given, and one vertex for each coordinate, a step away from it in that
      coordinate and nowhere else, as far as the bounds admit. */
  lemma StartAt(x0: Point, bounds: Bounds, i: nat)
    requires i < 4
    ensures var start := StartVertices(x0, bounds);
            && start[0] == x0
            && forall k :: 1 <= k < 5 ==>
                 Admitted(start[k][i], if k == i + 1 then x0[i] + [0.02, 0.2, 0.05, 0.01][i] else x0[i], bounds[i])
  {
    hide Clamped, Admitted;
    forall k | 1 <= k < 5
      ensures Admitted(StartVertices(x0, bounds)[k][i],
                       if k == i + 1 then x0[i] + [0.02, 0.2, 0.05, 0.01][i] else x0[i], bounds[i])
    {
      ClampAdmits(x0[k - 1 := x0[k - 1] + STEPS[k - 1]], bounds, i);
    }
  }

  ghost predicate IsRoot(sqrt: real -> real) {
    forall x: real :: x >= 0.0 ==> sqrt(x) >= 0.0 && sqrt(x) * sqrt(x) == x
  }

  lemma RootIs(sqrt: real -> real, x: real)
    requires IsRoot(sqrt) && x >= 0.0
    ensures sqrt(x) >= 0.0 && sqrt(x) * sqrt(x) == x && (sqrt(x) == 0.0 <==> x == 0.0)
  {
    SquareSign(sqrt(x));
  }

  /** The distance of two points is the root of the sum of the four squared differences ... */
  lemma DistanceSquared(sqrt: real -> real, a: Point, b: Point)
    requires IsRoot(sqrt)
    ensures Distance(sqrt, a, b) * Distance(sqrt, a, b)
         == (a[0] - b[0]) * (a[0] - b[0]) + (a[1] - b[1]) * (a[1] - b[1])
            + (a[2] - b[2]) * (a[2] - b[2]) + (a[3] - b[3]) * (a[3] - b[3])
  {
    LengthSign(Minus(a, b));
    hide IsRoot;
    RootIs(sqrt, SquaredLength(Minus(a, b)));
  }

  /** ... the same in both directions, and zero exactly for equal points. */
  lemma DistanceIs(sqrt: real -> real, a: Point, b: Point)
    requires IsRoot(sqrt)
    ensures var d := Distance(sqrt, a, b);
            d >= 0.0 && d == Distance(sqrt, b, a) && (d == 0.0 <==> a == b)
  {
    hide SquaredLength, Minus, IsRoot;
    var d, e := Minus(a, b), Minus(b, a);
    MinusAt(a, b);
    MinusAt(b, a);
    LengthSign(d);
    SameLength(d, e);
    SamePoint(a, b);
    RootIs(sqrt, SquaredLength(d));
  }

  /** The search ends when no two vertices are as far apart as the tolerance. */
  lemma SmallIff(simplex: seq<Point>, tol: real, sqrt: real -> real)
    requires IsRoot(sqrt) && tol > 0.0
    ensures Small(simplex, tol, sqrt) <==>
      forall i, j :: 0 <= i < j < |simplex| ==> SquaredLength(Minus(simplex[i], simplex[j])) < tol * tol
  {
    hide SquaredLength, Minus, IsRoot, Distance;
    forall i, j | 0 <= i < j < |simplex|
      ensures Distance(sqrt, simplex[i], simplex[j]) < tol
        <==> SquaredLength(Minus(simplex[i], simplex[j])) < tol * tol
    {
      NearIff(sqrt, simplex[i], simplex[j], tol);
    }
  }

  lemma NearIff(sqrt: real -> real, a: Point, b: Point, tol: real)
    requires IsRoot(sqrt) && tol > 0.0
    ensures Distance(sqrt, a, b) < tol <==> SquaredLength(Minus(a, b)) < tol * tol
  {
    hide SquaredLength, Minus, IsRoot;
    LengthSign(Minus(a, b));
    RootIs(sqrt, SquaredLength(Minus(a, b)));
    SquareOrder(sqrt(SquaredLength(Minus(a, b))), tol);
  }

  lemma SquareOrder(x: real, y: real)
    requires x >= 0.0 && y > 0.0
    ensures x < y <==> x * x < y * y
  {
    assert y * y - x * x == (y - x) * (y + x);
    SignOfProduct(y - x, y + x);
  }

  lemma SignOfProduct(x: real, y: real)
    requires y > 0.0
    ensures x > 0.0 <==> x * y > 0.0
  {
    if x > 0.0 {
      assert x * y > 0.0;
    } else {
      assert x * y <= 0.0;
    }
  }

  lemma MinusAt(a: Point, b: Point)
    ensures forall i :: 0 <= i < 4 ==> Minus(a, b)[i] == a[i] - b[i]
  {
  }

  lemma SamePoint(a: Point, b: Point)
    ensures a == b <==> forall i :: 0 <= i < 4 ==> Minus(a, b)[i] == 0.0
  {
    MinusAt(a, b);
    hide Minus;
    assert a == b <==> forall i :: 0 <= i < 4 ==> a[i] == b[i];
  }

  lemma LengthSign(d: Point)
    ensures SquaredLength(d) >= 0.0 && (SquaredLength(d) == 0.0 <==> forall i :: 0 <= i < 4 ==> d[i] == 0.0)
  {
    SquareSign(d[0]);
    SquareSign(d[1]);
    SquareSign(d[2]);
    SquareSign(d[3]);
  }

  lemma SameLength(d: Point, e: Point)
    requires forall i :: 0 <= i < 4 ==> e[i] == -d[i]
    ensures SquaredLength(d) == SquaredLength(e)
  {
    NegativeSquare(d[0]);
    NegativeSquare(d[1]);
    NegativeSquare(d[2]);
    NegativeSquare(d[3]);
  }

  lemma SquareSign(x: real)
    ensures x * x >= 0.0 && (x * x == 0.0 <==> x == 0.0)
  {
    if x != 0.0 {
      assert x * x / x == x;
    }
  }

  lemma NegativeSquare(x: real)
    ensures -x * -x == x * x
  {
    assert (x + -x) * -x == x * -x + -x * -x;
    assert x * (x + -x) == x * x + x * -x;
  }

  // ---------- A whole run ----------

  /** The start and one step away from it in every coordinate. */
  function StartVertices(x0: Point, bounds: Bounds): Simplex {
    [x0] + seq(4, i requires 0 <= i < 4 => Clamped(x0[i := x0[i] + STEPS[i]], bounds))
  }

  /** The vertices before sorting, after the passes made from the sorted vertices in `rounds`. */
  function VerticesAfter(f: Point -> real, x0: Point, bounds: Bounds, rounds: seq<Simplex>): Simplex {
    if rounds == [] then StartVertices(x0, bounds)
    else
      var r := rounds[|rounds| - 1];
      NextPass(f, bounds, r, Values(f, r)).simplex
  }

  /** Everything evaluated up to then, in order. */
  function EvaluatedBy(f: Point -> real, x0: Point, bounds: Bounds, rounds: seq<Simplex>): seq<Point> {
    if rounds == [] then StartVertices(x0, bounds)
    else
      var r := rounds[|rounds| - 1];
      EvaluatedBy(f, x0, bounds, rounds[..|rounds| - 1]) + NextPass(f, bounds, r, Values(f, r)).evaluated
  }

  /** Each round sorts what the passes before it have left. */
  ghost predicate Rounds(f: Point -> real, x0: Point, bounds: Bounds, rounds: seq<Simplex>) {
    forall i :: 0 <= i < |rounds| ==> Sorted(f, VerticesAfter(f, x0, bounds, rounds[..i]), rounds[i])
  }

  /** The rounds of a run and the points they evaluate. */
  ghost predicate History(f: Point -> real, x0: Point, bounds: Bounds, rounds: seq<Simplex>, trace: seq<Point>) {
    Rounds(f, x0, bounds, rounds) && trace == EvaluatedBy(f, x0, bounds, rounds)
  }

  predicate NoneSmall(rounds: seq<Simplex>, tol: real, sqrt: real -> real) {
    forall i :: 0 <= i < |rounds| ==> !Small(rounds[i], tol, sqrt)
  }

  /** Sorted, these vertices end the search. */
  ghost predicate Converged(f: Point -> real, simplex: Simplex, tol: real, sqrt: real -> real) {
    exists r: Simplex :: Sorted(f, simplex, r) && Small(r, tol, sqrt)
  }

  /** There is such an order. */
  lemma {:induction false} SortedExists(vals: seq<real>, n: nat) returns (idx: seq<nat>)
    requires n <= |vals|
    ensures |idx| == n && SortedIndices(vals, idx)
    ensures forall i :: 0 <= i < n ==> idx[i] < n
    ensures forall k :: 0 <= k < n ==> k in idx
    decreases n
  {
    if n == 0 {
      idx := [];
    } else {
      var k := n - 1;
      var rest := SortedExists(vals, k);
      var p := PlaceFor(vals, rest, k, k);
      InsertSorted(vals, rest, k, p);
      InsertedElements(rest, k, p);
      idx := rest[..p] + [k] + rest[p..];
    }
  }

  lemma {:induction false} PlaceFor(vals: seq<real>, idx: seq<nat>, k: nat, from: nat) returns (p: nat)
    requires |idx| == k < |vals| && from <= k && forall i :: 0 <= i < k ==> idx[i] < k
    requires forall i :: from <= i < k ==> vals[idx[i]] > vals[k]
    ensures p <= k && (forall i :: p <= i < k ==> vals[idx[i]] > vals[k])
    ensures p > 0 ==> vals[idx[p - 1]] <= vals[k]
    decreases from
  {
    if from > 0 && vals[idx[from - 1]] > vals[k] {
      p := PlaceFor(vals, idx, k, from - 1);
    } else {
      p := from;
    }
  }

  lemma SameDistance(sqrt: real -> real, a: Point, b: Point)
    ensures Distance(sqrt, a, b) == Distance(sqrt, b, a)
  {
    hide SquaredLength, Minus;
    MinusAt(a, b);
    MinusAt(b, a);
    SameLength(Minus(a, b), Minus(b, a));
  }

  /** The order of the vertices does not matter for the size of a simplex. */
  lemma SmallRearranged(simplex: Simplex, other: Simplex, idx: seq<nat>, tol: real, sqrt: real -> real)
    requires |idx| == 5 && forall i :: 0 <= i < 5 ==> idx[i] < 5 && other[i] == simplex[idx[i]]
    requires forall i, j :: 0 <= i < j < 5 ==> idx[i] != idx[j]
    requires Small(simplex, tol, sqrt)
    ensures Small(other, tol, sqrt)
  {
    hide Distance;
    forall i, j | 0 <= i < j < 5 ensures Distance(sqrt, other[i], other[j]) < tol {
      SameDistance(sqrt, simplex[idx[i]], simplex[idx[j]]);
    }
  }

  lemma SmallIfSorted(f: Point -> real, simplex: Simplex, r: Simplex, tol: real, sqrt: real -> real)
    requires Sorted(f, simplex, r) && Small(r, tol, sqrt)
    ensures Small(simplex, tol, sqrt)
  {
    hide Small, Before, Values;
    var vals := Values(f, simplex);
    ValueCount(f, simplex);
    var idx: seq<nat> :| |idx| == 5 && SortedIndices(vals, idx) && forall i :: 0 <= i < 5 ==> r[i] == simplex[idx[i]];
    SortedDistinct(vals, idx);
    var back := Inverse(idx);
    SmallRearranged(r, simplex, back, tol, sqrt);
  }

  lemma ValueCount(f: Point -> real, simplex: Simplex)
    ensures |Values(f, simplex)| == 5
  {
  }

  lemma SmallSorted(f: Point -> real, simplex: Simplex, tol: real, sqrt: real -> real) returns (r: Simplex)
    requires Small(simplex, tol, sqrt)
    ensures Sorted(f, simplex, r) && Small(r, tol, sqrt)
  {
    hide Small, SortedIndices, Values;
    var vals := Values(f, simplex);
    ValueCount(f, simplex);
    var idx := SortedExists(vals, 5);
    SortedDistinct(vals, idx);
    r := [simplex[idx[0]], simplex[idx[1]], simplex[idx[2]], simplex[idx[3]], simplex[idx[4]]];
    SmallRearranged(simplex, r, idx, tol, sqrt);
  }

  /** The search ends on a simplex exactly if that simplex is small. */
  lemma ConvergedIff(f: Point -> real, simplex: Simplex, tol: real, sqrt: real -> real)
    ensures Converged(f, simplex, tol, sqrt) <==> Small(simplex, tol, sqrt)
  {
    hide Small, Sorted;
    if Converged(f, simplex, tol, sqrt) {
      var r: Simplex :| Sorted(f, simplex, r) && Small(r, tol, sqrt);
      SmallIfSorted(f, simplex, r, tol, sqrt);
    }
    if Small(simplex, tol, sqrt) {
      var r := SmallSorted(f, simplex, tol, sqrt);
    }
  }

  lemma SortedDistinct(vals: seq<real>, idx: seq<nat>)
    requires SortedIndices(vals, idx)
    ensures forall i :: 0 <= i < |idx| ==> idx[i] < |vals|
    ensures forall i, j :: 0 <= i < j < |idx| ==> idx[i] != idx[j]
  {
    forall i, j | 0 <= i < j < |idx| ensures idx[i] != idx[j] {
      assert Before(vals, idx[i], idx[j]);
    }
  }

  /** Five distinct indices below five can be undone. */
  lemma Inverse(idx: seq<nat>) returns (back: seq<nat>)
    requires |idx| == 5 && (forall i :: 0 <= i < 5 ==> idx[i] < 5)
    requires forall i, j :: 0 <= i < j < 5 ==> idx[i] != idx[j]
    ensures |back| == 5 && forall k :: 0 <= k < 5 ==> back[k] < 5 && idx[back[k]] == k
    ensures forall i, j :: 0 <= i < j < 5 ==> back[i] != back[j]
  {
    back := [];
    for k := 0 to 5
      invariant |back| == k && forall i :: 0 <= i < k ==> back[i] < 5 && idx[back[i]] == i
    {
      var i := PlaceOf(idx, k);
      back := back + [i];
    }
  }

  lemma PlaceOf(idx: seq<nat>, k: nat) returns (i: nat)
    requires |idx| == 5 && k < 5 && (forall i :: 0 <= i < 5 ==> idx[i] < 5)
    requires forall i, j :: 0 <= i < j < 5 ==> idx[i] != idx[j]
    ensures i < 5 && idx[i] == k
  {
    assert idx[0] != idx[1] && idx[0] != idx[2] && idx[0] != idx[3] && idx[0] != idx[4];
    assert idx[1] != idx[2] && idx[1] != idx[3] && idx[1] != idx[4];
    assert idx[2] != idx[3] && idx[2] != idx[4] && idx[3] != idx[4];
    i := if idx[0] == k then 0 else if idx[1] == k then 1 else if idx[2] == k then 2 else if idx[3] == k then 3 else 4;
  }

  lemma RoundsAppend(f: Point -> real, x0: Point, bounds: Bounds, rounds: seq<Simplex>, simplex: Simplex,
                     trace: seq<Point>,
                     r: Simplex, next: Pass)
    requires History(f, x0, bounds, rounds, trace) && simplex == VerticesAfter(f, x0, bounds, rounds)
      && Sorted(f, simplex, r)
    requires next == NextPass(f, bounds, r, Values(f, r))
    ensures History(f, x0, bounds, rounds + [r], trace + next.evaluated)
    ensures VerticesAfter(f, x0, bounds, rounds + [r]) == next.simplex
  {
    hide Sorted, NextPass, StartVertices;
    var more := rounds + [r];
    assert more[..|rounds|] == rounds;
    forall i | 0 <= i < |more| ensures Sorted(f, VerticesAfter(f, x0, bounds, more[..i]), more[i]) {
      assert i < |rounds| ==> more[..i] == rounds[..i];
    }
  }

  lemma {:induction false} EvaluatedCount(f: Point -> real, x0: Point, bounds: Bounds, rounds: seq<Simplex>)
    ensures var trace := EvaluatedBy(f, x0, bounds, rounds);
            x0 in trace && 5 + |rounds| <= |trace| <= 5 + 6 * |rounds|
  {
    if rounds == [] {
      assert x0 == StartVertices(x0, bounds)[0];
    } else {
      hide NextPass;
      EvaluatedCount(f, x0, bounds, rounds[..|rounds| - 1]);
    }
  }

  lemma VertexCount(f: Point -> real, x0: Point, bounds: Bounds, simplex: seq<Point>, vals: seq<real>,
                    trace: seq<Point>)
    requires Searching(f, x0, bounds, simplex, vals, trace)
    ensures |simplex| == |vals| == 5 && vals == Values(f, simplex)
  {
  }

  /** Points that are no better than the best vertex can be dropped. */
  lemma Dropped(f: Point -> real, x0: Point, bounds: Bounds, simplex: seq<Point>, vals: seq<real>, trace: seq<Point>,
                more: seq<Point>)
    requires Searching(f, x0, bounds, simplex, vals, trace)
    requires forall p :: p in more ==> vals[0] <= f(p)
    ensures Searching(f, x0, bounds, simplex, vals, trace + more)
  {
    var all := trace + more;
    forall i | 0 <= i < |all| ensures Matched(f, vals, all[i]) {
      if i < |trace| {
        var k :| 0 <= k < |vals| && vals[k] <= f(trace[i]);
        assert vals[k] <= f(all[i]);
      } else {
        assert all[i] == more[i - |trace|] && vals[0] <= f(all[i]);
      }
    }
    assert NothingBetter(f, vals, all);
  }

  /** Pull every vertex but the best towards the best. */
  method Shrink(f: Point -> real, x0: Point, bounds: Bounds, simplex: seq<Point>, vals: seq<real>,
                ghost trace: seq<Point>)
    returns (simplex': Simplex, vals': seq<real>, ghost trace': seq<Point>)
    requires Searching(f, x0, bounds, simplex, vals, trace) && Ascending(vals)
    ensures Searching(f, x0, bounds, simplex', vals', trace')
    ensures |simplex| == 5 && simplex' == Shrunk(simplex, bounds) && trace' == trace + simplex'[1..]
  {
    hide Towards, Clamped, Settled, InBounds, NothingBetter;
    var best := simplex[0];
    simplex', vals', trace' := simplex, vals, trace;
    for i := 1 to 5
      invariant Vertices(f, x0, bounds, simplex', vals', trace')
      invariant simplex'[0] == best && trace' == trace + simplex'[1..i]
      invariant forall k :: 1 <= k < i ==> simplex'[k] == HalfWay(best, simplex[k], bounds)
      invariant forall k :: i <= k < 5 ==> simplex'[k] == simplex[k]
    {
      var x := Clamp(Towards(best, simplex'[i], best, 0.5), bounds);
      assert simplex'[i := x][1..i + 1] == simplex'[1..i] + [x];
      simplex' := simplex'[i := x];
      vals' := vals'[i := f(x)];
      trace' := trace' + [x];
    }
    ShrunkBetter(f, x0, bounds, simplex, vals, trace, simplex', vals');
  }

  lemma ShrunkBetter(f: Point -> real, x0: Point, bounds: Bounds, simplex: seq<Point>, vals: seq<real>,
                     trace: seq<Point>,
                     simplex': seq<Point>, vals': seq<real>)
    requires Searching(f, x0, bounds, simplex, vals, trace) && Ascending(vals)
    requires |simplex'| == |vals'| == 5 && simplex'[0] == simplex[0]
    requires forall i :: 0 <= i < 5 ==> vals'[i] == f(simplex'[i])
    ensures NothingBetter(f, vals', trace + simplex'[1..5])
  {
    var trace' := trace + simplex'[1..5];
    forall j | 0 <= j < |trace'| ensures Matched(f, vals', trace'[j]) {
      if j < |trace| {
        var k :| 0 <= k < |vals| && vals[k] <= f(trace[j]);
        assert vals[0] <= vals[k];
        assert vals'[0] <= f(trace'[j]);
      } else {
        assert trace'[j] == simplex'[j - |trace| + 1];
        assert vals'[j - |trace| + 1] <= f(trace'[j]);
      }
    }
  }

  // ---------- The optimiser ----------

  const STEPS := [0.02, 0.2, 0.05, 0.01]

  /** The initial simplex and its values. */
  method Start(f: Point -> real, x0: Point, bounds: Bounds)
    returns (simplex: Simplex, vals: seq<real>, ghost trace: seq<Point>)
    ensures Searching(f, x0, bounds, simplex, vals, trace)
    ensures simplex == StartVertices(x0, bounds) && vals == Values(f, simplex)
    ensures trace == simplex
  {
    hide Clamped, Settled, InBounds;
    simplex := [x0, x0, x0, x0, x0];
    for i := 0 to 4
      invariant |simplex| == 5 && simplex[0] == x0
      invariant forall k :: 1 <= k <= i ==> simplex[k] == StartVertices(x0, bounds)[k]
      invariant forall k :: 0 <= k < 5 ==> Settled(simplex[k], bounds) || simplex[k] == x0
    {
      var xi := Clamp(x0[i := x0[i] + STEPS[i]], bounds);
      simplex := simplex[i + 1 := xi];
      assert StartVertices(x0, bounds)[i + 1] == xi;
    }
    assert simplex == StartVertices(x0, bounds);
    vals := Values(f, simplex);
    trace := simplex;
    AllEvaluated(f, x0, bounds, simplex);
  }

  lemma AllEvaluated(f: Point -> real, x0: Point, bounds: Bounds, simplex: Simplex)
    requires forall k :: 0 <= k < 5 ==> Settled(simplex[k], bounds) || simplex[k] == x0
    ensures Searching(f, x0, bounds, simplex, Values(f, simplex), simplex)
  {
    hide Settled;
    forall i | 0 <= i < |simplex| ensures Matched(f, Values(f, simplex), simplex[i]) {
      assert Values(f, simplex)[i] <= f(simplex[i]);
    }
  }

  lemma AscendingBest(f: Point -> real, x0: Point, bounds: Bounds, simplex: seq<Point>, vals: seq<real>,
                      trace: seq<Point>, p: Point)
    requires Searching(f, x0, bounds, simplex, vals, trace) && Ascending(vals) && p in trace
    ensures vals[0] <= f(p)
  {
    var i :| 0 <= i < |trace| && trace[i] == p;
    var k :| 0 <= k < |vals| && vals[k] <= f(trace[i]);
    assert vals[0] <= vals[k];
  }

  /** `nelder_mead_4d`, with the points it evaluates and the sorted vertices of every round.  For any
      objective and any start: the result is one of the points evaluated, its reported value is its
      objective, no point evaluated in the whole run is better, and at most 5 + 6 * maxIter points are
      evaluated.  The result lies in the bounds unless it is the start itself.  The rounds are those
      of the algorithm, and they end only when the simplex is small or the budget is used up. */
  method NelderMead4d(x0: Point, f: Point -> real, bounds: Bounds, maxIter: nat, tol: real, sqrt: real -> real)
    returns (best: Point, value: real, ghost trace: seq<Point>, ghost rounds: seq<Simplex>)
    ensures value == f(best) && best in trace && x0 in trace
    ensures forall p :: p in trace ==> value <= f(p)
    ensures Settled(best, bounds) || best == x0
    ensures Ordered(bounds) ==> InBounds(best, bounds) || best == x0
    ensures |trace| <= 5 + 6 * maxIter
    ensures Rounds(f, x0, bounds, rounds) && trace == EvaluatedBy(f, x0, bounds, rounds)
    ensures |rounds| <= maxIter
    ensures |rounds| < maxIter ==> Converged(f, VerticesAfter(f, x0, bounds, rounds), tol, sqrt)
    ensures NoneSmall(rounds, tol, sqrt)
  {
    hide Searching, History, Settled, InBounds, Ordered, Sorted, Small, VerticesAfter, EvaluatedBy, StartVertices,
         Rounds, Converged;
    var simplex, vals;
    simplex, vals, trace := Start(f, x0, bounds);
    rounds := [];
    RunStarts(f, x0, bounds, trace);
    var small := false;
    var iter := 0;
    while iter < maxIter && !small
      invariant Searching(f, x0, bounds, simplex, vals, trace)
      invariant |rounds| <= iter <= maxIter && History(f, x0, bounds, rounds, trace)
      invariant !small ==> |rounds| == iter && simplex == VerticesAfter(f, x0, bounds, rounds)
      invariant small ==> Converged(f, VerticesAfter(f, x0, bounds, rounds), tol, sqrt)
      invariant NoneSmall(rounds, tol, sqrt)
    {
      small, simplex, vals, trace, rounds := Round(f, x0, bounds, tol, sqrt, simplex, vals, trace, rounds);
      iter := iter + 1;
    }
    best, value := Best(f, x0, bounds, simplex, vals, trace);
    SettledIff(best, bounds);
    HistoryFacts(f, x0, bounds, rounds, trace);
  }

  /** One turn of the loop: sort, stop if the simplex is small, else make a pass. */
  method Round(f: Point -> real, x0: Point, bounds: Bounds, tol: real, sqrt: real -> real,
               simplex: Simplex, vals: seq<real>, ghost trace: seq<Point>, ghost rounds: seq<Simplex>)
    returns (small: bool, simplex': Simplex, vals': seq<real>, ghost trace': seq<Point>, ghost rounds': seq<Simplex>)
    requires Searching(f, x0, bounds, simplex, vals, trace)
    requires History(f, x0, bounds, rounds, trace) && simplex == VerticesAfter(f, x0, bounds, rounds)
    ensures Searching(f, x0, bounds, simplex', vals', trace') && History(f, x0, bounds, rounds', trace')
    ensures small ==> trace' == trace && rounds' == rounds && Converged(f, simplex, tol, sqrt)
    ensures !small ==>
      && simplex' == VerticesAfter(f, x0, bounds, rounds') && |rounds'| == |rounds| + 1
      && (NoneSmall(rounds, tol, sqrt) ==> NoneSmall(rounds', tol, sqrt))
  {
    hide Searching, History, NextPass, Sorted, Small, VerticesAfter, Values;
    simplex', vals' := SortVertices(f, x0, bounds, simplex, vals, trace);
    VertexCount(f, x0, bounds, simplex', vals', trace);
    small := IsSmall(simplex', tol, sqrt);
    trace', rounds' := trace, rounds;
    if !small {
      RoundsAppend(f, x0, bounds, rounds, simplex, trace, simplex', NextPass(f, bounds, simplex', vals'));
      rounds' := rounds + [simplex'];
      simplex', vals', trace' := Improve(f, x0, bounds, simplex', vals', trace);
    }
  }

  lemma RunStarts(f: Point -> real, x0: Point, bounds: Bounds, simplex: Simplex)
    requires simplex == StartVertices(x0, bounds)
    ensures History(f, x0, bounds, [], simplex) && simplex == VerticesAfter(f, x0, bounds, [])
  {
  }

  lemma HistoryFacts(f: Point -> real, x0: Point, bounds: Bounds, rounds: seq<Simplex>, trace: seq<Point>)
    requires History(f, x0, bounds, rounds, trace)
    ensures Rounds(f, x0, bounds, rounds) && trace == EvaluatedBy(f, x0, bounds, rounds)
    ensures x0 in trace && |trace| <= 5 + 6 * |rounds|
  {
    EvaluatedCount(f, x0, bounds, rounds);
  }

  /** The end of a run: the first vertex in stable order by value. */
  method Best(f: Point -> real, x0: Point, bounds: Bounds, simplex: seq<Point>, vals: seq<real>,
              ghost trace: seq<Point>)
    returns (best: Point, value: real)
    requires Searching(f, x0, bounds, simplex, vals, trace)
    ensures value == f(best) && best in trace && (Settled(best, bounds) || best == x0)
    ensures forall p :: p in trace ==> value <= f(p)
  {
    hide Searching, Settled, Sorted;
    var sorted, ordered := SortVertices(f, x0, bounds, simplex, vals, trace);
    BestVertex(f, x0, bounds, sorted, ordered, trace);
    best, value := sorted[0], ordered[0];
    forall p | p in trace ensures value <= f(p) {
      AscendingBest(f, x0, bounds, sorted, ordered, trace, p);
    }
  }

  lemma BestVertex(f: Point -> real, x0: Point, bounds: Bounds, simplex: seq<Point>, vals: seq<real>, trace: seq<Point>)
    requires Searching(f, x0, bounds, simplex, vals, trace)
    ensures |simplex| == |vals| == 5 && vals[0] == f(simplex[0]) && simplex[0] in trace
    ensures Settled(simplex[0], bounds) || simplex[0] == x0
  {
  }
}
