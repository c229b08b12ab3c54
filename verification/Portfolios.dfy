/** Portfolios of results: `PortfolioType`, `PV01Results`, `PricingResults` and `PmPortfolio`
    of rt_server/src/portfolio.rs, and `change_metrics` of rt_server/src/utils.rs.

    A hash map is a finite map.  Every loop over a hash map takes its keys in an arbitrary order,
    so what is proved here holds for every iteration order. */
module Portfolios {

  datatype Metric = PV | PV01 | PnL

  type TradeId = string

  /** `PortfolioType`: result id (a trade, or a market factor for PV01) to value. */
  type Portfolio = map<string, real>

  /** The content of a `PmPortfolio`: one portfolio for each metric. */
  type MetricMap = map<Metric, Portfolio>

  datatype PricingResults =
    | PVResult(pv: Portfolio)
    | PV01Result(pv01: map<TradeId, Portfolio>)
    | PnLResult(pnl: Portfolio)

  // ---------- The monoid of portfolios ----------

  function At(p: Portfolio, k: string): real {
    if k in p then p[k] else 0.0
  }

  /** Key by key addition. */
  function Add(p: Portfolio, q: Portfolio): Portfolio {
    map k | k in p.Keys + q.Keys :: At(p, k) + At(q, k)
  }

  lemma AddCommutes(p: Portfolio, q: Portfolio)
    ensures Add(p, q) == Add(q, p)
  {
    assert p.Keys + q.Keys == q.Keys + p.Keys;
  }

  lemma AddAssociates(p: Portfolio, q: Portfolio, r: Portfolio)
    ensures Add(Add(p, q), r) == Add(p, Add(q, r))
  {
    assert Add(p, q).Keys + r.Keys == p.Keys + Add(q, r).Keys;
  }

  lemma AddEmpty(p: Portfolio)
    ensures Add(p, map[]) == p && Add(map[], p) == p
  {
    assert Add(p, map[]).Keys == p.Keys == Add(map[], p).Keys;
  }

  /** Adding q changes nothing exactly if p already holds the keys of q, and q is zero on them. */
  lemma AddNothingIff(p: Portfolio, q: Portfolio)
    ensures Add(p, q) == p <==> q.Keys <= p.Keys && forall k :: k in q ==> q[k] == 0.0
  {
    if Add(p, q) == p {
      forall k | k in q ensures k in p && q[k] == 0.0 {
        assert Add(p, q)[k] == At(p, k) + At(q, k);
      }
    }
  }

  /** (a + b) + (c + d) == (a + c) + (b + d) */
  lemma AddInterchange(a: Portfolio, b: Portfolio, c: Portfolio, d: Portfolio)
    ensures Add(Add(a, b), Add(c, d)) == Add(Add(a, c), Add(b, d))
  {
    AddAssociates(a, b, Add(c, d));
    AddAssociates(b, c, d);
    AddCommutes(b, c);
    AddAssociates(c, b, d);
    AddAssociates(a, c, Add(b, d));
  }

  /** p added to itself n times. */
  function Times(n: nat, p: Portfolio): Portfolio {
    if n == 0 then map[] else Add(Times(n - 1, p), p)
  }

  lemma TimesOne(p: Portfolio)
    ensures Times(1, p) == p
  {
    AddEmpty(p);
    assert Times(1, p) == Add(Times(0, p), p);
  }

  lemma {:induction false} TimesEmpty(n: nat)
    ensures Times(n, map[]) == map[]
  {
    if n > 0 {
      TimesEmpty(n - 1);
      AddEmpty(map[]);
    }
  }

  lemma {:induction false} TimesAdd(n: nat, p: Portfolio, q: Portfolio)
    ensures Times(n, Add(p, q)) == Add(Times(n, p), Times(n, q))
  {
    if n == 0 {
      AddEmpty(map[]);
    } else {
      TimesAdd(n - 1, p, q);
      AddInterchange(Times(n - 1, p), Times(n - 1, q), p, q);
    }
  }

  // ---------- Sums over sets of ids ----------

  ghost function Pick(ids: set<TradeId>): (id: TradeId)
    requires ids != {}
    ensures id in ids
  {
    var id :| id in ids;
    id
  }

  /** The sum of f over ids. */
  ghost function SumOver(f: TradeId -> Portfolio, ids: set<TradeId>): Portfolio {
    if ids == {} then map[]
    else Add(f(Pick(ids)), SumOver(f, ids - {Pick(ids)}))
  }

  /** Any element can be taken out first: the sum does not depend on an order. */
  lemma {:induction false} SumPick(f: TradeId -> Portfolio, ids: set<TradeId>, id: TradeId)
    requires id in ids
    ensures SumOver(f, ids) == Add(f(id), SumOver(f, ids - {id}))
    decreases ids
  {
    var j := Pick(ids);
    if j != id {
      var rest := ids - {j} - {id};
      assert ids - {id} - {j} == rest;
      SumPick(f, ids - {j}, id);
      SumPick(f, ids - {id}, j);
      AddAssociates(f(j), f(id), SumOver(f, rest));
      AddCommutes(f(j), f(id));
      AddAssociates(f(id), f(j), SumOver(f, rest));
    }
  }

  lemma {:induction false} SumInsert(f: TradeId -> Portfolio, ids: set<TradeId>, id: TradeId)
    requires id !in ids
    ensures SumOver(f, ids + {id}) == Add(SumOver(f, ids), f(id))
  {
    assert ids + {id} - {id} == ids;
    SumPick(f, ids + {id}, id);
    AddCommutes(SumOver(f, ids), f(id));
  }

  lemma {:induction false} SumUnion(f: TradeId -> Portfolio, a: set<TradeId>, b: set<TradeId>)
    requires a !! b
    ensures SumOver(f, a + b) == Add(SumOver(f, a), SumOver(f, b))
    decreases b
  {
    if b == {} {
      assert a + b == a;
      AddEmpty(SumOver(f, a));
    } else {
      var id := Pick(b);
      var rest := b - {id};
      assert a + b == a + rest + {id};
      assert b == rest + {id};
      SumUnion(f, a, rest);
      SumInsert(f, a + rest, id);
      SumInsert(f, rest, id);
      AddAssociates(SumOver(f, a), SumOver(f, rest), f(id));
    }
  }

  lemma {:induction false} SumAgree(f: TradeId -> Portfolio, g: TradeId -> Portfolio, ids: set<TradeId>)
    requires forall id :: id in ids ==> f(id) == g(id)
    ensures SumOver(f, ids) == SumOver(g, ids)
    decreases ids
  {
    if ids != {} {
      SumAgree(f, g, ids - {Pick(ids)});
    }
  }

  lemma {:induction false} SumOfEmpties(f: TradeId -> Portfolio, ids: set<TradeId>)
    requires forall id :: id in ids ==> f(id) == map[]
    ensures SumOver(f, ids) == map[]
    decreases ids
  {
    if ids != {} {
      SumOfEmpties(f, ids - {Pick(ids)});
      AddEmpty(map[]);
    }
  }

  /** A sum holds exactly the keys its terms hold. */
  lemma {:induction false} SumKeys(f: TradeId -> Portfolio, ids: set<TradeId>, k: string)
    ensures k in SumOver(f, ids) <==> exists id :: id in ids && k in f(id)
    decreases ids
  {
    if ids != {} {
      var j := Pick(ids);
      SumKeys(f, ids - {j}, k);
      if id :| id in ids && k in f(id) {
        assert id == j || id in ids - {j};
      }
    }
  }

  // ---------- In-place operations on one portfolio ----------

  /** `PortfolioType += PortfolioType`. */
  method AddAssign(self: Portfolio, other: Portfolio) returns (sum: Portfolio)
    ensures sum == Add(self, other)
  {
    sum := self;
    var rest := other.Keys;
    while rest != {}
      invariant rest <= other.Keys
      invariant sum.Keys == self.Keys + (other.Keys - rest)
      invariant forall k :: k in sum ==> sum[k] == if k in rest then At(self, k) else At(self, k) + At(other, k)
      decreases rest
    {
      var id :| id in rest;
      if id in sum {
        sum := sum[id := sum[id] + other[id]];
      } else {
        sum := sum[id := other[id]];
      }
      rest := rest - {id};
    }
  }

  function Row(pv01: map<TradeId, Portfolio>): TradeId -> Portfolio {
    id => if id in pv01 then pv01[id] else map[]
  }

  /** What a pricing result adds to a portfolio: for PV01 the sum over its trades. */
  ghost function Aggregate(r: PricingResults): Portfolio {
    match r
    case PVResult(pv) => pv
    case PV01Result(pv01) => SumOver(Row(pv01), pv01.Keys)
    case PnLResult(pnl) => pnl
  }

  /** `PV01Results::aggregate`, started from `self` so that it also serves `+=`. */
  method AddRows(self: Portfolio, pv01: map<TradeId, Portfolio>) returns (sum: Portfolio)
    ensures sum == Add(self, SumOver(Row(pv01), pv01.Keys))
  {
    sum := self;
    var rest := pv01.Keys;
    AddEmpty(self);
    while rest != {}
      invariant rest <= pv01.Keys
      invariant sum == Add(self, SumOver(Row(pv01), pv01.Keys - rest))
      decreases rest
    {
      var id :| id in rest;
      ghost var done := pv01.Keys - rest;
      SumInsert(Row(pv01), done, id);
      AddAssociates(self, SumOver(Row(pv01), done), pv01[id]);
      sum := AddAssign(sum, pv01[id]);
      rest := rest - {id};
      assert pv01.Keys - rest == done + {id};
    }
    assert pv01.Keys - rest == pv01.Keys;
  }

  /** `PricingResults::aggregate`. */
  method AggregateResults(r: PricingResults) returns (p: Portfolio)
    ensures p == Aggregate(r)
  {
    match r
    case PVResult(pv) => p := pv;
    case PV01Result(pv01) =>
      AddEmpty(SumOver(Row(pv01), pv01.Keys));
      p := AddRows(map[], pv01);
    case PnLResult(pnl) => p := pnl;
  }

  /** `PortfolioType += PricingResults`: row by row, it adds what `aggregate` would have given.
      The PnL variant is unimplemented in the source and no pricer returns it. */
  method AddAssignResults(self: Portfolio, r: PricingResults) returns (sum: Portfolio)
    requires !r.PnLResult?
    ensures sum == Add(self, Aggregate(r))
  {
    match r
    case PVResult(pv) => sum := AddAssign(self, pv);
    case PV01Result(pv01) => sum := AddRows(self, pv01);
  }

  // ---------- Portfolios by metric ----------

  /** A metric that is absent counts as an empty portfolio. */
  function PmAt(pm: MetricMap, m: Metric): Portfolio {
    if m in pm then pm[m] else map[]
  }

  function AddPm(a: MetricMap, b: MetricMap): MetricMap {
    map m | m in a.Keys + b.Keys :: Add(PmAt(a, m), PmAt(b, m))
  }

  lemma PmAtAdd(a: MetricMap, b: MetricMap, m: Metric)
    ensures PmAt(AddPm(a, b), m) == Add(PmAt(a, m), PmAt(b, m))
  {
    if m !in a && m !in b {
      AddEmpty(map[]);
    }
  }

  function MetricSet(metrics: seq<Metric>): set<Metric> {
    set m | m in metrics
  }

  /** `assign_metric`, called once for each entry of a metric list. */
  function AddMetrics(pm: MetricMap, metrics: seq<Metric>, delta: MetricMap): MetricMap {
    if metrics == [] then pm
    else
      var init, m := metrics[..|metrics| - 1], metrics[|metrics| - 1];
      var before := AddMetrics(pm, init, delta);
      before[m := Add(PmAt(before, m), PmAt(delta, m))]
  }

  lemma AddMetricsAppend(pm: MetricMap, metrics: seq<Metric>, m: Metric, delta: MetricMap)
    ensures AddMetrics(pm, metrics + [m], delta)
         == AddMetrics(pm, metrics, delta)[m := Add(PmAt(AddMetrics(pm, metrics, delta), m), PmAt(delta, m))]
  {
    assert (metrics + [m])[..|metrics|] == metrics;
  }

  lemma AddMetricsAt(pm: MetricMap, init: seq<Metric>, m: Metric, delta: MetricMap, k: Metric)
    ensures k in AddMetrics(pm, init + [m], delta) <==> k in AddMetrics(pm, init, delta) || k == m
    ensures PmAt(AddMetrics(pm, init + [m], delta), k)
         == if k == m then Add(PmAt(AddMetrics(pm, init, delta), k), PmAt(delta, k))
           else PmAt(AddMetrics(pm, init, delta), k)
    ensures multiset(init + [m])[k] == multiset(init)[k] + if k == m then 1 else 0
  {
    hide AddMetrics, Add;
    AddMetricsAppend(pm, init, m, delta);
  }

  /** The closed form: every metric receives its delta as often as it is listed. */
  lemma {:induction false} AddMetricsValue(pm: MetricMap, metrics: seq<Metric>, delta: MetricMap, k: Metric)
    ensures k in AddMetrics(pm, metrics, delta) <==> k in pm || k in metrics
    ensures PmAt(AddMetrics(pm, metrics, delta), k) == Add(PmAt(pm, k), Times(multiset(metrics)[k], PmAt(delta, k)))
    decreases metrics
  {
    if metrics == [] {
      AddEmpty(PmAt(pm, k));
    } else {
      hide AddMetrics, Add, PmAt;
      var init, m := metrics[..|metrics| - 1], metrics[|metrics| - 1];
      assert metrics == init + [m];
      AddMetricsValue(pm, init, delta, k);
      AddMetricsAt(pm, init, m, delta, k);
      AddAssociates(PmAt(pm, k), Times(multiset(init)[k], PmAt(delta, k)), PmAt(delta, k));
    }
  }

  lemma AddMetricsKeys(pm: MetricMap, metrics: seq<Metric>, delta: MetricMap)
    ensures AddMetrics(pm, metrics, delta).Keys == pm.Keys + MetricSet(metrics)
  {
    forall k ensures k in AddMetrics(pm, metrics, delta) <==> k in pm || k in metrics {
      AddMetricsValue(pm, metrics, delta, k);
    }
  }

  lemma SameContent(a: MetricMap, b: MetricMap)
    requires a.Keys == b.Keys
    requires forall k :: PmAt(a, k) == PmAt(b, k)
    ensures a == b
  {
    forall k | k in a ensures a[k] == b[k] {
      assert PmAt(a, k) == PmAt(b, k);
    }
  }

  /** Adding two portfolios one after the other over a metric list is adding their sum once. */
  lemma AddMetricsTwice(pm: MetricMap, metrics: seq<Metric>, d: MetricMap, e: MetricMap)
    ensures AddMetrics(AddMetrics(pm, metrics, d), metrics, e) == AddMetrics(pm, metrics, AddPm(d, e))
  {
    var one := AddMetrics(pm, metrics, d);
    forall m ensures PmAt(AddMetrics(one, metrics, e), m) == PmAt(AddMetrics(pm, metrics, AddPm(d, e)), m) {
      var n := multiset(metrics)[m];
      AddMetricsValue(pm, metrics, d, m);
      AddMetricsValue(one, metrics, e, m);
      AddMetricsValue(pm, metrics, AddPm(d, e), m);
      PmAtAdd(d, e, m);
      TimesAdd(n, PmAt(d, m), PmAt(e, m));
      AddAssociates(PmAt(pm, m), Times(n, PmAt(d, m)), Times(n, PmAt(e, m)));
    }
    AddMetricsKeys(pm, metrics, d);
    AddMetricsKeys(one, metrics, e);
    AddMetricsKeys(pm, metrics, AddPm(d, e));
    SameContent(AddMetrics(one, metrics, e), AddMetrics(pm, metrics, AddPm(d, e)));
  }

  predicate Distinct(metrics: seq<Metric>) {
    forall i, j :: 0 <= i < j < |metrics| ==> metrics[i] != metrics[j]
  }

  lemma {:induction false} DistinctCounts(metrics: seq<Metric>, m: Metric)
    requires Distinct(metrics)
    ensures multiset(metrics)[m] == if m in metrics then 1 else 0
    decreases metrics
  {
    if metrics != [] {
      var init, last := metrics[..|metrics| - 1], metrics[|metrics| - 1];
      assert metrics == init + [last];
      DistinctCounts(init, m);
    }
  }

  /** For a list without repetitions, each listed metric gets its delta once. */
  lemma AddMetricsDistinct(pm: MetricMap, metrics: seq<Metric>, delta: MetricMap, m: Metric)
    requires Distinct(metrics)
    ensures PmAt(AddMetrics(pm, metrics, delta), m)
         == if m in metrics then Add(PmAt(pm, m), PmAt(delta, m)) else PmAt(pm, m)
  {
    DistinctCounts(metrics, m);
    AddMetricsValue(pm, metrics, delta, m);
    TimesOne(PmAt(delta, m));
    AddEmpty(PmAt(pm, m));
  }

  /** The content after `assign`: every metric of the other portfolio replaces the own one. */
  function AssignPm(a: MetricMap, b: MetricMap): MetricMap {
    map m | m in a.Keys + b.Keys :: if m in b then b[m] else a[m]
  }

  function KeepMetrics(a: MetricMap, metrics: seq<Metric>): MetricMap {
    map m | m in MetricSet(metrics) :: PmAt(a, m)
  }

  /** The last assignment of a metric wins, and assigning once more changes nothing. */
  lemma LastAssignmentWins(a: MetricMap, b: MetricMap, c: MetricMap)
    ensures b.Keys <= c.Keys ==> AssignPm(AssignPm(a, b), c) == AssignPm(a, c)
    ensures AssignPm(AssignPm(a, b), b) == AssignPm(a, b)
    ensures AssignPm(map[], b) == b && AssignPm(a, map[]) == a
    ensures forall m :: m in b ==> PmAt(AssignPm(a, b), m) == b[m]
  {
  }

  /** Changing the metrics changes nothing if they are the ones held; what is dropped on the way is lost, and
      what is new starts empty. */
  lemma KeptMetrics(a: MetricMap, first: seq<Metric>, second: seq<Metric>)
    ensures KeepMetrics(a, first) == a <==> a.Keys == MetricSet(first)
    ensures KeepMetrics(a, second).Keys == MetricSet(second)
    ensures forall m :: m in second ==>
      PmAt(KeepMetrics(KeepMetrics(a, first), second), m) == if m in first && m in a then a[m] else map[]
  {
    if a.Keys == MetricSet(first) {
      assert forall m :: m in a ==> KeepMetrics(a, first)[m] == a[m];
    }
    assert forall m :: m in MetricSet(second) <==> m in second;
  }

  lemma SumOfMetrics(a: MetricMap, b: MetricMap, sum: MetricMap)
    requires sum.Keys == a.Keys + b.Keys
    requires forall m :: m in sum ==> sum[m] == if m in b then Add(PmAt(a, m), b[m]) else PmAt(a, m)
    ensures sum == AddPm(a, b)
  {
    hide Add;
    forall m | m in sum ensures sum[m] == AddPm(a, b)[m] {
      AddEmpty(PmAt(a, m));
    }
  }

  /** `PmPortfolio`: a portfolio for each metric, updated in place. */
  class PmPortfolio {
    var content: MetricMap

    constructor ()
      ensures content == map[]
    {
      content := map[];
    }

    constructor Of(content: MetricMap)
      ensures this.content == content
    {
      this.content := content;
    }

    /** `+=` of the portfolio received in a message. */
    method AddAssignPm(other: MetricMap)
      modifies this
      ensures content == AddPm(old(content), other)
    {
      hide Add, AddPm;
      var rest := other.Keys;
      while rest != {}
        invariant rest <= other.Keys
        invariant content.Keys == old(content).Keys + (other.Keys - rest)
        invariant forall m :: m in content ==>
          content[m] ==
            if m in rest || m !in other then PmAt(old(content), m) else Add(PmAt(old(content), m), other[m])
        decreases rest
      {
        var m :| m in rest;
        if m in content {
          var sum := AddAssign(content[m], other[m]);
          content := content[m := sum];
        } else {
          var sum := AddAssign(map[], other[m]);
          content := content[m := sum];
        }
        rest := rest - {m};
      }
      SumOfMetrics(old(content), other, content);
    }

    method Assign(other: MetricMap)
      modifies this
      ensures content == AssignPm(old(content), other)
    {
      var rest := other.Keys;
      while rest != {}
        invariant rest <= other.Keys
        invariant content.Keys == old(content).Keys + (other.Keys - rest)
        invariant forall m :: m in content ==>
          content[m] == if m in other && m !in rest then other[m] else PmAt(old(content), m)
        decreases rest
      {
        var m :| m in rest;
        if m in content {
          content := content[m := other[m]];
        } else {
          AddEmpty(other[m]);
          var sum := AddAssign(map[], other[m]);
          content := content[m := sum];
        }
        rest := rest - {m};
      }
    }

    method AssignMetric(m: Metric, p: Portfolio)
      modifies this
      ensures content == old(content)[m := Add(PmAt(old(content), m), p)]
    {
      if m in content {
        var sum := AddAssign(content[m], p);
        content := content[m := sum];
      } else {
        AddEmpty(p);
        content := content[m := p];
      }
    }

    /** `change_metrics`: keep the listed metrics, drop the others, add missing ones empty. */
    method ChangeMetrics(metrics: seq<Metric>)
      modifies this
      ensures content == KeepMetrics(old(content), metrics)
    {
      var existing := content.Keys;
      var rest := existing;
      while rest != {}
        invariant rest <= existing == old(content).Keys
        invariant forall m :: m in content <==> m in existing && (m in rest || m in metrics)
        invariant forall m :: m in content ==> content[m] == old(content)[m]
        decreases rest
      {
        var m :| m in rest;
        if m !in metrics {
          content := content - {m};
        }
        rest := rest - {m};
      }
      for i := 0 to |metrics|
        invariant forall m :: m in content <==> (m in existing && m in metrics) || m in metrics[..i]
        invariant forall m :: m in content ==> content[m] == PmAt(old(content), m)
      {
        if metrics[i] !in content {
          content := content[metrics[i] := map[]];
        }
        assert metrics[..i + 1] == metrics[..i] + [metrics[i]];
      }
      assert metrics[..|metrics|] == metrics;
    }
  }
}
