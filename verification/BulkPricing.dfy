/** The trait `PriceMultiple` of rt_server/src/processor_bulk.rs: three ways of pricing a set of
    trades, proved to return the same ids and the same values. */
module BulkPricing {
  import opened Wrappers
  import opened Portfolios
  import opened Trades

  datatype PricingStyle = Sequential | ParallelSingleThread | Parallel

  /** What `price_multiple` returns for a set of ids: the sum of the contributions of the trades it
      finds, once for each occurrence of a metric in the list.  Only the sequential style leaves
      metrics out, when it finds no trade at all. */
  ghost function PriceSpec(style: PricingStyle, pricer: Pricer, book: Book, ids: set<TradeId>,
                           metrics: seq<Metric>, market: Market): MetricMap
  {
    var found := ids * book.Keys;
    if style.Sequential? && found == {} then map[]
    else AddMetrics(map[], metrics, BookValue(pricer, book, found, metrics, market))
  }

  /** The value of one metric under any style: n times the sum over the trades found, n being the
      number of times the metric is listed.  The style does not occur on the right. */
  lemma PriceSpecValue(style: PricingStyle, pricer: Pricer, book: Book, ids: set<TradeId>,
                       metrics: seq<Metric>, market: Market, m: Metric)
    ensures PmAt(PriceSpec(style, pricer, book, ids, metrics, market), m)
         == Times(multiset(metrics)[m], SumOver(BookContribution(pricer, book, m, market), ids * book.Keys))
  {
    var total := SumOver(BookContribution(pricer, book, m, market), ids * book.Keys);
    AddEmpty(Times(multiset(metrics)[m], total));
    AddMetricsValue(map[], metrics, BookValue(pricer, book, ids * book.Keys, metrics, market), m);
    TimesEmpty(multiset(metrics)[m]);
  }

  /** The three strategies agree, for every trade set, metric list and market. */
  lemma StrategiesAgree(a: PricingStyle, b: PricingStyle, pricer: Pricer, book: Book, ids: set<TradeId>,
                        metrics: seq<Metric>, market: Market)
    ensures forall m :: PmAt(PriceSpec(a, pricer, book, ids, metrics, market), m)
                     == PmAt(PriceSpec(b, pricer, book, ids, metrics, market), m)
  {
    forall m
      ensures PmAt(PriceSpec(a, pricer, book, ids, metrics, market), m)
           == PmAt(PriceSpec(b, pricer, book, ids, metrics, market), m)
    {
      PriceSpecValue(a, pricer, book, ids, metrics, market, m);
      PriceSpecValue(b, pricer, book, ids, metrics, market, m);
    }
  }

  /** Price one trade on every metric of the list and add it to the portfolio. */
  method AssignTrade(portfolio: PmPortfolio, pricer: Pricer, trade: Trade, metrics: seq<Metric>, market: Market)
    modifies portfolio
    ensures portfolio.content == AddMetrics(old(portfolio.content), metrics, TradeDelta(pricer, trade, metrics, market))
  {
    ghost var delta := TradeDelta(pricer, trade, metrics, market);
    forall m | m in portfolio.content ensures Add(portfolio.content[m], map[]) == portfolio.content[m] {
      AddEmpty(portfolio.content[m]);
    }
    for i := 0 to |metrics|
      invariant portfolio.content == AddMetrics(old(portfolio.content), metrics[..i], delta)
    {
      var results := pricer.ValueByMetric(trade, metrics[i], market);
      var p := AggregateResults(results);
      AddMetricsAppend(old(portfolio.content), metrics[..i], metrics[i], delta);
      assert metrics[..i + 1] == metrics[..i] + [metrics[i]];
      portfolio.AssignMetric(metrics[i], p);
    }
    assert metrics[..|metrics|] == metrics;
  }

  /** `+=` of a pricing result for every listed metric that the portfolio already holds. */
  function AddToPresent(pm: MetricMap, metrics: seq<Metric>, delta: MetricMap): MetricMap {
    if metrics == [] then pm
    else
      var init, m := metrics[..|metrics| - 1], metrics[|metrics| - 1];
      var before := AddToPresent(pm, init, delta);
      if m in before then before[m := Add(before[m], PmAt(delta, m))] else before
  }

  lemma AddToPresentStep(pm: MetricMap, metrics: seq<Metric>, m: Metric, delta: MetricMap)
    ensures var before := AddToPresent(pm, metrics, delta);
            AddToPresent(pm, metrics + [m], delta)
              == if m in before then before[m := Add(before[m], PmAt(delta, m))] else before
  {
    assert (metrics + [m])[..|metrics|] == metrics;
  }

  lemma {:induction false} AddToPresentKeys(pm: MetricMap, metrics: seq<Metric>, delta: MetricMap)
    ensures AddToPresent(pm, metrics, delta).Keys == pm.Keys
    decreases metrics
  {
    if metrics != [] {
      AddToPresentKeys(pm, metrics[..|metrics| - 1], delta);
    }
  }

  lemma AddToPresentAt(pm: MetricMap, init: seq<Metric>, m: Metric, delta: MetricMap, k: Metric)
    requires k in pm
    ensures PmAt(AddToPresent(pm, init + [m], delta), k)
         == if k == m then Add(PmAt(AddToPresent(pm, init, delta), k), PmAt(delta, k))
           else PmAt(AddToPresent(pm, init, delta), k)
    ensures multiset(init + [m])[k] == multiset(init)[k] + if k == m then 1 else 0
  {
    hide AddToPresent, Add;
    AddToPresentKeys(pm, init, delta);
    AddToPresentStep(pm, init, m, delta);
  }

  lemma {:induction false} AddToPresentValue(pm: MetricMap, metrics: seq<Metric>, delta: MetricMap, k: Metric)
    requires k in pm
    ensures PmAt(AddToPresent(pm, metrics, delta), k) == Add(pm[k], Times(multiset(metrics)[k], PmAt(delta, k)))
    decreases metrics
  {
    if metrics == [] {
      AddEmpty(pm[k]);
    } else {
      hide AddToPresent, Add, PmAt;
      var init, m := metrics[..|metrics| - 1], metrics[|metrics| - 1];
      assert metrics == init + [m];
      AddToPresentValue(pm, init, delta, k);
      AddToPresentAt(pm, init, m, delta, k);
      if k == m {
        AddAssociates(pm[k], Times(multiset(init)[k], PmAt(delta, k)), PmAt(delta, k));
      }
    }
  }

  /** Price one trade and add it to the portfolios held; a metric that is not held is skipped. */
  method AddTradeToPresent(portfolio: PmPortfolio, pricer: Pricer, trade: Trade, metrics: seq<Metric>, market: Market)
    modifies portfolio
    ensures portfolio.content
      == AddToPresent(old(portfolio.content), metrics, TradeDelta(pricer, trade, metrics, market))
  {
    ghost var delta := TradeDelta(pricer, trade, metrics, market);
    for i := 0 to |metrics|
      invariant portfolio.content == AddToPresent(old(portfolio.content), metrics[..i], delta)
    {
      var valued := pricer.ValueByMetric(trade, metrics[i], market);
      assert metrics[..i + 1] == metrics[..i] + [metrics[i]];
      AddToPresentStep(old(portfolio.content), metrics[..i], metrics[i], delta);
      if metrics[i] in portfolio.content {
        var sum := AddAssignResults(portfolio.content[metrics[i]], valued);
        portfolio.content := portfolio.content[metrics[i] := sum];
      }
    }
    assert metrics[..|metrics|] == metrics;
  }

  /** Adding a new trade to the exact value of some trades gives the exact value of all of them. */
  lemma BookValueInsert(pricer: Pricer, book: Book, ids: set<TradeId>, id: TradeId, metrics: seq<Metric>,
                        market: Market)
    requires id in book && id !in ids
    ensures BookValue(pricer, book, ids + {id}, metrics, market)
         == AddPm(BookValue(pricer, book, ids, metrics, market), TradeDelta(pricer, book[id], metrics, market))
  {
    forall m | m in MetricSet(metrics)
      ensures SumOver(BookContribution(pricer, book, m, market), ids + {id})
           == Add(SumOver(BookContribution(pricer, book, m, market), ids), Contribution(pricer, book[id], m, market))
    {
      SumInsert(BookContribution(pricer, book, m, market), ids, id);
    }
  }

  /** `_price_multiple_seq`: trade by trade, metric by metric. */
  method PriceSequential(pricer: Pricer, book: Book, ids: set<TradeId>, metrics: seq<Metric>, market: Market)
    returns (priced: set<TradeId>, portfolio: MetricMap)
    requires Keyed(book)
    ensures priced == ids * book.Keys
    ensures portfolio == PriceSpec(Sequential, pricer, book, ids, metrics, market)
  {
    var acc := new PmPortfolio();
    priced := {};
    var rest := ids;
    while rest != {}
      invariant rest <= ids
      invariant priced == (ids - rest) * book.Keys
      invariant acc.content == PriceSpec(Sequential, pricer, book, ids - rest, metrics, market)
      invariant fresh(acc)
      decreases rest
    {
      var id :| id in rest;
      ghost var before := priced;
      ghost var handled := ids - rest;
      rest := rest - {id};
      assert ids - rest == handled + {id};
      if id in book {
        var trade := book[id];
        priced := priced + {trade.id};
        AssignTrade(acc, pricer, trade, metrics, market);
        FirstOrNext(pricer, book, before, id, metrics, market);
      }
      assert priced == (ids - rest) * book.Keys;
    }
    assert ids - rest == ids;
    portfolio := acc.content;
  }

  /** Adding one trade to what the sequential style has so far. */
  lemma FirstOrNext(pricer: Pricer, book: Book, ids: set<TradeId>, id: TradeId, metrics: seq<Metric>, market: Market)
    requires ids <= book.Keys && id in book && id !in ids
    ensures AddMetrics(PriceSpec(Sequential, pricer, book, ids, metrics, market), metrics,
                       TradeDelta(pricer, book[id], metrics, market))
         == PriceSpec(Sequential, pricer, book, ids + {id}, metrics, market)
  {
    assert ids * book.Keys == ids;
    assert (ids + {id}) * book.Keys == ids + {id};
    var delta := TradeDelta(pricer, book[id], metrics, market);
    var sofar := BookValue(pricer, book, ids, metrics, market);
    BookValueInsert(pricer, book, ids, id, metrics, market);
    if ids == {} {
      forall m | m in MetricSet(metrics) ensures AddPm(sofar, delta)[m] == delta[m] {
        AddEmpty(delta[m]);
      }
      assert AddPm(sofar, delta) == delta;
    } else {
      AddMetricsTwice(map[], metrics, sofar, delta);
    }
  }

  /** The scan of the trade registry shared by both concurrent styles: the wanted trades, in the
      order in which the registry yields them. */
  method CollectTrades(book: Book, ids: set<TradeId>) returns (trades: seq<Trade>)
    requires Keyed(book)
    ensures forall i :: 0 <= i < |trades| ==> trades[i].id in book && trades[i] == book[trades[i].id]
    ensures forall i, j :: 0 <= i < j < |trades| ==> trades[i].id != trades[j].id
    ensures IdSet(trades) == ids * book.Keys
  {
    trades := [];
    var rest := book.Keys;
    while rest != {}
      invariant rest <= book.Keys
      invariant forall i :: 0 <= i < |trades| ==> trades[i].id in book && trades[i] == book[trades[i].id]
      invariant forall i, j :: 0 <= i < j < |trades| ==> trades[i].id != trades[j].id
      invariant IdSet(trades) == ids * (book.Keys - rest)
      decreases rest
    {
      var id :| id in rest;
      if id in ids {
        forall i | 0 <= i < |trades| ensures trades[i].id != id {
          assert trades[i].id in IdSet(trades);
        }
        IdSetAppend(trades, book[id]);
        trades := trades + [book[id]];
      }
      rest := rest - {id};
    }
    assert book.Keys - rest == book.Keys;
  }

  function IdSet(trades: seq<Trade>): set<TradeId> {
    set i | 0 <= i < |trades| :: trades[i].id
  }

  lemma IdSetAppend(trades: seq<Trade>, trade: Trade)
    ensures IdSet(trades + [trade]) == IdSet(trades) + {trade.id}
  {
    var longer := trades + [trade];
    forall id | id in IdSet(trades) + {trade.id} ensures id in IdSet(longer) {
      if id in IdSet(trades) {
        var i :| 0 <= i < |trades| && trades[i].id == id;
        assert longer[i].id == id;
      } else {
        assert longer[|trades|].id == id;
      }
    }
  }

  /** The sum of one metric over the collected trades, accumulated in their order.  The single
      thread style reduces with `+`, the spawning style uses `+=` on an empty portfolio. */
  method SumMetric(style: PricingStyle, pricer: Pricer, ghost book: Book, trades: seq<Trade>, m: Metric, market: Market)
    returns (sum: Portfolio)
    requires forall i :: 0 <= i < |trades| ==> trades[i].id in book && trades[i] == book[trades[i].id]
    requires forall i, j :: 0 <= i < j < |trades| ==> trades[i].id != trades[j].id
    ensures sum == SumOver(BookContribution(pricer, book, m, market), IdSet(trades))
  {
    ghost var f := BookContribution(pricer, book, m, market);
    sum := map[];
    for i := 0 to |trades|
      invariant sum == SumOver(f, IdSet(trades[..i]))
    {
      var results := pricer.ValueByMetric(trades[i], m, market);
      var p := AggregateResults(results);
      assert trades[..i + 1] == trades[..i] + [trades[i]];
      IdSetAppend(trades[..i], trades[i]);
      SumInsert(f, IdSet(trades[..i]), trades[i].id);
      if style.ParallelSingleThread? && i == 0 {
        AddEmpty(p);
        sum := p;
      } else {
        sum := AddAssign(sum, p);
      }
    }
    assert trades[..|trades|] == trades;
  }

  /** `_price_multiple_parallel_single_thread` and `_price_multiple_parallel`: metric by metric. */
  method PriceConcurrent(style: PricingStyle, pricer: Pricer, book: Book, ids: set<TradeId>, metrics: seq<Metric>,
                         market: Market)
    returns (priced: set<TradeId>, portfolio: MetricMap)
    requires Keyed(book) && !style.Sequential?
    ensures priced == ids * book.Keys
    ensures portfolio == PriceSpec(style, pricer, book, ids, metrics, market)
  {
    var acc := new PmPortfolio();
    var trades := CollectTrades(book, ids);
    ghost var value := BookValue(pricer, book, ids * book.Keys, metrics, market);
    for i := 0 to |metrics|
      invariant fresh(acc)
      invariant acc.content == AddMetrics(map[], metrics[..i], value)
    {
      var p := SumMetric(style, pricer, book, trades, metrics[i], market);
      AddMetricsAppend(map[], metrics[..i], metrics[i], value);
      assert metrics[..i + 1] == metrics[..i] + [metrics[i]];
      acc.AssignMetric(metrics[i], p);
    }
    assert metrics[..|metrics|] == metrics;
    portfolio := acc.content;
    priced := set i | 0 <= i < |trades| :: trades[i].id;
    assert priced == IdSet(trades);
  }

  /** `price_multiple`: the style is chosen at start-up and does not change the result. */
  method PriceMultiple(style: PricingStyle, pricer: Pricer, book: Book, ids: set<TradeId>, metrics: seq<Metric>,
                       market: Market)
    returns (priced: set<TradeId>, portfolio: MetricMap)
    requires Keyed(book)
    ensures priced == ids * book.Keys
    ensures portfolio == PriceSpec(style, pricer, book, ids, metrics, market)
    ensures forall m ::
      PmAt(portfolio, m) == Times(multiset(metrics)[m], SumOver(BookContribution(pricer, book, m, market), priced))
  {
    if style.Sequential? {
      priced, portfolio := PriceSequential(pricer, book, ids, metrics, market);
    } else {
      priced, portfolio := PriceConcurrent(style, pricer, book, ids, metrics, market);
    }
    forall m
      ensures PmAt(portfolio, m)
        == Times(multiset(metrics)[m], SumOver(BookContribution(pricer, book, m, market), priced))
    {
      PriceSpecValue(style, pricer, book, ids, metrics, market, m);
    }
  }

  // ---------- Exact values ----------

  /** A portfolio is, metric by metric, the sum of the contributions of a set of trades on one market. */
  ghost predicate Values(pricer: Pricer, book: Book, metrics: seq<Metric>, pm: MetricMap, ids: set<TradeId>,
                         market: Market)
  {
    forall m :: m in metrics ==> PmAt(pm, m) == SumOver(BookContribution(pricer, book, m, market), ids)
  }

  /** Adding the price of trades not yet contained extends the exact value. */
  lemma RepairExtends(style: PricingStyle, pricer: Pricer, book: Book, metrics: seq<Metric>, pm: MetricMap,
                      ids: set<TradeId>, more: set<TradeId>, market: Market)
    requires Distinct(metrics) && ids !! more && more <= book.Keys
    requires Values(pricer, book, metrics, pm, ids, market)
    ensures Values(pricer, book, metrics, AddPm(pm, PriceSpec(style, pricer, book, more, metrics, market)),
                   ids + more, market)
  {
    var additional := PriceSpec(style, pricer, book, more, metrics, market);
    forall m | m in metrics
      ensures PmAt(AddPm(pm, additional), m) == SumOver(BookContribution(pricer, book, m, market), ids + more)
    {
      var f := BookContribution(pricer, book, m, market);
      assert more * book.Keys == more;
      PmAtAdd(pm, additional, m);
      PriceSpecValue(style, pricer, book, more, metrics, market, m);
      DistinctCounts(metrics, m);
      TimesOne(SumOver(f, more));
      SumUnion(f, ids, more);
    }
  }
}
