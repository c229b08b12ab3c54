/** `ProcessorNew` of rt_server/src/processor_new.rs: prices single trades as they arrive, and the
    whole book in bulk whenever the market changes. */
module ProcessorNewActor {
  import opened Wrappers
  import opened Portfolios
  import opened Trades
  import opened MarketRegistry
  import opened BulkPricing
  import opened Messages

  /** `processor_name` of this actor in the pipeline (rt_server/src/engine_letf.rs). */
  const NAME := "processor_new"

  datatype Mode = CalculatingSingle | CalculatingBulk

  datatype NewState = NewState(
    trades: set<TradeId>,
    notPricing: multiset<TradeId>,
    portfolio: MetricMap,
    mode: Mode,
    market: Option<string>,
    metrics: seq<Metric>)

  /** What handling a message leads to: the new state, the registry, and the messages sent. */
  datatype NewResult = NewResult(st: NewState, registry: Registry, below: seq<Proposal>, bulk: seq<BulkRequest>)

  const INITIAL := NewState({}, multiset{}, map[], CalculatingSingle, None, [])

  function Nothing(st: NewState, registry: Registry): NewResult {
    NewResult(st, registry, [], [])
  }

  /** Whether a single new trade can be priced: metrics, trade and market are all there. */
  predicate CanPrice(book: Book, registry: Registry, st: NewState, id: TradeId) {
    st.metrics != [] && id in book && st.market.Some? && st.market.value in registry.markets
  }

  ghost function OnNewTrade(pricer: Pricer, book: Book, registry: Registry, st: NewState, id: TradeId): NewResult {
    if st.mode.CalculatingBulk? then
      Nothing(st.(trades := st.trades + {id}), registry)
    else if !CanPrice(book, registry, st, id) then
      Nothing(st, registry)
    else
      var delta := TradeDelta(pricer, book[id], st.metrics, registry.markets[st.market.value]);
      var st' := st.(trades := st.trades + {id}, portfolio := AddMetrics(st.portfolio, st.metrics, delta));
      NewResult(st', registry, [Proposal(st'.trades, st'.portfolio, st.market.value)], [])
  }

  /** Switch to the market published as "future" and ask for all trades to be priced on it. */
  function OnNewMarket(registry: Registry, st: NewState): NewResult {
    if st.mode.CalculatingBulk? then
      Nothing(st, registry)
    else if FUTURE !in registry.markets then
      Nothing(st.(portfolio := map[]), registry)
    else
      var future := registry.markets[FUTURE];
      NewResult(
        st.(portfolio := map[], market := Some(future.name), mode := CalculatingBulk),
        InsertBoth(registry, NAME, future.name, future),
        [],
        [BulkRequest(future.name, st.trades, st.metrics)])
  }

  function OnBulkReceive(registry: Registry, st: NewState, trades: set<TradeId>, portfolio: MetricMap,
                         offending: set<TradeId>, market: string): NewResult
  {
    var st' := st.(
      portfolio := AssignPm(st.portfolio, portfolio),
      trades := st.trades + trades,
      notPricing := st.notPricing + multiset(offending),
      market := Some(market),
      mode := CalculatingSingle);
    NewResult(st', registry, [Proposal(st'.trades, st'.portfolio, market)], [])
  }

  ghost function OnMessage(pricer: Pricer, book: Book, registry: Registry, st: NewState, msg: Message): NewResult {
    match msg
    case NewTrade(id) => OnNewTrade(pricer, book, registry, st, id)
    case NewMarket(_) => OnNewMarket(registry, st)
    case BulkReceive(trades, portfolio, offending, market) =>
      OnBulkReceive(registry, st, trades, portfolio, offending, market)
    case MetricChange(metrics) =>
      Nothing(st.(portfolio := KeepMetrics(st.portfolio, metrics), metrics := metrics), registry)
    case _ => Nothing(st, registry)
  }

  /** A change of metrics keeps what is held, starts the rest empty, and tells nobody. */
  lemma MetricChangeOutcome(pricer: Pricer, book: Book, registry: Registry, st: NewState, metrics: seq<Metric>)
    ensures var r := OnMessage(pricer, book, registry, st, MetricChange(metrics));
            && r.st == st.(portfolio := r.st.portfolio, metrics := metrics) && r.st.portfolio.Keys == MetricSet(metrics)
            && (forall m :: m in metrics ==> PmAt(r.st.portfolio, m) == PmAt(st.portfolio, m))
            && r.registry == registry && r.below == [] && r.bulk == []
  {
  }

  class ProcessorNew {
    const pricer: Pricer
    const allMarkets: AllMarkets
    const allTrades: TradeRep

    var trades: set<TradeId>
    var notPricing: multiset<TradeId>
    var portfolio: PmPortfolio
    var mode: Mode
    var newMarket: Option<string>
    var metrics: seq<Metric>

    ghost function View(): NewState
      reads this, portfolio
    {
      NewState(trades, notPricing, portfolio.content, mode, newMarket, metrics)
    }

    constructor (pricer: Pricer, allMarkets: AllMarkets, allTrades: TradeRep)
      ensures View() == INITIAL && fresh(portfolio)
      ensures this.pricer == pricer && this.allMarkets == allMarkets && this.allTrades == allTrades
    {
      this.pricer, this.allMarkets, this.allTrades := pricer, allMarkets, allTrades;
      trades, notPricing, mode, newMarket, metrics := {}, multiset{}, CalculatingSingle, None, [];
      portfolio := new PmPortfolio();
    }

    /** `_new_trade_calculating_single` and `_new_trade_calculating_bulk`. */
    method HandleNewTrade(id: TradeId) returns (below: seq<Proposal>)
      modifies this, portfolio
      ensures portfolio == old(portfolio)
      ensures var r := OnNewTrade(pricer, allTrades.trades, allMarkets.Content(), old(View()), id);
              View() == r.st && below == r.below && allMarkets.Content() == r.registry && r.bulk == []
    {
      below := [];
      if mode.CalculatingBulk? {
        trades := trades + {id};
        return;
      }
      if metrics == [] || id !in allTrades.trades || newMarket.None? {
        return;
      }
      var market := allMarkets.Get(newMarket.value);
      if market.None? {
        return;
      }
      trades := trades + {id};
      AssignTrade(portfolio, pricer, allTrades.trades[id], metrics, market.value);
      below := [Proposal(trades, portfolio.content, newMarket.value)];
    }

    method HandleNewMarket() returns (bulk: seq<BulkRequest>)
      modifies this, allMarkets
      ensures portfolio == old(portfolio) || fresh(portfolio)
      ensures var r := OnNewMarket(old(allMarkets.Content()), old(View()));
              View() == r.st && bulk == r.bulk && allMarkets.Content() == r.registry && r.below == []
    {
      bulk := [];
      if mode.CalculatingBulk? {
        return;
      }
      portfolio := new PmPortfolio();
      var future := allMarkets.Get(FUTURE);
      if future.None? {
        return;
      }
      newMarket := Some(future.value.name);
      allMarkets.InsertMarketAndProcessor(NAME, future.value.name, future.value);
      mode := CalculatingBulk;
      bulk := [BulkRequest(future.value.name, trades, metrics)];
    }

    /** `_bulkreceive_calculatingbulk_idle`. */
    method HandleBulkReceive(bulkTrades: set<TradeId>, computed: MetricMap, offending: set<TradeId>, market: string)
      returns (below: seq<Proposal>)
      modifies this, portfolio
      ensures portfolio == old(portfolio)
      ensures var r := OnBulkReceive(allMarkets.Content(), old(View()), bulkTrades, computed, offending, market);
              View() == r.st && below == r.below && allMarkets.Content() == r.registry && r.bulk == []
    {
      portfolio.Assign(computed);
      trades := trades + bulkTrades;
      notPricing := notPricing + multiset(offending);
      newMarket := Some(market);
      below := [Proposal(trades, portfolio.content, market)];
      mode := CalculatingSingle;
    }

    method Handle(msg: Message) returns (below: seq<Proposal>, bulk: seq<BulkRequest>)
      modifies this, portfolio, allMarkets
      ensures portfolio == old(portfolio) || fresh(portfolio)
      ensures NewResult(View(), allMarkets.Content(), below, bulk)
           == OnMessage(pricer, allTrades.trades, old(allMarkets.Content()), old(View()), msg)
    {
      below, bulk := [], [];
      match msg
      case NewTrade(id) =>
        below := HandleNewTrade(id);
      case NewMarket(_) =>
        bulk := HandleNewMarket();
      case BulkReceive(bulkTrades, computed, offending, market) =>
        below := HandleBulkReceive(bulkTrades, computed, offending, market);
      case MetricChange(newMetrics) =>
        portfolio.ChangeMetrics(newMetrics);
        metrics := newMetrics;
      case _ =>
    }
  }
}
