/** Trades, markets and the pricing interface: rt_server/src/trade.rs, rt_server/src/pricer.rs,
    the data of rt_server/src/trades/trade_letf.rs and rt_server/src/markets/letf_market.rs. */
module Trades {
  import opened Wrappers
  import opened Portfolios

  datatype SabrParam = Alpha | Beta | Rho | Nu

  /** `LETFMarketTypes`: what a market can quote. */
  datatype MarketKey =
    | Stock(stock: string)
    | Perp(underlying: string)
    | Opt(ticker: string)
    | Sabr(underlier: string, maturity: int, param: SabrParam)
    | Break

  /** A frozen market: its (unique) name and its quotes. */
  datatype Market = Market(name: string, quotes: map<MarketKey, real>)
  {
    function Get(key: MarketKey): Option<real> {
      if key in quotes then Some(quotes[key]) else None
    }
  }

  datatype Trade =
    | LETF(id: TradeId, stock: string, amount: real, beta: real, stockValue: Option<real>)
    | Future(id: TradeId, stock: string, amount: real, initialVal: Option<real>)
    | Cash(id: TradeId, amount: real)
    | PerpSwap(id: TradeId, underlying: string, amount: real)

  /** `TradeRep`: the shared registry of trades, filed under their ids. */
  type Book = map<TradeId, Trade>

  ghost predicate Keyed(book: Book) {
    forall id :: id in book ==> book[id].id == id
  }

  /** An implementation of the `PriceTrade` trait: the three operations a trade type supplies. */
  datatype Pricer = Pricer(
    price: (Trade, Market) -> Option<real>,
    pv01: (Trade, Market) -> map<TradeId, Portfolio>,
    initialPv: Trade -> Option<real>)
  {
    /** `pnl`: present value less initial value, if both exist. */
    function PnL(trade: Trade, market: Market): Option<real> {
      match initialPv(trade)
      case None => None
      case Some(initial) =>
        match price(trade, market)
        case None => None
        case Some(current) => Some(current - initial)
    }

    /** `value_by_metric`. */
    function ValueByMetric(trade: Trade, m: Metric, market: Market): (r: PricingResults)
      ensures !r.PnLResult?
    {
      match m
      case PV => PVResult(Single(trade.id, price(trade, market)))
      case PV01 => PV01Result(pv01(trade, market))
      case PnL => PVResult(Single(trade.id, PnL(trade, market)))
    }
  }

  function Single(id: TradeId, value: Option<real>): Portfolio {
    match value
    case Some(v) => map[id := v]
    case None => map[]
  }

  /** What one trade adds to the portfolio of one metric. */
  ghost function Contribution(pricer: Pricer, trade: Trade, m: Metric, market: Market): Portfolio {
    Aggregate(pricer.ValueByMetric(trade, m, market))
  }

  /** What one trade adds, for every metric of a list. */
  ghost function TradeDelta(pricer: Pricer, trade: Trade, metrics: seq<Metric>, market: Market): MetricMap {
    map m | m in MetricSet(metrics) :: Contribution(pricer, trade, m, market)
  }

  /** Contribution of the trade filed under an id; an unknown id adds nothing. */
  ghost function BookContribution(pricer: Pricer, book: Book, m: Metric, market: Market): TradeId -> Portfolio {
    id => if id in book then Contribution(pricer, book[id], m, market) else map[]
  }

  /** The exact value of a set of trades, metric by metric. */
  ghost function BookValue(pricer: Pricer, book: Book, ids: set<TradeId>, metrics: seq<Metric>,
                           market: Market): MetricMap
  {
    map m | m in MetricSet(metrics) :: SumOver(BookContribution(pricer, book, m, market), ids)
  }

  /** A trade without a price adds nothing to PV and PnL; a priced one adds its own id to PV. */
  lemma ContributionKeys(pricer: Pricer, trade: Trade, market: Market)
    ensures Contribution(pricer, trade, PV, market).Keys == if pricer.price(trade, market).Some? then {trade.id} else {}
    ensures pricer.price(trade, market).None? ==> Contribution(pricer, trade, PnL, market) == map[]
  {
    assert pricer.ValueByMetric(trade, PV, market) == PVResult(Single(trade.id, pricer.price(trade, market)));
  }
}
