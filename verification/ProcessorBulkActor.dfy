/** `ProcessorBulk` of rt_server/src/processor_bulk.rs: prices a batch of trades on one market. */
module ProcessorBulkActor {
  import opened Wrappers
  import opened Portfolios
  import opened Trades
  import opened MarketRegistry
  import opened BulkPricing
  import opened Messages

  /** The name under which the bulk actor of `ProcessorNew` registers its market. */
  const NAME := "processor_new_bulk"

  /** The registry and the reply after a request. */
  datatype BulkResult = BulkResult(registry: Registry, reply: Message)

  ghost function OnNewBulk(pricer: Pricer, style: PricingStyle, book: Book, registry: Registry,
                           req: BulkRequest): BulkResult
  {
    var registry' := InsertProcessor(registry, NAME, req.market);
    BulkResult(registry',
      if req.market !in registry'.markets then BulkReceive(req.trades, map[], {}, req.market)
      else BulkReceive(
        req.trades,
        PriceSpec(style, pricer, book, req.trades, req.metrics, registry'.markets[req.market]),
        req.trades - book.Keys,
        req.market))
  }

  class ProcessorBulk {
    const pricer: Pricer
    const style: PricingStyle
    const allMarkets: AllMarkets
    const allTrades: TradeRep

    constructor (pricer: Pricer, style: PricingStyle, allMarkets: AllMarkets, allTrades: TradeRep)
      ensures this.pricer == pricer && this.style == style
      ensures this.allMarkets == allMarkets && this.allTrades == allTrades
    {
      this.pricer, this.style, this.allMarkets, this.allTrades := pricer, style, allMarkets, allTrades;
    }

    method HandleNewBulk(req: BulkRequest) returns (reply: Message)
      requires Keyed(allTrades.trades)
      modifies allMarkets
      ensures BulkResult(allMarkets.Content(), reply)
           == OnNewBulk(pricer, style, allTrades.trades, old(allMarkets.Content()), req)
    {
      allMarkets.InsertProcessorMarket(NAME, req.market);
      var market := allMarkets.Get(req.market);
      if market.None? {
        return BulkReceive(req.trades, map[], {}, req.market);
      }

      var nonPricing: set<TradeId> := {};
      var rest := req.trades;
      while rest != {}
        invariant rest <= req.trades
        invariant nonPricing == (req.trades - rest) - allTrades.trades.Keys
        decreases rest
      {
        var id :| id in rest;
        if id !in allTrades.trades {
          nonPricing := nonPricing + {id};
        }
        rest := rest - {id};
      }
      assert req.trades - rest == req.trades;

      var _, priced := PriceMultiple(style, pricer, allTrades.trades, req.trades, req.metrics, market.value);
      reply := BulkReceive(req.trades, priced, nonPricing, req.market);
    }
  }
}
