/** The messages between the actors: rt_server/src/processor_msg.rs. */
module Messages {
  import opened Portfolios
  import opened Trades

  /** The payload of `NewTradePortfolio`: a provisional portfolio offered to the stage below. */
  datatype Proposal = Proposal(trades: set<TradeId>, portfolio: MetricMap, market: string)

  /** `ProcessorMiddleMessage`.  The sender of a proposal is always the stage above. */
  datatype Message =
    | NewTrade(id: TradeId)
    | NewMarket(name: string)
    | Behind(market: string, missing: set<TradeId>)
    | BulkReceive(trades: set<TradeId>, portfolio: MetricMap, offending: set<TradeId>, market: string)
    | BulkBusy
    | NewTradePortfolio(proposal: Proposal)
    | ProcessingStat
    | MetricChange(metrics: seq<Metric>)

  /** `NewBulk`. */
  datatype BulkRequest = BulkRequest(market: string, trades: set<TradeId>, metrics: seq<Metric>)

  /** `TradeRep` shared by all actors; the trade producer files a trade before announcing it. */
  class TradeRep {
    var trades: Book

    constructor ()
      ensures trades == map[]
    {
      trades := map[];
    }

    method Upsert(trade: Trade)
      requires Keyed(trades)
      modifies this
      ensures trades == old(trades)[trade.id := trade] && Keyed(trades)
    {
      trades := trades[trade.id := trade];
    }
  }
}
