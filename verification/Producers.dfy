/** The two producers that feed a pipeline: `MarketProducer` of rt_server/src/mkt_handler_actor.rs and
    `TradeProducer` of rt_server/src/trade_sender.rs.  A method handles one message of a topic; the
    loops around them never end. */
module Producers {
  import opened Portfolios
  import opened Trades
  import opened MarketRegistry
  import opened Messages

  /** A decoded message of the market topic. */
  datatype Tick = Tick(key: MarketKey, value: real)

  /** The market after one more tick, under a new name. */
  function Deposit(market: Market, t: Tick, name: string): Market {
    Market(name, market.quotes[t.key := t.value])
  }

  class MarketProducer {
    const allMarkets: AllMarkets
    var market: Market

    /** `pre_start`: an empty market, published as "future". */
    constructor (allMarkets: AllMarkets, tag: string)
      modifies allMarkets
      ensures this.allMarkets == allMarkets && market == Market(tag, map[])
      ensures allMarkets.Content() == Insert(old(allMarkets.Content()), FUTURE, market)
    {
      this.allMarkets := allMarkets;
      market := Market(tag, map[]);
      new;
      allMarkets.InsertMarket(FUTURE, market);
    }

    /** One turn of the loop of `post_start`; the result is the message for `ProcessorNew`. */
    method Receive(t: Tick, newName: string) returns (msg: Message)
      modifies this, allMarkets
      ensures market == Deposit(old(market), t, newName)
      ensures allMarkets.Content() == Insert(old(allMarkets.Content()), FUTURE, market)
      ensures msg == NewMarket(FUTURE)
    {
      market := market.(quotes := market.quotes[t.key := t.value]);
      market := market.(name := newName);
      allMarkets.InsertMarket(FUTURE, market);
      msg := NewMarket(FUTURE);
    }
  }

  /** What a trade producer does, in order. */
  datatype Action = Filed(id: TradeId) | Announced(id: TradeId, processor: nat)

  /** One trade is filed first and then announced to the processors in their order. */
  function Actions(id: TradeId, processors: nat): seq<Action> {
    [Filed(id)] + seq(processors, i requires 0 <= i => Announced(id, i))
  }

  class TradeProducer {
    const tradeList: TradeRep
    var mailboxes: seq<seq<Message>>
    ghost var actions: seq<Action>

    constructor (tradeList: TradeRep, processors: nat)
      ensures this.tradeList == tradeList && mailboxes == seq(processors, i => []) && actions == []
    {
      this.tradeList := tradeList;
      mailboxes := seq(processors, i => []);
      actions := [];
    }

    method File(trade: Trade)
      requires Keyed(tradeList.trades)
      modifies tradeList, this`actions
      ensures Keyed(tradeList.trades) && tradeList.trades == old(tradeList.trades)[trade.id := trade]
      ensures actions == old(actions) + [Filed(trade.id)]
    {
      tradeList.Upsert(trade);
      actions := actions + [Filed(trade.id)];
    }

    method Send(id: TradeId, processor: nat)
      requires processor < |mailboxes|
      modifies this
      ensures mailboxes == old(mailboxes)[processor := old(mailboxes)[processor] + [NewTrade(id)]]
      ensures actions == old(actions) + [Announced(id, processor)]
    {
      mailboxes := mailboxes[processor := mailboxes[processor] + [NewTrade(id)]];
      actions := actions + [Announced(id, processor)];
    }

    /** One turn of the loop of `post_start`. */
    method Receive(trade: Trade)
      requires Keyed(tradeList.trades)
      modifies this, tradeList
      ensures Keyed(tradeList.trades) && tradeList.trades == old(tradeList.trades)[trade.id := trade]
      ensures |mailboxes| == |old(mailboxes)|
      ensures forall i :: 0 <= i < |mailboxes| ==> mailboxes[i] == old(mailboxes)[i] + [NewTrade(trade.id)]
      ensures actions == old(actions) + Actions(trade.id, |mailboxes|)
    {
      File(trade);
      for p := 0 to |mailboxes|
        invariant |mailboxes| == |old(mailboxes)| && actions == old(actions) + Actions(trade.id, p)
        invariant tradeList.trades == old(tradeList.trades)[trade.id := trade]
        invariant forall i :: 0 <= i < p ==> mailboxes[i] == old(mailboxes)[i] + [NewTrade(trade.id)]
        invariant forall i :: p <= i < |mailboxes| ==> mailboxes[i] == old(mailboxes)[i]
      {
        Send(trade.id, p);
        assert Actions(trade.id, p + 1) == Actions(trade.id, p) + [Announced(trade.id, p)];
      }
    }
  }
}
