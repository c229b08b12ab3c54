/** `ProcessorMiddle` of rt_server/src/processor_middle.rs: a stage between `ProcessorNew` and
    `ProcessorCurr` that adds its own trades to every proposal passing through. */
module ProcessorMiddleActor {
  import opened Wrappers
  import opened Portfolios
  import opened Trades
  import opened MarketRegistry
  import opened BulkPricing
  import opened Messages

  datatype MiddleState = MiddleState(
    trades: set<TradeId>,
    portfolio: MetricMap,
    market: Option<string>,
    metrics: seq<Metric>,
    tradesSinceProposal: nat)

  /** The new state, the registry, the proposal sent down, the answer sent up, and whether the
      handler ended with an error. */
  datatype MiddleResult = MiddleResult(
    st: MiddleState, registry: Registry, below: Option<Proposal>, above: Option<Message>, failed: bool)

  /** `_ntp_calculating_single`: take over the proposal and add the own trades it does not list. */
  ghost function OnProposal(pricer: Pricer, style: PricingStyle, book: Book, registry: Registry, name: string,
                            st: MiddleState, proposal: Proposal): MiddleResult
  {
    var missing := st.trades - proposal.trades;
    var registry' := InsertProcessor(registry, name, proposal.market);
    var st' := st.(market := Some(proposal.market), tradesSinceProposal := 0,
                   portfolio := proposal.portfolio, trades := st.trades + proposal.trades);
    var answer := Some(Behind(proposal.market, missing));
    if missing != {} && proposal.market !in registry'.markets then
      MiddleResult(st', registry', None, answer, false)
    else
      var portfolio :=
        if missing == {} then proposal.portfolio
        else AddPm(proposal.portfolio,
                   PriceSpec(style, pricer, book, missing, st.metrics, registry'.markets[proposal.market]));
      MiddleResult(st'.(portfolio := portfolio), registry',
                   Some(Proposal(st'.trades, portfolio, proposal.market)), answer, false)
  }

  /** `_new_trade_calculating_single`. */
  ghost function OnNewTrade(pricer: Pricer, book: Book, registry: Registry, st: MiddleState, id: TradeId): MiddleResult
  {
    var st' := st.(trades := st.trades + {id});
    if st.metrics == [] then MiddleResult(st', registry, None, None, false)
    else if id !in book then MiddleResult(st', registry, None, None, true)
    else if st.market.None? || st.market.value !in registry.markets then MiddleResult(st', registry, None, None, false)
    else
      var delta := TradeDelta(pricer, book[id], st.metrics, registry.markets[st.market.value]);
      var portfolio := AddToPresent(st.portfolio, st.metrics, delta);
      MiddleResult(st'.(portfolio := portfolio, tradesSinceProposal := st.tradesSinceProposal + 1), registry,
                   Some(Proposal(st'.trades, portfolio, st.market.value)), None, false)
  }

  /** `_behind_calculating_single`: the stage below lacked trades.  They are added to the portfolio without
      asking whether it values them already; without a stored market the stage falls back to the market
      of the answer and prices everything it knows. */
  ghost function OnBehind(pricer: Pricer, style: PricingStyle, book: Book, registry: Registry, name: string,
                          st: MiddleState, market: string, ids: set<TradeId>): MiddleResult
  {
    var st' := st.(trades := st.trades + ids);
    if ids == {} then MiddleResult(st, registry, None, None, false)
    else if st.market.None? || st.market.value !in registry.markets then
      var registry' := InsertProcessor(registry, name, market);
      var portfolio :=
        if market in registry'.markets
        then PriceSpec(style, pricer, book, st'.trades, st.metrics, registry'.markets[market]) else st.portfolio;
      MiddleResult(st'.(market := Some(market), portfolio := portfolio), registry', None, None, false)
    else
      var held := registry.markets[st.market.value];
      var portfolio := AddPm(st.portfolio, PriceSpec(style, pricer, book, ids, st.metrics, held));
      MiddleResult(st'.(portfolio := portfolio), registry,
                   Some(Proposal(st'.trades, portfolio, held.name)), None, false)
  }

  /** What the stage does with a message; one that it does not expect changes nothing. */
  ghost function OnMessage(pricer: Pricer, style: PricingStyle, book: Book, registry: Registry, name: string,
                           st: MiddleState, msg: Message): MiddleResult
  {
    match msg
    case NewTrade(id) => OnNewTrade(pricer, book, registry, st, id)
    case NewTradePortfolio(proposal) => OnProposal(pricer, style, book, registry, name, st, proposal)
    case Behind(market, ids) => OnBehind(pricer, style, book, registry, name, st, market, ids)
    case _ => MiddleResult(st, registry, None, None, false)
  }

  class ProcessorMiddle {
    const name: string
    const pricer: Pricer
    const style: PricingStyle
    const allMarkets: AllMarkets
    const allTrades: TradeRep

    var trades: set<TradeId>
    var portfolio: PmPortfolio
    var currMarket: Option<string>
    var metrics: seq<Metric>
    var tradesSinceProposal: nat

    ghost function View(): MiddleState
      reads this, portfolio
    {
      MiddleState(trades, portfolio.content, currMarket, metrics, tradesSinceProposal)
    }

    constructor (name: string, pricer: Pricer, style: PricingStyle, allMarkets: AllMarkets, allTrades: TradeRep)
      ensures View() == MiddleState({}, map[], None, [], 0) && fresh(portfolio)
      ensures this.name == name && this.pricer == pricer && this.style == style
      ensures this.allMarkets == allMarkets && this.allTrades == allTrades
    {
      this.name, this.pricer, this.style := name, pricer, style;
      this.allMarkets, this.allTrades := allMarkets, allTrades;
      trades, currMarket, metrics, tradesSinceProposal := {}, None, [], 0;
      portfolio := new PmPortfolio();
    }

    method HandleProposal(proposal: Proposal) returns (below: Option<Proposal>, above: Option<Message>)
      requires Keyed(allTrades.trades)
      modifies this, allMarkets
      ensures fresh(portfolio)
      ensures MiddleResult(View(), allMarkets.Content(), below, above, false)
           == OnProposal(pricer, style, allTrades.trades, old(allMarkets.Content()), name, old(View()), proposal)
    {
      below := None;
      var missing := trades - proposal.trades;
      above := Some(Behind(proposal.market, missing));
      currMarket := Some(proposal.market);
      tradesSinceProposal := 0;
      allMarkets.InsertProcessorMarket(name, proposal.market);
      portfolio := new PmPortfolio.Of(proposal.portfolio);
      trades := trades + proposal.trades;
      if missing != {} {
        var market := allMarkets.Get(proposal.market);
        if market.None? {
          return;
        }
        var _, added := PriceMultiple(style, pricer, allTrades.trades, missing, metrics, market.value);
        portfolio.AddAssignPm(added);
      }
      below := Some(Proposal(trades, portfolio.content, proposal.market));
    }

    method HandleNewTrade(id: TradeId) returns (below: Option<Proposal>, failed: bool)
      modifies this, portfolio
      ensures portfolio == old(portfolio)
      ensures MiddleResult(View(), allMarkets.Content(), below, None, failed)
           == OnNewTrade(pricer, allTrades.trades, old(allMarkets.Content()), old(View()), id)
    {
      below, failed := None, false;
      trades := trades + {id};
      if metrics == [] {
        return;
      }
      if id !in allTrades.trades {
        failed := true;
        return;
      }
      if currMarket.None? {
        return;
      }
      var market := allMarkets.Get(currMarket.value);
      if market.None? {
        return;
      }
      tradesSinceProposal := tradesSinceProposal + 1;
      AddTradeToPresent(portfolio, pricer, allTrades.trades[id], metrics, market.value);
      below := Some(Proposal(trades, portfolio.content, currMarket.value));
    }

    method HandleBehind(market: string, ids: set<TradeId>) returns (below: Option<Proposal>)
      requires Keyed(allTrades.trades)
      modifies this, portfolio, allMarkets
      ensures portfolio == old(portfolio) || fresh(portfolio)
      ensures MiddleResult(View(), allMarkets.Content(), below, None, false)
           == OnBehind(pricer, style, allTrades.trades, old(allMarkets.Content()), name, old(View()), market, ids)
    {
      below := None;
      if ids == {} {
        return;
      }
      trades := trades + ids;
      var held: Option<Market> := None;
      if currMarket.Some? {
        held := allMarkets.Get(currMarket.value);
      }
      if held.None? {
        allMarkets.InsertProcessorMarket(name, market);
        currMarket := Some(market);
        var actual := allMarkets.Get(market);
        if actual.None? {
          return;
        }
        var _, priced := PriceMultiple(style, pricer, allTrades.trades, trades, metrics, actual.value);
        portfolio := new PmPortfolio.Of(priced);
        return;
      }
      var _, added := PriceMultiple(style, pricer, allTrades.trades, ids, metrics, held.value);
      portfolio.AddAssignPm(added);
      below := Some(Proposal(trades, portfolio.content, held.value.name));
    }
  }
}
