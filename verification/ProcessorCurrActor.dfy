/** `ProcessorCurr` of rt_server/src/processor_curr.rs: holds the accepted portfolio, takes over
    proposals from above and repairs them where they lack trades, and publishes. */
module ProcessorCurrActor {
  import opened Wrappers
  import opened Portfolios
  import opened Trades
  import opened MarketRegistry
  import opened BulkPricing
  import opened Messages

  /** `processor_name` of this actor in the pipeline: the first of `markets_used`. */
  const NAME := "curr"

  /** `NTP_ALLOW_BEHIND`: a proposal lacking this many known trades is rejected. */
  const ALLOW_BEHIND: nat := 10

  datatype OperatingMode = DoubleBuffer | SingleBuffer

  datatype CurrState = CurrState(
    trades: set<TradeId>,
    portfolio: MetricMap,
    market: Option<string>,
    metrics: seq<Metric>,
    newTradesSinceMarket: nat)

  /** The new state, the registry, what is published and the answer to the stage above. */
  datatype CurrResult = CurrResult(st: CurrState, registry: Registry, published: Option<MetricMap>,
                                   answer: Option<Message>)

  const INITIAL := CurrState({}, map[], None, [], 0)

  function Nothing(st: CurrState, registry: Registry): CurrResult {
    CurrResult(st, registry, None, None)
  }

  function Published(pm: MetricMap, metrics: seq<Metric>): MetricMap {
    map m | m in pm && m in metrics :: pm[m]
  }

  ghost function OnNewTrade(pricer: Pricer, mode: OperatingMode, book: Book, registry: Registry, st: CurrState,
                            id: TradeId): CurrResult
  {
    if mode.SingleBuffer? then Nothing(st, registry)
    else
      var st' := st.(trades := st.trades + {id}, newTradesSinceMarket := st.newTradesSinceMarket + 1);
      if st.market.None? || id !in book || st.market.value !in registry.markets then Nothing(st', registry)
      else
        var delta := TradeDelta(pricer, book[id], st.metrics, registry.markets[st.market.value]);
        var portfolio := AddToPresent(st.portfolio, st.metrics, delta);
        CurrResult(st'.(portfolio := portfolio), registry, Some(Published(portfolio, st.metrics)), None)
  }

  /** The known trades that a proposed portfolio does not value. */
  function MissingFrom(st: CurrState, proposal: Proposal): set<TradeId> {
    set id | id in st.trades && id !in PmAt(proposal.portfolio, PV)
  }

  function Accepted(proposal: Proposal, st: CurrState, registry: Registry, portfolio: MetricMap): CurrResult {
    var missing := MissingFrom(st, proposal);
    CurrResult(
      st.(portfolio := portfolio, market := Some(proposal.market), trades := st.trades + missing,
          newTradesSinceMarket := 0),
      if st.market.Some? && st.market.value != proposal.market
        then InsertProcessor(registry, NAME, proposal.market) else registry,
      Some(portfolio),
      Some(Behind(proposal.market, missing)))
  }

  /** The proposed portfolio plus the missing trades priced on its market. */
  ghost function RepairSpec(pricer: Pricer, style: PricingStyle, book: Book, registry: Registry, metrics: seq<Metric>,
                            proposal: Proposal, missing: set<TradeId>): Option<MetricMap>
  {
    if proposal.market !in registry.markets || |missing * book.Keys| < |missing| then None
    else Some(AddPm(
      proposal.portfolio,
      PriceSpec(style, pricer, book, missing, metrics, registry.markets[proposal.market])))
  }

  ghost function OnProposal(pricer: Pricer, style: PricingStyle, book: Book, registry: Registry, st: CurrState,
                            proposal: Proposal): CurrResult
  {
    var missing := MissingFrom(st, proposal);
    if st.metrics == [] then Nothing(st, registry)
    else if |missing| >= ALLOW_BEHIND then CurrResult(st, registry, None, Some(Behind(proposal.market, missing)))
    else
      match RepairSpec(pricer, style, book, registry, st.metrics, proposal, missing)
      case None => Nothing(st, registry)
      case Some(portfolio) => Accepted(proposal, st, registry, portfolio)
  }

  ghost function OnMessage(pricer: Pricer, style: PricingStyle, mode: OperatingMode, book: Book, registry: Registry,
                           st: CurrState, msg: Message): CurrResult
  {
    match msg
    case NewTrade(id) => OnNewTrade(pricer, mode, book, registry, st, id)
    case NewTradePortfolio(proposal) => OnProposal(pricer, style, book, registry, st, proposal)
    case MetricChange(metrics) =>
      var portfolio := KeepMetrics(st.portfolio, metrics);
      CurrResult(st.(portfolio := portfolio, metrics := metrics), registry, Some(portfolio), None)
    case _ => Nothing(st, registry)
  }

  /** What becomes of a proposal, in any state.  Curr does nothing without metrics, and if the market or a
      known trade without a PV in the proposal cannot be found; it rejects the proposal if ten or more
      known trades have no PV in it; otherwise it takes over the proposal, its market and, on top, the value
      of these trades. */
  lemma ProposalOutcome(pricer: Pricer, style: PricingStyle, book: Book, registry: Registry, st: CurrState,
                        proposal: Proposal)
    ensures var r := OnProposal(pricer, style, book, registry, st, proposal);
            var lacking := set id | id in st.trades && (PV !in proposal.portfolio || id !in proposal.portfolio[PV]);
            if st.metrics == [] then r == CurrResult(st, registry, None, None)
            else if |lacking| >= 10 then r == CurrResult(st, registry, None, Some(Behind(proposal.market, lacking)))
            else if proposal.market !in registry.markets || !(lacking <= book.Keys) then
              r == CurrResult(st, registry, None, None)
            else
              && r.answer == Some(Behind(proposal.market, lacking)) && r.published == Some(r.st.portfolio)
              && r.st == CurrState(st.trades, r.st.portfolio, Some(proposal.market), st.metrics, 0)
              && forall m :: PmAt(r.st.portfolio, m) == Add(PmAt(proposal.portfolio, m), Times(multiset(st.metrics)[m],
                   SumOver(BookContribution(pricer, book, m, registry.markets[proposal.market]), lacking)))
  {
    hide PriceSpec, AddPm, InsertProcessor, SumOver, Add, Times;
    var lacking := MissingFrom(st, proposal);
    assert lacking == set id | id in st.trades && (PV !in proposal.portfolio || id !in proposal.portfolio[PV]);
    FoundAll(lacking, book);
    assert st.trades + lacking == st.trades;
    if proposal.market in registry.markets && lacking <= book.Keys {
      RepairedValue(pricer, style, book, st.metrics, proposal, lacking, registry.markets[proposal.market]);
    }
  }

  lemma RepairedValue(pricer: Pricer, style: PricingStyle, book: Book, metrics: seq<Metric>, proposal: Proposal,
                      lacking: set<TradeId>, market: Market)
    requires lacking <= book.Keys
    ensures var added := PriceSpec(style, pricer, book, lacking, metrics, market);
            forall m :: PmAt(AddPm(proposal.portfolio, added), m) == Add(PmAt(proposal.portfolio, m),
              Times(multiset(metrics)[m], SumOver(BookContribution(pricer, book, m, market), lacking)))
  {
    hide PriceSpec, AddPm, SumOver, Add, Times, PmAt;
    FoundAll(lacking, book);
    var added := PriceSpec(style, pricer, book, lacking, metrics, market);
    forall m
      ensures PmAt(AddPm(proposal.portfolio, added), m) == Add(PmAt(proposal.portfolio, m),
                Times(multiset(metrics)[m], SumOver(BookContribution(pricer, book, m, market), lacking)))
    {
      PmAtAdd(proposal.portfolio, added, m);
      PriceSpecValue(style, pricer, book, lacking, metrics, market, m);
    }
  }

  lemma FoundAll(ids: set<TradeId>, book: Book)
    ensures |ids * book.Keys| < |ids| <==> !(ids <= book.Keys)
    ensures ids <= book.Keys ==> ids * book.Keys == ids
  {
    assert ids == ids * book.Keys + (ids - book.Keys);
    assert |ids| == |ids * book.Keys| + |ids - book.Keys|;
    if !(ids <= book.Keys) {
      var id :| id in ids && id !in book.Keys;
      assert id in ids - book.Keys;
    }
  }

  /** A change of metrics keeps what is held, starts the rest empty, and is published. */
  lemma MetricChangeOutcome(pricer: Pricer, style: PricingStyle, mode: OperatingMode, book: Book, registry: Registry,
                            st: CurrState, metrics: seq<Metric>)
    ensures var r := OnMessage(pricer, style, mode, book, registry, st, MetricChange(metrics));
            && r.st == st.(portfolio := r.st.portfolio, metrics := metrics) && r.st.portfolio.Keys == MetricSet(metrics)
            && (forall m :: m in metrics ==> PmAt(r.st.portfolio, m) == PmAt(st.portfolio, m))
            && r.published == Some(r.st.portfolio) && r.registry == registry && r.answer == None
  {
  }

  class ProcessorCurr {
    const pricer: Pricer
    const style: PricingStyle
    const operatingMode: OperatingMode
    const allMarkets: AllMarkets
    const allTrades: TradeRep

    var trades: set<TradeId>
    var portfolio: PmPortfolio
    var currMarket: Option<string>
    var metrics: seq<Metric>
    var newTradesSinceMarket: nat

    ghost function View(): CurrState
      reads this, portfolio
    {
      CurrState(trades, portfolio.content, currMarket, metrics, newTradesSinceMarket)
    }

    constructor (pricer: Pricer, style: PricingStyle, operatingMode: OperatingMode, allMarkets: AllMarkets,
                 allTrades: TradeRep)
      ensures View() == INITIAL && fresh(portfolio)
      ensures this.pricer == pricer && this.style == style && this.operatingMode == operatingMode
      ensures this.allMarkets == allMarkets && this.allTrades == allTrades
    {
      this.pricer, this.style, this.operatingMode := pricer, style, operatingMode;
      this.allMarkets, this.allTrades := allMarkets, allTrades;
      trades, currMarket, metrics, newTradesSinceMarket := {}, None, [], 0;
      portfolio := new PmPortfolio();
    }

    method HandleNewTrade(id: TradeId) returns (published: Option<MetricMap>)
      modifies this, portfolio
      ensures portfolio == old(portfolio)
      ensures CurrResult(View(), allMarkets.Content(), published, None)
           == OnNewTrade(pricer, operatingMode, allTrades.trades, old(allMarkets.Content()), old(View()), id)
    {
      published := None;
      if operatingMode.SingleBuffer? {
        return;
      }
      newTradesSinceMarket := newTradesSinceMarket + 1;
      trades := trades + {id};
      if currMarket.None? || id !in allTrades.trades {
        return;
      }
      var market := allMarkets.Get(currMarket.value);
      if market.None? {
        return;
      }
      AddTradeToPresent(portfolio, pricer, allTrades.trades[id], metrics, market.value);
      published := Some(Published(portfolio.content, metrics));
    }

    /** The repaired portfolio, if the market is known and every missing trade can be found. */
    method Repair(proposal: Proposal, missing: set<TradeId>) returns (repaired: Option<MetricMap>)
      requires Keyed(allTrades.trades)
      ensures repaired == RepairSpec(pricer, style, allTrades.trades, allMarkets.Content(), metrics, proposal, missing)
    {
      var market := allMarkets.Get(proposal.market);
      if market.None? {
        return None;
      }
      var additionalTrades, additional :=
        PriceMultiple(style, pricer, allTrades.trades, missing, metrics, market.value);
      if |additionalTrades| < |missing| {
        return None;
      }
      var sum := new PmPortfolio.Of(proposal.portfolio);
      sum.AddAssignPm(additional);
      repaired := Some(sum.content);
    }

    method HandleProposal(proposal: Proposal) returns (published: Option<MetricMap>, answer: Option<Message>)
      requires Keyed(allTrades.trades)
      modifies this, allMarkets
      ensures portfolio == old(portfolio) || fresh(portfolio)
      ensures CurrResult(View(), allMarkets.Content(), published, answer)
           == OnProposal(pricer, style, allTrades.trades, old(allMarkets.Content()), old(View()), proposal)
    {
      hide RepairSpec;
      published, answer := None, None;
      if metrics == [] {
        return;
      }
      var fromPortfolio := PmAt(proposal.portfolio, PV);
      var missing := set id | id in trades && id !in fromPortfolio;
      assert missing == MissingFrom(View(), proposal);
      if |missing| < ALLOW_BEHIND {
        var repaired := Repair(proposal, missing);
        if repaired.None? {
          return;
        }
        newTradesSinceMarket := 0;
        portfolio := new PmPortfolio.Of(repaired.value);
        published := Some(portfolio.content);
        if currMarket.Some? && currMarket.value != proposal.market {
          allMarkets.InsertProcessorMarket(NAME, proposal.market);
        }
        trades := trades + missing;
        currMarket := Some(proposal.market);
      }
      answer := Some(Behind(proposal.market, missing));
    }

    method Handle(msg: Message) returns (published: Option<MetricMap>, answer: Option<Message>)
      requires Keyed(allTrades.trades)
      modifies this, portfolio, allMarkets
      ensures portfolio == old(portfolio) || fresh(portfolio)
      ensures CurrResult(View(), allMarkets.Content(), published, answer)
           == OnMessage(pricer, style, operatingMode, allTrades.trades, old(allMarkets.Content()), old(View()), msg)
    {
      published, answer := None, None;
      match msg
      case NewTrade(id) =>
        published := HandleNewTrade(id);
      case NewTradePortfolio(proposal) =>
        published, answer := HandleProposal(proposal);
      case MetricChange(newMetrics) =>
        portfolio.ChangeMetrics(newMetrics);
        metrics := newMetrics;
        published := Some(portfolio.content);
      case _ =>
    }
  }
}
