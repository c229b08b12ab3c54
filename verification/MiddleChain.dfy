/** Any number of stages of `ProcessorMiddle` (rt_server/src/processor_middle.rs) between `ProcessorNew`
    and `ProcessorCurr`: what becomes of a proposal that passes through them. */
module MiddleChain {
  import opened Wrappers
  import opened Portfolios
  import opened Trades
  import opened MarketRegistry
  import opened BulkPricing
  import opened Messages
  import opened ProcessorMiddleActor
  import New = ProcessorNewActor
  import Bulk = ProcessorBulkActor

  /** A middle stage as a proposal finds it, together with the registry at that moment. */
  datatype Stage = Stage(name: string, st: MiddleState, registry: Registry)

  /** What comes out below the last stage, if every stage forwards. */
  ghost function PassDown(pricer: Pricer, style: PricingStyle, book: Book, stages: seq<Stage>,
                          proposal: Proposal): Option<Proposal>
    decreases stages
  {
    if stages == [] then Some(proposal)
    else
      match OnProposal(pricer, style, book, stages[0].registry, stages[0].name, stages[0].st, proposal).below
      case None => None
      case Some(next) => PassDown(pricer, style, book, stages[1..], next)
  }

  /** All trades the stages know themselves. */
  function OwnTrades(stages: seq<Stage>): set<TradeId> {
    if stages == [] then {} else stages[0].st.trades + OwnTrades(stages[1..])
  }

  /** The stages price the given metrics, every trade is filed, and a registered market of the given
      name is the given one: a market may be pruned, but never replaced by another of its name. */
  ghost predicate Consistent(stages: seq<Stage>, metrics: seq<Metric>, book: Book, market: Market) {
    forall i :: 0 <= i < |stages| ==>
      && stages[i].st.metrics == metrics
      && stages[i].st.trades <= book.Keys
      && (market.name in stages[i].registry.markets ==> stages[i].registry.markets[market.name] == market)
  }

  /** One stage: a proposal that values the trades `covered` goes on to value, besides them, the
      stage's own trades that the proposal does not list. */
  lemma StageReconciles(pricer: Pricer, style: PricingStyle, book: Book, stage: Stage, proposal: Proposal,
                        covered: set<TradeId>, metrics: seq<Metric>, market: Market)
    requires Distinct(metrics) && Consistent([stage], metrics, book, market)
    requires proposal.market == market.name && covered <= proposal.trades
    requires Values(pricer, book, metrics, proposal.portfolio, covered, market)
    ensures var r := OnProposal(pricer, style, book, stage.registry, stage.name, stage.st, proposal);
            && (market.name in stage.registry.markets ==> r.below.Some?)
            && (r.below.Some? ==>
                 && r.below.value.market == market.name
                 && r.below.value.trades == proposal.trades + stage.st.trades
                 && Values(pricer, book, metrics, r.below.value.portfolio,
                           covered + (stage.st.trades - proposal.trades), market))
            && r.st.portfolio == (if r.below.Some? then r.below.value.portfolio else proposal.portfolio)
            && r.st.tradesSinceProposal == 0
  {
    assert [stage][0] == stage;
    InsertProcessorKeeps(stage.registry, stage.name, proposal.market);
    var missing := stage.st.trades - proposal.trades;
    if missing == {} {
      assert covered + missing == covered;
    } else if market.name in stage.registry.markets {
      RepairExtends(style, pricer, book, metrics, proposal.portfolio, covered, missing, market);
    }
  }

  /** The answer to the stage above names exactly the trades that the stage adds to the list, and with which the
      value grows. */
  lemma StageAnswers(pricer: Pricer, style: PricingStyle, book: Book, stage: Stage, proposal: Proposal)
    ensures var r := OnProposal(pricer, style, book, stage.registry, stage.name, stage.st, proposal);
            && r.above.Some? && r.above.value.Behind? && r.above.value.market == proposal.market
            && r.above.value.missing !! proposal.trades
            && proposal.trades + r.above.value.missing == proposal.trades + stage.st.trades == r.st.trades
            && (r.below.Some? ==> r.below.value.trades == proposal.trades + r.above.value.missing)
            && (r.below.None? ==> r.above.value.missing != {} && proposal.market !in r.registry.markets)
  {
    hide PriceSpec, AddPm, InsertProcessor;
  }

  /** Any number of stages, with whatever the registry holds when the proposal reaches each of them:
      what is forwarded values, on the proposal's own market, `covered` and the trades of the stages
      that the proposal did not list.  A trade that the proposal lists without valuing it is not
      repaired by any stage. */
  lemma {:induction false} ChainReconciles(pricer: Pricer, style: PricingStyle, book: Book, stages: seq<Stage>,
                                           proposal: Proposal,
                                           covered: set<TradeId>, metrics: seq<Metric>, market: Market)
    requires Distinct(metrics) && Consistent(stages, metrics, book, market)
    requires proposal.market == market.name && covered <= proposal.trades
    requires Values(pricer, book, metrics, proposal.portfolio, covered, market)
    ensures var out := PassDown(pricer, style, book, stages, proposal);
            && ((forall i :: 0 <= i < |stages| ==> market.name in stages[i].registry.markets) ==> out.Some?)
            && (out.Some? ==>
                 && out.value.market == market.name
                 && out.value.trades == proposal.trades + OwnTrades(stages)
                 && Values(pricer, book, metrics, out.value.portfolio,
                           covered + (OwnTrades(stages) - proposal.trades), market))
    decreases stages
  {
    if stages == [] {
      assert covered + (OwnTrades(stages) - proposal.trades) == covered;
    } else {
      hide OnProposal, Values, Consistent;
      FirstConsistent(stages, metrics, book, market);
      StageReconciles(pricer, style, book, stages[0], proposal, covered, metrics, market);
      var r := OnProposal(pricer, style, book, stages[0].registry, stages[0].name, stages[0].st, proposal);
      if r.below.Some? {
        var own, next := stages[0].st.trades, r.below.value;
        ChainReconciles(pricer, style, book, stages[1..], next, covered + (own - proposal.trades), metrics, market);
        OwnSplit(own, OwnTrades(stages[1..]), covered, proposal.trades);
      }
    }
  }

  lemma FirstConsistent(stages: seq<Stage>, metrics: seq<Metric>, book: Book, market: Market)
    requires Consistent(stages, metrics, book, market) && stages != []
    ensures Consistent([stages[0]], metrics, book, market) && Consistent(stages[1..], metrics, book, market)
  {
  }

  lemma OwnSplit(own: set<TradeId>, rest: set<TradeId>, covered: set<TradeId>, listed: set<TradeId>)
    ensures covered + (own - listed) + (rest - (listed + own)) == covered + (own + rest - listed)
    ensures listed + own + rest == listed + (own + rest)
  {
  }

  /** A proposal that exactly values its trades comes out exactly valuing the union of its trades and
      those of every stage, on the same market, as soon as that market is registered throughout. */
  lemma ChainIsExact(pricer: Pricer, style: PricingStyle, book: Book, stages: seq<Stage>, proposal: Proposal,
                     metrics: seq<Metric>, market: Market)
    requires Distinct(metrics) && Consistent(stages, metrics, book, market) && proposal.market == market.name
    requires Values(pricer, book, metrics, proposal.portfolio, proposal.trades, market)
    requires forall i :: 0 <= i < |stages| ==> market.name in stages[i].registry.markets
    ensures var out := PassDown(pricer, style, book, stages, proposal);
            && out.Some? && out.value.market == market.name
            && out.value.trades == proposal.trades + OwnTrades(stages)
            && Values(pricer, book, metrics, out.value.portfolio, out.value.trades, market)
  {
    ChainReconciles(pricer, style, book, stages, proposal, proposal.trades, metrics, market);
    assert proposal.trades + (OwnTrades(stages) - proposal.trades) == proposal.trades + OwnTrades(stages);
  }

  // ---------- A trade announced to a stage ----------

  /** What the stage forwards is what it held plus the trade, on every metric it holds: nothing guards
      against a trade that a proposal has brought already.  The result is exact if and only if the
      trade was not valued yet or is zero on every key; a metric the stage does not hold misses the
      trade. */
  lemma AnnouncedTrade(pricer: Pricer, book: Book, stage: Stage, id: TradeId, covered: set<TradeId>, market: Market,
                       m: Metric)
    requires Distinct(stage.st.metrics) && m in stage.st.metrics && id in book
    requires Consistent([stage], stage.st.metrics, book, market) && market.name in stage.registry.markets
    requires stage.st.market == Some(market.name)
    requires Values(pricer, book, stage.st.metrics, stage.st.portfolio, covered, market)
    ensures var r := OnNewTrade(pricer, book, stage.registry, stage.st, id);
            var f := BookContribution(pricer, book, m, market);
            && r.below.Some? && r.below.value.market == market.name && r.below.value.trades == stage.st.trades + {id}
            && r.st.portfolio == r.below.value.portfolio
            && r.st.tradesSinceProposal == stage.st.tradesSinceProposal + 1
            && (PmAt(r.below.value.portfolio, m) == SumOver(f, covered + {id}) <==>
                 if m in stage.st.portfolio then id !in covered || forall k :: k in f(id) ==> f(id)[k] == 0.0
                 else id in covered || f(id) == map[])
  {
    hide Consistent, SumOver;
    var f := BookContribution(pricer, book, m, market);
    var delta := TradeDelta(pricer, book[id], stage.st.metrics, market);
    StageMarket(stage, book, market);
    AddToPresentKeys(stage.st.portfolio, stage.st.metrics, delta);
    OneMore(f, covered, id);
    if m in stage.st.portfolio {
      AddToPresentValue(stage.st.portfolio, stage.st.metrics, delta, m);
      DistinctCounts(stage.st.metrics, m);
      TimesOne(PmAt(delta, m));
    }
  }

  lemma StageMarket(stage: Stage, book: Book, market: Market)
    requires Consistent([stage], stage.st.metrics, book, market) && market.name in stage.registry.markets
    ensures stage.registry.markets[market.name] == market && stage.st.trades <= book.Keys
  {
    assert [stage][0] == stage;
  }

  lemma OneMore(f: TradeId -> Portfolio, covered: set<TradeId>, id: TradeId)
    ensures id !in covered ==> SumOver(f, covered + {id}) == Add(SumOver(f, covered), f(id))
    ensures Add(SumOver(f, covered), f(id)) == SumOver(f, covered + {id}) <==>
      id !in covered || forall k :: k in f(id) ==> f(id)[k] == 0.0
    ensures id in covered ==> SumOver(f, covered + {id}) == SumOver(f, covered)
    ensures SumOver(f, covered) == map[] && id !in covered ==> SumOver(f, covered + {id}) == f(id)
  {
    if id in covered {
      assert covered + {id} == covered;
      SumPick(f, covered, id);
      AddNothingIff(SumOver(f, covered), f(id));
    } else {
      SumInsert(f, covered, id);
      AddEmpty(f(id));
    }
  }

  /** A new trade announced to a stage that values all it knows leaves the rest of the chain, with the
      trades of the stages below, on that stage's market: exactly once each. */
  lemma AnnouncedTradeDown(pricer: Pricer, style: PricingStyle, book: Book, stage: Stage, below: seq<Stage>,
                           id: TradeId, metrics: seq<Metric>, market: Market)
    requires Distinct(metrics) && metrics != [] && Consistent([stage], metrics, book, market)
    requires Consistent(below, metrics, book, market) && id in book
    requires stage.st.market == Some(market.name) && id !in stage.st.trades
    requires forall m :: m in metrics ==> m in stage.st.portfolio
    requires Values(pricer, book, metrics, stage.st.portfolio, stage.st.trades, market)
    requires market.name in stage.registry.markets
    requires forall i :: 0 <= i < |below| ==> market.name in below[i].registry.markets
    ensures var r := OnNewTrade(pricer, book, stage.registry, stage.st, id);
            && r.below.Some?
            && var out := PassDown(pricer, style, book, below, r.below.value);
               && out.Some? && out.value.market == market.name
               && out.value.trades == stage.st.trades + {id} + OwnTrades(below)
               && Values(pricer, book, metrics, out.value.portfolio, out.value.trades, market)
  {
    hide PassDown, SumOver;
    StageMetrics(stage, metrics, book, market);
    hide Consistent;
    AnnouncedTrade(pricer, book, stage, id, stage.st.trades, market, metrics[0]);
    var offer := OnNewTrade(pricer, book, stage.registry, stage.st, id).below.value;
    forall m | m in metrics
      ensures PmAt(offer.portfolio, m) == SumOver(BookContribution(pricer, book, m, market), offer.trades)
    {
      AnnouncedTrade(pricer, book, stage, id, stage.st.trades, market, m);
    }
    ChainIsExact(pricer, style, book, below, offer, metrics, market);
  }

  lemma StageMetrics(stage: Stage, metrics: seq<Metric>, book: Book, market: Market)
    requires Consistent([stage], metrics, book, market)
    ensures stage.st.metrics == metrics
  {
    assert [stage][0] == stage;
  }

  /** An answer that finds no stored market sends the stage back to the market of the answer, where it
      prices all it knows; nothing is offered below. */
  lemma AnsweredWithoutMarket(pricer: Pricer, style: PricingStyle, book: Book, stage: Stage, ids: set<TradeId>,
                              metrics: seq<Metric>, market: Market)
    requires Distinct(metrics) && Consistent([stage], metrics, book, market) && ids != {} && ids <= book.Keys
    requires stage.st.market.None? || stage.st.market.value !in stage.registry.markets
    ensures var r := OnBehind(pricer, style, book, stage.registry, stage.name, stage.st, market.name, ids);
            && r.below.None? && r.st.market == Some(market.name) && r.st.trades == stage.st.trades + ids
            && (market.name in stage.registry.markets ==>
                 Values(pricer, book, metrics, r.st.portfolio, r.st.trades, market))
  {
    assert [stage][0] == stage;
    InsertProcessorKeeps(stage.registry, stage.name, market.name);
    hide PriceSpec, Values, InsertProcessor;
    PricedIsExact(pricer, style, book, stage.st.trades + ids, metrics, market);
  }

  lemma PricedIsExact(pricer: Pricer, style: PricingStyle, book: Book, ids: set<TradeId>, metrics: seq<Metric>,
                      market: Market)
    requires Distinct(metrics) && ids <= book.Keys
    ensures Values(pricer, book, metrics, PriceSpec(style, pricer, book, ids, metrics, market), ids, market)
  {
    assert ids * book.Keys == ids;
    var priced := PriceSpec(style, pricer, book, ids, metrics, market);
    forall m | m in metrics ensures PmAt(priced, m) == SumOver(BookContribution(pricer, book, m, market), ids) {
      PriceSpecValue(style, pricer, book, ids, metrics, market, m);
      DistinctCounts(metrics, m);
      TimesOne(SumOver(BookContribution(pricer, book, m, market), ids));
    }
  }

  // ---------- Trades listed but not valued ----------

  /** The proposal leaves the chain valuing all the trades it lists exactly if those that it listed
      without valuing them would add nothing: on keys that the other trades hold anyway, and zero on
      them. */
  lemma ChainValuesAllIff(pricer: Pricer, style: PricingStyle, book: Book, stages: seq<Stage>, proposal: Proposal,
                          covered: set<TradeId>, metrics: seq<Metric>, market: Market, m: Metric)
    requires Distinct(metrics) && Consistent(stages, metrics, book, market) && m in metrics
    requires proposal.market == market.name && covered <= proposal.trades
    requires Values(pricer, book, metrics, proposal.portfolio, covered, market)
    requires PassDown(pricer, style, book, stages, proposal).Some?
    ensures var out := PassDown(pricer, style, book, stages, proposal).value;
            var lost := SumOver(BookContribution(pricer, book, m, market), proposal.trades - covered);
            var valued := covered + (OwnTrades(stages) - proposal.trades);
            && SumOver(BookContribution(pricer, book, m, market), out.trades) == Add(PmAt(out.portfolio, m), lost)
            && (PmAt(out.portfolio, m) == SumOver(BookContribution(pricer, book, m, market), out.trades) <==>
                 && lost.Keys <= SumOver(BookContribution(pricer, book, m, market), valued).Keys
                 && forall k :: k in lost ==> lost[k] == 0.0)
  {
    hide PassDown, Consistent, SumOver;
    var f := BookContribution(pricer, book, m, market);
    var own := OwnTrades(stages) - proposal.trades;
    ChainReconciles(pricer, style, book, stages, proposal, covered, metrics, market);
    var out := PassDown(pricer, style, book, stages, proposal).value;
    assert out.trades == (covered + own) + (proposal.trades - covered);
    SumUnion(f, covered + own, proposal.trades - covered);
    AddNothingIff(PmAt(out.portfolio, m), SumOver(f, proposal.trades - covered));
  }

  /** PV holds exactly the trades that have a price. */
  lemma SumKeysPV(pricer: Pricer, book: Book, market: Market, ids: set<TradeId>, k: TradeId)
    requires Keyed(book)
    ensures k in SumOver(BookContribution(pricer, book, PV, market), ids) <==>
      k in ids && k in book && pricer.price(book[k], market).Some?
  {
    var f := BookContribution(pricer, book, PV, market);
    SumKeys(f, ids, k);
    forall id | id in ids && id in book
      ensures f(id).Keys == if pricer.price(book[id], market).Some? then {id} else {}
    {
      ContributionKeys(pricer, book[id], market);
    }
    if k in ids && k in book && pricer.price(book[k], market).Some? {
      assert k in f(k);
    }
  }

  /** For PV this is simply: no trade that the proposal listed without valuing it has a price. */
  lemma ChainValuesAllPVIff(pricer: Pricer, style: PricingStyle, book: Book, stages: seq<Stage>, proposal: Proposal,
                            covered: set<TradeId>, metrics: seq<Metric>, market: Market)
    requires Keyed(book) && PV in metrics
    requires Distinct(metrics) && Consistent(stages, metrics, book, market)
    requires proposal.market == market.name && covered <= proposal.trades
    requires Values(pricer, book, metrics, proposal.portfolio, covered, market)
    requires PassDown(pricer, style, book, stages, proposal).Some?
    ensures var out := PassDown(pricer, style, book, stages, proposal).value;
            PmAt(out.portfolio, PV) == SumOver(BookContribution(pricer, book, PV, market), out.trades) <==>
              forall id :: id in proposal.trades - covered && id in book ==> pricer.price(book[id], market).None?
  {
    hide PassDown, Consistent, SumOver;
    var f := BookContribution(pricer, book, PV, market);
    var own, lost := OwnTrades(stages) - proposal.trades, proposal.trades - covered;
    ChainReconciles(pricer, style, book, stages, proposal, covered, metrics, market);
    ChainValuesAllIff(pricer, style, book, stages, proposal, covered, metrics, market, PV);
    var out := PassDown(pricer, style, book, stages, proposal).value;
    assert PmAt(out.portfolio, PV) == SumOver(f, covered + own);
    forall k
      ensures k in SumOver(f, lost) <==> k in lost && k in book && pricer.price(book[k], market).Some?
      ensures k in SumOver(f, covered + own) ==> k in covered + own
    {
      SumKeysPV(pricer, book, market, lost, k);
      SumKeysPV(pricer, book, market, covered + own, k);
    }
    assert lost !! covered + own;
  }

  /** Such a proposal is what `ProcessorNew` really sends: a trade arrives while a bulk on other trades
      is outstanding, then the result comes in and is offered below. */
  lemma LateTradeIsListedNotValued(pricer: Pricer, style: PricingStyle, book: Book, registry: Registry,
                                   st: New.NewState,
                                   late: TradeId, offending: set<TradeId>, market: Market)
    requires st.mode.CalculatingBulk? && late !in st.trades && late in book && Distinct(st.metrics)
    requires st.portfolio == map[] && st.trades <= book.Keys
    ensures var asked := st.trades;
            var waiting := New.OnMessage(pricer, book, registry, st, NewTrade(late)).st;
            var priced := PriceSpec(style, pricer, book, asked, st.metrics, market);
            var result := BulkReceive(asked, priced, offending, market.name);
            var sent := New.OnMessage(pricer, book, registry, waiting, result).below;
            && |sent| == 1 && sent[0].market == market.name && sent[0].trades == asked + {late}
            && Values(pricer, book, st.metrics, sent[0].portfolio, asked, market)
  {
    var asked := st.trades;
    var priced := PriceSpec(style, pricer, book, asked, st.metrics, market);
    PricedIsExact(pricer, style, book, asked, st.metrics, market);
    assert AssignPm(map[], priced) == priced;
  }

  /** ... and no number of stages repairs it, even if all of them know the trade: it arrives at Curr
      listed, and if it has a price, without that price. */
  lemma {:induction false} LateTradeStaysLost(pricer: Pricer, style: PricingStyle, book: Book, registry: Registry,
                                              st: New.NewState, late: TradeId, offending: set<TradeId>,
                                              market: Market, stages: seq<Stage>)
    requires st.mode.CalculatingBulk? && late !in st.trades && late in book && Distinct(st.metrics) && PV in st.metrics
    requires st.portfolio == map[] && st.trades <= book.Keys && Keyed(book)
    requires Consistent(stages, st.metrics, book, market)
    requires forall i :: 0 <= i < |stages| ==> market.name in stages[i].registry.markets
    requires pricer.price(book[late], market).Some?
    ensures var waiting := New.OnMessage(pricer, book, registry, st, NewTrade(late)).st;
            var priced := PriceSpec(style, pricer, book, st.trades, st.metrics, market);
            var result := BulkReceive(st.trades, priced, offending, market.name);
            var sent := New.OnMessage(pricer, book, registry, waiting, result).below;
            && |sent| == 1
            && var out := PassDown(pricer, style, book, stages, sent[0]);
            && out.Some? && late in out.value.trades && late !in PmAt(out.value.portfolio, PV)
  {
    hide PassDown, Consistent, SumOver, PriceSpec;
    LateTradeIsListedNotValued(pricer, style, book, registry, st, late, offending, market);
    var waiting := New.OnMessage(pricer, book, registry, st, NewTrade(late)).st;
    var priced := PriceSpec(style, pricer, book, st.trades, st.metrics, market);
    var result := BulkReceive(st.trades, priced, offending, market.name);
    var sent := New.OnMessage(pricer, book, registry, waiting, result).below[0];
    ChainReconciles(pricer, style, book, stages, sent, st.trades, st.metrics, market);
    SumKeysPV(pricer, book, market, st.trades + (OwnTrades(stages) - sent.trades), late);
  }

  // ---------- Bulks that miss something ----------

  /** A bulk on ids that are not all filed: New goes back to single pricing with the exact value of the filed
      ones, and remembers the others as not priced. */
  lemma UnfiledRemembered(pricer: Pricer, style: PricingStyle, book: Book, registry: Registry, st: New.NewState,
                          market: Market)
    requires st.portfolio == map[] && Distinct(st.metrics)
    requires market.name in registry.markets && registry.markets[market.name] == market
    ensures var asked := BulkRequest(market.name, st.trades, st.metrics);
            var reply := Bulk.OnNewBulk(pricer, style, book, registry, asked).reply;
            var r := New.OnMessage(pricer, book, registry, st, reply);
            && r.st.mode.CalculatingSingle? && r.st.market == Some(market.name)
            && r.st.notPricing == st.notPricing + multiset(st.trades - book.Keys)
            && Values(pricer, book, st.metrics, r.st.portfolio, st.trades * book.Keys, market)
            && r.below == [Proposal(st.trades, r.st.portfolio, market.name)]
  {
    hide PriceSpec, Values, SumOver, AssignPm, InsertProcessor;
    RegisteredIs(registry, market);
    PricedAsFound(pricer, style, book, st.trades, st.metrics, market);
    LastAssignmentWins(map[], PriceSpec(style, pricer, book, st.trades, st.metrics, market), map[]);
    assert st.trades + st.trades == st.trades;
  }

  lemma RegisteredIs(registry: Registry, market: Market)
    requires market.name in registry.markets && registry.markets[market.name] == market
    ensures var after := InsertProcessor(registry, Bulk.NAME, market.name);
            market.name in after.markets && after.markets[market.name] == market
  {
    InsertProcessorKeeps(registry, Bulk.NAME, market.name);
  }

  lemma PricedAsFound(pricer: Pricer, style: PricingStyle, book: Book, ids: set<TradeId>, metrics: seq<Metric>,
                      market: Market)
    requires Distinct(metrics)
    ensures Values(pricer, book, metrics, PriceSpec(style, pricer, book, ids, metrics, market), ids * book.Keys, market)
  {
    hide PriceSpec, SumOver;
    forall m | m in metrics
      ensures PmAt(PriceSpec(style, pricer, book, ids, metrics, market), m)
           == SumOver(BookContribution(pricer, book, m, market), ids * book.Keys)
    {
      PriceSpecValue(style, pricer, book, ids, metrics, market, m);
      DistinctCounts(metrics, m);
      TimesOne(SumOver(BookContribution(pricer, book, m, market), ids * book.Keys));
    }
  }

  /** A bulk on a market that is not stored prices nothing; New goes on with an empty portfolio. */
  lemma MarketMissing(pricer: Pricer, style: PricingStyle, book: Book, registry: Registry, st: New.NewState,
                      name: string)
    requires st.portfolio == map[] && name !in registry.markets
    ensures var reply := Bulk.OnNewBulk(pricer, style, book, registry, BulkRequest(name, st.trades, st.metrics)).reply;
            var r := New.OnMessage(pricer, book, registry, st, reply);
            && r.st == st.(market := Some(name), mode := New.CalculatingSingle)
            && r.below == [Proposal(st.trades, map[], name)]
  {
    LastAssignmentWins(map[], map[], map[]);
    assert st.trades + st.trades == st.trades;
    assert st.notPricing + multiset({}) == st.notPricing;
  }

  /** Without a published market New has nothing to switch to: it drops its portfolio and carries on. */
  lemma NothingPublished(pricer: Pricer, book: Book, registry: Registry, st: New.NewState, name: string)
    requires st.mode.CalculatingSingle? && FUTURE !in registry.markets
    ensures var r := New.OnMessage(pricer, book, registry, st, NewMarket(name));
            r.st == st.(portfolio := map[]) && r.registry == registry && r.below == [] && r.bulk == []
  {
  }
}
