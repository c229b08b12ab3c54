/** Two runs after which Curr has received a trade and does not count it, until the next proposal. */
module UncountedTrades {
  import opened Wrappers
  import opened Portfolios
  import opened Trades
  import opened MarketRegistry
  import opened BulkPricing
  import opened Messages
  import opened Pipeline
  import opened PipelineInvariant
  import opened PipelineSteps
  import opened PipelineTheorems
  import opened PipelineRuns
  import New = ProcessorNewActor
  import Bulk = ProcessorBulkActor
  import Curr = ProcessorCurrActor

  // ---------- The market of Curr is dropped ----------

  /** After the warm-up a second tick arrives; New switches to its market and has its bulk started.  Then
      a trade arrives and is announced to Curr. */
  const DROPPED: seq<Event> := WARM_UP + [
    RunNew, TickArrives, NotifyMarket, RunNew, RunBulk, TradeArrives, SendToCurr, RunCurr]

  lemma ToSecondMarket(u: Setup)
    requires Legal(u) && u.mode.DoubleBuffer?
    ensures var s, p := StateAt(u, DROPPED, 10), PositionOf(StateAt(u, DROPPED, 10));
            && p.bulkBox == [u.marketName(2)] && p.users == FirstUsers(u)[New.NAME := u.marketName(2)]
            && p.currMarket == Some(u.marketName(1)) && p.currTrades == {} && p.currNote == Note(1, {})
            && p.currBox == []
            && p.arrived == p.sentCurr == p.sentNew == 0 && UpToDate(s)
  {
    hide Inv, Legal, OnRunNew, Kinds, Requested, StateAt, Init, First;
    AfterWarmUp(u, DROPPED);
    Advance(u, DROPPED, 6);
    FirstKind(StateAt(u, DROPPED, 6).newBox);
    BehindStep(u, StateAt(u, DROPPED, 6));
    Advance(u, DROPPED, 7);
    TickStep(u, StateAt(u, DROPPED, 7));
    Advance(u, DROPPED, 8);
    NotifyStep(u, StateAt(u, DROPPED, 8));
    Advance(u, DROPPED, 9);
    var s := StateAt(u, DROPPED, 9);
    FirstKind(s.newBox);
    NoBox(s.currBox);
    MarketStep(u, s);
  }

  /** Curr has never registered the market it holds, so that the bulk actor's registration of the next
      one drops it. */
  lemma MarketPruned(u: Setup)
    requires Legal(u) && u.mode.DoubleBuffer?
    ensures var s, p := StateAt(u, DROPPED, 11), PositionOf(StateAt(u, DROPPED, 11));
            && u.marketName(1) !in s.registry.markets
            && p.currMarket == Some(u.marketName(1)) && p.currTrades == {} && p.currNote == Note(1, {})
            && p.currBox == []
            && p.arrived == p.sentCurr == p.sentNew == 0 && UpToDate(s)
  {
    hide Inv, Legal, OnRunBulk, Kinds, Requested, StateAt, Init, First;
    ToSecondMarket(u);
    Advance(u, DROPPED, 10);
    var s := StateAt(u, DROPPED, 10);
    RequestedAppend(s.bulkBox, BulkRequest("", {}, []));
    BulkStep(u, s);
    var t := StateAt(u, DROPPED, 11);
    assert t.registry.users == map[New.NAME := u.marketName(2), Bulk.NAME := u.marketName(2)];
    OnlySecondStored(u, t.registry);
  }

  lemma MarketDropped(u: Setup)
    requires Legal(u) && u.mode.DoubleBuffer?
    ensures var s := StateAt(u, DROPPED, 13);
            && s.currBox != [] && s.currBox[0].msg.NewTrade? && s.currSt.trades == {} && s.currNote == Note(1, {})
            && s.currSt.market == Some(u.marketName(1)) && u.marketName(1) !in s.registry.markets
            && PositionOf(s).currBox == [OfTrade] && UpToDate(s) && s.sentCurr == 1
  {
    hide Inv, Legal, Kinds, Requested, StateAt, Init, First;
    MarketPruned(u);
    Advance(u, DROPPED, 11);
    ArrivalStep(u, StateAt(u, DROPPED, 11));
    Advance(u, DROPPED, 12);
    SendToCurrStep(u, StateAt(u, DROPPED, 12));
    FirstKind(StateAt(u, DROPPED, 13).currBox);
  }

  lemma OnlySecondStored(u: Setup, registry: Registry)
    requires Legal(u) && NoLeak(registry)
    requires registry.users == map[New.NAME := u.marketName(2), Bulk.NAME := u.marketName(2)]
    ensures u.marketName(1) !in registry.markets
  {
    forall p | p in registry.users ensures registry.users[p] == u.marketName(2) {
    }
    assert u.marketName(1) != u.marketName(2) && u.marketName(1) != FUTURE;
  }

  lemma TheTrade(u: Setup, s: System)
    requires Legal(u) && Inv(u, {}, s) && u.mode.DoubleBuffer? && s.currBox != [] && s.currBox[0].msg.NewTrade?
    requires s.sentCurr == 1
    ensures s.currBox[0].msg.id == u.tradeId(0)
  {
    MailReceive(u, {}, s.currBox, s.currHandled, s.sentCurr, s.currNote, s.frontier);
  }

  /** In every legal double-buffer pipeline and under every strategy: after this run Curr knows the trade
      and does not count it. */
  lemma DroppedMarketUncounted(u: Setup)
    requires Legal(u) && u.mode.DoubleBuffer?
    ensures var s := Exec(u, Init(u), DROPPED);
            && s.currSt.trades == {u.tradeId(0)} && s.currNote == Note(1, {})
            && s.currSt.market == Some(u.marketName(1))
            && u.marketName(1) !in Exec(u, Init(u), DROPPED[..13]).registry.markets
  {
    hide Inv, Legal, OnRunCurr, Kinds, Requested, StateAt, Init, First, Exec;
    WholeRun(u, DROPPED);
    StateAtIs(u, DROPPED, 13);
    MarketDropped(u);
    Advance(u, DROPPED, 13);
    TheTrade(u, StateAt(u, DROPPED, 13));
    TradeCountedIff(u, DROPPED[..13]);
    CurrTradeStep(u, StateAt(u, DROPPED, 13));
  }

  // ---------- Curr holds no metric ----------

  /** After the warm-up the first trade arrives and is announced to Curr. */
  const EMPTY: seq<Event> := WARM_UP + [TradeArrives, SendToCurr, RunCurr]

  lemma EmptyReply(u: Setup, s: System)
    requires u.style.Sequential? && s.bulkBox != [] && s.bulkBox[0].trades == {} && Kinds(s.newBox) == []
    ensures var t := OnRunBulk(u, s);
            t.newBox != [] && t.newBox[0].msg.BulkReceive? && t.newBox[0].msg.portfolio == map[]
  {
    assert {} * s.book.Keys == {};
    NoBox(s.newBox);
  }

  lemma EmptyOffer(u: Setup, s: System)
    requires Legal(u) && Inv(u, {}, s) && s.newBox != [] && s.newBox[0].msg.BulkReceive?
    requires s.newBox[0].msg.portfolio == map[] && s.newSt.portfolio == map[] && Kinds(s.currBox) == []
    ensures var t := OnRunNew(u, s);
            && t.currBox != [] && t.currBox[0].msg.NewTradePortfolio? && t.currBox[0].msg.proposal.portfolio == map[]
  {
    hide OnRunNew, Inv;
    RunNewIs(u, s);
    NoBox(s.currBox);
    assert AssignPm(map[], map[]) == map[];
  }

  /** Nothing to value and nothing missing. */
  lemma EmptyAcceptance(u: Setup, s: System)
    requires u.style.Sequential? && s.currBox != [] && s.currBox[0].msg.NewTradePortfolio?
    requires s.currBox[0].msg.proposal.portfolio == map[] && s.currSt.trades == {}
    requires |OnRunCurr(u, s).published| > |s.published|
    ensures OnRunCurr(u, s).currSt.portfolio == map[]
  {
    hide OnRunCurr;
    ProposalResult(u, s);
    NothingMissing(u, s.book, s.registry, s.currSt, s.currBox[0].msg.proposal);
  }

  lemma NothingMissing(u: Setup, book: Book, registry: Registry, st: Curr.CurrState, p: Proposal)
    requires u.style.Sequential? && p.portfolio == map[] && st.trades == {}
    ensures var r := Curr.OnProposal(u.pricer, u.style, book, registry, st, p);
            r.published.Some? ==> r.st.portfolio == map[]
  {
    assert {} * book.Keys == {};
    assert Curr.MissingFrom(st, p) == {};
    assert AddPm(map[], map[]) == map[];
  }

  lemma ToEmptyOffer(u: Setup)
    requires Legal(u) && u.mode.DoubleBuffer? && u.style.Sequential?
    ensures var s := StateAt(u, EMPTY, 5);
            && s.currBox != [] && s.currBox[0].msg.NewTradePortfolio? && s.currBox[0].msg.proposal.portfolio == map[]
  {
    hide Inv, Legal, OnRunNew, OnRunBulk, Kinds, Requested, StateAt, Init, First;
    ToMarket(u, EMPTY);
    Advance(u, EMPTY, 3);
    var s := StateAt(u, EMPTY, 3);
    RequestedAppend(s.bulkBox, BulkRequest("", {}, []));
    RequestOfNothing(u, s);
    BulkStep(u, s);
    EmptyReply(u, s);
    Advance(u, EMPTY, 4);
    Facts(u, {}, StateAt(u, EMPTY, 4));
    EmptyOffer(u, StateAt(u, EMPTY, 4));
  }

  lemma RequestOfNothing(u: Setup, s: System)
    requires Inv(u, {}, s) && s.bulkBox != [] && s.frontier.covered == {}
    ensures s.bulkBox[0].trades == {}
  {
    hide RegistryOk, BookOk, Fifo, NewMarketOk, NewTradesOk, NewPortfolioOk, MailOk, CurrOk, PublishedOk;
  }

  /** In every legal double-buffer pipeline with the sequential strategy: after this run Curr knows the
      trade and does not count it, although its market is still stored. */
  lemma EmptyBulkUncounted(u: Setup)
    requires Legal(u) && u.mode.DoubleBuffer? && u.style.Sequential?
    ensures var s := Exec(u, Init(u), EMPTY);
            && s.currSt.trades == {u.tradeId(0)} && s.currNote == Note(1, {}) && s.currSt.portfolio == map[]
  {
    hide Inv, Legal, OnRunCurr, Kinds, Requested, StateAt, Init, First, Exec;
    WholeRun(u, EMPTY);
    StateAtIs(u, EMPTY, 8);
    ToEmptyOffer(u);
    ToFirstProposal(u, EMPTY);
    Advance(u, EMPTY, 5);
    FirstAcceptStep(u, StateAt(u, EMPTY, 5));
    AcceptStep(u, StateAt(u, EMPTY, 5));
    EmptyAcceptance(u, StateAt(u, EMPTY, 5));
    Advance(u, EMPTY, 6);
    ArrivalStep(u, StateAt(u, EMPTY, 6));
    Advance(u, EMPTY, 7);
    SendToCurrStep(u, StateAt(u, EMPTY, 7));
    var s := StateAt(u, EMPTY, 8);
    FirstKind(s.currBox);
    Advance(u, EMPTY, 8);
    TheTrade(u, s);
    TradeCountedIff(u, EMPTY[..8]);
    CurrTradeStep(u, s);
    EmptyStaysEmpty(u, s);
  }

  lemma EmptyStaysEmpty(u: Setup, s: System)
    requires s.currBox != [] && s.currBox[0].msg.NewTrade? && s.currSt.portfolio == map[]
    ensures OnRunCurr(u, s).currSt.portfolio == map[]
  {
    hide OnRunCurr;
    TradeResult(u, s);
    var r := Curr.OnNewTrade(u.pricer, u.mode, s.book, s.registry, s.currSt, s.currBox[0].msg.id);
    NothingPresent(u, s.book, s.registry, s.currSt, s.currBox[0].msg.id);
  }

  lemma NothingPresent(u: Setup, book: Book, registry: Registry, st: Curr.CurrState, id: TradeId)
    requires st.portfolio == map[]
    ensures Curr.OnNewTrade(u.pricer, u.mode, book, registry, st, id).st.portfolio == map[]
  {
    if id in book && st.market.Some? && st.market.value in registry.markets {
      AddToPresentKeys(map[], st.metrics,
                       TradeDelta(u.pricer, book[id], st.metrics, registry.markets[st.market.value]));
    }
  }
}
