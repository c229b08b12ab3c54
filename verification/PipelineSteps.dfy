/** The invariant of the pipeline is kept by every message handled by New, the bulk actor and Curr. */
module PipelineSteps {
  import opened Wrappers
  import opened Portfolios
  import opened Trades
  import opened MarketRegistry
  import opened BulkPricing
  import opened Messages
  import opened Pipeline
  import opened PipelineInvariant
  import New = ProcessorNewActor
  import Bulk = ProcessorBulkActor
  import Curr = ProcessorCurrActor

  // ---------- The bulk actor ----------

  /** The requested market is there, so the result is the exact value of what was asked for. */
  lemma BulkReplyOk(u: Setup, book: Book, registry: Registry, version: nat, market: Option<string>, frontier: Note)
    requires Legal(u) && RegistryOk(u, registry, version) && NewMarketOk(u, registry, market, frontier) && market.Some?
    requires frontier.covered <= book.Keys && forall id :: id in book ==> book[id] == u.trade(id)
    ensures var req := BulkRequest(u.marketName(frontier.version), frontier.covered, u.metrics);
            var r := Bulk.OnNewBulk(u.pricer, u.style, book, registry, req);
            req.market in r.registry.markets && r.reply.BulkReceive? && NewMessageOk(u, frontier, r.reply)
  {
    var name := u.marketName(frontier.version);
    RegistrationKeepsRegistryOk(u, registry, version, Bulk.NAME, name);
    RegistrationKeepsNewMarket(u, registry, market, frontier, Bulk.NAME, name);
    var registry' := InsertProcessor(registry, Bulk.NAME, name);
    assert name in registry'.markets && registry'.markets[name] == Snapshot(u, frontier.version);
    PricingIsExact(u, book, frontier.covered, frontier.version);
    assert frontier.covered - book.Keys == {};
  }

  lemma HandshakeReply(u: Setup, mode: New.Mode, bulkBox: seq<BulkRequest>, newBox: seq<Envelope>, frontier: Note,
                       e: Envelope)
    requires HandshakeOk(u, mode, bulkBox, newBox, frontier) && bulkBox != []
    requires e.msg.BulkReceive? && NewMessageOk(u, frontier, e.msg)
    ensures mode.CalculatingBulk?
      && bulkBox == [BulkRequest(u.marketName(frontier.version), frontier.covered, u.metrics)]
    ensures HandshakeOk(u, mode, bulkBox[1..], newBox + [e], frontier)
  {
    ReceivesSend(newBox, e);
  }

  /** Some plain consequences of the invariant. */
  lemma Facts(u: Setup, ms: set<Metric>, s: System)
    requires Inv(u, ms, s)
    ensures s.newSt.trades <= First(u, s.sentNew) <= First(u, s.sentCurr) <= s.book.Keys
    ensures s.frontier.covered <= s.newSt.trades && s.frontier.version <= s.version
    ensures s.newSt.mode.CalculatingBulk? ==> s.newSt.market.Some? && s.newSt.portfolio == map[]
    ensures s.newSt.market.Some? ==> s.newSt.market.value == u.marketName(s.frontier.version)
    ensures s.newSt.metrics == u.metrics
    ensures FUTURE in s.registry.markets && s.registry.markets[FUTURE] == Snapshot(u, s.version)
    ensures s.newHandled <= s.sentNew <= s.sentCurr <= s.arrived && s.currHandled <= s.sentCurr
  {
    FirstGrows(u, s.newHandled, s.sentNew);
    FirstGrows(u, s.sentNew, s.sentCurr);
    FirstGrows(u, s.sentCurr, s.arrived);
    assert s.registry.Get(FUTURE) == Some(Snapshot(u, s.version));
  }

  lemma BookFacts(u: Setup, book: Book, arrived: nat, sentCurr: nat, sentNew: nat)
    requires BookOk(u, book, arrived, sentCurr, sentNew)
    ensures book.Keys == First(u, arrived) && forall id :: id in book ==> book[id] == u.trade(id)
  {
  }

  lemma RunBulkInv(u: Setup, ms: set<Metric>, s: System)
    requires Legal(u) && Inv(u, ms, s) && s.bulkBox != []
    ensures Inv(u, ms, OnRunBulk(u, s))
  {
    hide Legal, RegistryOk, Fifo, NewMarketOk, NewTradesOk, MailOk, CurrOk, PublishedOk;
    Facts(u, ms, s);
    BookFacts(u, s.book, s.arrived, s.sentCurr, s.sentNew);
    var req := s.bulkBox[0];
    assert req == BulkRequest(u.marketName(s.frontier.version), s.frontier.covered, u.metrics);
    BulkReplyOk(u, s.book, s.registry, s.version, s.newSt.market, s.frontier);
    RegistrationKeepsRegistryOk(u, s.registry, s.version, Bulk.NAME, req.market);
    RegistrationKeepsNewMarket(u, s.registry, s.newSt.market, s.frontier, Bulk.NAME, req.market);
    var e := Envelope(Bulk.OnNewBulk(u.pricer, u.style, s.book, s.registry, req).reply, s.sentNew, s.frontier);
    FifoSend(u, s.newBox, s.newHandled, s.sentNew, e);
    HandshakeReply(u, s.newSt.mode, s.bulkBox, s.newBox, s.frontier, e);
  }

  // ---------- ProcessorNew ----------

  lemma HandshakeReceive(u: Setup, mode: New.Mode, bulkBox: seq<BulkRequest>, newBox: seq<Envelope>, frontier: Note)
    requires HandshakeOk(u, mode, bulkBox, newBox, frontier) && newBox != []
    ensures NewMessageOk(u, frontier, newBox[0].msg)
    ensures !newBox[0].msg.BulkReceive? ==> HandshakeOk(u, mode, bulkBox, newBox[1..], frontier)
    ensures newBox[0].msg.BulkReceive? ==>
      mode.CalculatingBulk? && HandshakeOk(u, New.CalculatingSingle, bulkBox, newBox[1..], frontier)
  {
  }

  /** With nothing outstanding, the frontier can move. */
  lemma HandshakeQuiet(u: Setup, bulkBox: seq<BulkRequest>, newBox: seq<Envelope>, frontier: Note, frontier': Note)
    requires HandshakeOk(u, New.CalculatingSingle, bulkBox, newBox, frontier)
    ensures bulkBox == [] && HandshakeOk(u, New.CalculatingSingle, [], newBox, frontier')
    ensures var req := BulkRequest(u.marketName(frontier'.version), frontier'.covered, u.metrics);
            HandshakeOk(u, New.CalculatingBulk, [req], newBox, frontier')
  {
    QuietBox(u, newBox, frontier, frontier');
  }

  lemma FirstStep(u: Setup, n: nat)
    ensures First(u, n + 1) == First(u, n) + {u.tradeId(n)}
  {
  }

  /** The trade New takes from its mailbox is one it has not seen. */
  lemma NextTradeIsNew(u: Setup, ms: set<Metric>, s: System)
    requires Legal(u) && Inv(u, ms, s) && s.newBox != [] && s.newBox[0].msg.NewTrade?
    ensures var id := s.newBox[0].msg.id;
            && id == u.tradeId(s.newHandled) && s.newHandled + 1 <= s.sentNew
            && id !in First(u, s.newHandled) && id in First(u, s.newHandled + 1)
            && id in s.book && s.book[id] == u.trade(id)
            && First(u, s.newHandled + 1) == First(u, s.newHandled) + {id}
  {
    hide RegistryOk, NewMarketOk, NewTradesOk, NewPortfolioOk, HandshakeOk, MailOk, CurrOk, PublishedOk, Fifo, Legal,
         BookOk, First, Snapshot;
    FifoReceive(u, s.newBox, s.newHandled, s.sentNew);
    InFirst(u, s.newHandled, s.newHandled);
    FirstStep(u, s.newHandled);
    Facts(u, ms, s);
    FirstGrows(u, s.newHandled + 1, s.arrived);
    BookFacts(u, s.book, s.arrived, s.sentCurr, s.sentNew);
  }

  lemma AddedMetricsExact(u: Setup, portfolio: MetricMap, frontier: Note, id: TradeId)
    requires Distinct(u.metrics) && id !in frontier.covered && Exact(u, ALL, portfolio, frontier)
    ensures var delta := TradeDelta(u.pricer, u.trade(id), u.metrics, Snapshot(u, frontier.version));
            Exact(u, ALL, AddMetrics(portfolio, u.metrics, delta), frontier.(covered := frontier.covered + {id}))
  {
    hide Distinct, Value, AddMetrics, TradeDelta;
    var delta := TradeDelta(u.pricer, u.trade(id), u.metrics, Snapshot(u, frontier.version));
    forall m | m in ALL && m in u.metrics
      ensures PmAt(AddMetrics(portfolio, u.metrics, delta), m)
           == Value(u, m, frontier.(covered := frontier.covered + {id}))
    {
      SingleMetricExact(u, portfolio, frontier, id, m);
    }
  }

  /** Pricing one more trade on New's market. */
  lemma SingleTradeExact(u: Setup, st: New.NewState, frontier: Note, id: TradeId)
    requires Legal(u) && NewPortfolioOk(u, st, frontier) && st.mode.CalculatingSingle? && id !in frontier.covered
    ensures var delta := TradeDelta(u.pricer, u.trade(id), u.metrics, Snapshot(u, frontier.version));
            var frontier' := frontier.(covered := frontier.covered + {id});
            && Shape(u, AddMetrics(st.portfolio, u.metrics, delta))
            && Exact(u, ALL, AddMetrics(st.portfolio, u.metrics, delta), frontier')
  {
    assert Distinct(u.metrics);
    hide Legal, Exact, Distinct, AddMetrics, TradeDelta;
    AddedMetricsExact(u, st.portfolio, frontier, id);
    var delta := TradeDelta(u.pricer, u.trade(id), u.metrics, Snapshot(u, frontier.version));
    AddMetricsKeys(st.portfolio, u.metrics, delta);
    assert st.portfolio.Keys + MetricSet(u.metrics) == MetricSet(u.metrics);
  }

  lemma SingleMetricExact(u: Setup, portfolio: MetricMap, frontier: Note, id: TradeId, m: Metric)
    requires Distinct(u.metrics) && id !in frontier.covered && m in u.metrics
    requires PmAt(portfolio, m) == Value(u, m, frontier)
    ensures var delta := TradeDelta(u.pricer, u.trade(id), u.metrics, Snapshot(u, frontier.version));
            PmAt(AddMetrics(portfolio, u.metrics, delta), m)
              == Value(u, m, frontier.(covered := frontier.covered + {id}))
  {
    AddMetricsDistinct(portfolio, u.metrics,
      TradeDelta(u.pricer, u.trade(id), u.metrics, Snapshot(u, frontier.version)), m);
    ValueInsert(u, m, frontier, id);
  }

  /** New's present portfolio, offered to Curr. */
  lemma OfferOk(u: Setup, ms: set<Metric>, p: Proposal, frontier: Note, horizon: nat)
    requires p.market == u.marketName(frontier.version) && Shape(u, p.portfolio) && Exact(u, ALL, p.portfolio, frontier)
    requires frontier.covered <= p.trades <= First(u, horizon) && Trust(u, ms, frontier)
    ensures ProposalOk(u, ms, Envelope(NewTradePortfolio(p), horizon, frontier))
    ensures Offers([p], horizon, frontier) == [Envelope(NewTradePortfolio(p), horizon, frontier)]
  {
    assert Offers([p][1..], horizon, frontier) == [];
  }

  // New's set of trades and its history, case by case.

  lemma TradesLate(u: Setup, st: New.NewState, handled: nat, frontier: Note, late: set<TradeId>, seen: set<TradeId>,
                   bulks: nat, id: TradeId)
    requires NewTradesOk(u, st, handled, frontier, late, seen, bulks) && st.market.Some?
    requires id !in First(u, handled) && First(u, handled + 1) == First(u, handled) + {id}
    ensures NewTradesOk(u, st.(trades := st.trades + {id}), handled + 1, frontier, late + {id}, seen + {id}, bulks)
  {
  }

  lemma TradesCovered(u: Setup, st: New.NewState, handled: nat, frontier: Note, late: set<TradeId>, seen: set<TradeId>,
                      bulks: nat, id: TradeId,
                      st': New.NewState)
    requires NewTradesOk(u, st, handled, frontier, late, seen, bulks) && st.market.Some?
    requires id !in First(u, handled) && First(u, handled + 1) == First(u, handled) + {id}
    requires st'.trades == st.trades + {id} && st'.market == st.market
    ensures NewTradesOk(u, st', handled + 1, frontier.(covered := frontier.covered + {id}), late, seen + {id}, bulks)
  {
  }

  lemma TradesIgnored(u: Setup, st: New.NewState, handled: nat, frontier: Note, late: set<TradeId>, seen: set<TradeId>,
                      bulks: nat)
    requires NewTradesOk(u, st, handled, frontier, late, seen, bulks)
    requires First(u, handled) <= First(u, handled + 1)
    ensures NewTradesOk(u, st, handled + 1, frontier, late, seen, bulks)
  {
  }

  lemma TradesSwitched(u: Setup, st: New.NewState, handled: nat, frontier: Note, late: set<TradeId>, seen: set<TradeId>,
                       bulks: nat,
                       st': New.NewState, version: nat)
    requires NewTradesOk(u, st, handled, frontier, late, seen, bulks)
    requires st'.trades == st.trades && st'.market.Some?
    ensures NewTradesOk(u, st', handled, Note(version, st.trades), {}, seen, bulks + 1)
  {
  }

  lemma TradesReceived(u: Setup, st: New.NewState, handled: nat, frontier: Note, late: set<TradeId>, seen: set<TradeId>,
                       bulks: nat,
                       st': New.NewState)
    requires NewTradesOk(u, st, handled, frontier, late, seen, bulks)
    requires st'.trades == st.trades + frontier.covered && st'.market.Some?
    ensures NewTradesOk(u, st', handled, frontier, late, seen, bulks)
  {
  }

  /** An unread message of another kind leaves everything but the mailbox as it is. */
  lemma RunNewNothing(u: Setup, ms: set<Metric>, s: System)
    requires Legal(u) && Inv(u, ms, s) && s.newBox != [] && !s.newBox[0].msg.NewTrade? && !s.newBox[0].msg.BulkReceive?
    ensures Inv(u, ms, s.(newBox := s.newBox[1..]))
  {
    hide RegistryOk, BookOk, Fifo, NewMarketOk, NewTradesOk, NewPortfolioOk, HandshakeOk, MailOk, CurrOk, PublishedOk,
         Exact, ProposalOk, Trust;
    FifoReceive(u, s.newBox, s.newHandled, s.sentNew);
    HandshakeReceive(u, s.newSt.mode, s.bulkBox, s.newBox, s.frontier);
  }

  lemma RunNewTradeBulk(u: Setup, ms: set<Metric>, s: System)
    requires Legal(u) && Inv(u, ms, s) && s.newBox != [] && s.newBox[0].msg.NewTrade? && s.newSt.mode.CalculatingBulk?
    ensures var id := s.newBox[0].msg.id;
            Inv(u, ms, s.(newSt := s.newSt.(trades := s.newSt.trades + {id}), newBox := s.newBox[1..],
                          newHandled := s.newHandled + 1, late := s.late + {id}, seen := s.seen + {id}))
  {
    hide RegistryOk, BookOk, Fifo, NewMarketOk, NewTradesOk, NewPortfolioOk, HandshakeOk, MailOk, CurrOk, PublishedOk,
         Exact, ProposalOk, Trust;
    var id := s.newBox[0].msg.id;
    NextTradeIsNew(u, ms, s);
    FifoReceive(u, s.newBox, s.newHandled, s.sentNew);
    HandshakeReceive(u, s.newSt.mode, s.bulkBox, s.newBox, s.frontier);
    Facts(u, ms, s);
    TradesLate(u, s.newSt, s.newHandled, s.frontier, s.late, s.seen, s.bulks, id);
    PortfolioKept(u, s.newSt, s.newSt.(trades := s.newSt.trades + {id}), s.frontier);
  }

  lemma PortfolioSet(u: Setup, st: New.NewState, frontier: Note)
    requires st.metrics == u.metrics && Shape(u, st.portfolio)
    requires if st.mode.CalculatingBulk? then st.portfolio == map[] else Exact(u, ALL, st.portfolio, frontier)
    ensures NewPortfolioOk(u, st, frontier)
  {
  }

  lemma SameMarket(u: Setup, registry: Registry, market: Option<string>, frontier: Note, frontier': Note)
    requires NewMarketOk(u, registry, market, frontier) && market.Some? && frontier'.version == frontier.version
    ensures NewMarketOk(u, registry, market, frontier')
  {
  }

  lemma PortfolioKept(u: Setup, st: New.NewState, st': New.NewState, frontier: Note)
    requires NewPortfolioOk(u, st, frontier)
    requires st'.portfolio == st.portfolio && st'.mode == st.mode && st'.metrics == st.metrics
    ensures NewPortfolioOk(u, st', frontier)
  {
  }

  lemma RunNewTradeIgnored(u: Setup, ms: set<Metric>, s: System)
    requires Legal(u) && Inv(u, ms, s) && s.newBox != [] && s.newBox[0].msg.NewTrade?
    ensures Inv(u, ms, s.(newBox := s.newBox[1..], newHandled := s.newHandled + 1))
  {
    hide RegistryOk, BookOk, Fifo, NewMarketOk, NewTradesOk, NewPortfolioOk, HandshakeOk, MailOk, CurrOk, PublishedOk,
         Exact, ProposalOk, Trust;
    NextTradeIsNew(u, ms, s);
    FifoReceive(u, s.newBox, s.newHandled, s.sentNew);
    HandshakeReceive(u, s.newSt.mode, s.bulkBox, s.newBox, s.frontier);
    TradesIgnored(u, s.newSt, s.newHandled, s.frontier, s.late, s.seen, s.bulks);
  }

  /** Once New has a market, a single trade can always be priced. */
  lemma AlwaysCanPrice(u: Setup, ms: set<Metric>, s: System)
    requires Legal(u) && Inv(u, ms, s) && s.newBox != [] && s.newBox[0].msg.NewTrade? && s.newSt.market.Some?
    ensures New.CanPrice(s.book, s.registry, s.newSt, s.newBox[0].msg.id)
    ensures s.registry.markets[s.newSt.market.value] == Snapshot(u, s.frontier.version)
    ensures s.newSt.market.value == u.marketName(s.frontier.version)
  {
    NextTradeIsNew(u, ms, s);
    assert s.newSt.metrics == u.metrics != [];
  }

  /** The state after a single trade has been priced; portfolio is New's new portfolio. */
  function TradePriced(s: System, portfolio: MetricMap, market: string): System
    requires s.newBox != [] && s.newBox[0].msg.NewTrade?
  {
    var id := s.newBox[0].msg.id;
    var st := s.newSt.(trades := s.newSt.trades + {id}, portfolio := portfolio);
    var frontier := s.frontier.(covered := s.frontier.covered + {id});
    var e := Envelope(NewTradePortfolio(Proposal(st.trades, portfolio, market)), s.sentCurr, frontier);
    s.(newSt := st, newBox := s.newBox[1..], newHandled := s.newHandled + 1,
       currBox := s.currBox + [e], frontier := frontier, seen := s.seen + {id})
  }

  /** The part of that step that concerns the messages. */
  lemma TradePricedMail(u: Setup, ms: set<Metric>, s: System, portfolio: MetricMap, market: string)
    requires Legal(u) && Inv(u, ms, s) && s.newBox != [] && s.newBox[0].msg.NewTrade?
    requires s.newSt.mode.CalculatingSingle?
    requires var t := TradePriced(s, portfolio, market);
             && market == u.marketName(s.frontier.version)
             && Shape(u, portfolio) && Exact(u, ALL, portfolio, t.frontier)
             && Trust(u, ms, t.frontier)
    ensures var t := TradePriced(s, portfolio, market);
            && Fifo(u, t.newBox, t.newHandled, t.sentNew)
            && HandshakeOk(u, t.newSt.mode, t.bulkBox, t.newBox, t.frontier)
            && MailOk(u, ms, t.currBox, t.currHandled, t.sentCurr, t.currNote, t.frontier)
  {
    hide RegistryOk, BookOk, Fifo, NewMarketOk, NewTradesOk, NewPortfolioOk, HandshakeOk, MailOk, CurrOk, PublishedOk,
         Exact, ProposalOk, Trust, Legal, First, Snapshot;
    var t := TradePriced(s, portfolio, market);
    NextTradeIsNew(u, ms, s);
    FifoReceive(u, s.newBox, s.newHandled, s.sentNew);
    HandshakeReceive(u, s.newSt.mode, s.bulkBox, s.newBox, s.frontier);
    HandshakeQuiet(u, s.bulkBox, s.newBox[1..], s.frontier, t.frontier);
    Facts(u, ms, s);
    FirstGrows(u, s.newHandled + 1, s.sentCurr);
    var p := Proposal(t.newSt.trades, portfolio, market);
    OfferOk(u, ms, p, t.frontier, s.sentCurr);
    MailSend(u, ms, s.currBox, s.currHandled, s.sentCurr, s.currNote, s.frontier, t.frontier,
             Envelope(NewTradePortfolio(p), s.sentCurr, t.frontier));
  }

  lemma RunNewTradeSingle(u: Setup, ms: set<Metric>, s: System, portfolio: MetricMap)
    requires Legal(u) && Inv(u, ms, s) && s.newBox != [] && s.newBox[0].msg.NewTrade?
    requires s.newSt.mode.CalculatingSingle? && s.newSt.market.Some?
    requires var t := TradePriced(s, portfolio, s.newSt.market.value);
             Trust(u, ms, t.frontier) && Shape(u, portfolio) && Exact(u, ALL, portfolio, t.frontier)
    ensures Inv(u, ms, TradePriced(s, portfolio, s.newSt.market.value))
  {
    hide RegistryOk, BookOk, Fifo, NewMarketOk, NewTradesOk, NewPortfolioOk, HandshakeOk, MailOk, CurrOk, PublishedOk,
         Exact, ProposalOk, Trust, Legal, First, Snapshot;
    var t := TradePriced(s, portfolio, s.newSt.market.value);
    NextTradeIsNew(u, ms, s);
    Facts(u, ms, s);
    TradePricedMail(u, ms, s, portfolio, s.newSt.market.value);
    SameMarket(u, s.registry, s.newSt.market, s.frontier, t.frontier);
    TradesCovered(u, s.newSt, s.newHandled, s.frontier, s.late, s.seen, s.bulks, s.newBox[0].msg.id, t.newSt);
    PortfolioSet(u, t.newSt, t.frontier);
  }

  /** Switching to the market published as "future". */
  lemma SwitchMarket(u: Setup, registry: Registry, version: nat, trades: set<TradeId>)
    requires Legal(u) && RegistryOk(u, registry, version)
    ensures var future := registry.markets[FUTURE];
            var registry' := InsertBoth(registry, New.NAME, future.name, future);
            RegistryOk(u, registry', version) && NewMarketOk(u, registry', Some(future.name), Note(version, trades))
  {
    var future := registry.markets[FUTURE];
    var inserted := Insert(registry, future.name, future);
    assert RegistryOk(u, inserted, version);
    RegistrationKeepsRegistryOk(u, inserted, version, New.NAME, future.name);
    InsertProcessorKeeps(inserted, New.NAME, future.name);
  }

  lemma MailFrontier(u: Setup, ms: set<Metric>, box: seq<Envelope>, handled: nat, sent: nat, currNote: Note,
                     frontier: Note, frontier': Note)
    requires MailOk(u, ms, box, handled, sent, currNote, frontier) && NotAhead(u, frontier, frontier')
    ensures MailOk(u, ms, box, handled, sent, currNote, frontier')
  {
    assert QueueOk(u, ms, box, frontier');
    assert LagOk(u, currNote, box, frontier');
  }

  /** The state after New has switched to the latest market. */
  function Switched(u: Setup, s: System): System
    requires s.newBox != [] && FUTURE in s.registry.markets
  {
    var future := s.registry.markets[FUTURE];
    s.(registry := InsertBoth(s.registry, New.NAME, future.name, future),
       newSt := s.newSt.(portfolio := map[], market := Some(future.name), mode := New.CalculatingBulk),
       newBox := s.newBox[1..],
       bulkBox := s.bulkBox + [BulkRequest(future.name, s.newSt.trades, s.newSt.metrics)],
       frontier := Note(s.version, s.newSt.trades), late := {}, bulks := s.bulks + 1)
  }

  lemma RunNewMarketSingle(u: Setup, ms: set<Metric>, s: System)
    requires Legal(u) && Inv(u, ms, s) && s.newBox != [] && s.newBox[0].msg.NewMarket?
      && s.newSt.mode.CalculatingSingle?
    ensures FUTURE in s.registry.markets && Inv(u, ms, Switched(u, s))
  {
    hide RegistryOk, BookOk, Fifo, NewMarketOk, NewTradesOk, NewPortfolioOk, HandshakeOk, MailOk, CurrOk, PublishedOk,
         Exact, ProposalOk, Trust;
    Facts(u, ms, s);
    var t := Switched(u, s);
    FifoReceive(u, s.newBox, s.newHandled, s.sentNew);
    HandshakeReceive(u, s.newSt.mode, s.bulkBox, s.newBox, s.frontier);
    HandshakeQuiet(u, s.bulkBox, s.newBox[1..], s.frontier, t.frontier);
    assert t.bulkBox == [BulkRequest(u.marketName(s.version), s.newSt.trades, u.metrics)];
    SwitchMarket(u, s.registry, s.version, s.newSt.trades);
    MailFrontier(u, ms, s.currBox, s.currHandled, s.sentCurr, s.currNote, s.frontier, t.frontier);
    TradesSwitched(u, s.newSt, s.newHandled, s.frontier, s.late, s.seen, s.bulks, t.newSt, s.version);
    PortfolioSet(u, t.newSt, t.frontier);
  }

  /** The state after New has taken over a bulk result. */
  function Received(s: System): System
    requires s.newBox != [] && s.newBox[0].msg.BulkReceive?
  {
    var msg := s.newBox[0].msg;
    var st := New.OnBulkReceive(s.registry, s.newSt, msg.trades, msg.portfolio, msg.offending, msg.market).st;
    var e := Envelope(NewTradePortfolio(Proposal(st.trades, st.portfolio, msg.market)), s.sentCurr, s.frontier);
    s.(newSt := st, newBox := s.newBox[1..], currBox := s.currBox + [e])
  }

  lemma RunNewReceive(u: Setup, ms: set<Metric>, s: System)
    requires Legal(u) && Inv(u, ms, s) && s.newBox != [] && s.newBox[0].msg.BulkReceive?
    requires Trust(u, ms, s.frontier)
    ensures Inv(u, ms, Received(s))
  {
    hide RegistryOk, BookOk, Fifo, NewMarketOk, NewTradesOk, NewPortfolioOk, HandshakeOk, MailOk, CurrOk, PublishedOk,
         Exact, ProposalOk, Trust, Legal, First, Snapshot;
    var t := Received(s);
    var msg := s.newBox[0].msg;
    FifoReceive(u, s.newBox, s.newHandled, s.sentNew);
    HandshakeReceive(u, s.newSt.mode, s.bulkBox, s.newBox, s.frontier);
    Facts(u, ms, s);
    assert t.newSt.portfolio == msg.portfolio;
    assert NewMessageOk(u, s.frontier, msg);
    var p := Proposal(t.newSt.trades, t.newSt.portfolio, msg.market);
    OfferOk(u, ms, p, s.frontier, s.sentCurr);
    MailSend(u, ms, s.currBox, s.currHandled, s.sentCurr, s.currNote, s.frontier, s.frontier,
             Envelope(NewTradePortfolio(p), s.sentCurr, s.frontier));
    TradesReceived(u, s.newSt, s.newHandled, s.frontier, s.late, s.seen, s.bulks, t.newSt);
    PortfolioSet(u, t.newSt, t.frontier);
  }

  /** These states are what handling the message leads to. */
  lemma RunNewIs(u: Setup, s: System)
    requires s.newBox != []
    ensures var msg := s.newBox[0].msg;
            var t := OnRunNew(u, s);
            match msg
            case NewTrade(id) =>
              if s.newSt.mode.CalculatingBulk? && s.newSt.market.Some? then
                t == s.(newSt := s.newSt.(trades := s.newSt.trades + {id}), newBox := s.newBox[1..],
                        newHandled := s.newHandled + 1, late := s.late + {id}, seen := s.seen + {id})
              else if s.newSt.mode.CalculatingSingle? && s.newSt.market.None? then
                t == s.(newBox := s.newBox[1..], newHandled := s.newHandled + 1)
              else if s.newSt.mode.CalculatingSingle? && New.CanPrice(s.book, s.registry, s.newSt, id) then
                t == TradePriced(s, AddMetrics(s.newSt.portfolio, s.newSt.metrics,
                  TradeDelta(u.pricer, s.book[id], s.newSt.metrics, s.registry.markets[s.newSt.market.value])),
                  s.newSt.market.value)
              else true
            case NewMarket(_) =>
              if s.newSt.mode.CalculatingBulk? then t == s.(newBox := s.newBox[1..])
              else FUTURE in s.registry.markets ==> t == Switched(u, s)
            case BulkReceive(_, _, _, _) => t == Received(s)
            case Behind(_, _) => t == s.(newBox := s.newBox[1..])
            case _ => true
  {
    OfferIs(OnRunNew(u, s).newSt, s.sentCurr, OnRunNew(u, s).frontier);
  }

  lemma OfferIs(st: New.NewState, horizon: nat, note: Note)
    ensures Offers([], horizon, note) == []
    ensures forall p: Proposal :: Offers([p], horizon, note) == [Envelope(NewTradePortfolio(p), horizon, note)]
  {
    forall p: Proposal ensures Offers([p], horizon, note) == [Envelope(NewTradePortfolio(p), horizon, note)] {
      assert Offers([p][1..], horizon, note) == [];
    }
  }

  lemma RunNewInv(u: Setup, ms: set<Metric>, s: System)
    requires Legal(u) && Inv(u, ms, s) && s.newBox != [] && Trust(u, ms, OnRunNew(u, s).frontier)
    ensures Inv(u, ms, OnRunNew(u, s))
  {
    var msg := s.newBox[0].msg;
    RunNewIs(u, s);
    if msg.NewTrade? {
      if s.newSt.mode.CalculatingBulk? {
        RunNewTradeBulk(u, ms, s);
      } else if s.newSt.market.None? {
        RunNewTradeIgnored(u, ms, s);
      } else {
        AlwaysCanPrice(u, ms, s);
        NextTradeIsNew(u, ms, s);
        SingleTradeExact(u, s.newSt, s.frontier, msg.id);
        RunNewTradeSingle(u, ms, s, OnRunNew(u, s).newSt.portfolio);
      }
    } else if msg.BulkReceive? {
      RunNewReceive(u, ms, s);
    } else if msg.NewMarket? && s.newSt.mode.CalculatingSingle? {
      RunNewMarketSingle(u, ms, s);
    } else {
      RunNewNothing(u, ms, s);
    }
  }

  // ---------- ProcessorCurr ----------

  lemma MailReceive(u: Setup, ms: set<Metric>, box: seq<Envelope>, handled: nat, sent: nat, currNote: Note,
                    frontier: Note)
    requires MailOk(u, ms, box, handled, sent, currNote, frontier) && box != []
    ensures box[0].horizon == handled && After(box[0]) <= sent && ProposalOk(u, ms, box[0])
    ensures box[0].msg.NewTrade? ==> box[0].msg.id == u.tradeId(handled)
    ensures box[0].msg.NewTradePortfolio? ==> NotAhead(u, currNote, box[0].note) && NotAhead(u, box[0].note, frontier)
    ensures MailOk(u, ms, box[1..], After(box[0]), sent, currNote, frontier)
  {
    FifoReceive(u, box, handled, sent);
    QueueReceive(u, ms, box, frontier);
  }

  /** Taking over a proposal moves Curr to that proposal, which is behind all later ones. */
  lemma MailAccept(u: Setup, ms: set<Metric>, box: seq<Envelope>, handled: nat, sent: nat, currNote: Note,
                   frontier: Note, note: Note)
    requires MailOk(u, ms, box, handled, sent, currNote, frontier) && box != [] && box[0].msg.NewTradePortfolio?
    requires note.version == box[0].note.version && (u.mode.SingleBuffer? ==> note.covered == box[0].note.covered)
    ensures MailOk(u, ms, box[1..], After(box[0]), sent, note, frontier)
  {
    FifoReceive(u, box, handled, sent);
    QueueReceive(u, ms, box, frontier);
    assert LagOk(u, note, box[1..], frontier);
  }

  /** In double-buffer mode Curr covering more trades does not concern the queue. */
  lemma MailCover(u: Setup, ms: set<Metric>, box: seq<Envelope>, handled: nat, sent: nat, currNote: Note,
                  frontier: Note, note: Note)
    requires MailOk(u, ms, box, handled, sent, currNote, frontier)
    requires u.mode.DoubleBuffer? && note.version == currNote.version
    ensures MailOk(u, ms, box, handled, sent, note, frontier)
  {
    assert LagOk(u, note, box, frontier);
  }

  lemma Publish(u: Setup, ms: set<Metric>, published: seq<Publication>, currNote: Note, p: Publication)
    requires PublishedOk(u, ms, published, currNote) && NoteLeq(currNote, p.note) && PublicationOk(u, ms, p)
    ensures PublishedOk(u, ms, published + [p], p.note)
  {
  }

  /** The PV portfolio of a proposal tells which of its trades have a price. */
  lemma MissingIs(u: Setup, ms: set<Metric>, e: Envelope, st: Curr.CurrState)
    requires Legal(u) && e.msg.NewTradePortfolio? && ProposalOk(u, ms, e)
    ensures Curr.MissingFrom(st, e.msg.proposal) == st.trades - PricedIn(u, e.note.covered, e.note.version)
  {
    assert PmAt(e.msg.proposal.portfolio, PV) == Value(u, PV, e.note);
    PVKeys(u, e.note);
  }

  /** A repaired proposal is exactly the value of its trades and the known ones. */
  lemma RepairedExact(u: Setup, ms: set<Metric>, e: Envelope, known: set<TradeId>, book: Book)
    requires Legal(u) && e.msg.NewTradePortfolio? && ProposalOk(u, ms, e)
    requires known <= book.Keys && forall id :: id in book ==> book[id] == u.trade(id)
    requires if u.mode.SingleBuffer? then known == {} else e.note.covered <= known
    ensures var missing := known - PricedIn(u, e.note.covered, e.note.version);
            var portfolio := AddPm(e.msg.proposal.portfolio,
              PriceSpec(u.style, u.pricer, book, missing, u.metrics, Snapshot(u, e.note.version)));
            Shape(u, portfolio) && Exact(u, ms, portfolio, Note(e.note.version, e.note.covered + known))
  {
    var v, covered := e.note.version, e.note.covered;
    var missing := known - PricedIn(u, covered, v);
    var additional := PriceSpec(u.style, u.pricer, book, missing, u.metrics, Snapshot(u, v));
    var portfolio := AddPm(e.msg.proposal.portfolio, additional);
    PricingIsExact(u, book, missing, v);
    assert portfolio.Keys == e.msg.proposal.portfolio.Keys + additional.Keys;
    forall m | m in ms && m in u.metrics ensures PmAt(portfolio, m) == Value(u, m, Note(v, covered + known)) {
      RepairedMetricExact(u, ms, e, known, additional, m);
    }
  }

  lemma RepairedMetricExact(u: Setup, ms: set<Metric>, e: Envelope, known: set<TradeId>, additional: MetricMap,
                            m: Metric)
    requires e.msg.NewTradePortfolio? && ProposalOk(u, ms, e) && m in ms && m in u.metrics
    requires if u.mode.SingleBuffer? then known == {} else e.note.covered <= known
    requires Exact(u, ALL, additional, Note(e.note.version, known - PricedIn(u, e.note.covered, e.note.version)))
    ensures PmAt(AddPm(e.msg.proposal.portfolio, additional), m)
      == Value(u, m, Note(e.note.version, e.note.covered + known))
  {
    var v, covered := e.note.version, e.note.covered;
    assert m in ALL;
    PmAtAdd(e.msg.proposal.portfolio, additional, m);
    if Priced(u, e.note) {
      assert PricedIn(u, covered, v) == covered;
    }
    assert Value(u, m, e.note) == Value(u, m, Note(v, covered));
    RepairValue(u, m, v, covered, known);
  }

  /** What an accepted proposal leads to, in terms of the handler. */
  lemma AcceptedIs(u: Setup, book: Book, registry: Registry, st: Curr.CurrState, p: Proposal)
    requires st.metrics == u.metrics
    ensures var r := Curr.OnProposal(u.pricer, u.style, book, registry, st, p);
            r.published.Some? ==>
              && p.market in registry.markets
              && r.st.portfolio == AddPm(p.portfolio,
                PriceSpec(u.style, u.pricer, book, Curr.MissingFrom(st, p), u.metrics, registry.markets[p.market]))
              && r.published.value == r.st.portfolio
              && r.st.trades == st.trades && r.st.metrics == u.metrics && r.st.market == Some(p.market)
  {
    assert st.trades + Curr.MissingFrom(st, p) == st.trades;
  }

  /** A registered market is the snapshot of its name. */
  lemma Registered(u: Setup, registry: Registry, version: nat, v: nat)
    requires RegistryOk(u, registry, version) && u.marketName(v) in registry.markets
    ensures registry.markets[u.marketName(v)] == Snapshot(u, v)
  {
  }

  /** Accepting a proposal, as far as Curr's own state is concerned. */
  lemma AcceptCurrOk(u: Setup, ms: set<Metric>, e: Envelope, st: Curr.CurrState, currNote: Note, handled: nat,
                     sent: nat,
                     book: Book, registry: Registry, version: nat)
    requires Legal(u) && CurrOk(u, ms, st, currNote, handled, sent)
    requires e.msg.NewTradePortfolio? && ProposalOk(u, ms, e) && e.horizon == handled <= sent
    requires RegistryOk(u, registry, version)
    requires First(u, sent) <= book.Keys && forall id :: id in book ==> book[id] == u.trade(id)
    ensures var r := Curr.OnProposal(u.pricer, u.style, book, registry, st, e.msg.proposal);
            var note := Note(e.note.version, e.note.covered + st.trades);
            r.published.Some? ==>
              && CurrOk(u, ms, r.st, note, handled, sent)
              && r.st.trades == st.trades && r.published == Some(r.st.portfolio)
              && (u.mode.DoubleBuffer? ==> note.covered == st.trades && currNote.covered <= note.covered)
              && (u.mode.SingleBuffer? ==> note.covered == e.note.covered)
  {
    hide RegistryOk, Legal, Exact, Curr.OnProposal;
    var p := e.msg.proposal;
    var r := Curr.OnProposal(u.pricer, u.style, book, registry, st, p);
    if r.published.Some? {
      FirstGrows(u, handled, sent);
      MissingIs(u, ms, e, st);
      RepairedExact(u, ms, e, st.trades, book);
      AcceptedIs(u, book, registry, st, p);
      Registered(u, registry, version, e.note.version);
    }
  }

  /** What Curr registers, if anything, is its own market. */
  lemma CurrRegistration(u: Setup, registry: Registry, version: nat, market: Option<string>, frontier: Note,
                         registry': Registry)
    requires RegistryOk(u, registry, version) && NewMarketOk(u, registry, market, frontier)
    requires registry' == registry || exists name :: registry' == InsertProcessor(registry, Curr.NAME, name)
    ensures RegistryOk(u, registry', version) && NewMarketOk(u, registry', market, frontier)
  {
    if registry' != registry {
      var name :| registry' == InsertProcessor(registry, Curr.NAME, name);
      RegistrationKeepsRegistryOk(u, registry, version, Curr.NAME, name);
      RegistrationKeepsNewMarket(u, registry, market, frontier, Curr.NAME, name);
    }
  }

  /** An answer to New only reaches its mailbox. */
  lemma AnswerNew(u: Setup, s: System, answer: Option<Message>)
    requires Fifo(u, s.newBox, s.newHandled, s.sentNew)
    requires HandshakeOk(u, s.newSt.mode, s.bulkBox, s.newBox, s.frontier)
    requires answer.Some? ==> answer.value.Behind?
    ensures var box := s.newBox + if answer.Some? then [Envelope(answer.value, s.sentNew, s.frontier)] else [];
            Fifo(u, box, s.newHandled, s.sentNew) && HandshakeOk(u, s.newSt.mode, s.bulkBox, box, s.frontier)
  {
    if answer.Some? {
      var e := Envelope(answer.value, s.sentNew, s.frontier);
      FifoSend(u, s.newBox, s.newHandled, s.sentNew, e);
      HandshakeSend(u, s.newSt.mode, s.bulkBox, s.newBox, s.frontier, e);
    } else {
      assert s.newBox + [] == s.newBox;
    }
  }

  lemma ProposalResult(u: Setup, s: System)
    requires s.currBox != [] && s.currBox[0].msg.NewTradePortfolio?
    ensures var r := Curr.OnProposal(u.pricer, u.style, s.book, s.registry, s.currSt, s.currBox[0].msg.proposal);
            && (r.answer.Some? ==> r.answer.value.Behind?)
            && (r.registry == s.registry || exists name :: r.registry == InsertProcessor(s.registry, Curr.NAME, name))
            && (r.published.None? ==> r.st == s.currSt)
            && OnRunCurr(u, s) == s.(
                 registry := r.registry, currSt := r.st, currBox := s.currBox[1..],
                 newBox := s.newBox + if r.answer.Some? then [Envelope(r.answer.value, s.sentNew, s.frontier)] else [],
                 published := s.published + (if r.published.Some?
                   then [Publication(r.published.value, NextCurrNote(s, s.currBox[0], r), true, r.st.trades)] else []),
                 currNote := NextCurrNote(s, s.currBox[0], r))
  {
  }

  lemma RunCurrProposal(u: Setup, ms: set<Metric>, s: System)
    requires Legal(u) && Inv(u, ms, s) && s.currBox != [] && s.currBox[0].msg.NewTradePortfolio?
    ensures Inv(u, ms, OnRunCurr(u, s))
  {
    hide RegistryOk, BookOk, Fifo, NewMarketOk, NewTradesOk, NewPortfolioOk, HandshakeOk, MailOk, CurrOk, PublishedOk,
         Exact, ProposalOk, Trust, Curr.OnProposal, Curr.OnMessage, OnRunCurr, Legal, QueueOk, First, Snapshot;
    var e := s.currBox[0];
    var r := Curr.OnProposal(u.pricer, u.style, s.book, s.registry, s.currSt, e.msg.proposal);
    Facts(u, ms, s);
    BookFacts(u, s.book, s.arrived, s.sentCurr, s.sentNew);
    MailReceive(u, ms, s.currBox, s.currHandled, s.sentCurr, s.currNote, s.frontier);
    ProposalResult(u, s);
    CurrRegistration(u, s.registry, s.version, s.newSt.market, s.frontier, r.registry);
    AnswerNew(u, s, r.answer);
    AcceptCurrOk(u, ms, e, s.currSt, s.currNote, s.currHandled, s.sentCurr, s.book, s.registry, s.version);
    if r.published.Some? {
      var note := Note(e.note.version, e.note.covered + s.currSt.trades);
      MailAccept(u, ms, s.currBox, s.currHandled, s.sentCurr, s.currNote, s.frontier, note);
      var p := Publication(r.published.value, note, true, r.st.trades);
      assert PublicationOk(u, ms, p) by { CurrIsExact(u, ms, r.st, note, s.currHandled, s.sentCurr); }
      Publish(u, ms, s.published, s.currNote, p);
    } else {
      assert s.published + [] == s.published;
    }
  }

  lemma CurrIsExact(u: Setup, ms: set<Metric>, st: Curr.CurrState, note: Note, handled: nat, sent: nat)
    requires CurrOk(u, ms, st, note, handled, sent)
    ensures Exact(u, ms, st.portfolio, note) && Shape(u, st.portfolio) && st.metrics == u.metrics
  {
  }

  /** Pricing one more trade on Curr's market. */
  lemma CurrTradeExact(u: Setup, ms: set<Metric>, portfolio: MetricMap, note: Note, id: TradeId)
    requires Legal(u) && Shape(u, portfolio) && Exact(u, ms, portfolio, note) && id !in note.covered
    ensures var delta := TradeDelta(u.pricer, u.trade(id), u.metrics, Snapshot(u, note.version));
            var portfolio' := AddToPresent(portfolio, u.metrics, delta);
            && Shape(u, portfolio') && (portfolio == map[] ==> portfolio' == map[])
            && (portfolio != map[] ==> Exact(u, ms, portfolio', note.(covered := note.covered + {id})))
  {
    var delta := TradeDelta(u.pricer, u.trade(id), u.metrics, Snapshot(u, note.version));
    var note' := note.(covered := note.covered + {id});
    AddToPresentKeys(portfolio, u.metrics, delta);
    if portfolio != map[] {
      forall m | m in ms && m in u.metrics
        ensures PmAt(AddToPresent(portfolio, u.metrics, delta), m) == Value(u, m, note')
      {
        assert m in MetricSet(u.metrics);
        AddToPresentValue(portfolio, u.metrics, delta, m);
        DistinctCounts(u.metrics, m);
        TimesOne(PmAt(delta, m));
        ValueInsert(u, m, note, id);
      }
    }
  }

  /** A trade announced to Curr, as far as Curr's own state is concerned. */
  lemma TradeCurrOk(u: Setup, ms: set<Metric>, st: Curr.CurrState, currNote: Note, handled: nat, sent: nat,
                    book: Book, registry: Registry, version: nat)
    requires Legal(u) && CurrOk(u, ms, st, currNote, handled, sent) && handled < sent
    requires RegistryOk(u, registry, version)
    requires First(u, sent) <= book.Keys && forall id :: id in book ==> book[id] == u.trade(id)
    ensures var id := u.tradeId(handled);
            var r := Curr.OnNewTrade(u.pricer, u.mode, book, registry, st, id);
            var counted := r.published.Some? && st.portfolio != map[];
            var note := if counted then currNote.(covered := currNote.covered + {id}) else currNote;
            && CurrOk(u, ms, r.st, note, handled + 1, sent)
            && r.registry == registry && r.answer.None?
            && (r.published.Some? ==> u.mode.DoubleBuffer? && Exact(u, ms, r.published.value, note))
  {
    var id := u.tradeId(handled);
    var r := Curr.OnNewTrade(u.pricer, u.mode, book, registry, st, id);
    InFirst(u, handled, handled);
    InFirst(u, handled, sent);
    FirstGrows(u, handled + 1, sent);
    if r.published.Some? {
      assert registry.markets[st.market.value] == Snapshot(u, currNote.version);
      CurrTradeExact(u, ms, st.portfolio, currNote, id);
      PublishedAll(u, r.st.portfolio);
    }
  }

  lemma PublishedAll(u: Setup, portfolio: MetricMap)
    requires Shape(u, portfolio)
    ensures Curr.Published(portfolio, u.metrics) == portfolio
  {
    assert forall m :: m in portfolio ==> m in MetricSet(u.metrics);
  }

  lemma TradeResult(u: Setup, s: System)
    requires s.currBox != [] && s.currBox[0].msg.NewTrade?
    ensures var id := s.currBox[0].msg.id;
            var r := Curr.OnNewTrade(u.pricer, u.mode, s.book, s.registry, s.currSt, id);
            var counted := r.published.Some? && s.currSt.portfolio != map[];
            var note := if counted then s.currNote.(covered := s.currNote.covered + {id}) else s.currNote;
            OnRunCurr(u, s) == s.(
              registry := r.registry, currSt := r.st, currBox := s.currBox[1..], currHandled := s.currHandled + 1,
              newBox := s.newBox + if r.answer.Some? then [Envelope(r.answer.value, s.sentNew, s.frontier)] else [],
              published := s.published
                + (if r.published.Some? then [Publication(r.published.value, note, false, r.st.trades)] else []),
              currNote := note)
  {
  }

  lemma RunCurrTrade(u: Setup, ms: set<Metric>, s: System)
    requires Legal(u) && Inv(u, ms, s) && s.currBox != [] && s.currBox[0].msg.NewTrade?
    ensures Inv(u, ms, OnRunCurr(u, s))
  {
    hide RegistryOk, BookOk, Fifo, NewMarketOk, NewTradesOk, NewPortfolioOk, HandshakeOk, MailOk, CurrOk, PublishedOk,
         Exact, ProposalOk, Trust, Curr.OnNewTrade, Curr.OnMessage, OnRunCurr, NextCurrNote, Legal, QueueOk;
    var e := s.currBox[0];
    Facts(u, ms, s);
    BookFacts(u, s.book, s.arrived, s.sentCurr, s.sentNew);
    MailReceive(u, ms, s.currBox, s.currHandled, s.sentCurr, s.currNote, s.frontier);
    TradeResult(u, s);
    TradeCurrOk(u, ms, s.currSt, s.currNote, s.currHandled, s.sentCurr, s.book, s.registry, s.version);
    var r := Curr.OnNewTrade(u.pricer, u.mode, s.book, s.registry, s.currSt, e.msg.id);
    assert s.newBox + [] == s.newBox;
    if r.published.Some? {
      var note := OnRunCurr(u, s).currNote;
      MailCover(u, ms, s.currBox[1..], s.currHandled + 1, s.sentCurr, s.currNote, s.frontier, note);
      var p := Publication(r.published.value, note, false, r.st.trades);
      assert PublicationOk(u, ms, p);
      Publish(u, ms, s.published, s.currNote, p);
    } else {
      assert s.published + [] == s.published;
    }
  }

  /** Curr ignores any other message. */
  lemma RunCurrNothing(u: Setup, ms: set<Metric>, s: System)
    requires Legal(u) && Inv(u, ms, s) && s.currBox != [] && s.currBox[0].msg.Behind?
    ensures Inv(u, ms, OnRunCurr(u, s))
  {
    hide RegistryOk, BookOk, Fifo, NewMarketOk, NewTradesOk, NewPortfolioOk, HandshakeOk, MailOk, CurrOk, PublishedOk,
         Legal;
    MailReceive(u, ms, s.currBox, s.currHandled, s.sentCurr, s.currNote, s.frontier);
    assert s.newBox + [] == s.newBox && s.published + [] == s.published;
  }

  lemma RunCurrInv(u: Setup, ms: set<Metric>, s: System)
    requires Legal(u) && Inv(u, ms, s) && s.currBox != []
    ensures Inv(u, ms, OnRunCurr(u, s))
  {
    MailReceive(u, ms, s.currBox, s.currHandled, s.sentCurr, s.currNote, s.frontier);
    if s.currBox[0].msg.NewTrade? {
      RunCurrTrade(u, ms, s);
    } else if s.currBox[0].msg.NewTradePortfolio? {
      RunCurrProposal(u, ms, s);
    } else {
      RunCurrNothing(u, ms, s);
    }
  }

  // ---------- Every step ----------

  /** Every event keeps the invariant, as long as Curr can trust what New prices. */
  lemma StepInv(u: Setup, ms: set<Metric>, s: System, e: Event)
    requires Legal(u) && Inv(u, ms, s) && Enabled(s, e) && Trust(u, ms, Step(u, s, e).frontier)
    ensures Inv(u, ms, Step(u, s, e))
  {
    hide Inv, Legal, Trust;
    match e
    case TickArrives => TickInv(u, ms, s);
    case NotifyMarket => NotifyInv(u, ms, s);
    case TradeArrives => TradeInv(u, ms, s);
    case SendToCurr => SendToCurrInv(u, ms, s);
    case SendToNew => SendToNewInv(u, ms, s);
    case RunNew => RunNewInv(u, ms, s);
    case RunBulk => RunBulkInv(u, ms, s);
    case RunCurr => RunCurrInv(u, ms, s);
  }
}
