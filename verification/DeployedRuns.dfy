/** Two runs of the deployed pipeline in which Curr ends up with twice the PV of a trade: one in which the
    middle stage handles a trade before Curr is told of it, and one in which every message arrives in its
    natural order and Curr's answer makes the middle stage add a trade again. */
module DeployedRuns {
  import opened Wrappers
  import opened Portfolios
  import opened Trades
  import opened MarketRegistry
  import opened BulkPricing
  import opened Messages
  import opened Pipeline
  import opened PipelineInvariant
  import opened PipelineSteps
  import opened PipelineTheorems
  import opened PipelineRuns
  import opened DeployedPipeline
  import opened DeployedSteps
  import opened DeployedTheorems
  import New = ProcessorNewActor
  import Bulk = ProcessorBulkActor
  import Curr = ProcessorCurrActor
  import Middle = ProcessorMiddleActor
  import opened LetfPricing
  import opened Producers
  import opened UnpricedTrades

  /** A double-buffer pipeline with a parallel strategy whose first trade has a price on the first
      market. */
  ghost predicate PricedFirst(u: Setup) {
    Legal(u) && u.mode.DoubleBuffer? && !u.style.Sequential? && u.pricer.price(TheTrade(u), Snapshot(u, 1)).Some?
  }

  function TheTrade(u: Setup): Trade {
    u.trade(u.tradeId(0))
  }

  function ThePrice(u: Setup): real
    requires u.pricer.price(TheTrade(u), Snapshot(u, 1)).Some?
  {
    u.pricer.price(TheTrade(u), Snapshot(u, 1)).value
  }

  // ---------- Following a run ----------

  ghost function PlaceAt(u: Setup, run: seq<Move>, k: nat): Deployed
    requires k <= |run|
  {
    Play(u, Start(u), run[..k])
  }

  /** In order so far. */
  ghost predicate Fine(u: Setup, s: Deployed) {
    Legal(u) && DeployedInv(u, {}, s)
  }

  lemma Proceed(u: Setup, run: seq<Move>, k: nat)
    requires k < |run| && Possible(PlaceAt(u, run, k), run[k])
    ensures PlaceAt(u, run, k + 1) == Moved(u, PlaceAt(u, run, k), run[k])
    ensures Fine(u, PlaceAt(u, run, k)) && Orderly(PlaceAt(u, run, k), run[k]) ==> Fine(u, PlaceAt(u, run, k + 1))
  {
    hide Moved, Orderly, DeployedInv, Legal;
    assert run[..k + 1][..k] == run[..k];
    if Fine(u, PlaceAt(u, run, k)) && Orderly(PlaceAt(u, run, k), run[k]) {
      MoveInv(u, {}, PlaceAt(u, run, k), run[k]);
    }
  }

  lemma Begin(u: Setup, run: seq<Move>)
    requires Legal(u) && u.mode.DoubleBuffer?
    ensures Fine(u, PlaceAt(u, run, 0)) && PlaceAt(u, run, 0) == Start(u)
  {
    hide DeployedInv;
    assert run[..0] == [];
    StartInv(u, {});
  }

  /** What does not change below while something happens above. */
  ghost predicate SameBelow(s: Deployed, t: Deployed) {
    && t.core.currBox == s.core.currBox && t.core.currSt == s.core.currSt && t.core.currNote == s.core.currNote
    && t.core.sentCurr == s.core.sentCurr && t.core.published == s.core.published
    && t.middleSt == s.middleSt && t.middleNote == s.middleNote && t.middleHandled == s.middleHandled
  }

  lemma AboveStep(u: Setup, s: Deployed, e: Event)
    requires Fine(u, s) && Possible(s, Above(e))
    ensures Upper(Moved(u, s, Above(e))) == Step(u, Upper(s), e)
    ensures SameBelow(s, Moved(u, s, Above(e)))
    ensures Inv(u, {}, Upper(s))
  {
    hide Inv;
    AboveFrame(u, {}, s, e);
    assert Upper(Lifted(s, Step(u, Upper(s), e))) == Step(u, Upper(s), e);
  }

  /** A tick, the switch to it, the bulk on no trades, and a trade announced to the middle stage while New's
      first portfolio is on its way there. */
  const OPENING: seq<Move> := [
    Above(TickArrives), Above(NotifyMarket), Above(RunNew), Above(RunBulk), Above(RunNew),
    Above(TradeArrives), Above(SendToCurr)]

  lemma AboveAt(u: Setup, run: seq<Move>, k: nat, e: Event)
    requires k < |run| && run[k] == Above(e) && Fine(u, PlaceAt(u, run, k)) && Possible(PlaceAt(u, run, k), run[k])
    ensures var s, t := PlaceAt(u, run, k), PlaceAt(u, run, k + 1);
            && Upper(t) == Step(u, Upper(s), e) && SameBelow(s, t) && Fine(u, t) && Inv(u, {}, Upper(s))
  {
    hide Inv, Fine, PlaceAt, Step, SameBelow;
    Proceed(u, run, k);
    AboveStep(u, PlaceAt(u, run, k), e);
  }

  lemma ToTick(u: Setup, run: seq<Move>)
    requires Legal(u) && u.mode.DoubleBuffer? && OPENING <= run
    ensures var s := PlaceAt(u, run, 1);
            && PositionOf(Upper(s)) == Position(1, true, 0, 0, 0, [], [], [], true, false, Note(0, {}),
                                                map[], None, {}, Note(0, {}))
            && UpToDate(Upper(s)) && SameBelow(Start(u), s) && Fine(u, s)
  {
    hide Fine, Replay, First, Kinds, Requested, PlaceAt, Inv;
    NoKinds();
    assert run[0] == OPENING[0];
    Begin(u, run);
    AboveAt(u, run, 0, TickArrives);
    TickStep(u, Upper(PlaceAt(u, run, 0)));
  }

  lemma ToNotify(u: Setup, run: seq<Move>)
    requires Legal(u) && u.mode.DoubleBuffer? && OPENING <= run
    ensures var s := PlaceAt(u, run, 2);
            && PositionOf(Upper(s)) == Position(1, false, 0, 0, 0, [OfMarket], [], [], true, false, Note(0, {}),
                                                map[], None, {}, Note(0, {}))
            && UpToDate(Upper(s)) && SameBelow(Start(u), s) && Fine(u, s)
  {
    hide Fine, Replay, First, Kinds, Requested, PlaceAt, Inv, Start, Upper;
    assert run[1] == OPENING[1];
    ToTick(u, run);
    var s := PlaceAt(u, run, 1);
    UpperFields(s);
    AboveAt(u, run, 1, NotifyMarket);
    NotifyStep(u, Upper(s));
  }

  lemma UpperFields(s: Deployed)
    ensures var t := Upper(s);
            && t.notify == s.core.notify && t.newBox == s.core.newBox && t.bulkBox == s.core.bulkBox
            && t.currBox == s.middleBox && t.arrived == s.core.arrived && t.sentCurr == s.sentMiddle
            && t.sentNew == s.core.sentNew && t.frontier == s.core.frontier
  {
  }

  lemma ToMarketMove(u: Setup, run: seq<Move>)
    requires Legal(u) && u.mode.DoubleBuffer? && OPENING <= run
    ensures var s := PlaceAt(u, run, 3);
            && PositionOf(Upper(s)) == Position(1, false, 0, 0, 0, [], [u.marketName(1)], [], false, true, Note(1, {}),
                                                map[New.NAME := u.marketName(1)], None, {}, Note(0, {}))
            && UpToDate(Upper(s)) && SameBelow(Start(u), s) && Fine(u, s)
  {
    hide Fine, First, Kinds, Requested, PlaceAt, Inv, Start, Upper, OnRunNew;
    assert run[2] == OPENING[2];
    ToNotify(u, run);
    var s := PlaceAt(u, run, 2);
    UpperFields(s);
    FirstKind(Upper(s).newBox);
    NoBox(Upper(s).currBox);
    AboveAt(u, run, 2, RunNew);
    KnownTrades(u, Upper(s));
    OneTrade(u);
    assert Legal(u);
    MarketStep(u, Upper(s));
  }

  lemma ToBulkMove(u: Setup, run: seq<Move>)
    requires Legal(u) && u.mode.DoubleBuffer? && OPENING <= run && !u.style.Sequential?
    ensures var s := PlaceAt(u, run, 4);
            && PositionOf(Upper(s)) == Position(1, false, 0, 0, 0, [OfBulk], [], [], false, true, Note(1, {}),
                                                FirstUsers(u), None, {}, Note(0, {}))
            && UpToDate(Upper(s)) && SameBelow(Start(u), s) && Fine(u, s)
            && s.core.newBox != [] && s.core.newBox[0].msg.BulkReceive? && s.core.newBox[0].msg.portfolio != map[]
  {
    hide Fine, First, Kinds, Requested, PlaceAt, Inv, Start, Upper, OnRunBulk;
    assert run[3] == OPENING[3];
    ToMarketMove(u, run);
    var s := PlaceAt(u, run, 3);
    UpperFields(s);
    RequestedAppend(Upper(s).bulkBox, BulkRequest("", {}, []));
    AboveAt(u, run, 3, RunBulk);
    BulkStep(u, Upper(s));
    NoBox(Upper(s).newBox);
    assert Legal(u);
    FullReply(u, Upper(s));
    UpperFields(PlaceAt(u, run, 4));
  }

  /** The first message for the middle stage is a proposal that holds all metrics. */
  ghost predicate FullFirst(s: Deployed) {
    && s.middleBox != [] && s.middleBox[0].msg.NewTradePortfolio?
    && s.middleBox[0].msg.proposal.portfolio != map[]
  }

  lemma ToOfferMove(u: Setup, run: seq<Move>)
    requires Legal(u) && u.mode.DoubleBuffer? && OPENING <= run && !u.style.Sequential?
    ensures var s := PlaceAt(u, run, 5);
            && PositionOf(Upper(s)) == Position(1, false, 0, 0, 0, [], [], [OfProposal], true, true, Note(1, {}),
                                                FirstUsers(u), None, {}, Note(0, {}))
            && UpToDate(Upper(s)) && SameBelow(Start(u), s) && Fine(u, s) && FullFirst(s)
  {
    hide Fine, First, Kinds, Requested, PlaceAt, Inv, Start, Upper, OnRunNew;
    assert run[4] == OPENING[4];
    ToBulkMove(u, run);
    var s := PlaceAt(u, run, 4);
    UpperFields(s);
    FirstKind(Upper(s).newBox);
    AboveAt(u, run, 4, RunNew);
    ReceiveStep(u, Upper(s));
    NoBox(Upper(s).currBox);
    assert Legal(u);
    FullOffer(u, Upper(s));
    UpperFields(PlaceAt(u, run, 5));
  }

  lemma ToAnnounced(u: Setup, run: seq<Move>)
    requires Legal(u) && u.mode.DoubleBuffer? && OPENING <= run && !u.style.Sequential?
    ensures var s := PlaceAt(u, run, 7);
            && PositionOf(Upper(s)) == Position(1, false, 1, 1, 0, [], [], [OfProposal, OfTrade], true, true,
                                                Note(1, {}), FirstUsers(u), None, {}, Note(0, {}))
            && UpToDate(Upper(s)) && SameBelow(Start(u), s) && Fine(u, s) && FullFirst(s)
  {
    hide Fine, First, Kinds, Requested, PlaceAt, Inv, Start, Upper;
    assert run[5] == OPENING[5] && run[6] == OPENING[6];
    ToOfferMove(u, run);
    UpperFields(PlaceAt(u, run, 5));
    AboveAt(u, run, 5, TradeArrives);
    ArrivalStep(u, Upper(PlaceAt(u, run, 5)));
    UpperFields(PlaceAt(u, run, 6));
    AboveAt(u, run, 6, SendToCurr);
    SendToCurrStep(u, Upper(PlaceAt(u, run, 6)));
    UpperFields(PlaceAt(u, run, 7));
  }

  // ---------- Single messages of the middle stage and of Curr ----------

  /** A middle stage that knows no trade passes New's portfolio on as it is. */
  lemma PassesOn(u: Setup, s: Deployed)
    requires Fine(u, s) && FullFirst(s) && UpToDate(Upper(s)) && s.middleSt.trades == {}
    ensures var t, p := OnMiddle(u, s), s.middleBox[0].msg.proposal;
            && p.market == u.marketName(s.core.frontier.version)
            && t.middleSt == s.middleSt.(market := Some(p.market), tradesSinceProposal := 0, portfolio := p.portfolio,
                                         trades := p.trades)
            && t.middleNote == s.core.frontier && t.middleBox == s.middleBox[1..] && t.middleHandled == s.middleHandled
            && t.sentMiddle == s.sentMiddle
            && t.core == s.core.(registry := t.core.registry, newBox := t.core.newBox, currBox := s.core.currBox
                 + [Envelope(NewTradePortfolio(p), s.core.sentCurr, s.core.frontier)])
            && Fine(u, t)
  {
    hide DeployedInv, Legal, First, Exact, OnMiddle, Trust;
    ReadyForMessage(u, {}, s);
    assert Upper(s).currBox[0].note == s.core.frontier;
    PassesOnIs(u, s);
    TrustNothing(u, OnMiddle(u, s).middleNote);
    MiddleInv(u, {}, s);
  }

  lemma TrustNothing(u: Setup, note: Note)
    ensures Trust(u, {}, note)
  {
  }

  lemma PassesOnIs(u: Setup, s: Deployed)
    requires s.middleBox != [] && s.middleBox[0].msg.NewTradePortfolio? && s.middleSt.trades == {}
    ensures var t, e := OnMiddle(u, s), s.middleBox[0];
            var p := e.msg.proposal;
            && t.middleSt == s.middleSt.(market := Some(p.market), tradesSinceProposal := 0, portfolio := p.portfolio,
                                         trades := p.trades)
            && t.middleNote == e.note && t.middleBox == s.middleBox[1..] && t.middleHandled == s.middleHandled
            && t.core == s.core.(registry := t.core.registry, newBox := t.core.newBox, currBox := s.core.currBox
                 + [Envelope(NewTradePortfolio(p), s.core.sentCurr, e.note)])
            && t.sentMiddle == s.sentMiddle
  {
    hide PriceSpec, AddPm, InsertProcessor;
    var e := s.middleBox[0];
    assert s.middleSt.trades - e.msg.proposal.trades == {};
    assert e.note.covered + {} == e.note.covered;
    assert {} + e.msg.proposal.trades == e.msg.proposal.trades;
  }

  /** A middle stage that holds all metrics on a stored market adds a new trade and offers the sum,
      announced to Curr or not. */
  lemma AddsTrade(u: Setup, s: Deployed)
    requires Fine(u, s) && s.middleBox != [] && s.middleBox[0].msg.NewTrade? && s.middleSt.portfolio != map[]
    requires s.middleSt.market.Some? && s.middleSt.market.value in s.core.registry.markets
    ensures var t, id := OnMiddle(u, s), u.tradeId(s.middleHandled);
            var note := s.middleNote.(covered := s.middleNote.covered + {id});
            && t.middleSt.trades == s.middleSt.trades + {id} && t.middleSt.market == s.middleSt.market
            && t.middleSt.portfolio != map[] && Exact(u, ALL, t.middleSt.portfolio, note)
            && t.middleNote == note && t.middleBox == s.middleBox[1..] && t.sentMiddle == s.sentMiddle
            && t.core == s.core.(newBox := s.core.newBox + [], currBox := s.core.currBox + [Envelope(
                 NewTradePortfolio(Proposal(t.middleSt.trades, t.middleSt.portfolio, s.middleSt.market.value)),
                 s.core.sentCurr, note)])
  {
    hide DeployedInv, Legal, First, Exact, TradeDelta, AddToPresent, Snapshot, StageReady, OnMiddle, ProposalOk;
    ReadyForMessage(u, {}, s);
    MiddleFacts(u, s);
    NotYetValued(u, s);
    AddsTradeIs(u, s);
    var id := u.tradeId(s.middleHandled);
    CurrTradeExact(u, ALL, s.middleSt.portfolio, s.middleNote, id);
    var delta := TradeDelta(u.pricer, u.trade(id), u.metrics, Snapshot(u, s.middleNote.version));
    AddToPresentKeys(s.middleSt.portfolio, u.metrics, delta);
  }

  lemma AddsTradeIs(u: Setup, s: Deployed)
    requires s.middleBox != [] && s.middleBox[0].msg.NewTrade? && s.middleSt.portfolio != map[]
    requires s.middleSt.market.Some? && s.middleSt.market.value in s.core.registry.markets
    requires s.middleBox[0].msg.id in s.core.book && s.middleSt.metrics != []
    ensures var t, id := OnMiddle(u, s), s.middleBox[0].msg.id;
            var note := s.middleNote.(covered := s.middleNote.covered + {id});
            var delta := TradeDelta(u.pricer, s.core.book[id], s.middleSt.metrics,
              s.core.registry.markets[s.middleSt.market.value]);
            && t.middleSt.trades == s.middleSt.trades + {id} && t.middleSt.market == s.middleSt.market
            && t.middleSt.portfolio == AddToPresent(s.middleSt.portfolio, s.middleSt.metrics, delta)
            && t.middleNote == note && t.middleBox == s.middleBox[1..] && t.sentMiddle == s.sentMiddle
            && t.core == s.core.(newBox := s.core.newBox + [], currBox := s.core.currBox + [Envelope(
                 NewTradePortfolio(Proposal(t.middleSt.trades, t.middleSt.portfolio, s.middleSt.market.value)),
                 s.core.sentCurr, note)])
  {
    hide TradeDelta, AddToPresent;
  }

  lemma NotYetValued(u: Setup, s: Deployed)
    requires Fine(u, s) && s.middleBox != [] && s.middleBox[0].msg.NewTrade?
    ensures u.tradeId(s.middleHandled) !in s.middleNote.covered && u.tradeId(s.middleHandled) in s.core.book
    ensures Shape(u, s.middleSt.portfolio) && PV in u.metrics
  {
    ReadyForMessage(u, {}, s);
    hide DeployedInv;
    InFirst(u, s.middleHandled, s.middleHandled);
    InFirst(u, s.middleHandled, s.sentMiddle);
  }

  /** Curr accepts a proposal on New's present market and tells the middle stage what it lacked. */
  lemma BelowAccepts(u: Setup, s: Deployed)
    requires Fine(u, s) && s.core.currBox != [] && s.core.currBox[0].msg.NewTradePortfolio?
    requires s.core.currBox[0].note.version == s.core.frontier.version
    requires s.core.newSt.market.Some? && |s.core.currSt.trades| < Curr.ALLOW_BEHIND
    ensures var t, e := OnBelow(u, s), s.core.currBox[0];
            var missing := s.core.currSt.trades - PricedIn(u, e.note.covered, e.note.version);
            && t.core.currSt.trades == s.core.currSt.trades
            && t.core.currSt.market == Some(u.marketName(s.core.frontier.version))
            && t.core.currBox == s.core.currBox[1..]
            && t.core.newSt == s.core.newSt && t.core.frontier == s.core.frontier
            && t.core.sentCurr == s.core.sentCurr && t.core.arrived == s.core.arrived
            && t.core.currHandled == s.core.currHandled
            && t.middleBox == s.middleBox
                 + [Envelope(Behind(e.msg.proposal.market, missing), s.sentMiddle, s.core.frontier)]
            && t.(core := s.core, middleBox := s.middleBox) == s
            && Fine(u, t)
  {
    hide DeployedInv, Legal, OnRunCurr, Curr.OnProposal, PricedIn, Inv, ProposalOk;
    CoreInv(u, {}, s);
    AcceptsCurrent(u, s.core);
    ProposalResult(u, s.core);
    HeadProposalOk(u, s.core);
    MissingIs(u, {}, s.core.currBox[0], s.core.currSt);
    AnswerNamesMissing(u, s.core);
    BelowInv(u, {}, s);
  }

  lemma HeadProposalOk(u: Setup, s: System)
    requires Inv(u, {}, s) && s.currBox != []
    ensures ProposalOk(u, {}, s.currBox[0])
  {
    MailReceive(u, {}, s.currBox, s.currHandled, s.sentCurr, s.currNote, s.frontier);
  }

  lemma AnswerNamesMissing(u: Setup, s: System)
    requires s.currBox != [] && s.currBox[0].msg.NewTradePortfolio?
    ensures var p := s.currBox[0].msg.proposal;
            var r := Curr.OnProposal(u.pricer, u.style, s.book, s.registry, s.currSt, p);
            r.answer.Some? ==> r.answer.value == Behind(p.market, Curr.MissingFrom(s.currSt, p))
  {
    hide PriceSpec, AddPm;
  }

  /** A proposal that lacks nothing is taken over as it is. */
  lemma TakenAsIs(u: Setup, s: Deployed)
    requires PV in u.metrics && s.core.currBox != [] && s.core.currBox[0].msg.NewTradePortfolio?
    requires s.core.currSt.metrics == u.metrics && s.core.currSt.trades <= s.core.book.Keys
    requires var p := s.core.currBox[0].msg.proposal;
      && p.market in s.core.registry.markets && s.core.currSt.market == Some(p.market)
      && Curr.MissingFrom(s.core.currSt, p) == {}
    ensures var t, p := OnBelow(u, s), s.core.currBox[0].msg.proposal;
            && PmAt(t.core.currSt.portfolio, PV) == PmAt(p.portfolio, PV)
            && t.core.currSt.trades == s.core.currSt.trades && t.core.currSt.metrics == u.metrics
            && t.core.currSt.market == Some(p.market) && t.core.currBox == s.core.currBox[1..]
            && t.core.registry == s.core.registry && t.core.book == s.core.book && t.core.sentCurr == s.core.sentCurr
            && t.sentMiddle == s.sentMiddle
            && |t.core.published| > 0
            && t.core.published[|t.core.published| - 1].portfolio == t.core.currSt.portfolio
  {
    hide PriceSpec, Curr.OnProposal, OnRunCurr;
    var core, p := s.core, s.core.currBox[0].msg.proposal;
    AcceptsIff(u, core.book, core.registry, core.currSt, p);
    AcceptedIs(u, core.book, core.registry, core.currSt, p);
    ProposalResult(u, core);
    SameMarketKept(u, core);
    var nothing := PriceSpec(u.style, u.pricer, core.book, {}, u.metrics, core.registry.markets[p.market]);
    PriceSpecValue(u.style, u.pricer, core.book, {}, u.metrics, core.registry.markets[p.market], PV);
    assert {} * core.book.Keys == {};
    TimesEmpty(multiset(u.metrics)[PV]);
    PmAtAdd(p.portfolio, nothing, PV);
    AddEmpty(PmAt(p.portfolio, PV));
  }

  lemma SameMarketKept(u: Setup, s: System)
    requires s.currBox != [] && s.currBox[0].msg.NewTradePortfolio?
    requires s.currSt.market == Some(s.currBox[0].msg.proposal.market)
    ensures var p := s.currBox[0].msg.proposal;
            Curr.OnProposal(u.pricer, u.style, s.book, s.registry, s.currSt, p).registry == s.registry
  {
    hide PriceSpec, AddPm;
  }

  lemma ValueOfTheTrade(u: Setup)
    requires PricedFirst(u)
    ensures var id := u.tradeId(0);
            && Value(u, PV, Note(1, {id})) == map[id := ThePrice(u)] && PricedIn(u, {id}, 1) == {id}
            && Contribution(u.pricer, TheTrade(u), PV, Snapshot(u, 1)) == map[id := ThePrice(u)]
  {
    var id := u.tradeId(0);
    SumPick(TradeContribution(u, PV, 1), {id}, id);
    assert {id} - {id} == {};
    AddEmpty(Contribution(u.pricer, TheTrade(u), PV, Snapshot(u, 1)));
  }

  // ---------- The middle stage is ahead of Curr ----------

  /** The middle stage passes New's portfolio on and Curr accepts it; then the middle stage handles the
      trade, Curr accepts that offer too, and only now is told of the trade. */
  const OVERTAKEN: seq<Move> := OPENING + [RunMiddle, RunBelow, RunMiddle, RunBelow, AnnounceToCurr, RunBelow]

  /** Before the middle stage handles the trade. */
  lemma ToOvertaking(u: Setup)
    requires PricedFirst(u)
    ensures var s := PlaceAt(u, OVERTAKEN, 9);
            && Fine(u, s) && s.core.currBox == [] && s.core.currSt.trades == {}
            && s.core.sentCurr == 0 && s.sentMiddle == 1
            && s.core.currSt.market == Some(u.marketName(1))
            && s.middleBox != [] && s.middleBox[0].msg.NewTrade? && s.middleHandled == 0
            && s.middleSt.portfolio != map[] && s.middleSt.market == Some(u.marketName(1))
            && s.middleNote == Note(1, {}) && s.core.newSt.market.Some? && s.core.frontier.version == 1
  {
    hide Fine, First, Requested, PlaceAt, Start, Upper, OnMiddle, OnBelow, UpToDate;
    ToAnnounced(u, OVERTAKEN);
    var s := PlaceAt(u, OVERTAKEN, 7);
    UpperFields(s);
    UpperOf(s);
    StartBelow(u);
    assert Legal(u);
    Proceed(u, OVERTAKEN, 7);
    PassesOn(u, s);
    var t := PlaceAt(u, OVERTAKEN, 8);
    Proceed(u, OVERTAKEN, 8);
    BelowAccepts(u, t);
  }

  /** Curr has accepted a portfolio with the trade it has not been told of. */
  lemma ToOvertaken(u: Setup)
    requires PricedFirst(u)
    ensures var s, id := PlaceAt(u, OVERTAKEN, 11), u.tradeId(0);
            && PmAt(s.core.currSt.portfolio, PV) == map[id := ThePrice(u)] && s.core.currSt.trades == {}
            && s.core.currSt.metrics == u.metrics && s.core.currSt.market == Some(u.marketName(1))
            && s.core.currBox == [] && s.core.sentCurr == 0 && s.sentMiddle == 1
            && id in s.core.book && s.core.book[id] == TheTrade(u)
            && u.marketName(1) in s.core.registry.markets && s.core.registry.markets[u.marketName(1)] == Snapshot(u, 1)
  {
    hide First, PlaceAt, OnMiddle, OnBelow, Exact, Value, DeployedInv, Legal, PricedIn, Snapshot;
    ToOvertaking(u);
    ValueOfTheTrade(u);
    var s := PlaceAt(u, OVERTAKEN, 9);
    StoredBelow(u, s);
    MiddleFacts(u, s);
    NotYetValued(u, s);
    Proceed(u, OVERTAKEN, 9);
    AddsTrade(u, s);
    var t := PlaceAt(u, OVERTAKEN, 10);
    assert {} + {u.tradeId(0)} == {u.tradeId(0)};
    MetricExact(u, t.middleSt.portfolio, t.middleNote, PV);
    Proceed(u, OVERTAKEN, 10);
    TakenAsIs(u, t);
  }

  /** New's present market is stored, and Curr has the metrics of the setup. */
  lemma StoredBelow(u: Setup, s: Deployed)
    requires Fine(u, s)
    ensures s.core.newSt.market.Some? ==> u.marketName(s.core.frontier.version) in s.core.registry.markets
    ensures s.core.currSt.metrics == u.metrics && PV in u.metrics && s.core.currSt.trades <= s.core.book.Keys
  {
    hide Inv, DeployedInv;
    CoreInv(u, {}, s);
    CurrKnowsFiled(u, s.core);
    if s.core.newSt.market.Some? {
      MarketOfNew(u, s.core);
    }
  }

  lemma Twice(k: string, x: real)
    ensures Add(map[k := x], map[k := x]) == map[k := 2.0 * x]
  {
  }

  /** Curr adds a trade that its portfolio values already. */
  lemma AddsAgain(u: Setup, s: Deployed)
    requires u.mode.DoubleBuffer? && PV in u.metrics && Distinct(u.metrics)
    requires s.core.currBox != [] && s.core.currBox[0].msg.NewTrade? && s.core.currSt.metrics == u.metrics
    requires s.core.currBox[0].msg.id in s.core.book && PmAt(s.core.currSt.portfolio, PV) != map[]
    requires s.core.currSt.market.Some? && s.core.currSt.market.value in s.core.registry.markets
    ensures var t, id := OnBelow(u, s).core, s.core.currBox[0].msg.id;
            && t.currSt.trades == s.core.currSt.trades + {id}
            && PmAt(t.currSt.portfolio, PV) == Add(PmAt(s.core.currSt.portfolio, PV),
                 Contribution(u.pricer, s.core.book[id], PV, s.core.registry.markets[s.core.currSt.market.value]))
            && |t.published| > 0 && PmAt(t.published[|t.published| - 1].portfolio, PV) == PmAt(t.currSt.portfolio, PV)
  {
    hide OnRunCurr, AddToPresent;
    var st, id := s.core.currSt, s.core.currBox[0].msg.id;
    TradeResult(u, s.core);
    var delta := TradeDelta(u.pricer, s.core.book[id], u.metrics, s.core.registry.markets[st.market.value]);
    AddToPresentKeys(st.portfolio, u.metrics, delta);
    AddToPresentValue(st.portfolio, u.metrics, delta, PV);
    DistinctCounts(u.metrics, PV);
    TimesOne(PmAt(delta, PV));
  }

  /** If the middle stage handles a trade before Curr is told of it, Curr ends up holding and publishing
      twice its PV. */
  lemma OvertakenTradeCountedTwice(u: Setup)
    requires PricedFirst(u)
    ensures var s, id := Play(u, Start(u), OVERTAKEN).core, u.tradeId(0);
            && s.currSt.trades == {id} && Value(u, PV, Note(1, {id})) == map[id := ThePrice(u)]
            && PmAt(s.currSt.portfolio, PV) == map[id := 2.0 * ThePrice(u)]
            && |s.published| > 0
            && PmAt(s.published[|s.published| - 1].portfolio, PV) == map[id := 2.0 * ThePrice(u)]
  {
    hide First, PlaceAt, OnMiddle, OnBelow, Exact, Value, PricedIn, Snapshot, Contribution, Play, Add;
    ToOvertaken(u);
    ValueOfTheTrade(u);
    var s := PlaceAt(u, OVERTAKEN, 11);
    Proceed(u, OVERTAKEN, 11);
    var t := PlaceAt(u, OVERTAKEN, 12);
    assert t.core.currBox == [Envelope(NewTrade(u.tradeId(0)), 0, s.core.frontier)];
    Proceed(u, OVERTAKEN, 12);
    assert u.tradeId(0) in PmAt(t.core.currSt.portfolio, PV);
    AddsAgain(u, t);
    Twice(u.tradeId(0), ThePrice(u));
    EndOf(u, OVERTAKEN);
  }

  lemma EndOf(u: Setup, run: seq<Move>)
    ensures PlaceAt(u, run, |run|) == Play(u, Start(u), run)
  {
    assert run[..|run|] == run;
  }

  // ---------- An answer of Curr ----------

  /** The trade is announced to Curr at once, and every message is handled in order, except for Curr's
      answer: New's portfolio, which the middle stage passed on before it handled the trade, lacks the
      trade that Curr knows by then. */
  const ANSWERED: seq<Move> := OPENING + [
    AnnounceToCurr, RunMiddle, RunMiddle, RunBelow, RunBelow, RunBelow, RunMiddle, RunBelow]

  lemma ToFirstOffer(u: Setup)
    requires PricedFirst(u)
    ensures var s := PlaceAt(u, ANSWERED, 9);
            && Fine(u, s) && s.core.newSt.market.Some? && s.core.frontier.version == 1
            && s.middleBox != [] && s.middleBox[0].msg.NewTrade? && |s.middleBox| == 1 && s.middleHandled == 0
            && s.middleSt.portfolio != map[] && s.middleSt.market == Some(u.marketName(1))
            && s.middleNote == Note(1, {}) && s.core.sentCurr == 1 && s.core.currSt.trades == {}
            && |s.core.currBox| == 2 && s.core.currBox[0].msg == NewTrade(u.tradeId(0))
            && s.core.currBox[1].msg.NewTradePortfolio? && s.core.currBox[1].note == Note(1, {})
  {
    hide Fine, First, Requested, PlaceAt, Start, Upper, OnMiddle, UpToDate;
    ToAnnounced(u, ANSWERED);
    var s := PlaceAt(u, ANSWERED, 7);
    UpperFields(s);
    UpperOf(s);
    StartBelow(u);
    assert Legal(u);
    Proceed(u, ANSWERED, 7);
    var t := PlaceAt(u, ANSWERED, 8);
    UpperSame(s, t);
    Proceed(u, ANSWERED, 8);
    PassesOn(u, t);
  }

  /** The middle stage has offered two portfolios, the second one with the trade. */
  lemma ToTwoOffers(u: Setup)
    requires PricedFirst(u)
    ensures var s, id := PlaceAt(u, ANSWERED, 10), u.tradeId(0);
            && Fine(u, s) && s.middleBox == [] && s.core.newSt.market.Some? && s.core.frontier.version == 1
            && s.middleSt.market == Some(u.marketName(1)) && s.middleNote == Note(1, {id})
            && s.core.currSt.trades == {} && |s.core.currBox| == 3 && s.core.currBox[0].msg == NewTrade(id)
            && s.core.currBox[1].msg.NewTradePortfolio? && s.core.currBox[1].note == Note(1, {})
            && s.core.currBox[2].msg.NewTradePortfolio? && s.core.currBox[2].note == Note(1, {id})
  {
    hide First, Requested, PlaceAt, OnMiddle, DeployedInv, Legal, Exact;
    ToFirstOffer(u);
    var s := PlaceAt(u, ANSWERED, 9);
    StoredBelow(u, s);
    Proceed(u, ANSWERED, 9);
    AddsTrade(u, s);
    assert {} + {u.tradeId(0)} == {u.tradeId(0)};
  }

  lemma UpperSame(s: Deployed, t: Deployed)
    requires t == s.(core := s.core.(currBox := t.core.currBox, sentCurr := t.core.sentCurr))
    ensures Upper(t) == Upper(s)
  {
  }

  /** Curr learns of a trade. */
  lemma BelowLearns(u: Setup, s: Deployed)
    requires Fine(u, s) && s.core.currBox != [] && s.core.currBox[0].msg.NewTrade?
    ensures var t := OnBelow(u, s);
            && t.core.currSt.trades == s.core.currSt.trades + {s.core.currBox[0].msg.id}
            && t.core.currBox == s.core.currBox[1..]
            && t.core.newSt == s.core.newSt && t.core.frontier == s.core.frontier
            && t.(core := s.core) == s && Fine(u, t)
  {
    hide DeployedInv, Legal, OnRunCurr;
    TradeResult(u, s.core);
    assert s.middleBox + [] == s.middleBox;
    BelowInv(u, {}, s);
    assert u.mode.DoubleBuffer? by { ModeIs(u, s); }
  }

  lemma ModeIs(u: Setup, s: Deployed)
    requires DeployedInv(u, {}, s)
    ensures u.mode.DoubleBuffer?
  {
  }

  /** Curr has accepted both, and the middle stage will be told that the first one lacked the trade. */
  lemma ToAnswer(u: Setup)
    requires PricedFirst(u)
    ensures var s, id := PlaceAt(u, ANSWERED, 13), u.tradeId(0);
            && Fine(u, s) && s.core.currBox == [] && s.core.newSt.market.Some? && s.core.frontier.version == 1
            && s.middleSt.market == Some(u.marketName(1)) && s.middleNote == Note(1, {id})
            && s.core.currSt.trades == {id} && s.core.currSt.market == Some(u.marketName(1))
            && s.middleBox != [] && s.middleBox[0].msg.Behind? && s.middleBox[0].msg.missing == {id}
  {
    hide First, PlaceAt, OnMiddle, OnBelow, DeployedInv, Legal, PricedIn, Fine, Snapshot;
    ToTwoOffers(u);
    var s := PlaceAt(u, ANSWERED, 10);
    Proceed(u, ANSWERED, 10);
    BelowLearns(u, s);
    assert {} + {u.tradeId(0)} == {u.tradeId(0)};
    var t := PlaceAt(u, ANSWERED, 11);
    Proceed(u, ANSWERED, 11);
    BelowAccepts(u, t);
    assert PricedIn(u, {}, 1) == {} by { NothingPriced(u); }
    var w := PlaceAt(u, ANSWERED, 12);
    Proceed(u, ANSWERED, 12);
    BelowAccepts(u, w);
  }

  lemma NothingPriced(u: Setup)
    ensures PricedIn(u, {}, 1) == {}
  {
  }

  /** Told of a trade that it values already, the middle stage offers it twice. */
  lemma ToDoubledOffer(u: Setup)
    requires PricedFirst(u)
    ensures var s, id := PlaceAt(u, ANSWERED, 14), u.tradeId(0);
            && |s.core.currBox| == 1 && s.core.currBox[0].msg.NewTradePortfolio?
            && s.core.currBox[0].msg.proposal.market == u.marketName(1)
            && PmAt(s.core.currBox[0].msg.proposal.portfolio, PV) == map[id := 2.0 * ThePrice(u)]
            && u.marketName(1) in s.core.registry.markets && s.core.currSt.market == Some(u.marketName(1))
            && s.core.currSt.trades == {id} && s.core.currSt.metrics == u.metrics && PV in u.metrics
            && s.core.currSt.trades <= s.core.book.Keys
  {
    hide First, PlaceAt, OnMiddle, DeployedInv, Legal, Value, PricedIn, Contribution, Snapshot, Add, PriceSpec, AddPm,
         Orderly, Exact;
    ToAnswer(u);
    ValueOfTheTrade(u);
    var s := PlaceAt(u, ANSWERED, 13);
    StoredBelow(u, s);
    Proceed(u, ANSWERED, 13);
    AnswerIs(u, s);
    AnswerAdds(u, s, PV);
    Twice(u.tradeId(0), ThePrice(u));
  }

  /** In the natural order of all messages: Curr ends up holding and publishing twice the PV of the trade. */
  lemma AnsweredTradeCountedTwice(u: Setup)
    requires PricedFirst(u)
    ensures var s, id := Play(u, Start(u), ANSWERED).core, u.tradeId(0);
            && s.currSt.trades == {id} && Value(u, PV, Note(1, {id})) == map[id := ThePrice(u)]
            && PmAt(s.currSt.portfolio, PV) == map[id := 2.0 * ThePrice(u)]
            && |s.published| > 0
            && PmAt(s.published[|s.published| - 1].portfolio, PV) == map[id := 2.0 * ThePrice(u)]
  {
    hide PlaceAt, OnMiddle, OnBelow, Legal, Value, PricedIn, Contribution, Snapshot, Play;
    ToDoubledOffer(u);
    ValueOfTheTrade(u);
    var s := PlaceAt(u, ANSWERED, 14);
    Proceed(u, ANSWERED, 14);
    assert u.tradeId(0) in PmAt(s.core.currBox[0].msg.proposal.portfolio, PV);
    assert Curr.MissingFrom(s.core.currSt, s.core.currBox[0].msg.proposal) == {};
    TakenAsIs(u, s);
    EndOf(u, ANSWERED);
  }

  lemma UpperOf(s: Deployed)
    ensures var p := PositionOf(Upper(s));
            && p.currMarket == s.middleSt.market && p.currTrades == s.middleSt.trades && p.currNote == s.middleNote
            && p.frontier == s.core.frontier && p.market == s.core.newSt.market.Some? && p.sentCurr == s.sentMiddle
            && p.currBox == Kinds(s.middleBox) && |s.middleBox| == |p.currBox|
    ensures |s.middleBox| == 2 ==> KindOf(s.middleBox[1].msg) == Kinds(s.middleBox)[1]
  {
  }

  lemma StartBelow(u: Setup)
    ensures var s := Start(u);
            && s.core.currBox == [] && s.core.sentCurr == 0
            && s.core.currSt.trades == {} && s.core.currSt.market == None
            && s.middleHandled == 0 && s.middleNote == Note(0, {}) && s.core.currHandled == 0
  {
  }

  // ---------- Such a pipeline exists ----------

  function CashDesk(style: PricingStyle): Setup {
    Setup(PRICER, style, Curr.DoubleBuffer, [PV, PV01, PnL], (n: nat) => Label(n),
          (n: nat) => Tick(Stock("T"), 1.0), (n: nat) => Label(n), id => Cash(id, 1.0))
  }

  lemma CashDeskIsOne(style: PricingStyle)
    requires !style.Sequential?
    ensures PricedFirst(CashDesk(style))
  {
    LabelsAreNames();
  }
}
