/** Following a concrete run of the pipeline event by event, without looking into portfolios. */
module PipelineRuns {
  import opened Wrappers
  import opened Portfolios
  import opened Trades
  import opened MarketRegistry
  import opened BulkPricing
  import opened Messages
  import opened Pipeline
  import opened PipelineInvariant
  import opened PipelineSteps
  import opened PipelineTheorems
  import New = ProcessorNewActor
  import Bulk = ProcessorBulkActor
  import Curr = ProcessorCurrActor

  datatype Kind = OfTrade | OfMarket | OfBehind | OfBulk | OfProposal | Other

  function KindOf(msg: Message): Kind {
    match msg
    case NewTrade(_) => OfTrade
    case NewMarket(_) => OfMarket
    case Behind(_, _) => OfBehind
    case BulkReceive(_, _, _, _) => OfBulk
    case NewTradePortfolio(_) => OfProposal
    case _ => Other
  }

  function Kinds(box: seq<Envelope>): seq<Kind> {
    seq(|box|, i requires 0 <= i < |box| => KindOf(box[i].msg))
  }

  function Requested(box: seq<BulkRequest>): seq<string> {
    seq(|box|, i requires 0 <= i < |box| => box[i].market)
  }

  /** A state without the contents of the book, of portfolios and of messages. */
  datatype Position = Position(
    version: nat, notify: bool, arrived: nat, sentCurr: nat, sentNew: nat,
    newBox: seq<Kind>, bulkBox: seq<string>, currBox: seq<Kind>,
    single: bool, market: bool, frontier: Note,
    users: map<string, string>, currMarket: Option<string>, currTrades: set<TradeId>, currNote: Note)

  function PositionOf(s: System): Position {
    Position(s.version, s.notify, s.arrived, s.sentCurr, s.sentNew,
             Kinds(s.newBox), Requested(s.bulkBox), Kinds(s.currBox),
             s.newSt.mode.CalculatingSingle?, s.newSt.market.Some?, s.frontier,
             s.registry.users, s.currSt.market, s.currSt.trades, s.currNote)
  }

  /** The proposals under way are New's present portfolio. */
  ghost predicate UpToDate(s: System) {
    forall i :: 0 <= i < |s.currBox| && s.currBox[i].msg.NewTradePortfolio? ==> s.currBox[i].note == s.frontier
  }

  lemma KindsAppend(box: seq<Envelope>, e: Envelope)
    ensures Kinds(box + [e]) == Kinds(box) + [KindOf(e.msg)]
    ensures box != [] ==> Kinds(box)[0] == KindOf(box[0].msg) && Kinds(box[1..]) == Kinds(box)[1..]
    ensures |Kinds(box)| == |box|
  {
  }

  lemma NoKinds()
    ensures Kinds([]) == [] && Requested([]) == []
  {
  }

  lemma FirstKind(box: seq<Envelope>)
    requires Kinds(box) != []
    ensures box != [] && KindOf(box[0].msg) == Kinds(box)[0]
  {
  }

  lemma NoBox(box: seq<Envelope>)
    requires Kinds(box) == []
    ensures box == []
  {
    assert |Kinds(box)| == |box|;
  }

  lemma RequestedAppend(box: seq<BulkRequest>, r: BulkRequest)
    ensures Requested(box + [r]) == Requested(box) + [r.market]
    ensures box != [] ==> Requested(box)[0] == box[0].market && Requested(box[1..]) == Requested(box)[1..]
    ensures |Requested(box)| == |box|
  {
  }

  // ---------- Single events ----------

  lemma TickStep(u: Setup, s: System)
    requires UpToDate(s)
    ensures PositionOf(OnTick(u, s)) == PositionOf(s).(version := s.version + 1, notify := true)
    ensures UpToDate(OnTick(u, s)) && OnTick(u, s).currSt == s.currSt
  {
  }

  lemma NotifyStep(u: Setup, s: System)
    requires UpToDate(s)
    ensures PositionOf(OnNotify(s)) == PositionOf(s).(notify := false, newBox := Kinds(s.newBox) + [OfMarket])
    ensures UpToDate(OnNotify(s)) && OnNotify(s).currSt == s.currSt
  {
    hide Kinds;
    KindsAppend(s.newBox, Envelope(NewMarket(FUTURE), s.sentNew, s.frontier));
  }

  lemma ArrivalStep(u: Setup, s: System)
    requires UpToDate(s)
    ensures PositionOf(OnTradeArrives(u, s)) == PositionOf(s).(arrived := s.arrived + 1)
    ensures UpToDate(OnTradeArrives(u, s)) && OnTradeArrives(u, s).registry == s.registry
    ensures OnTradeArrives(u, s).currSt == s.currSt
  {
  }

  lemma SendToCurrStep(u: Setup, s: System)
    requires UpToDate(s)
    ensures PositionOf(OnSendToCurr(u, s))
         == PositionOf(s).(sentCurr := s.sentCurr + 1, currBox := Kinds(s.currBox) + [OfTrade])
    ensures UpToDate(OnSendToCurr(u, s)) && OnSendToCurr(u, s).registry == s.registry
    ensures OnSendToCurr(u, s).currSt == s.currSt
  {
    hide Kinds;
    KindsAppend(s.currBox, Envelope(NewTrade(u.tradeId(s.sentCurr)), s.sentCurr, s.frontier));
  }

  lemma SendToNewStep(u: Setup, s: System)
    requires UpToDate(s)
    ensures PositionOf(OnSendToNew(u, s))
         == PositionOf(s).(sentNew := s.sentNew + 1, newBox := Kinds(s.newBox) + [OfTrade])
    ensures UpToDate(OnSendToNew(u, s))
  {
    hide Kinds;
    KindsAppend(s.newBox, Envelope(NewTrade(u.tradeId(s.sentNew)), s.sentNew, s.frontier));
  }

  lemma MarketStep(u: Setup, s: System)
    requires Legal(u) && Inv(u, {}, s) && s.newBox != [] && s.newBox[0].msg.NewMarket?
    requires s.newSt.mode.CalculatingSingle? && s.currBox == []
    ensures var t, name := OnRunNew(u, s), u.marketName(s.version);
            && PositionOf(t) == PositionOf(s).(
                 newBox := Kinds(s.newBox)[1..], bulkBox := Requested(s.bulkBox) + [name],
                 single := false, market := true, frontier := Note(s.version, s.newSt.trades),
                 users := s.registry.users[New.NAME := name])
            && UpToDate(t) && t.currSt == s.currSt
  {
    hide Inv, OnRunNew, Legal, Kinds, Requested;
    Facts(u, {}, s);
    RunNewIs(u, s);
    KindsAppend(s.newBox, s.newBox[0]);
    RequestedAppend(s.bulkBox, BulkRequest(u.marketName(s.version), s.newSt.trades, s.newSt.metrics));
  }

  lemma BulkStep(u: Setup, s: System)
    requires s.bulkBox != [] && UpToDate(s)
    ensures var t := OnRunBulk(u, s);
            && PositionOf(t) == PositionOf(s).(
                 newBox := Kinds(s.newBox) + [OfBulk], bulkBox := Requested(s.bulkBox)[1..],
                 users := s.registry.users[Bulk.NAME := Requested(s.bulkBox)[0]])
            && UpToDate(t) && NoLeak(t.registry) && t.currSt == s.currSt
  {
    hide Kinds, Requested;
    var r := Bulk.OnNewBulk(u.pricer, u.style, s.book, s.registry, s.bulkBox[0]);
    KindsAppend(s.newBox, Envelope(r.reply, s.sentNew, s.frontier));
    RequestedAppend(s.bulkBox, s.bulkBox[0]);
    InsertProcessorKeeps(s.registry, Bulk.NAME, s.bulkBox[0].market);
  }

  lemma ReceiveStep(u: Setup, s: System)
    requires s.newBox != [] && s.newBox[0].msg.BulkReceive? && UpToDate(s)
    ensures var t := OnRunNew(u, s);
            && PositionOf(t) == PositionOf(s).(
                 newBox := Kinds(s.newBox)[1..], currBox := Kinds(s.currBox) + [OfProposal],
                 single := true, market := true)
            && UpToDate(t) && t.currSt == s.currSt
  {
    hide OnRunNew, Kinds;
    RunNewIs(u, s);
    KindsAppend(s.newBox, s.newBox[0]);
    KindsAppend(s.currBox, Received(s).currBox[|s.currBox|]);
  }

  lemma BehindStep(u: Setup, s: System)
    requires s.newBox != [] && s.newBox[0].msg.Behind? && UpToDate(s)
    ensures PositionOf(OnRunNew(u, s)) == PositionOf(s).(newBox := Kinds(s.newBox)[1..])
    ensures UpToDate(OnRunNew(u, s)) && OnRunNew(u, s).currSt == s.currSt
  {
    hide OnRunNew, Kinds;
    RunNewIs(u, s);
    KindsAppend(s.newBox, s.newBox[0]);
  }

  lemma TradeStep(u: Setup, s: System)
    requires Legal(u) && Inv(u, {}, s) && s.newBox != [] && s.newBox[0].msg.NewTrade?
    requires s.newSt.mode.CalculatingSingle? && s.newSt.market.Some? && s.currBox == []
    ensures var t := OnRunNew(u, s);
            var frontier := s.frontier.(covered := s.frontier.covered + {s.newBox[0].msg.id});
            && PositionOf(t) == PositionOf(s).(
                 newBox := Kinds(s.newBox)[1..], currBox := [OfProposal], frontier := frontier)
            && UpToDate(t) && t.currSt == s.currSt
  {
    hide Inv, OnRunNew, Legal, Kinds, AddMetrics, TradeDelta;
    AlwaysCanPrice(u, {}, s);
    RunNewIs(u, s);
    KindsAppend(s.newBox, s.newBox[0]);
    var t := OnRunNew(u, s);
    KindsAppend([], t.currBox[0]);
    assert [] + [t.currBox[0]] == t.currBox;
    NoKinds();
  }

  /** The first acceptance: Curr has no market yet, so it registers none. */
  lemma FirstAcceptStep(u: Setup, s: System)
    requires Legal(u) && Inv(u, {}, s) && s.currBox != [] && s.currBox[0].msg.NewTradePortfolio? && UpToDate(s)
    requires s.newSt.market.Some? && |s.currSt.trades| < Curr.ALLOW_BEHIND && s.currSt.market.None?
    ensures var t := OnRunCurr(u, s);
            PositionOf(t) == PositionOf(s).(
              newBox := Kinds(s.newBox) + [OfBehind], currBox := Kinds(s.currBox)[1..],
              currMarket := Some(u.marketName(s.frontier.version)),
              currNote := Note(s.frontier.version, s.frontier.covered + s.currSt.trades))
    ensures UpToDate(OnRunCurr(u, s))
  {
    hide Inv, OnRunCurr, Legal, Kinds, Curr.OnProposal, PricedIn, First, Snapshot;
    AcceptStep(u, s);
    var t := OnRunCurr(u, s);
    ProposalResult(u, s);
    NothingRegistered(u, s);
  }

  lemma NothingRegistered(u: Setup, s: System)
    requires s.currBox != [] && s.currBox[0].msg.NewTradePortfolio? && s.currSt.market.None?
    ensures var p := s.currBox[0].msg.proposal;
            Curr.OnProposal(u.pricer, u.style, s.book, s.registry, s.currSt, p).registry == s.registry
  {
    hide PriceSpec, AddPm;
  }

  /** A proposal on New's present market is accepted if Curr knows few trades. */
  lemma AcceptsCurrent(u: Setup, s: System)
    requires Legal(u) && Inv(u, {}, s) && s.currBox != [] && s.currBox[0].msg.NewTradePortfolio?
    requires s.currBox[0].note.version == s.frontier.version
    requires s.newSt.market.Some? && |s.currSt.trades| < Curr.ALLOW_BEHIND
    ensures var p := s.currBox[0].msg.proposal;
            var r := Curr.OnProposal(u.pricer, u.style, s.book, s.registry, s.currSt, p);
            && r.published == Some(r.st.portfolio) && r.answer.Some? && r.answer.value.Behind?
            && r.st.trades == s.currSt.trades && r.st.market == Some(p.market)
            && p.market == u.marketName(s.frontier.version)
  {
    hide Inv, Legal, Curr.OnProposal, PricedIn, Snapshot;
    ProposalDecision(u, s);
    MarketOfNew(u, s);
    FewerMissing(s.currSt.trades, PricedIn(u, s.currBox[0].note.covered, s.frontier.version));
    AnswerOfAccepted(u, s);
    AcceptedIs(u, s.book, s.registry, s.currSt, s.currBox[0].msg.proposal);
  }

  lemma AcceptStep(u: Setup, s: System)
    requires Legal(u) && Inv(u, {}, s) && s.currBox != [] && s.currBox[0].msg.NewTradePortfolio? && UpToDate(s)
    requires s.newSt.market.Some? && |s.currSt.trades| < Curr.ALLOW_BEHIND
    ensures var t := OnRunCurr(u, s);
            && PositionOf(t) == PositionOf(s).(
                 newBox := Kinds(s.newBox) + [OfBehind], currBox := Kinds(s.currBox)[1..], users := t.registry.users,
                 currMarket := Some(u.marketName(s.frontier.version)),
                 currNote := Note(s.frontier.version, s.frontier.covered + s.currSt.trades))
            && UpToDate(t) && |t.published| == |s.published| + 1
            && t.published[|s.published|] == Publication(t.currSt.portfolio, t.currNote, true, s.currSt.trades)
  {
    hide Inv, OnRunCurr, Legal, Kinds, Curr.OnProposal;
    AcceptsCurrent(u, s);
    ProposalResult(u, s);
    KindsAppend(s.currBox, s.currBox[0]);
    var r := Curr.OnProposal(u.pricer, u.style, s.book, s.registry, s.currSt, s.currBox[0].msg.proposal);
    KindsAppend(s.newBox, Envelope(r.answer.value, s.sentNew, s.frontier));
  }

  lemma FewerMissing(known: set<TradeId>, priced: set<TradeId>)
    ensures |known - priced| <= |known|
  {
    assert known == (known - priced) + known * priced;
  }

  lemma AnswerOfAccepted(u: Setup, s: System)
    requires s.currBox != [] && s.currBox[0].msg.NewTradePortfolio?
    ensures var r := Curr.OnProposal(u.pricer, u.style, s.book, s.registry, s.currSt, s.currBox[0].msg.proposal);
            r.published.Some? ==> r.answer.Some? && r.answer.value.Behind?
  {
    hide PriceSpec, AddPm;
  }

  lemma CurrTradeStep(u: Setup, s: System)
    requires s.currBox != [] && s.currBox[0].msg.NewTrade? && UpToDate(s)
    ensures var t := OnRunCurr(u, s);
            && PositionOf(t) == PositionOf(s).(
                 currBox := Kinds(s.currBox)[1..], currTrades := t.currSt.trades, currNote := t.currNote)
            && UpToDate(t)
  {
    hide OnRunCurr, Kinds;
    TradeResult(u, s);
    KindsAppend(s.currBox, s.currBox[0]);
    assert s.newBox + [] == s.newBox;
  }

  /** A parallel bulk returns every metric, even on no trades. */
  lemma FullReply(u: Setup, s: System)
    requires Legal(u) && Inv(u, {}, s) && s.bulkBox != [] && !u.style.Sequential? && s.newBox == []
    ensures var t := OnRunBulk(u, s);
            t.newBox != [] && t.newBox[0].msg.BulkReceive? && t.newBox[0].msg.portfolio != map[]
  {
    hide RegistryOk, Fifo, NewTradesOk, NewPortfolioOk, MailOk, CurrOk, PublishedOk, NewMarketOk;
    Facts(u, {}, s);
    BookFacts(u, s.book, s.arrived, s.sentCurr, s.sentNew);
    var req := s.bulkBox[0];
    assert req == BulkRequest(u.marketName(s.frontier.version), s.frontier.covered, u.metrics);
    BulkReplyOk(u, s.book, s.registry, s.version, s.newSt.market, s.frontier);
    var market := InsertProcessor(s.registry, Bulk.NAME, req.market).markets[req.market];
    AddMetricsKeys(map[], u.metrics, BookValue(u.pricer, s.book, req.trades * s.book.Keys, u.metrics, market));
    assert PV in PriceSpec(u.style, u.pricer, s.book, req.trades, u.metrics, market);
  }

  lemma FullOffer(u: Setup, s: System)
    requires Legal(u) && Inv(u, {}, s) && s.newBox != [] && s.newBox[0].msg.BulkReceive? && s.currBox == []
    requires s.newBox[0].msg.portfolio != map[]
    ensures var t := OnRunNew(u, s);
            && t.currBox != [] && t.currBox[0].msg.NewTradePortfolio? && t.currBox[0].msg.proposal.portfolio != map[]
  {
    hide OnRunNew, Inv;
    RunNewIs(u, s);
    var m :| m in s.newBox[0].msg.portfolio;
    assert m in AssignPm(s.newSt.portfolio, s.newBox[0].msg.portfolio);
  }

  // ---------- Runs ----------

  /** The state after the first k events of a run. */
  ghost function StateAt(u: Setup, run: seq<Event>, k: nat): System
    requires k <= |run|
  {
    Exec(u, Init(u), run[..k])
  }

  lemma Advance(u: Setup, run: seq<Event>, k: nat)
    requires Legal(u) && k < |run|
    ensures Enabled(StateAt(u, run, k), run[k]) ==> StateAt(u, run, k + 1) == Step(u, StateAt(u, run, k), run[k])
    ensures Inv(u, {}, StateAt(u, run, k))
  {
    hide Inv, Legal, Step, Enabled;
    Reachable(u, {}, run[..k]);
    assert run[..k + 1][..k] == run[..k];
  }

  lemma WholeRun(u: Setup, run: seq<Event>)
    ensures StateAt(u, run, |run|) == Exec(u, Init(u), run)
  {
    assert run[..|run|] == run;
  }

  lemma StateAtIs(u: Setup, run: seq<Event>, k: nat)
    requires k <= |run|
    ensures StateAt(u, run, k) == Exec(u, Init(u), run[..k])
  {
  }

  /** What Curr and New can know of the trades. */
  lemma KnownTrades(u: Setup, s: System)
    requires Legal(u) && Inv(u, {}, s) && u.mode.DoubleBuffer?
    ensures s.currSt.trades <= First(u, s.sentCurr) && s.newSt.trades <= First(u, s.sentNew)
  {
    Facts(u, {}, s);
    FirstGrows(u, s.currHandled, s.sentCurr);
  }

  lemma OneTrade(u: Setup)
    ensures First(u, 0) == {} && First(u, 1) == {u.tradeId(0)}
  {
  }

  /** A tick; New switches to the market and has no trade priced on it in bulk; Curr takes that over. */
  const WARM_UP: seq<Event> := [TickArrives, NotifyMarket, RunNew, RunBulk, RunNew, RunCurr]

  /** Who works on the first market after its bulk. */
  function FirstUsers(u: Setup): map<string, string> {
    map[New.NAME := u.marketName(1), Bulk.NAME := u.marketName(1)]
  }

  lemma ToNotification(u: Setup, run: seq<Event>)
    requires Legal(u) && WARM_UP <= run
    ensures var s := StateAt(u, run, 2);
            && PositionOf(s) == Position(1, false, 0, 0, 0, [OfMarket], [], [], true, false, Note(0, {}),
                                         map[], None, {}, Note(0, {}))
            && UpToDate(s) && s.currSt == Init(u).currSt
  {
    hide Inv, Legal, Replay, First, Kinds, Requested;
    NoKinds();
    assert run[..0] == [];
    assert run[0] == WARM_UP[0] && run[1] == WARM_UP[1];
    Advance(u, run, 0);
    TickStep(u, StateAt(u, run, 0));
    Advance(u, run, 1);
    NotifyStep(u, StateAt(u, run, 1));
  }

  lemma ToMarket(u: Setup, run: seq<Event>)
    requires Legal(u) && u.mode.DoubleBuffer? && WARM_UP <= run
    ensures var s := StateAt(u, run, 3);
            && PositionOf(s) == Position(1, false, 0, 0, 0, [], [u.marketName(1)], [], false, true, Note(1, {}),
                                         map[New.NAME := u.marketName(1)], None, {}, Note(0, {}))
            && UpToDate(s) && s.currSt == Init(u).currSt
  {
    hide Inv, Legal, OnRunNew, First, Kinds, Requested, StateAt, Init;
    ToNotification(u, run);
    assert run[2] == WARM_UP[2];
    Advance(u, run, 2);
    var s := StateAt(u, run, 2);
    FirstKind(s.newBox);
    NoBox(s.currBox);
    KnownTrades(u, s);
    OneTrade(u);
    MarketStep(u, s);
  }

  lemma ToFirstProposal(u: Setup, run: seq<Event>)
    requires Legal(u) && u.mode.DoubleBuffer? && WARM_UP <= run
    ensures var s := StateAt(u, run, 5);
            && PositionOf(s) == Position(1, false, 0, 0, 0, [], [], [OfProposal], true, true, Note(1, {}),
                                         FirstUsers(u), None, {}, Note(0, {}))
            && UpToDate(s)
  {
    hide Inv, Legal, OnRunNew, OnRunBulk, Kinds, Requested, StateAt, Init;
    ToMarket(u, run);
    assert run[3] == WARM_UP[3] && run[4] == WARM_UP[4];
    Advance(u, run, 3);
    RequestedAppend(StateAt(u, run, 3).bulkBox, BulkRequest("", {}, []));
    BulkStep(u, StateAt(u, run, 3));
    Advance(u, run, 4);
    FirstKind(StateAt(u, run, 4).newBox);
    ReceiveStep(u, StateAt(u, run, 4));
  }

  lemma AfterWarmUp(u: Setup, run: seq<Event>)
    requires Legal(u) && u.mode.DoubleBuffer? && WARM_UP <= run
    ensures var s := StateAt(u, run, 6);
            && PositionOf(s) == Position(1, false, 0, 0, 0, [OfBehind], [], [], true, true, Note(1, {}),
                                         FirstUsers(u), Some(u.marketName(1)), {}, Note(1, {}))
            && UpToDate(s)
  {
    hide Inv, Legal, OnRunCurr, Kinds, Requested, StateAt, Init, First;
    ToFirstProposal(u, run);
    assert run[5] == WARM_UP[5];
    Advance(u, run, 5);
    FirstKind(StateAt(u, run, 5).currBox);
    FirstAcceptStep(u, StateAt(u, run, 5));
  }
}
