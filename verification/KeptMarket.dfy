/** A run in which the registration of Curr matters: the third market would otherwise drop the second one,
    on which Curr goes on to value a trade. */
module KeptMarket {
  import opened Wrappers
  import opened Portfolios
  import opened Trades
  import opened MarketRegistry
  import opened BulkPricing
  import opened Messages
  import opened Pipeline
  import opened PipelineInvariant
  import opened PipelineSteps
  import opened PipelineTheorems
  import opened PipelineRuns
  import opened ProcessorMarkets
  import New = ProcessorNewActor
  import Bulk = ProcessorBulkActor
  import Curr = ProcessorCurrActor

  /** A tick comes, New switches to it and has its bulk started. */
  const SWITCH: seq<Event> := [RunNew, TickArrives, NotifyMarket, RunNew, RunBulk]

  /** Two markets are accepted, a third one has its bulk, and a trade arrives and is announced to Curr. */
  const KEPT: seq<Event> := WARM_UP + SWITCH + [RunNew, RunCurr] + SWITCH + [TradeArrives, SendToCurr, RunCurr]

  /** Curr has accepted New's portfolio on version v, and nothing else is under way. */
  ghost predicate Idle(u: Setup, s: System, v: nat) {
    && PositionOf(s) == Position(v, false, 0, 0, 0, [OfBehind], [], [], true, true, Note(v, {}), s.registry.users,
                                 Some(u.marketName(v)), {}, Note(v, {}))
    && UpToDate(s)
  }

  /** Curr is where it was, and the bulk on the next version is complete. */
  ghost predicate Switched(u: Setup, s: System, v: nat) {
    && PositionOf(s) == Position(v + 1, false, 0, 0, 0, [OfBulk], [], [], false, true, Note(v + 1, {}),
                                 s.registry.users, Some(u.marketName(v)), {}, Note(v, {}))
    && UpToDate(s)
  }

  lemma ToNotified(u: Setup, run: seq<Event>, k: nat, v: nat)
    requires Legal(u) && k + 5 <= |run| && run[k..k + 5] == SWITCH && Idle(u, StateAt(u, run, k), v)
    ensures var s := StateAt(u, run, k + 3);
            && PositionOf(s) == Position(v + 1, false, 0, 0, 0, [OfMarket], [], [], true, true, Note(v, {}),
                                         s.registry.users, Some(u.marketName(v)), {}, Note(v, {}))
            && UpToDate(s) && s.currSt == StateAt(u, run, k).currSt
  {
    hide Inv, Legal, OnRunNew, Kinds, Requested, StateAt, First;
    assert run[k] == SWITCH[0] && run[k + 1] == SWITCH[1] && run[k + 2] == SWITCH[2];
    Advance(u, run, k);
    FirstKind(StateAt(u, run, k).newBox);
    BehindStep(u, StateAt(u, run, k));
    Advance(u, run, k + 1);
    TickStep(u, StateAt(u, run, k + 1));
    Advance(u, run, k + 2);
    NotifyStep(u, StateAt(u, run, k + 2));
  }

  lemma ToSwitched(u: Setup, run: seq<Event>, k: nat, v: nat)
    requires Legal(u) && u.mode.DoubleBuffer? && !u.style.Sequential?
    requires k + 5 <= |run| && run[k..k + 5] == SWITCH && Idle(u, StateAt(u, run, k), v)
    ensures var s := StateAt(u, run, k + 5);
            && Switched(u, s, v) && s.currSt == StateAt(u, run, k).currSt
            && s.newBox != [] && s.newBox[0].msg.BulkReceive? && s.newBox[0].msg.portfolio != map[]
  {
    hide Inv, Legal, OnRunNew, OnRunBulk, Kinds, Requested, StateAt, First;
    assert run[k + 3] == SWITCH[3] && run[k + 4] == SWITCH[4];
    ToNotified(u, run, k, v);
    Advance(u, run, k + 3);
    var s := StateAt(u, run, k + 3);
    FirstKind(s.newBox);
    NoBox(s.currBox);
    KnownTrades(u, s);
    OneTrade(u);
    MarketStep(u, s);
    Advance(u, run, k + 4);
    var t := StateAt(u, run, k + 4);
    RequestedAppend(t.bulkBox, BulkRequest("", {}, []));
    NoBox(t.newBox);
    BulkStep(u, t);
    FullReply(u, t);
  }

  /** Curr accepts the next version, with all metrics. */
  lemma ToAccepted(u: Setup, run: seq<Event>, k: nat, v: nat)
    requires Legal(u) && u.mode.DoubleBuffer? && k + 2 <= |run| && run[k] == RunNew && run[k + 1] == RunCurr
    requires var s := StateAt(u, run, k);
             && Switched(u, s, v)
             && s.newBox != [] && s.newBox[0].msg.BulkReceive? && s.newBox[0].msg.portfolio != map[]
    ensures var s := StateAt(u, run, k + 2);
            && Idle(u, s, v + 1) && s.currSt.portfolio != map[] && AcceptedAt(s.published, v + 1)
  {
    hide Inv, Legal, OnRunNew, OnRunCurr, Kinds, Requested, StateAt, First;
    var s := StateAt(u, run, k);
    Advance(u, run, k);
    NoBox(s.currBox);
    ReceiveStep(u, s);
    FullOffer(u, s);
    var t := StateAt(u, run, k + 1);
    Advance(u, run, k + 1);
    AcceptStep(u, t);
    FullAcceptance(u, t);
  }

  lemma FullAcceptance(u: Setup, s: System)
    requires Legal(u) && Inv(u, {}, s) && s.currBox != [] && s.currBox[0].msg.NewTradePortfolio?
    requires s.currBox[0].msg.proposal.portfolio != map[] && |OnRunCurr(u, s).published| > |s.published|
    ensures OnRunCurr(u, s).currSt.portfolio != map[]
  {
    hide OnRunCurr, Inv, Curr.OnProposal, PriceSpec;
    var p := s.currBox[0].msg.proposal;
    ProposalResult(u, s);
    ProposalDecision(u, s);
    AcceptedIs(u, s.book, s.registry, s.currSt, p);
    assert s.published + [] == s.published;
    var m :| m in p.portfolio;
    var r := Curr.OnProposal(u.pricer, u.style, s.book, s.registry, s.currSt, p);
    assert m in r.st.portfolio;
  }

  lemma {:induction false} ExecAppend(u: Setup, s: System, events: seq<Event>, more: seq<Event>)
    ensures Exec(u, s, events + more) == Exec(u, Exec(u, s, events), more)
    decreases more
  {
    if more == [] {
      assert events + more == events;
    } else {
      var n := |more| - 1;
      assert (events + more)[..|events| + n] == events + more[..n];
      ExecAppend(u, s, events, more[..n]);
    }
  }

  /** What was published at some point of a run stays published. */
  lemma StillAccepted(u: Setup, run: seq<Event>, k: nat, l: nat, v: nat)
    requires k <= l <= |run| && AcceptedAt(StateAt(u, run, k).published, v)
    ensures AcceptedAt(StateAt(u, run, l).published, v)
  {
    hide Exec;
    assert run[..k] + run[k..l] == run[..l];
    ExecAppend(u, Init(u), run[..k], run[k..l]);
    PublicationsStay(u, StateAt(u, run, k), run[k..l]);
    var i :| 0 <= i < |StateAt(u, run, k).published| && StateAt(u, run, k).published[i].accepted
      && StateAt(u, run, k).published[i].note.version == v;
    assert StateAt(u, run, l).published[i] == StateAt(u, run, k).published[i];
  }

  /** Curr has accepted the first market. */
  lemma ToFirst(u: Setup)
    requires Legal(u) && u.mode.DoubleBuffer?
    ensures var s := StateAt(u, KEPT, 6); Idle(u, s, 1) && AcceptedAt(s.published, 1)
  {
    hide Legal, StateAt;
    AfterWarmUp(u, KEPT);
    MarketAccepted(u, 6);
  }

  lemma MarketAccepted(u: Setup, k: nat)
    requires Legal(u) && k <= |KEPT| && StateAt(u, KEPT, k).currSt.market.Some?
    ensures var s := StateAt(u, KEPT, k); AcceptedAt(s.published, s.currNote.version)
  {
    hide Legal, Exec;
    CurrMarketReachable(u, KEPT[..k]);
  }

  lemma ToThird(u: Setup)
    requires Legal(u) && u.mode.DoubleBuffer? && !u.style.Sequential?
    ensures var s := StateAt(u, KEPT, 18);
            && Switched(u, s, 2) && s.currSt.portfolio != map[]
            && AcceptedAt(s.published, 1) && AcceptedAt(s.published, 2)
  {
    hide Legal, StateAt, Idle, Switched, AcceptedAt;
    ToFirst(u);
    assert KEPT[6..11] == SWITCH && KEPT[13..18] == SWITCH && KEPT[11] == RunNew && KEPT[12] == RunCurr;
    ToSwitched(u, KEPT, 6, 1);
    ToAccepted(u, KEPT, 11, 1);
    ToSwitched(u, KEPT, 13, 2);
    StillAccepted(u, KEPT, 6, 18, 1);
    StillAccepted(u, KEPT, 13, 18, 2);
  }

  /** The trade is announced to Curr, on the second market, while New works on the third one. */
  lemma ToAnnouncement(u: Setup)
    requires Legal(u) && u.mode.DoubleBuffer? && !u.style.Sequential?
    ensures var s := StateAt(u, KEPT, 20);
            && s.currBox != [] && s.currBox[0].msg.NewTrade? && s.currSt.trades == {} && s.currNote == Note(2, {})
            && s.currSt.market == Some(u.marketName(2)) && s.currSt.portfolio != map[] && s.sentCurr == 1
            && s.frontier.version == 3 && UpToDate(s) && AcceptedAt(s.published, 1) && |s.published| > 0
  {
    hide Inv, Legal, Kinds, Requested, StateAt, First, AcceptedAt;
    ToThird(u);
    Advance(u, KEPT, 18);
    ArrivalStep(u, StateAt(u, KEPT, 18));
    Advance(u, KEPT, 19);
    SendToCurrStep(u, StateAt(u, KEPT, 19));
    FirstKind(StateAt(u, KEPT, 20).currBox);
    StillAccepted(u, KEPT, 18, 20, 1);
    SomePublication(StateAt(u, KEPT, 20).published, 1);
  }

  lemma SomePublication(published: seq<Publication>, v: nat)
    requires AcceptedAt(published, v)
    ensures |published| > 0
  {
  }

  /** In every legal double-buffer pipeline with a parallel strategy: at the end of the run Curr knows the
      trade, values it at once on the second market, which is still stored, and publishes the result. */
  lemma KeptMarketCounted(u: Setup)
    requires Legal(u) && u.mode.DoubleBuffer? && !u.style.Sequential?
    ensures var s, id := Exec(u, Init(u), KEPT), u.tradeId(0);
            && s.currSt.trades == {id} && s.currNote == Note(2, {id}) && s.frontier.version == 3
            && s.registry.Get(u.marketName(2)) == Some(Snapshot(u, 2))
            && Exact(u, {PV, PnL}, s.currSt.portfolio, Note(2, {id}))
            && |s.published| > 0 && s.published[|s.published| - 1].note == Note(2, {id})
  {
    hide Inv, Legal, OnRunCurr, Kinds, StateAt, Init, First, Exec, Snapshot, Exact, CurrMarketOk;
    WholeRun(u, KEPT);
    StateAtIs(u, KEPT, 20);
    ToAnnouncement(u);
    var s := StateAt(u, KEPT, 20);
    Advance(u, KEPT, 20);
    CurrMarketReachable(u, KEPT[..20]);
    Elsewhere(u, s);
    AnnouncedFirst(u, s);
    TradeCountedIff(u, KEPT[..20]);
    CountedIsPublished(u, s);
    CurrMarketStays(u, KEPT);
    ExactlyOnceOfPV(u, KEPT);
    assert {} + {u.tradeId(0)} == {u.tradeId(0)};
  }

  lemma Elsewhere(u: Setup, s: System)
    requires CurrMarketInv(u, s) && s.currNote.version == 2 && AcceptedAt(s.published, 1)
    ensures Curr.NAME in s.registry.users && s.currSt.market.Some? && s.currSt.market.value in s.registry.markets
    ensures s.registry.users[Curr.NAME] == u.marketName(2)
  {
    assert AcceptedElsewhere(s.published, 2);
  }

  lemma AnnouncedFirst(u: Setup, s: System)
    requires Legal(u) && Inv(u, {}, s) && s.currBox != [] && s.currBox[0].msg.NewTrade? && s.sentCurr == 1
    ensures s.currBox[0].msg.id == u.tradeId(0)
  {
    MailReceive(u, {}, s.currBox, s.currHandled, s.sentCurr, s.currNote, s.frontier);
  }

  /** A trade that is counted is published. */
  lemma CountedIsPublished(u: Setup, s: System)
    requires s.currBox != [] && s.currBox[0].msg.NewTrade?
    ensures var t := OnRunCurr(u, s);
            && t.frontier == s.frontier && t.registry == s.registry
            && (t.currNote != s.currNote ==>
                 |t.published| > 0 && t.published[|t.published| - 1].note == t.currNote)
  {
    hide OnRunCurr;
    TradeResult(u, s);
  }
}
