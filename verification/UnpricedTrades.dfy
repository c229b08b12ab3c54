/** The one way in which Curr can count a trade twice without a middle stage, as a run of the pipeline: a
    future arrives on a stock that has not ticked yet, so that it has a PV01 but no PV. */
module UnpricedTrades {
  import opened Wrappers
  import opened Portfolios
  import opened Trades
  import opened MarketRegistry
  import opened BulkPricing
  import opened Messages
  import opened Producers
  import opened LetfPricing
  import opened Pipeline
  import opened PipelineInvariant
  import opened PipelineSteps
  import opened PipelineTheorems
  import opened PipelineRuns
  import Curr = ProcessorCurrActor

  /** A double-buffer pipeline of the LETF desk whose first trade is a future, and whose first tick is
      on something else. */
  ghost predicate FutureBeforeQuote(u: Setup) {
    && Legal(u) && u.mode.DoubleBuffer? && u.pricer == PRICER && PV01 in u.metrics
    && TheFuture(u).Future? && u.tick(0).key != Stock(TheFuture(u).stock)
  }

  function TheFuture(u: Setup): Trade {
    u.trade(u.tradeId(0))
  }

  /** After the warm-up the future arrives, is announced to Curr and to New, New offers it and Curr
      accepts. */
  const RUN: seq<Event> := WARM_UP + [
    TradeArrives, SendToCurr, RunCurr, SendToNew, RunNew, RunNew, RunCurr]

  lemma ToAnnouncement(u: Setup)
    requires FutureBeforeQuote(u)
    ensures var s, p := StateAt(u, RUN, 10), PositionOf(StateAt(u, RUN, 10));
            && p.newBox == [OfBehind, OfTrade] && p.currBox == [] && p.single && p.market && p.frontier == Note(1, {})
            && p.arrived == p.sentCurr == p.sentNew == 1 && UpToDate(s)
  {
    hide Inv, Legal, OnRunCurr, Kinds, Requested, StateAt, Init, First;
    AfterWarmUp(u, RUN);
    Advance(u, RUN, 6);
    ArrivalStep(u, StateAt(u, RUN, 6));
    Advance(u, RUN, 7);
    SendToCurrStep(u, StateAt(u, RUN, 7));
    Advance(u, RUN, 8);
    FirstKind(StateAt(u, RUN, 8).currBox);
    CurrTradeStep(u, StateAt(u, RUN, 8));
    Advance(u, RUN, 9);
    SendToNewStep(u, StateAt(u, RUN, 9));
  }

  lemma ToSecondProposal(u: Setup)
    requires FutureBeforeQuote(u)
    ensures var s, p := StateAt(u, RUN, 12), PositionOf(StateAt(u, RUN, 12));
            && p.currBox == [OfProposal] && p.market && p.frontier == Note(1, {u.tradeId(0)}) && p.sentCurr == 1
            && UpToDate(s)
  {
    hide Inv, Legal, OnRunNew, Kinds, Requested, StateAt, Init, First;
    ToAnnouncement(u);
    Advance(u, RUN, 10);
    FirstKind(StateAt(u, RUN, 10).newBox);
    BehindStep(u, StateAt(u, RUN, 10));
    Advance(u, RUN, 11);
    var s := StateAt(u, RUN, 11);
    FirstKind(s.newBox);
    NoBox(s.currBox);
    NextTradeIsNew(u, {}, s);
    TradeStep(u, s);
  }

  /** The market never quoted the stock of the future, which therefore has no PV but a PV01. */
  lemma FutureWithoutQuote(u: Setup)
    requires FutureBeforeQuote(u)
    ensures PricedIn(u, {u.tradeId(0)}, 1) == {}
    ensures Value(u, PV01, Note(1, {u.tradeId(0)})) == map[TheFuture(u).stock := TheFuture(u).amount]
  {
    var id, future, market := u.tradeId(0), TheFuture(u), Snapshot(u, 1);
    assert Replay(u, 1) == Replay(u, 0)[u.tick(0).key := u.tick(0).value];
    assert Price(future, market) == None;
    PricerIs(future, market);
    SumSingleRow(id, map[future.stock := future.amount]);
    SumPick(TradeContribution(u, PV01, 1), {id}, id);
    assert {id} - {id} == {};
    AddEmpty(Contribution(PRICER, future, PV01, market));
  }

  lemma Doubled(k: string, x: real)
    ensures Add(map[k := x], map[k := x]) == map[k := 2.0 * x]
  {
  }

  /** At the end of the run Curr has accepted and published a portfolio that is meant to value the
      future, but holds its PV01 twice: under every pricing strategy and for every amount. */
  lemma FutureCountedTwice(u: Setup)
    requires FutureBeforeQuote(u)
    ensures var s := Exec(u, Init(u), RUN);
            var stock, amount := TheFuture(u).stock, TheFuture(u).amount;
            && s.currSt.trades == {u.tradeId(0)} && s.currNote == Note(1, {u.tradeId(0)})
            && Value(u, PV01, s.currNote) == map[stock := amount]
            && PmAt(s.currSt.portfolio, PV01) == map[stock := 2.0 * amount]
            && |s.published| > 0
            && s.published[|s.published| - 1] == Publication(s.currSt.portfolio, s.currNote, true, {u.tradeId(0)})
  {
    hide Inv, Legal, OnRunCurr, Kinds, Requested, Init, First, Exec, Value, PricedIn, StateAt, Add;
    WholeRun(u, RUN);
    StateAtIs(u, RUN, 12);
    ToSecondProposal(u);
    Advance(u, RUN, 12);
    var s := StateAt(u, RUN, 12);
    FirstKind(s.currBox);
    KnownTrades(u, s);
    OneTrade(u);
    HeadIsKnown(u, s);
    assert s.currSt.trades == {u.tradeId(0)};
    AcceptStep(u, s);
    AcceptedInRun(u, RUN[..12], PV01);
    FutureWithoutQuote(u);
    assert {u.tradeId(0)} - {} == {u.tradeId(0)};
    var t := OnRunCurr(u, s);
    assert Exec(u, Init(u), RUN) == t;
    assert PmAt(t.currSt.portfolio, PV01) == Add(Value(u, PV01, t.currNote), Value(u, PV01, t.currNote));
    Doubled(TheFuture(u).stock, TheFuture(u).amount);
  }

  // ---------- Such a pipeline exists ----------

  function Label(n: nat): string {
    seq(n, i => 'x')
  }

  lemma LabelsAreNames()
    ensures forall i: nat, j: nat :: Label(i) == Label(j) ==> i == j
    ensures forall i: nat :: Label(i) != FUTURE
  {
    forall i: nat, j: nat | Label(i) == Label(j) ensures i == j {
      assert |Label(i)| == i && |Label(j)| == j;
    }
    forall i: nat ensures Label(i) != FUTURE {
      assert i > 0 ==> Label(i)[0] == 'x';
      assert FUTURE[0] == 'f';
    }
  }

  function Example(style: PricingStyle): Setup {
    Setup(PRICER, style, Curr.DoubleBuffer, [PV, PV01], (n: nat) => Label(n), (n: nat) => Tick(Stock("T"), 1.0),
          (n: nat) => Label(n), id => Future(id, "S", 1.0, None))
  }

  lemma ExampleIsOne(style: PricingStyle)
    ensures FutureBeforeQuote(Example(style))
  {
    LabelsAreNames();
  }

  // ---------- When nothing goes unpriced ----------

  lemma {:induction false} QuotedStays(u: Setup, key: MarketKey, w: nat, v: nat)
    requires w <= v && key in Replay(u, w)
    ensures key in Replay(u, v)
    decreases v
  {
    if w < v {
      QuotedStays(u, key, w, v - 1);
    }
  }

  /** On the LETF desk, leveraged ETFs with their initial value, futures and cash have a price from the
      version on at which all their stocks have ticked. */
  lemma DeskPriceableFrom(u: Setup, w: nat)
    requires u.pricer == PRICER
    requires forall i: nat :: Linear(u.trade(u.tradeId(i))) && HoldsStock(u.trade(u.tradeId(i)), Snapshot(u, w))
    ensures PriceableFrom(u, w)
  {
    forall i: nat, v: nat | v >= w ensures u.pricer.price(u.trade(u.tradeId(i)), Snapshot(u, v)).Some? {
      var trade := u.trade(u.tradeId(i));
      assert Linear(trade) && HoldsStock(trade, Snapshot(u, w));
      if trade.LETF? || trade.Future? {
        QuotedStays(u, Stock(trade.stock), w, v);
      }
    }
  }
}
