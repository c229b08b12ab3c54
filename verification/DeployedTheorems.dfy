/** What holds in every orderly run of the deployed pipeline, and exactly what a disorderly message does. */
module DeployedTheorems {
  import opened Wrappers
  import opened Portfolios
  import opened Trades
  import opened MarketRegistry
  import opened BulkPricing
  import opened Messages
  import opened Pipeline
  import opened PipelineInvariant
  import opened PipelineSteps
  import opened PipelineTheorems
  import opened DeployedPipeline
  import opened DeployedSteps
  import Curr = ProcessorCurrActor
  import Middle = ProcessorMiddleActor

  /** All along the run, every message of the middle stage is handled in order. */
  ghost predicate OrderlyRun(u: Setup, moves: seq<Move>) {
    forall k :: 0 <= k < |moves| ==>
      (Possible(Play(u, Start(u), moves[..k]), moves[k]) ==> Orderly(Play(u, Start(u), moves[..k]), moves[k]))
  }

  /** All along the run, Curr can trust New's and the middle stage's portfolios on the metrics ms. */
  ghost predicate TrustedRun(u: Setup, ms: set<Metric>, moves: seq<Move>) {
    forall k :: 0 <= k <= |moves| ==>
      var s := Play(u, Start(u), moves[..k]);
      Trust(u, ms, s.core.frontier) && Trust(u, ms, s.middleNote)
  }

  lemma {:induction false} DeployedReachable(u: Setup, ms: set<Metric>, moves: seq<Move>)
    requires Legal(u) && u.mode.DoubleBuffer? && OrderlyRun(u, moves) && TrustedRun(u, ms, moves)
    ensures DeployedInv(u, ms, Play(u, Start(u), moves))
    decreases moves
  {
    hide DeployedInv, Legal, Trust, Orderly, Possible, Moved;
    if moves == [] {
      StartInv(u, ms);
    } else {
      var n := |moves| - 1;
      var init := moves[..n];
      assert moves[..n + 1] == moves;
      assert forall k :: 0 <= k <= n ==> init[..k] == moves[..k];
      assert TrustedRun(u, ms, init) && OrderlyRun(u, init);
      DeployedReachable(u, ms, init);
      var before := Play(u, Start(u), init);
      if Possible(before, moves[n]) {
        assert Play(u, Start(u), moves[..n + 1]) == Moved(u, before, moves[n]);
        MoveInv(u, ms, before, moves[n]);
      }
    }
  }

  lemma TrustPV(u: Setup, ms: set<Metric>, moves: seq<Move>)
    requires ms <= {PV, PnL}
    ensures TrustedRun(u, ms, moves)
  {
  }

  // ---------- Orderly runs ----------

  /** Exactly once with a middle stage: in every orderly run, what Curr accepts is, on PV and PnL, the
      exact value of all trades it has received by then, and what it publishes in between the exact
      value of some of them. */
  lemma DeployedExactlyOnce(u: Setup, moves: seq<Move>)
    requires Legal(u) && u.mode.DoubleBuffer? && OrderlyRun(u, moves)
    ensures var s := Play(u, Start(u), moves).core;
            && Exact(u, {PV, PnL}, s.currSt.portfolio, s.currNote) && s.currNote.covered <= s.currSt.trades
            && s.currSt.trades == First(u, s.currHandled)
            && forall i :: 0 <= i < |s.published| ==>
                 && Exact(u, {PV, PnL}, s.published[i].portfolio, s.published[i].note)
                 && (s.published[i].accepted ==> s.published[i].note.covered == s.published[i].received)
  {
    TrustPV(u, {PV, PnL}, moves);
    DeployedReachable(u, {PV, PnL}, moves);
    CoreInv(u, {PV, PnL}, Play(u, Start(u), moves));
  }

  /** The same on all metrics, if neither New nor the middle stage ever values a trade without a price. */
  lemma DeployedExactlyOnceOnAll(u: Setup, moves: seq<Move>)
    requires Legal(u) && u.mode.DoubleBuffer? && OrderlyRun(u, moves)
    requires forall k :: 0 <= k <= |moves| ==>
      var s := Play(u, Start(u), moves[..k]); Priced(u, s.core.frontier) && Priced(u, s.middleNote)
    ensures var s := Play(u, Start(u), moves).core;
            && Exact(u, ALL, s.currSt.portfolio, s.currNote) && s.currNote.covered <= s.currSt.trades
            && forall i :: 0 <= i < |s.published| ==>
                 && Exact(u, ALL, s.published[i].portfolio, s.published[i].note)
                 && (s.published[i].accepted ==> s.published[i].note.covered == s.published[i].received)
  {
    hide Priced;
    DeployedReachable(u, ALL, moves);
    CoreInv(u, ALL, Play(u, Start(u), moves));
  }

  /** Snapshot consistency and monotone publication below the middle stage. */
  lemma DeployedConsistency(u: Setup, moves: seq<Move>)
    requires Legal(u) && u.mode.DoubleBuffer? && OrderlyRun(u, moves)
    ensures var s := Play(u, Start(u), moves).core;
            && Consistent(u, {PV, PnL}, s, s.currSt.portfolio)
            && (forall i :: 0 <= i < |s.published| ==> Consistent(u, {PV, PnL}, s, s.published[i].portfolio))
            && forall i, j :: 0 <= i < j < |s.published| ==> NoteLeq(s.published[i].note, s.published[j].note)
  {
    hide Consistent;
    TrustPV(u, {PV, PnL}, moves);
    DeployedReachable(u, {PV, PnL}, moves);
    CoreInv(u, {PV, PnL}, Play(u, Start(u), moves));
    InvConsistent(u, {PV, PnL}, Play(u, Start(u), moves).core);
  }

  /** The middle stage itself: its portfolio is exact on every metric, on the market it names, and it
      knows the trades it has handled and no others. */
  lemma MiddleIsExact(u: Setup, moves: seq<Move>)
    requires Legal(u) && u.mode.DoubleBuffer? && OrderlyRun(u, moves)
    ensures var s := Play(u, Start(u), moves);
            && Exact(u, ALL, s.middleSt.portfolio, s.middleNote) && s.middleNote.covered <= s.middleSt.trades
            && s.middleSt.trades == First(u, s.middleHandled)
            && (s.middleSt.market.Some? ==> s.middleSt.market.value == u.marketName(s.middleNote.version))
  {
    TrustPV(u, {}, moves);
    DeployedReachable(u, {}, moves);
  }

  /** The handlers of the middle stage never end with an error: every trade it is told of is filed. */
  lemma MiddleNeverFails(u: Setup, moves: seq<Move>)
    requires Legal(u) && u.mode.DoubleBuffer? && OrderlyRun(u, moves) && Play(u, Start(u), moves).middleBox != []
    ensures !MiddleResultOf(u, Play(u, Start(u), moves)).failed
  {
    hide DeployedInv, Legal, Play, MiddleResultOf, Middle.OnMessage;
    TrustPV(u, {}, moves);
    DeployedReachable(u, {}, moves);
    var s := Play(u, Start(u), moves);
    MiddleTold(u, s);
    NoFailure(u, s);
  }

  lemma MiddleTold(u: Setup, s: Deployed)
    requires Legal(u) && DeployedInv(u, {}, s) && s.middleBox != []
    ensures s.middleBox[0].msg.NewTrade? ==> s.middleBox[0].msg.id in s.core.book
  {
    ReadyForMessage(u, {}, s);
    hide DeployedInv;
    if s.middleBox[0].msg.NewTrade? {
      InFirst(u, s.middleHandled, s.sentMiddle);
    }
  }

  lemma NoFailure(u: Setup, s: Deployed)
    requires s.middleBox != [] && (s.middleBox[0].msg.NewTrade? ==> s.middleBox[0].msg.id in s.core.book)
    ensures !MiddleResultOf(u, s).failed
  {
    hide PriceSpec, AddPm, InsertProcessor, TradeDelta, AddToPresent;
  }

  /** Taking over a proposal, the middle stage tells New which of its trades the proposal did not list. */
  lemma MiddleAnswersNew(u: Setup, s: Deployed)
    requires s.middleBox != [] && s.middleBox[0].msg.NewTradePortfolio?
    ensures var p, t := s.middleBox[0].msg.proposal, OnMiddle(u, s);
            && |t.core.newBox| == |s.core.newBox| + 1 && s.core.newBox <= t.core.newBox
            && t.core.newBox[|s.core.newBox|].msg == Behind(p.market, s.middleSt.trades - p.trades)
            && t.middleSt.trades == p.trades + (s.middleSt.trades - p.trades)
  {
    hide PriceSpec, AddPm, InsertProcessor, NextMiddleNote;
  }

  // ---------- The exact effect of an answer ----------

  /** An answer never tells the middle stage of a trade it does not know: what is named was announced to
      it before it was announced to Curr. */
  lemma AnswerNamesKnown(u: Setup, moves: seq<Move>)
    requires Legal(u) && u.mode.DoubleBuffer? && OrderlyRun(u, moves)
    requires var s := Play(u, Start(u), moves); s.middleBox != [] && s.middleBox[0].msg.Behind?
    ensures var s := Play(u, Start(u), moves); s.middleBox[0].msg.missing <= s.middleSt.trades
  {
    hide DeployedInv, Legal, Play;
    TrustPV(u, {}, moves);
    DeployedReachable(u, {}, moves);
    MiddleFacts(u, Play(u, Start(u), moves));
  }

  /** After any orderly run: when the middle stage handles an answer while its market is stored, its
      portfolio becomes, metric by metric, the exact value of the trades it valued or was told about,
      plus once more that of those it was told about and valued already; hence it is exact if and only if
      the latter are zero on every key. */
  lemma AnswerExactIff(u: Setup, moves: seq<Move>, m: Metric)
    requires Legal(u) && u.mode.DoubleBuffer? && OrderlyRun(u, moves) && m in u.metrics
    requires var s := Play(u, Start(u), moves);
             && s.middleBox != [] && s.middleBox[0].msg.Behind? && s.middleBox[0].msg.missing != {}
             && s.middleSt.market.Some? && s.middleSt.market.value in s.core.registry.markets
    ensures var s := Play(u, Start(u), moves);
            var v, covered, told := s.middleNote.version, s.middleNote.covered, s.middleBox[0].msg.missing;
            var again := Value(u, m, Note(v, told * covered));
            var t := OnMiddle(u, s);
            var held := PmAt(t.middleSt.portfolio, m);
            && held == Add(Value(u, m, Note(v, covered + told)), again)
            && (held == Value(u, m, Note(v, covered + told)) <==> forall k :: k in again ==> again[k] == 0.0)
            && |t.core.currBox| == |s.core.currBox| + 1
            && t.core.currBox[|s.core.currBox|].msg
               == NewTradePortfolio(Proposal(s.middleSt.trades, t.middleSt.portfolio, u.marketName(v)))
  {
    hide DeployedInv, Legal, Value, OnMiddle;
    TrustPV(u, {}, moves);
    DeployedReachable(u, {}, moves);
    var s := Play(u, Start(u), moves);
    hide Play;
    AnswerAdds(u, s, m);
    var v, covered, told := s.middleNote.version, s.middleNote.covered, s.middleBox[0].msg.missing;
    ToldTwice(u, m, v, covered, told);
  }

  lemma AnswerAdds(u: Setup, s: Deployed, m: Metric)
    requires Legal(u) && DeployedInv(u, {}, s) && m in u.metrics
    requires s.middleBox != [] && s.middleBox[0].msg.Behind? && s.middleBox[0].msg.missing != {}
    requires s.middleSt.market.Some? && s.middleSt.market.value in s.core.registry.markets
    ensures var v, covered, told := s.middleNote.version, s.middleNote.covered, s.middleBox[0].msg.missing;
            var t := OnMiddle(u, s);
            && PmAt(t.middleSt.portfolio, m) == Add(Value(u, m, Note(v, covered)), Value(u, m, Note(v, told)))
            && t.core.currBox == s.core.currBox + [Envelope(
                 NewTradePortfolio(Proposal(s.middleSt.trades, t.middleSt.portfolio, u.marketName(v))),
                 s.core.sentCurr, t.middleNote)]
  {
    hide DeployedInv, Legal, Value, Exact, Snapshot, RegistryOk, PriceSpec, First, OnMiddle, BookOk;
    var told := s.middleBox[0].msg.missing;
    AnswerIs(u, s);
    MiddleFacts(u, s);
    SnapshotName(u, s.middleNote.version);
    assert s.middleSt.trades + told == s.middleSt.trades;
    AddedMetric(u, s.core.book, s.middleSt.portfolio, s.middleNote, told, m);
  }

  /** What the middle stage knows and holds when an answer arrives. */
  lemma MiddleFacts(u: Setup, s: Deployed)
    requires Legal(u) && DeployedInv(u, {}, s) && s.middleBox != []
    ensures s.middleSt.metrics == u.metrics && s.middleSt.trades <= s.core.book.Keys
    ensures forall id :: id in s.core.book ==> s.core.book[id] == u.trade(id)
    ensures Exact(u, ALL, s.middleSt.portfolio, s.middleNote)
    ensures s.middleSt.market.Some? && s.middleSt.market.value in s.core.registry.markets ==>
      && s.middleSt.market.value == u.marketName(s.middleNote.version)
      && s.core.registry.markets[s.middleSt.market.value] == Snapshot(u, s.middleNote.version)
    ensures s.middleBox[0].msg.Behind? ==> s.middleBox[0].msg.missing <= s.middleSt.trades
  {
    ReadyForMessage(u, {}, s);
    hide DeployedInv, Legal, Exact, Snapshot, RegistryOk, First;
    FirstGrows(u, s.middleHandled, s.sentMiddle);
    if s.middleSt.market.Some? && s.middleSt.market.value in s.core.registry.markets {
      Registered(u, s.core.registry, s.core.version, s.middleNote.version);
    }
  }

  lemma AnswerIs(u: Setup, s: Deployed)
    requires s.middleBox != [] && s.middleBox[0].msg.Behind? && s.middleBox[0].msg.missing != {}
    requires s.middleSt.market.Some? && s.middleSt.market.value in s.core.registry.markets
    ensures var t, told := OnMiddle(u, s), s.middleBox[0].msg.missing;
            var held := s.core.registry.markets[s.middleSt.market.value];
            var sum := AddPm(s.middleSt.portfolio,
              PriceSpec(u.style, u.pricer, s.core.book, told, s.middleSt.metrics, held));
            && t.middleSt.portfolio == sum && t.middleNote == s.middleNote.(covered := s.middleNote.covered + told)
            && t.core == s.core.(newBox := s.core.newBox + [], currBox := s.core.currBox + [Envelope(
                 NewTradePortfolio(Proposal(s.middleSt.trades + told, sum, held.name)), s.core.sentCurr, t.middleNote)])
  {
    hide PriceSpec, AddPm;
  }

  lemma AddedMetric(u: Setup, book: Book, portfolio: MetricMap, note: Note, ids: set<TradeId>, m: Metric)
    requires Legal(u) && Exact(u, ALL, portfolio, note) && m in u.metrics
    requires ids <= book.Keys && forall id :: id in book ==> book[id] == u.trade(id)
    ensures var added := PriceSpec(u.style, u.pricer, book, ids, u.metrics, Snapshot(u, note.version));
            && PmAt(AddPm(portfolio, added), m) == Add(Value(u, m, note), Value(u, m, Note(note.version, ids)))
            && Value(u, m, note) == Value(u, m, Note(note.version, note.covered))
  {
    hide Value, PriceSpec, Legal;
    PricingIsExact(u, book, ids, note.version);
    MetricExact(u, portfolio, note, m);
    var added := PriceSpec(u.style, u.pricer, book, ids, u.metrics, Snapshot(u, note.version));
    MetricExact(u, added, Note(note.version, ids), m);
    PmAtAdd(portfolio, added, m);
  }

  lemma MetricExact(u: Setup, portfolio: MetricMap, note: Note, m: Metric)
    requires Exact(u, ALL, portfolio, note) && m in u.metrics
    ensures PmAt(portfolio, m) == Value(u, m, note)
  {
    assert m in ALL;
  }

  lemma ToldTwice(u: Setup, m: Metric, v: nat, covered: set<TradeId>, told: set<TradeId>)
    ensures var again, all := Value(u, m, Note(v, told * covered)), Value(u, m, Note(v, covered + told));
            && Add(Value(u, m, Note(v, covered)), Value(u, m, Note(v, told))) == Add(all, again)
            && (Add(all, again) == all <==> forall k :: k in again ==> again[k] == 0.0)
  {
    var f := TradeContribution(u, m, v);
    var twice, more := told * covered, told - covered;
    SumUnion(f, more, twice);
    assert more + twice == told;
    AddAssociates(SumOver(f, covered), SumOver(f, more), SumOver(f, twice));
    SumUnion(f, covered, more);
    assert covered + more == covered + told;
    SumUnion(f, covered + told - twice, twice);
    assert covered + told - twice + twice == covered + told;
    AddNothingIff(SumOver(f, covered + told), SumOver(f, twice));
  }

  // ---------- The exact effect of a late announcement ----------

  /** Curr is told of a trade that its portfolio values already, because a proposal has brought it: on every
      metric held the portfolio becomes its exact value plus once more that trade, and stays exact if and
      only if the trade is zero on every key. */
  lemma LateAnnouncementExactIff(u: Setup, s: Deployed, m: Metric)
    requires u.mode.DoubleBuffer? && Distinct(u.metrics) && m in u.metrics
    requires s.core.currBox != [] && s.core.currBox[0].msg.NewTrade?
    requires var core, id := s.core, s.core.currBox[0].msg.id;
             && id in core.currNote.covered && id in core.book && core.book[id] == u.trade(id)
             && core.currSt.metrics == u.metrics && m in core.currSt.portfolio
             && core.currSt.market.Some?
             && core.registry.Get(core.currSt.market.value) == Some(Snapshot(u, core.currNote.version))
             && PmAt(core.currSt.portfolio, m) == Value(u, m, core.currNote)
    ensures var t, id := OnBelow(u, s).core, s.core.currBox[0].msg.id;
            var again := Contribution(u.pricer, u.trade(id), m, Snapshot(u, s.core.currNote.version));
            var held := PmAt(t.currSt.portfolio, m);
            && held == Add(Value(u, m, s.core.currNote), again)
            && (held == Value(u, m, s.core.currNote) <==> forall k :: k in again ==> again[k] == 0.0)
            && t.currSt.trades == s.core.currSt.trades + {id}
  {
    hide OnRunCurr, AddToPresent, Contribution, Add, Snapshot;
    var st, id := s.core.currSt, s.core.currBox[0].msg.id;
    var f := TradeContribution(u, m, s.core.currNote.version);
    TradeResult(u, s.core);
    var delta := TradeDelta(u.pricer, u.trade(id), u.metrics, Snapshot(u, s.core.currNote.version));
    AddToPresentKeys(st.portfolio, u.metrics, delta);
    AddToPresentValue(st.portfolio, u.metrics, delta, m);
    DistinctCounts(u.metrics, m);
    TimesOne(PmAt(delta, m));
    KeysOfMember(f, s.core.currNote.covered, id);
    AddNothingIff(SumOver(f, s.core.currNote.covered), f(id));
  }

  lemma KeysOfMember(f: TradeId -> Portfolio, ids: set<TradeId>, id: TradeId)
    requires id in ids
    ensures f(id).Keys <= SumOver(f, ids).Keys
  {
    SumPick(f, ids, id);
  }
}
