/** What holds in every run of the pipeline. */
module PipelineTheorems {
  import opened Wrappers
  import opened Portfolios
  import opened Trades
  import opened MarketRegistry
  import opened BulkPricing
  import opened Messages
  import opened Pipeline
  import opened PipelineInvariant
  import opened PipelineSteps
  import New = ProcessorNewActor
  import Bulk = ProcessorBulkActor
  import Curr = ProcessorCurrActor

  /** All along the run, New only prices trades that Curr can trust on the metrics ms. */
  ghost predicate Trusted(u: Setup, ms: set<Metric>, events: seq<Event>) {
    forall k :: 0 <= k <= |events| ==> Trust(u, ms, Exec(u, Init(u), events[..k]).frontier)
  }

  lemma {:induction false} Reachable(u: Setup, ms: set<Metric>, events: seq<Event>)
    requires Legal(u) && Trusted(u, ms, events)
    ensures Inv(u, ms, Exec(u, Init(u), events))
    decreases events
  {
    hide Inv, Legal, Trust;
    if events == [] {
      InitInv(u, ms);
    } else {
      var init := events[..|events| - 1];
      assert events[..|events|] == events;
      assert Trust(u, ms, Exec(u, Init(u), events).frontier);
      assert forall k :: 0 <= k <= |init| ==> init[..k] == events[..k];
      assert Trusted(u, ms, init);
      Reachable(u, ms, init);
      var before := Exec(u, Init(u), init);
      if Enabled(before, events[|events| - 1]) {
        StepInv(u, ms, before, events[|events| - 1]);
      }
    }
  }

  // ---------- Snapshot consistency ----------

  /** The last of the first v ticks on a key, if there is one. */
  predicate LastTick(u: Setup, v: nat, key: MarketKey, j: nat) {
    j < v && u.tick(j).key == key && forall i: nat :: j < i < v ==> u.tick(i).key != key
  }

  /** The market of version v quotes, for each key that ticked, the last value: nothing else. */
  lemma {:induction false} LastValueWins(u: Setup, v: nat, key: MarketKey)
    ensures key in Snapshot(u, v).quotes <==> exists j: nat :: LastTick(u, v, key, j)
    ensures forall j: nat :: LastTick(u, v, key, j) ==> Snapshot(u, v).Get(key) == Some(u.tick(j).value)
    decreases v
  {
    if v > 0 {
      var w := v - 1;
      LastValueWins(u, w, key);
      if u.tick(w).key == key {
        assert LastTick(u, v, key, w);
      } else {
        forall j: nat ensures LastTick(u, v, key, j) <==> LastTick(u, w, key, j) {
        }
        if j: nat :| LastTick(u, w, key, j) {
          assert LastTick(u, v, key, j);
        }
      }
    }
  }

  /** On the metrics ms the portfolio is the sum of the contributions of the given trades, all of them
      priced on the market after the first v ticks. */
  ghost predicate ValuedOn(u: Setup, ms: set<Metric>, s: System, portfolio: MetricMap, v: nat, ids: set<TradeId>) {
    forall m :: m in ms && m in u.metrics ==>
      PmAt(portfolio, m) == SumOver(BookContribution(u.pricer, s.book, m, Snapshot(u, v)), ids)
  }

  /** The portfolio is the value of some delivered trades on the market of one prefix of the ticks. */
  ghost predicate Consistent(u: Setup, ms: set<Metric>, s: System, portfolio: MetricMap) {
    exists v: nat, ids: set<TradeId> ::
      v <= s.version && ids <= s.book.Keys && ValuedOn(u, ms, s, portfolio, v, ids)
  }

  lemma ExactIsConsistent(u: Setup, ms: set<Metric>, s: System, portfolio: MetricMap, note: Note)
    requires Exact(u, ms, portfolio, note) && note.version <= s.version && note.covered <= s.book.Keys
    requires forall id :: id in s.book ==> s.book[id] == u.trade(id)
    ensures Consistent(u, ms, s, portfolio)
  {
    forall m | m in ms && m in u.metrics
      ensures PmAt(portfolio, m)
        == SumOver(BookContribution(u.pricer, s.book, m, Snapshot(u, note.version)), note.covered)
    {
      ValueInBook(u, s.book, m, note);
    }
    assert ValuedOn(u, ms, s, portfolio, note.version, note.covered);
  }

  lemma InvConsistent(u: Setup, ms: set<Metric>, s: System)
    requires Inv(u, ms, s)
    ensures Consistent(u, ms, s, s.currSt.portfolio)
    ensures forall i :: 0 <= i < |s.published| ==> Consistent(u, ms, s, s.published[i].portfolio)
  {
    hide Consistent, RegistryOk, Fifo, NewMarketOk, NewTradesOk, NewPortfolioOk, HandshakeOk, QueueOk, Exact;
    FirstGrows(u, s.sentCurr, s.arrived);
    ExactIsConsistent(u, ms, s, s.currSt.portfolio, s.currNote);
    forall i | 0 <= i < |s.published| ensures Consistent(u, ms, s, s.published[i].portfolio) {
      ExactIsConsistent(u, ms, s, s.published[i].portfolio, s.published[i].note);
    }
  }

  /** Snapshot consistency, single buffer: everything ever published, and what Curr holds, is the
      exact value of some delivered trades on one market; never a mix of two.  No trade needs to be
      priceable. */
  lemma SnapshotConsistency(u: Setup, events: seq<Event>)
    requires Legal(u) && u.mode.SingleBuffer?
    ensures var s := Exec(u, Init(u), events);
            && Consistent(u, ALL, s, s.currSt.portfolio)
            && forall i :: 0 <= i < |s.published| ==> Consistent(u, ALL, s, s.published[i].portfolio)
  {
    Reachable(u, ALL, events);
    InvConsistent(u, ALL, Exec(u, Init(u), events));
  }

  /** Snapshot consistency, double buffer: it holds for PV and PnL in every run ... */
  lemma SnapshotConsistencyOfPV(u: Setup, events: seq<Event>)
    requires Legal(u)
    ensures var s := Exec(u, Init(u), events);
            && Consistent(u, {PV, PnL}, s, s.currSt.portfolio)
            && forall i :: 0 <= i < |s.published| ==> Consistent(u, {PV, PnL}, s, s.published[i].portfolio)
  {
    Reachable(u, {PV, PnL}, events);
    InvConsistent(u, {PV, PnL}, Exec(u, Init(u), events));
  }

  /** ... and for PV01 too as long as New never prices a trade in vain. */
  ghost predicate NeverInVain(u: Setup, events: seq<Event>) {
    forall k :: 0 <= k <= |events| ==> Priced(u, Exec(u, Init(u), events[..k]).frontier)
  }

  /** Exactly once: in double-buffer mode every portfolio Curr accepts is the exact value, on all
      metrics, of all trades it has received by then; what it holds and publishes in between is the
      exact value of some of them, each counted once. */
  lemma ExactlyOnce(u: Setup, events: seq<Event>)
    requires Legal(u) && u.mode.DoubleBuffer? && NeverInVain(u, events)
    ensures var s := Exec(u, Init(u), events);
            && Exact(u, ALL, s.currSt.portfolio, s.currNote) && s.currNote.covered <= s.currSt.trades
            && forall i :: 0 <= i < |s.published| ==>
                 && Exact(u, ALL, s.published[i].portfolio, s.published[i].note)
                 && (s.published[i].accepted ==> s.published[i].note.covered == s.published[i].received)
  {
    Reachable(u, ALL, events);
  }

  /** Between acceptances: a trade that reaches Curr is known from then on, and counted at once exactly
      if Curr has a market that is still stored, and a portfolio that holds any metric. */
  lemma TradeCountedIff(u: Setup, events: seq<Event>)
    requires Legal(u) && u.mode.DoubleBuffer?
    requires var s := Exec(u, Init(u), events); s.currBox != [] && s.currBox[0].msg.NewTrade?
    ensures var s := Exec(u, Init(u), events);
            var t, id := OnRunCurr(u, s), s.currBox[0].msg.id;
            && id !in s.currSt.trades && t.currSt.trades == s.currSt.trades + {id}
            && t.currNote.version == s.currNote.version
            && t.currNote.covered ==
                 if s.currSt.market.Some? && s.currSt.market.value in s.registry.markets && s.currSt.portfolio != map[]
                 then s.currNote.covered + {id} else s.currNote.covered
  {
    hide Inv, Legal, OnRunCurr;
    Reachable(u, {}, events);
    var s := Exec(u, Init(u), events);
    hide Exec;
    AnnouncedIsNew(u, s);
    TradeResult(u, s);
  }

  lemma AnnouncedIsNew(u: Setup, s: System)
    requires Legal(u) && Inv(u, {}, s) && u.mode.DoubleBuffer? && s.currBox != [] && s.currBox[0].msg.NewTrade?
    ensures s.currBox[0].msg.id !in s.currSt.trades && s.currBox[0].msg.id in s.book
  {
    hide RegistryOk, Fifo, NewMarketOk, NewTradesOk, NewPortfolioOk, HandshakeOk, MailOk, PublishedOk;
    MailReceive(u, {}, s.currBox, s.currHandled, s.sentCurr, s.currNote, s.frontier);
    InFirst(u, s.currHandled, s.currHandled);
    InFirst(u, s.currHandled, s.sentCurr);
    FirstGrows(u, s.sentCurr, s.arrived);
  }

  /** The portfolio holds no metric after an empty bulk under the sequential strategy: trades that reach
      Curr then are not counted until the next proposal. */
  lemma SequentialEmptyBulk(u: Setup, book: Book, registry: Registry, st: Curr.CurrState, proposal: Proposal,
                            market: Market)
    requires u.style.Sequential? && proposal.portfolio == PriceSpec(u.style, u.pricer, book, {}, st.metrics, market)
    requires st.trades == {} && st.metrics != [] && proposal.market in registry.markets
    ensures var r := Curr.OnProposal(u.pricer, u.style, book, registry, st, proposal);
            r.published == Some(map[]) && r.st.portfolio == map[]
  {
    assert {} * book.Keys == {};
    assert Curr.MissingFrom(st, proposal) == {};
  }

  /** Exactly once on PV and PnL, without any assumption on prices. */
  lemma ExactlyOnceOfPV(u: Setup, events: seq<Event>)
    requires Legal(u) && u.mode.DoubleBuffer?
    ensures var s := Exec(u, Init(u), events);
            && Exact(u, {PV, PnL}, s.currSt.portfolio, s.currNote) && s.currNote.covered <= s.currSt.trades
            && forall i :: 0 <= i < |s.published| ==>
                 && Exact(u, {PV, PnL}, s.published[i].portfolio, s.published[i].note)
                 && (s.published[i].accepted ==> s.published[i].note.covered == s.published[i].received)
  {
    Reachable(u, {PV, PnL}, events);
  }

  /** The trades Curr has received are exactly those announced to it so far, in order of arrival. */
  lemma ReceivedTrades(u: Setup, events: seq<Event>)
    requires Legal(u) && u.mode.DoubleBuffer?
    ensures var s := Exec(u, Init(u), events);
            s.currSt.trades == First(u, s.currHandled) && s.currHandled <= s.sentCurr
  {
    Reachable(u, {}, events);
  }

  // ---------- Monotone publication ----------

  /** Successive publications never go back: neither in the version of the market nor, in either
      mode, in the trades covered, although New clears its portfolio on every new market. */
  lemma MonotonePublication(u: Setup, events: seq<Event>)
    requires Legal(u)
    ensures var s := Exec(u, Init(u), events);
            && (forall i, j :: 0 <= i < j < |s.published| ==> NoteLeq(s.published[i].note, s.published[j].note))
            && forall i :: 0 <= i < |s.published| ==>
                 Exact(u, if u.mode.SingleBuffer? then ALL else {PV, PnL},
                       s.published[i].portfolio, s.published[i].note)
  {
    Reachable(u, if u.mode.SingleBuffer? then ALL else {PV, PnL}, events);
  }

  lemma StepKeepsPublications(u: Setup, s: System, e: Event)
    requires Enabled(s, e)
    ensures s.published <= Step(u, s, e).published
  {
    if e.RunCurr? {
      hide Curr.OnMessage, NextCurrNote;
    } else {
      hide New.OnMessage, Bulk.OnNewBulk, NextFrontier, NextLate, Offers, OnRunCurr;
    }
  }

  /** Publications are only ever appended. */
  lemma {:induction false} PublicationsStay(u: Setup, s: System, events: seq<Event>)
    ensures s.published <= Exec(u, s, events).published
    decreases events
  {
    hide Step, Enabled;
    if events != [] {
      var n := |events| - 1;
      PublicationsStay(u, s, events[..n]);
      var before := Exec(u, s, events[..n]);
      if Enabled(before, events[n]) {
        StepKeepsPublications(u, before, events[n]);
      }
    }
  }

  /** How many trades Curr has received since it last accepted a proposal. */
  ghost function TradesSinceAcceptance(u: Setup, events: seq<Event>): nat {
    if events == [] then 0
    else
      var init, e := events[..|events| - 1], events[|events| - 1];
      var s, n := Exec(u, Init(u), init), TradesSinceAcceptance(u, init);
      if !Enabled(s, e) || !e.RunCurr? then n
      else if s.currBox[0].msg.NewTrade? then n + 1
      else if |OnRunCurr(u, s).published| > |s.published| then 0
      else n
  }

  /** The counter that is to slow Curr down counts just these. */
  lemma {:induction false} CounterIs(u: Setup, events: seq<Event>)
    requires Legal(u) && u.mode.DoubleBuffer?
    ensures Exec(u, Init(u), events).currSt.newTradesSinceMarket == TradesSinceAcceptance(u, events)
    decreases events
  {
    if events != [] {
      hide Inv, Legal, Step, OnRunCurr;
      var n := |events| - 1;
      CounterIs(u, events[..n]);
      Reachable(u, {}, events[..n]);
      var s := Exec(u, Init(u), events[..n]);
      if Enabled(s, events[n]) {
        CounterStep(u, s, events[n]);
      }
    }
  }

  lemma CounterStep(u: Setup, s: System, e: Event)
    requires Legal(u) && Inv(u, {}, s) && u.mode.DoubleBuffer? && Enabled(s, e)
    ensures var before, after := s.currSt.newTradesSinceMarket, Step(u, s, e).currSt.newTradesSinceMarket;
            after == if !e.RunCurr? then before
                     else if s.currBox[0].msg.NewTrade? then before + 1
                     else if |OnRunCurr(u, s).published| > |s.published| then 0
                     else before
  {
    if e.RunCurr? {
      hide OnRunCurr, Inv, Curr.OnProposal;
      MailHead(u, s);
      if s.currBox[0].msg.NewTrade? {
        TradeResult(u, s);
      } else if s.currBox[0].msg.NewTradePortfolio? {
        ProposalResult(u, s);
        CounterReset(u, s);
      } else {
        IgnoredMessage(u, s);
      }
    } else {
      hide New.OnMessage, Bulk.OnNewBulk, Inv;
    }
  }

  lemma MailHead(u: Setup, s: System)
    requires Inv(u, {}, s) && s.currBox != []
    ensures var msg := s.currBox[0].msg; msg.NewTrade? || msg.NewTradePortfolio? || msg.Behind?
  {
    MailReceive(u, {}, s.currBox, s.currHandled, s.sentCurr, s.currNote, s.frontier);
  }

  lemma CounterReset(u: Setup, s: System)
    requires s.currBox != [] && s.currBox[0].msg.NewTradePortfolio?
    ensures var r := Curr.OnProposal(u.pricer, u.style, s.book, s.registry, s.currSt, s.currBox[0].msg.proposal);
            r.st.newTradesSinceMarket == if r.published.Some? then 0 else s.currSt.newTradesSinceMarket
  {
    hide PriceSpec, AddPm, InsertProcessor;
  }

  lemma IgnoredMessage(u: Setup, s: System)
    requires s.currBox != [] && s.currBox[0].msg.Behind?
    ensures OnRunCurr(u, s).currSt == s.currSt && |OnRunCurr(u, s).published| == |s.published|
  {
  }

  // ---------- Acceptance ----------

  /** When a proposal reaches Curr, it is accepted and published if and only if fewer than ten of the
      trades Curr knows are without a price in it, and its market has not been dropped meanwhile. */
  lemma ProposalAcceptedIff(u: Setup, events: seq<Event>)
    requires Legal(u)
    requires var s := Exec(u, Init(u), events); s.currBox != [] && s.currBox[0].msg.NewTradePortfolio?
    ensures var s := Exec(u, Init(u), events);
            var note := s.currBox[0].note;
            var t := OnRunCurr(u, s);
            if |s.currSt.trades - PricedIn(u, note.covered, note.version)| < 10
               && u.marketName(note.version) in s.registry.markets
            then
              && t.published == s.published + [Publication(t.currSt.portfolio, t.currNote, true, s.currSt.trades)]
              && t.currNote == Note(note.version, note.covered + s.currSt.trades)
              && t.currSt.market == Some(u.marketName(note.version))
            else t.published == s.published && t.currSt == s.currSt
  {
    hide Inv, Curr.OnProposal, NextFrontier, NextLate, PricedIn, Legal;
    Reachable(u, {}, events);
    var s := Exec(u, Init(u), events);
    hide Exec;
    ProposalDecision(u, s);
    AcceptedIs(u, s.book, s.registry, s.currSt, s.currBox[0].msg.proposal);
    ProposalResult(u, s);
    assert s.published + [] == s.published;
  }

  /** A proposal on New's present market is never short of its market. */
  lemma CurrentProposalAccepted(u: Setup, events: seq<Event>)
    requires Legal(u)
    requires var s := Exec(u, Init(u), events);
             && s.currBox != [] && s.currBox[0].msg.NewTradePortfolio? && s.newSt.market.Some?
             && s.currBox[0].note.version == s.frontier.version
    ensures var s := Exec(u, Init(u), events);
            var note := s.currBox[0].note;
            |OnRunCurr(u, s).published| > |s.published| <==>
              |s.currSt.trades - PricedIn(u, note.covered, note.version)| < 10
  {
    hide Inv, OnRunCurr, PricedIn, Legal;
    Reachable(u, {}, events);
    ProposalAcceptedIff(u, events);
    var s := Exec(u, Init(u), events);
    MarketOfNew(u, s);
  }

  lemma MarketOfNew(u: Setup, s: System)
    requires Inv(u, {}, s) && s.newSt.market.Some?
    ensures s.newSt.market.value == u.marketName(s.frontier.version) && s.newSt.market.value in s.registry.markets
  {
    hide RegistryOk, BookOk, Fifo, NewTradesOk, NewPortfolioOk, HandshakeOk, MailOk, CurrOk, PublishedOk;
  }

  lemma ProposalDecision(u: Setup, s: System)
    requires Legal(u) && Inv(u, {}, s) && s.currBox != [] && s.currBox[0].msg.NewTradePortfolio?
    ensures s.currBox[0].msg.proposal.market == u.marketName(s.currBox[0].note.version) && s.currSt.metrics == u.metrics
    ensures Curr.OnProposal(u.pricer, u.style, s.book, s.registry, s.currSt, s.currBox[0].msg.proposal).published.Some?
      <==> |s.currSt.trades - PricedIn(u, s.currBox[0].note.covered, s.currBox[0].note.version)| < 10
           && u.marketName(s.currBox[0].note.version) in s.registry.markets
  {
    hide RegistryOk, BookOk, Fifo, NewMarketOk, NewTradesOk, NewPortfolioOk, HandshakeOk, MailOk, CurrOk, PublishedOk,
         Exact;
    hide Curr.OnProposal;
    var e := s.currBox[0];
    MailReceive(u, {}, s.currBox, s.currHandled, s.sentCurr, s.currNote, s.frontier);
    MissingIs(u, {}, e, s.currSt);
    CurrKnowsFiled(u, s);
    assert PV in u.metrics;
    AcceptsIff(u, s.book, s.registry, s.currSt, e.msg.proposal);
  }

  /** The handler's own decision, when all known trades are filed. */
  lemma AcceptsIff(u: Setup, book: Book, registry: Registry, st: Curr.CurrState, p: Proposal)
    requires st.trades <= book.Keys && st.metrics != []
    ensures Curr.OnProposal(u.pricer, u.style, book, registry, st, p).published.Some?
      <==> |Curr.MissingFrom(st, p)| < 10 && p.market in registry.markets
  {
    var missing := Curr.MissingFrom(st, p);
    assert missing * book.Keys == missing;
  }

  lemma CurrKnowsFiled(u: Setup, s: System)
    requires Inv(u, {}, s)
    ensures s.currSt.trades <= s.book.Keys && s.currSt.metrics == u.metrics
  {
    FirstGrows(u, s.currHandled, s.arrived);
  }

  // ---------- The bulk handshake ----------

  /** New is calculating in bulk iff exactly one request or result is outstanding, and only then. */
  lemma BulkHandshake(u: Setup, events: seq<Event>)
    requires Legal(u)
    ensures var s := Exec(u, Init(u), events);
            && |s.bulkBox| + Receives(s.newBox) <= 1
            && (s.newSt.mode.CalculatingBulk? <==> |s.bulkBox| + Receives(s.newBox) == 1)
  {
    Reachable(u, {}, events);
  }

  /** The market New works on is registered to it and still stored, and it is the one that an
      outstanding request or result names. */
  lemma NewMarketStays(u: Setup, events: seq<Event>)
    requires Legal(u)
    ensures var s := Exec(u, Init(u), events);
            && (s.newSt.market.Some? ==>
                 && New.NAME in s.registry.users && s.registry.users[New.NAME] == s.newSt.market.value
                 && s.registry.Get(s.newSt.market.value) == Some(Snapshot(u, s.frontier.version)))
            && (forall i :: 0 <= i < |s.bulkBox| ==> s.newSt.market == Some(s.bulkBox[i].market))
            && forall i :: 0 <= i < |s.newBox| && s.newBox[i].msg.BulkReceive? ==>
              s.newSt.market == Some(s.newBox[i].msg.market)
  {
    hide Inv, Legal, Exec;
    Reachable(u, {}, events);
    var s := Exec(u, Init(u), events);
    if s.newSt.market.Some? {
      MarketOfNew(u, s);
      StoredSnapshot(u, s);
    }
    OutstandingMarket(u, s);
  }

  lemma StoredSnapshot(u: Setup, s: System)
    requires Inv(u, {}, s) && s.newSt.market.Some?
    ensures New.NAME in s.registry.users && s.registry.users[New.NAME] == s.newSt.market.value
    ensures s.registry.Get(s.newSt.market.value) == Some(Snapshot(u, s.frontier.version))
  {
    hide BookOk, Fifo, NewTradesOk, NewPortfolioOk, HandshakeOk, MailOk, CurrOk, PublishedOk, Snapshot;
    Registered(u, s.registry, s.version, s.frontier.version);
  }

  lemma {:induction false} ReceivesSome(box: seq<Envelope>, i: nat)
    requires i < |box| && box[i].msg.BulkReceive?
    ensures Receives(box) > 0
    decreases i
  {
    if i > 0 {
      ReceivesSome(box[1..], i - 1);
    }
  }

  lemma OutstandingMarket(u: Setup, s: System)
    requires Inv(u, {}, s)
    ensures forall i :: 0 <= i < |s.bulkBox| ==> s.newSt.market == Some(s.bulkBox[i].market)
    ensures forall i :: 0 <= i < |s.newBox| && s.newBox[i].msg.BulkReceive? ==>
      s.newSt.market == Some(s.newBox[i].msg.market)
  {
    hide RegistryOk, BookOk, Fifo, NewPortfolioOk, MailOk, CurrOk, PublishedOk;
    forall i | 0 <= i < |s.newBox| && s.newBox[i].msg.BulkReceive?
      ensures s.newSt.market == Some(s.newBox[i].msg.market)
    {
      ReceivesSome(s.newBox, i);
      assert NewMessageOk(u, s.frontier, s.newBox[i].msg);
    }
  }

  /** The branch of the bulk actor for a missing market is unreachable, and it finds every trade. */
  lemma BulkNeverMissesMarket(u: Setup, events: seq<Event>)
    requires Legal(u) && Exec(u, Init(u), events).bulkBox != []
    ensures var s := Exec(u, Init(u), events);
            var req := s.bulkBox[0];
            && req.market in InsertProcessor(s.registry, Bulk.NAME, req.market).markets
            && req.trades <= s.book.Keys
  {
    Reachable(u, {}, events);
    var s := Exec(u, Init(u), events);
    Facts(u, {}, s);
    BookFacts(u, s.book, s.arrived, s.sentCurr, s.sentNew);
    assert s.bulkBox[0] == BulkRequest(u.marketName(s.frontier.version), s.frontier.covered, u.metrics);
    BulkReplyOk(u, s.book, s.registry, s.version, s.newSt.market, s.frontier);
  }

  // ---------- No lost trade, bounded lag ----------

  /** New keeps every trade that reaches it once it has a market; its portfolio is the exact value of
      all of them but the late ones, those that arrived while the last bulk was outstanding. */
  lemma NoLostTrade(u: Setup, events: seq<Event>)
    requires Legal(u)
    ensures var s := Exec(u, Init(u), events);
            && s.newSt.trades == s.seen
            && s.frontier.covered == s.newSt.trades - s.late && s.late <= s.newSt.trades
            && (s.newSt.mode.CalculatingSingle? ==> Exact(u, ALL, s.newSt.portfolio, s.frontier))
  {
    Reachable(u, {}, events);
  }

  /** One step: no trade is dropped, and starting a bulk brings all of them into it. */
  lemma StepLag(u: Setup, s: System, e: Event)
    requires Legal(u) && Inv(u, {}, s) && Enabled(s, e)
    ensures var t := Step(u, s, e);
            && s.newSt.trades <= t.newSt.trades && NoteLeq(s.frontier, t.frontier) && s.bulks <= t.bulks
            && (s.bulks < t.bulks ==> s.newSt.trades <= t.frontier.covered)
  {
    hide Inv, Legal, New.OnMessage, Bulk.OnNewBulk, Curr.OnMessage;
    Facts(u, {}, s);
    if e.RunNew? {
      hide OnRunNew;
      RunNewIs(u, s);
      NewTradeKnown(u, s);
    }
  }

  /** Once New has a market it can always price a single trade. */
  lemma NewTradeKnown(u: Setup, s: System)
    requires Legal(u) && Inv(u, {}, s) && s.newBox != []
    ensures s.newBox[0].msg.NewTrade? && s.newSt.market.Some? ==>
      New.CanPrice(s.book, s.registry, s.newSt, s.newBox[0].msg.id)
    ensures NewMessageOk(u, s.frontier, s.newBox[0].msg)
  {
    hide Inv, Legal;
    if s.newBox[0].msg.NewTrade? && s.newSt.market.Some? {
      AlwaysCanPrice(u, {}, s);
    }
    MessageKnown(u, s);
  }

  lemma MessageKnown(u: Setup, s: System)
    requires Inv(u, {}, s) && s.newBox != []
    ensures NewMessageOk(u, s.frontier, s.newBox[0].msg)
  {
    hide RegistryOk, BookOk, Fifo, NewMarketOk, NewTradesOk, NewPortfolioOk, MailOk, CurrOk, PublishedOk, NewMessageOk;
  }

  lemma {:induction false} RunLag(u: Setup, before: seq<Event>, events: seq<Event>)
    requires Legal(u)
    ensures var s, t := Exec(u, Init(u), before), Exec(u, Init(u), before + events);
            && s.newSt.trades <= t.newSt.trades && NoteLeq(s.frontier, t.frontier) && s.bulks <= t.bulks
            && (s.bulks < t.bulks ==> s.newSt.trades <= t.frontier.covered)
    decreases events
  {
    if events == [] {
      assert before + events == before;
    } else {
      var init, e := events[..|events| - 1], events[|events| - 1];
      assert (before + events)[..|before + events| - 1] == before + init;
      RunLag(u, before, init);
      Reachable(u, {}, before + init);
      var mid := Exec(u, Init(u), before + init);
      if Enabled(mid, e) {
        StepLag(u, mid, e);
      }
    }
  }

  /** Bounded lag: once a bulk that started later has been completed, New's portfolio values every
      trade New knew before, the late ones included. */
  lemma NextBulkCoversAll(u: Setup, before: seq<Event>, events: seq<Event>)
    requires Legal(u)
    requires Exec(u, Init(u), before).bulks < Exec(u, Init(u), before + events).bulks
    requires Exec(u, Init(u), before + events).newSt.mode.CalculatingSingle?
    ensures var s, t := Exec(u, Init(u), before), Exec(u, Init(u), before + events);
            s.newSt.trades <= t.frontier.covered && Exact(u, ALL, t.newSt.portfolio, t.frontier)
  {
    RunLag(u, before, events);
    NoLostTrade(u, before + events);
  }

  // ---------- Prices known from some version on ----------

  /** Every trade that is ever delivered has a price on every snapshot from version w on. */
  ghost predicate PriceableFrom(u: Setup, w: nat) {
    forall i: nat, v: nat :: v >= w ==> u.pricer.price(u.trade(u.tradeId(i)), Snapshot(u, v)).Some?
  }

  lemma {:induction false} FirstAre(u: Setup, n: nat, id: TradeId)
    ensures id in First(u, n) ==> exists i: nat :: i < n && u.tradeId(i) == id
    decreases n
  {
    if n > 0 && id != u.tradeId(n - 1) {
      FirstAre(u, n - 1, id);
    }
  }

  lemma PricedFrom(u: Setup, s: System, w: nat)
    requires Inv(u, {}, s) && PriceableFrom(u, w) && s.frontier.version >= w
    ensures Priced(u, s.frontier)
  {
    hide Inv;
    Facts(u, {}, s);
    forall id | id in s.frontier.covered
      ensures u.pricer.price(u.trade(id), Snapshot(u, s.frontier.version)).Some?
    {
      FirstAre(u, s.sentNew, id);
    }
  }

  /** A warm start: if New reaches version w before it has kept any trade, and everything delivered has a
      price from then on, New never prices a trade in vain. */
  lemma WarmStartNeverInVain(u: Setup, w: nat, before: seq<Event>, events: seq<Event>)
    requires Legal(u) && PriceableFrom(u, w)
    requires var s := Exec(u, Init(u), before); s.newSt.trades == {} && s.frontier.version >= w
    ensures NeverInVain(u, before + events)
  {
    hide Inv, Legal, Exec, Priced, PriceableFrom, Snapshot;
    var all := before + events;
    forall k | 0 <= k <= |all| ensures Priced(u, Exec(u, Init(u), all[..k]).frontier) {
      var s := Exec(u, Init(u), all[..k]);
      Reachable(u, {}, all[..k]);
      if k <= |before| {
        assert all[..k] + before[k..] == before;
        RunLag(u, all[..k], before[k..]);
        Facts(u, {}, s);
        NothingToPrice(u, s.frontier);
      } else {
        assert all[..k] == before + events[..k - |before|];
        RunLag(u, before, events[..k - |before|]);
        PricedFrom(u, s, w);
      }
    }
  }

  lemma NothingToPrice(u: Setup, note: Note)
    requires note.covered == {}
    ensures Priced(u, note)
  {
  }

  /** Then all of this holds in every run that goes on from there, on every metric. */
  lemma ExactlyOnceIfPriceable(u: Setup, w: nat, before: seq<Event>, events: seq<Event>)
    requires Legal(u) && u.mode.DoubleBuffer? && PriceableFrom(u, w)
    requires var s := Exec(u, Init(u), before); s.newSt.trades == {} && s.frontier.version >= w
    ensures var s := Exec(u, Init(u), before + events);
            && Exact(u, ALL, s.currSt.portfolio, s.currNote) && s.currNote.covered <= s.currSt.trades
            && forall i :: 0 <= i < |s.published| ==>
                 && Exact(u, ALL, s.published[i].portfolio, s.published[i].note)
                 && (s.published[i].accepted ==> s.published[i].note.covered == s.published[i].received)
  {
    hide Inv, Exact, Exec, NeverInVain;
    WarmStartNeverInVain(u, w, before, events);
    ExactlyOnce(u, before + events);
  }

  // ---------- The exact condition for PV01 in double-buffer mode ----------

  /** What Curr holds after accepting an exact proposal for `covered`, knowing the trades `known`: the
      exact value of all of them, plus once more that of the covered trades without a price. */
  lemma AcceptedValue(u: Setup, m: Metric, v: nat, covered: set<TradeId>, known: set<TradeId>)
    requires covered <= known
    ensures Add(Value(u, m, Note(v, covered)), Value(u, m, Note(v, known - PricedIn(u, covered, v))))
         == Add(Value(u, m, Note(v, known)), Value(u, m, Note(v, covered - PricedIn(u, covered, v))))
  {
    var f := TradeContribution(u, m, v);
    var unpriced, others := covered - PricedIn(u, covered, v), known - covered;
    assert known - PricedIn(u, covered, v) == others + unpriced;
    SumUnion(f, others, unpriced);
    AddAssociates(SumOver(f, covered), SumOver(f, others), SumOver(f, unpriced));
    SumUnion(f, covered, others);
    assert known == covered + others;
  }

  /** It is the exact value of the known trades if and only if the covered trades without a price add
      up to nothing on every key. */
  lemma AcceptedExactIff(u: Setup, m: Metric, v: nat, covered: set<TradeId>, known: set<TradeId>)
    requires covered <= known
    ensures var accepted := Add(Value(u, m, Note(v, covered)), Value(u, m, Note(v, known - PricedIn(u, covered, v))));
            var unpriced := Value(u, m, Note(v, covered - PricedIn(u, covered, v)));
            accepted == Value(u, m, Note(v, known)) <==> forall k :: k in unpriced ==> unpriced[k] == 0.0
  {
    var f := TradeContribution(u, m, v);
    var unpricedIds := covered - PricedIn(u, covered, v);
    var unpriced, all := Value(u, m, Note(v, unpricedIds)), Value(u, m, Note(v, known));
    AcceptedValue(u, m, v, covered, known);
    SumUnion(f, known - unpricedIds, unpricedIds);
    assert known - unpricedIds + unpricedIds == known;
    assert unpriced.Keys <= all.Keys;
    AddNothingIff(all, unpriced);
  }

  /** In any double-buffer run: the portfolio Curr takes over is, metric by metric, the exact value of
      all trades it knows plus once more that of the proposed trades without a price; it is the exact
      value if and only if the latter are zero on every key. */
  lemma AcceptedInRun(u: Setup, events: seq<Event>, m: Metric)
    requires Legal(u) && u.mode.DoubleBuffer? && m in u.metrics
    requires var s := Exec(u, Init(u), events);
             && s.currBox != [] && s.currBox[0].msg.NewTradePortfolio?
             && |OnRunCurr(u, s).published| > |s.published|
    ensures var s := Exec(u, Init(u), events);
            var v, covered, known := s.currBox[0].note.version, s.currBox[0].note.covered, s.currSt.trades;
            var unpriced := Value(u, m, Note(v, covered - PricedIn(u, covered, v)));
            var accepted := PmAt(OnRunCurr(u, s).currSt.portfolio, m);
            && accepted == Add(Value(u, m, Note(v, known)), unpriced)
            && (accepted == Value(u, m, Note(v, known)) <==> forall k :: k in unpriced ==> unpriced[k] == 0.0)
  {
    hide Curr.OnProposal, NextFrontier, NextLate, Inv;
    Reachable(u, {}, events);
    var s := Exec(u, Init(u), events);
    var e := s.currBox[0];
    HeadIsKnown(u, s);
    AcceptedIs(u, s.book, s.registry, s.currSt, e.msg.proposal);
    ProposalResult(u, s);
    assert s.published + [] == s.published;
    AcceptedSum(u, s, m);
    AcceptedValue(u, m, e.note.version, e.note.covered, s.currSt.trades);
    AcceptedExactIff(u, m, e.note.version, e.note.covered, s.currSt.trades);
  }

  /** A proposal at the head of Curr's mailbox covers only trades Curr knows. */
  lemma HeadIsKnown(u: Setup, s: System)
    requires Legal(u) && Inv(u, {}, s) && u.mode.DoubleBuffer? && s.currBox != [] && s.currBox[0].msg.NewTradePortfolio?
    ensures s.currBox[0].note.covered <= s.currSt.trades && s.currSt.metrics == u.metrics
  {
    MailReceive(u, {}, s.currBox, s.currHandled, s.sentCurr, s.currNote, s.frontier);
  }

  lemma AcceptedSum(u: Setup, s: System, m: Metric)
    requires Legal(u) && Inv(u, {}, s) && s.currBox != [] && s.currBox[0].msg.NewTradePortfolio? && m in u.metrics
    requires s.currBox[0].msg.proposal.market in s.registry.markets
    ensures var e := s.currBox[0];
            var p := e.msg.proposal;
            var v, covered, known := e.note.version, e.note.covered, s.currSt.trades;
            var missing := Curr.MissingFrom(s.currSt, p);
            var added := PriceSpec(u.style, u.pricer, s.book, missing, u.metrics, s.registry.markets[p.market]);
            PmAt(AddPm(p.portfolio, added), m)
            == Add(Value(u, m, Note(v, covered)), Value(u, m, Note(v, known - PricedIn(u, covered, v))))
  {
    hide BookOk, Fifo, NewMarketOk, NewTradesOk, NewPortfolioOk, HandshakeOk, MailOk, CurrOk, PublishedOk, RegistryOk,
         PriceSpec;
    var e := s.currBox[0];
    var v, covered := e.note.version, e.note.covered;
    var missing := s.currSt.trades - PricedIn(u, covered, v);
    MailReceive(u, {}, s.currBox, s.currHandled, s.sentCurr, s.currNote, s.frontier);
    MissingIs(u, {}, e, s.currSt);
    CurrKnowsFiled(u, s);
    BookFacts(u, s.book, s.arrived, s.sentCurr, s.sentNew);
    Registered(u, s.registry, s.version, v);
    PricingIsExact(u, s.book, missing, v);
    PmAtAdd(e.msg.proposal.portfolio, PriceSpec(u.style, u.pricer, s.book, missing, u.metrics, Snapshot(u, v)), m);
    assert m in ALL;
    assert Value(u, m, e.note) == Value(u, m, Note(v, covered));
  }
}
