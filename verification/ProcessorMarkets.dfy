/** Which actor is registered to which market: Curr once it has moved from one market to another, the bulk actor
    once it has priced for New, the middle stage once it has a market.  A registration keeps the market
    stored, whatever the other actors do. */
module ProcessorMarkets {
  import opened Wrappers
  import opened Portfolios
  import opened Trades
  import opened MarketRegistry
  import opened BulkPricing
  import opened Messages
  import opened Pipeline
  import opened PipelineInvariant
  import opened PipelineSteps
  import opened PipelineTheorems
  import opened DeployedPipeline
  import opened DeployedSteps
  import opened DeployedTheorems
  import New = ProcessorNewActor
  import Bulk = ProcessorBulkActor
  import Curr = ProcessorCurrActor
  import Middle = ProcessorMiddleActor

  /** A proposal of version v has been accepted. */
  predicate AcceptedAt(published: seq<Publication>, v: nat) {
    exists i :: 0 <= i < |published| && published[i].accepted && published[i].note.version == v
  }

  /** A proposal of another version than v has been accepted. */
  predicate AcceptedElsewhere(published: seq<Publication>, v: nat) {
    exists i :: 0 <= i < |published| && published[i].accepted && published[i].note.version != v
  }

  /** Curr has a market exactly if it has accepted a proposal, and is registered exactly if it has accepted
      proposals of two versions: to the market it has, which is stored. */
  ghost predicate CurrMarketOk(u: Setup, registry: Registry, market: Option<string>, published: seq<Publication>,
                               note: Note)
  {
    var holds :=
      && (market.Some? ==> market.value == u.marketName(note.version) && AcceptedAt(published, note.version))
      && (market.None? ==> forall i :: 0 <= i < |published| ==> !published[i].accepted)
      && (Curr.NAME in registry.users <==> AcceptedElsewhere(published, note.version))
      && (Curr.NAME in registry.users ==>
            market == Some(registry.users[Curr.NAME]) && market.value in registry.markets);
    holds
  }

  ghost predicate CurrMarketInv(u: Setup, s: System) {
    CurrMarketOk(u, s.registry, s.currSt.market, s.published, s.currNote)
  }

  // ---------- What the others do ----------

  /** The registration of a processor and its market are left alone. */
  predicate Leaves(processor: string, before: Registry, after: Registry) {
    && (processor in after.users <==> processor in before.users)
    && (processor in before.users ==>
         && after.users[processor] == before.users[processor]
         && (before.users[processor] in before.markets ==> before.users[processor] in after.markets))
  }

  lemma RegistrationLeaves(p: string, registry: Registry, processor: string, name: string)
    requires processor != p
    ensures Leaves(p, registry, InsertProcessor(registry, processor, name))
  {
    InsertProcessorKeeps(registry, processor, name);
  }

  lemma SwitchLeaves(p: string, registry: Registry, name: string, market: Market)
    requires p != New.NAME
    ensures Leaves(p, registry, InsertBoth(registry, New.NAME, name, market))
  {
    RegistrationLeaves(p, Insert(registry, name, market), New.NAME, name);
  }

  lemma NewLeaves(u: Setup, s: System, p: string)
    requires s.newBox != [] && p != New.NAME
    ensures Leaves(p, s.registry, OnRunNew(u, s).registry)
  {
    hide InsertBoth;
    if FUTURE in s.registry.markets {
      SwitchLeaves(p, s.registry, s.registry.markets[FUTURE].name, s.registry.markets[FUTURE]);
    }
  }

  /** Events above Curr, for all but the actor that handles a message. */
  lemma OthersLeave(u: Setup, s: System, e: Event, p: string)
    requires Enabled(s, e) && !e.RunCurr? && p != New.NAME && (e.RunBulk? ==> p != Bulk.NAME)
    ensures var t := Step(u, s, e);
            && Leaves(p, s.registry, t.registry)
            && t.currSt == s.currSt && t.published == s.published && t.currNote == s.currNote
  {
    hide InsertProcessor, New.OnMessage;
    if e.RunNew? {
      NewLeaves(u, s, p);
    } else if e.RunBulk? {
      RegistrationLeaves(p, s.registry, Bulk.NAME, s.bulkBox[0].market);
    }
  }

  /** A message to Curr, for all but Curr. */
  lemma CurrLeaves(u: Setup, s: System, p: string)
    requires s.currBox != [] && p != Curr.NAME
    ensures Leaves(p, s.registry, OnRunCurr(u, s).registry)
  {
    if s.currBox[0].msg.NewTradePortfolio? {
      hide OnRunCurr, Curr.OnProposal, Leaves;
      ProposalResult(u, s);
      RegistersOnly(u, s);
      LeavesItself(p, s.registry);
      RegistrationLeaves(p, s.registry, Curr.NAME, s.currBox[0].msg.proposal.market);
    }
  }

  lemma LeavesItself(p: string, registry: Registry)
    ensures Leaves(p, registry, registry)
  {
  }

  lemma RegistersOnly(u: Setup, s: System)
    requires s.currBox != [] && s.currBox[0].msg.NewTradePortfolio?
    ensures var p := s.currBox[0].msg.proposal;
            var r := Curr.OnProposal(u.pricer, u.style, s.book, s.registry, s.currSt, p);
            r.registry == s.registry || r.registry == InsertProcessor(s.registry, Curr.NAME, p.market)
  {
    hide PriceSpec, AddPm, InsertProcessor;
  }

  // ---------- What Curr does ----------

  lemma OneMorePublication(published: seq<Publication>, p: Publication, v: nat)
    ensures AcceptedAt(published + [p], v) <==> AcceptedAt(published, v) || (p.accepted && p.note.version == v)
    ensures AcceptedElsewhere(published + [p], v) <==>
      AcceptedElsewhere(published, v) || (p.accepted && p.note.version != v)
  {
    var more := published + [p];
    assert more[|published|] == p;
    assert forall i :: 0 <= i < |published| ==> more[i] == published[i];
  }

  /** A market was accepted that is stored; Curr registers it if it comes from another one. */
  lemma AcceptedMarket(u: Setup, registry: Registry, market: Option<string>, published: seq<Publication>, note: Note,
                       p: Publication)
    requires Legal(u) && CurrMarketOk(u, registry, market, published, note) && p.accepted
    requires u.marketName(p.note.version) in registry.markets
    ensures var name := u.marketName(p.note.version);
            CurrMarketOk(u,
              if market.Some? && market.value != name then InsertProcessor(registry, Curr.NAME, name) else registry,
              Some(name), published + [p], p.note)
  {
    hide InsertProcessor;
    var v := p.note.version;
    OneMorePublication(published, p, v);
    Registered(registry, u.marketName(v));
    if market.Some? {
      assert v != note.version ==> AcceptedElsewhere(published, v);
      assert v == note.version ==> market.value == u.marketName(v);
    }
  }

  lemma Registered(registry: Registry, name: string)
    requires name in registry.markets
    ensures var after := InsertProcessor(registry, Curr.NAME, name);
            Curr.NAME in after.users && after.users[Curr.NAME] == name && name in after.markets
  {
    InsertProcessorKeeps(registry, Curr.NAME, name);
  }

  /** Other publications do not count. */
  lemma PublishedOnly(u: Setup, registry: Registry, market: Option<string>, published: seq<Publication>, note: Note,
                      p: Publication)
    requires CurrMarketOk(u, registry, market, published, note) && !p.accepted && p.note.version == note.version
    ensures CurrMarketOk(u, registry, market, published + [p], p.note)
  {
    OneMorePublication(published, p, note.version);
  }

  lemma TradeMarket(u: Setup, s: System)
    requires CurrMarketInv(u, s) && s.currBox != [] && s.currBox[0].msg.NewTrade?
    ensures CurrMarketInv(u, OnRunCurr(u, s))
  {
    hide CurrMarketOk, OnRunCurr;
    TradeResult(u, s);
    var t, r := OnRunCurr(u, s), Curr.OnNewTrade(u.pricer, u.mode, s.book, s.registry, s.currSt, s.currBox[0].msg.id);
    if r.published.Some? {
      PublishedOnly(u, s.registry, s.currSt.market, s.published, s.currNote,
                    Publication(r.published.value, t.currNote, false, r.st.trades));
    } else {
      assert s.published + [] == s.published;
      SameVersion(u, s.registry, s.currSt.market, s.published, s.currNote, t.currNote);
    }
  }

  lemma SameVersion(u: Setup, registry: Registry, market: Option<string>, published: seq<Publication>, note: Note,
                    note': Note)
    requires CurrMarketOk(u, registry, market, published, note) && note'.version == note.version
    ensures CurrMarketOk(u, registry, market, published, note')
  {
  }

  lemma ProposalMarket(u: Setup, s: System)
    requires Legal(u) && Inv(u, {}, s) && CurrMarketInv(u, s)
    requires s.currBox != [] && s.currBox[0].msg.NewTradePortfolio?
    ensures CurrMarketInv(u, OnRunCurr(u, s))
  {
    hide CurrMarketOk, OnRunCurr, Inv, Legal, Curr.OnProposal, PricedIn, InsertProcessor;
    var p := s.currBox[0].msg.proposal;
    var r := Curr.OnProposal(u.pricer, u.style, s.book, s.registry, s.currSt, p);
    ProposalResult(u, s);
    ProposalDecision(u, s);
    if r.published.Some? {
      RegistersAccepted(u, s);
      AcceptedIs(u, s.book, s.registry, s.currSt, p);
      AcceptedMarket(u, s.registry, s.currSt.market, s.published, s.currNote,
                     Publication(r.published.value, NextCurrNote(s, s.currBox[0], r), true, r.st.trades));
    } else {
      NothingRegistered(u, s);
      assert s.published + [] == s.published;
    }
  }

  lemma RegistersAccepted(u: Setup, s: System)
    requires s.currBox != [] && s.currBox[0].msg.NewTradePortfolio?
    ensures var p := s.currBox[0].msg.proposal;
            var r := Curr.OnProposal(u.pricer, u.style, s.book, s.registry, s.currSt, p);
            r.published.Some? ==>
              r.registry == if s.currSt.market.Some? && s.currSt.market.value != p.market
                            then InsertProcessor(s.registry, Curr.NAME, p.market) else s.registry
  {
    hide PriceSpec, AddPm, InsertProcessor;
  }

  lemma NothingRegistered(u: Setup, s: System)
    requires s.currBox != [] && s.currBox[0].msg.NewTradePortfolio?
    ensures var r := Curr.OnProposal(u.pricer, u.style, s.book, s.registry, s.currSt, s.currBox[0].msg.proposal);
            r.published.None? ==> r.registry == s.registry && r.st == s.currSt
  {
    hide PriceSpec, AddPm, InsertProcessor;
  }

  lemma OtherMarket(u: Setup, s: System)
    requires CurrMarketInv(u, s) && s.currBox != [] && s.currBox[0].msg.Behind?
    ensures CurrMarketInv(u, OnRunCurr(u, s))
  {
    hide CurrMarketOk;
    assert s.published + [] == s.published;
  }

  lemma CurrMarketStep(u: Setup, s: System)
    requires Legal(u) && Inv(u, {}, s) && CurrMarketInv(u, s) && s.currBox != []
    ensures CurrMarketInv(u, OnRunCurr(u, s))
  {
    hide CurrMarketInv, OnRunCurr;
    MailReceive(u, {}, s.currBox, s.currHandled, s.sentCurr, s.currNote, s.frontier);
    if s.currBox[0].msg.NewTrade? {
      TradeMarket(u, s);
    } else if s.currBox[0].msg.NewTradePortfolio? {
      ProposalMarket(u, s);
    } else {
      OtherMarket(u, s);
    }
  }

  lemma LeftAlone(u: Setup, registry: Registry, registry': Registry, market: Option<string>,
                  published: seq<Publication>, note: Note)
    requires CurrMarketOk(u, registry, market, published, note) && Leaves(Curr.NAME, registry, registry')
    ensures CurrMarketOk(u, registry', market, published, note)
  {
  }

  // ---------- Every run ----------

  lemma {:induction false} CurrMarketReachable(u: Setup, events: seq<Event>)
    requires Legal(u)
    ensures CurrMarketInv(u, Exec(u, Init(u), events))
    decreases events
  {
    if events == [] {
    } else {
      hide Legal, Inv, CurrMarketOk, Step, Leaves, Enabled;
      var n := |events| - 1;
      CurrMarketReachable(u, events[..n]);
      Reachable(u, {}, events[..n]);
      var s, e := Exec(u, Init(u), events[..n]), events[n];
      if Enabled(s, e) {
        NextMarket(u, s, e);
      }
    }
  }

  lemma NextMarket(u: Setup, s: System, e: Event)
    requires Legal(u) && Inv(u, {}, s) && CurrMarketInv(u, s) && Enabled(s, e)
    ensures CurrMarketInv(u, Step(u, s, e))
  {
    if e.RunCurr? {
      hide CurrMarketInv, OnRunCurr, Inv;
      CurrMarketStep(u, s);
    } else {
      hide CurrMarketOk, Step, Leaves, Inv;
      OthersLeave(u, s, e, Curr.NAME);
      LeftAlone(u, s.registry, Step(u, s, e).registry, s.currSt.market, s.published, s.currNote);
    }
  }

  /** In every run: Curr is registered if and only if it has accepted proposals of two different versions;
      then to the market it works on, and that market is stored with its content, whatever New and its
      bulk actor have switched to meanwhile. */
  lemma CurrMarketStays(u: Setup, events: seq<Event>)
    requires Legal(u)
    ensures var s := Exec(u, Init(u), events);
            && (Curr.NAME in s.registry.users <==>
                 exists i, j :: 0 <= i < j < |s.published| && s.published[i].accepted && s.published[j].accepted
                   && s.published[i].note.version != s.published[j].note.version)
            && (Curr.NAME in s.registry.users ==>
                 && s.currSt.market == Some(s.registry.users[Curr.NAME])
                 && s.registry.Get(s.registry.users[Curr.NAME]) == Some(Snapshot(u, s.currNote.version)))
  {
    hide Inv, Legal, Exec;
    CurrMarketReachable(u, events);
    Reachable(u, {}, events);
    RegisteredMarket(u, Exec(u, Init(u), events));
  }

  lemma RegisteredMarket(u: Setup, s: System)
    requires Inv(u, {}, s) && CurrMarketInv(u, s)
    ensures Curr.NAME in s.registry.users <==>
      exists i, j :: 0 <= i < j < |s.published| && s.published[i].accepted && s.published[j].accepted
        && s.published[i].note.version != s.published[j].note.version
    ensures Curr.NAME in s.registry.users ==>
      && s.currSt.market == Some(s.registry.users[Curr.NAME])
      && s.registry.Get(s.registry.users[Curr.NAME]) == Some(Snapshot(u, s.currNote.version))
  {
    hide BookOk, Fifo, NewMarketOk, NewTradesOk, NewPortfolioOk, HandshakeOk, MailOk, PublishedOk, Snapshot;
    TwoVersions(s.published, s.currNote.version);
    if Curr.NAME in s.registry.users {
      PipelineSteps.Registered(u, s.registry, s.version, s.currNote.version);
    }
  }

  /** Two versions were accepted exactly if the present one was and another one. */
  lemma TwoVersions(published: seq<Publication>, v: nat)
    requires AcceptedElsewhere(published, v) ==> AcceptedAt(published, v)
    ensures AcceptedElsewhere(published, v) <==>
      exists i, j :: 0 <= i < j < |published| && published[i].accepted && published[j].accepted
        && published[i].note.version != published[j].note.version
  {
    if AcceptedElsewhere(published, v) {
      var i :| 0 <= i < |published| && published[i].accepted && published[i].note.version == v;
      var j :| 0 <= j < |published| && published[j].accepted && published[j].note.version != v;
      if i < j {
        assert published[i].note.version != published[j].note.version;
      } else {
        assert published[j].note.version != published[i].note.version;
      }
    }
  }

  // ---------- The bulk actor ----------

  /** With no request outstanding, the bulk actor is registered to New's market. */
  ghost predicate BulkMarketInv(s: System) {
    s.newSt.market.Some? && s.bulkBox == [] ==>
      Bulk.NAME in s.registry.users && s.registry.users[Bulk.NAME] == s.newSt.market.value
  }

  lemma BulkMarketStep(u: Setup, s: System, e: Event)
    requires Legal(u) && Inv(u, {}, s) && BulkMarketInv(s) && Enabled(s, e)
    ensures BulkMarketInv(Step(u, s, e))
  {
    if e.RunCurr? {
      hide OnRunCurr, Inv, Leaves;
      CurrLeaves(u, s, Bulk.NAME);
      CurrLeavesNew(u, s);
      SameRegistration(s.registry, OnRunCurr(u, s).registry);
    } else if e.RunBulk? {
      hide Inv;
      OutstandingMarket(u, s);
      OneRequest(u, s);
    } else if e.RunNew? {
      hide OnRunNew, Inv, Leaves;
      NewMarketKept(u, s);
      NewLeaves(u, s, Bulk.NAME);
      SameRegistration(s.registry, OnRunNew(u, s).registry);
    } else {
      hide Inv;
    }
  }

  lemma SameRegistration(before: Registry, after: Registry)
    requires Leaves(Bulk.NAME, before, after)
    ensures Bulk.NAME in before.users ==>
      Bulk.NAME in after.users && after.users[Bulk.NAME] == before.users[Bulk.NAME]
  {
  }

  lemma CurrLeavesNew(u: Setup, s: System)
    requires s.currBox != []
    ensures OnRunCurr(u, s).newSt == s.newSt && OnRunCurr(u, s).bulkBox == s.bulkBox
  {
    hide Curr.OnMessage, NextCurrNote;
  }

  lemma OneRequest(u: Setup, s: System)
    requires Inv(u, {}, s) && s.bulkBox != []
    ensures s.bulkBox[1..] == []
  {
    hide RegistryOk, BookOk, Fifo, NewMarketOk, NewTradesOk, NewPortfolioOk, MailOk, CurrOk, PublishedOk;
  }

  /** New's market changes only together with a new request. */
  lemma NewMarketKept(u: Setup, s: System)
    requires Legal(u) && Inv(u, {}, s) && s.newBox != []
    ensures var t := OnRunNew(u, s); t.bulkBox == [] ==> s.bulkBox == [] && t.newSt.market == s.newSt.market
  {
    hide Inv, OnRunNew, Legal;
    RunNewIs(u, s);
    NewTradeKnown(u, s);
    Facts(u, {}, s);
    OutstandingMarket(u, s);
    BulkHasMarket(u, s);
  }

  lemma BulkHasMarket(u: Setup, s: System)
    requires Inv(u, {}, s)
    ensures s.newSt.mode.CalculatingBulk? ==> s.newSt.market.Some?
  {
    hide RegistryOk, BookOk, Fifo, NewMarketOk, NewPortfolioOk, HandshakeOk, MailOk, CurrOk, PublishedOk;
  }

  lemma {:induction false} BulkMarketReachable(u: Setup, events: seq<Event>)
    requires Legal(u)
    ensures BulkMarketInv(Exec(u, Init(u), events))
    decreases events
  {
    if events != [] {
      hide Legal, Inv, BulkMarketInv, Step, Enabled;
      var n := |events| - 1;
      BulkMarketReachable(u, events[..n]);
      Reachable(u, {}, events[..n]);
      var s := Exec(u, Init(u), events[..n]);
      if Enabled(s, events[n]) {
        BulkMarketStep(u, s, events[n]);
      }
    }
  }

  /** In every run, while no request is outstanding, the bulk actor is registered to New's market. */
  lemma BulkMarketStays(u: Setup, events: seq<Event>)
    requires Legal(u)
    ensures var s := Exec(u, Init(u), events);
            s.newSt.market.Some? && s.bulkBox == [] ==>
              Bulk.NAME in s.registry.users && s.registry.users[Bulk.NAME] == s.newSt.market.value
  {
    hide Exec;
    BulkMarketReachable(u, events);
  }

  // ---------- With a middle stage ----------

  /** The middle stage is registered to its market. */
  ghost predicate MiddleMarketInv(s: Deployed) {
    s.middleSt.market.Some? ==>
      MIDDLE in s.core.registry.users && s.core.registry.users[MIDDLE] == s.middleSt.market.value
  }

  /** A message of the middle stage: either it keeps market and registry, or it takes over a market and
      registers it. */
  lemma MiddleRegisters(u: Setup, s: Deployed)
    requires s.middleBox != []
    ensures var t := OnMiddle(u, s);
            || (t.core.registry == s.core.registry && t.middleSt.market == s.middleSt.market)
            || (t.middleSt.market.Some?
                && t.core.registry == InsertProcessor(s.core.registry, MIDDLE, t.middleSt.market.value))
  {
    hide PriceSpec, AddPm, InsertProcessor, TradeDelta, AddToPresent, NextMiddleNote;
  }

  /** What any other move leaves alone. */
  lemma MoveLeaves(u: Setup, s: Deployed, move: Move)
    requires Possible(s, move) && !move.RunMiddle?
    ensures var t := Moved(u, s, move);
            Leaves(MIDDLE, s.core.registry, t.core.registry) && t.middleSt == s.middleSt
  {
    hide Leaves, OnRunCurr, Curr.OnMessage, Step, Enabled;
    LeavesItself(MIDDLE, s.core.registry);
    match move
    case Above(e) => OthersLeave(u, Upper(s), e, MIDDLE);
    case RunBelow => CurrLeaves(u, s.core, MIDDLE);
    case AnnounceToCurr =>
  }

  lemma MiddleMarketStep(u: Setup, s: Deployed, move: Move)
    requires MiddleMarketInv(s) && Possible(s, move)
    ensures MiddleMarketInv(Moved(u, s, move))
  {
    if move.RunMiddle? {
      hide OnMiddle;
      MiddleRegisters(u, s);
    } else {
      hide Moved, Possible;
      MoveLeaves(u, s, move);
    }
  }

  /** In every run, orderly or not, the middle stage is registered to the market it has ... */
  lemma {:induction false} MiddleMarketStays(u: Setup, moves: seq<Move>)
    ensures var s := Play(u, Start(u), moves);
            s.middleSt.market.Some? ==>
              MIDDLE in s.core.registry.users && s.core.registry.users[MIDDLE] == s.middleSt.market.value
    decreases moves
  {
    if moves != [] {
      hide Moved, Possible;
      var n := |moves| - 1;
      MiddleMarketStays(u, moves[..n]);
      var s := Play(u, Start(u), moves[..n]);
      if Possible(s, moves[n]) {
        MiddleMarketStep(u, s, moves[n]);
      }
    }
  }

  /** ... and once that market is stored, it stays stored until the middle stage handles another message. */
  lemma MiddleMarketKept(u: Setup, moves: seq<Move>, move: Move)
    requires var s := Play(u, Start(u), moves);
             && Possible(s, move) && !move.RunMiddle?
             && s.middleSt.market.Some? && s.middleSt.market.value in s.core.registry.markets
    ensures var s := Play(u, Start(u), moves);
            var t := Moved(u, s, move);
            t.middleSt.market == s.middleSt.market && t.middleSt.market.value in t.core.registry.markets
  {
    hide Moved, Possible, Play;
    MiddleMarketStays(u, moves);
    MoveLeaves(u, Play(u, Start(u), moves), move);
  }

  lemma CurrMarketMove(u: Setup, s: Deployed, move: Move)
    requires Legal(u) && DeployedInv(u, {}, s) && CurrMarketInv(u, s.core) && Possible(s, move)
    ensures CurrMarketInv(u, Moved(u, s, move).core)
  {
    hide CurrMarketOk, DeployedInv, Legal, Leaves, Step, Enabled, InsertProcessor;
    var core := s.core;
    match move
    case Above(e) =>
      OthersLeave(u, Upper(s), e, Curr.NAME);
      LeftAlone(u, core.registry, Step(u, Upper(s), e).registry, core.currSt.market, core.published, core.currNote);
    case AnnounceToCurr =>
    case RunMiddle =>
      hide OnMiddle;
      MiddleRegisters(u, s);
      OnlyRegistry(u, s);
      LeavesItself(Curr.NAME, core.registry);
      if t: string :| OnMiddle(u, s).core.registry == InsertProcessor(core.registry, MIDDLE, t) {
        RegistrationLeaves(Curr.NAME, core.registry, MIDDLE, t);
      }
      LeftAlone(u, core.registry, OnMiddle(u, s).core.registry, core.currSt.market, core.published, core.currNote);
    case RunBelow =>
      hide OnRunCurr, Curr.OnMessage;
      CoreInv(u, {}, s);
      CurrMarketStep(u, core);
  }

  lemma OnlyRegistry(u: Setup, s: Deployed)
    requires s.middleBox != []
    ensures var t := OnMiddle(u, s).core;
            t.currSt == s.core.currSt && t.published == s.core.published && t.currNote == s.core.currNote
  {
    hide MiddleResultOf, NextMiddleNote;
  }

  lemma {:induction false} CurrMarketPlayed(u: Setup, moves: seq<Move>)
    requires Legal(u) && u.mode.DoubleBuffer? && OrderlyRun(u, moves)
    ensures CurrMarketInv(u, Play(u, Start(u), moves).core)
    decreases moves
  {
    if moves == [] {
    } else {
      hide CurrMarketInv, Legal, DeployedInv, Moved, Possible, Orderly;
      var n := |moves| - 1;
      var init := moves[..n];
      assert forall k :: 0 <= k <= n ==> init[..k] == moves[..k];
      assert OrderlyRun(u, init);
      CurrMarketPlayed(u, init);
      TrustPV(u, {}, init);
      DeployedReachable(u, {}, init);
      var s := Play(u, Start(u), init);
      if Possible(s, moves[n]) {
        CurrMarketMove(u, s, moves[n]);
      }
    }
  }

  /** Below a middle stage, in every orderly run, the same holds for Curr. */
  lemma DeployedCurrMarketStays(u: Setup, moves: seq<Move>)
    requires Legal(u) && u.mode.DoubleBuffer? && OrderlyRun(u, moves)
    ensures var s := Play(u, Start(u), moves).core;
            && (Curr.NAME in s.registry.users <==>
                 exists i, j :: 0 <= i < j < |s.published| && s.published[i].accepted && s.published[j].accepted
                   && s.published[i].note.version != s.published[j].note.version)
            && (Curr.NAME in s.registry.users ==>
                 && s.currSt.market == Some(s.registry.users[Curr.NAME])
                 && s.registry.Get(s.registry.users[Curr.NAME]) == Some(Snapshot(u, s.currNote.version)))
  {
    hide CurrMarketInv, Legal, DeployedInv, Play, Inv;
    CurrMarketPlayed(u, moves);
    TrustPV(u, {}, moves);
    DeployedReachable(u, {}, moves);
    CoreInv(u, {}, Play(u, Start(u), moves));
    RegisteredMarket(u, Play(u, Start(u), moves).core);
  }
}
