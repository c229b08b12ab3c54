/** The invariant of the deployed pipeline. */
module DeployedSteps {
  import opened Wrappers
  import opened Portfolios
  import opened Trades
  import opened MarketRegistry
  import opened BulkPricing
  import opened Messages
  import opened Pipeline
  import opened PipelineInvariant
  import opened PipelineSteps
  import opened DeployedPipeline
  import New = ProcessorNewActor
  import Curr = ProcessorCurrActor
  import Middle = ProcessorMiddleActor

  /** The upper pipeline is in order, the middle stage's portfolio is exact on all metrics, Curr is in
      order below it, and every trade the middle stage has handled is announced to Curr. */
  ghost predicate DeployedInv(u: Setup, ms: set<Metric>, s: Deployed) {
    var holds :=
      && u.mode.DoubleBuffer?
      && Inv(u, ms, Upper(s))
      && Exact(u, ALL, s.middleSt.portfolio, s.middleNote)
      && BookOk(u, s.core.book, s.core.arrived, s.core.sentCurr, s.core.sentNew)
      && s.middleHandled <= s.core.sentCurr <= s.sentMiddle
      && MailOk(u, ms, s.core.currBox, s.core.currHandled, s.core.sentCurr, s.core.currNote, s.middleNote)
      && CurrOk(u, ms, s.core.currSt, s.core.currNote, s.core.currHandled, s.core.sentCurr)
      && PublishedOk(u, ms, s.core.published, s.core.currNote);
    holds
  }

  /** What the handler of the middle stage does not ask for itself: a trade is announced to Curr before
      the middle stage prices it, and an answer finds the market of the portfolio stored and names no
      trade that the portfolio values already. */
  ghost predicate Orderly(s: Deployed, move: Move) {
    move.RunMiddle? && s.middleBox != [] ==>
      match s.middleBox[0].msg
      case NewTrade(_) => s.middleHandled < s.core.sentCurr
      case Behind(_, ids) =>
        ids == {} || (s.middleSt.market.Some? && s.middleSt.market.value in s.core.registry.markets
                      && ids !! s.middleNote.covered)
      case _ => true
  }

  // ---------- The start, and what happens above ----------

  lemma StartInv(u: Setup, ms: set<Metric>)
    requires Legal(u) && u.mode.DoubleBuffer?
    ensures DeployedInv(u, ms, Start(u))
  {
    hide RegistryOk, BookOk, Fifo, NewMarketOk, NewTradesOk, NewPortfolioOk, HandshakeOk, MailOk, Legal, KeepMetrics,
         Exact;
    InitInv(u, ms);
    EmptyIsExact(u, ALL);
    assert Upper(Start(u)) == Init(u).(published := []);
  }

  lemma MovedAbove(u: Setup, ms: set<Metric>, s: Deployed, t: System)
    requires DeployedInv(u, ms, s) && Inv(u, ms, t)
    requires t.currSt == Upper(s).currSt && t.currHandled == s.middleHandled && t.currNote == s.middleNote
    requires t.published == [] && s.sentMiddle <= t.sentCurr
    requires t.sentNew <= s.core.sentCurr <= t.arrived
    ensures DeployedInv(u, ms, Lifted(s, t)) && Upper(Lifted(s, t)) == t
  {
    hide RegistryOk, Fifo, NewMarketOk, NewTradesOk, NewPortfolioOk, HandshakeOk, MailOk, CurrOk, PublishedOk, Exact;
    assert Upper(Lifted(s, t)) == t;
  }

  lemma AboveInv(u: Setup, ms: set<Metric>, s: Deployed, e: Event)
    requires Legal(u) && DeployedInv(u, ms, s) && Possible(s, Above(e))
    requires Trust(u, ms, Step(u, Upper(s), e).frontier)
    ensures DeployedInv(u, ms, Moved(u, s, Above(e)))
  {
    hide Inv, Legal, Trust;
    var t := Step(u, Upper(s), e);
    StepInv(u, ms, Upper(s), e);
    AboveFrame(u, ms, s, e);
    MovedAbove(u, ms, s, t);
  }

  /** What an event above leaves alone. */
  lemma AboveFrame(u: Setup, ms: set<Metric>, s: Deployed, e: Event)
    requires DeployedInv(u, ms, s) && Possible(s, Above(e))
    ensures var t := Step(u, Upper(s), e);
            && t.currSt == Upper(s).currSt && t.currHandled == s.middleHandled && t.currNote == s.middleNote
            && t.published == [] && s.sentMiddle <= t.sentCurr
            && t.sentNew <= s.core.sentCurr <= t.arrived
  {
    hide RegistryOk, Fifo, NewMarketOk, NewTradesOk, NewPortfolioOk, HandshakeOk, MailOk, CurrOk, PublishedOk, Exact;
  }

  lemma AnnounceInv(u: Setup, ms: set<Metric>, s: Deployed)
    requires Legal(u) && DeployedInv(u, ms, s) && Possible(s, AnnounceToCurr)
    ensures DeployedInv(u, ms, Moved(u, s, AnnounceToCurr))
  {
    hide RegistryOk, Fifo, PublishedOk, HandshakeOk, NewPortfolioOk, NewTradesOk, CurrOk, MailOk, Exact;
    var core := s.core;
    var e := Envelope(NewTrade(u.tradeId(core.sentCurr)), core.sentCurr, core.frontier);
    MailSend(u, ms, core.currBox, core.currHandled, core.sentCurr, core.currNote, s.middleNote, s.middleNote, e);
    CurrOkSend(u, ms, core.currSt, core.currNote, core.currHandled, core.sentCurr);
  }

  // ---------- Curr below the middle stage ----------

  /** Seen from Curr, the pipeline is in order too. */
  lemma CoreInv(u: Setup, ms: set<Metric>, s: Deployed)
    requires DeployedInv(u, ms, s)
    ensures Inv(u, ms, s.core)
  {
    hide RegistryOk, BookOk, Fifo, NewMarketOk, NewTradesOk, NewPortfolioOk, HandshakeOk, CurrOk, PublishedOk, Exact,
         ProposalOk;
    assert NotAhead(u, s.middleNote, s.core.frontier);
    MailFrontier(u, ms, s.core.currBox, s.core.currHandled, s.core.sentCurr, s.core.currNote, s.middleNote,
                 s.core.frontier);
  }

  /** Curr's mailbox stays behind the middle stage. */
  lemma StillBehind(u: Setup, ms: set<Metric>, box: seq<Envelope>, handled: nat, sent: nat, currNote: Note,
                    frontier: Note, currNote': Note, later: Note)
    requires u.mode.DoubleBuffer? && MailOk(u, ms, box, handled, sent, currNote, frontier) && box != []
    requires MailOk(u, ms, box[1..], After(box[0]), sent, currNote', later)
    requires currNote'.version == currNote.version
      || (box[0].msg.NewTradePortfolio? && currNote'.version == box[0].note.version)
    ensures MailOk(u, ms, box[1..], After(box[0]), sent, currNote', frontier)
  {
    hide ProposalOk, Fifo;
    QueueReceive(u, ms, box, frontier);
  }

  lemma BelowIs(u: Setup, ms: set<Metric>, s: Deployed)
    requires Legal(u) && DeployedInv(u, ms, s) && s.core.currBox != []
    ensures var core, t := s.core, OnRunCurr(u, s.core);
            && t.currBox == core.currBox[1..] && t.currHandled == After(core.currBox[0])
            && (t.currNote.version == core.currNote.version
                || (core.currBox[0].msg.NewTradePortfolio? && t.currNote.version == core.currBox[0].note.version))
            && t.(registry := core.registry, currSt := core.currSt, currBox := core.currBox,
                  currHandled := core.currHandled, newBox := core.newBox, published := core.published,
                  currNote := core.currNote) == core
  {
    hide RegistryOk, BookOk, NewMarketOk, NewTradesOk, NewPortfolioOk, HandshakeOk, CurrOk, PublishedOk, Exact,
         Curr.OnMessage, Inv, Legal, MailOk;
    MailReceive(u, ms, s.core.currBox, s.core.currHandled, s.core.sentCurr, s.core.currNote, s.middleNote);
  }

  /** An answer of Curr names only trades it has received. */
  lemma AnswerKnown(u: Setup, s: System)
    requires s.currBox != []
    ensures var r := Curr.OnMessage(u.pricer, u.style, u.mode, s.book, s.registry, s.currSt, s.currBox[0].msg);
            r.answer.Some? ==> r.answer.value.Behind? && r.answer.value.missing <= s.currSt.trades
  {
    hide PriceSpec, AddPm, TradeDelta, AddToPresent;
  }

  lemma KnownBelow(u: Setup, ms: set<Metric>, s: Deployed)
    requires DeployedInv(u, ms, s)
    ensures s.core.currSt.trades <= First(u, s.sentMiddle)
  {
    hide RegistryOk, BookOk, NewMarketOk, NewTradesOk, NewPortfolioOk, HandshakeOk, PublishedOk, Exact, QueueOk, LagOk;
    FirstGrows(u, s.core.currHandled, s.sentMiddle);
  }

  lemma UpperMail(u: Setup, ms: set<Metric>, s: Deployed, answer: Option<Message>)
    requires DeployedInv(u, ms, s)
    requires answer.Some? ==> answer.value.Behind? && answer.value.missing <= s.core.currSt.trades
    ensures var box := s.middleBox
              + if answer.Some? then [Envelope(answer.value, s.sentMiddle, s.core.frontier)] else [];
            MailOk(u, ms, box, s.middleHandled, s.sentMiddle, s.middleNote, s.core.frontier)
  {
    hide RegistryOk, BookOk, Fifo, NewMarketOk, NewTradesOk, NewPortfolioOk, HandshakeOk, PublishedOk, Exact, QueueOk,
         LagOk, MailOk;
    if answer.Some? {
      KnownBelow(u, ms, s);
      MailSend(u, ms, s.middleBox, s.middleHandled, s.sentMiddle, s.middleNote, s.core.frontier, s.core.frontier,
               Envelope(answer.value, s.sentMiddle, s.core.frontier));
    } else {
      assert s.middleBox + [] == s.middleBox;
    }
  }

  lemma BelowInv(u: Setup, ms: set<Metric>, s: Deployed)
    requires Legal(u) && DeployedInv(u, ms, s) && s.core.currBox != []
    ensures DeployedInv(u, ms, OnBelow(u, s))
  {
    hide RegistryOk, BookOk, Fifo, NewMarketOk, NewTradesOk, NewPortfolioOk, HandshakeOk, CurrOk, PublishedOk, Exact,
         Legal, OnRunCurr, MailOk, Curr.OnMessage;
    var core, t := s.core, OnRunCurr(u, s.core);
    CoreInv(u, ms, s);
    RunCurrInv(u, ms, core);
    BelowIs(u, ms, s);
    StillBehind(u, ms, core.currBox, core.currHandled, core.sentCurr, core.currNote, s.middleNote, t.currNote,
                core.frontier);
    var r := Curr.OnMessage(u.pricer, u.style, u.mode, core.book, core.registry, core.currSt, core.currBox[0].msg);
    AnswerKnown(u, core);
    UpperMail(u, ms, s, r.answer);
  }

  // ---------- The middle stage ----------

  /** A result of the middle stage that is exact for the note: its state, and what it offers below. */
  ghost predicate StageOk(u: Setup, ms: set<Metric>, registry: Registry, r: Middle.MiddleResult, note: Note,
                          handled: nat, sent: nat)
  {
    var holds :=
      && CurrOk(u, ms, AsCurr(r.st), note, handled, sent) && Exact(u, ALL, r.st.portfolio, note)
      && (r.below.Some? ==> r.below.value == Proposal(r.st.trades, r.st.portfolio, u.marketName(note.version)))
      && (r.above.Some? ==> r.above.value.Behind?)
      && (r.registry == registry || exists name :: r.registry == InsertProcessor(registry, MIDDLE, name));
    holds
  }

  /** What the middle stage may rely on when it handles a message. */
  ghost predicate StageReady(u: Setup, ms: set<Metric>, st: Middle.MiddleState, note: Note, handled: nat, sent: nat,
                             book: Book, registry: Registry, version: nat)
  {
    && u.mode.DoubleBuffer? && CurrOk(u, ms, AsCurr(st), note, handled, sent) && Exact(u, ALL, st.portfolio, note)
    && RegistryOk(u, registry, version) && handled <= sent
    && First(u, sent) <= book.Keys && forall id :: id in book ==> book[id] == u.trade(id)
  }

  /** Pricing some more trades on the market of an exact portfolio. */
  lemma AddedExact(u: Setup, book: Book, portfolio: MetricMap, note: Note, ids: set<TradeId>)
    requires Legal(u) && Shape(u, portfolio) && Exact(u, ALL, portfolio, note) && ids !! note.covered
    requires ids <= book.Keys && forall id :: id in book ==> book[id] == u.trade(id)
    ensures var sum := AddPm(portfolio,
              PriceSpec(u.style, u.pricer, book, ids, u.metrics, Snapshot(u, note.version)));
            Shape(u, sum) && Exact(u, ALL, sum, note.(covered := note.covered + ids))
  {
    hide PriceSpec, Legal;
    PricingIsExact(u, book, ids, note.version);
    var added := PriceSpec(u.style, u.pricer, book, ids, u.metrics, Snapshot(u, note.version));
    assert AddPm(portfolio, added).Keys == portfolio.Keys + added.Keys;
    forall m | m in ALL && m in u.metrics
      ensures PmAt(AddPm(portfolio, added), m) == Value(u, m, note.(covered := note.covered + ids))
    {
      PmAtAdd(portfolio, added, m);
      SumUnion(TradeContribution(u, m, note.version), note.covered, ids);
    }
  }

  lemma StageTrade(u: Setup, ms: set<Metric>, st: Middle.MiddleState, note: Note, handled: nat, sent: nat,
                   book: Book, registry: Registry, version: nat)
    requires Legal(u) && StageReady(u, ms, st, note, handled, sent, book, registry, version) && handled < sent
    ensures var id := u.tradeId(handled);
            var r := Middle.OnNewTrade(u.pricer, book, registry, st, id);
            var counted := r.below.Some? && st.portfolio != map[];
            var note' := if counted then note.(covered := note.covered + {id}) else note;
            StageOk(u, ms, registry, r, note', handled + 1, sent)
  {
    hide TradeDelta, AddToPresent, Value, Exact, Snapshot;
    var id := u.tradeId(handled);
    var r := Middle.OnNewTrade(u.pricer, book, registry, st, id);
    InFirst(u, handled, handled);
    InFirst(u, handled, sent);
    FirstGrows(u, handled + 1, sent);
    ExactOnAny(u, ms, r.st.portfolio, note.(covered := note.covered + {id}));
    if r.below.Some? {
      Registered(u, registry, version, note.version);
      CurrTradeExact(u, ALL, st.portfolio, note, id);
    }
  }

  lemma ExactOnAny(u: Setup, ms: set<Metric>, portfolio: MetricMap, note: Note)
    ensures Exact(u, ALL, portfolio, note) ==> Exact(u, ms, portfolio, note)
  {
    hide Value;
    forall m: Metric ensures m in ALL {
      match m
      case PV =>
      case PV01 =>
      case PnL =>
    }
  }

  lemma StageProposal(u: Setup, ms: set<Metric>, st: Middle.MiddleState, note: Note, handled: nat, sent: nat,
                      book: Book, registry: Registry, version: nat, e: Envelope)
    requires Legal(u) && StageReady(u, ms, st, note, handled, sent, book, registry, version)
    requires e.msg.NewTradePortfolio? && ProposalOk(u, ms, e) && e.horizon == handled
    ensures var p := e.msg.proposal;
            var r := Middle.OnProposal(u.pricer, u.style, book, registry, MIDDLE, st, p);
            var covered := if r.below.Some? then e.note.covered + (st.trades - p.trades) else e.note.covered;
            StageOk(u, ms, registry, r, Note(e.note.version, covered), handled, sent)
  {
    hide PriceSpec, Value, Exact, Snapshot, RegistryOk, Legal;
    var p := e.msg.proposal;
    var r := Middle.OnProposal(u.pricer, u.style, book, registry, MIDDLE, st, p);
    var missing := st.trades - p.trades;
    FirstGrows(u, handled, sent);
    RegistrationKeepsRegistryOk(u, registry, version, MIDDLE, p.market);
    ExactOnAny(u, ms, r.st.portfolio, e.note);
    ExactOnAny(u, ms, r.st.portfolio, e.note.(covered := e.note.covered + missing));
    if missing == {} {
      assert e.note.covered + missing == e.note.covered;
    } else if r.below.Some? {
      Registered(u, InsertProcessor(registry, MIDDLE, p.market), version, e.note.version);
      AddedExact(u, book, p.portfolio, e.note, missing);
    }
  }

  lemma SnapshotName(u: Setup, v: nat)
    ensures Snapshot(u, v).name == u.marketName(v)
  {
  }

  lemma StageBehind(u: Setup, ms: set<Metric>, st: Middle.MiddleState, note: Note, handled: nat, sent: nat,
                    book: Book, registry: Registry, version: nat, market: string, ids: set<TradeId>)
    requires Legal(u) && StageReady(u, ms, st, note, handled, sent, book, registry, version)
    requires ids <= First(u, handled)
    requires ids == {} || (st.market.Some? && st.market.value in registry.markets && ids !! note.covered)
    ensures var r := Middle.OnBehind(u.pricer, u.style, book, registry, MIDDLE, st, market, ids);
            var covered := if r.below.Some? then note.covered + ids else note.covered;
            StageOk(u, ms, registry, r, note.(covered := covered), handled, sent)
  {
    hide PriceSpec, Value, Exact, Snapshot, RegistryOk, Legal;
    FirstGrows(u, handled, sent);
    if ids != {} {
      Registered(u, registry, version, note.version);
      SnapshotName(u, note.version);
      AddedExact(u, book, st.portfolio, note, ids);
      var r := Middle.OnBehind(u.pricer, u.style, book, registry, MIDDLE, st, market, ids);
      ExactOnAny(u, ms, r.st.portfolio, note.(covered := note.covered + ids));
    }
  }

  lemma ReadyForMessage(u: Setup, ms: set<Metric>, s: Deployed)
    requires Legal(u) && DeployedInv(u, ms, s) && s.middleBox != []
    ensures StageReady(u, ms, s.middleSt, s.middleNote, s.middleHandled, s.sentMiddle, s.core.book, s.core.registry,
                       s.core.version)
    ensures ProposalOk(u, ms, s.middleBox[0]) && s.middleBox[0].horizon == s.middleHandled
    ensures s.middleBox[0].msg.NewTrade? ==> s.middleBox[0].msg.id == u.tradeId(s.middleHandled)
    ensures s.middleBox[0].msg.NewTradePortfolio? ==> NotAhead(u, s.middleNote, s.middleBox[0].note)
    ensures MailOk(u, ms, s.middleBox[1..], After(s.middleBox[0]), s.sentMiddle, s.middleNote, s.core.frontier)
    ensures After(s.middleBox[0]) <= s.sentMiddle
  {
    hide RegistryOk, BookOk, Fifo, NewMarketOk, NewTradesOk, NewPortfolioOk, HandshakeOk, PublishedOk, Exact, CurrOk,
         Legal, First, ProposalOk, MailOk;
    Facts(u, ms, Upper(s));
    BookFacts(u, s.core.book, s.core.arrived, s.sentMiddle, s.core.sentNew);
    MailReceive(u, ms, s.middleBox, s.middleHandled, s.sentMiddle, s.middleNote, s.core.frontier);
  }

  /** Handling a message in order leaves the middle stage exact, and never behind its former market. */
  lemma MiddleStep(u: Setup, ms: set<Metric>, s: Deployed)
    requires Legal(u) && DeployedInv(u, ms, s) && s.middleBox != [] && Orderly(s, RunMiddle)
    ensures var e, r := s.middleBox[0], MiddleResultOf(u, s);
            var note := NextMiddleNote(s, e, r);
            && StageOk(u, ms, s.core.registry, r, note, After(e), s.sentMiddle)
            && note.version == (if e.msg.NewTradePortfolio? then e.note.version else s.middleNote.version)
            && s.middleNote.version <= note.version && After(e) <= s.core.sentCurr
  {
    hide DeployedInv, Legal, StageReady, StageOk, Middle.OnNewTrade, Middle.OnProposal, Middle.OnBehind, First, Exact;
    ReadyForMessage(u, ms, s);
    var e := s.middleBox[0];
    HandledBelow(u, ms, s);
    match e.msg
    case NewTrade(id) =>
      StageTrade(u, ms, s.middleSt, s.middleNote, s.middleHandled, s.sentMiddle, s.core.book, s.core.registry,
                 s.core.version);
    case NewTradePortfolio(p) =>
      StageProposal(u, ms, s.middleSt, s.middleNote, s.middleHandled, s.sentMiddle, s.core.book, s.core.registry,
                    s.core.version, e);
    case Behind(market, ids) =>
      StageBehind(u, ms, s.middleSt, s.middleNote, s.middleHandled, s.sentMiddle, s.core.book, s.core.registry,
                  s.core.version, market, ids);
  }

  lemma HandledBelow(u: Setup, ms: set<Metric>, s: Deployed)
    requires DeployedInv(u, ms, s)
    ensures s.middleHandled <= s.core.sentCurr <= s.sentMiddle
  {
    hide RegistryOk, BookOk, Fifo, NewMarketOk, NewTradesOk, NewPortfolioOk, HandshakeOk, MailOk, CurrOk, PublishedOk,
         Exact;
  }

  /** What it offers reaches Curr's mailbox, if anything. */
  lemma OfferBelow(u: Setup, ms: set<Metric>, s: Deployed, r: Middle.MiddleResult, note: Note, handled: nat)
    requires DeployedInv(u, ms, s) && StageOk(u, ms, s.core.registry, r, note, handled, s.sentMiddle)
    requires handled <= s.core.sentCurr && s.middleNote.version <= note.version && Trust(u, ms, note)
    ensures var core := s.core;
            var offer :=
              if r.below.Some? then [Envelope(NewTradePortfolio(r.below.value), core.sentCurr, note)] else [];
            MailOk(u, ms, core.currBox + offer, core.currHandled, core.sentCurr, core.currNote, note)
  {
    hide RegistryOk, BookOk, Fifo, NewMarketOk, NewTradesOk, NewPortfolioOk, HandshakeOk, PublishedOk, Exact, QueueOk,
         LagOk, MailOk, Trust, Legal;
    var core := s.core;
    assert NotAhead(u, s.middleNote, note);
    FirstGrows(u, handled, core.sentCurr);
    if r.below.Some? {
      MailSend(u, ms, core.currBox, core.currHandled, core.sentCurr, core.currNote, s.middleNote, note,
               Envelope(NewTradePortfolio(r.below.value), core.sentCurr, note));
    } else {
      assert core.currBox + [] == core.currBox;
      MailFrontier(u, ms, core.currBox, core.currHandled, core.sentCurr, core.currNote, s.middleNote, note);
    }
  }

  /** The registration of the middle stage and its answer to New. */
  lemma StageAbove(u: Setup, ms: set<Metric>, s: Deployed, r: Middle.MiddleResult, note: Note, handled: nat)
    requires DeployedInv(u, ms, s) && StageOk(u, ms, s.core.registry, r, note, handled, s.sentMiddle)
    ensures RegistryOk(u, r.registry, s.core.version)
      && NewMarketOk(u, r.registry, s.core.newSt.market, s.core.frontier)
    ensures var core := s.core;
            var box := core.newBox
              + if r.above.Some? then [Envelope(r.above.value, core.sentNew, core.frontier)] else [];
            && Fifo(u, box, core.newHandled, core.sentNew)
            && HandshakeOk(u, core.newSt.mode, core.bulkBox, box, core.frontier)
  {
    hide RegistryOk, BookOk, Fifo, NewMarketOk, NewTradesOk, NewPortfolioOk, HandshakeOk, MailOk, CurrOk, PublishedOk,
         Exact;
    AnswerNew(u, s.core, r.above);
    if r.registry != s.core.registry {
      var name :| r.registry == InsertProcessor(s.core.registry, MIDDLE, name);
      RegistrationKeepsRegistryOk(u, s.core.registry, s.core.version, MIDDLE, name);
      RegistrationKeepsNewMarket(u, s.core.registry, s.core.newSt.market, s.core.frontier, MIDDLE, name);
    }
  }

  /** The mailbox of the middle stage after it has taken its first message. */
  lemma MiddleMail(u: Setup, ms: set<Metric>, s: Deployed, note: Note)
    requires Legal(u) && DeployedInv(u, ms, s) && s.middleBox != []
    requires note.version
      == if s.middleBox[0].msg.NewTradePortfolio? then s.middleBox[0].note.version else s.middleNote.version
    ensures MailOk(u, ms, s.middleBox[1..], After(s.middleBox[0]), s.sentMiddle, note, s.core.frontier)
  {
    hide RegistryOk, BookOk, Fifo, NewMarketOk, NewTradesOk, NewPortfolioOk, HandshakeOk, PublishedOk, Exact, CurrOk,
         Legal, MailOk;
    ReadyForMessage(u, ms, s);
    if s.middleBox[0].msg.NewTradePortfolio? {
      MailAccept(u, ms, s.middleBox, s.middleHandled, s.sentMiddle, s.middleNote, s.core.frontier, note);
    } else {
      MailCover(u, ms, s.middleBox[1..], After(s.middleBox[0]), s.sentMiddle, s.middleNote, s.core.frontier, note);
    }
  }

  lemma MiddleInv(u: Setup, ms: set<Metric>, s: Deployed)
    requires Legal(u) && DeployedInv(u, ms, s) && s.middleBox != [] && Orderly(s, RunMiddle)
    requires Trust(u, ms, OnMiddle(u, s).middleNote)
    ensures DeployedInv(u, ms, OnMiddle(u, s))
  {
    hide RegistryOk, BookOk, Fifo, NewMarketOk, NewTradesOk, NewPortfolioOk, HandshakeOk, MailOk, CurrOk, PublishedOk,
         Exact, Legal, Trust, MiddleResultOf, NextMiddleNote, Orderly;
    var e, r := s.middleBox[0], MiddleResultOf(u, s);
    var note := NextMiddleNote(s, e, r);
    MiddleStep(u, ms, s);
    ReadyForMessage(u, ms, s);
    OfferBelow(u, ms, s, r, note, After(e));
    StageAbove(u, ms, s, r, note, After(e));
    MiddleMail(u, ms, s, note);
    NothingPublished(u, ms, note);
  }

  lemma NothingPublished(u: Setup, ms: set<Metric>, note: Note)
    ensures PublishedOk(u, ms, [], note)
  {
  }

  /** Every orderly move keeps the invariant. */
  lemma MoveInv(u: Setup, ms: set<Metric>, s: Deployed, move: Move)
    requires Legal(u) && DeployedInv(u, ms, s) && Possible(s, move) && Orderly(s, move)
    requires Trust(u, ms, Moved(u, s, move).core.frontier) && Trust(u, ms, Moved(u, s, move).middleNote)
    ensures DeployedInv(u, ms, Moved(u, s, move))
  {
    hide DeployedInv, Legal, Trust, Orderly;
    match move
    case Above(e) => AboveInv(u, ms, s, e);
    case AnnounceToCurr => AnnounceInv(u, ms, s);
    case RunMiddle => MiddleInv(u, ms, s);
    case RunBelow => BelowInv(u, ms, s);
  }
}
