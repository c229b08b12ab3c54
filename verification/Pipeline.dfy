/** One pipeline without middle stages, as wired by rt_server/src/engine_letf.rs: the market
    producer, the trade producer, `ProcessorNew` with its bulk actor, and `ProcessorCurr`, with FIFO
    mailboxes.  One event handles one message, or is one send of a producer, so that a run is any
    interleaving of the actors. */
module Pipeline {
  import opened Wrappers
  import opened Portfolios
  import opened Trades
  import opened MarketRegistry
  import opened BulkPricing
  import opened Messages
  import opened Producers
  import New = ProcessorNewActor
  import Bulk = ProcessorBulkActor
  import Curr = ProcessorCurrActor

  /** How a pipeline is configured, and everything that will ever reach it: the ticks and trades in
      their order of arrival and the names drawn for the successive markets. */
  datatype Setup = Setup(
    pricer: Pricer,
    style: PricingStyle,
    mode: Curr.OperatingMode,
    metrics: seq<Metric>,
    marketName: nat -> string,
    tick: nat -> Tick,
    tradeId: nat -> TradeId,
    trade: TradeId -> Trade)

  /** Metrics without repetition and with PV; market names are unique; each trade arrives once. */
  ghost predicate Legal(u: Setup) {
    && Distinct(u.metrics) && PV in u.metrics
    && (forall i: nat, j: nat :: u.marketName(i) == u.marketName(j) ==> i == j)
    && (forall i: nat :: u.marketName(i) != FUTURE)
    && (forall i: nat, j: nat :: u.tradeId(i) == u.tradeId(j) ==> i == j)
    && (forall id :: u.trade(id).id == id)
  }

  /** The quotes after the first v ticks: the last value of each key wins. */
  function Replay(u: Setup, v: nat): map<MarketKey, real> {
    if v == 0 then map[] else Replay(u, v - 1)[u.tick(v - 1).key := u.tick(v - 1).value]
  }

  /** The market of version v. */
  function Snapshot(u: Setup, v: nat): Market {
    Market(u.marketName(v), Replay(u, v))
  }

  /** The first n trades. */
  function First(u: Setup, n: nat): set<TradeId> {
    if n == 0 then {} else First(u, n - 1) + {u.tradeId(n - 1)}
  }

  /** What a portfolio is claimed to be: the value of some trades on one version of the market.  It
      is carried along with the messages for the proof only; no handler looks at it. */
  datatype Note = Note(version: nat, covered: set<TradeId>)

  /** A message with the number of trades announced to the mailbox before it. */
  datatype Envelope = Envelope(msg: Message, horizon: nat, note: Note)

  datatype Publication = Publication(portfolio: MetricMap, note: Note, accepted: bool, received: set<TradeId>)

  datatype System = System(
    registry: Registry,
    book: Book,
    // The market producer: number of ticks, its private market, a NewMarket still to be sent.
    version: nat,
    market: Market,
    notify: bool,
    // The trade producer: trades filed, announced to Curr, announced to New.
    arrived: nat,
    sentCurr: nat,
    sentNew: nat,
    // The actors, their mailboxes and the number of NewTrade messages they have handled.
    newSt: New.NewState,
    newBox: seq<Envelope>,
    newHandled: nat,
    bulkBox: seq<BulkRequest>,
    currSt: Curr.CurrState,
    currBox: seq<Envelope>,
    currHandled: nat,
    published: seq<Publication>,
    // History, never read by a handler: what New's portfolio values (or its bulk in progress will
    // value), the trades that arrived while the last bulk was outstanding, the trades that reached
    // New once it had a market, the number of bulks started, and what Curr's portfolio values.
    frontier: Note,
    late: set<TradeId>,
    seen: set<TradeId>,
    bulks: nat,
    currNote: Note)

  /** The metrics have been delivered to both processors and the market producer has started. */
  function Init(u: Setup): System {
    var portfolio := KeepMetrics(map[], u.metrics);
    System(
      Insert(Registry(map[], map[]), FUTURE, Snapshot(u, 0)), map[],
      0, Snapshot(u, 0), false,
      0, 0, 0,
      New.INITIAL.(portfolio := portfolio, metrics := u.metrics), [], 0,
      [],
      Curr.INITIAL.(portfolio := portfolio, metrics := u.metrics), [], 0,
      [Publication(portfolio, Note(0, {}), false, {})],
      Note(0, {}), {}, {}, 0, Note(0, {}))
  }

  datatype Event =
    | TickArrives | NotifyMarket
    | TradeArrives | SendToCurr | SendToNew
    | RunNew | RunBulk | RunCurr

  predicate Enabled(s: System, e: Event) {
    match e
    case TickArrives => !s.notify
    case NotifyMarket => s.notify
    case TradeArrives => s.arrived == s.sentNew
    case SendToCurr => s.sentCurr < s.arrived
    case SendToNew => s.sentNew < s.sentCurr
    case RunNew => s.newBox != []
    case RunBulk => s.bulkBox != []
    case RunCurr => s.currBox != []
  }

  /** Insert the tick into the private market, rename it, publish a copy as "future". */
  function OnTick(u: Setup, s: System): System {
    var market := Deposit(s.market, u.tick(s.version), u.marketName(s.version + 1));
    s.(registry := Insert(s.registry, FUTURE, market), version := s.version + 1, market := market, notify := true)
  }

  function OnNotify(s: System): System {
    s.(notify := false, newBox := s.newBox + [Envelope(NewMarket(FUTURE), s.sentNew, s.frontier)])
  }

  /** File the trade before anybody is told about it. */
  function OnTradeArrives(u: Setup, s: System): System {
    var trade := u.trade(u.tradeId(s.arrived));
    s.(book := s.book[trade.id := trade], arrived := s.arrived + 1)
  }

  function OnSendToCurr(u: Setup, s: System): System {
    var e := Envelope(NewTrade(u.tradeId(s.sentCurr)), s.sentCurr, s.frontier);
    s.(currBox := s.currBox + [e], sentCurr := s.sentCurr + 1)
  }

  function OnSendToNew(u: Setup, s: System): System {
    var e := Envelope(NewTrade(u.tradeId(s.sentNew)), s.sentNew, s.frontier);
    s.(newBox := s.newBox + [e], sentNew := s.sentNew + 1)
  }

  function Count(msg: Message): nat {
    if msg.NewTrade? then 1 else 0
  }

  function Offers(proposals: seq<Proposal>, horizon: nat, note: Note): seq<Envelope> {
    if proposals == [] then []
    else [Envelope(NewTradePortfolio(proposals[0]), horizon, note)] + Offers(proposals[1..], horizon, note)
  }

  /** How handling a message moves the frontier. */
  function NextFrontier(s: System, msg: Message): Note {
    match msg
    case NewTrade(id) =>
      if s.newSt.mode.CalculatingSingle? && New.CanPrice(s.book, s.registry, s.newSt, id)
      then s.frontier.(covered := s.frontier.covered + {id}) else s.frontier
    case NewMarket(_) =>
      if s.newSt.mode.CalculatingSingle? then Note(s.version, s.newSt.trades) else s.frontier
    case _ => s.frontier
  }

  function NextLate(s: System, msg: Message): set<TradeId> {
    match msg
    case NewTrade(id) => if s.newSt.mode.CalculatingBulk? then s.late + {id} else s.late
    case NewMarket(_) => if s.newSt.mode.CalculatingSingle? then {} else s.late
    case _ => s.late
  }

  ghost function OnRunNew(u: Setup, s: System): System
    requires s.newBox != []
  {
    var msg := s.newBox[0].msg;
    var r := New.OnMessage(u.pricer, s.book, s.registry, s.newSt, msg);
    var frontier := NextFrontier(s, msg);
    s.(registry := r.registry,
       newSt := r.st,
       newBox := s.newBox[1..],
       newHandled := s.newHandled + Count(msg),
       bulkBox := s.bulkBox + r.bulk,
       currBox := s.currBox + Offers(r.below, s.sentCurr, frontier),
       frontier := frontier,
       late := NextLate(s, msg),
       seen := if msg.NewTrade? && s.newSt.market.Some? then s.seen + {msg.id} else s.seen,
       bulks := s.bulks + |r.bulk|)
  }

  ghost function OnRunBulk(u: Setup, s: System): System
    requires s.bulkBox != []
  {
    var r := Bulk.OnNewBulk(u.pricer, u.style, s.book, s.registry, s.bulkBox[0]);
    s.(registry := r.registry, bulkBox := s.bulkBox[1..],
       newBox := s.newBox + [Envelope(r.reply, s.sentNew, s.frontier)])
  }

  /** How handling a message changes what Curr's portfolio values. */
  function NextCurrNote(s: System, e: Envelope, r: Curr.CurrResult): Note {
    match e.msg
    case NewTrade(id) =>
      if r.published.Some? && s.currSt.portfolio != map[]
      then s.currNote.(covered := s.currNote.covered + {id}) else s.currNote
    case NewTradePortfolio(_) =>
      if r.published.Some? then Note(e.note.version, e.note.covered + s.currSt.trades) else s.currNote
    case _ => s.currNote
  }

  ghost function OnRunCurr(u: Setup, s: System): System
    requires s.currBox != []
  {
    var e := s.currBox[0];
    var r := Curr.OnMessage(u.pricer, u.style, u.mode, s.book, s.registry, s.currSt, e.msg);
    var note := NextCurrNote(s, e, r);
    s.(registry := r.registry,
       currSt := r.st,
       currBox := s.currBox[1..],
       currHandled := s.currHandled + Count(e.msg),
       newBox := s.newBox + if r.answer.Some? then [Envelope(r.answer.value, s.sentNew, s.frontier)] else [],
       published := s.published + if r.published.Some?
         then [Publication(r.published.value, note, e.msg.NewTradePortfolio?, r.st.trades)] else [],
       currNote := note)
  }

  ghost function Step(u: Setup, s: System, e: Event): System
    requires Enabled(s, e)
  {
    match e
    case TickArrives => OnTick(u, s)
    case NotifyMarket => OnNotify(s)
    case TradeArrives => OnTradeArrives(u, s)
    case SendToCurr => OnSendToCurr(u, s)
    case SendToNew => OnSendToNew(u, s)
    case RunNew => OnRunNew(u, s)
    case RunBulk => OnRunBulk(u, s)
    case RunCurr => OnRunCurr(u, s)
  }

  /** A run: any sequence of events; those that are not enabled do nothing. */
  ghost function Exec(u: Setup, s: System, events: seq<Event>): System {
    if events == [] then s
    else
      var before := Exec(u, s, events[..|events| - 1]);
      var e := events[|events| - 1];
      if Enabled(before, e) then Step(u, before, e) else before
  }

  // ---------- Exact values ----------

  ghost function TradeContribution(u: Setup, m: Metric, v: nat): TradeId -> Portfolio {
    id => Contribution(u.pricer, u.trade(id), m, Snapshot(u, v))
  }

  /** The exact value of one metric. */
  ghost function Value(u: Setup, m: Metric, note: Note): Portfolio {
    SumOver(TradeContribution(u, m, note.version), note.covered)
  }

  /** On the metrics ms, a portfolio is exactly what the note claims. */
  ghost predicate Exact(u: Setup, ms: set<Metric>, pm: MetricMap, note: Note) {
    forall m :: m in ms && m in u.metrics ==> PmAt(pm, m) == Value(u, m, note)
  }

  const ALL := {PV, PV01, PnL}

  /** A portfolio holds all metrics or none. */
  predicate Shape(u: Setup, pm: MetricMap) {
    pm == map[] || pm.Keys == MetricSet(u.metrics)
  }

  predicate NoteLeq(a: Note, b: Note) {
    a.version <= b.version && a.covered <= b.covered
  }

  /** Every trade that the note covers has a price on its market. */
  ghost predicate Priced(u: Setup, note: Note) {
    forall id :: id in note.covered ==> u.pricer.price(u.trade(id), Snapshot(u, note.version)).Some?
  }

  /** The trades among ids that have a price. */
  ghost function PricedIn(u: Setup, ids: set<TradeId>, v: nat): set<TradeId> {
    set id | id in ids && u.pricer.price(u.trade(id), Snapshot(u, v)).Some?
  }

  lemma FirstGrows(u: Setup, a: nat, b: nat)
    requires a <= b
    ensures First(u, a) <= First(u, b)
    decreases b
  {
    if a < b {
      FirstGrows(u, a, b - 1);
    }
  }

  lemma {:induction false} InFirst(u: Setup, i: nat, n: nat)
    requires Legal(u)
    ensures u.tradeId(i) in First(u, n) <==> i < n
    decreases n
  {
    if n > 0 {
      InFirst(u, i, n - 1);
    }
  }

  /** The exact value in terms of a book that has filed the trades. */
  lemma ValueInBook(u: Setup, book: Book, m: Metric, note: Note)
    requires forall id :: id in book ==> book[id] == u.trade(id)
    requires note.covered <= book.Keys
    ensures Value(u, m, note) == SumOver(BookContribution(u.pricer, book, m, Snapshot(u, note.version)), note.covered)
  {
    SumAgree(TradeContribution(u, m, note.version),
             BookContribution(u.pricer, book, m, Snapshot(u, note.version)), note.covered);
  }

  /** One more trade. */
  lemma ValueInsert(u: Setup, m: Metric, note: Note, id: TradeId)
    requires id !in note.covered
    ensures Value(u, m, note.(covered := note.covered + {id}))
         == Add(Value(u, m, note), Contribution(u.pricer, u.trade(id), m, Snapshot(u, note.version)))
  {
    SumInsert(TradeContribution(u, m, note.version), note.covered, id);
  }

  /** PV holds exactly the trades that have a price. */
  lemma PVKeys(u: Setup, note: Note)
    requires Legal(u)
    ensures Value(u, PV, note).Keys == PricedIn(u, note.covered, note.version)
  {
    var f := TradeContribution(u, PV, note.version);
    forall k ensures k in Value(u, PV, note) <==> k in PricedIn(u, note.covered, note.version) {
      SumKeys(f, note.covered, k);
      forall id | id in note.covered
        ensures f(id).Keys == if u.pricer.price(u.trade(id), Snapshot(u, note.version)).Some? then {id} else {}
      {
        ContributionKeys(u.pricer, u.trade(id), Snapshot(u, note.version));
      }
      if k in PricedIn(u, note.covered, note.version) {
        assert k in note.covered && k in f(k);
      }
    }
  }

  /** Trades without a price add nothing to PV and PnL. */
  lemma UnpricedAddNothing(u: Setup, m: Metric, v: nat, ids: set<TradeId>)
    requires m == PV || m == PnL || ids == {}
    requires PricedIn(u, ids, v) == {}
    ensures Value(u, m, Note(v, ids)) == map[]
  {
    var f := TradeContribution(u, m, v);
    forall id | id in ids ensures f(id) == map[] {
      ContributionKeys(u.pricer, u.trade(id), Snapshot(u, v));
      assert id !in PricedIn(u, ids, v);
    }
    SumOfEmpties(f, ids);
  }

  /** What Curr's repair amounts to: it adds the known trades that are not among the priced ones. */
  lemma RepairValue(u: Setup, m: Metric, v: nat, covered: set<TradeId>, known: set<TradeId>)
    requires known == {} || covered <= known
    requires m == PV || m == PnL || known == {} || PricedIn(u, covered, v) == covered
    ensures Add(Value(u, m, Note(v, covered)), Value(u, m, Note(v, known - PricedIn(u, covered, v))))
         == Value(u, m, Note(v, covered + known))
  {
    var f := TradeContribution(u, m, v);
    if known == {} {
      assert known - PricedIn(u, covered, v) == {};
      assert covered + known == covered;
      AddEmpty(SumOver(f, covered));
    } else {
      var unpriced := covered - PricedIn(u, covered, v);
      var fresh' := known - covered;
      assert known - PricedIn(u, covered, v) == fresh' + unpriced;
      SumUnion(f, fresh', unpriced);
      UnpricedAddNothing(u, m, v, unpriced);
      AddEmpty(SumOver(f, fresh'));
      SumUnion(f, covered, fresh');
      assert covered + known == covered + fresh';
    }
  }

  /** Pricing through any strategy on a registered snapshot gives the exact value. */
  lemma PricingIsExact(u: Setup, book: Book, ids: set<TradeId>, v: nat)
    requires Legal(u) && ids <= book.Keys
    requires forall id :: id in book ==> book[id] == u.trade(id)
    ensures Exact(u, ALL, PriceSpec(u.style, u.pricer, book, ids, u.metrics, Snapshot(u, v)), Note(v, ids))
    ensures Shape(u, PriceSpec(u.style, u.pricer, book, ids, u.metrics, Snapshot(u, v)))
  {
    assert ids * book.Keys == ids;
    forall m | m in u.metrics
      ensures PmAt(PriceSpec(u.style, u.pricer, book, ids, u.metrics, Snapshot(u, v)), m) == Value(u, m, Note(v, ids))
    {
      PriceSpecValue(u.style, u.pricer, book, ids, u.metrics, Snapshot(u, v), m);
      DistinctCounts(u.metrics, m);
      TimesOne(Value(u, m, Note(v, ids)));
      ValueInBook(u, book, m, Note(v, ids));
    }
    AddMetricsKeys(map[], u.metrics, BookValue(u.pricer, book, ids, u.metrics, Snapshot(u, v)));
  }
}
