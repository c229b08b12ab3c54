/** The inductive invariant of the pipeline, one part for each concern. */
module PipelineInvariant {
  import opened Wrappers
  import opened Portfolios
  import opened Trades
  import opened MarketRegistry
  import opened BulkPricing
  import opened Messages
  import opened Pipeline
  import New = ProcessorNewActor
  import Bulk = ProcessorBulkActor
  import Curr = ProcessorCurrActor

  // ---------- The parts ----------

  /** "future" is the latest snapshot, and every stored market is the snapshot of its name. */
  ghost predicate RegistryOk(u: Setup, registry: Registry, version: nat) {
    var holds :=
      && registry.Get(FUTURE) == Some(Snapshot(u, version))
      && forall v: nat :: u.marketName(v) in registry.markets ==>
           v <= version && registry.markets[u.marketName(v)] == Snapshot(u, v);
    holds
  }

  /** Exactly the trades that have arrived are filed; Curr is told before New. */
  ghost predicate BookOk(u: Setup, book: Book, arrived: nat, sentCurr: nat, sentNew: nat) {
    var holds :=
      && sentNew <= sentCurr <= arrived
      && book.Keys == First(u, arrived)
      && forall id :: id in book ==> book[id] == u.trade(id);
    holds
  }

  function After(e: Envelope): nat {
    e.horizon + Count(e.msg)
  }

  /** The NewTrade messages in a mailbox are the trades handled + 1 ... sent, in their order. */
  ghost predicate Fifo(u: Setup, box: seq<Envelope>, handled: nat, sent: nat) {
    var holds :=
      && handled <= sent
      && (box == [] ==> handled == sent)
      && (box != [] ==> box[0].horizon == handled && After(box[|box| - 1]) == sent)
      && (forall i :: 0 <= i < |box| - 1 ==> box[i + 1].horizon == After(box[i]))
      && (forall i :: 0 <= i < |box| ==> After(box[i]) <= sent)
      && forall i :: 0 <= i < |box| && box[i].msg.NewTrade? ==> box[i].msg.id == u.tradeId(box[i].horizon);
    holds
  }

  /** The market New works on, if any, is registered under its name and has not been pruned. */
  ghost predicate NewMarketOk(u: Setup, registry: Registry, market: Option<string>, frontier: Note) {
    match market
    case None => frontier == Note(0, {})
    case Some(n) =>
      && n == u.marketName(frontier.version)
      && n in registry.markets
      && New.NAME in registry.users && registry.users[New.NAME] == n
  }

  /** New keeps every trade it has seen since it has a market. */
  ghost predicate NewTradesOk(u: Setup, st: New.NewState, handled: nat, frontier: Note, late: set<TradeId>,
                              seen: set<TradeId>, bulks: nat)
  {
    var holds :=
      && st.trades <= First(u, handled)
      && st.trades == seen == frontier.covered + late
      && frontier.covered !! late
      && (st.market.None? ==> late == {} && bulks == 0 && st.mode.CalculatingSingle?);
    holds
  }

  /** New's portfolio values exactly the frontier, except that it is cleared during a bulk. */
  ghost predicate NewPortfolioOk(u: Setup, st: New.NewState, frontier: Note) {
    var holds :=
      && st.metrics == u.metrics
      && Shape(u, st.portfolio)
      && (st.mode.CalculatingBulk? ==> st.portfolio == map[])
      && (st.mode.CalculatingSingle? ==> Exact(u, ALL, st.portfolio, frontier));
    holds
  }

  function Receives(box: seq<Envelope>): nat {
    if box == [] then 0 else (if box[0].msg.BulkReceive? then 1 else 0) + Receives(box[1..])
  }

  /** The messages New can find in its mailbox; a bulk result is the exact value asked for. */
  ghost predicate NewMessageOk(u: Setup, frontier: Note, msg: Message) {
    match msg
    case NewTrade(_) => true
    case NewMarket(_) => true
    case Behind(_, _) => true
    case BulkReceive(trades, portfolio, offending, market) =>
      && trades == frontier.covered && market == u.marketName(frontier.version) && offending == {}
      && Shape(u, portfolio) && Exact(u, ALL, portfolio, frontier)
    case _ => false
  }

  /** New is calculating in bulk iff exactly one request or result is outstanding. */
  ghost predicate HandshakeOk(u: Setup, mode: New.Mode, bulkBox: seq<BulkRequest>, newBox: seq<Envelope>,
                              frontier: Note)
  {
    var holds :=
      && |bulkBox| + Receives(newBox) == (if mode.CalculatingBulk? then 1 else 0)
      && (forall i :: 0 <= i < |bulkBox| ==>
            bulkBox[i] == BulkRequest(u.marketName(frontier.version), frontier.covered, u.metrics))
      && forall i :: 0 <= i < |newBox| ==> NewMessageOk(u, frontier, newBox[i].msg);
    holds
  }

  /** When Curr can take over a proposal without counting a trade twice on the metrics ms. */
  ghost predicate Trust(u: Setup, ms: set<Metric>, note: Note) {
    u.mode.SingleBuffer? || ms <= {PV, PnL} || Priced(u, note)
  }

  /** A queued proposal is exact on trades it lists, and these are announced to Curr ahead of it.  Answers
      reach a middle stage only, and name trades announced to it. */
  ghost predicate ProposalOk(u: Setup, ms: set<Metric>, e: Envelope) {
    match e.msg
    case NewTrade(_) => true
    case NewTradePortfolio(p) =>
      && p.market == u.marketName(e.note.version)
      && Shape(u, p.portfolio) && Exact(u, ALL, p.portfolio, e.note)
      && e.note.covered <= p.trades <= First(u, e.horizon)
      && Trust(u, ms, e.note)
    case Behind(_, trades) => trades <= First(u, e.horizon)
    case _ => false
  }

  /** One note is not ahead of another: neither in its market nor, in single-buffer mode, in the trades
      covered.  In double-buffer mode Curr adds its own trades, and covers only trades it has received. */
  predicate NotAhead(u: Setup, a: Note, b: Note) {
    && a.version <= b.version
    && (u.mode.SingleBuffer? ==> a.covered <= b.covered)
  }

  /** The proposals in Curr's mailbox, from the oldest to New's own portfolio, never go back. */
  ghost predicate QueueOk(u: Setup, ms: set<Metric>, box: seq<Envelope>, frontier: Note) {
    var holds :=
      && (forall i :: 0 <= i < |box| ==> ProposalOk(u, ms, box[i]))
      && (forall i :: 0 <= i < |box| && box[i].msg.NewTradePortfolio? ==> NotAhead(u, box[i].note, frontier))
      && forall i, j :: 0 <= i < j < |box| && box[i].msg.NewTradePortfolio? && box[j].msg.NewTradePortfolio? ==>
           NotAhead(u, box[i].note, box[j].note);
    holds
  }

  ghost predicate LagOk(u: Setup, currNote: Note, box: seq<Envelope>, frontier: Note) {
    var holds :=
      && NotAhead(u, currNote, frontier)
      && forall i :: 0 <= i < |box| && box[i].msg.NewTradePortfolio? ==> NotAhead(u, currNote, box[i].note);
    holds
  }

  /** Curr's portfolio values exactly its note, and in double-buffer mode Curr knows all trades
      announced to it. */
  ghost predicate CurrOk(u: Setup, ms: set<Metric>, st: Curr.CurrState, currNote: Note, handled: nat, sent: nat) {
    var holds :=
      && st.metrics == u.metrics
      && Shape(u, st.portfolio) && Exact(u, ms, st.portfolio, currNote)
      && st.trades == (if u.mode.DoubleBuffer? then First(u, handled) else {})
      && currNote.covered <= First(u, sent)
      && (u.mode.DoubleBuffer? ==> currNote.covered <= st.trades)
      && (st.market.Some? ==> st.market.value == u.marketName(currNote.version));
    holds
  }

  ghost predicate PublicationOk(u: Setup, ms: set<Metric>, p: Publication) {
    && Exact(u, ms, p.portfolio, p.note)
    && (p.accepted && u.mode.DoubleBuffer? ==> p.note.covered == p.received)
  }

  ghost predicate PublishedOk(u: Setup, ms: set<Metric>, published: seq<Publication>, currNote: Note) {
    var holds :=
      && (forall i :: 0 <= i < |published| ==>
        PublicationOk(u, ms, published[i]) && NoteLeq(published[i].note, currNote))
      && forall i, j :: 0 <= i < j < |published| ==> NoteLeq(published[i].note, published[j].note);
    holds
  }

  /** Everything about Curr's mailbox. */
  ghost predicate MailOk(u: Setup, ms: set<Metric>, box: seq<Envelope>, handled: nat, sent: nat, currNote: Note,
                         frontier: Note)
  {
    var holds :=
      && Fifo(u, box, handled, sent)
      && QueueOk(u, ms, box, frontier)
      && LagOk(u, currNote, box, frontier);
    holds
  }

  /** The whole invariant.  Naming the conjunction keeps the verifier from taking its parts to
      pieces where they are only carried over from one state to the next. */
  ghost predicate Inv(u: Setup, ms: set<Metric>, s: System) {
    var holds :=
      && RegistryOk(u, s.registry, s.version) && s.market == Snapshot(u, s.version)
      && BookOk(u, s.book, s.arrived, s.sentCurr, s.sentNew)
      && Fifo(u, s.newBox, s.newHandled, s.sentNew)
      && s.frontier.version <= s.version
      && NewMarketOk(u, s.registry, s.newSt.market, s.frontier)
      && NewTradesOk(u, s.newSt, s.newHandled, s.frontier, s.late, s.seen, s.bulks)
      && NewPortfolioOk(u, s.newSt, s.frontier)
      && HandshakeOk(u, s.newSt.mode, s.bulkBox, s.newBox, s.frontier)
      && MailOk(u, ms, s.currBox, s.currHandled, s.sentCurr, s.currNote, s.frontier)
      && CurrOk(u, ms, s.currSt, s.currNote, s.currHandled, s.sentCurr)
      && PublishedOk(u, ms, s.published, s.currNote);
    holds
  }

  // ---------- Mailboxes ----------

  lemma FifoSend(u: Setup, box: seq<Envelope>, handled: nat, sent: nat, e: Envelope)
    requires Fifo(u, box, handled, sent)
    requires e.horizon == sent && (e.msg.NewTrade? ==> e.msg.id == u.tradeId(sent))
    ensures Fifo(u, box + [e], handled, After(e))
  {
  }

  lemma FifoReceive(u: Setup, box: seq<Envelope>, handled: nat, sent: nat)
    requires Fifo(u, box, handled, sent) && box != []
    ensures box[0].horizon == handled
    ensures box[0].msg.NewTrade? ==> box[0].msg.id == u.tradeId(handled) && handled + 1 <= sent
    ensures Fifo(u, box[1..], After(box[0]), sent)
  {
  }

  lemma {:induction false} ReceivesSend(box: seq<Envelope>, e: Envelope)
    ensures Receives(box + [e]) == Receives(box) + (if e.msg.BulkReceive? then 1 else 0)
    decreases box
  {
    if box != [] {
      assert (box + [e])[1..] == box[1..] + [e];
      ReceivesSend(box[1..], e);
    }
  }

  lemma {:induction false} NoReceives(box: seq<Envelope>, i: nat)
    requires Receives(box) == 0 && i < |box|
    ensures !box[i].msg.BulkReceive?
    decreases box
  {
    if i > 0 {
      NoReceives(box[1..], i - 1);
    }
  }

  /** With nothing outstanding, the frontier can move without touching a message. */
  lemma QuietBox(u: Setup, box: seq<Envelope>, frontier: Note, frontier': Note)
    requires Receives(box) == 0
    requires forall i :: 0 <= i < |box| ==> NewMessageOk(u, frontier, box[i].msg)
    ensures forall i :: 0 <= i < |box| ==> NewMessageOk(u, frontier', box[i].msg)
  {
    forall i | 0 <= i < |box| ensures NewMessageOk(u, frontier', box[i].msg) {
      NoReceives(box, i);
      assert NewMessageOk(u, frontier, box[i].msg);
    }
  }

  /** A message that is no bulk result does not disturb the handshake. */
  lemma HandshakeSend(u: Setup, mode: New.Mode, bulkBox: seq<BulkRequest>, newBox: seq<Envelope>, frontier: Note,
                      e: Envelope)
    requires HandshakeOk(u, mode, bulkBox, newBox, frontier)
    requires NewMessageOk(u, frontier, e.msg) && !e.msg.BulkReceive?
    ensures HandshakeOk(u, mode, bulkBox, newBox + [e], frontier)
  {
    ReceivesSend(newBox, e);
  }

  lemma QueueSend(u: Setup, ms: set<Metric>, box: seq<Envelope>, frontier: Note, frontier': Note, e: Envelope)
    requires QueueOk(u, ms, box, frontier) && NotAhead(u, frontier, frontier')
    requires ProposalOk(u, ms, e) && (e.msg.NewTradePortfolio? ==> e.note == frontier')
    ensures QueueOk(u, ms, box + [e], frontier')
  {
  }

  lemma QueueReceive(u: Setup, ms: set<Metric>, box: seq<Envelope>, frontier: Note)
    requires QueueOk(u, ms, box, frontier) && box != []
    ensures QueueOk(u, ms, box[1..], frontier)
  {
  }

  // ---------- The registry ----------

  /** A registration removes markets but never alters one. */
  lemma RegistrationKeepsRegistryOk(u: Setup, registry: Registry, version: nat, processor: string, name: string)
    requires RegistryOk(u, registry, version)
    ensures RegistryOk(u, InsertProcessor(registry, processor, name), version)
  {
    InsertProcessorKeeps(registry, processor, name);
  }

  /** A registration by another actor leaves New's market in place. */
  lemma RegistrationKeepsNewMarket(u: Setup, registry: Registry, market: Option<string>, frontier: Note,
                                   processor: string, name: string)
    requires NewMarketOk(u, registry, market, frontier) && processor != New.NAME
    ensures NewMarketOk(u, InsertProcessor(registry, processor, name), market, frontier)
  {
    InsertProcessorKeeps(registry, processor, name);
  }

  // ---------- The start ----------

  lemma EmptyIsExact(u: Setup, ms: set<Metric>)
    ensures Shape(u, KeepMetrics(map[], u.metrics)) && Exact(u, ms, KeepMetrics(map[], u.metrics), Note(0, {}))
  {
    hide Contribution;
  }

  lemma InitParts(u: Setup, ms: set<Metric>)
    requires Legal(u)
    ensures var s := Init(u);
            && RegistryOk(u, s.registry, 0) && BookOk(u, s.book, 0, 0, 0) && Fifo(u, [], 0, 0)
            && NewMarketOk(u, s.registry, None, Note(0, {}))
            && NewTradesOk(u, s.newSt, 0, Note(0, {}), {}, {}, 0)
            && HandshakeOk(u, New.CalculatingSingle, [], [], Note(0, {}))
            && MailOk(u, ms, [], 0, 0, Note(0, {}), Note(0, {}))
  {
    hide KeepMetrics, Exact;
  }

  lemma InitInv(u: Setup, ms: set<Metric>)
    requires Legal(u)
    ensures Inv(u, ms, Init(u))
  {
    hide Legal, RegistryOk, BookOk, Fifo, NewMarketOk, NewTradesOk, HandshakeOk, MailOk, KeepMetrics, Exact;
    EmptyIsExact(u, ALL);
    EmptyIsExact(u, ms);
    InitParts(u, ms);
    assert PublicationOk(u, ms, Init(u).published[0]);
  }

  // ---------- The producers ----------

  lemma PublishKeepsRegistryOk(u: Setup, registry: Registry, version: nat)
    requires Legal(u) && RegistryOk(u, registry, version)
    ensures RegistryOk(u, Insert(registry, FUTURE, Snapshot(u, version + 1)), version + 1)
  {
  }

  lemma PublishKeepsNewMarket(u: Setup, registry: Registry, market: Option<string>, frontier: Note, m: Market)
    requires NewMarketOk(u, registry, market, frontier)
    ensures NewMarketOk(u, Insert(registry, FUTURE, m), market, frontier)
  {
  }

  lemma TickInv(u: Setup, ms: set<Metric>, s: System)
    requires Legal(u) && Inv(u, ms, s)
    ensures Inv(u, ms, OnTick(u, s))
  {
    hide Legal, RegistryOk, Fifo, NewMarketOk, NewTradesOk, NewPortfolioOk, HandshakeOk, MailOk, CurrOk, PublishedOk,
         BookOk;
    assert OnTick(u, s).market == Snapshot(u, s.version + 1);
    PublishKeepsRegistryOk(u, s.registry, s.version);
    PublishKeepsNewMarket(u, s.registry, s.newSt.market, s.frontier, Snapshot(u, s.version + 1));
  }

  lemma NotifyInv(u: Setup, ms: set<Metric>, s: System)
    requires Legal(u) && Inv(u, ms, s)
    ensures Inv(u, ms, OnNotify(s))
  {
    hide Legal, RegistryOk, Fifo, NewMarketOk, NewTradesOk, NewPortfolioOk, HandshakeOk, MailOk, CurrOk, PublishedOk,
         BookOk;
    var e := Envelope(NewMarket(FUTURE), s.sentNew, s.frontier);
    FifoSend(u, s.newBox, s.newHandled, s.sentNew, e);
    HandshakeSend(u, s.newSt.mode, s.bulkBox, s.newBox, s.frontier, e);
  }

  lemma ArrivalKeepsBookOk(u: Setup, book: Book, arrived: nat, sentCurr: nat, sentNew: nat)
    requires Legal(u) && BookOk(u, book, arrived, sentCurr, sentNew)
    ensures var trade := u.trade(u.tradeId(arrived));
            BookOk(u, book[trade.id := trade], arrived + 1, sentCurr, sentNew)
  {
    assert First(u, arrived + 1) == First(u, arrived) + {u.tradeId(arrived)};
  }

  lemma TradeInv(u: Setup, ms: set<Metric>, s: System)
    requires Legal(u) && Inv(u, ms, s)
    ensures Inv(u, ms, OnTradeArrives(u, s))
  {
    hide Legal, RegistryOk, Fifo, NewMarketOk, NewTradesOk, NewPortfolioOk, HandshakeOk, MailOk, CurrOk, PublishedOk,
         BookOk;
    ArrivalKeepsBookOk(u, s.book, s.arrived, s.sentCurr, s.sentNew);
  }

  lemma CurrOkSend(u: Setup, ms: set<Metric>, st: Curr.CurrState, currNote: Note, handled: nat, sent: nat)
    requires CurrOk(u, ms, st, currNote, handled, sent)
    ensures CurrOk(u, ms, st, currNote, handled, sent + 1)
  {
    FirstGrows(u, sent, sent + 1);
  }

  lemma LagSend(u: Setup, currNote: Note, box: seq<Envelope>, frontier: Note, frontier': Note, e: Envelope)
    requires LagOk(u, currNote, box, frontier) && NotAhead(u, frontier, frontier')
    requires e.msg.NewTradePortfolio? ==> e.note == frontier'
    ensures LagOk(u, currNote, box + [e], frontier')
  {
  }

  /** A message reaches Curr's mailbox: a trade, or New's present portfolio. */
  lemma MailSend(u: Setup, ms: set<Metric>, box: seq<Envelope>, handled: nat, sent: nat, currNote: Note,
                 frontier: Note, frontier': Note, e: Envelope)
    requires MailOk(u, ms, box, handled, sent, currNote, frontier) && NotAhead(u, frontier, frontier')
    requires e.horizon == sent && (e.msg.NewTrade? ==> e.msg.id == u.tradeId(sent))
    requires ProposalOk(u, ms, e) && (e.msg.NewTradePortfolio? ==> e.note == frontier')
    ensures MailOk(u, ms, box + [e], handled, After(e), currNote, frontier')
  {
    FifoSend(u, box, handled, sent, e);
    QueueSend(u, ms, box, frontier, frontier', e);
    LagSend(u, currNote, box, frontier, frontier', e);
  }

  lemma SendToCurrInv(u: Setup, ms: set<Metric>, s: System)
    requires Legal(u) && Inv(u, ms, s) && s.sentCurr < s.arrived
    ensures Inv(u, ms, OnSendToCurr(u, s))
  {
    hide RegistryOk, Fifo, PublishedOk, HandshakeOk, NewPortfolioOk, NewTradesOk, CurrOk, MailOk;
    var e := Envelope(NewTrade(u.tradeId(s.sentCurr)), s.sentCurr, s.frontier);
    MailSend(u, ms, s.currBox, s.currHandled, s.sentCurr, s.currNote, s.frontier, s.frontier, e);
    CurrOkSend(u, ms, s.currSt, s.currNote, s.currHandled, s.sentCurr);
  }

  lemma SendToNewInv(u: Setup, ms: set<Metric>, s: System)
    requires Legal(u) && Inv(u, ms, s) && s.sentNew < s.sentCurr
    ensures Inv(u, ms, OnSendToNew(u, s))
  {
    hide Legal, RegistryOk, Fifo, NewMarketOk, NewTradesOk, NewPortfolioOk, HandshakeOk, MailOk, CurrOk, PublishedOk;
    var e := Envelope(NewTrade(u.tradeId(s.sentNew)), s.sentNew, s.frontier);
    FifoSend(u, s.newBox, s.newHandled, s.sentNew, e);
    HandshakeSend(u, s.newSt.mode, s.bulkBox, s.newBox, s.frontier, e);
  }
}
