/** The double-buffer pipeline as deployed: with one middle stage between `ProcessorNew` and
    `ProcessorCurr` (rt_server/src/main.rs, rt_server/src/engine_letf.rs).  Trades are announced to the middle stage,
    then to Curr, then to New.  New offers its portfolios to the middle stage, which answers New and
    offers its own portfolios to Curr, which answers the middle stage. */
module DeployedPipeline {
  import opened Wrappers
  import opened Portfolios
  import opened Trades
  import opened MarketRegistry
  import opened BulkPricing
  import opened Messages
  import opened Pipeline
  import Curr = ProcessorCurrActor
  import Middle = ProcessorMiddleActor

  /** `processor_name` of the middle stage. */
  const MIDDLE := "middle_0"

  /** The middle stage, its mailbox and the trades announced to it, and everything else.  The note says
      what its portfolio is claimed to value; no handler reads it. */
  datatype Deployed = Deployed(
    core: System,
    sentMiddle: nat,
    middleSt: Middle.MiddleState,
    middleBox: seq<Envelope>,
    middleHandled: nat,
    middleNote: Note)

  /** The same state of a processor, seen as one of Curr. */
  function AsCurr(st: Middle.MiddleState): Curr.CurrState {
    Curr.CurrState(st.trades, st.portfolio, st.market, st.metrics, st.tradesSinceProposal)
  }

  /** The pipeline that ends in the middle stage. */
  function Upper(s: Deployed): System {
    s.core.(sentCurr := s.sentMiddle, currSt := AsCurr(s.middleSt), currBox := s.middleBox,
            currHandled := s.middleHandled, currNote := s.middleNote, published := [])
  }

  function Start(u: Setup): Deployed {
    var portfolio := KeepMetrics(map[], u.metrics);
    Deployed(Init(u), 0, Middle.MiddleState({}, portfolio, None, u.metrics, 0), [], 0, Note(0, {}))
  }

  /** `Above` is an event of the upper pipeline, in which `SendToCurr` announces a trade to the middle
      stage and New offers to it. */
  datatype Move = Above(event: Event) | AnnounceToCurr | RunMiddle | RunBelow

  predicate Possible(s: Deployed, move: Move) {
    match move
    case Above(e) => Enabled(Upper(s), e) && !e.RunCurr? && (e.SendToNew? ==> s.core.sentNew < s.core.sentCurr)
    case AnnounceToCurr => s.core.sentCurr < s.sentMiddle
    case RunMiddle => s.middleBox != []
    case RunBelow => s.core.currBox != []
  }

  /** The upper pipeline has moved on to t. */
  function Lifted(s: Deployed, t: System): Deployed {
    var core := t.(sentCurr := s.core.sentCurr, currSt := s.core.currSt, currBox := s.core.currBox,
                   currHandled := s.core.currHandled, currNote := s.core.currNote, published := s.core.published);
    s.(core := core, sentMiddle := t.sentCurr, middleBox := t.currBox)
  }

  /** How handling a message changes what the middle stage's portfolio values. */
  function NextMiddleNote(s: Deployed, e: Envelope, r: Middle.MiddleResult): Note {
    match e.msg
    case NewTrade(id) =>
      if r.below.Some? && s.middleSt.portfolio != map[]
      then s.middleNote.(covered := s.middleNote.covered + {id}) else s.middleNote
    case NewTradePortfolio(p) =>
      Note(e.note.version, if r.below.Some? then e.note.covered + (s.middleSt.trades - p.trades) else e.note.covered)
    case Behind(_, ids) =>
      if r.below.Some? then s.middleNote.(covered := s.middleNote.covered + ids) else s.middleNote
    case _ => s.middleNote
  }

  ghost function MiddleResultOf(u: Setup, s: Deployed): Middle.MiddleResult
    requires s.middleBox != []
  {
    Middle.OnMessage(u.pricer, u.style, s.core.book, s.core.registry, MIDDLE, s.middleSt, s.middleBox[0].msg)
  }

  ghost function OnMiddle(u: Setup, s: Deployed): Deployed
    requires s.middleBox != []
  {
    var e := s.middleBox[0];
    var r := MiddleResultOf(u, s);
    var note := NextMiddleNote(s, e, r);
    var answer := if r.above.Some? then [Envelope(r.above.value, s.core.sentNew, s.core.frontier)] else [];
    var offer :=
      if r.below.Some? then [Envelope(NewTradePortfolio(r.below.value), s.core.sentCurr, note)] else [];
    s.(core := s.core.(registry := r.registry, newBox := s.core.newBox + answer, currBox := s.core.currBox + offer),
       middleSt := r.st, middleBox := s.middleBox[1..], middleHandled := s.middleHandled + Count(e.msg),
       middleNote := note)
  }

  /** Curr handles a message as in the short pipeline, but answers the middle stage. */
  ghost function OnBelow(u: Setup, s: Deployed): Deployed
    requires s.core.currBox != []
  {
    var msg := s.core.currBox[0].msg;
    var r := Curr.OnMessage(u.pricer, u.style, u.mode, s.core.book, s.core.registry, s.core.currSt, msg);
    s.(core := OnRunCurr(u, s.core).(newBox := s.core.newBox),
       middleBox := s.middleBox
         + if r.answer.Some? then [Envelope(r.answer.value, s.sentMiddle, s.core.frontier)] else [])
  }

  ghost function Moved(u: Setup, s: Deployed, move: Move): Deployed
    requires Possible(s, move)
  {
    match move
    case Above(e) => Lifted(s, Step(u, Upper(s), e))
    case AnnounceToCurr => s.(core := OnSendToCurr(u, s.core))
    case RunMiddle => OnMiddle(u, s)
    case RunBelow => OnBelow(u, s)
  }

  /** A run: any sequence of moves; those that are not possible do nothing. */
  ghost function Play(u: Setup, s: Deployed, moves: seq<Move>): Deployed {
    if moves == [] then s
    else
      var before := Play(u, s, moves[..|moves| - 1]);
      var move := moves[|moves| - 1];
      if Possible(before, move) then Moved(u, before, move) else before
  }
}
