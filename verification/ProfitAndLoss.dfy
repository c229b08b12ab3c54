/** Profit and loss against present value, as rt_server/src/pricer.rs defines it: for any pricer, then for
    the LETF desk. */
module ProfitAndLoss {
  import opened Wrappers
  import opened Portfolios
  import opened Trades
  import opened BulkPricing
  import opened LetfPricing

  // ---------- Any pricer ----------

  /** A trade has a profit and loss under its own id, namely its price less its initial value, if it has
      both of these, and otherwise none. */
  lemma TradePnL(pricer: Pricer, trade: Trade, market: Market)
    ensures var price, initial := pricer.price(trade, market), pricer.initialPv(trade);
            Contribution(pricer, trade, PnL, market)
            == if price.Some? && initial.Some? then map[trade.id := price.value - initial.value] else map[]
  {
    assert pricer.ValueByMetric(trade, PnL, market) == PVResult(Single(trade.id, pricer.PnL(trade, market)));
  }

  lemma TradePV(pricer: Pricer, trade: Trade, market: Market)
    ensures var price := pricer.price(trade, market);
            Contribution(pricer, trade, PV, market) == if price.Some? then map[trade.id := price.value] else map[]
  {
    assert pricer.ValueByMetric(trade, PV, market) == PVResult(Single(trade.id, pricer.price(trade, market)));
  }

  /** If every term holds at most its own key, so does the sum: term by term. */
  lemma {:induction false} SumOfSingles(f: TradeId -> Portfolio, ids: set<TradeId>, k: TradeId)
    requires forall id :: id in ids ==> f(id).Keys <= {id}
    ensures k in SumOver(f, ids) <==> k in ids && k in f(k)
    ensures k in SumOver(f, ids) ==> SumOver(f, ids)[k] == f(k)[k]
    decreases ids
  {
    if ids != {} {
      var j := Pick(ids);
      SumOfSingles(f, ids - {j}, k);
      if k != j {
        assert k !in f(j);
      }
    }
  }

  /** Of the sum over a set of ids, what goes under one key. */
  lemma PricedAt(style: PricingStyle, pricer: Pricer, book: Book, ids: set<TradeId>, metrics: seq<Metric>,
                 market: Market, m: Metric, k: TradeId)
    requires Keyed(book) && Distinct(metrics) && m in metrics && m != PV01
    ensures var p := PmAt(PriceSpec(style, pricer, book, ids, metrics, market), m);
            && (k in p <==> k in ids && k in book && k in Contribution(pricer, book[k], m, market))
            && (k in p ==> p[k] == Contribution(pricer, book[k], m, market)[k])
  {
    hide Contribution;
    var f, found := BookContribution(pricer, book, m, market), ids * book.Keys;
    PriceSpecValue(style, pricer, book, ids, metrics, market, m);
    DistinctCounts(metrics, m);
    TimesOne(SumOver(f, found));
    forall id | id in found ensures f(id).Keys <= {id} {
      TradePV(pricer, book[id], market);
      TradePnL(pricer, book[id], market);
    }
    SumOfSingles(f, found, k);
  }

  /** A whole book, under every strategy, key by key: the PV of exactly the trades that have a price; the
      PnL of exactly those that have an initial value besides, by which it is less. */
  lemma BookPnL(style: PricingStyle, pricer: Pricer, book: Book, ids: set<TradeId>, metrics: seq<Metric>,
                market: Market, k: TradeId)
    requires Keyed(book) && Distinct(metrics) && PV in metrics && PnL in metrics
    ensures var priced := PriceSpec(style, pricer, book, ids, metrics, market);
            var pv, pnl := PmAt(priced, PV), PmAt(priced, PnL);
            && (k in pv <==> k in ids && k in book && pricer.price(book[k], market).Some?)
            && (k in pv ==> pv[k] == pricer.price(book[k], market).value)
            && (k in pnl <==> k in pv && pricer.initialPv(book[k]).Some?)
            && (k in pnl ==> pnl[k] == pv[k] - pricer.initialPv(book[k]).value)
  {
    hide PriceSpec, PmAt;
    PricedAt(style, pricer, book, ids, metrics, market, PV, k);
    PricedAt(style, pricer, book, ids, metrics, market, PnL, k);
    if k in book {
      TradePV(pricer, book[k], market);
      TradePnL(pricer, book[k], market);
    }
  }

  /** The initial values of some trades of a book. */
  function Initials(pricer: Pricer, book: Book, ids: set<TradeId>): Portfolio
    requires forall id :: id in ids ==> id in book && pricer.initialPv(book[id]).Some?
  {
    map id | id in ids :: pricer.initialPv(book[id]).value
  }

  ghost predicate FullyPriced(pricer: Pricer, book: Book, ids: set<TradeId>, market: Market) {
    forall id :: id in ids ==>
      id in book && pricer.price(book[id], market).Some? && pricer.initialPv(book[id]).Some?
  }

  /** Where every trade has a price and an initial value: PnL plus initial values is PV, on every key and in
      total. */
  lemma PnLPlusInitialIsPV(style: PricingStyle, pricer: Pricer, book: Book, ids: set<TradeId>, metrics: seq<Metric>,
                           market: Market)
    requires Keyed(book) && Distinct(metrics) && PV in metrics && PnL in metrics
    requires FullyPriced(pricer, book, ids, market)
    ensures var priced := PriceSpec(style, pricer, book, ids, metrics, market);
            var pv, pnl, initials := PmAt(priced, PV), PmAt(priced, PnL), Initials(pricer, book, ids);
            && pv.Keys == ids && pv == Add(pnl, initials)
            && Total(pnl) + Total(initials) == Total(pv)
  {
    hide PriceSpec, PmAt, Total;
    var priced := PriceSpec(style, pricer, book, ids, metrics, market);
    var pv, pnl, initials := PmAt(priced, PV), PmAt(priced, PnL), Initials(pricer, book, ids);
    forall k
      ensures k in pv <==> k in ids
      ensures k in pv ==> k in Add(pnl, initials) && pv[k] == Add(pnl, initials)[k]
      ensures k in Add(pnl, initials) ==> k in pv
    {
      BookPnL(style, pricer, book, ids, metrics, market, k);
    }
    assert pv == Add(pnl, initials);
    TotalAdd(pnl, initials);
  }

  lemma TotalAdd(p: Portfolio, q: Portfolio)
    ensures Total(Add(p, q)) == Total(p) + Total(q)
  {
    DotAdd(p, q, One());
  }

  /** Between two markets PnL and PV change by the same amount. */
  lemma SameChange(style: PricingStyle, pricer: Pricer, book: Book, ids: set<TradeId>, metrics: seq<Metric>,
                   before: Market, after: Market)
    requires Keyed(book) && Distinct(metrics) && PV in metrics && PnL in metrics
    requires FullyPriced(pricer, book, ids, before) && FullyPriced(pricer, book, ids, after)
    ensures var p := PriceSpec(style, pricer, book, ids, metrics, before);
            var q := PriceSpec(style, pricer, book, ids, metrics, after);
            Total(PmAt(q, PnL)) - Total(PmAt(p, PnL)) == Total(PmAt(q, PV)) - Total(PmAt(p, PV))
  {
    hide PriceSpec, PmAt, Total, FullyPriced;
    PnLPlusInitialIsPV(style, pricer, book, ids, metrics, before);
    PnLPlusInitialIsPV(style, pricer, book, ids, metrics, after);
  }

  // ---------- The LETF desk ----------

  /** When a trade of the desk has a price, an initial value, and sensitivities. */
  lemma DeskHas(trade: Trade, market: Market)
    ensures PRICER.price(trade, market).Some? <==>
      match trade
      case LETF(_, stock, _, _, stockValue) => stockValue.Some? && Stock(stock) in market.quotes
      case Future(_, stock, _, _) => Stock(stock) in market.quotes
      case Cash(_, _) => true
      case PerpSwap(_, underlying, _) => Stock(underlying) in market.quotes && Perp(underlying) in market.quotes
    ensures PRICER.initialPv(trade).None? <==> trade.Future? && trade.initialVal.None?
    ensures PRICER.pv01(trade, market) == map[] <==>
      match trade
      case LETF(_, stock, _, _, stockValue) => stockValue.None? || Stock(stock) !in market.quotes
      case Future(_, _, _, _) => false
      case Cash(_, _) => true
      case PerpSwap(_, underlying, _) => Stock(underlying) !in market.quotes || Perp(underlying) !in market.quotes
  {
    assert forall p: Portfolio :: trade.id in map[trade.id := p];
  }

  lemma LinearIsPriced(book: Book, ids: set<TradeId>, market: Market)
    requires LinearBook(book, ids, market)
    requires forall id :: id in ids && book[id].Future? ==> book[id].initialVal.Some?
    ensures FullyPriced(PRICER, book, ids, market)
  {
  }

  /** For any book of leveraged ETFs, futures with an initial value and cash: the change of the total PnL
      between two markets is the aggregated PV01, taken on either of them, times the change of the stocks. */
  lemma PV01ExplainsPnL(style: PricingStyle, book: Book, ids: set<TradeId>, metrics: seq<Metric>,
                        before: Market, after: Market, on: Market)
    requires Keyed(book) && Distinct(metrics) && PV in metrics && PV01 in metrics && PnL in metrics
    requires (on == before || on == after) && LinearBook(book, ids, before) && LinearBook(book, ids, after)
    requires forall id :: id in ids && book[id].Future? ==> book[id].initialVal.Some?
    ensures Total(PmAt(PriceSpec(style, PRICER, book, ids, metrics, after), PnL))
          - Total(PmAt(PriceSpec(style, PRICER, book, ids, metrics, before), PnL))
         == Dot(PmAt(PriceSpec(style, PRICER, book, ids, metrics, on), PV01), Move(before, after))
  {
    hide PriceSpec, PmAt, Total, FullyPriced, Dot;
    LinearIsPriced(book, ids, before);
    LinearIsPriced(book, ids, after);
    SameChange(style, PRICER, book, ids, metrics, before, after);
    PV01ExplainsPV(style, book, ids, metrics, before, after, on);
  }

  /** A leveraged ETF, its future and its cash each start at a PnL of zero on the market of the hedge. */
  lemma HedgeStartsAtZero(nextId: (TradeId, nat) -> TradeId, trade: Trade, at: Market)
    requires HedgedAtInitial(trade, at)
    ensures var l := WithHedge(nextId, trade, at);
            |l| == 3 && forall i :: 0 <= i < 3 ==> Contribution(PRICER, l[i], PnL, at) == map[l[i].id := 0.0]
  {
    hide Contribution;
    var l := WithHedge(nextId, trade, at);
    var stock := trade.stockValue.value;
    Divides(trade.beta, trade.amount, stock, l[0].initialVal.value);
    hide LetfValue, FutureValue, HedgeAmount;
    WorthItsInitial(l[0], at, FutureValue(stock, HedgeAmount(trade.beta, trade.amount, stock)), l[0].initialVal.value);
    WorthItsInitial(l[1], at, l[1].amount, l[1].amount);
    WorthItsInitial(l[2], at, LetfValue(trade.beta, trade.amount, stock, stock), 0.0);
  }

  lemma WorthItsInitial(trade: Trade, market: Market, price: real, initial: real)
    requires PRICER.price(trade, market) == Some(price) && PRICER.initialPv(trade) == Some(initial) && price == initial
    ensures Contribution(PRICER, trade, PnL, market) == map[trade.id := 0.0]
  {
    TradePnL(PRICER, trade, market);
  }

  lemma Divides(beta: real, amount: real, stock: real, initial: real)
    requires stock != 0.0 && initial == -beta * amount
    ensures LetfValue(beta, amount, stock, stock) == 0.0
    ensures FutureValue(stock, HedgeAmount(beta, amount, stock)) == initial
  {
    assert stock / stock == 1.0;
    assert beta * amount * (1.0 - 1.0) == 0.0;
    assert stock * ((-beta * amount) / stock) == -beta * amount;
  }

  function Distance(x: real, y: real): real {
    if x >= y then x - y else y - x
  }

  /** A perpetual on a quoted underlying is worth its amount times the spot with interest, less the distance
      of the spot from the perpetual, all of it profit; its PV01 times the spot is that value times the
      amount once more. */
  lemma PerpetualValue(trade: Trade, market: Market)
    requires trade.PerpSwap? && Stock(trade.underlying) in market.quotes && Perp(trade.underlying) in market.quotes
    requires market.quotes[Stock(trade.underlying)] != 0.0
    ensures var spot, perp := market.quotes[Stock(trade.underlying)], market.quotes[Perp(trade.underlying)];
            var value := (1.0001 * spot - Distance(spot, perp)) * trade.amount;
            && Contribution(PRICER, trade, PV, market).Keys == {trade.id}
            && Contribution(PRICER, trade, PV, market)[trade.id] == value
            && Contribution(PRICER, trade, PnL, market) == Contribution(PRICER, trade, PV, market)
            && Contribution(PRICER, trade, PV01, market).Keys == {trade.underlying}
            && Contribution(PRICER, trade, PV01, market)[trade.underlying] * spot == value * trade.amount
  {
    hide Contribution, MarkValue, PerpDelta, Distance;
    var spot, perp := market.quotes[Stock(trade.underlying)], market.quotes[Perp(trade.underlying)];
    PerpetualParts(trade, market, spot, perp);
    MarkPrice(spot, perp, trade.amount, Contribution(PRICER, trade, PV01, market)[trade.underlying]);
  }

  lemma PerpetualParts(trade: Trade, market: Market, spot: real, perp: real)
    requires trade.PerpSwap?
    requires market.Get(Stock(trade.underlying)) == Some(spot) && market.Get(Perp(trade.underlying)) == Some(perp)
    ensures var value := MarkValue(spot, perp, trade.amount);
            && Contribution(PRICER, trade, PV, market) == map[trade.id := value]
            && Contribution(PRICER, trade, PnL, market) == map[trade.id := value]
            && Contribution(PRICER, trade, PV01, market)
               == map[trade.underlying := PerpDelta(value, spot, trade.amount)]
  {
    hide MarkValue, PerpDelta;
    var value := MarkValue(spot, perp, trade.amount);
    TradePV(PRICER, trade, market);
    TradePnL(PRICER, trade, market);
    PricerIs(trade, market);
    SumSingleRow(trade.id, map[trade.underlying := PerpDelta(value, spot, trade.amount)]);
  }

  lemma MarkPrice(spot: real, perp: real, amount: real, delta: real)
    requires spot != 0.0 && delta == PerpDelta(MarkValue(spot, perp, amount), spot, amount)
    ensures MarkValue(spot, perp, amount) == (1.0001 * spot - Distance(spot, perp)) * amount
    ensures delta * spot == (1.0001 * spot - Distance(spot, perp)) * amount * amount
  {
    var value, gap := MarkValue(spot, perp, amount), Distance(spot, perp);
    Undivided(gap, spot);
    Undivided(value, spot);
    Rearranged(spot, Quotient(gap, spot), gap, amount);
    Swapped(Quotient(value, spot), amount, spot, value);
  }

  lemma Undivided(a: real, b: real)
    requires b != 0.0
    ensures Quotient(a, b) * b == a
  {
  }

  lemma Rearranged(spot: real, g: real, gap: real, amount: real)
    requires g * spot == gap
    ensures spot * (1.0 + (INTEREST_RATE - g)) * amount == (1.0001 * spot - gap) * amount
  {
    assert spot * (1.0 + (INTEREST_RATE - g)) == 1.0001 * spot - g * spot;
  }

  lemma Swapped(q: real, amount: real, spot: real, value: real)
    requires q * spot == value
    ensures q * amount * spot == value * amount
  {
    assert q * amount * spot == q * spot * amount;
  }
}
