/** Prices and sensitivities of leveraged ETFs, futures, cash and perpetuals, and the hedge of a
    leveraged ETF: rt_server/src/trades/trade_letf.rs and rt_server/src/trades/perp.rs. */
module LetfPricing {
  import opened Wrappers
  import opened Portfolios
  import opened Trades
  import opened BulkPricing

  /** The source divides floats; a zero divisor is excluded wherever a theorem depends on it. */
  function Quotient(a: real, b: real): real {
    if b == 0.0 then 0.0 else a / b
  }

  const INTEREST_RATE := 0.0001

  /** The value of a leveraged ETF: its notional times the return of the stock since the start. */
  function LetfValue(beta: real, amount: real, stock: real, initial: real): real {
    beta * amount * (Quotient(stock, initial) - 1.0)
  }

  function LetfDelta(beta: real, amount: real, initial: real): real {
    Quotient(beta * amount, initial)
  }

  function FutureValue(stock: real, amount: real): real {
    stock * amount
  }

  /** The value of a perpetual: the spot with interest and less its relative distance from the perpetual,
      times the amount. */
  function MarkValue(spot: real, perp: real, amount: real): real {
    var gap := if spot >= perp then spot - perp else perp - spot;
    spot * (1.0 + (INTEREST_RATE - Quotient(gap, spot))) * amount
  }

  function PerpDelta(mark: real, spot: real, amount: real): real {
    Quotient(mark, spot) * amount
  }

  function Price(trade: Trade, market: Market): Option<real> {
    match trade
    case LETF(_, stock, amount, beta, stockValue) =>
      if stockValue.None? || market.Get(Stock(stock)).None? then None
      else Some(LetfValue(beta, amount, market.Get(Stock(stock)).value, stockValue.value))
    case Future(_, stock, amount, _) =>
      if market.Get(Stock(stock)).None? then None
      else Some(FutureValue(market.Get(Stock(stock)).value, amount))
    case Cash(_, amount) => Some(amount)
    case PerpSwap(_, underlying, amount) =>
      if market.Get(Stock(underlying)).None? || market.Get(Perp(underlying)).None? then None
      else
        Some(MarkValue(market.Get(Stock(underlying)).value, market.Get(Perp(underlying)).value, amount))
  }

  function Sensitivities(trade: Trade, market: Market): map<TradeId, Portfolio> {
    match trade
    case LETF(id, stock, amount, beta, stockValue) =>
      if market.Get(Stock(stock)).None? || stockValue.None? then map[]
      else map[id := map[stock := LetfDelta(beta, amount, stockValue.value)]]
    case Future(id, stock, amount, _) => map[id := map[stock := amount]]
    case Cash(_, _) => map[]
    case PerpSwap(id, underlying, amount) =>
      var spot, mark := market.Get(Stock(underlying)), Price(trade, market);
      if spot.None? || mark.None? then map[]
      else map[id := map[underlying := PerpDelta(mark.value, spot.value, amount)]]
  }

  function InitialPV(trade: Trade): Option<real> {
    match trade
    case LETF(_, _, _, _, _) => Some(0.0)
    case Future(_, _, _, initialVal) => initialVal
    case Cash(_, amount) => Some(amount)
    case PerpSwap(_, _, _) => Some(0.0)
  }

  const PRICER := Pricer(
    (t: Trade, m: Market) => Price(t, m), (t: Trade, m: Market) => Sensitivities(t, m), (t: Trade) => InitialPV(t))

  // ---------- Weighted totals ----------

  /** Products are kept behind a name, so that the verifier need not multiply out. */
  function Scaled(x: real, weight: real): real {
    x * weight
  }

  /** The sum of value times weight over a set of keys. */
  ghost function DotOver(p: Portfolio, w: string -> real, keys: set<string>): real {
    if keys == {} then 0.0
    else Scaled(At(p, Pick(keys)), w(Pick(keys))) + DotOver(p, w, keys - {Pick(keys)})
  }

  ghost function Dot(p: Portfolio, w: string -> real): real {
    DotOver(p, w, p.Keys)
  }

  function One(): string -> real {
    k => 1.0
  }

  /** The total of a portfolio. */
  ghost function Total(p: Portfolio): real {
    Dot(p, One())
  }

  lemma {:induction false} DotPick(p: Portfolio, w: string -> real, keys: set<string>, k: string)
    requires k in keys
    ensures DotOver(p, w, keys) == Scaled(At(p, k), w(k)) + DotOver(p, w, keys - {k})
    decreases keys
  {
    var j := Pick(keys);
    if j != k {
      assert keys - {j} - {k} == keys - {k} - {j};
      DotPick(p, w, keys - {j}, k);
      DotPick(p, w, keys - {k}, j);
    }
  }

  /** Keys that the portfolio does not hold add nothing. */
  lemma {:induction false} DotWider(p: Portfolio, w: string -> real, keys: set<string>, more: set<string>)
    requires more !! p.Keys && keys !! more
    ensures DotOver(p, w, keys + more) == DotOver(p, w, keys)
    decreases more
  {
    if more == {} {
      assert keys + more == keys;
    } else {
      var k := Pick(more);
      assert keys + more - {k} == keys + (more - {k});
      DotPick(p, w, keys + more, k);
      DotWider(p, w, keys, more - {k});
    }
  }

  lemma {:induction false} DotOverAdd(p: Portfolio, q: Portfolio, w: string -> real, keys: set<string>)
    requires keys <= p.Keys + q.Keys
    ensures DotOver(Add(p, q), w, keys) == DotOver(p, w, keys) + DotOver(q, w, keys)
    decreases keys
  {
    if keys != {} {
      var k := Pick(keys);
      DotOverAdd(p, q, w, keys - {k});
      assert At(Add(p, q), k) == At(p, k) + At(q, k);
      assert Scaled(At(p, k) + At(q, k), w(k)) == Scaled(At(p, k), w(k)) + Scaled(At(q, k), w(k));
    }
  }

  lemma DotAdd(p: Portfolio, q: Portfolio, w: string -> real)
    ensures Dot(Add(p, q), w) == Dot(p, w) + Dot(q, w)
  {
    var keys := p.Keys + q.Keys;
    assert Add(p, q).Keys == keys;
    DotOverAdd(p, q, w, keys);
    DotWider(p, w, p.Keys, q.Keys - p.Keys);
    DotWider(q, w, q.Keys, p.Keys - q.Keys);
    assert p.Keys + (q.Keys - p.Keys) == keys == q.Keys + (p.Keys - q.Keys);
  }

  lemma DotSingle(k: string, x: real, w: string -> real)
    ensures Dot(map[k := x], w) == Scaled(x, w(k))
    ensures Dot(map[], w) == 0.0
  {
    var p := map[k := x];
    assert p.Keys == {k};
    DotPick(p, w, {k}, k);
    assert {k} - {k} == {};
  }

  // ---------- PV01 explains PV ----------

  /** A trade whose price is linear in the stocks: no perpetual, and a leveraged ETF has its initial
      stock value. */
  predicate Linear(trade: Trade) {
    match trade
    case LETF(_, _, _, _, stockValue) => stockValue.Some? && stockValue.value != 0.0
    case Future(_, _, _, _) => true
    case Cash(_, _) => true
    case PerpSwap(_, _, _) => false
  }

  predicate HoldsStock(trade: Trade, market: Market) {
    (trade.LETF? || trade.Future?) ==> Stock(trade.stock) in market.quotes
  }

  /** The change of every stock from one market to another. */
  function Move(before: Market, after: Market): string -> real {
    k =>
      if Stock(k) in before.quotes && Stock(k) in after.quotes
      then after.quotes[Stock(k)] - before.quotes[Stock(k)]
      else 0.0
  }

  lemma SumSingleRow(id: TradeId, p: Portfolio)
    ensures Aggregate(PV01Result(map[id := p])) == p
    ensures Aggregate(PV01Result(map[])) == map[]
  {
    var rows := map[id := p];
    assert rows.Keys == {id};
    SumPick(Row(rows), {id}, id);
    assert {id} - {id} == {};
    AddEmpty(p);
  }

  lemma PricerIs(trade: Trade, market: Market)
    ensures PRICER.ValueByMetric(trade, PV, market) == PVResult(Single(trade.id, Price(trade, market)))
    ensures PRICER.ValueByMetric(trade, PV01, market) == PV01Result(Sensitivities(trade, market))
  {
  }

  lemma LetfContribution(trade: Trade, market: Market)
    requires trade.LETF? && trade.stockValue.Some? && Stock(trade.stock) in market.quotes
    ensures Contribution(PRICER, trade, PV, market)
         == map[trade.id :=
                LetfValue(trade.beta, trade.amount, market.quotes[Stock(trade.stock)], trade.stockValue.value)]
    ensures Contribution(PRICER, trade, PV01, market)
      == map[trade.stock := LetfDelta(trade.beta, trade.amount, trade.stockValue.value)]
  {
    hide LetfValue, LetfDelta;
    PricerIs(trade, market);
    SumSingleRow(trade.id, map[trade.stock := LetfDelta(trade.beta, trade.amount, trade.stockValue.value)]);
  }

  lemma FutureContribution(trade: Trade, market: Market)
    requires trade.Future? && Stock(trade.stock) in market.quotes
    ensures Contribution(PRICER, trade, PV, market)
      == map[trade.id := FutureValue(market.quotes[Stock(trade.stock)], trade.amount)]
    ensures Contribution(PRICER, trade, PV01, market) == map[trade.stock := trade.amount]
  {
    hide FutureValue;
    PricerIs(trade, market);
    SumSingleRow(trade.id, map[trade.stock := trade.amount]);
  }

  lemma CashContribution(trade: Trade, market: Market)
    requires trade.Cash?
    ensures Contribution(PRICER, trade, PV, market) == map[trade.id := trade.amount]
    ensures Contribution(PRICER, trade, PV01, market) == map[]
  {
    PricerIs(trade, market);
    SumSingleRow(trade.id, map[]);
  }

  lemma LinearInStock(beta: real, amount: real, s0: real, s1: real, i: real)
    requires i != 0.0
    ensures LetfValue(beta, amount, s1, i) - LetfValue(beta, amount, s0, i)
      == Scaled(LetfDelta(beta, amount, i), s1 - s0)
    ensures FutureValue(s1, amount) - FutureValue(s0, amount) == Scaled(amount, s1 - s0)
  {
    var c := beta * amount;
    assert s1 / i - s0 / i == (s1 - s0) / i;
    assert c * ((s1 - s0) / i) == c / i * (s1 - s0);
    assert c * (s1 / i - 1.0) - c * (s0 / i - 1.0) == c * (s1 / i - s0 / i);
  }

  /** For one trade: the change in PV is the PV01 times the move of its stock. */
  lemma TradeExplained(trade: Trade, before: Market, after: Market, on: Market)
    requires Linear(trade) && HoldsStock(trade, before) && HoldsStock(trade, after) && HoldsStock(trade, on)
    ensures Total(Contribution(PRICER, trade, PV, after)) - Total(Contribution(PRICER, trade, PV, before))
         == Dot(Contribution(PRICER, trade, PV01, on), Move(before, after))
  {
    hide Contribution, Total, Dot, LetfValue, LetfDelta, FutureValue, Scaled;
    match trade
    case LETF(id, stock, amount, beta, stockValue) =>
      var s0, s1, i := before.quotes[Stock(stock)], after.quotes[Stock(stock)], stockValue.value;
      LetfContribution(trade, before);
      LetfContribution(trade, after);
      LetfContribution(trade, on);
      TotalSingle(id, LetfValue(beta, amount, s1, i));
      TotalSingle(id, LetfValue(beta, amount, s0, i));
      DotSingle(stock, LetfDelta(beta, amount, i), Move(before, after));
      LinearInStock(beta, amount, s0, s1, i);
    case Future(id, stock, amount, _) =>
      var s0, s1 := before.quotes[Stock(stock)], after.quotes[Stock(stock)];
      FutureContribution(trade, before);
      FutureContribution(trade, after);
      FutureContribution(trade, on);
      TotalSingle(id, FutureValue(s1, amount));
      TotalSingle(id, FutureValue(s0, amount));
      DotSingle(stock, amount, Move(before, after));
      LinearInStock(1.0, amount, s0, s1, 1.0);
    case Cash(id, amount) =>
      CashContribution(trade, before);
      CashContribution(trade, after);
      CashContribution(trade, on);
      DotSingle(id, 0.0, Move(before, after));
  }

  lemma TotalSingle(k: string, x: real)
    ensures Total(map[k := x]) == x
    ensures Total(map[]) == 0.0
  {
    DotSingle(k, x, One());
  }

  ghost predicate LinearBook(book: Book, ids: set<TradeId>, market: Market) {
    forall id :: id in ids ==> id in book && Linear(book[id]) && HoldsStock(book[id], market)
  }

  lemma {:induction false} BookExplained(book: Book, ids: set<TradeId>, before: Market, after: Market, on: Market)
    requires LinearBook(book, ids, before) && LinearBook(book, ids, after) && LinearBook(book, ids, on)
    ensures Total(SumOver(BookContribution(PRICER, book, PV, after), ids))
      - Total(SumOver(BookContribution(PRICER, book, PV, before), ids))
         == Dot(SumOver(BookContribution(PRICER, book, PV01, on), ids), Move(before, after))
    decreases ids
  {
    if ids == {} {
      DotSingle("", 0.0, One());
      DotSingle("", 0.0, Move(before, after));
    } else {
      var id := Pick(ids);
      var rest := ids - {id};
      BookExplained(book, rest, before, after, on);
      TradeExplained(book[id], before, after, on);
      DotAdd(Contribution(PRICER, book[id], PV, after), SumOver(BookContribution(PRICER, book, PV, after), rest),
        One());
      DotAdd(Contribution(PRICER, book[id], PV, before), SumOver(BookContribution(PRICER, book, PV, before), rest),
        One());
      DotAdd(Contribution(PRICER, book[id], PV01, on), SumOver(BookContribution(PRICER, book, PV01, on), rest),
        Move(before, after));
    }
  }

  /** For any book of leveraged ETFs, futures and cash, priced in bulk under any style: the change of
      the total PV between two markets is the aggregated PV01, taken on either of them, times the
      change of the stocks. */
  lemma PV01ExplainsPV(style: PricingStyle, book: Book, ids: set<TradeId>, metrics: seq<Metric>,
                       before: Market, after: Market, on: Market)
    requires Distinct(metrics) && PV in metrics && PV01 in metrics && (on == before || on == after)
    requires LinearBook(book, ids, before) && LinearBook(book, ids, after)
    ensures Total(PmAt(PriceSpec(style, PRICER, book, ids, metrics, after), PV))
          - Total(PmAt(PriceSpec(style, PRICER, book, ids, metrics, before), PV))
         == Dot(PmAt(PriceSpec(style, PRICER, book, ids, metrics, on), PV01), Move(before, after))
  {
    assert ids * book.Keys == ids;
    BookExplained(book, ids, before, after, on);
    PricedOnce(style, book, ids, metrics, after, PV);
    PricedOnce(style, book, ids, metrics, before, PV);
    PricedOnce(style, book, ids, metrics, on, PV01);
  }

  lemma PricedOnce(style: PricingStyle, book: Book, ids: set<TradeId>, metrics: seq<Metric>, market: Market, m: Metric)
    requires Distinct(metrics) && m in metrics && ids <= book.Keys
    ensures PmAt(PriceSpec(style, PRICER, book, ids, metrics, market), m)
      == SumOver(BookContribution(PRICER, book, m, market), ids)
  {
    assert ids * book.Keys == ids;
    PriceSpecValue(style, PRICER, book, ids, metrics, market, m);
    DistinctCounts(metrics, m);
    TimesOne(SumOver(BookContribution(PRICER, book, m, market), ids));
  }

  // ---------- Hedging ----------

  /** The number of futures that offsets a leveraged ETF when the stock has the given price. */
  function HedgeAmount(beta: real, amount: real, stock: real): real {
    Quotient(-beta * amount, stock)
  }

  /** `hedge`: a future against the stock and the cash to pay for it.  nextId(id, n) stands for the
      decimal number of id increased by n; an id that is no number makes the source panic. */
  function Hedge(nextId: (TradeId, nat) -> TradeId, trade: Trade, market: Market): seq<Trade>
    requires trade.LETF?
  {
    match market.Get(Stock(trade.stock))
    case None => []
    case Some(stock) =>
      [Future(nextId(trade.id, 1), trade.stock, HedgeAmount(trade.beta, trade.amount, stock),
        Some(-trade.beta * trade.amount)),
       Cash(nextId(trade.id, 2), trade.beta * trade.amount)]
  }

  /** The sum of the contributions of a list of trades. */
  ghost function ListValue(trades: seq<Trade>, m: Metric, market: Market): Portfolio {
    if trades == [] then map[]
    else Add(Contribution(PRICER, trades[0], m, market), ListValue(trades[1..], m, market))
  }

  lemma {:induction false} ListValueAppend(a: seq<Trade>, b: seq<Trade>, m: Metric, market: Market)
    ensures ListValue(a + b, m, market) == Add(ListValue(a, m, market), ListValue(b, m, market))
    decreases a
  {
    if a == [] {
      assert a + b == b;
      AddEmpty(ListValue(b, m, market));
    } else {
      assert (a + b)[1..] == a[1..] + b;
      ListValueAppend(a[1..], b, m, market);
      AddAssociates(Contribution(PRICER, a[0], m, market), ListValue(a[1..], m, market), ListValue(b, m, market));
    }
  }

  /** What the hedger sends to the book for a list of leveraged ETFs: the hedge made on the market given
      for each of them, then the trade itself. */
  function Hedged(nextId: (TradeId, nat) -> TradeId, trades: seq<Trade>, markets: seq<Market>): seq<Trade>
    requires |trades| == |markets| && forall i :: 0 <= i < |trades| ==> trades[i].LETF?
  {
    if trades == [] then []
    else WithHedge(nextId, trades[0], markets[0]) + Hedged(nextId, trades[1..], markets[1..])
  }

  function WithHedge(nextId: (TradeId, nat) -> TradeId, trade: Trade, market: Market): seq<Trade>
    requires trade.LETF?
  {
    Hedge(nextId, trade, market) + [trade]
  }

  /** The initial value of the trade is the price of its stock on the market where it is hedged. */
  predicate HedgedAtInitial(trade: Trade, market: Market) {
    && trade.LETF? && trade.stockValue.Some? && trade.stockValue.value != 0.0
    && market.Get(Stock(trade.stock)) == trade.stockValue
  }

  lemma HedgeAlgebra(beta: real, amount: real, s: real, i: real, future: real, cash: real)
    requires i != 0.0 && future == HedgeAmount(beta, amount, i) && cash == beta * amount
    ensures LetfValue(beta, amount, s, i) + FutureValue(s, future) + cash == 0.0
    ensures LetfDelta(beta, amount, i) + future == 0.0
  {
    assert -beta * amount == -cash;
    assert cash * (s / i) == s * (cash / i);
    assert -cash / i == -(cash / i);
  }

  /** A list of three. */
  lemma ListOfThree(a: Trade, b: Trade, c: Trade, m: Metric, market: Market, w: string -> real, k: string)
    ensures var l := ListValue([a, b, c], m, market);
            var p, q := Contribution(PRICER, a, m, market), Contribution(PRICER, b, m, market);
            var r := Contribution(PRICER, c, m, market);
            Dot(l, w) == Dot(p, w) + Dot(q, w) + Dot(r, w) && At(l, k) == At(p, k) + At(q, k) + At(r, k)
  {
    hide Contribution, Dot;
    var p, q := Contribution(PRICER, a, m, market), Contribution(PRICER, b, m, market);
    var r := Contribution(PRICER, c, m, market);
    assert [a, b, c][1..] == [b, c] && [b, c][1..] == [c];
    ListOfOne(c, m, market);
    assert ListValue([b, c], m, market) == Add(q, r);
    DotAdd(q, r, w);
    DotAdd(p, Add(q, r), w);
  }

  lemma ListOfOne(trade: Trade, m: Metric, market: Market)
    ensures ListValue([trade], m, market) == Contribution(PRICER, trade, m, market)
  {
    assert [trade][1..] == [];
    AddEmpty(Contribution(PRICER, trade, m, market));
  }

  lemma HedgeIs(nextId: (TradeId, nat) -> TradeId, trade: Trade, at: Market) returns (future: Trade, cash: Trade)
    requires HedgedAtInitial(trade, at)
    ensures WithHedge(nextId, trade, at) == [future, cash, trade]
    ensures future.Future? && future.id == nextId(trade.id, 1) && future.stock == trade.stock
      && future.amount == HedgeAmount(trade.beta, trade.amount, trade.stockValue.value)
    ensures cash.Cash? && cash.id == nextId(trade.id, 2) && cash.amount == trade.beta * trade.amount
  {
    var hedge := Hedge(nextId, trade, at);
    future, cash := hedge[0], hedge[1];
  }

  lemma OneHedgeNeutral(nextId: (TradeId, nat) -> TradeId, trade: Trade, at: Market, market: Market, k: string)
    requires HedgedAtInitial(trade, at) && Stock(trade.stock) in market.quotes
    ensures var l := WithHedge(nextId, trade, at);
            Total(ListValue(l, PV, market)) == 0.0 && At(ListValue(l, PV01, market), k) == 0.0
  {
    hide Contribution, Dot, LetfValue, LetfDelta, FutureValue, HedgeAmount, WithHedge, ListValue, Quotient;
    var s, i := market.quotes[Stock(trade.stock)], trade.stockValue.value;
    var future, cash := HedgeIs(nextId, trade, at);
    LetfContribution(trade, market);
    FutureContribution(future, market);
    CashContribution(cash, market);
    HedgeAlgebra(trade.beta, trade.amount, s, i, future.amount, cash.amount);
    assert Total(ListValue([future, cash, trade], PV, market)) == 0.0 by {
      TotalSingle(trade.id, LetfValue(trade.beta, trade.amount, s, i));
      TotalSingle(future.id, FutureValue(s, future.amount));
      TotalSingle(cash.id, cash.amount);
      ListOfThree(future, cash, trade, PV, market, One(), k);
    }
    ListOfThree(future, cash, trade, PV01, market, One(), k);
  }

  /** Any list of leveraged ETFs, each hedged at its initial price, is neutral together with its
      hedges: total PV 0 and PV01 0 for every stock, on every market that holds the stocks. */
  lemma {:induction false} HedgedListNeutral(nextId: (TradeId, nat) -> TradeId, trades: seq<Trade>,
                                             markets: seq<Market>, market: Market, k: string)
    requires |trades| == |markets| && forall i :: 0 <= i < |trades| ==> trades[i].LETF?
    requires forall i :: 0 <= i < |trades| ==>
      HedgedAtInitial(trades[i], markets[i]) && Stock(trades[i].stock) in market.quotes
    ensures Total(ListValue(Hedged(nextId, trades, markets), PV, market)) == 0.0
    ensures At(ListValue(Hedged(nextId, trades, markets), PV01, market), k) == 0.0
    decreases trades
  {
    if trades == [] {
      DotSingle("", 0.0, One());
    } else {
      hide Contribution, Dot, WithHedge;
      var first, rest := WithHedge(nextId, trades[0], markets[0]), Hedged(nextId, trades[1..], markets[1..]);
      OneHedgeNeutral(nextId, trades[0], markets[0], market, k);
      HedgedListNeutral(nextId, trades[1..], markets[1..], market, k);
      ListValueAppend(first, rest, PV, market);
      ListValueAppend(first, rest, PV01, market);
      DotAdd(ListValue(first, PV, market), ListValue(rest, PV, market), One());
    }
  }

  // ---------- Hedges in the book ----------

  /** The book after the trades were filed one after the other: under one id the last one stays. */
  function Filed(trades: seq<Trade>): Book {
    if trades == [] then map[]
    else Filed(trades[..|trades| - 1])[trades[|trades| - 1].id := trades[|trades| - 1]]
  }

  ghost predicate DistinctIds(trades: seq<Trade>) {
    forall i, j :: 0 <= i < j < |trades| ==> trades[i].id != trades[j].id
  }

  lemma {:induction false} FiledKeys(trades: seq<Trade>, id: TradeId)
    ensures id in Filed(trades) <==> exists i :: 0 <= i < |trades| && trades[i].id == id
    decreases trades
  {
    if trades != [] {
      var n := |trades| - 1;
      FiledKeys(trades[..n], id);
      if i :| 0 <= i < |trades| && trades[i].id == id {
        assert i == n || trades[..n][i].id == id;
      }
    }
  }

  lemma OneMoreFiled(book: Book, trade: Trade, m: Metric, market: Market)
    requires trade.id !in book
    ensures var book' := book[trade.id := trade];
            SumOver(BookContribution(PRICER, book', m, market), book'.Keys)
            == Add(SumOver(BookContribution(PRICER, book, m, market), book.Keys),
                   Contribution(PRICER, trade, m, market))
  {
    hide Contribution, Add;
    var book' := book[trade.id := trade];
    var f, g := BookContribution(PRICER, book, m, market), BookContribution(PRICER, book', m, market);
    SumAgree(f, g, book.Keys);
    assert book'.Keys == book.Keys + {trade.id};
    SumInsert(g, book.Keys, trade.id);
  }

  /** With distinct ids the book holds the whole list. */
  lemma {:induction false} FiledValue(trades: seq<Trade>, m: Metric, market: Market)
    requires DistinctIds(trades)
    ensures SumOver(BookContribution(PRICER, Filed(trades), m, market), Filed(trades).Keys)
      == ListValue(trades, m, market)
    decreases trades
  {
    if trades != [] {
      hide Contribution, Add, ListValue, SumOver;
      var n := |trades| - 1;
      var init, last := trades[..n], trades[n];
      assert trades == init + [last];
      FiledValue(init, m, market);
      FiledKeys(init, last.id);
      OneMoreFiled(Filed(init), last, m, market);
      ListOfOne(last, m, market);
      ListValueAppend(init, [last], m, market);
    }
  }

  /** What pricing a filed list of trades gives. */
  lemma FiledPriced(style: PricingStyle, trades: seq<Trade>, metrics: seq<Metric>, market: Market, m: Metric)
    requires DistinctIds(trades) && Distinct(metrics) && m in metrics
    ensures var book := Filed(trades);
            PmAt(PriceSpec(style, PRICER, book, book.Keys, metrics, market), m) == ListValue(trades, m, market)
  {
    PricedOnce(style, Filed(trades), Filed(trades).Keys, metrics, market, m);
    FiledValue(trades, m, market);
  }

  /** The book of any list of leveraged ETFs hedged at their initial prices, priced in bulk under any
      strategy on any market that holds the stocks: total PV 0 and PV01 0 for every stock, as long as
      no two ids collide. */
  lemma HedgedBookNeutral(style: PricingStyle, nextId: (TradeId, nat) -> TradeId, trades: seq<Trade>,
                          markets: seq<Market>, metrics: seq<Metric>, market: Market, k: string)
    requires |trades| == |markets| && forall i :: 0 <= i < |trades| ==> trades[i].LETF?
    requires forall i :: 0 <= i < |trades| ==>
      HedgedAtInitial(trades[i], markets[i]) && Stock(trades[i].stock) in market.quotes
    requires Distinct(metrics) && PV in metrics && PV01 in metrics && DistinctIds(Hedged(nextId, trades, markets))
    ensures var book := Filed(Hedged(nextId, trades, markets));
            var priced := PriceSpec(style, PRICER, book, book.Keys, metrics, market);
            Total(PmAt(priced, PV)) == 0.0 && At(PmAt(priced, PV01), k) == 0.0
  {
    HedgedListNeutral(nextId, trades, markets, market, k);
    FiledPriced(style, Hedged(nextId, trades, markets), metrics, market, PV);
    FiledPriced(style, Hedged(nextId, trades, markets), metrics, market, PV01);
  }

  /** Two trades with consecutive numbers: the second takes the place of the future of the first, and its
      own future that of the first one's cash. */
  lemma {:induction false} ConsecutiveFiled(nextId: (TradeId, nat) -> TradeId, a: Trade, b: Trade, at: seq<Market>)
    requires |at| == 2 && HedgedAtInitial(a, at[0]) && HedgedAtInitial(b, at[1])
    requires b.id == nextId(a.id, 1) && nextId(b.id, 1) == nextId(a.id, 2)
    requires DistinctIds([a] + WithHedge(nextId, b, at[1]))
    ensures Filed(Hedged(nextId, [a, b], at)) == Filed([a] + WithHedge(nextId, b, at[1]))
  {
    hide Hedge, WithHedge;
    var fa, ca := HedgeIs(nextId, a, at[0]);
    var fb, cb := HedgeIs(nextId, b, at[1]);
    assert [a, b][1..] == [b] && at[1..] == [at[1]];
    assert [b][1..] == [] && [at[1]][1..] == [];
    var rest := [a] + WithHedge(nextId, b, at[1]);
    assert Hedged(nextId, [b], [at[1]]) == [fb, cb, b];
    assert Hedged(nextId, [a, b], at) == [fa, ca] + rest;
    assert rest[1].id == ca.id && rest[3].id == fa.id;
    Superseded([fa, ca], rest);
  }

  /** Trades all of whose ids are filed again later leave no trace. */
  lemma {:induction false} Superseded(trades: seq<Trade>, later: seq<Trade>)
    requires forall i :: 0 <= i < |trades| ==> exists j :: 0 <= j < |later| && later[j].id == trades[i].id
    ensures Filed(trades + later) == Filed(later)
  {
    FiledTogether(trades, later);
    forall id | id in Filed(trades) ensures id in Filed(later) {
      FiledKeys(trades, id);
      FiledKeys(later, id);
    }
  }

  lemma {:induction false} FiledTogether(trades: seq<Trade>, later: seq<Trade>)
    ensures Filed(trades + later) == Filed(trades) + Filed(later)
    decreases later
  {
    if later == [] {
      assert trades + later == trades;
    } else {
      var n := |later| - 1;
      assert trades + later == trades + later[..n] + [later[n]];
      assert (trades + later)[..|trades| + n] == trades + later[..n];
      FiledTogether(trades, later[..n]);
    }
  }

  /** The boundary: such a book has lost the hedge of the first trade, and is worth that trade alone. */
  lemma {:induction false} ConsecutiveIdsUnhedged(style: PricingStyle, nextId: (TradeId, nat) -> TradeId,
                                                  a: Trade, b: Trade, at: seq<Market>, metrics: seq<Metric>,
                                                  market: Market, k: string)
    requires |at| == 2 && HedgedAtInitial(a, at[0]) && HedgedAtInitial(b, at[1])
    requires Stock(a.stock) in market.quotes && Stock(b.stock) in market.quotes
    requires b.id == nextId(a.id, 1) && nextId(b.id, 1) == nextId(a.id, 2)
    requires DistinctIds([a] + WithHedge(nextId, b, at[1]))
    requires Distinct(metrics) && PV in metrics && PV01 in metrics
    ensures var book := Filed(Hedged(nextId, [a, b], at));
            var priced := PriceSpec(style, PRICER, book, book.Keys, metrics, market);
            && Total(PmAt(priced, PV))
               == LetfValue(a.beta, a.amount, market.quotes[Stock(a.stock)], a.stockValue.value)
            && At(PmAt(priced, PV01), k)
               == if k == a.stock then LetfDelta(a.beta, a.amount, a.stockValue.value) else 0.0
  {
    hide Contribution, Dot, LetfValue, LetfDelta, WithHedge, DistinctIds, Hedged, Filed, PriceSpec;
    var l := WithHedge(nextId, b, at[1]);
    ConsecutiveFiled(nextId, a, b, at);
    FiledPriced(style, [a] + l, metrics, market, PV);
    FiledPriced(style, [a] + l, metrics, market, PV01);
    OneHedgeNeutral(nextId, b, at[1], market, k);
    LetfContribution(a, market);
    ListOfOne(a, PV, market);
    ListOfOne(a, PV01, market);
    ListValueAppend([a], l, PV, market);
    ListValueAppend([a], l, PV01, market);
    DotAdd(ListValue([a], PV, market), ListValue(l, PV, market), One());
    TotalSingle(a.id, LetfValue(a.beta, a.amount, market.quotes[Stock(a.stock)], a.stockValue.value));
  }
}
