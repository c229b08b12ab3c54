/** The trade log of controller/controller2.py: offsetting trades are pruned before a new market is
    valued, and trade values are added up one at a time. */
module Controller {
  import opened Wrappers

  /** A log entry: the id of a position and what happened to it, "c" (created), "d" (deleted) or
      anything else. */
  datatype Entry = Entry(id: string, direction: string)

  const CREATE := "c"
  const DELETE := "d"

  // ---------- Pruning ----------

  /** Python's `list.pop(list.index(x))`, if x is there. */
  function RemoveFirst(xs: seq<Entry>, x: Entry): seq<Entry> {
    if xs == [] then []
    else if xs[0] == x then xs[1..]
    else [xs[0]] + RemoveFirst(xs[1..], x)
  }

  /** What one more entry does to a pruned log: a deletion cancels the oldest creation of its id that is
      still there, and is dropped in any case. */
  function Extend(pruned: seq<Entry>, e: Entry): seq<Entry> {
    if e.direction == DELETE then RemoveFirst(pruned, Entry(e.id, CREATE)) else pruned + [e]
  }

  function ExtendAll(pruned: seq<Entry>, log: seq<Entry>): seq<Entry> {
    if log == [] then pruned else Extend(ExtendAll(pruned, log[..|log| - 1]), log[|log| - 1])
  }

  function Prune(log: seq<Entry>): seq<Entry> {
    ExtendAll([], log)
  }

  lemma {:induction false} RemoveFirstAt(xs: seq<Entry>, x: Entry, i: nat)
    requires i < |xs| && xs[i] == x && x !in xs[..i]
    ensures RemoveFirst(xs, x) == xs[..i] + xs[i + 1..]
    decreases i
  {
    if i > 0 {
      assert xs[..i][0] == xs[0] && xs[1..][..i - 1] == xs[..i][1..];
      RemoveFirstAt(xs[1..], x, i - 1);
    }
  }

  lemma {:induction false} RemoveFirstAbsent(xs: seq<Entry>, x: Entry)
    requires x !in xs
    ensures RemoveFirst(xs, x) == xs
  {
    if xs != [] {
      RemoveFirstAbsent(xs[1..], x);
    }
  }

  /** `__prune_offsetting_trades` */
  method PruneOffsettingTrades(trades: seq<Entry>) returns (pruned: seq<Entry>)
    ensures pruned == Prune(trades)
  {
    pruned := [];
    for k := 0 to |trades|
      invariant pruned == Prune(trades[..k])
    {
      var e := trades[k];
      assert trades[..k + 1][..k] == trades[..k];
      if e.direction == CREATE {
        pruned := pruned + [e];
      } else if e.direction == DELETE {
        var create := Entry(e.id, CREATE);
        if create in pruned {
          var i := Index(pruned, create);
          RemoveFirstAt(pruned, create, i);
          pruned := pruned[..i] + pruned[i + 1..];
        } else {
          RemoveFirstAbsent(pruned, create);
        }
      } else {
        pruned := pruned + [e];
      }
    }
    assert trades[..|trades|] == trades;
  }

  /** Python's `list.index`. */
  method Index(xs: seq<Entry>, x: Entry) returns (i: nat)
    requires x in xs
    ensures i < |xs| && xs[i] == x && x !in xs[..i]
  {
    i := 0;
    while xs[i] != x
      invariant i < |xs| && x !in xs[..i] && x in xs[i..]
      decreases |xs| - i
    {
      i := i + 1;
    }
  }

  // ---------- Pruning composes ----------

  lemma {:induction false} ExtendAllConcat(pruned: seq<Entry>, xs: seq<Entry>, ys: seq<Entry>)
    ensures ExtendAll(pruned, xs + ys) == ExtendAll(ExtendAll(pruned, xs), ys)
    decreases ys
  {
    if ys == [] {
      assert xs + ys == xs;
    } else {
      var n := |ys| - 1;
      assert (xs + ys)[..|xs + ys| - 1] == xs + ys[..n];
      ExtendAllConcat(pruned, xs, ys[..n]);
    }
  }

  predicate NoDeletes(xs: seq<Entry>) {
    forall e :: e in xs ==> e.direction != DELETE
  }

  lemma {:induction false} RemoveFirstElements(xs: seq<Entry>, x: Entry)
    ensures multiset(RemoveFirst(xs, x)) == multiset(xs) - multiset{x}
  {
    if xs != [] {
      assert xs == [xs[0]] + xs[1..];
      if xs[0] != x {
        RemoveFirstElements(xs[1..], x);
      }
    }
  }

  lemma {:induction false} PrunedHasNoDeletes(log: seq<Entry>)
    ensures NoDeletes(Prune(log))
  {
    if log != [] {
      var n := |log| - 1;
      var before, create := Prune(log[..n]), Entry(log[n].id, CREATE);
      PrunedHasNoDeletes(log[..n]);
      RemoveFirstElements(before, create);
      forall e | e in RemoveFirst(before, create) ensures e in before {
        assert e in multiset(RemoveFirst(before, create));
        assert e in multiset(before);
      }
    }
  }

  lemma {:induction false} NothingToPrune(log: seq<Entry>)
    requires NoDeletes(log)
    ensures Prune(log) == log
  {
    if log != [] {
      var n := |log| - 1;
      assert log == log[..n] + [log[n]];
      NothingToPrune(log[..n]);
    }
  }

  /** A log may be pruned at any time, and continued: nothing is lost by pruning early. */
  lemma PruneComposes(xs: seq<Entry>, ys: seq<Entry>)
    ensures Prune(xs + ys) == Prune(Prune(xs) + ys)
  {
    ExtendAllConcat([], xs, ys);
    ExtendAllConcat([], Prune(xs), ys);
    PrunedHasNoDeletes(xs);
    NothingToPrune(Prune(xs));
  }

  // ---------- What survives ----------

  /** The open positions of an id, where a deletion without an open position does nothing. */
  function Balance(log: seq<Entry>, id: string): nat {
    if log == [] then 0
    else
      var b, e := Balance(log[..|log| - 1], id), log[|log| - 1];
      if e == Entry(id, CREATE) then b + 1
      else if e == Entry(id, DELETE) && b > 0 then b - 1
      else b
  }

  /** Each further entry changes what survives of an entry that is no deletion by at most one. */
  lemma SurvivorsStep(log: seq<Entry>, x: Entry)
    requires log != [] && x.direction != DELETE
    ensures var before, e := multiset(Prune(log[..|log| - 1]))[x], log[|log| - 1];
            multiset(Prune(log))[x] ==
              if e == x then before + 1
              else if e.direction == DELETE && x == Entry(e.id, CREATE) && before > 0 then before - 1
              else before
  {
    var n := |log| - 1;
    RemoveFirstElements(Prune(log[..n]), Entry(log[n].id, CREATE));
  }

  /** As many creations of an id survive as positions are open. */
  lemma {:induction false} SurvivingCreates(log: seq<Entry>, id: string)
    ensures multiset(Prune(log))[Entry(id, CREATE)] == Balance(log, id)
  {
    if log != [] {
      hide Prune;
      SurvivingCreates(log[..|log| - 1], id);
      SurvivorsStep(log, Entry(id, CREATE));
    }
  }

  /** Entries of any other direction all survive. */
  lemma {:induction false} OthersSurvive(log: seq<Entry>, e: Entry)
    requires e.direction != CREATE && e.direction != DELETE
    ensures multiset(Prune(log))[e] == multiset(log)[e]
  {
    if log != [] {
      hide Prune;
      var n := |log| - 1;
      assert log == log[..n] + [log[n]];
      OthersSurvive(log[..n], e);
      SurvivorsStep(log, e);
    }
  }

  // ---------- Value ----------

  /** A position counts with its value when created, and against it otherwise. */
  function Signed(pv: string -> real, e: Entry): real {
    if e.direction == CREATE then pv(e.id) else -pv(e.id)
  }

  function Value(pv: string -> real, log: seq<Entry>): real {
    if log == [] then 0.0 else Value(pv, log[..|log| - 1]) + Signed(pv, log[|log| - 1])
  }

  /** The value of the deletions that found no open position. */
  function Overdeleted(pv: string -> real, log: seq<Entry>): real {
    if log == [] then 0.0
    else
      var init, e := log[..|log| - 1], log[|log| - 1];
      Overdeleted(pv, init) + if e.direction == DELETE && Balance(init, e.id) == 0 then pv(e.id) else 0.0
  }

  lemma {:induction false} ValueHead(pv: string -> real, xs: seq<Entry>)
    requires xs != []
    ensures Value(pv, xs) == Signed(pv, xs[0]) + Value(pv, xs[1..])
  {
    if |xs| > 1 {
      var n := |xs| - 1;
      assert xs[..n][1..] == xs[1..][..n - 1];
      ValueHead(pv, xs[..n]);
    }
  }

  lemma {:induction false} ValueRemoveFirst(pv: string -> real, xs: seq<Entry>, x: Entry)
    requires x in xs
    ensures Value(pv, RemoveFirst(xs, x)) == Value(pv, xs) - Signed(pv, x)
  {
    ValueHead(pv, xs);
    if xs[0] != x {
      ValueRemoveFirst(pv, xs[1..], x);
      ValueHead(pv, RemoveFirst(xs, x));
      assert RemoveFirst(xs, x)[1..] == RemoveFirst(xs[1..], x);
    }
  }

  /** Pruning changes the value of a log by its overdeletions, and by nothing else. */
  lemma {:induction false} PrunedValue(pv: string -> real, log: seq<Entry>)
    ensures Value(pv, Prune(log)) == Value(pv, log) + Overdeleted(pv, log)
  {
    if log != [] {
      var n := |log| - 1;
      var before, e := Prune(log[..n]), log[n];
      PrunedValue(pv, log[..n]);
      if e.direction == DELETE {
        var create := Entry(e.id, CREATE);
        SurvivingCreates(log[..n], e.id);
        if create in before {
          ValueRemoveFirst(pv, before, create);
        } else {
          RemoveFirstAbsent(before, create);
        }
      } else {
        assert (before + [e])[..|before|] == before;
      }
    }
  }

  /** If entry k deletes an id, the entries before it have created the id more often than deleted it. */
  predicate Covered(log: seq<Entry>, k: nat)
    requires k < |log|
  {
    log[k].direction == DELETE ==> multiset(log[..k])[log[k]] < multiset(log[..k])[Entry(log[k].id, CREATE)]
  }

  /** No prefix of the log deletes an id more often than it creates it. */
  predicate NoOverdeletion(log: seq<Entry>) {
    forall k :: 0 <= k < |log| ==> Covered(log, k)
  }

  lemma NoOverdeletionInit(log: seq<Entry>)
    requires log != []
    ensures NoOverdeletion(log) <==> NoOverdeletion(log[..|log| - 1]) && Covered(log, |log| - 1)
  {
    var init := log[..|log| - 1];
    forall k | 0 <= k < |init| ensures Covered(init, k) == Covered(log, k) {
      assert init[..k] == log[..k];
    }
    hide Covered;
    if NoOverdeletion(init) && Covered(log, |log| - 1) {
      forall k | 0 <= k < |log| ensures Covered(log, k) {
        assert k < |init| ==> Covered(init, k);
      }
    }
  }

  lemma {:induction false} BalanceWithoutOverdeletion(log: seq<Entry>, id: string)
    requires NoOverdeletion(log)
    ensures Balance(log, id) + multiset(log)[Entry(id, DELETE)] == multiset(log)[Entry(id, CREATE)]
  {
    if log != [] {
      var n := |log| - 1;
      assert log == log[..n] + [log[n]];
      NoOverdeletionInit(log);
      BalanceWithoutOverdeletion(log[..n], id);
    }
  }

  lemma {:induction false} OverdeletedNothing(pv: string -> real, log: seq<Entry>)
    requires NoOverdeletion(log)
    ensures Overdeleted(pv, log) == 0.0
  {
    if log != [] {
      var n := |log| - 1;
      NoOverdeletionInit(log);
      OverdeletedNothing(pv, log[..n]);
      BalanceWithoutOverdeletion(log[..n], log[n].id);
    }
  }

  function Unit(id: string): real {
    1.0
  }

  lemma {:induction false} OverdeletedSomething(log: seq<Entry>)
    ensures Overdeleted(Unit, log) >= 0.0
    ensures !NoOverdeletion(log) ==> Overdeleted(Unit, log) > 0.0
  {
    if log != [] {
      var n := |log| - 1;
      NoOverdeletionInit(log);
      OverdeletedSomething(log[..n]);
      if NoOverdeletion(log[..n]) {
        BalanceWithoutOverdeletion(log[..n], log[n].id);
      }
    }
  }

  /** Pruning preserves the value of a log, whatever the positions are worth, exactly if no prefix
      deletes an id more often than it creates it. */
  lemma PruningPreservesValueIff(log: seq<Entry>)
    ensures NoOverdeletion(log) <==> forall pv: string -> real :: Value(pv, Prune(log)) == Value(pv, log)
  {
    if NoOverdeletion(log) {
      forall pv: string -> real ensures Value(pv, Prune(log)) == Value(pv, log) {
        PrunedValue(pv, log);
        OverdeletedNothing(pv, log);
      }
    } else {
      PrunedValue(Unit, log);
      OverdeletedSomething(log);
    }
  }

  /** A single deletion, of a position never created, is pruned away with its value. */
  lemma SingleDeletion(pv: string -> real, id: string)
    ensures Prune([Entry(id, "d")]) == [] && Value(pv, [Entry(id, "d")]) == -pv(id)
    ensures Prune([Entry(id, "c")]) == [Entry(id, "c")] && Value(pv, [Entry(id, "c")]) == pv(id)
  {
    var log, other := [Entry(id, "d")], [Entry(id, "c")];
    assert log[..|log| - 1] == [] && Prune(log) == Extend(Prune([]), log[0]);
    assert other[..|other| - 1] == [] && Prune(other) == Extend(Prune([]), other[0]);
  }

  // ---------- Adding up ----------

  /** `_trade_result_agg_single` */
  function AggregateSingle(a: Option<real>, b: Option<real>): real {
    match (a, b)
    case (None, None) => 0.0
    case (None, Some(y)) => y
    case (Some(x), None) => x
    case (Some(x), Some(y)) => x + y
  }

  /** The loop that adds the values of a batch of trades to the value of a market. */
  method AddValues(market: Option<real>, pv: string -> real, batch: seq<Entry>) returns (market': Option<real>)
    ensures batch == [] ==> market' == market
    ensures batch != [] ==> market' == Some((if market.Some? then market.value else 0.0) + Value(pv, batch))
  {
    market' := market;
    for i := 0 to |batch|
      invariant i == 0 ==> market' == market
      invariant i > 0 ==> market' == Some((if market.Some? then market.value else 0.0) + Value(pv, batch[..i]))
    {
      assert batch[..i + 1][..i] == batch[..i];
      market' := Some(AggregateSingle(market', Some(Signed(pv, batch[i]))));
    }
    assert batch[..|batch|] == batch;
  }

  /** Starting a new market from the pruned log: the total is the value of the whole log, provided no
      prefix deletes too much; if everything cancels, the market has no value yet rather than zero. */
  method NewMarket(pv: string -> real, allTrades: seq<Entry>) returns (market: Option<real>)
    ensures market.None? <==> Prune(allTrades) == []
    ensures NoOverdeletion(allTrades) ==> Value(pv, allTrades) == if market.Some? then market.value else 0.0
  {
    var pruned := PruneOffsettingTrades(allTrades);
    market := AddValues(None, pv, pruned);
    PrunedValue(pv, allTrades);
    if NoOverdeletion(allTrades) {
      OverdeletedNothing(pv, allTrades);
    }
  }
}
