/** `AllMarkets` of rt_server/src/all_markets.rs: the shared registry of frozen markets, pruned to
    those in use.  Here every operation is atomic; `RegistryInterleaving` splits them up. */
module MarketRegistry {
  import opened Wrappers
  import opened Trades

  /** The name under which the market producer publishes; it is never pruned. */
  const FUTURE := "future"

  /** The content of the registry: markets by name, and the market each processor works on. */
  datatype Registry = Registry(markets: map<string, Market>, users: map<string, string>)
  {
    function Get(name: string): Option<Market> {
      if name in markets then Some(markets[name]) else None
    }
  }

  function Insert(r: Registry, name: string, market: Market): Registry {
    r.(markets := r.markets[name := market])
  }

  function Kept(markets: map<string, Market>, referenced: set<string>): map<string, Market> {
    map n | n in markets && (n in referenced || n == FUTURE) :: markets[n]
  }

  /** Register the market of a processor and drop every market that no processor works on. */
  function InsertProcessor(r: Registry, processor: string, name: string): Registry {
    var users := r.users[processor := name];
    Registry(Kept(r.markets, users.Values), users)
  }

  function InsertBoth(r: Registry, processor: string, name: string, market: Market): Registry {
    InsertProcessor(Insert(r, name, market), processor, name)
  }

  ghost predicate NoLeak(r: Registry) {
    forall n :: n in r.markets ==> n == FUTURE || n in r.users.Values
  }

  /** A registration keeps every market in use, in particular the one registered, and leaves no
      other behind. */
  lemma InsertProcessorKeeps(r: Registry, processor: string, name: string)
    ensures NoLeak(InsertProcessor(r, processor, name))
    ensures FUTURE in r.markets ==> FUTURE in InsertProcessor(r, processor, name).markets
    ensures name in r.markets ==> name in InsertProcessor(r, processor, name).markets
    ensures forall p :: p in r.users && p != processor && r.users[p] in r.markets ==>
      r.users[p] in InsertProcessor(r, processor, name).markets
  {
    var after := InsertProcessor(r, processor, name);
    assert after.users[processor] in after.users.Values;
    forall p | p in r.users && p != processor ensures r.users[p] in after.users.Values {
      assert after.users[p] == r.users[p];
    }
  }

  class AllMarkets {
    var markets: map<string, Market>
    var processorMarketMap: map<string, string>

    ghost function Content(): Registry
      reads this
    {
      Registry(markets, processorMarketMap)
    }

    constructor ()
      ensures Content() == Registry(map[], map[])
    {
      markets, processorMarketMap := map[], map[];
    }

    method Get(name: string) returns (market: Option<Market>)
      ensures market == Content().Get(name)
    {
      if name in markets {
        market := Some(markets[name]);
      } else {
        market := None;
      }
    }

    method InsertMarket(name: string, market: Market)
      modifies this
      ensures Content() == Insert(old(Content()), name, market)
    {
      markets := markets[name := market];
    }

    /** Upsert the mapping, collect the referenced names, collect the names to remove, remove them. */
    method InsertProcessorMarket(processor: string, name: string)
      modifies this
      ensures Content() == InsertProcessor(old(Content()), processor, name)
      ensures NoLeak(Content())
    {
      processorMarketMap := processorMarketMap[processor := name];

      var referenced: set<string> := {};
      var processors := processorMarketMap.Keys;
      while processors != {}
        invariant processors <= processorMarketMap.Keys
        invariant markets == old(markets) && processorMarketMap == old(processorMarketMap)[processor := name]
        invariant referenced == set p | p in processorMarketMap && p !in processors :: processorMarketMap[p]
        decreases processors
      {
        var p :| p in processors;
        referenced := referenced + {processorMarketMap[p]};
        processors := processors - {p};
      }
      assert referenced == processorMarketMap.Values;

      var toRemove: set<string> := {};
      var names := markets.Keys;
      while names != {}
        invariant names <= markets.Keys
        invariant markets == old(markets) && processorMarketMap == old(processorMarketMap)[processor := name]
        invariant toRemove == set n | n in markets && n !in names && n !in referenced
        decreases names
      {
        var n :| n in names;
        if n !in referenced {
          toRemove := toRemove + {n};
        }
        names := names - {n};
      }

      while toRemove != {}
        invariant processorMarketMap == old(processorMarketMap)[processor := name]
        invariant forall n :: n in toRemove ==> n in old(markets) && n !in referenced
        invariant forall n :: n in markets <==> n in old(markets) && (n in referenced || n == FUTURE || n in toRemove)
        invariant forall n :: n in markets ==> markets[n] == old(markets)[n]
        decreases toRemove
      {
        var n :| n in toRemove;
        toRemove := toRemove - {n};
        if n != FUTURE {
          markets := markets - {n};
        }
      }
      assert markets == Kept(old(markets), referenced);
      InsertProcessorKeeps(old(Content()), processor, name);
    }

    method InsertMarketAndProcessor(processor: string, name: string, market: Market)
      modifies this
      ensures Content() == InsertBoth(old(Content()), processor, name, market)
      ensures NoLeak(Content()) && Content().Get(name) == Some(market)
    {
      InsertMarket(name, market);
      InsertProcessorKeeps(Content(), processor, name);
      InsertProcessorMarket(processor, name);
    }
  }
}
