/** `AllMarkets` under concurrent use (rt_server/src/all_markets.rs): every call of `insert_both`
    and `insert_processor` is split into its single accesses to the two concurrent maps, and any
    number of calls interleave.

    A scan visits one entry at a time.  It may see or miss entries that come and go meanwhile, but
    it does not end before every entry that was there from the beginning has been visited or
    removed. */
module RegistryInterleaving {
  import opened Trades
  import opened MarketRegistry

  /** What one call is about to do next. */
  datatype Phase =
    /** `insert_both` before its insertion into the market map. */
    | Inserting(processor: string, name: string, market: Market)
    /** Before the upsert of the processor's mapping. */
    | Mapping(processor: string, name: string)
    /** Scanning the processor map; `pendingUsers` have to be visited still. */
    | ScanningUsers(referenced: set<string>, pendingUsers: set<string>)
    /** Scanning the market map; `pendingMarkets` have to be visited still. */
    | ScanningMarkets(referenced: set<string>, pendingMarkets: set<string>, found: set<string>)
    /** Removing one by one. */
    | Removing(referenced: set<string>, toRemove: set<string>)

  /** The two maps and the calls in flight. */
  datatype State = State(registry: Registry, calls: map<nat, Phase>)

  datatype Event =
    | CallInsertProcessor(id: nat, processor: string, name: string)
    | CallInsertBoth(id: nat, processor: string, name: string, market: Market)
    /** The market producer's `insert` under the name "future". */
    | PublishFuture(market: Market)
    | InsertStep(id: nat)
    | MapStep(id: nat)
    | VisitUser(id: nat, processor: string)
    | EndUserScan(id: nat)
    | VisitMarket(id: nat, name: string)
    | EndMarketScan(id: nat)
    | RemoveStep(id: nat, name: string)
    | Return(id: nat)

  predicate Enabled(s: State, e: Event) {
    match e
    case CallInsertProcessor(id, _, _) => id !in s.calls
    case CallInsertBoth(id, _, _, _) => id !in s.calls
    case PublishFuture(_) => true
    case InsertStep(id) => id in s.calls && s.calls[id].Inserting?
    case MapStep(id) => id in s.calls && s.calls[id].Mapping?
    case VisitUser(id, p) => id in s.calls && s.calls[id].ScanningUsers? && p in s.registry.users
    case EndUserScan(id) => id in s.calls && s.calls[id].ScanningUsers? && s.calls[id].pendingUsers == {}
    case VisitMarket(id, n) => id in s.calls && s.calls[id].ScanningMarkets? && n in s.registry.markets
    case EndMarketScan(id) => id in s.calls && s.calls[id].ScanningMarkets? && s.calls[id].pendingMarkets == {}
    case RemoveStep(id, n) => id in s.calls && s.calls[id].Removing? && n in s.calls[id].toRemove
    case Return(id) => id in s.calls && s.calls[id].Removing? && s.calls[id].toRemove == {}
  }

  /** A removed market need not be visited any more by the scans in progress. */
  function Forget(phase: Phase, name: string): Phase {
    if phase.ScanningMarkets? then phase.(pendingMarkets := phase.pendingMarkets - {name}) else phase
  }

  function ForgetAll(calls: map<nat, Phase>, name: string): map<nat, Phase> {
    map id | id in calls :: Forget(calls[id], name)
  }

  function Step(s: State, e: Event): State
    requires Enabled(s, e)
  {
    var r := s.registry;
    match e
    case CallInsertProcessor(id, p, n) => s.(calls := s.calls[id := Mapping(p, n)])
    case CallInsertBoth(id, p, n, market) => s.(calls := s.calls[id := Inserting(p, n, market)])
    case PublishFuture(market) => s.(registry := Insert(r, FUTURE, market))
    case InsertStep(id) =>
      var c := s.calls[id];
      State(Insert(r, c.name, c.market), s.calls[id := Mapping(c.processor, c.name)])
    case MapStep(id) =>
      var c := s.calls[id];
      var users := r.users[c.processor := c.name];
      State(r.(users := users), s.calls[id := ScanningUsers({}, users.Keys)])
    case VisitUser(id, p) =>
      var c := s.calls[id];
      s.(calls := s.calls[id := ScanningUsers(c.referenced + {r.users[p]}, c.pendingUsers - {p})])
    case EndUserScan(id) =>
      s.(calls := s.calls[id := ScanningMarkets(s.calls[id].referenced, r.markets.Keys, {})])
    case VisitMarket(id, n) =>
      var c := s.calls[id];
      var found := if n in c.referenced then c.found else c.found + {n};
      s.(calls := s.calls[id := ScanningMarkets(c.referenced, c.pendingMarkets - {n}, found)])
    case EndMarketScan(id) =>
      s.(calls := s.calls[id := Removing(s.calls[id].referenced, s.calls[id].found)])
    case RemoveStep(id, n) =>
      var c := s.calls[id];
      var calls := s.calls[id := Removing(c.referenced, c.toRemove - {n})];
      if n == FUTURE then s.(calls := calls)
      else State(r.(markets := r.markets - {n}), ForgetAll(calls, n))
    case Return(id) => s.(calls := s.calls - {id})
  }

  /** A run: events that are not enabled do nothing. */
  function Exec(s: State, events: seq<Event>): State {
    if events == [] then s
    else
      var before := Exec(s, events[..|events| - 1]);
      var e := events[|events| - 1];
      if Enabled(before, e) then Step(before, e) else before
  }

  /** The call will deal with an unreferenced market: it is about to reference it, or its scans can
      still not miss it, or it has it on its list. */
  predicate Responsible(phase: Phase, name: string) {
    match phase
    case Inserting(_, _, _) => false
    case Mapping(_, n) => n == name
    case ScanningUsers(referenced, _) => name !in referenced
    case ScanningMarkets(referenced, pending, found) => name !in referenced && (name in pending || name in found)
    case Removing(_, toRemove) => name in toRemove
  }

  ghost predicate Referenced(r: Registry, name: string) {
    name == FUTURE || name in r.users.Values
  }

  /** Every stored market is referenced, or some call in flight is responsible for it. */
  ghost predicate Inv(s: State) {
    forall n :: n in s.registry.markets && !Referenced(s.registry, n) ==>
      exists id :: id in s.calls && Responsible(s.calls[id], n)
  }

  lemma {:induction false} StepKeepsInv(s: State, e: Event)
    requires Inv(s) && Enabled(s, e)
    ensures Inv(Step(s, e))
  {
    var t := Step(s, e);
    forall n | n in t.registry.markets && !Referenced(t.registry, n)
      ensures exists id :: id in t.calls && Responsible(t.calls[id], n)
    {
      if e.MapStep? {
        assert Responsible(t.calls[e.id], n);
      } else if e.InsertStep? && n == s.calls[e.id].name {
        assert Responsible(t.calls[e.id], n);
      } else {
        var id := ResponsibleBefore(s, e, n);
        ResponsibleAfter(s, e, id, n);
      }
    }
  }

  /** Apart from the two steps that can create an unreferenced market, someone was responsible. */
  lemma ResponsibleBefore(s: State, e: Event, n: string) returns (id: nat)
    requires Inv(s) && Enabled(s, e) && !e.MapStep?
    requires e.InsertStep? ==> n != s.calls[e.id].name
    requires n in Step(s, e).registry.markets && !Referenced(Step(s, e).registry, n)
    ensures id in s.calls && Responsible(s.calls[id], n)
    ensures n in s.registry.markets && !Referenced(s.registry, n)
  {
    assert Step(s, e).registry.users == s.registry.users;
    id :| id in s.calls && Responsible(s.calls[id], n);
  }

  /** ... and stays so. */
  lemma ResponsibleAfter(s: State, e: Event, id: nat, n: string)
    requires Enabled(s, e) && !e.MapStep? && id in s.calls && Responsible(s.calls[id], n)
    requires n in s.registry.markets && !Referenced(s.registry, n) && n in Step(s, e).registry.markets
    ensures id in Step(s, e).calls && Responsible(Step(s, e).calls[id], n)
  {
    if e.VisitUser? && id == e.id {
      assert s.registry.users[e.processor] in s.registry.users.Values;
    }
  }

  lemma {:induction false} ExecKeepsInv(s: State, events: seq<Event>)
    requires Inv(s)
    ensures Inv(Exec(s, events))
    decreases events
  {
    if events != [] {
      ExecKeepsInv(s, events[..|events| - 1]);
      var before := Exec(s, events[..|events| - 1]);
      if Enabled(before, events[|events| - 1]) {
        StepKeepsInv(before, events[|events| - 1]);
      }
    }
  }

  /** No leak: whenever no call is in flight, every stored market is "future" or in use. */
  lemma NoLeakWhenQuiet(s: State, events: seq<Event>)
    requires s.calls == map[] && NoLeak(s.registry)
    requires Exec(s, events).calls == map[]
    ensures NoLeak(Exec(s, events).registry)
  {
    ExecKeepsInv(s, events);
  }

  /** While calls are in flight, the surplus markets are all accounted for by those calls. */
  lemma SurplusIsAccountedFor(s: State, events: seq<Event>, n: string)
    requires s.calls == map[] && NoLeak(s.registry)
    requires n in Exec(s, events).registry.markets && !Referenced(Exec(s, events).registry, n)
    ensures exists id :: id in Exec(s, events).calls && Responsible(Exec(s, events).calls[id], n)
  {
    ExecKeepsInv(s, events);
  }

  /** "future", once inserted, is never removed, whatever calls are in flight. */
  lemma {:induction false} FutureStays(s: State, events: seq<Event>)
    requires FUTURE in s.registry.markets
    ensures FUTURE in Exec(s, events).registry.markets
    decreases events
  {
    if events != [] {
      FutureStays(s, events[..|events| - 1]);
    }
  }

  // ---------- One call alone ----------

  predicate StartsOther(e: Event) {
    e.CallInsertProcessor? || e.CallInsertBoth? || e.PublishFuture?
  }

  /** Where a call of `insert_processor(p, n)` stands that started on registry r and met no other. */
  ghost predicate Alone(r: Registry, p: string, n: string, id: nat, s: State) {
    var users := r.users[p := n];
    if s.calls == map[] then s.registry == InsertProcessor(r, p, n)
    else
      && s.calls.Keys == {id}
      && match s.calls[id]
         case Inserting(_, _, _) => false
         case Mapping(p', n') => p' == p && n' == n && s.registry == r
         case ScanningUsers(referenced, pending) =>
           && s.registry == Registry(r.markets, users)
           && pending <= users.Keys && referenced <= users.Values
           && forall q :: q in users && q !in pending ==> users[q] in referenced
         case ScanningMarkets(referenced, pending, found) =>
           && s.registry == Registry(r.markets, users)
           && referenced == users.Values && pending <= r.markets.Keys
           && forall k :: k in found <==> k in r.markets && k !in pending && k !in referenced
         case Removing(referenced, toRemove) =>
           && s.registry.users == users && referenced == users.Values && toRemove !! referenced
           && (forall k :: k in s.registry.markets <==>
                 k in r.markets && (k in referenced || k == FUTURE || k in toRemove))
           && forall k :: k in s.registry.markets ==> s.registry.markets[k] == r.markets[k]
  }

  lemma AloneStep(r: Registry, p: string, n: string, id: nat, s: State, e: Event)
    requires Alone(r, p, n, id, s) && Enabled(s, e) && !StartsOther(e)
    ensures Alone(r, p, n, id, Step(s, e))
  {
    var t := Step(s, e);
    match e
    case MapStep(_) =>
    case VisitUser(_, _) =>
    case EndUserScan(_) =>
      var users := r.users[p := n];
      assert s.calls[id].referenced == users.Values;
    case VisitMarket(_, _) =>
    case EndMarketScan(_) =>
    case RemoveStep(_, k) =>
      assert t.calls.Keys == {id};
    case Return(_) =>
      assert t.calls == map[];
      assert t.registry.markets == Kept(r.markets, r.users[p := n].Values);
    case InsertStep(_) =>
  }

  lemma {:induction false} AloneExec(r: Registry, p: string, n: string, id: nat, s: State, events: seq<Event>)
    requires Alone(r, p, n, id, s)
    requires forall i :: 0 <= i < |events| ==> !StartsOther(events[i])
    ensures Alone(r, p, n, id, Exec(s, events))
    decreases events
  {
    if events != [] {
      AloneExec(r, p, n, id, s, events[..|events| - 1]);
      var before := Exec(s, events[..|events| - 1]);
      if Enabled(before, events[|events| - 1]) {
        AloneStep(r, p, n, id, before, events[|events| - 1]);
      }
    }
  }

  /** The atomic operation is what the single accesses add up to: a call that meets no other one
      leaves the registry as `InsertProcessor` says, in whatever order its scans proceed. */
  lemma AloneIsAtomic(r: Registry, p: string, n: string, id: nat, events: seq<Event>)
    requires forall i :: 0 <= i < |events| ==> !StartsOther(events[i])
    requires Exec(State(r, map[id := Mapping(p, n)]), events).calls == map[]
    ensures Exec(State(r, map[id := Mapping(p, n)]), events).registry == InsertProcessor(r, p, n)
  {
    assert id in map[id := Mapping(p, n)];
    AloneExec(r, p, n, id, State(r, map[id := Mapping(p, n)]), events);
  }

  /** Where a call of `insert_both(p, n, m)` stands that started on registry r and met no other. */
  ghost predicate AloneBoth(r: Registry, p: string, n: string, m: Market, id: nat, s: State) {
    s == State(r, map[id := Inserting(p, n, m)]) || Alone(Insert(r, n, m), p, n, id, s)
  }

  lemma AloneBothStep(r: Registry, p: string, n: string, m: Market, id: nat, s: State, e: Event)
    requires AloneBoth(r, p, n, m, id, s) && Enabled(s, e) && !StartsOther(e)
    ensures AloneBoth(r, p, n, m, id, Step(s, e))
  {
    if s == State(r, map[id := Inserting(p, n, m)]) {
      assert e == InsertStep(id);
      assert Step(s, e).calls.Keys == {id};
    } else {
      AloneStep(Insert(r, n, m), p, n, id, s, e);
    }
  }

  lemma {:induction false} AloneBothExec(r: Registry, p: string, n: string, m: Market, id: nat, events: seq<Event>)
    requires forall i :: 0 <= i < |events| ==> !StartsOther(events[i])
    ensures AloneBoth(r, p, n, m, id, Exec(State(r, map[id := Inserting(p, n, m)]), events))
    decreases events
  {
    hide AloneBoth;
    var start := State(r, map[id := Inserting(p, n, m)]);
    if events == [] {
      AloneBothStarts(r, p, n, m, id);
    } else {
      AloneBothExec(r, p, n, m, id, events[..|events| - 1]);
      var before := Exec(start, events[..|events| - 1]);
      if Enabled(before, events[|events| - 1]) {
        AloneBothStep(r, p, n, m, id, before, events[|events| - 1]);
      }
    }
  }

  lemma AloneBothStarts(r: Registry, p: string, n: string, m: Market, id: nat)
    ensures AloneBoth(r, p, n, m, id, State(r, map[id := Inserting(p, n, m)]))
  {
  }

  /** Likewise for `insert_both`. */
  lemma AloneBothIsAtomic(r: Registry, p: string, n: string, m: Market, id: nat, events: seq<Event>)
    requires forall i :: 0 <= i < |events| ==> !StartsOther(events[i])
    requires Exec(State(r, map[id := Inserting(p, n, m)]), events).calls == map[]
    ensures Exec(State(r, map[id := Inserting(p, n, m)]), events).registry == InsertBoth(r, p, n, m)
  {
    assert id in map[id := Inserting(p, n, m)];
    AloneBothExec(r, p, n, m, id, events);
  }
}
