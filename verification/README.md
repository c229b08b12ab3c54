# A verified model of the risk server

The repository computes the risk of a book of trades on a market that changes all the time. This
project models its Rust core, `rt_server`, and the trade log of its Python controller, and proves
what they compute. Everything is checked by `dafny verify dfyconfig.toml`.

## What is modelled

**The pipeline.** A market producer folds ticks into a private market and publishes a frozen copy of
it as "future". A trade producer files every trade and announces it, first to `ProcessorCurr`, then to
`ProcessorNew`. `ProcessorNew` prices single trades as they arrive; on a new market it clears its
portfolio and has its bulk actor price the whole book. Either way it offers the result to
`ProcessorCurr` below, which accepts it, repairs it with the trades it lacks, or rejects it, and
publishes. All actors share the registry `AllMarkets`, which drops every market that no processor
works on.

- Each actor is a class whose handlers update its fields, proved to do what a specification function
  says (`ProcessorNewActor`, `ProcessorBulkActor`, `ProcessorCurrActor`, `ProcessorMiddleActor`,
  `Producers`, `MarketRegistry`, `BulkPricing`, `Portfolios`).
- `Pipeline` puts these functions together: mailboxes are sequences, one event handles one message or
  is one send, and a run is any sequence of events. `PipelineInvariant` and `PipelineSteps` prove an
  inductive invariant of all runs, from which `PipelineTheorems` concludes. What a portfolio is claimed
  to be (a market version and a set of trades) travels with the messages as a note that no handler
  reads.
- `ProcessorMarkets` says which actor is registered to which market, and that these markets stay stored.
- `PipelineRuns` follows single runs event by event; `UnpricedTrades` and `UncountedTrades` are runs that end
  differently from what one would expect, and `KeptMarket` is one in which a registration matters.
- `MiddleChain` follows a proposal, or a trade announced to one stage, through any number of middle stages.
- `DeployedPipeline` is the double-buffer pipeline as it is deployed, with one middle stage between New and
  Curr, its mailbox and all its messages. `DeployedSteps` proves an invariant of it, `DeployedTheorems`
  concludes, and `DeployedRuns` has two runs that show which messages must not go out of order.
- `RegistryInterleaving` splits `AllMarkets::insert_processor` into its single accesses to the two
  concurrent maps and lets any number of calls interleave.

**The arithmetic.** The three pricing strategies (`BulkPricing`), the prices, sensitivities and hedges
of the LETF desk (`LetfPricing`), profit and loss (`ProfitAndLoss`), the delta-normal value at risk with its rolling windows
(`ValueAtRisk`, `UnequalWindows`, `VarProcessing`), the Nelder-Mead search and the calibration around it
(`NelderMead`, `BergomiCalibration`),
the Volterra kernel (`VolterraKernel`), the weighted slope of the trade producer (`WeightedSlope`), and
the pruning of offsetting trades (`Controller`).

Floating-point numbers are reals. `exp`, `ln`, `powf` and the square root are parameters, with only
the laws a theorem needs. The pipeline theorems hold for every pricer, given as three functions.
Assertions about runs are for one pipeline, with distinct metrics that include PV, fixed before the first
message, and for trade ids that arrive once. They cover both modes without middle stages, and double-buffer
mode with one: rt_server/src/main.rs starts single-buffer mode with none and double-buffer mode with one.

## Where the code does not do what it says

- Double-buffer mode counts PV01 twice for a trade that has a PV01 but no PV: `ProcessorCurr` tells
  from the PV portfolio which trades a proposal lacks. `UnpricedTrades.FutureCountedTwice` is a whole run
  of the pipeline that ends this way; `PipelineTheorems.AcceptedInRun` gives, for every run, what is held
  and exactly when it is exact. Without a middle stage PV and PnL are not affected, nor is single-buffer mode.
- With the middle stage that double-buffer mode is deployed with, PV is counted twice in the natural order of
  messages. When Curr lacks a trade in a proposal it prices the trade itself and also reports it to the
  middle stage, which by then has handled the announcement of that trade and adds it once more
  (rt_server/src/processor_middle.rs:198-209): `DeployedRuns.AnsweredTradeCountedTwice` is such a run, for
  every double-buffer pipeline with a parallel strategy whose first trade has a price.
  `DeployedTheorems.AnswerExactIff` says exactly what an answer does.
- The middle stage is told of a trade before Curr (rt_server/src/engine_letf.rs:145-146). If it handles the
  trade first, Curr can accept a portfolio with it and then add it again:
  `DeployedRuns.OvertakenTradeCountedTwice`, `DeployedTheorems.LateAnnouncementExactIff`. In a run without these
  two things, and in which the middle stage finds its market when it is answered, every PV and PnL that Curr
  publishes is exact (`DeployedTheorems.DeployedExactlyOnce`).
- rt_server/src/README.md says that `ProcessorCurr` rejects a proposal that lacks trades. The code
  rejects it only if ten or more are missing, ignores it if its market has been dropped, and otherwise
  prices the missing trades itself (`PipelineTheorems.ProposalAcceptedIff`).
- Between proposals `ProcessorCurr` counts a new trade only if its market is still stored and its
  portfolio holds a metric (`PipelineTheorems.TradeCountedIff`). Ordinary runs fail either condition: the first acceptance does
  not register Curr's market (rt_server/src/processor_curr.rs:350-358), so that the next bulk drops it
  (`UncountedTrades.DroppedMarketUncounted`), and after an empty bulk under the sequential strategy the portfolio
  holds no metric (`UncountedTrades.EmptyBulkUncounted`).
- A middle stage adds only trades that a proposal does not list. One that the proposal lists without
  valuing it, such as a trade that arrived during a bulk, is not repaired on the way
  (`MiddleChain.LateTradeStaysLost`). `MiddleChain.ChainValuesAllIff` says exactly when a forwarded portfolio
  values all the trades it lists; for PV, when none of those trades has a price
  (`MiddleChain.ChainValuesAllPVIff`).
- The step that the optimiser calls inside contraction never moves from the centroid towards the worst
  vertex, if the centroid is in the bounds, and it tries the same point as the outside contraction unless,
  in some coordinate, a bound cuts off the reflection at a value other than the centroid's
  (`NelderMead.InsideContraction`, and `NelderMead.InsideIsOutsideIff` for any bounds). `NelderMead.CutOffContractionsDiffer` is a case in which
  the two points differ.
- While return windows have different lengths, the quadratic form of the value at risk need not be a
  variance: it is non-negative for all returns and exposures if and only if the lengths are equal
  (`UnequalWindows.NonNegativeIffEqualWindows`).
- The kernel weights are not divided by the length of a time step, so the convolution is dt times the
  integral it is meant to approximate (`VolterraKernel.IntegralIff`).
- The weighted slope looks at whole seconds: observations within one second of the last have no
  slope although their times differ (`WeightedSlope.HalfASecondApart`).
- Pruning keeps the value of a trade log only if no prefix deletes an id more often than it creates it
  (`Controller.PruningPreservesValueIff`, `Controller.SingleDeletion`).

## Model

| member | source | states |
|---|---|---|
| PipelineTheorems.SnapshotConsistency | rt_server/src/processor_curr.rs:265-370 | In every single-buffer run, everything ever published and what Curr holds is, on all metrics, the sum of the contributions of some delivered trades on the market of one prefix of the ticks |
| PipelineTheorems.SnapshotConsistencyOfPV | rt_server/src/processor_curr.rs:184-370 | The same in either mode for PV and PnL, without assuming that any trade has a price |
| PipelineTheorems.LastValueWins | rt_server/src/mkt_handler_actor.rs:105-116 | The market after v ticks quotes exactly the keys that ticked, each with its last value |
| PipelineTheorems.ExactlyOnce | rt_server/src/engine_letf.rs:145-146 | In every double-buffer run in which no trade is priced in vain, each accepted portfolio is the exact value of all trades Curr has received by then, and what it publishes in between counts each trade once |
| PipelineTheorems.ExactlyOnceIfPriceable | rt_server/src/engine_letf.rs:145-146 | A warm start: if New reaches some version of the market before it keeps a trade, and from that version on every delivered trade has a price, then in every double-buffer run that continues from there all of this holds on all metrics |
| UnpricedTrades.DeskPriceableFrom | rt_server/src/trades/trade_letf.rs:361-376 | On the LETF desk, leveraged ETFs with their initial value, futures and cash all have a price from the version on at which their stocks have ticked |
| PipelineTheorems.TradeCountedIff | rt_server/src/processor_curr.rs:184-263 | A trade that reaches Curr is new to it and known from then on, and is counted at once if and only if Curr's market is known and still stored and its portfolio holds a metric |
| UncountedTrades.DroppedMarketUncounted | rt_server/src/processor_curr.rs:350-358 | In every double-buffer pipeline, under every strategy: after one acceptance, a switch of New to a second market and its bulk, a trade reaches Curr; Curr's market is no longer stored, and Curr knows the trade and does not count it |
| UncountedTrades.EmptyBulkUncounted | rt_server/src/processor_bulk.rs:93-126 | In every double-buffer pipeline with the sequential strategy: after the first bulk, on no trades, and its acceptance, a trade reaches Curr, which knows it, does not count it and holds no metric |
| ProcessorMarkets.CurrMarketStays | rt_server/src/processor_curr.rs:345-358 | In every run Curr is registered if and only if it has accepted proposals of two different versions; then to the market it works on, and that market is stored with its content, whatever New and its bulk actor do |
| ProcessorMarkets.DeployedCurrMarketStays | rt_server/src/processor_curr.rs:345-358 | The same below a middle stage, in every orderly run |
| KeptMarket.KeptMarketCounted | rt_server/src/processor_curr.rs:350-358 | In every double-buffer pipeline with a parallel strategy: Curr accepts two markets, New switches to a third one and its bulk is done; a trade that reaches Curr then is valued on the second market, which is still stored, exactly, and published at once |
| ProcessorMarkets.BulkMarketStays | rt_server/src/processor_bulk.rs:320-335 | In every run, while no request is outstanding, the bulk actor is registered to New's market |
| ProcessorMarkets.MiddleMarketStays | rt_server/src/processor_middle.rs:280-285 | In every run, orderly or not, a middle stage that has a market is registered to it |
| ProcessorMarkets.MiddleMarketKept | rt_server/src/processor_middle.rs:280-285 | Once that market is stored, no move but a message of the middle stage itself removes it |
| ProcessorCurrActor.ProposalOutcome | rt_server/src/processor_curr.rs:265-392 | What becomes of a proposal in any state, with the conditions and the resulting value of each metric written out: nothing without metrics, a rejection if ten or more known trades have no PV in it, nothing if its market or one of these trades cannot be found, and otherwise the proposal plus the value of these trades |
| ProcessorCurrActor.MetricChangeOutcome | rt_server/src/processor_curr.rs:394-410 | New metrics keep what is held of them, start the rest empty, drop everything else, and are published |
| PipelineTheorems.CounterIs | rt_server/src/processor_curr.rs:188-201 | In every double-buffer run the counter that is meant to slow Curr down is the number of trades received since the last acceptance |
| PipelineTheorems.ExactlyOnceOfPV | rt_server/src/trade_sender.rs:180-197 | The same for PV and PnL without the assumption on prices |
| PipelineTheorems.ReceivedTrades | rt_server/src/processor_curr.rs:184-200 | The trades Curr knows are exactly the first ones announced, in order of arrival |
| PipelineTheorems.AcceptedValue | rt_server/src/processor_curr.rs:286-325 | A repaired exact proposal is the exact value of all known trades plus once more that of the proposed trades without a price |
| PipelineTheorems.AcceptedExactIff | rt_server/src/processor_curr.rs:286-325 | It is exact if and only if the proposed trades without a price add up to zero on every key |
| PipelineTheorems.AcceptedInRun | rt_server/src/processor_curr.rs:265-370 | Both of these facts for every acceptance in every double-buffer run |
| PipelineTheorems.MonotonePublication | rt_server/src/processor_curr.rs:326-369 | Along a run neither the market version nor the set of covered trades of successive publications ever shrinks, and each publication is exactly what it claims |
| PipelineTheorems.PublicationsStay | rt_server/src/processor_curr.rs:326-369 | From any state, a run only appends publications |
| PipelineTheorems.ProposalAcceptedIff | rt_server/src/processor_curr.rs:286-392 | Any proposal that reaches Curr is accepted, published and taken over if and only if fewer than ten known trades are without a price in it and its market is still stored; otherwise Curr and what it has published do not change |
| PipelineTheorems.CurrentProposalAccepted | rt_server/src/processor_curr.rs:286-392 | For a proposal on New's present market the first condition alone decides |
| PipelineTheorems.BulkHandshake | rt_server/src/processor_new.rs:507-568 | New is in CalculatingBulk if and only if exactly one bulk request or result is outstanding, and there is never more than one |
| PipelineTheorems.NewMarketStays | rt_server/src/all_markets.rs:122-175 | In every reachable state New's market is mapped to processor_new, is still stored with its own content, and is the one that an outstanding request or result names |
| PipelineTheorems.BulkNeverMissesMarket | rt_server/src/processor_bulk.rs:325-352 | The missing-market branch of the bulk actor is unreachable, and the bulk actor finds every trade it is asked for |
| PipelineTheorems.NoLostTrade | rt_server/src/processor_new.rs:77-184 | New keeps every trade that reached it once it had a market; its portfolio is the exact value of all of them but those that arrived while the last bulk was outstanding |
| PipelineTheorems.NextBulkCoversAll | rt_server/src/processor_new.rs:264-320 | Once a bulk that started later is complete, New's portfolio is exact and covers every trade known before |
| PipelineTheorems.RunLag | rt_server/src/processor_new.rs:498-568 | Over any stretch of a run New forgets no trade, its frontier never goes back, and a bulk started in it takes in all trades known at the beginning |
| PipelineSteps.StepInv | rt_server/src/processor_new.rs:467-661 | Every event of the pipeline keeps the whole invariant |
| PipelineSteps.RunNewInv | rt_server/src/processor_new.rs:475-635 | Every message New handles keeps it |
| PipelineSteps.RunBulkInv | rt_server/src/processor_bulk.rs:298-420 | Every request the bulk actor handles keeps it |
| PipelineSteps.RunCurrInv | rt_server/src/processor_curr.rs:176-416 | Every message Curr handles keeps it |
| PipelineSteps.RepairedExact | rt_server/src/processor_curr.rs:286-325 | A repaired proposal is exactly the value of its trades and the known ones, on the metrics on which no trade can be counted twice |
| Pipeline.RepairValue | rt_server/src/processor_curr.rs:286-325 | The repair adds exactly the known trades that the proposal does not value |
| Pipeline.PricingIsExact | rt_server/src/processor_bulk.rs:75-90 | Under every strategy, pricing filed trades on a snapshot gives their exact value |
| UnpricedTrades.FutureCountedTwice | rt_server/src/processor_curr.rs:286-325 | In any double-buffer pipeline whose first trade is a future on a stock that has not ticked, under every strategy, the run of tick, bulk, acceptance, announcement and second acceptance ends with Curr holding and publishing twice the future's PV01 |
| UnpricedTrades.ExampleIsOne | rt_server/src/trades/trade_letf.rs:182-198 | There is such a pipeline |
| DeployedTheorems.DeployedExactlyOnce | rt_server/src/main.rs:149-153 | With a middle stage: in every run in which the middle stage prices no trade before it is announced to Curr, and no answer reaches it that names a trade it values already or finds its market dropped, every portfolio Curr accepts is on PV and PnL the exact value of all trades it has received, which are those announced to it so far, and what it publishes in between counts each trade once |
| DeployedTheorems.DeployedExactlyOnceOnAll | rt_server/src/main.rs:149-153 | The same on all metrics, if neither New nor the middle stage values a trade that has no price |
| DeployedTheorems.DeployedConsistency | rt_server/src/engine_letf.rs:85-97 | In these runs every publication is, on PV and PnL, the value of some delivered trades on one prefix of the ticks, and publications never go back |
| DeployedTheorems.MiddleIsExact | rt_server/src/processor_middle.rs:223-324 | In these runs the middle stage's portfolio is exact on all metrics on the market it names, and the stage knows exactly the trades it has handled |
| DeployedTheorems.MiddleNeverFails | rt_server/src/processor_middle.rs:74-79 | In these runs no handler of the middle stage ends with an error |
| DeployedTheorems.MiddleAnswersNew | rt_server/src/processor_middle.rs:260-266 | Taking over a proposal, the middle stage tells New exactly which of its trades the proposal did not list |
| DeployedTheorems.AnswerNamesKnown | rt_server/src/processor_middle.rs:126-159 | An answer of Curr never names a trade the middle stage does not know |
| DeployedTheorems.AnswerExactIff | rt_server/src/processor_middle.rs:195-216 | Handling an answer leaves the middle stage, on every metric, with the exact value of what it valued and was told of, plus once more the trades that are both; it is exact if and only if these are zero on every key |
| DeployedTheorems.LateAnnouncementExactIff | rt_server/src/processor_curr.rs:228-243 | A trade announced to Curr after a proposal has brought it is added once more; the portfolio stays exact if and only if the trade is zero on every key |
| DeployedSteps.MoveInv | rt_server/src/engine_letf.rs:58-166 | Every move of the deployed pipeline that meets these two conditions keeps its invariant |
| DeployedSteps.MiddleInv | rt_server/src/processor_middle.rs:417-535 | Every message the middle stage handles does |
| DeployedSteps.BelowInv | rt_server/src/processor_curr.rs:176-416 | Every message Curr handles does, without any condition |
| DeployedSteps.AboveInv | rt_server/src/processor_new.rs:467-661 | Every event above the middle stage does, without any condition |
| DeployedRuns.AnsweredTradeCountedTwice | rt_server/src/processor_middle.rs:195-216 | In every double-buffer pipeline with a parallel strategy whose first trade has a price on the first market: a run of fifteen moves, each message in its natural order, after which Curr holds and has published twice the PV of the trade |
| DeployedRuns.OvertakenTradeCountedTwice | rt_server/src/engine_letf.rs:145-146 | The same after a run in which the middle stage handles the trade before Curr is told of it |
| DeployedRuns.CashDeskIsOne | rt_server/src/trades/trade_letf.rs:238-241 | There is such a pipeline |
| RegistryInterleaving.NoLeakWhenQuiet | rt_server/src/all_markets.rs:122-175 | After any interleaving of any number of calls, whenever none is in flight, every stored market is "future" or mapped to a processor |
| RegistryInterleaving.SurplusIsAccountedFor | rt_server/src/all_markets.rs:122-164 | While calls are in flight, each unreferenced market is one that some call will reference or remove |
| RegistryInterleaving.FutureStays | rt_server/src/all_markets.rs:150-164 | "future", once inserted, is present in every later state of every interleaving |
| RegistryInterleaving.AloneIsAtomic | rt_server/src/all_markets.rs:122-164 | A call that meets no other one has the effect of the atomic operation, in whatever order its scans proceed |
| RegistryInterleaving.AloneBothIsAtomic | rt_server/src/all_markets.rs:167-175 | The same for a lone `insert_both` |
| MarketRegistry.InsertProcessorKeeps | rt_server/src/all_markets.rs:122-164 | A registration leaves no unreferenced market behind and keeps "future", the registered market and the markets of all other processors |
| MarketRegistry.AllMarkets.InsertProcessorMarket | rt_server/src/all_markets.rs:122-164 | The three loops leave exactly the markets that some processor is mapped to, and "future" |
| MarketRegistry.AllMarkets.InsertMarketAndProcessor | rt_server/src/all_markets.rs:167-175 | Afterwards the market is stored under its name and nothing leaks |
| MarketRegistry.AllMarkets.InsertMarket | rt_server/src/all_markets.rs:108-119 | Replaces the entry of one name |
| MarketRegistry.AllMarkets.Get | rt_server/src/all_markets.rs:92-98 | The market stored under a name, if any |
| ProcessorNewActor.ProcessorNew.HandleNewTrade | rt_server/src/processor_new.rs:77-184 | In single mode a trade that can be priced is added to every metric and the result offered below, else it is dropped; in bulk mode it is only remembered |
| ProcessorNewActor.ProcessorNew.HandleNewMarket | rt_server/src/processor_new.rs:498-568 | Ignored during a bulk; otherwise clear the portfolio, register the market found as "future" under its own name and request a bulk of all trades |
| ProcessorNewActor.ProcessorNew.HandleBulkReceive | rt_server/src/processor_new.rs:264-320 | Take over the result, return to single mode and offer it below |
| ProcessorNewActor.MetricChangeOutcome | rt_server/src/processor_new.rs:636-656 | New metrics keep what is held of them, start the rest empty, and drop everything else |
| ProcessorNewActor.ProcessorNew.Handle | rt_server/src/processor_new.rs:467-661 | The new state, the registry and all messages sent are those of the specification of each message |
| ProcessorBulkActor.ProcessorBulk.HandleNewBulk | rt_server/src/processor_bulk.rs:298-420 | Registers the market, prices the trades on it under the configured strategy and returns the unpriced ones as offending; a missing market gives an empty result |
| ProcessorCurrActor.ProcessorCurr.HandleNewTrade | rt_server/src/processor_curr.rs:184-263 | Single buffer ignores the trade; double buffer remembers it and, if trade and market are there, adds it to the metrics held and publishes |
| ProcessorCurrActor.ProcessorCurr.HandleProposal | rt_server/src/processor_curr.rs:265-392 | Accept with repair, reject with the list of missing trades, or do nothing if market or trades cannot be found |
| ProcessorCurrActor.ProcessorCurr.Repair | rt_server/src/processor_curr.rs:290-325 | The proposal plus the price of the missing trades on its market, only if all of them were found |
| ProcessorCurrActor.ProcessorCurr.Handle | rt_server/src/processor_curr.rs:176-416 | The new state, the registry, the publication and the answer are those of the specification of each message |
| ProcessorMiddleActor.ProcessorMiddle.HandleProposal | rt_server/src/processor_middle.rs:223-324 | Register the market, report the own trades the proposal lacks, price them on its market and forward the sum |
| ProcessorMiddleActor.ProcessorMiddle.HandleNewTrade | rt_server/src/processor_middle.rs:60-123 | Remember the trade; if it can be priced, add it to the metrics held and forward |
| ProcessorMiddleActor.ProcessorMiddle.HandleBehind | rt_server/src/processor_middle.rs:126-216 | An empty answer changes nothing; otherwise the named trades are remembered and priced on the stage's market and the sum offered below, or, if that market is not stored, everything known is priced on the market of the answer and nothing offered |
| MiddleChain.AnnouncedTrade | rt_server/src/processor_middle.rs:60-123 | A trade announced to a stage on a stored market: what is forwarded lists it, and is exact on a metric if and only if the trade was not valued before or is zero on every key; a metric that is not held misses it |
| MiddleChain.AnnouncedTradeDown | rt_server/src/processor_middle.rs:60-123 | A new trade announced to a stage that values all it knows comes out below any number of further stages, together with their own trades, each exactly once |
| MiddleChain.AnsweredWithoutMarket | rt_server/src/processor_middle.rs:155-193 | An answer that finds no stored market makes the stage price all it knows on the market of the answer, exactly, and offer nothing |
| MiddleChain.StageAnswers | rt_server/src/processor_middle.rs:236-268 | The answer of a stage names exactly the trades it adds to the list of the proposal |
| MiddleChain.UnfiledRemembered | rt_server/src/processor_bulk.rs:298-420 | After a bulk on ids that are not all filed New holds the exact value of the filed ones and remembers the others as not priced |
| MiddleChain.MarketMissing | rt_server/src/processor_bulk.rs:325-352 | After a bulk on a market that is not stored New goes on with an empty portfolio |
| MiddleChain.StageReconciles | rt_server/src/processor_middle.rs:223-324 | A proposal that values some of its trades leaves a stage valuing, besides them, the stage's own trades that it did not list |
| MiddleChain.ChainReconciles | rt_server/src/processor_middle.rs:223-324 | The same for any number of stages, whatever the registry holds when the proposal reaches each of them |
| MiddleChain.ChainIsExact | rt_server/src/processor_middle.rs:223-324 | An exact proposal on a registered market comes out as the exact value of the union of its trades and those of every stage, on the same market |
| MiddleChain.ChainValuesAllIff | rt_server/src/processor_middle.rs:223-324 | The forwarded portfolio lacks exactly the trades that the proposal listed without valuing them; it values all it lists if and only if these would add nothing: on keys that the trades valued by the proposal or added by the stages hold anyway, and zero on them |
| MiddleChain.ChainValuesAllPVIff | rt_server/src/processor_middle.rs:223-324 | For PV: if and only if none of these trades has a price |
| MiddleChain.LateTradeIsListedNotValued | rt_server/src/processor_new.rs:170-184 | New sends such a proposal: a trade that arrives during a bulk is listed in the proposal that follows, which values the others exactly |
| MiddleChain.LateTradeStaysLost | rt_server/src/processor_middle.rs:236-306 | Through any number of stages it arrives at Curr listed and without its price |
| Producers.MarketProducer.constructor | rt_server/src/mkt_handler_actor.rs:39-58 | Publishes an empty market as "future" |
| Producers.MarketProducer.Receive | rt_server/src/mkt_handler_actor.rs:105-129 | A tick goes into the private market, which is renamed and published as "future" before New is told |
| Producers.TradeProducer.Receive | rt_server/src/trade_sender.rs:177-199 | The trade is filed first and then announced once to every processor, in the order of the processors |
| Messages.TradeRep.Upsert | rt_server/src/trade_sender.rs:180 | Replaces the trade filed under an id and keeps the registry keyed by id |
| BulkPricing.StrategiesAgree | rt_server/src/processor_bulk.rs:93-257 | For every trade set, metric list and market, the three strategies give the same portfolio for every metric |
| BulkPricing.PriceSpecValue | rt_server/src/processor_bulk.rs:93-257 | Under any strategy a metric listed n times is worth n times the sum of the contributions of the trades found |
| BulkPricing.PriceMultiple | rt_server/src/processor_bulk.rs:75-90 | Prices exactly the requested trades that are filed, with that value for every metric |
| BulkPricing.PriceSequential | rt_server/src/processor_bulk.rs:93-126 | The loop over trades in any order, and over metrics inside, meets this specification |
| BulkPricing.PriceConcurrent | rt_server/src/processor_bulk.rs:128-257 | The loop over metrics around the sum over the collected trades meets it too |
| BulkPricing.CollectTrades | rt_server/src/processor_bulk.rs:137-153 | The scan of the registry yields each requested trade that is filed, once |
| BulkPricing.SumMetric | rt_server/src/processor_bulk.rs:162-175 | Adding up results in the order of the scan gives the order-free sum over the set of ids |
| BulkPricing.AddToPresentValue | rt_server/src/processor_curr.rs:231-243 | Adding a trade to the metrics held changes each listed and held metric by its contribution and no other |
| BulkPricing.RepairExtends | rt_server/src/processor_middle.rs:272-306 | Adding the price of further trades to an exact value gives the exact value of all of them |
| Portfolios.AddAssign | rt_server/src/portfolio.rs:85-109 | The in-place loop computes the key-by-key sum |
| Portfolios.AddCommutes | rt_server/src/portfolio.rs:52-69 | Key-by-key addition is commutative |
| Portfolios.AddAssociates | rt_server/src/portfolio.rs:52-69 | ... and associative |
| Portfolios.SumPick | rt_server/src/portfolio.rs:302-309 | A sum over a set of trades does not depend on an order: any trade can be taken out first |
| Portfolios.SumUnion | rt_server/src/portfolio.rs:302-309 | Sums over disjoint sets of trades add up to the sum over the union |
| Portfolios.AggregateResults | rt_server/src/portfolio.rs:330-336 | Aggregating a PV01 result in whatever order its rows come gives the sum over its trades |
| Portfolios.AddAssignResults | rt_server/src/portfolio.rs:404-420 | Adding a result row by row equals adding its aggregate |
| Portfolios.AddMetricsValue | rt_server/src/portfolio.rs:513-522 | Assigning a delta once per entry of a metric list adds it to each metric as often as it is listed |
| Portfolios.PmPortfolio.AddAssignPm | rt_server/src/portfolio.rs:587-602 | The loop over the other portfolio adds it metric by metric |
| Portfolios.PmPortfolio.Assign | rt_server/src/portfolio.rs:497-511 | Every metric of the other portfolio replaces the own one; the rest stays |
| Portfolios.PmPortfolio.AssignMetric | rt_server/src/portfolio.rs:513-522 | Adds to one metric, creating it if absent, and leaves the others alone |
| Portfolios.LastAssignmentWins | rt_server/src/portfolio.rs:497-511 | The last assignment of a metric wins, and assigning once more changes nothing |
| Portfolios.KeptMetrics | rt_server/src/utils.rs:10-25 | Changing to the metrics held changes nothing; what is dropped on the way is lost, and what is new starts empty |
| Portfolios.PmPortfolio.ChangeMetrics | rt_server/src/utils.rs:10-25 | Keeps the listed metrics with their values, drops the others and adds the missing ones empty |
| Trades.ContributionKeys | rt_server/src/pricer.rs:164-191 | A trade without a price adds nothing to PV and PnL; a priced one adds exactly its id to PV; `ProfitAndLoss.TradePnL` has the values |
| ProfitAndLoss.TradePnL | rt_server/src/pricer.rs:149-154 | The PnL of a trade is, under its id, price less initial value, and absent if either is missing |
| ProfitAndLoss.BookPnL | rt_server/src/pricer.rs:160-195 | For any filed book under every strategy, key by key: PV holds exactly the priced trades with their prices, PnL exactly those that have an initial value besides, less by that value |
| ProfitAndLoss.PnLPlusInitialIsPV | rt_server/src/pricer.rs:149-154 | Where every trade has a price and an initial value, PnL plus initial values is PV on every key and in total |
| ProfitAndLoss.SameChange | rt_server/src/pricer.rs:149-154 | Between two markets total PnL and total PV then change by the same amount |
| ProfitAndLoss.PV01ExplainsPnL | rt_server/src/trades/trade_letf.rs:69-111 | For any book of LETF, futures with an initial value and cash, the change of the total PnL between two markets is the aggregated PV01 times the change of the stocks, under every strategy |
| ProfitAndLoss.HedgeStartsAtZero | rt_server/src/trades/trade_letf.rs:115-150 | On the market of the hedge the LETF, its future and its cash each have a PnL of 0 |
| ProfitAndLoss.DeskHas | rt_server/src/trades/trade_letf.rs:352-400 | Exactly when a trade of each kind has a price, an initial value and sensitivities |
| ProfitAndLoss.PerpetualValue | rt_server/src/trades/perp.rs:75-136 | A perpetual is worth its amount times (1.0001 spot less the distance of spot and perpetual), all of it profit; its PV01 times the spot is that value times the amount once more |
| LetfPricing.PV01ExplainsPV | rt_server/src/trades/trade_letf.rs:73-111 | For any book of LETF with initial value, futures and cash, the change of the total PV between two markets is the aggregated PV01 times the change of the stocks, under every strategy |
| LetfPricing.TradeExplained | rt_server/src/trades/trade_letf.rs:182-198 | The same for a single trade, with the PV01 taken on any market holding its stock |
| LetfPricing.HedgedBookNeutral | rt_server/src/aux/letf_hedger.rs:115-126 | The book of any list of LETF trades hedged at their initial prices, filed with their hedges under distinct ids and priced under any strategy on any market holding the stocks, is worth 0 and has PV01 0 for every stock |
| LetfPricing.HedgedListNeutral | rt_server/src/trades/trade_letf.rs:115-150 | The same for the list of trades and hedges, whatever their ids |
| LetfPricing.ConsecutiveIdsUnhedged | rt_server/src/trades/trade_letf.rs:132-149 | Hedges are numbered from the id of their trade: of two trades with consecutive numbers the second, and its future, replace the hedge of the first, and the book is worth exactly the first trade, with its PV01 |
| LetfPricing.Superseded | rt_server/src/trade_sender.rs:180 | Trades whose ids are all filed again later leave no trace in the book |
| LetfPricing.OneHedgeNeutral | rt_server/src/trades/trade_letf.rs:115-150 | The same for one trade and its future and cash |
| ValueAtRisk.FormIsVariance | rt_server/src/postprocs/var.rs:82-123 | With return series of equal length the double loop is the sample variance of the exposure-weighted returns, hence not negative; `ValueAtRisk.CovarianceClosedForm` writes that variance out |
| ValueAtRisk.CovarianceClosedForm | rt_server/src/postprocs/var.rs:544-569 | A covariance is (sum of x * y less sum of x times sum of y over n) / (n - 1) |
| ValueAtRisk.CovarianceShifted | rt_server/src/postprocs/var.rs:544-569 | Adding a constant to a series leaves its covariances as they are |
| ValueAtRisk.CovarianceOfConstant | rt_server/src/postprocs/var.rs:544-569 | A constant series has covariance 0 with every other |
| ValueAtRisk.RollingIsOfLatest | rt_server/src/postprocs/var.rs:544-569 | The covariance of two windows is that of their latest returns, as many as both have; there is none if these are fewer than two or than required |
| ValueAtRisk.OrderIrrelevant | rt_server/src/postprocs/var.rs:82-123 | It does not depend on the order in which the factors are enumerated |
| ValueAtRisk.CovarianceReversed | rt_server/src/postprocs/var.rs:544-569 | Taking both tails backwards does not change a covariance |
| UnequalWindows.NonNegativeIffEqualWindows | rt_server/src/postprocs/var.rs:82-123 | For any distinct factors with windows of given lengths, each long enough for a covariance: the double loop is non-negative for all returns of these lengths and all exposures if and only if the lengths are equal |
| UnequalWindows.NegativeForm | rt_server/src/postprocs/var.rs:544-569 | Any two windows of lengths a < b admit returns and exposures with the form 2/(b-1) - 2/(a-1) < 0 |
| UnequalWindows.UnequalWindowsCanBeNegative | rt_server/src/postprocs/var.rs:544-569 | A case at the default of 20 observations, with windows of 20 and 21 |
| VarProcessing.WindowsAreRolling | rt_server/src/postprocs/var.rs:273-294 | After any stream of prices a window holds exactly the log-returns of the factor's last valid prices, as many as fit |
| VarProcessing.WindowTelescopes | rt_server/src/postprocs/var.rs:273-294 | The sum of a window is the log of the last price less that of the price where the window starts |
| VarProcessing.VarProcessor.UpdatePrice | rt_server/src/postprocs/var.rs:273-294 | The method with its pop loop makes the step that the windows theorem is about |
| VarProcessing.VarProcessor.Aggregate | rt_server/src/postprocs/var.rs:82-123 | The value is the z-score times the root of the quadratic form over the selected factors; there is none if and only if no factor is selected or a selected one has fewer than two returns |
| VarProcessing.QuantileSquared | rt_server/src/postprocs/var.rs:121-122 | For any confidence and any form: the square of the value is the form, or 0 if that is negative, times the square of the tabulated score |
| VarProcessing.ValueAtRiskScales | rt_server/src/postprocs/var.rs:82-123 | c times the exposures (c not negative) have the same factors and c times the value, for windows of any lengths |
| VarProcessing.BalancedValueAtRisk | rt_server/src/postprocs/var.rs:82-123 | With windows of equal length the value is not negative and its square is the square of the tabulated score of the confidence times the sample variance of the exposure-weighted returns, both written out |
| VarProcessing.VarProcessor.SelectFactors | rt_server/src/postprocs/var.rs:83-98 | Lists each factor with an exposure and enough returns exactly once |
| NelderMead.NelderMead4d | rt_server/src/yf/src/bergomi_calib.rs:338-437 | For any objective, start and bounds: the run follows the rounds of the algorithm and ends only if the simplex is small or the budget used up; the result is an evaluated point with its own objective as value, no worse than any of the at most 5 + 6 * maxIter evaluated points; unless it is the start it is clamped, hence in the bounds if they are ordered |
| NelderMead.Improve | rt_server/src/yf/src/bergomi_calib.rs:379-430 | One pass does what `NelderMead.EvaluatedAt` and `NelderMead.KeptAt` describe, and the best of everything evaluated is never lost |
| NelderMead.EvaluatedAt | rt_server/src/yf/src/bergomi_calib.rs:379-420 | Coordinate by coordinate, the points a pass tries and in which case: the centroid is the midpoint of worst vertex and reflection, the reflection that of centroid and expansion, the outside contraction that of centroid and reflection; where a bound is in the way the point stops at it |
| NelderMead.KeptAt | rt_server/src/yf/src/bergomi_calib.rs:391-430 | Which of them takes the place of the worst vertex and in which case, and that otherwise every vertex but the best moves half way towards it, as far as the bounds admit |
| NelderMead.StartAt | rt_server/src/yf/src/bergomi_calib.rs:349-356 | The start vertices are x0 and, for each coordinate, the point one step (0.02, 0.2, 0.05, 0.01) away in that coordinate only, as far as the bounds admit |
| NelderMead.DistanceSquared | rt_server/src/yf/src/bergomi_calib.rs:452-467 | The square of a distance is the sum of the four squared differences |
| NelderMead.SmallIff | rt_server/src/yf/src/bergomi_calib.rs:370-374 | The search ends exactly when all squared distances of vertices are below the square of the tolerance |
| NelderMead.Shrink | rt_server/src/yf/src/bergomi_calib.rs:422-428 | All vertices but the best move half way towards it and are evaluated |
| NelderMead.ConvergedIff | rt_server/src/yf/src/bergomi_calib.rs:366-374 | Sorting does not matter for it: the search ends on a simplex if and only if that simplex is small |
| NelderMead.SortIndices | rt_server/src/yf/src/bergomi_calib.rs:366-368 | Every vertex once, in stable order by value |
| NelderMead.InsideIsOutsideIff | rt_server/src/yf/src/bergomi_calib.rs:406-417 | For any simplex and any bounds, exactly when both contractions try the same point, coordinate by coordinate |
| NelderMead.InsideContraction | rt_server/src/yf/src/bergomi_calib.rs:406-417 | With the centroid in the bounds: they do if and only if in every coordinate the reflection is not cut off, or only back to the centroid; and the inside contraction never moves from the centroid towards the worst vertex |
| NelderMead.CutOffContractionsDiffer | rt_server/src/yf/src/bergomi_calib.rs:406-417 | A reflection cut off by a bound for which the two points differ |
| NelderMead.CentroidInBounds | rt_server/src/yf/src/bergomi_calib.rs:439-450 | The centroid is in the bounds if the vertices are |
| NelderMead.Diameter | rt_server/src/yf/src/bergomi_calib.rs:452-463 | The largest distance of two vertices |
| NelderMead.Centroid | rt_server/src/yf/src/bergomi_calib.rs:439-450 | The mean of the points in each coordinate |
| NelderMead.Clamp | rt_server/src/yf/src/bergomi_calib.rs:481-492 | Clamping once more changes nothing; with ordered bounds the result is in them; a point in the bounds stays |
| NelderMead.SettledIff | rt_server/src/yf/src/bergomi_calib.rs:481-492 | What clamping settles on, also for a range given the wrong way round, which admits its second end only |
| BergomiCalibration.Calibrate | rt_server/src/yf/src/bergomi_calib.rs:153-198 | A non-empty list is rejected on its quotes if and only if some quote is bad, with the error of the first one; otherwise a complete search is made, a calibrated model is valid, clamped and no worse than any evaluated point, and it fails only if every evaluated point was penalised |
| BergomiCalibration.FirstErrorIffBadQuote | rt_server/src/yf/src/bergomi_calib.rs:160-173 | There is a first error if and only if some quote is bad |
| BergomiCalibration.FirstModels | rt_server/src/yf/src/bergomi_calib.rs:174-196 | The five models the search starts from, for bounds that admit them, and that all of them are valid |
| BergomiCalibration.ValidIff | rt_server/src/yf/src/bergomi_calib.rs:44-58 | Which models are valid, and which error the others report |
| BergomiCalibration.GoodQuoteIff | rt_server/src/yf/src/bergomi_calib.rs:160-173 | Which quotes are good, and which error the others report |
| BergomiCalibration.PerfectFitIff | rt_server/src/yf/src/bergomi_calib.rs:178-191 | The error of a fit is never negative, and zero if and only if every quote is matched |
| BergomiCalibration.ObjectiveClamps | rt_server/src/yf/src/bergomi_calib.rs:178-191 | Clamping the result does not change its objective, which is the squared pricing error of a valid model and the penalty otherwise |
| VolterraKernel.HybridKernel.constructor | rt_server/src/yf/src/bergomi_calib.rs:305-316 | The loop stores the weights that `VolterraKernel.WeightsAre` writes out |
| VolterraKernel.WeightsAre | rt_server/src/yf/src/bergomi_calib.rs:305-316 | Weight k is ((k dt)^hp - ((k - 1) dt)^hp) / hp |
| VolterraKernel.HybridKernel.BuildY | rt_server/src/yf/src/bergomi_calib.rs:318-333 | The nested loops stay in bounds and compute the convolution at every index |
| VolterraKernel.WeightsTelescope | rt_server/src/yf/src/bergomi_calib.rs:305-316 | The first m weights add up to ((m dt)^hp - 0^hp) / hp |
| VolterraKernel.ConstantDriver | rt_server/src/yf/src/bergomi_calib.rs:318-333 | Increments that are all c give c * ((i + 1) dt)^(h + 1/2) / (h + 1/2) |
| VolterraKernel.IntegralIff | rt_server/src/yf/src/bergomi_calib.rs:284-315 | Against a driver of rate c the code yields dt times the integral of the kernel; the two are equal if and only if dt is 1 or the driver is at rest |
| VolterraKernel.Causal | rt_server/src/yf/src/bergomi_calib.rs:318-333 | y[i] depends on increments 0..i only |
| VolterraKernel.ResponseLinear | rt_server/src/yf/src/bergomi_calib.rs:318-333 | The response is linear in the driver |
| VolterraKernel.ImpulseResponse | rt_server/src/yf/src/bergomi_calib.rs:318-333 | Increment j reaches y[i] with weight w[i + 1 - j], or not at all if it lies in the future |
| VolterraKernel.Stationary | rt_server/src/yf/src/bergomi_calib.rs:318-333 | Delaying the driver delays the response |
| WeightedSlope.ExpWeightedSlope | rt_server/src/trade_sender.rs:66-116 | There is no slope if and only if there are fewer than two observations or all lie within one second of the last; otherwise it is the weighted covariance over the weighted variance |
| WeightedSlope.LeastSquares | rt_server/src/trade_sender.rs:96-116 | No line has a smaller weighted squared error than the one with the computed slope, and only that line does as well |
| WeightedSlope.ErrorDecomposed | rt_server/src/trade_sender.rs:96-116 | The error of any line is that of the computed one plus a weighted square for each way to differ from it |
| WeightedSlope.ExactRecovery | rt_server/src/trade_sender.rs:96-116 | Observations on a line a + b * t give slope b |
| WeightedSlope.ConstantRate | rt_server/src/trade_sender.rs:66-116 | Samples whole seconds apart whose counts grow by b a second show the slope b |
| WeightedSlope.LaterWeighsMore | rt_server/src/trade_sender.rs:78-83 | A later sample never weighs less than an earlier one, for a decay that is not negative and an increasing exp, and the last one weighs exp(0) |
| WeightedSlope.NoSlopeIff | rt_server/src/trade_sender.rs:111-115 | There is no slope if and only if all times are equal |
| WeightedSlope.NoSlopeWithinASecond | rt_server/src/trade_sender.rs:78-83 | In terms of the buffer: if and only if each observation is less than a second away from the last |
| WeightedSlope.HalfASecondApart | rt_server/src/trade_sender.rs:78-83 | Two observations half a second apart have no slope |
| Controller.PruneOffsettingTrades | controller/controller2.py:107-128 | The in-place loop computes the pruned log |
| Controller.PruneComposes | controller/controller2.py:107-128 | prune(xs + ys) == prune(prune(xs) + ys) for all logs |
| Controller.PrunedHasNoDeletes | controller/controller2.py:107-128 | No deletion survives |
| Controller.SurvivingCreates | controller/controller2.py:107-128 | As many creations of an id survive as its running balance, clipped at zero, leaves open |
| Controller.OthersSurvive | controller/controller2.py:125-126 | Entries of any other direction all survive |
| Controller.PrunedValue | controller/controller_ao2.py:284-286 | Pruning changes the signed value of a log by exactly the deletions that found no open position |
| Controller.PruningPreservesValueIff | controller/controller2.py:107-128 | The value is preserved whatever the positions are worth if and only if no prefix deletes an id more often than it creates it |
| Controller.SingleDeletion | controller/controller2.py:119-124 | A single deletion of a position never created is pruned away together with its value; a single creation stays |
| Controller.AddValues | controller/controller2.py:145-162 | Adding a batch one value at a time gives the value before plus that of the batch, where no value yet counts as zero |
| Controller.NewMarket | controller/controller2.py:70-73 | A new market valued from the pruned log has the value of the whole log, if no prefix deletes too much, and no value yet if everything cancels |

## Left out

- Kafka, JSON decoding, HTTP, dashboards, logging and the reporter snapshots: input and output.
- Crashes, failed sends, task join errors and the four-second sleep in `ProcessorCurr`: mailboxes are reliable and first in, first out.
- The two pipelines of rt_server/src/main.rs side by side: they share one registry under the same processor names, so the claims that a market is still stored are for one pipeline.
- Changing metrics in the middle of a run: the handlers and `ChangeMetrics` are modelled, but the theorems about runs fix the metrics. The handler of `ProcessorMiddle` for new metrics is not modelled.
- The two unused handlers of `ProcessorNew` (`_behind_calculating_single`, `_bulkreceive_calculatingsingle`): they are never called.
- Trades that reach `ProcessorNew` before its first market: the code drops them, and the theorems start after that point.
- A trade that arrives again under the same id: runs deliver each id once.
- DeployedTheorems.DeployedExactlyOnce: claims nothing from the moment on at which the middle stage, finding its market dropped, falls back to the market of an answer; the single message is `MiddleChain.AnsweredWithoutMarket`. Curr may publish on an older market again after that.
- More than one middle stage inside the interleaved runs, which rt_server/src/main.rs never starts: a longer chain is treated as a function of a proposal.
- Whether `RegistryInterleaving` keeps a particular market while calls overlap: only the absence of leaks and the permanence of "future" are claimed there; presence is proved with atomic operations.
- Publishing: a publication is the whole portfolio; the loop that sends it metric by metric, leaving out a metric that is not held, is not modelled.
- The spawned tasks of the parallel strategy: they only compute results that are added up afterwards, in the order of the scan, as modelled.
- `SubAssign`, `MulAssign`, the ordering of portfolios, `PV01Results +=`, `PricingResults +=`, `needs_recompute`: unused here or not usable as written.
- Rounding, NaN and division by zero: reals. `LetfPricing.Quotient` is 0.0 for a zero divisor, and the theorems that depend on one exclude it.
- `hedge` reads trade ids as decimal numbers and stops the program on any other; here the numbering of ids is a parameter.
- Portfolios of a single metric are values inside the class `PmPortfolio`; aliasing between them is not modelled, since the source never shares them.
- The vertices of the optimiser are sequences in local variables, not a vector updated in place, and the objective is a function rather than a closure with a loop.
- The pricing of options by simulation, the neural network, SABR and the perpetual markets: numerical or library code. Perpetual swaps are priced and traded, but have no PV01 theorem.
- The threads and queues of the controller: only the trade log and the aggregation are modelled.
