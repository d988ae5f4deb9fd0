# Verification of a market-making back-tester

A Dafny 4.11 model of the parts of the repository whose correctness is an argument rather than a reading:
a lock-free ring, a trading account, the pre-trade gates with the order ledger and the reservations they
share, the measurements that resolve later than the fills they are about, a book codec, the queue-ahead
models and a WebSocket frame reader. `dafny verify dfyconfig.toml` checks everything.

Where the program works by changing things, so does the model: classes with the program's fields, loops
where it loops, each method tied to a function of the old state. The laws are then proved about those
functions over every input and every run, and each function is tied to the program's own figures: raw
quantities, prices, times and rows, without the values computed on the way. Prices, fees and money are exact reals; quantities are unbounded
integers; the ring's counters, the timestamps of the drawdown scan and the bytes of a frame are words of
their real width.

| files | models |
|---|---|
| `SpscProtocol`, `SpscRing`, `Words` | `src/concurrency/spsc_ring.h`: the two threads' micro-steps with stale acquire loads, and the class |
| `InstrumentSpec`, `Leg`, `Account`, `FillFigures`, `Portfolio`, `Sums`, `Reals` | `src/common/instrument_spec.h`, `src/accounting/portfolio.cpp` |
| `RiskPipeline`, `FillAccounting`, `OrderLedger`, `LedgerHistory`, `QueueProfile`, `CommissionHistogram`, `GateFlow`, `Pipeline` | the gates, the reservations, the ledger, and the two paths of `src/app/pipeline.cpp` that join them |
| `Deferred`, `RunSummary`, `RunAccounting`, `RunFigures`, `ParentOrder`, `ParentHistory`, `Performance` | `src/app/run_accounting.cpp`, `src/backtest/performance.cpp` |
| `BookDeltas`, `BookEncoder`, `BookDecoder`, `BookRoundTrip` | `tools/fetch_databento.py`, `tools/benchmark_l2_strategies.py` |
| `QueueModel`, `QueueFigures` | `src/exchange/queue_model.h` |
| `Framing` | `tools/venue_relay.py`, sections 5.2 and 5.3 of RFC 6455 |

## What the proofs found

- The comment at `src/app/risk_pipeline.h:23` says a refused order consumes nothing. The code takes the rate
  token before the exposure and position checks. An order is refused and charged exactly when it meets the
  guards of `WastesToken`, all of them known before the call (`RefusalSpendsToken`), and the next risk-adding
  order of that moment is then refused exactly when the bucket held fewer than two tokens
  (`RefusalStarvesNext`).
- The position gate bounds the position only while no cancelled or rejected remainder is given back.
  `OnlyReturnsBreach` gives the exact condition for one step to pass the limit, and `CancelsDefeatTheGate`
  reaches a position of any number of limits with cancels and fills alone.
- The release in `src/app/pipeline.cpp:69-72` does not look at the report's owner. For a report that is not
  ours the reservations stay exact if and only if it ends nothing, leaves nothing of what it ends, or finds
  nothing reserved on its side (`ForeignReportsKeepBacked`). The engine's reports of public orders meet this:
  such an order never rests, and the report that ends it leaves no remainder. The run laws cover them.
- A queue ahead is taken from the touch's display even for an order behind it
  (`src/exchange/matching_engine.cpp:374-392`). From a queue longer than the display that follows, the three
  queue models need not stay in their order; they do exactly when the queue is within it or at most one
  (`OrderHoldsExactly`).
- The lumpy queue model has the pro-rata mean (`src/exchange/queue_model.h:49-62`) only before the engine caps
  the removal at the queue: afterwards exactly when the reduction fits in the queue or there is none, and less
  otherwise (`CapKeepsMean`).
- The drawdown scan is the largest fall over all pairs exactly when no fall below zero is hidden by a later,
  higher peak (`ScanIsPairMaximum`), which no fall is on a curve without negative values.
- A zero in the queue-end fractions is documented to mean a fill (`src/app/run_summary.h:406-410`). An order
  that never traded leaves one as well exactly when it was not asked to cancel since it rested, or its queue
  had gone by then (`ZeroWithoutAFill`).
- The engine reports what a crossing order traded before it reports that the rest of it rests
  (`src/exchange/matching_engine.cpp:648-665`). The ledger counts each such Resting report as an invalid
  transition, and those are the only ones it counts (`OnlyLateRestsAreInvalid`).
- The two fee columns of a parent order add up to its fee term (`src/app/run_summary.h:275-279`) exactly when
  the fees of fills without a reported role cancel out (`FeeColumnsAddUp`).
- The ring's destructor compares wrapped words. It ends every object exactly when the consumer's word has not
  overtaken the producer's (`DestructorExact`); `DestructorLeaks` reaches the other case. The rounding loop of
  the constructor ends exactly for requests up to 2^63 (`RoundingEnds`).
- A stand-alone fee moves cash and realized result but not the stored equity, so between two marks the equity
  identity survives it only when it is zero (`EquityBetweenMarks`).
- The converter's mismatch check can fire: once for each kept row with a level whose size means zero but is
  not written "0" or left empty, and for no other (`Convert`). With sizes in digits those are the levels
  written as two or more zeros that no later level of their price replaces (`CheckFiresExactly`).
- The six size buckets determine a commission with a floor exactly for the schedules whose breakeven size is
  not inside a bucket (`HistogramDetermines`); the two that the code names are such schedules.
- The shortfall identity of a parent order needs the unfilled quantity to have been charged; without a price
  at the horizon it was not (`ShortfallIdentity` gives the exact condition).
- `read_frame` fails on a length cut short instead of reporting the connection closed, and takes a masked
  frame without payload for whole when its mask is missing (`CutFrame`); `CutStreamReads` says what is read of any
  stream cut at any byte.

## Model

| member | source | states |
|---|---|---|
| SpscProtocol.TestsAreExact | src/concurrency/spsc_ring.h:113-159 | the equality tests on wrapped words decide full and empty as the unbounded counts would, however stale the loaded index is |
| SpscProtocol.InvRun | src/concurrency/spsc_ring.h:110-164 | every step of either thread keeps the protocol's invariant, over every interleaving and every allowed stale load |
| SpscProtocol.ContentsAreTheUnpopped | src/concurrency/spsc_ring.h:110-164 | the slots hold exactly the pushed values that have not been popped, in order, and at most `capacity` of them |
| SpscProtocol.FirstInFirstOut | src/concurrency/spsc_ring.h:110-164 | in every interleaving the popped values followed by the slots' contents are the pushed values, and the producer's distance to the read index it last saw never exceeds the capacity |
| SpscProtocol.EveryStepSafe | src/concurrency/spsc_ring.h:110-164 | nothing is built on a live slot, moved from or destroyed in a dead or half-built one, the threads never touch one slot at once, and each uses a slot only after the index it acquired from the other thread covers it |
| SpscProtocol.DestructorExact | src/concurrency/spsc_ring.h:83-89 | after any run that leaves both threads idle, destruction ends every object exactly once if and only if the read word is not above the write word |
| SpscProtocol.DestructorBeforeWrap | src/concurrency/spsc_ring.h:83-89 | with fewer than 2^64 pushes the destructor is always right |
| SpscProtocol.DestructorLeaks | src/concurrency/spsc_ring.h:83-89 | a run that ends with a live object the destructor never visits |
| SpscProtocol.PushRun | src/concurrency/spsc_ring.h:153-164 | the five steps of a push with room append the value and change nothing else |
| SpscProtocol.PopRun | src/concurrency/spsc_ring.h:110-122 | the five steps of a pop take the oldest value, empty its slot and change nothing else |
| SpscRing.RoundingEnds | src/concurrency/spsc_ring.h:76-77 | the rounding loop reaches the request if and only if it is at most 2^63 |
| SpscRing.RoundUp | src/concurrency/spsc_ring.h:76-77 | the result is the least power of two that is not below the request |
| SpscRing.SpscRing.Make | src/concurrency/spsc_ring.h:71-81 | zero is refused; otherwise an empty ring of the least sufficient power of two |
| SpscRing.SpscRing.TryEmplace | src/concurrency/spsc_ring.h:153-164 | accepted exactly when there is room; the queue gains the value at its end or is unchanged; an accepted call is the protocol's push |
| SpscRing.SpscRing.TryPop | src/concurrency/spsc_ring.h:110-122 | the oldest value or nothing from an empty ring; a successful call is the protocol's pop |
| SpscRing.SpscRing.Destruct | src/concurrency/spsc_ring.h:85-89 | the loop ends all objects if and only if the words did not wrap between the sides |
| Words.AndMask | src/concurrency/spsc_ring.h:143-146 | masking with a power of two less one is the remainder by it |
| Words.ResidueInjective | src/concurrency/spsc_ring.h:143-146 | two indices less than a capacity apart are in different slots |
| InstrumentSpec.MinCommissionShortfall | src/common/instrument_spec.h:133-137 | what was charged and what is owed make the larger of the floor and the charge |
| InstrumentSpec.PriceQuotedValue | src/common/instrument_spec.h:66-76 | without a face value a holding is worth quantity times price times multiplier, whatever it was entered at |
| InstrumentSpec.ValueAdds | src/common/instrument_spec.h:70-76 | a holding's value is linear in its size |
| InstrumentSpec.UnitsTimesScale | src/common/instrument_spec.h:81-89 | units times the scale are the raw quantity, and without a scale they are it |
| InstrumentSpec.NotionalTimesScale | src/common/instrument_spec.h:61-89 | a fill is worth price times multiplier, or the face value, for each raw unit over the scale |
| InstrumentSpec.FixedFaceTimesEntry | src/common/instrument_spec.h:66-76 | a fixed face holding times its entry price is its face times quantity times price |
| Leg.SplitFill | src/accounting/portfolio.cpp:29-163 | one fill equals any two fills of its parts at its price with the fee in proportion, through opens, additions, closes and flips, for both contract kinds |
| Leg.FillKeepsInvested | src/accounting/portfolio.cpp:46-162 | a fill leaves cash less realized result plus entry value unchanged |
| Leg.FillEquity | src/accounting/portfolio.cpp:46-162 | marked at its own price a fill moves equity by its fee, and by the averaging term when it adds to a fixed-face position |
| Leg.AveragingTermSign | src/common/instrument_spec.h:66-76 | that term is never negative, and zero exactly when the addition is at the average price |
| Leg.FillKeepsFees | src/accounting/portfolio.cpp:75-97 | every fee is charged to a closed quantity or carried, and a flat position carries nothing |
| FillFigures.FromFlatPays | src/accounting/portfolio.cpp:102-132 | a buy or sell of q raw units from flat moves cash by price times multiplier times q over the scale, or face times q over the scale, and its fee |
| FillFigures.OpensFromFlat | src/accounting/portfolio.cpp:102-132 | from flat: quantity, entry price, clock, carried fee, result and cash in raw figures |
| FillFigures.AddsToHeld | src/accounting/portfolio.cpp:102-132 | an addition enters at the mean of the prices weighted by raw quantities, carries its fee with the others and keeps the clock |
| FillFigures.ClosesHeld | src/accounting/portfolio.cpp:54-83 | a close of q of h raw units settles at the price, or at face times price over entry, realizes the change since entry, and leaves (h - q) / h of the carried fees |
| FillFigures.TradeIsRecorded | src/accounting/portfolio.cpp:85-97 | the record of a close: quantity, prices, times, gain, and its parts of the fill's fee and of the carried fees |
| FillFigures.CashIsTraded | src/accounting/portfolio.cpp:21-163 | over any run at positive prices on a price-quoted instrument, cash is the initial cash less what each fill paid at its own price, less fees, plus flows |
| FillFigures.QuantityIsTraded | src/accounting/portfolio.cpp:99-162 | over any run the position and the traded quantity of a symbol are the signed and the plain sum of its executions |
| FillFigures.FeesAreCounted | src/accounting/portfolio.cpp:21-48 | over any run fees paid, and the fees and fills of each liquidity role, are those of the run's executions and charges |
| FillFigures.ValueIsMarked | src/accounting/portfolio.cpp:165-189 | a marked holding is worth its signed raw quantity at the price over the scale, or its face at price over entry, and cost the same at its entry |
| FillFigures.FlowIsCharged | src/accounting/portfolio.cpp:241-260 | an interval's flow is the rate on the signed value of the raw quantity at the mark |
| Account.CashConserved | src/accounting/portfolio.cpp:21-163 | over every run of fills, fees, funding and marks, cash is initial cash plus realized result less the signed entry value of what is held |
| Account.MarkedIdentity | src/accounting/portfolio.cpp:165-202 | after a mark equity is initial cash plus realized plus unrealized exactly when the unmarked holdings cost nothing in sum, as when every held symbol is marked |
| Account.EquityBetweenMarks | src/accounting/portfolio.cpp:21-27 | after any run a full mark establishes the identity, funding keeps it, and a stand-alone fee keeps it only if it is zero |
| Account.FillMovesEquity | src/accounting/portfolio.cpp:29-189 | marked at its own price any fill changes the whole account's equity by exactly its fee on a price-quoted instrument, and by the stated deviation as well on a fixed-face one |
| Account.RunIsPriced | src/accounting/portfolio.cpp:111-132 | with positive fill prices every held position has a positive average price |
| Account.SplitInvariant | src/accounting/portfolio.cpp:29-163 | applying a fill whole or in two parts leaves the same positions, cash, results and fee totals |
| Account.FeesConserved | src/accounting/portfolio.cpp:75-97 | with trade recording on, fees paid and realized result decompose into closed trades, carried entry fees, stand-alone charges and flows, over every run |
| Portfolio.Portfolio.Apply | src/accounting/portfolio.cpp:29-163 | the fields after a report are the account's step, for every report |
| Portfolio.Portfolio.SettleClose | src/accounting/portfolio.cpp:54-98 | cash, result, carried fees and the recorded trade of closing part of a position |
| Portfolio.Portfolio.SettleAndOpen | src/accounting/portfolio.cpp:100-162 | the fee, the closing part and the opening part together are the account's fill |
| Portfolio.Portfolio.MarkValues | src/accounting/portfolio.cpp:165-189 | the loop over a table in any order computes the sum of gains and cash plus the sum of values |
| Portfolio.Portfolio.MarkToMarket | src/accounting/portfolio.cpp:199-202 | unrealized result and equity become the marked ones and nothing else changes |
| Portfolio.Portfolio.EquityAtPrices | src/accounting/portfolio.cpp:191-197 | the marked equity, without changing the account |
| Portfolio.Portfolio.AccrueIntervalFlows | src/accounting/portfolio.cpp:262-279 | cash, realized result and equity all move by the summed flow of the held symbols that both tables name |
| Portfolio.Portfolio.ChargeFee | src/accounting/portfolio.cpp:21-27 | cash, realized result and fees paid move by the fee; equity does not |
| RiskPipeline.TokenBucketBound | src/app/risk_pipeline.cpp:125-155 | over any stretch of checks and any clock, n grants satisfy n (1 - 1e-12) <= burst + rate times the bucket clock's advance, tokens stay in range, and allowed risk-adding orders are at most the grants |
| RiskPipeline.AllowedInWindow | src/app/risk_pipeline.cpp:125-155 | in any stretch of a run whose clock reads between two times, whatever the bucket held, the allowed risk-adding orders n satisfy n (1 - 1e-12) <= burst + rate times the stretch |
| RiskPipeline.BurstIsGranted | src/app/risk_pipeline.cpp:134-149 | a fresh bucket refuses none of the first burst orders of one moment |
| RiskPipeline.TokenIsEarned | src/app/risk_pipeline.cpp:141-149 | a clock that has moved on by 1 / rate grants the next order |
| RiskPipeline.EmptyBucketWaits | src/app/risk_pipeline.cpp:141-149 | an empty bucket refuses if and only if elapsed time times rate and the slack stay below one |
| RiskPipeline.DecisionIs | src/app/risk_pipeline.cpp:48-188 | the decision by what each control looks at, cross-multiplied: the distance from the middle, the tokens available, the dollars and the position left |
| RiskPipeline.BucketIs | src/app/risk_pipeline.cpp:125-155 | tokens, clock and initialization of the bucket after any check |
| RiskPipeline.RefusalSpendsToken | src/app/risk_pipeline.cpp:48-56 | an order is refused and costs a token if and only if it meets the guards that can be read before the call: rate limit on, not tripped, near the market, adding risk, a token in the refilled bucket, and over the exposure cap or the position limit |
| RiskPipeline.RefusalStarvesNext | src/app/risk_pipeline.cpp:125-155 | after such a refusal the next risk-adding order of the same moment is refused for want of a token if and only if the bucket held fewer than two |
| RiskPipeline.OversizedOrderSpends | src/app/risk_pipeline.cpp:175-188 | an order larger than the limit into a flat account meets those guards in every fresh gate with both controls on |
| RiskPipeline.ReducingPasses | src/app/risk_pipeline.cpp:93-96 | a reducing order is refused by the switch and the band alone and never uses the bucket |
| RiskPipeline.PositionGate | src/app/risk_pipeline.cpp:175-188 | what passes ends within the limit or strictly closer to zero |
| RiskPipeline.OffIsTransparent | src/app/risk_pipeline.h:23-25 | with every control at zero everything passes and nothing is remembered |
| RiskPipeline.KillSwitchIsALatch | src/app/risk_pipeline.cpp:38-46 | over any run the switch has tripped exactly when some cycle reached the loss limit, holds the first such cycle's time, and then refuses everything |
| RiskPipeline.RefusalsAreCounted | src/app/risk_pipeline.cpp:98-188 | over any run each of the five counters grows by the orders refused for its reason |
| RiskPipeline.RiskPipeline.Check | src/app/risk_pipeline.cpp:48-56 | the decision and the whole new state, for every order, context and state |
| RiskPipeline.RiskPipeline.CheckRateLimit | src/app/risk_pipeline.cpp:125-155 | an order that adds risk refills the bucket and takes a token or is refused; any other leaves it alone |
| RiskPipeline.RiskPipeline.BeginCycle | src/app/risk_pipeline.cpp:38-46 | trips the switch once, with the cycle's time |
| RiskPipeline.RiskPipeline.SetOrderRateLimit | src/app/risk_pipeline.cpp:28-35 | a new rate asks for a full bucket, and a burst of zero means one |
| FillAccounting.FillMovesNet | src/app/fill_accounting.cpp:27-42 | a fill moves position plus reservations by exactly the part of it that was not reserved |
| FillAccounting.ReleaseUndoesReserve | src/app/fill_accounting.cpp:83-99 | releasing what was reserved restores the holdings, side named or not |
| FillAccounting.HoldingsAre | src/app/fill_accounting.cpp:27-42 | what a fill and an order do to position and reservations, side by side |
| FillAccounting.FiguresAre | src/app/fill_accounting.cpp:16-66 | edge, its ticks and dollars, and exposure in the source's figures |
| FillAccounting.ConditionIs | src/app/fill_accounting.cpp:68-74 | the condition from the side and the distance to the middle |
| FillAccounting.EdgeAndMarkoutAreDrift | src/app/fill_accounting.cpp:53-66 | captured edge plus markout is the middle's drift, whatever the fill price |
| FillAccounting.FillAccounting.Apply | src/app/fill_accounting.cpp:14-81 | position, reservations, notionals, exposure peak, edges, counters and the queued observation after a fill |
| FillAccounting.FillAccounting.ReleaseQuantity | src/app/fill_accounting.cpp:92-99 | a release saturates at what is reserved on the side it names |
| CommissionHistogram.BucketsAre | src/app/order_ledger.cpp:20-28 | the sizes of each of the six buckets |
| CommissionHistogram.HistogramDetermines | src/app/order_ledger.cpp:16-28 | equal histograms imply equal bills if and only if no bucket has the breakeven size strictly inside it |
| CommissionHistogram.HistogramGivesBill | src/app/order_ledger.cpp:16-28 | then the bill is read off bucket by bucket: by quantity above the floor, by count below |
| CommissionHistogram.CrookedIsAmbiguous | src/app/order_ledger.cpp:16-28 | otherwise two runs with one histogram and different bills |
| CommissionHistogram.KnownSchedules | src/app/order_ledger.cpp:16-19 | 0.35 at 0.0035 and 1.00 at 0.005 are determined; 0.35 at 0.005 is not |
| OrderLedger.EveryOrderIsAccounted | src/app/order_ledger.cpp:167-346 | audited is open plus filled plus cancelled plus rejected, cancelled splits by fill, the two lifetime totals agree, and no stored entry is terminal |
| LedgerHistory.CountsAreHistory | src/app/order_ledger.cpp:167-368 | over every run filled, rejected, cancelled before and after a trade, orphans, lifetimes, longest waits and first fill are those read off the opening, trade and ending events alone |
| LedgerHistory.EntryIsHistory | src/app/order_ledger.cpp:167-285 | an entry is there exactly while its order is open, with its opening cycle, and holds the sum of its trades |
| LedgerHistory.EndedSizesAreHistory | src/app/order_ledger.cpp:322-343 | the sizes that the floor and the histogram are about are the traded totals of the orders that ended |
| LedgerHistory.CommissionIsARate | src/app/order_ledger.cpp:273-285 | a commission is the rate for each unit of the scale |
| OrderLedger.OnlyLateRestsAreInvalid | src/app/order_ledger.cpp:137-196 | the invalid-transition count is the number of Resting reports for open orders past Pending |
| OrderLedger.FloorIsCollected | src/app/order_ledger.cpp:273-345 | commission plus shortfalls over ended filled orders is the sum of the larger of floor and commission, what is owed is what is counted, and the histogram is that of those orders |
| OrderLedger.BillIsInTheHistogram | src/app/order_ledger.cpp:322-343 | under a schedule with straight buckets that sum can be read off the reported histogram |
| OrderLedger.CancelIsRequestedOnce | src/app/order_ledger.cpp:198-212 | over every run a cancel request is new exactly when none was made since the order last ended |
| OrderLedger.OrderLedger.OnReport | src/app/order_ledger.cpp:243-368 | ledger, counts, queue profile and shortfall after any report, open or orphan |
| OrderLedger.OrderLedger.MarkResting | src/app/order_ledger.cpp:180-196 | an open order rests behind the queue it finds at its level, or the refusal is counted |
| OrderLedger.OrderLedger.BeginCancel | src/app/order_ledger.cpp:198-212 | true exactly when no request is pending for the order, which one then is; the queue still ahead of a resting order is read at that first request |
| OrderLedger.OrderLedger.SampleResting | src/app/order_ledger.cpp:214-224 | the loop over the table lowers the least queue of each resting order to the one now ahead of it, in whatever order it visits them |
| OrderLedger.OrderLedger.CloseAudit | src/app/order_ledger.cpp:287-345 | everything the end of an order adds to the counts and the queue profile, and what the floor still owes |
| QueueProfile.ProfileIsSound | src/app/order_ledger.cpp:180-368 | over every run there are two fractions for each profiled order, the nearest one lies between zero and one, and the orders counted at the front are its zeros |
| QueueProfile.LeastIsSeen | src/app/order_ledger.cpp:180-225 | over every run a resting order's entry holds the queue it joined at its level and the least of those seen ahead of it since, its own trades included |
| QueueProfile.FractionsAreAdded | src/app/order_ledger.cpp:312-321 | an order that leaves adds its least and its last queue as fractions of the one it joined |
| QueueProfile.FilledReachedTheFront | src/app/order_ledger.cpp:312-321 | an order that rested behind a queue and filled leaves a zero as its nearest fraction and is counted as having reached the front |
| QueueProfile.ZeroWithoutAFill | src/app/run_summary.h:406-410 | an order that never traded leaves a zero as its end fraction if and only if it was not asked to cancel since it rested or the queue was gone when it was |
| GateFlow.ReservationsAreExact | src/app/pipeline.cpp:401-457 | with the gate on, reservations equal the unfilled remainders of the working orders of each side, over every honest run |
| GateFlow.ReportKeepsBacked | src/app/pipeline.cpp:41-76 | for every report the venue may send, ours or of a public order, our executions and the released remainders never exceed what is reserved |
| GateFlow.ReportMovesNet | src/app/pipeline.cpp:41-76 | a report moves position plus reservations by exactly the remainder it gives back |
| GateFlow.OnlyReturnsBreach | src/app/pipeline.cpp:69-72 | a step leaves the limit if and only if it gives back a remainder that carries the net past it |
| GateFlow.WithinLimitWithoutReturns | src/app/risk_pipeline.cpp:175-188 | without such remainders the net stays within the limit, and so does the position once nothing works |
| GateFlow.CancelsDefeatTheGate | src/app/pipeline.cpp:69-72 | for every n an honest run ends with nothing working and a position of n limits |
| GateFlow.ForeignReportsKeepBacked | src/app/pipeline.cpp:69-72 | a report that is not ours and names no order of ours leaves the reservations exact if and only if it ends nothing, leaves no remainder, or nothing is reserved on its side; the engine's public reports change nothing |
| Pipeline.AuditsAreWorkingOrders | src/app/pipeline.cpp:401-465 | an audit is open exactly while the venue works the order |
| Pipeline.LedgerIsConsistent | src/app/pipeline.cpp:401-465 | the ledger's invariants hold of every run of the whole pipeline |
| Pipeline.FeesAgree | src/app/pipeline.cpp:459-465 | fees paid by the account are the fees of our fills plus the shortfalls the ledger counts |
| Pipeline.PositionsAgree | src/app/pipeline.cpp:41-66 | the position the gate limits is the account's position in the instrument |
| Pipeline.Pipeline.SubmitOrder | src/app/pipeline.cpp:401-457 | decision, reservation, audit and id of every submission, refused by the gate or by the venue or sent |
| Pipeline.Pipeline.HandleReport | src/app/pipeline.cpp:41-76 | reservations, ledger with its queue profile, and account after any report |
| Pipeline.Pipeline.HandleRejectedOrder | src/app/pipeline.cpp:78-100 | a refusal by the venue releases, closes the audit and charges nothing but what is owed |
| Deferred.ResolvedOnTime | src/app/run_accounting.cpp:293-308 | each entry is resolved once, at the first drain after it was queued whose cycle reaches the horizon past the largest start up to it, or still waits because none has come |
| Deferred.DrainsAreNaive | src/app/run_accounting.cpp:43-73 | what the drains resolve, in order, is what looking each entry up at its own drain gives |
| Deferred.OrderedStarts | src/app/run_accounting.cpp:47-49 | entries queued in cycle order wait for their own start alone |
| RunAccounting.RunAccounting.DrainMatureMarkouts | src/app/run_accounting.cpp:43-73 | the loop pops exactly the mature prefix and moves every figure by its contributions |
| RunAccounting.RunAccounting.DrainMaturePrints | src/app/run_accounting.cpp:75-91 | likewise for the market's prints, by condition |
| RunAccounting.RunAccounting.DrainTakerMeasurements | src/app/run_accounting.cpp:269-309 | likewise for the three drift queues and the opportunity cost |
| RunSummary.MarkoutIs | src/app/run_accounting.cpp:55-71 | a markout, its ticks and its dollars in the source's figures |
| RunFigures.DriftIs | src/app/run_accounting.cpp:284-290 | what one aggressive fill adds to its horizon's sums |
| RunFigures.OpportunityIsTheMove | src/app/run_accounting.cpp:301-308 | the signed cost of a missed quantity for a given move, and when it is zero |
| RunAccounting.RunAccounting.NoteAggressiveOrder | src/app/run_accounting.cpp:252-267 | the known figures at once, the unfilled remainder queued under its submission cycle |
| RunAccounting.RunAccounting.NoteTakerFill | src/app/run_accounting.cpp:239-250 | the counters and the weighted slippage sums are those of the fills so far, and the fill enters each of the three drift queues at its cycle |
| RunAccounting.ArrivalIsAMean | src/app/run_accounting.cpp:311-319 | the reported arrival slippages lie between the least and the greatest of the fills |
| RunAccounting.RunAccounting.NoteEquity | src/app/run_accounting.cpp:112-122 | an observation replaces the last of its bucket or starts the next |
| RunAccounting.MarkoutsAreNaive | src/app/run_accounting.cpp:43-73 | after any run each markout figure is the sum over fills of its contribution at the fill's own drain |
| RunAccounting.MarkoutsTrackRun | src/app/run_accounting.cpp:43-73 | each drain takes the totals of a run to those of the longer run |
| RunAccounting.ShortfallsTrackRun | src/app/run_accounting.cpp:293-308 | the opportunity cost after any run is the sum over orders at the drain each was due at |
| RunAccounting.ConditionsPartition | src/app/run_accounting.cpp:66-71 | the four conditions' ticks, quantities and counts add up to the totals |
| RunAccounting.CurveIsCloses | src/app/run_accounting.cpp:112-122 | the equity curve keeps an observation exactly when the next is in another bucket |
| RunAccounting.CurveIsOrdered | src/app/run_accounting.cpp:112-122 | on a clock that does not go back each bucket has one point and times go forward |
| ParentOrder.TwapBetweenMids | src/app/run_accounting.cpp:371-384 | the time-weighted middle lies between the least and the greatest middle used, whatever the clock does |
| ParentHistory.TwapIsTimeWeighted | src/app/run_accounting.cpp:371-432 | for any clock the benchmark times the time it covers is the sum over consecutive observations of the middle held times the time until the next, the last stretch at the closing middle |
| ParentHistory.FinishedCoversItsSpan | src/app/run_accounting.cpp:423-439 | on a clock that does not go back that time is the finish time less the decision time |
| ParentHistory.WindowIsHeld | src/app/run_accounting.cpp:348-439 | area, time, last observation, decision and span are those of the middles seen in the window |
| ParentHistory.FillsAreHistory | src/app/run_accounting.cpp:386-412 | quantity, units, prices, fees by role and children are the sums over the window's events in raw quantities |
| ParentHistory.MoveCostIs | src/app/run_accounting.cpp:413-421 | what a move away from the decision costs, for both contract kinds |
| ParentOrder.TwapIsPositive | src/app/run_accounting.cpp:486-490 | a started parent has a positive benchmark |
| ParentOrder.ShortfallIdentity | src/app/run_accounting.cpp:392-516 | arrival shortfall less benchmark shortfall is sign times multiplier times quantity times the middle's drift, exactly when the missing quantity was charged |
| ParentOrder.RunIsCosted | src/app/run_accounting.cpp:392-453 | the running sums are the signed cost of the fills against the decision price and of the missed quantity at the horizon |
| ParentOrder.ParentOrder.StartParent | src/app/run_accounting.cpp:348-369 | the first valid middle fixes the decision and its notional, and only once |
| ParentOrder.ParentOrder.ObserveParentMid | src/app/run_accounting.cpp:371-384 | the last middle is held until the next, and a clock that does not advance adds nothing |
| ParentOrder.ParentOrder.FinishParent | src/app/run_accounting.cpp:423-453 | closes the integral at the right endpoint and charges what never filled |
| ParentOrder.ParentOrder.NoteParentFill | src/app/run_accounting.cpp:392-421 | the sums after a fill; nothing outside the window |
| ParentOrder.ParentOrder.ParentSummary | src/app/run_accounting.cpp:455-517 | every figure of the report is the part or the basis points it stands for, and each column is the sum of its terms |
| ParentOrder.RolesSplitFees | src/app/run_accounting.cpp:392-421 | over every run fees are the maker's, the taker's and the unreported ones, and the resting units are among the filled |
| ParentOrder.FeeColumnsAddUp | src/app/run_summary.h:275-279 | the two fee columns add up to the fee term if and only if the unreported fees cancel out, and the maker share is between zero and one |
| Performance.MaxDrawdown | src/backtest/performance.cpp:43-56 | the scan finds the deepest fall from the running peak |
| Performance.DrawdownIsPairMaximum | src/backtest/performance.cpp:43-56 | on a curve that is never negative that is the maximum of (E_i - E_j)/E_i over i <= j |
| Performance.ScanIsPairMaximum | src/backtest/performance.cpp:43-56 | on any curve the scan bounds every pair if and only if each fall below zero has a negative value at least as deep under its own running peak, and with a positive value it is some pair's fall |
| Performance.MaxDrawdownDuration | src/backtest/performance.cpp:121-150 | for timestamps in order, the longest spell from a running maximum with everything between strictly below it |
| Performance.HigherPeakHides | src/backtest/performance.cpp:43-56 | every curve that rises to a higher peak and then falls below zero is one where it does not |
| QueueFigures.AdvanceIs | src/exchange/queue_model.h:44-73 | of a fall nothing, all, or the floor of queue times fall over what was displayed leaves from ahead |
| QueueFigures.QueueFalls | src/exchange/matching_engine.cpp:278-304 | a fall takes that out of the queue, and no more than there is |
| QueueFigures.LumpyIsNearest | src/exchange/queue_model.h:66-69 | a rounded draw is the whole number nearest to reduction times draws over chunks, the upper one of two |
| QueueFigures.ShareIs | src/exchange/queue_model.h:63-64 | the share times what was displayed is the smaller of it and the queue |
| QueueModel.QueuesStayBracketed | src/exchange/queue_model.h:44-73 | for any displayed sizes the pro-rata queue stays within the display and the three readings stay ordered |
| QueueModel.OrderHoldsExactly | src/exchange/queue_model.h:44-73 | from a given queue and first display the order holds for all later displays if and only if the queue is within that display or at most one, and the pro-rata queue stays within the display if and only if it starts there |
| QueueModel.LumpyMeanAndVariance | src/exchange/queue_model.h:49-69 | for every chunk count, queue and previous display, with share the smaller of one and their quotient, the mean removal is reduction times share and the variance reduction^2 share (1 - share) / chunks |
| QueueModel.CapKeepsMean | src/exchange/matching_engine.cpp:296-299 | after the cap at the queue the mean is still reduction times share if and only if the reduction fits in the queue or there is none, and never more |
| QueueModel.LumpyInRange | src/exchange/queue_model.h:66-69 | every rounded draw is between zero and the reduction |
| BookEncoder.Convert | tools/fetch_databento.py:145-236 | one segment of changes for each kept row, each what that row must write, and a mismatch counted exactly for rows with a level of disguised zero size |
| BookEncoder.BlockIsLastLevels | tools/fetch_databento.py:129-142 | a side's table names a price if and only if some level of it is not left out, with the size of the last such level |
| BookEncoder.RowsAreWritten | tools/fetch_databento.py:203-228 | what is written for a kept row, said of its levels and the previous row's: times, snapshot flag, new sizes, and just the prices whose size changed or all |
| BookEncoder.KeptJoins | tools/fetch_databento.py:159-186 | what is kept of two stretches of rows is what is kept of each, in order |
| BookEncoder.KeptOne | tools/fetch_databento.py:159-186 | one row is kept if and only if it is whole and, if a trade, names an aggressor |
| BookEncoder.EncodeSide | tools/fetch_databento.py:209-228 | one side's rows, best price first: exactly the changed levels, or all of them in a snapshot, and the rebuilt book is the vendor's |
| BookEncoder.RowRebuilds | tools/fetch_databento.py:209-232 | a row applied to any part of the old book leaves part of the vendor's, and all of it from the whole or in a snapshot |
| BookEncoder.CheckCanFire | tools/fetch_databento.py:129-142 | a size written "00" makes the rebuilt book differ from the vendor's |
| BookEncoder.CheckFiresExactly | tools/fetch_databento.py:129-142 | for sizes in digits a row is a mismatch if and only if it has a level of zeros alone, not written "0", that no later level of its price replaces |
| BookDecoder.Decoder.Reconstruct | tools/benchmark_l2_strategies.py:149-208 | reading row by row emits exactly the maximal batches of one local time, in order |
| BookDecoder.Decoder.Emit | tools/benchmark_l2_strategies.py:162-194 | the books, the flags and the recorded view after one batch |
| BookDecoder.Top | tools/benchmark_l2_strategies.py:183-184 | the best levels in order |
| BookDecoder.TopIsBestOf | tools/benchmark_l2_strategies.py:183-184 | the levels kept are strictly ordered, carry the book's sizes, and none is left out before a worse one |
| BookDecoder.ViewIsTaken | tools/benchmark_l2_strategies.py:181-194 | a batch is recorded, with its last time and best levels, if and only if a snapshot was seen, both sides hold something and every bid is below every ask |
| BookDecoder.BatchesJoin | tools/benchmark_l2_strategies.py:198-205 | rows of one time join the open batch or become the next |
| BookRoundTrip.EveryBatchIsAVendorBook | tools/benchmark_l2_strategies.py:162-205 | after every batch the decoder holds exactly the last size of each price of the levels of the batch's last row that wrote anything, the batch ends with that row's times, and decoding has started if the first book was not empty |
| BookRoundTrip.PrefixRebuilds | tools/fetch_databento.py:159-232 | stopping the file after any kept row the decoder holds that row's book |
| BookRoundTrip.RowsStayInStep | tools/benchmark_l2_strategies.py:166-179 | the open batch takes the last full book to the current one, and an empty book to part of it, or all once a snapshot is in it |
| BookRoundTrip.BatchesEndWithRows | tools/fetch_databento.py:219-222 | every batch ends at the end of a kept row |
| BookRoundTrip.DecoderIsText | tools/benchmark_l2_strategies.py:172-179 | with one text for each price, keying by value is keying by text |
| Framing.FrameReads | tools/venue_relay.py:71-134 | reading an encoded frame gives opcode and payload back and leaves the rest, masked or not, for every length |
| Framing.StreamReads | tools/venue_relay.py:71-134 | any frames one after another are read back in order |
| Framing.CutFrame | tools/venue_relay.py:115-134 | what is read of a frame cut at any byte |
| Framing.CutStreamReads | tools/venue_relay.py:115-134 | a stream cut at any byte gives the frames that end by it, in order, and then the outcome of the frame it cuts |
| Framing.LengthIsMinimal | tools/venue_relay.py:71-84 | the length is written in the shortest form that can carry it |
| Framing.HeaderIs | tools/venue_relay.py:71-99 | every header byte: flag and opcode, mask flag and length or its mark, and the length in network order |
| Framing.ByteOf | tools/venue_relay.py:79-82 | the i-th byte of a length is its digit of that place to the base 256 |
| Framing.MaskedAt | tools/venue_relay.py:102 | byte i is the data's byte exclusive-or the mask's byte i mod 4, digit by digit |
| Framing.MaskedTwice | tools/venue_relay.py:87-102 | masking twice is the identity |
| Framing.EncodeFrame | tools/venue_relay.py:71-84 | the bytes of an unmasked frame |
| Framing.SendMasked | tools/venue_relay.py:87-102 | the bytes of a masked frame, for whatever mask was drawn |
| Framing.Socket.RecvExact | tools/venue_relay.py:105-112 | the next `count` bytes however the socket cuts them, or nothing and an exhausted connection |
| Framing.Socket.ReadFrame | tools/venue_relay.py:115-134 | the outcome and the bytes consumed depend on the bytes alone |
| Framing.ReadFrames | tools/venue_relay.py:115-134 | reading until the end gives the stream's outcomes |

## Left out

- Rounding of IEEE doubles, and 64-bit overflow outside the ring, the drawdown scan and the frame lengths.
- Memory orderings other than through stale index loads: slot contents are sequentially consistent in the ring's model. That every use of a slot follows an acquired index that covers it is proved (EveryStepSafe); that this orders the memory is the language's promise.
- SpscRing.SpscRing.TryEmplace: the class runs each call while the other side is idle; the interleavings are those of SpscProtocol.
- SpscRing.RoundUp: requests above 2^63 are excluded because the loop does not end for them, which RoundingEnds states.
- Leg.FillEquity: fill prices are positive; a non-positive entry makes the code's position value zero.
- ParentOrder.ShortfallIdentity: fills are on the parent's side and the instrument is price-quoted; the dollars are stated rather than the basis points, which ParentSummary ties to them.
- BookRoundTrip.EveryBatchIsAVendorBook: each price has one text, as the converter keys its books by text and the decoder by value.
- GateFlow.ReservationsAreExact: orders name a side, our reports carry what is left of the order, and those of public orders name none of ours and end without a remainder; the matching engine that honours this is not modelled.
- Pipeline.Pipeline.SubmitOrder: the metrics record, the quote observation, the parent's count of child orders and the written order row are not stepped.
- Pipeline.Pipeline.HandleRejectedOrder: the metrics record of the refused order and the strategy's callback are not stepped.
- Pipeline.Pipeline.HandleReport: the parent order's fills, the taker measurements and the metrics record they need, the queue trace and the strategy's callbacks are stepped in the code but not by this class; ParentOrder and RunAccounting model the measurements on their own.
- OrderLedger.OrderLedger.MarkResting: levels are compared by their price rather than by its tick, and the percentiles of the profile are not computed.
- QueueProfile.FilledReachedTheFront: trades of open orders are reported as ours, as they are of every order the pipeline sends.
- QueueModel.LumpyRemoval: the generator's draw is a parameter, and its distribution enters only the moments, which are taken before rounding to whole units.
- BookEncoder.Convert: the trades file, the aggressor statistics and the counters other than the mismatches.
- BookDecoder.Decoder.Emit: amounts are integers already; the parse and rounding of the amount text are left out.
- Framing.EncodeFrame: opcodes are the four bits of the header and payloads are shorter than 2^64 bytes.
- Funding series, the exposure report, round-trip statistics, Sharpe, Sortino, volatility and annualised figures: plain formulas or state of other files.
- Files, CSV, gzip, TLS, handshakes, threads other than the ring's two, configuration and printing.
- slice_csv: it is not claimed that a slice preserves the book.
