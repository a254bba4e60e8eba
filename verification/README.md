# A verified model of the trading system's deterministic core

This project models seven parts of the trading system in Dafny and proves what they promise over all inputs and all
runs.

- **FIX 4.4 wire layer** (`FixMessage`, `FixFraming`, `FixConnector`, with `Text`). Printing and parsing a message,
  cutting messages out of a byte stream that arrives in arbitrary chunks, and the session's sequence numbers. The
  frame rules are those of the FIX 4.4 Specification, Volume 2, Standard Message Header and Trailer, BodyLength(9) and
  CheckSum(10). The end-to-end law is an if-and-only-if: a run of sent messages arrives exactly when no body value
  holds the delimiter or `10=` and no body tag ends in 10.
- **Market-by-order book** (`OrderBookSpec`, `OrderBook`). Shared order objects, two price maps, queues, cached totals
  and an id index, refined to a plain list of live orders. A repeated id, or a cancel of a level whose total is not
  positive, breaks the agreement; both are shown to break it exactly.
- **Slicing engine** (`VolumeCurve`, `AlgoExecution`, `AlgoEngine`). The volume curve and its inversion, the four send
  rules, fills, the schedule, and what the children of one parent add up to.
- **Rings and codecs** (`BitMask`, `DisruptorModel`, `Disruptor`, `Bytes`, `SbeCodec`, `KernelBypass`). Interleaved
  producers and a consumer over a ring that nothing gates, a byte-level ring, and two binary layouts.
- **Risk and regression** (`EnterpriseRisk`, `Statistics`). Tail risk over scenarios, least squares, and the scalar
  Kalman filter.
- **Halt authority and risk gate** (`SessionStateMachine`, `SupervisorModel`, `Supervisor`, `Tera`, with `Windows`).
  Two parallel state variables, a store, timers and crashes at any await; and a ten-rule gate with a sliding window.
- **Stops and clock** (`Monitoring`, `GlobalClock`). Ratcheting stops under interleaved evaluation, session boundaries
  and repeating timers.

Floats are reals. Clocks, ticks, random draws and account figures are inputs. Where the code runs under `asyncio`, a
step is the code between two awaits, and the steps of each model may interleave in any order; where a whole handler is
one step, "Left out" says so. Objects that the source updates in place are classes whose methods are proved equal to a
function of their old state; the theorems are about those functions. Real arithmetic that several models share is in
`Reals`.

## Where the code does not do what one might expect

Each of these is a lemma with a concrete input or an exact condition.

- A value holding `10=` cuts its message in two (`FixConnector.StrayTagCutsMessage`, `FixConnector.EndToEnd`).
- A fill that lags makes the last slice too big (`AlgoExecution.LaggingFillsOversize`, exact in `ExactTotalIff`).
- An IS order of full urgency waits half way through its window, and one of no urgency sends at every request, though
  the documentation front-loads the urgent one (`AlgoExecution.UrgencyHoldsBack`, `UrgentWaits`).
- A consumer whose message was overwritten, or whose cursor has passed an unwritten one, looks again without an await:
  no other task of its event loop runs from then on (`DisruptorModel.FreezesIff`).
- A producer may write over a message the consumer has not read: `DisruptorModel.NothingLost` says exactly when
  everything is delivered, and `DisruptorModel.LappingWriteLoses` that one lapping write loses for good.
- The ring's cursor can move backwards when two producers publish out of order (`DisruptorModel.CursorCanRegress`), if
  taking a free lock suspends; with CPython's `asyncio.Lock` it does not.
- VaR is not subadditive at the engine's own settings; exactly when it is, is `EnterpriseRisk.VarDiversifiesIff`.
- An anomaly hold placed while the system is not halted survives every approved resume
  (`SupervisorModel.HoldNeedsHalt`); the module text says a hold "requires explicit clearance" and the code offers
  none.
- A restart during a pause leaves the system paused for good, with trading allowed and circuit breakers inert
  (`SupervisorModel.RestartFreezesPause`, `RestartForgetsPause`).
- Timers of an earlier pause end a later one early (`SupervisorModel.StaleTimersEndAPause`), and so does a later,
  shorter pause once a halt and its resume have made room for it (`ShorterPauseReplaces`); exact in `PauseLastsIff`.
- The supervisor hears its own daily figures: each adds the day's result to equity again
  (`Supervisor.EchoCountsTwice`), which can halt a healthy account (`EchoHaltsWrongly`, exact in `MisjudgedIff`).
  Heard late, or while a trade's checks wait for the store, they lose a trade from the day's result
  (`ResultCanLoseATrade`, `SaveCanLoseATrade`, exact in `OrderKeepsResultIff`).
- The gate's consecutive-loss cooldown never expires into trading again by itself (`Tera.ThresholdLocksOut`).
- A stop on the winning side of entry is loosened to breakeven (`Monitoring.TightensIff`).
- The monitor hears its own position updates. What it settles on only tightens exactly when no update is published
  from an object that lacks the flip or the trailing stop of the last one (`Monitoring.DrainedTightensIff`); otherwise
  a flip or a locked profit can be lost for good (`FlipCanBeUndone`, `LockCanBeLost`).
- An exited position that is still stored can be monitored, exited and flipped again (`Monitoring.ExitAgainIff`,
  `RefillFlipsAgain`).
- Without overnight ticks a session does not start the next day, or ends days late (`GlobalClock.StartIff`,
  `GlobalClock.EndsOnItsDayIff`, `GlobalClock.EndCanComeLate`).
- A timer registered while a one-shot timer of its name is being published is deleted with that one, and a timer
  cancelled during a tick may still fire (`GlobalClock.RegistrationSurvivesIff`,
  `GlobalClock.CancelledStillFiresIff`).

## Model

| member | source | states |
|---|---|---|
| FixMessage.RoundTrip | infrastructure/fix_connector.py:52-97 | decoding an encoded message gives its type and every field in wire order if and only if no body value contains SOH |
| FixMessage.HeaderReads | infrastructure/fix_connector.py:52-97 | the other end reads tag 49 as the sender, 56 as the target, 34 as the sequence number and 52 as the clock text |
| FixMessage.EncodeIsValidFrame | infrastructure/fix_connector.py:74-82 | every encoded message declares the length of its body and the sum of its bytes modulo 256, as BodyLength(9) and CheckSum(10) require |
| FixMessage.ApplicationFields | infrastructure/fix_connector.py:64-72 | the fields outside the session's own tags are on the wire exactly as the application set them, in order |
| FixMessage.CollectNoSoh | infrastructure/fix_connector.py:85-97 | no value the parser stores contains SOH, whatever the input |
| FixMessage.DecodeMeans | infrastructure/fix_connector.py:84-97 | in any bytes a tag has the value of the last part that reads as a field of it; parts that read as none are passed over |
| FixMessage.SplitJoins | infrastructure/fix_connector.py:87 | the parts joined with the delimiter are the text again |
| Text.ParseIntIff | infrastructure/fix_connector.py:88-93 | a tag is an integer exactly when it is a numeral, optionally signed, between blanks |
| FixFraming.FrameEndIff | infrastructure/fix_connector.py:219-224 | the scanner stops at the end of the shortest complete prefix, and fails only when no prefix is complete |
| FixFraming.FrameEndStable | infrastructure/fix_connector.py:219-224 | bytes that arrive later never move the end of a frame already complete |
| FixFraming.ChunkIndependence | infrastructure/fix_connector.py:212-225 | for every stream and every chunking, the loop yields the frames and residue of one pass over the whole stream |
| FixFraming.DrainIsTheCutting | infrastructure/fix_connector.py:219-225 | the frames and residue are the unique cutting of the buffer into minimal frames and a frameless rest |
| FixFraming.DrainMessage | infrastructure/fix_connector.py:218-225 | a message ending in a trailer leaves no residue, and is one frame exactly when no earlier `10=` occurs |
| FixFraming.DrainStream | infrastructure/fix_connector.py:218-225 | a stream of messages is cut into as many frames as messages if and only if every message is clean, and then into the messages |
| FixConnector.Connector.Send | infrastructure/fix_connector.py:202-208 | a send appends one message to the socket and uses one sequence number, or fails and uses none |
| FixConnector.Connector.Dispatch | infrastructure/fix_connector.py:236-263 | a dispatch counts the message, hands execution reports and the two market data types to their callbacks and no others, and moves the session state |
| FixConnector.LogonsDecide | infrastructure/fix_connector.py:240-249 | over any run of messages the session is active exactly after a logon with no logout behind it, disconnected the other way round, and else unmoved |
| FixConnector.Connector.DispatchComplete | infrastructure/fix_connector.py:219-225 | the inner loop dispatches exactly the frames of the buffer, decoded, and keeps the residue |
| FixConnector.Connector.ReadLoop | infrastructure/fix_connector.py:210-234 | one connection dispatches exactly the decoded frames of everything read before the first empty read |
| FixConnector.RecoverableIff | infrastructure/fix_connector.py:52-97 | a message meets the recovery condition if and only if its wire form is one frame and decodes to what was sent |
| FixConnector.EndToEnd | infrastructure/fix_connector.py:202-225 | through any chunking, everything sent arrives in order if and only if every sent message is recoverable |
| FixConnector.ApplicationSees | infrastructure/fix_connector.py:65-72 | what arrives has the sent type, every application field with its value and no other, the two ends in tags 49 and 56, sequence numbers 1, 2, 3 and so on, and the time of its send |
| FixConnector.StrayTagCutsMessage | infrastructure/fix_connector.py:218-223 | a body field whose value holds `10=` or whose tag ends in 10 makes at least two frames of its message |
| OrderBookSpec.DepthIsUnique | data/mbo_orderbook.py:119-126 | the live orders determine the depth: one group per price, strict price order, arrival order within, totals and ids |
| OrderBookSpec.BestPricesUnique | data/mbo_orderbook.py:107-124 | one list of prices only is the best n: strictly best first, as many as there are, and nothing left out better than anything listed |
| OrderBookSpec.RunKeepsPositive | data/mbo_orderbook.py:62-102 | allowed runs keep ids unique and quantities positive |
| OrderBook.Book.AddOrder | data/mbo_orderbook.py:62-70 | an add appends to the live orders, and the structures agree afterwards if and only if the id was fresh |
| OrderBook.Book.ModifyOrder | data/mbo_orderbook.py:72-78 | a modify changes one live quantity and nothing else; an unknown id changes nothing |
| OrderBook.Book.CancelOrder | data/mbo_orderbook.py:80-102 | a cancel removes that order only, and the structures agree afterwards exactly when no other live order's level is dropped with it |
| OrderBook.Book.CancelAllowed | data/mbo_orderbook.py:98-99 | while quantities are positive any cancel is safe |
| OrderBook.AddDuplicate | data/mbo_orderbook.py:63-66 | an id in use leaves the old order queued but not indexed |
| OrderBook.CancelBroken | data/mbo_orderbook.py:97-99 | when the remaining total is not positive but orders remain, the level disappears under them |
| OrderBook.AllLevels | data/mbo_orderbook.py:119-126 | the levels in key order are the group-by of the live orders, best price first |
| OrderBook.Book.GetSnapshot | data/mbo_orderbook.py:104-117 | each side lists the best n distinct live prices, strictly best first, with the live quantity at each; negative n included |
| OrderBook.Book.GetMboDepth | data/mbo_orderbook.py:119-126 | the best n live prices with their live quantity and the ids of their orders in arrival order |
| OrderBook.Book.TotalDepth | data/mbo_orderbook.py:179-189 | the live quantity at the best n prices, counted order by order |
| OrderBook.Book.DetectSpoofing | data/mbo_orderbook.py:128-150 | pruning touches one venue, and the grade is that of the add and cancel counts left |
| OrderBook.GradeIff | data/mbo_orderbook.py:135-150 | each grade is decided by comparing cancels with whole percents of adds: 95, 80, 60 and 40 |
| OrderBook.DropOldIsWindow | data/mbo_orderbook.py:130-134 | pruning from the front leaves the window exactly when no old event stands behind a newer one |
| OrderBook.Book.Replay | data/mbo_orderbook.py:62-102 | any allowed run of adds, modifies and cancels keeps the book equal to the plain list of live orders |
| VolumeCurve.TotalIsSum | agents/agent_24_algo_execution.py:58-75 | the constant the profile is divided by is the sum of its 78 entries |
| VolumeCurve.CurveRises | agents/agent_24_algo_execution.py:95-106 | across bucket boundaries the curve rises, by at most 0.025 a bucket |
| VolumeCurve.FractionMonotone | agents/agent_24_algo_execution.py:85-106 | the fraction runs from 0 to 1, never falls and never rises faster than twice the time |
| VolumeCurve.BisectBrackets | agents/agent_24_algo_execution.py:446-451 | each halving keeps the target between the fractions at both ends |
| VolumeCurve.BisectMonotone | agents/agent_24_algo_execution.py:446-451 | a larger target is never placed earlier |
| VolumeCurve.BisectionInverts | agents/agent_24_algo_execution.py:445-451 | after 32 steps the bracket is 2^-32 wide and the fraction misses its target by at most 2^-31 |
| AlgoExecution.AccountingHolds | agents/agent_24_algo_execution.py:258-298 | over any run of requests and fills, slices are numbered without gaps up to the plan, each child is the smaller of child size and unfilled quantity, and average price times filled quantity is the value of all fills |
| AlgoExecution.CompletedIff | agents/agent_24_algo_execution.py:262-298 | in every run the order is complete exactly when the fills reach it or its last slice is out |
| AlgoExecution.ChildrenAreRequests | agents/agent_24_algo_execution.py:270-285 | every child carries the price and time of one request of the run |
| AlgoExecution.OvershootBounded | agents/agent_24_algo_execution.py:262-298 | children add up to less than the order plus one child, however fills come in |
| AlgoExecution.ExactTotalIff | agents/agent_24_algo_execution.py:270-298 | when the last slice is out, children add up to the order exactly if it is a whole number of slices or all before the last had filled |
| AlgoExecution.PromptFillsAreExact | agents/agent_24_algo_execution.py:270-298 | with every child filled before the next request the children add up to exactly the order |
| AlgoExecution.LaggingFillsOversize | agents/agent_24_algo_execution.py:270-272 | 150 shares in slices of 100 with no fill in between become 200 |
| AlgoExecution.PacingHolds | agents/agent_24_algo_execution.py:327-353 | with times that do not go back VWAP is less than one child ahead of its target, TWAP at most one slice ahead of its clock |
| AlgoExecution.TwapSendsIff | agents/agent_24_algo_execution.py:327-339 | TWAP sends slice k exactly when k durations fit into the elapsed time times the number of slices, and the first one less than one interval early |
| AlgoExecution.VwapSendsIff | agents/agent_24_algo_execution.py:318-353 | at elapsed fraction f VWAP sends exactly while the sent slices fall short of the curve at f and something is unfilled; nothing before the start |
| AlgoExecution.ParticipationBounded | agents/agent_24_algo_execution.py:357-363 | over any run the children of a POV order are at most its rate of the market volume shown |
| AlgoExecution.UrgencyHoldsBack | agents/agent_24_algo_execution.py:367-386 | whenever an IS order sends, the same order with less urgency would, and one with none sends at every request: the reverse of the documented front-loading |
| AlgoExecution.UrgentWaits | agents/agent_24_algo_execution.py:367-386 | half way through its window an IS order sends exactly if exp(-2.5 urgency) exceeds a quarter, so never at full urgency |
| AlgoExecution.SendsAtEnd | agents/agent_24_algo_execution.py:318-386 | past the end of the window TWAP, VWAP and IS send whenever something is left, and POV does when the volume covers a child |
| AlgoExecution.EndCompletes | agents/agent_24_algo_execution.py:258-298 | past the end, or with the volume a POV order needs, at most as many requests as slices are left complete the order |
| AlgoEngine.ParentOrder.Submit | agents/agent_24_algo_execution.py:195-212 | a submission activates the order, starts its clock if unset and clears its children |
| AlgoEngine.ParentOrder.Cancel | agents/agent_24_algo_execution.py:214-228 | a cancel succeeds exactly when the order is neither complete nor cancelled |
| AlgoEngine.ParentOrder.NextChildOrder | agents/agent_24_algo_execution.py:230-298 | one request is the step that the accounting, pacing and completion results reason about, children included |
| AlgoEngine.ParentOrder.BookFill | agents/agent_24_algo_execution.py:390-403 | one fill is the step that keeps average price times filled quantity equal to the value of all fills |
| AlgoEngine.ParentOrder.InvertCurve | agents/agent_24_algo_execution.py:444-451 | the halving loop ends at the time BisectionInverts is about |
| AlgoEngine.ParentOrder.GetSchedule | agents/agent_24_algo_execution.py:426-460 | the loop builds the schedule whose quantities, times and curve the schedule results are about |
| AlgoEngine.ScheduleCovers | agents/agent_24_algo_execution.py:438-440 | planned quantities lie in 1 to child size and add up to exactly the order |
| AlgoEngine.ScheduleTimes | agents/agent_24_algo_execution.py:441-455 | planned times never go back and lie within the window, rounding included |
| AlgoEngine.RoundIff | agents/agent_24_algo_execution.py:452-455 | rounding gives the nearest whole number, and the even one of two as near |
| AlgoEngine.ScheduleFollowsCurve | agents/agent_24_algo_execution.py:441-452 | at its time before rounding a VWAP slice finds the curve within 2^-31 below its share |
| AlgoEngine.VwapTimesMean | agents/agent_24_algo_execution.py:441-452 | the printed time of a VWAP slice is within half a hundredth of a minute of one at which the curve is 2^-31 short of its share |
| AlgoEngine.EvenTimesMean | agents/agent_24_algo_execution.py:453-455 | any other slice is printed within that of its even share of the window, the last one at its end |
| BitMask.SizeTestIff | infrastructure/disruptor.py:70 | the constructor's test accepts exactly 0 and the powers of two |
| BitMask.MaskIsMod | infrastructure/disruptor.py:91-93 | masking is the remainder modulo the size |
| DisruptorModel.DeliveryInOrder | infrastructure/disruptor.py:120-163 | under every interleaving the handler has been given the claimed messages in claim order, no gap and no duplicate, each with its own text and the time of its own write |
| DisruptorModel.LappingWriteLoses | infrastructure/disruptor.py:77-89 | after a write at least a ring ahead of the consumer, no continuation ever delivers the message it wrote |
| DisruptorModel.LostForever | infrastructure/disruptor.py:124-132 | once the awaited slot is overwritten nothing is delivered again |
| DisruptorModel.FreezesIff | infrastructure/disruptor.py:123-130 | the consumer neither hands out nor yields exactly when the cursor has reached the awaited number and its message is overwritten or unwritten, and further looks change nothing |
| DisruptorModel.IntactRun | infrastructure/disruptor.py:77-97 | while no write laps the consumer nothing undelivered is overwritten, however far ahead producers claim and spin |
| DisruptorModel.DrainDelivers | infrastructure/disruptor.py:120-132 | the consumer alone delivers exactly up to the cursor when nothing is overwritten |
| DisruptorModel.NothingLost | infrastructure/disruptor.py:77-163 | with all producers done, the consumer delivers every claimed message if and only if no write lapped it and the cursor ended on the last claim; what it delivers are the claimed messages in order |
| DisruptorModel.LapHappens | infrastructure/disruptor.py:154-163 | two publishes in a row on a ring of one lap the consumer and lose the first message |
| DisruptorModel.CursorCanRegress | infrastructure/disruptor.py:95-97 | two producers publishing out of order leave the cursor on the earlier claim |
| Disruptor.Bus.NextSequence | infrastructure/disruptor.py:77-82 | a claim takes the next sequence number |
| Disruptor.Bus.CheckAndWrite | infrastructure/disruptor.py:84-89 | a producer leaves the spin and writes its slot exactly when at most a ring ahead of the cursor |
| Disruptor.Bus.SetCursor | infrastructure/disruptor.py:95-97 | a publish sets the cursor to its sequence |
| Disruptor.Bus.PollOnce | infrastructure/disruptor.py:123-132 | one look hands out the awaited slot exactly when published and still carrying its sequence, and says when it freezes |
| Disruptor.Bus.HandlerDone | infrastructure/disruptor.py:129-130 | a finished handler advances the consumer |
| SbeCodec.TopicTablesInverse | infrastructure/sbe_codec.py:29-30 | the topic tables are inverse to each other and ids fit the header |
| SbeCodec.RoundTrip | infrastructure/sbe_codec.py:37-59 | decoding an encoded message with any trailing bytes gives topic and payload exactly, the source as received |
| SbeCodec.HeaderLayout | infrastructure/sbe_codec.py:22-46 | which bytes of an encoded message hold padding, topic, source, length and payload, most significant byte first |
| SbeCodec.SourceSurvives | infrastructure/sbe_codec.py:40-57 | the source survives exactly when non-empty, at most 16 bytes and not ending in NUL, is received as "unknown" when nothing is left of it, and a second trip changes nothing |
| SbeCodec.TickRoundTrip | infrastructure/sbe_codec.py:62-88 | exactly the in-range ticks encode, to 60 bytes, and every number comes back |
| SbeCodec.TickLayout | infrastructure/sbe_codec.py:26-76 | which bytes of the 60-byte tick hold which number |
| KernelBypass.FrameRoundTrip | infrastructure/kernel_bypass.py:21-34 | every field of a frame reads back from its 64 bytes |
| KernelBypass.FrameLayout | infrastructure/kernel_bypass.py:16-34 | which bytes of the 64-byte frame hold which number |
| KernelBypass.SymbolSurvives | infrastructure/kernel_bypass.py:62-64 | the symbol survives exactly when at most eight bytes without NUL |
| KernelBypass.MaskIsSlot | infrastructure/kernel_bypass.py:52-53 | masked offsets are sequence modulo capacity, frame after frame |
| KernelBypass.WriteSlotFrame | infrastructure/kernel_bypass.py:70-71 | writing one slot changes no other |
| KernelBypass.FoundIff | infrastructure/kernel_bypass.py:78-82 | a frame is accepted exactly while its tick is produced and not lapped, and then holds that tick |
| KernelBypass.Feed.ProduceTick | infrastructure/kernel_bypass.py:55-72 | producing appends to the queue |
| KernelBypass.Feed.PollOnce | infrastructure/kernel_bypass.py:77-93 | one attempt returns the next produced tick in order, or nothing and stays |
| KernelBypass.LappedForever | infrastructure/kernel_bypass.py:77-94 | once lapped, nothing is ever handed out again |
| KernelBypass.PollingEmpties | infrastructure/kernel_bypass.py:74-94 | within a lap, as many polls as there are ticks empty the queue |
| EnterpriseRisk.SortReorders | agents/agent_26_enterprise_risk.py:313 | sorting gives the same values, rising |
| EnterpriseRisk.TailSumDual | agents/agent_26_enterprise_risk.py:313-322 | the sum of the k smallest is the maximum over thresholds of k times t minus the shortfall below t |
| EnterpriseRisk.ShortfallSubadditive | agents/agent_26_enterprise_risk.py:313-322 | expected shortfall of a sum is at most the sum of the two |
| EnterpriseRisk.ShortfallMonotone | agents/agent_26_enterprise_risk.py:313-322 | doing at least as well in every scenario never raises expected shortfall |
| EnterpriseRisk.LossesOrdered | agents/agent_26_enterprise_risk.py:320-338 | before clamping VaR is at most expected shortfall, which is at most the worst loss |
| EnterpriseRisk.QuantileIff | agents/agent_26_enterprise_risk.py:313-320 | the quantile loss is at least x exactly when as many scenarios as the tail holds lose at least x |
| EnterpriseRisk.VarDiversifiesIff | agents/agent_26_enterprise_risk.py:316-332 | over all pairs of portfolios on a shared n-day history the reported VaR of the merger is at most the sum, if and only if n times one minus the confidence is below 2 |
| EnterpriseRisk.DefaultsDoNotDiversify | agents/agent_26_enterprise_risk.py:151-163 | with 252 days at 99% it fails |
| EnterpriseRisk.MergePnl | agents/agent_26_enterprise_risk.py:185-199 | scenario profit of a merged portfolio is the sum of the parts |
| EnterpriseRisk.HistoryAdds | agents/agent_26_enterprise_risk.py:220-226 | over a shared history merged scenario profits are the sums, entry by entry |
| EnterpriseRisk.CvarSubadditive | agents/agent_26_enterprise_risk.py:203-338 | the reported CVaR of a merged portfolio is at most the sum of the two, clamping included |
| EnterpriseRisk.ResultOrdered | agents/agent_26_enterprise_risk.py:329-339 | in every result VaR, CVaR and worst loss are ordered after clamping |
| EnterpriseRisk.VarMeans | agents/agent_26_enterprise_risk.py:305-339 | the reported VaR reaches t exactly when more than n(1-confidence)-1 scenarios lose at least t; below one scenario it is the worst loss; percentage, count and worst loss said on the scenarios |
| EnterpriseRisk.CvarMeans | agents/agent_26_enterprise_risk.py:316-323 | the reported CVaR is the mean of the whole part of n(1-confidence) worst losses, at least one, by the Rockafellar-Uryasev minimum, floored at 0 |
| EnterpriseRisk.LossWithinGross | agents/agent_26_enterprise_risk.py:205-230 | while no holding loses more than it is worth, VaR and CVaR stay within the gross value, short holdings included |
| EnterpriseRisk.GrossCanBeLost | agents/agent_26_enterprise_risk.py:205-230 | some scenario with returns between -1 and 1 loses exactly the gross value |
| EnterpriseRisk.OnlyShockedCount | agents/agent_26_enterprise_risk.py:205-230 | holdings a scenario does not mention make nothing |
| EnterpriseRisk.TailFits | agents/agent_26_enterprise_risk.py:316-320 | for a confidence between 0 and 1 the index is valid exactly on a non-empty history |
| EnterpriseRisk.Engine.AddPosition | agents/agent_26_enterprise_risk.py:167-169 | replaces the position of its symbol or appends it, one per symbol, and leaves every other one |
| EnterpriseRisk.Engine.SetHistoricalReturns | agents/agent_26_enterprise_risk.py:171-177 | a history replaces that of its symbol |
| EnterpriseRisk.Engine.ScenarioPnl | agents/agent_26_enterprise_risk.py:185-199 | the loop computes the scenario profit, missing shocks counting as zero |
| EnterpriseRisk.Engine.CommonLength | agents/agent_26_enterprise_risk.py:218 | the length used is the least of all histories |
| EnterpriseRisk.Engine.HistoricalVar | agents/agent_26_enterprise_risk.py:203-228 | the result is that of the scenario profits over the common history; a missing history is drawn first |
| Statistics.NormalEquations | core/statistics.py:33-47 | the fitted residuals sum to zero and are orthogonal to x |
| Statistics.Pythagoras | core/statistics.py:46-51 | any other line's squared residuals exceed the fitted line's by those of the difference |
| Statistics.OlsOptimal | core/statistics.py:46-47 | the fitted line has the least squared residuals of all lines, and is the only such line |
| Statistics.RSquaredRange | core/statistics.py:49-53 | r squared lies between 0 and 1 |
| Statistics.RSquaredExplains | core/statistics.py:45-55 | R squared times the variation of y is the variation of the fitted line about its mean; it is 1 exactly when the line goes through every point |
| Statistics.SpreadHasZeroMean | core/statistics.py:171-172 | the spread given to the stationarity test has mean zero |
| Statistics.UpdateFacts | core/statistics.py:289-308 | an update keeps P positive and at most min(P+Q, R/x^2), adds x^2/R to the precision, and leaves a fraction in (0, 1] of the innovation |
| Statistics.FilterPositive | core/statistics.py:335-340 | over a whole series P stays positive |
| Statistics.InformationForm | core/statistics.py:289-305 | with Q = 0 precision and weighted estimate are the accumulated sums over the series |
| Statistics.FilterIsRidge | core/statistics.py:335-340 | with Q = 0 the final estimate is the unique minimiser of the batch ridge objective |
| Statistics.KalmanState.KalmanUpdate | core/statistics.py:273-308 | the method makes one update and returns the posterior spread |
| Statistics.KalmanState.KalmanFilterSpreads | core/statistics.py:311-340 | the loop returns the spreads and ratios of the whole recursion, and fails exactly on unequal lengths |
| SessionStateMachine.ShutdownIsTerminal | core/enums.py:133 | nothing follows a shutdown in any legal life |
| SessionStateMachine.HaltNeedsApproval | infrastructure/session_state_machine.py:131-148 | if trading is on, the transition after every halt in the machine's life went to active and names its approver |
| SessionStateMachine.ActiveIsEarned | core/enums.py:124-134 | trading takes a regime assessment or an approved override of an anomaly halt earlier in the life |
| SessionStateMachine.RegimeCanBeSkipped | core/enums.py:126-131 | the override alone reaches trading without any regime assessment |
| SessionStateMachine.Machine.TransitionTo | infrastructure/session_state_machine.py:112-177 | a transition happens exactly when the table and the gate allow it, and the history stays the last 50 entries of a legal life |
| SessionStateMachine.Machine.IsTradingPermitted | infrastructure/session_state_machine.py:100-102 | trading is permitted in one state, and then the life shows it was earned and every halt approved |
| SupervisorModel.RunKeepsCoherent | agents/agent_13_portfolio_supervisor.py:307-452 | over every interleaving a halt carries its hold in memory and store, and both agree whenever no handler is between change and save |
| SupervisorModel.StartsCoherent | agents/agent_13_portfolio_supervisor.py:94-99 | a new process starts with memory equal to the store |
| SupervisorModel.HoldLasts | agents/agent_13_portfolio_supervisor.py:307-479 | a held system does not trade and a halted one stays halted through any steps, timers and (once saved) crashes until an approved resume of a halt |
| SupervisorModel.HaltSurvivesCrashIff | agents/agent_13_portfolio_supervisor.py:312-327 | with anything but an approved resume or a crash in between, a halt survives a crash exactly when some save came before it |
| SupervisorModel.HaltReachesSessionIff | agents/agent_13_portfolio_supervisor.py:316-325 | exactly which session states a halt of each kind stops, trading being off in all of them |
| SupervisorModel.ResumeAllowsIff | agents/agent_13_portfolio_supervisor.py:382-398 | exactly when an approved resume lets trading go on |
| SupervisorModel.SessionFollowsTable | core/enums.py:124-134 | every step moves the session machine along the table or not at all |
| SupervisorModel.SessionStaysHalted | infrastructure/session_state_machine.py:131-148 | without an approver a halted session machine never trades again in the process, and shutdown is final |
| SupervisorModel.HoldNeedsHalt | agents/agent_13_portfolio_supervisor.py:382-419 | an alert's hold on a system not halted outlives every resume |
| SupervisorModel.RestartFreezesPause | agents/agent_13_portfolio_supervisor.py:94-101 | after a restart from a stored pause the system stays paused and no breaker acts, until a halt |
| SupervisorModel.RestartForgetsPause | agents/agent_13_portfolio_supervisor.py:470-479 | and trading is allowed as soon as the session opens |
| SupervisorModel.WakeDueEffect | agents/agent_13_portfolio_supervisor.py:370-376 | which of the pause's two state variables the due timers release |
| SupervisorModel.TimersEndPauseIff | agents/agent_13_portfolio_supervisor.py:342-376 | left to its timers, a pause ends early exactly when a pair of earlier timers is due |
| SupervisorModel.PauseLastsIff | agents/agent_13_portfolio_supervisor.py:307-479 | over every crash-free run of halts, resumes, alerts, requests, pauses and due timers, a pause keeps trading off until its end exactly when no supervisor's timer of an earlier pause is due before and no later pause may end before |
| SupervisorModel.StaleTimersEndAPause | agents/agent_13_portfolio_supervisor.py:368-376 | pause, halt, resume and pause again trades 500 seconds early |
| SupervisorModel.ShorterPauseReplaces | agents/agent_13_portfolio_supervisor.py:342-376 | a 600 second pause, a halt, a resume and a 300 second pause at 30 trade at 330 |
| Supervisor.TradeOutcome | agents/agent_13_portfolio_supervisor.py:226-280 | after a closed trade the system is halted exactly on a cap or equity breach or an earlier halt, else paused exactly on a breaker or an earlier pause |
| Supervisor.TradeLeaves | agents/agent_13_portfolio_supervisor.py:226-368 | a halt names the first failing check and holds, a pause ends after the breaker's length or else 300 seconds, and the store agrees |
| Supervisor.AlertOutcome | agents/agent_13_portfolio_supervisor.py:409-429 | the three anomalies hold trading, saved; of them only a bus failure halts, as an anomaly of the session; any other alert changes nothing |
| Supervisor.ResumeOutcome | agents/agent_13_portfolio_supervisor.py:382-407 | only a halt resumes, only with an approver: to trading, reason and hold cleared and saved, an unexpired pause still in force |
| Supervisor.TradeIsHandler | agents/agent_13_portfolio_supervisor.py:180-203 | the handler is a run of interleavable steps that ends with everything saved, so the run theorems apply |
| Supervisor.AlertIsHandler | agents/agent_13_portfolio_supervisor.py:409-429 | an alert is a run of interleavable steps that ends with everything saved |
| Supervisor.KeptStopoutsSuffice | agents/agent_13_portfolio_supervisor.py:242-245 | remembering the last n losses never hides a breach of a threshold up to n |
| Supervisor.KeptLossesSuffice | agents/agent_13_portfolio_supervisor.py:253-260 | remembering the last n losses never overstates the loss in the window, and is exact while it holds at most n |
| Supervisor.OrderKeepsResultIff | agents/agent_13_portfolio_supervisor.py:165-214 | an order of bookings, publishes and hearings keeps the day's result right for all amounts exactly when nothing is heard between a booking and its publish and every booking is on the latest result |
| Supervisor.ResultKeptIff | agents/agent_13_portfolio_supervisor.py:165-214 | a day of gains keeps its result right exactly when its order is such |
| Supervisor.ResultCanLoseATrade | agents/agent_13_portfolio_supervisor.py:165-214 | three losses of 35 in all settle as 15 when the first figures are heard between the last two |
| Supervisor.SaveCanLoseATrade | agents/agent_13_portfolio_supervisor.py:187-214 | two losses of 300 in all settle as 10 when the first figures are heard while the second's pause is saved |
| Supervisor.EchoCountsTwice | agents/agent_13_portfolio_supervisor.py:165-214 | with every figure heard at once the equity on the books is the starting one plus the sum of all running totals |
| Supervisor.MisjudgedIff | agents/agent_13_portfolio_supervisor.py:266-271 | the equity check decides wrongly exactly when the minimum lies between the account's equity and that plus the drift |
| Supervisor.EchoHaltsWrongly | agents/agent_13_portfolio_supervisor.py:266-274 | a loss of 200, its echo and a gain of 50 on 25300 halt for equity below 25000 |
| Supervisor.PortfolioSupervisor.constructor | agents/agent_13_portfolio_supervisor.py:94-122 | a new process restores state, reason and hold and nothing else |
| Supervisor.PortfolioSupervisor.HaltSystem | agents/agent_13_portfolio_supervisor.py:307-327 | a halt does nothing when halted, else halts, holds, tries the session machine and saves |
| Supervisor.PortfolioSupervisor.PauseSystem | agents/agent_13_portfolio_supervisor.py:342-368 | a pause does nothing when halted or paused, else sets its end, arms one or two timers and saves |
| Supervisor.PortfolioSupervisor.HandleResume | agents/agent_13_portfolio_supervisor.py:171-176 | a resume command acts only on a halt and only with an approver |
| Supervisor.PortfolioSupervisor.HandleAlert | agents/agent_13_portfolio_supervisor.py:409-429 | the three alert kinds hold and save, a bus failure also halts |
| Supervisor.PortfolioSupervisor.WakeTimer | agents/agent_13_portfolio_supervisor.py:370-380 | a waking timer releases what it may |
| Supervisor.PortfolioSupervisor.OnSessionStart | agents/agent_13_portfolio_supervisor.py:124-133 | a session start activates a machine that waits for its regime |
| Supervisor.PortfolioSupervisor.FoundIsComplete | agents/agent_13_portfolio_supervisor.py:236-260 | with a forward clock the bounded windows find what all losses of the session would |
| Supervisor.PortfolioSupervisor.BookAndCheck | agents/agent_13_portfolio_supervisor.py:180-203 | a closed trade is booked and the checks take effect in order: halted exactly at the loss cap, below the minimum or before, else paused exactly on enough stop-outs, enough loss or before |
| Supervisor.PortfolioSupervisor.Publish | agents/agent_13_portfolio_supervisor.py:205-214 | the figures are published as they stand by then |
| Supervisor.PortfolioSupervisor.HandleTradeClosed | agents/agent_13_portfolio_supervisor.py:180-216 | uninterrupted, the handler is its booking and checks, then its publish |
| Supervisor.PortfolioSupervisor.HearOwnFigures | agents/agent_13_portfolio_supervisor.py:165-169 | the oldest published figures replace the books and the loss cap is checked |
| Supervisor.PortfolioSupervisor.HandleDailyPnl | agents/agent_13_portfolio_supervisor.py:165-169 | incoming figures replace the books and the loss cap is checked |
| Supervisor.PortfolioSupervisor.IsTradingAllowed | agents/agent_13_portfolio_supervisor.py:470-479 | trading is allowed exactly by session, hold and pause, and never while halted |
| Tera.WindowIsExact | agents/agent_06_tera.py:479-483 | with a forward clock the pruned queue's sum is the sum over all losses of the session inside the window |
| Tera.CrowdedIff | agents/agent_06_tera.py:408-541 | a concentration rule refuses a tagged symbol exactly when as many holdings as its limit have the same tag in either case |
| Tera.TagsMean | agents/agent_06_tera.py:487-516 | sector and theme are those of the first listing of the symbol; a symbol not listed has neither |
| Tera.ExposureAdds | agents/agent_06_tera.py:393-397 | what is held of a symbol is price times shares of its holdings, added up over any division of them |
| Tera.ApprovedIff | agents/agent_06_tera.py:342-475 | a signal is approved exactly when no rule or pause stands against it; else the reason is the first failing rule |
| Tera.LossCapIff | agents/agent_06_tera.py:274-356 | from a reset, and from the supervisor's last figures, the loss cap rejects exactly when the trades closed since bring the day to it |
| Tera.HoldIff | agents/agent_06_tera.py:308-567 | the hold stands exactly when an alert naming an anomaly has not been cleared or reset since, and day trades are counted through resets |
| Tera.ThresholdLocksOut | agents/agent_06_tera.py:431-447 | after the threshold loss in a row every later signal is rejected until a close without loss or a reset |
| Tera.StreakSinceWin | agents/agent_06_tera.py:286-304 | a close without loss starts the streak afresh |
| Tera.PauseEnds | agents/agent_06_tera.py:363-382 | a velocity pause longer than its window never restarts without a new loss, and then the rule passes |
| Tera.Agent.PruneLosses | agents/agent_06_tera.py:479-483 | the loop drops exactly the stale front |
| Tera.Agent.IsCrowded | agents/agent_06_tera.py:487-541 | the count of holdings with the symbol's own tag, ignoring case, reaches its limit |
| Tera.Agent.HandleTradeClosed | agents/agent_06_tera.py:274-304 | a close is the step that keeps the window exact and counts the streak |
| Tera.Agent.EvaluateAllRules | agents/agent_06_tera.py:342-475 | the method is the decision ApprovedIff characterises, with the pauses it starts and the pruning it does |
| Tera.Agent.ResetForNewSession | agents/agent_06_tera.py:555-566 | a reset clears everything but the day-trade counter |
| Monitoring.StopsOnlyTighten | agents/agent_11_micro_monitoring.py:455-558 | over any run without heard updates the effective stop moves only in the trade's favour and the time stop never later |
| Monitoring.TightensIff | agents/agent_11_micro_monitoring.py:455-524 | that holds over every such run of a new position if and only if its stop is on the losing side of entry |
| Monitoring.FlipsDoNotCompound | agents/agent_11_micro_monitoring.py:528-562 | while monitored, the risk is the original before the first flip and exactly half of it after, however many flips |
| Monitoring.FlipBoundsTheHold | agents/agent_11_micro_monitoring.py:557-558 | a round a minute after a flip ends the position |
| Monitoring.ProfitIsLocked | agents/agent_11_micro_monitoring.py:466-506 | one risk of profit secures breakeven, one and a half secures half a risk, for the rest of the run |
| Monitoring.LockedProfitExits | agents/agent_11_micro_monitoring.py:318-506 | after a round that saw one and a half risks of profit every later tick that leaves half a risk or less ends the position, and after one risk every tick back at the entry |
| Monitoring.TrailStopsIff | agents/agent_11_micro_monitoring.py:466-506 | after a round a price stops the position exactly if it did before, or gives up the entry after one risk of profit or half a risk after one and a half |
| Monitoring.FlipStopsIff | agents/agent_11_micro_monitoring.py:528-562 | after a flip a price stops the position exactly if it did before or, without a trailing stop, from half the risk on; the hold is a minute at most |
| Monitoring.TickExitsIff | agents/agent_11_micro_monitoring.py:325-349 | a tick ends the position exactly when it is at or beyond the trailing stop or, without one, the stop |
| Monitoring.RoundExitsIff | agents/agent_11_micro_monitoring.py:291-393 | which exit an uninterrupted round takes, from the fields, in the order of its checks |
| Monitoring.ExitOnce | agents/agent_11_micro_monitoring.py:593-603 | over any run there is at most one exit for the first monitoring and one for each fill that monitors the position again |
| Monitoring.ExitAgainIff | agents/agent_11_micro_monitoring.py:171-198 | an exited position exits again only after such a fill, and after one it can |
| Monitoring.RefillFlipsAgain | agents/agent_11_micro_monitoring.py:535-562 | a position stored after a flip and monitored again is tightened to a quarter of its risk |
| Monitoring.ExitAfterCloseIff | agents/agent_11_micro_monitoring.py:241-257 | a position closed from outside can still exit, unfilled, exactly when an evaluation was waiting for its first turn, its tick or its bars |
| Monitoring.DrainedTightensIff | agents/agent_11_micro_monitoring.py:259-264 | with its own updates heard, what the agent monitors only tightens along a run exactly when no update is published from an object lacking the flip or the trailing stop of the last one |
| Monitoring.SetbackIffLacks | agents/agent_11_micro_monitoring.py:485-576 | in any run a published update loosens exactly when its object lacks a flip or a trailing stop written to another |
| Monitoring.SourcesTighten | agents/agent_11_micro_monitoring.py:510-576 | when every update is sent from the object the last one was copied from, none loosens, however many are queued |
| Monitoring.FlipCanBeUndone | agents/agent_11_micro_monitoring.py:528-576 | a reachable run that ends, all updates heard, with the full risk and the original time stop back after a flip |
| Monitoring.LockCanBeLost | agents/agent_11_micro_monitoring.py:485-524 | a reachable run that ends, all updates heard, at breakeven after half a risk was locked in |
| Monitoring.Monitor.HandlePositionUpdate | agents/agent_11_micro_monitoring.py:241-266 | a heard update takes the place of the monitored object, whatever is newer |
| Monitoring.Monitor.UpdateTrailingStop | agents/agent_11_micro_monitoring.py:455-508 | the method is the trailing step that only tightens a sound position, and publishes what it changed |
| Monitoring.Monitor.ApplyRegimeFlip | agents/agent_11_micro_monitoring.py:528-562 | the method tightens one position once and publishes it |
| Monitoring.Monitor.EvaluatePosition | agents/agent_11_micro_monitoring.py:291-393 | an uninterrupted evaluation is its steps in order, and exits by the first of time, stop, bars and spread that applies |
| GlobalClock.StartIff | agents/agent_17_global_clock.py:197-207 | a tick starts a session exactly in the opening minute of a weekday when each earlier opening minute was followed by a tick before an opening |
| GlobalClock.EndIff | agents/agent_17_global_clock.py:209-214 | a tick ends a session exactly when it is the first after a weekday close since an opening minute with none before an opening between |
| GlobalClock.MinuteClock | agents/agent_17_global_clock.py:41-214 | read once a minute, the clock starts a session at 09:30 and ends it at 16:00, Monday to Friday, and publishes nothing else |
| GlobalClock.SessionsAlternate | agents/agent_17_global_clock.py:193-214 | at most one session starts a day and every end directly follows a start |
| GlobalClock.EndsOnItsDayIff | agents/agent_17_global_clock.py:193-214 | a started session ends on its own day exactly when the clock ticks after the close of that day |
| GlobalClock.EndCanComeLate | agents/agent_17_global_clock.py:209-214 | two sparse ticks end a Monday session on Wednesday |
| GlobalClock.NoDrift | agents/agent_17_global_clock.py:233-254 | whatever happens to other timers between any two publishes, the k-th firing of a repeating timer carries its first expiry plus k periods and is never early |
| GlobalClock.OneShotFiresOnce | agents/agent_17_global_clock.py:233-254 | a timer without a period fires at most once and never early; between ticks it is unreached and unfired, or fired and gone |
| GlobalClock.OncePerTick | agents/agent_17_global_clock.py:233-254 | a tick fires a name once if it was registered and expired and not at all otherwise, whatever happens to it meanwhile |
| GlobalClock.RegistrationSurvivesIff | agents/agent_17_global_clock.py:234-252 | a timer registered during a tick outlives it exactly when the tick has no one-shot timer of that name left to settle |
| GlobalClock.CancelledStillFiresIff | agents/agent_17_global_clock.py:234-245 | a timer cancelled during a tick still fires, once, exactly when the tick had it listed and unpublished |
| GlobalClock.KeepsUp | agents/agent_17_global_clock.py:247-249 | ticks no further apart than the period leave, at rest, no passed expiry unfired |
| GlobalClock.Clock.CheckSessionBoundaries | agents/agent_17_global_clock.py:193-214 | one call is the step StartIff, EndIff and SessionsAlternate are about |
| GlobalClock.Clock.CollectExpired | agents/agent_17_global_clock.py:233-234 | a tick lists exactly the expired timers, each once, before publishing any |
| GlobalClock.Clock.PublishDue | agents/agent_17_global_clock.py:235-245 | the next listed timer goes out with its expiry and the time of the tick |
| GlobalClock.Clock.SettleDue | agents/agent_17_global_clock.py:247-251 | a published timer is rescheduled from its expiry if still registered, or its name is deleted |
| GlobalClock.Clock.Register | agents/agent_17_global_clock.py:112-129 | a registration replaces the timer of its name |
| GlobalClock.Clock.Cancel | agents/agent_17_global_clock.py:132-138 | a cancel removes the name and says whether it existed |

## Left out

- IEEE 754 rounding, `nan` and overflow: floats are reals, and `exp` is any positive function, or any function with the laws of the exponential where it matters.
- Raft consensus (`infrastructure/raft.py`), Redis, SQLite, the audit log and the Rich and React front ends: plumbing.
- The agents whose decision is a language model's, Black-Scholes, Avellaneda-Stoikov, Monte Carlo draws, the stress scenarios, ADF, half-life and Hurst statistics.
- `np.percentile`: the histogram in a VaR result is not part of this model.
- FIX reconnects, heartbeats, pending acknowledgement futures and exceptions raised by callbacks; Python's limit of 4300 digits in `int`.
- JSON text and UTF-8 decoding errors: payloads are opaque bytes and a cut that splits a character is not refused.
- The order-book cache's dictionary of symbols, and `detect_liquidity_sweep`, which compares one figure with a constant.
- OrderBook.Book.AddOrder: a price level is a value inside its map, so sharing of level objects is not captured; order objects are shared.
- KernelBypass.Feed.PollOnce: one attempt of the polling loop; the deadline around it is a repetition of attempts.
- FixConnector.Connector.Dispatch: resolving a pending acknowledgement future is left out.
- FixConnector.Connector.ReadLoop: the running flag is not cleared while the loop reads; stopping would end the loop before a read.
- AlgoEngine.ParentOrder.Cancel: an unknown order id, for which the engine returns False, is not modelled.
- Disruptor.Bus.PollOnce: the model lets other steps follow a frozen look, which only adds runs; the handler is entered with the slot's content; dispatch to several topic handlers is not modelled, nor a ring of size 0, which the size test accepts and whose first producer would spin forever.
- The slicing engine's dictionary of orders and its `KeyError` on an unknown id: each order stands alone. Pausing an order is never done by the source.
- Supervisor.PortfolioSupervisor.HandleTradeClosed: losses are kept as positive amounts, one clock reading serves a whole handler, the checks read the books as booked, reasons are fixed texts without figures, and a payload that does not parse changes nothing.
- Supervisor.PortfolioSupervisor.PauseSystem: in SupervisorModel the timers are armed with the state change, before the save; waking is allowed at any time, so no behaviour is lost.
- The supervisor's open-position counter on fills, and the published messages other than the daily figures.
- Tera.Agent.IsCrowded: `lower()` folds ASCII letters only.
- Tera.Agent.EvaluateAllRules: the detail texts are not modelled, only the reasons.
- Monitoring.Monitor.EvaluatePosition: whether the true range has expanded is an input; positions are independent, so the agent's dictionary and the adverse-excursion record are not modelled, nor the opening of a monitor on a fill. Position updates that other agents publish are not heard.
- GlobalClock.Clock.PublishDue: a publisher that raises is not modelled, and the order within one tick is left open; agent-stall alerts are left out.
- Daylight saving: a tick carries the Eastern day and minute it reads.
