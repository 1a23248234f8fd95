# Verified models of a trading framework

A Dafny model of the parts of the framework whose correctness is hardest to see from the code: the position
and offset converter, the event emitter and the thread pool as concurrent protocols, the text codecs and
parsers, the CTA strategy engine's order book-keeping with its re-entrant callbacks, and the pipeline from
ticks over bars to the R-Breaker strategy. Verify with `dafny verify dfyconfig.toml`.

How the pieces fit:

- **Position holding.** `Market` has the trading vocabulary; `Frozen` and `FrozenOrder` treat the fold over the
  hash map of active orders; `Holding` is the class with the code's fields and methods, each method tied to a
  function on a snapshot; `Splitting` compares the three request splitters with one reference splitter;
  `HoldingRuns` proves that no run over-closes an SHFE or INE position; `HoldingLimits` shows where that stops
  being true, and `PlainRuns` what is true on the other exchanges; `Trades` adds trades up, for the holding and
  for a strategy's position.
- **Protocols.** `Emitter` and `ThreadPool` are transition systems with one program counter per thread. A step is
  one atomic action; a run is any interleaving, spurious wake-ups included; the theorems are about every
  reachable state. `Calls` tells the calls of `put` and `enqueue` apart; what became of each is computed from the
  steps of a run alone.
- **Codecs and parsers.** `Utf`, `UtfLaws` (RFC 3629 section 4, RFC 2781 section 2.1), `Base64`, `Base64Decode`,
  `Base64Laws` (RFC 4648 section 4), `Url`, `Integers`, `Replace`. The loops are methods proved against
  functions; the laws are lemmas about the functions.
- **Strategy engine.** `StopLog` is a history of what was asked for, what exchanges took or declined, what
  strategies were told and why, and what makes one legal; `CtaBook` holds the engine's maps as values, with
  their invariants, what callbacks may do to them and what a tick does; `Cta` is the engine class. Exchanges and
  strategies are chosen freely: an exchange may refuse or give a new id, a callback may send and cancel through
  its template to any depth. What the trade engine is asked and answers is entered in the history by the methods
  that stand for it (`Convert`, `ExchangeSend`), a cancel with the strategy that asked for it. A `fuel` of 0 means
  that callbacks do nothing; what the engine itself does on a tick or a stop is then stated exactly.
- **Bars and strategy.** `Bars` proves the incremental aggregator equal to grouping the ticks; `RBreak` proves
  the day range and levels equal to those of whole days, the price ladder, and the trailing stops; `Pipeline`
  joins the two.

Volumes in the holding are whole lots, prices are reals, times are milliseconds since the epoch.

What the code does that its names do not promise, each stated as a lemma: a NET closing order is frozen on no
side; between the order report and the trade report of a fill the filled lots are offered again; outside
SHFE and INE the frozen volume is not recomputed after a trade and may fall short until the next order report; a
request for no lots may be sent on as a leg of no lots; the result of `calculate_frozen` can depend on the walk
of the hash map; a request is filed under the id it was sent with only if that id has a '.'; `isLegalUTF8` takes ED and F4 with a second byte below 80; a text without digits
parses as 0; orders that finished before their strategy was removed go on being credited to it; the Donchian
channel is constant, so the upward orders of R-Breaker are sent exactly when the upper level is negative; and
a trade first heard of while its order has no owner is never credited.

Two places in `app/cta_strategy/engine.cpp` (181-240 and 407-422) go on using a map entry after erasing it. The
model follows their evident intent: the entry is copied first, and the loop runs over a snapshot of the keys
and looks each one up again.

## Model

| member | source | states |
|---|---|---|
| Market.FindDot | core/engine/converter.cpp:124-126 | the first '.' at or after a position, or the end |
| Market.RegisteredUnderOwnId | core/engine/converter.cpp:124-129 | the order made from a request is filed under the id it was sent with if and only if the id contains a '.' |
| Market.ActiveOrFinal | core/engine/object.cpp:8-16 | an order is active until ALLTRADED, CANCELLED or REJECTED ends it |
| Frozen.FreezeConserves | core/engine/converter.cpp:193-230 | for any order of the walk, td and yd frozen before clamping add up to the remaining volume of the side's closing orders |
| Frozen.FreezeBounds | core/engine/converter.cpp:193-230 | lower and upper bounds of the spill from today to yesterday, whatever the order |
| Frozen.TodayFrozenClosedForm | core/engine/converter.cpp:184-243 | today's clamped field has one closed form for every order of the walk, without any guard |
| Frozen.FrozenClosedForm | core/engine/converter.cpp:184-243 | when a side does not mix CLOSE with CLOSETODAY the clamped fields are a closed form in the sums |
| Frozen.MapTotalInsert | core/engine/converter.cpp:114-122 | how filing an order changes the sums over the active orders |
| FrozenOrder.SettledForEveryWalk | core/engine/converter.cpp:184-243 | under the order-irrelevance condition every walk of the map ends in the same fields |
| FrozenOrder.TodayWalkIndependent | core/engine/converter.cpp:184-243 | any two walks of the map end in the same field for today; only the spill into yesterday can differ |
| FrozenOrder.ExtremeWalks | core/engine/converter.cpp:193-230 | there is a walk that spills least and one that spills most, with the exact amounts |
| FrozenOrder.WalkIndependentIff | core/engine/converter.cpp:184-243 | the result is the same for every walk of the hash map if and only if a condition on the sums holds |
| Holding.PositionHolding.constructor | core/engine/converter.cpp:94-99 | a new holding is empty |
| Holding.PositionHolding.UpdatePosition | core/engine/converter.cpp:101-112 | on the reported side yesterday's volume is the reported one and the rest of the volume is today's; the other side and all frozen fields stay |
| Holding.PositionHolding.UpdateOrder | core/engine/converter.cpp:114-122 | the order is filed as reported if it is SUBMITTING, NOTTRADED or PARTTRADED and dropped if it is ALLTRADED, CANCELLED or REJECTED, and the frozen fields are the fold over some walk of the map |
| Holding.ReportFiles | core/engine/converter.cpp:114-122 | the same on values, with what is held unchanged |
| Holding.PositionHolding.UpdateOrderRequest | core/engine/converter.cpp:124-129 | a sent request is filed as a submitting order under the parts of its id |
| Holding.PositionHolding.Bought | core/engine/converter.cpp:132-154 | the buckets after a LONG trade, per offset and exchange, with the spill below zero |
| Holding.PositionHolding.Sold | core/engine/converter.cpp:155-177 | the buckets after any other trade |
| Holding.PositionHolding.UpdateTrade | core/engine/converter.cpp:131-182 | the whole new state after a trade: buckets per offset and exchange, spill below zero, sums, clamped frozen fields |
| Holding.PositionHolding.FreezeOrder | core/engine/converter.cpp:193-230 | one active order freezes volume on the side it closes and only there |
| Holding.PositionHolding.FreezeOrders | core/engine/converter.cpp:193-230 | the loop folds every active order once, in some order |
| Holding.PositionHolding.CalculateFrozen | core/engine/converter.cpp:184-232 | the frozen fields are the clamped fold over the active orders in some order |
| Holding.PositionHolding.SumPosFrozen | core/engine/converter.cpp:234-243 | frozen fields are clamped to what is held and summed |
| Holding.PositionHolding.ConvertOrderRequestShfe | core/engine/converter.cpp:245-278 | the legs are the function `ShfeLegs` of the snapshot, about which `Splitting` proves the laws |
| Holding.PositionHolding.ConvertOrderRequestLock | core/engine/converter.cpp:280-311 | the same for the lock mode |
| Holding.PositionHolding.ConvertOrderRequestNet | core/engine/converter.cpp:313-362 | the same for the net mode |
| Holding.PositionHolding.ConvertOrderRequest | core/engine/converter.cpp:59-78 | the dispatch between the modes |
| Splitting.WaterfallConserves | core/engine/converter.cpp:245-362 | the reference splitter's legs add up to the request and differ from it only in offset and volume |
| Splitting.WaterfallBucket | core/engine/converter.cpp:245-362 | each bucket gets what fits, after the buckets before it |
| Splitting.WaterfallOpens | core/engine/converter.cpp:245-362 | what is opened is exactly what exceeds the buckets |
| Splitting.WaterfallOffsets | core/engine/converter.cpp:245-362 | every leg opens or has the offset of one of the buckets |
| Splitting.ShfeIsWaterfall | core/engine/converter.cpp:245-278 | a closing SHFE split is the reference split over today then yesterday, and is empty exactly when the request exceeds what is available; a request for no lots is sent on as one leg of none |
| Splitting.LockIsWaterfall | core/engine/converter.cpp:280-311 | the lock split is the reference split over its own buckets; a request for no lots gives a leg of none for its first bucket if that has any volume |
| Splitting.NetIsWaterfall | core/engine/converter.cpp:313-362 | the same for the net split |
| Splitting.ConversionConserves | core/engine/converter.cpp:245-362 | on SHFE and INE, in every mode, for every volume from 0: volume is conserved, no leg closes more than its bucket has available, none has offset CLOSE, every leg of a positive request is positive, and all other fields are the request's |
| Splitting.PlainConversionConserves | core/engine/converter.cpp:280-362 | the same on the other exchanges for the lock and net modes; the plain mode passes the request on as one leg |
| Splitting.SplitShares | core/engine/converter.cpp:245-362 | exactly how much each bucket of an SHFE or INE holding is asked for and how much is opened, in every mode |
| HoldingRuns.ConvertedLegsFit | core/engine/converter.cpp:59-78 | the legs of any mode fit into what is not yet frozen |
| HoldingRuns.RegisterAll | core/engine/converter.cpp:114-129 | filing the legs one by one, unsent ones left out, keeps the invariant |
| HoldingRuns.ReportKeepsInv | core/engine/converter.cpp:114-122 | an order report that uses up volume, cancels or rejects keeps the invariant |
| HoldingRuns.FillKeepsInv | core/engine/converter.cpp:131-182 | order report and trade report of a fill together keep the invariant |
| HoldingRuns.StepKeepsInv | core/engine/converter.cpp:114-362 | every kind of step keeps the invariant |
| HoldingRuns.FirstConversion | core/engine/converter.cpp:101-112 | after a position snapshot, how a first closing request of either side is split, in terms of the snapshot's volume and yesterday's volume |
| HoldingRuns.RunAgrees | core/engine/converter.cpp:114-129 | along any run the active orders are exactly those the events leave at work: sent, less filled, less cancelled, rejected or fully traded |
| HoldingRuns.AgreeTotals | core/engine/converter.cpp:114-129 | so their volumes add up to the same |
| HoldingRuns.NeverOverCloses | core/engine/converter.cpp:114-362 | on every run on an SHFE or INE holding: the CLOSETODAY volume that the events alone leave at work is at most td and what is frozen of it, the CLOSEYESTERDAY volume at most yd and what is frozen of it, no CLOSE volume is at work, and td and yd stay non-negative |
| HoldingLimits.FrozenUnlessNet | core/engine/converter.cpp:199-229 | a CLOSETODAY or CLOSEYESTERDAY order's volume is frozen if and only if nothing remains of it, or its direction is LONG or SHORT and its bucket has that much left |
| HoldingLimits.NetCanOverClose | core/engine/converter.cpp:199-278 | a state the code reaches in which a second NET request is split over lots already being closed |
| HoldingLimits.GapOverstatesAvailable | core/engine/converter.cpp:114-182 | between the two reports of a fill what is available of today's or yesterday's volume is too high by exactly the fill |
| HoldingLimits.PlainFillFrozenExactIff | core/engine/converter.cpp:142-182 | on one side, after a plain CLOSE fill the frozen volume is still exact if and only if the fill took nothing from today or today still covers it |
| HoldingLimits.PlainFillThenNetIff | core/engine/converter.cpp:114-362 | for a whole holding: after a CLOSE fill a net-mode request keeps all closing volume within the position if and only if the fill left the frozen volume exact, or the request asks for no more than the open orders leave |
| HoldingLimits.PlainFillThenLockIff | core/engine/converter.cpp:114-311 | the same for a lock-mode request: it over-closes just when the fill used up today's volume, orders go on closing, and it asks for more than they leave |
| HoldingLimits.NetClosesPlain | core/engine/converter.cpp:313-362 | outside SHFE and INE the net mode closes what is available, up to the request |
| HoldingLimits.LockClosesPlain | core/engine/converter.cpp:280-311 | outside SHFE and INE the lock mode closes only where nothing was opened today, and then what is available of yesterday, up to the request |
| HoldingLimits.PlainFilled | core/engine/converter.cpp:114-182 | the fields a fill of a CLOSE order leaves, and that the orders left still fit into the position |
| HoldingLimits.PlainFillCanOverClose | core/engine/converter.cpp:114-362 | a run of reports and a net-mode request after which five of six lots are to be closed while four of them already are |
| HoldingLimits.PlainReportSettles | core/engine/converter.cpp:184-243 | an order report leaves the fields those lemmas start from |
| PlainRuns.PlainLegsFit | core/engine/converter.cpp:280-362 | outside SHFE and INE the legs of the lock and net modes fit into what is not yet frozen |
| PlainRuns.RegisterAllPlain | core/engine/converter.cpp:114-129 | filing these legs one by one keeps the frozen volume equal to that of the CLOSE orders |
| PlainRuns.PlainFillKeeps | core/engine/converter.cpp:114-182 | so do the two reports of a fill and an order report after them: the same again or any that uses up no volume |
| PlainRuns.PlainStepKeepsInv | core/engine/converter.cpp:114-362 | every kind of step keeps that invariant |
| PlainRuns.PlainRunAgrees | core/engine/converter.cpp:114-129 | along any such run the active orders are exactly those the events leave at work |
| PlainRuns.PlainNeverOverCloses | core/engine/converter.cpp:114-362 | on every run outside SHFE and INE, in lock and net mode, with an order report between each fill and the next submission: the CLOSE volume that the events alone leave at work on each side is within the position and is exactly what is frozen |
| Trades.TradesConserve | core/engine/converter.cpp:131-182 | over any trades: pos is td plus yd on both sides, long less short moves by the signed volume, long plus short by opens less closes |
| Trades.OpenThenCloseToday | core/engine/converter.cpp:131-182 | what a trade opens is today's volume, and closing as much of today's takes it back |
| Trades.ClosingTakes | core/engine/converter.cpp:131-182 | a closing trade takes its volume from the side it closes and only there: from today's or yesterday's as it says; a plain CLOSE from yesterday's on SHFE and INE, elsewhere from today's first |
| Trades.CreditedSum | app/cta_strategy/engine.cpp:149-166 | for any deliveries, with the owner each order has at that time: pos is the signed sum over the distinct trades of the strategy's orders, less those first heard of while it did not own the order |
| Trades.EarlyTradeIsLost | app/cta_strategy/engine.cpp:153-160 | a trade first heard of without an owner is not credited when it is repeated with one, though the other way round it is |
| Trades.NothingMissed | app/cta_strategy/engine.cpp:153-160 | nothing is missed if and only if every trade was first heard of while its order was owned |
| Trades.DeliveryOrderIrrelevant | app/cta_strategy/engine.cpp:149-166 | two sequences of deliveries with the same trades, each first heard of while its order was owned, credit the same, whatever their order and repetition and whatever happens to ownership in between |
| Trades.PosIsNetChange | app/cta_strategy/engine.cpp:149-166 | the position is then the holding's net change when each trade reaches the holding once |
| Emitter.RunKeepsInv | core/event/event.cpp:125-152 | the invariant of lock, event, queue and stop holds along every interleaving |
| Emitter.FifoExactlyOnce | core/event/event.cpp:50-55 | posted, carried and queued events together are the events pushed, in order; the queue is never popped empty |
| Emitter.EveryPutOnce | core/event/event.cpp:50-55 | on every run, what has been posted, carried, queued or is about to be pushed are the events of the calls of `put` that got the lock, each once and in the order in which they got it; every other call still waits for it |
| Emitter.GuardsBalanced | core/api/OSSupport/CriticalSection.cpp:10-84 | the guards' assertions hold: lock only when not held, unlock only when held, recursion at most one |
| Emitter.PutCompletes | core/event/event.cpp:50-55 | a call of `put` returns with its sixth action, having raised the flag, then notified, then released the lock; nobody else moves it |
| Emitter.NoLostWakeup | core/api/OSSupport/Event.cpp:12-40 | a consumer waiting with the flag clear has an empty queue, or a putter still holds the lock before its Set; one asleep with the flag up is about to be notified |
| Emitter.QuietMeansDrained | core/event/event.cpp:125-152 | with no put under way a sleeping consumer has posted the event of every call of `put`, each once, in the order in which the calls got the lock |
| Emitter.AtMostOnePostAfterStop | core/event/event.cpp:43-48 | after `stop` clears the flag at most one more event is posted |
| Emitter.StopProceeds | core/event/event.cpp:43-48 | `stop` clears `_active`, raises the flag and notifies, in this order, and waits only for the event's mutex and for the consumer's return |
| Emitter.StopCountsDown | core/event/event.cpp:43-48 | after `stop` raised the event every consumer action brings its return closer and none moves it away |
| Emitter.StopCompletes | core/event/event.cpp:43-48 | on every run after that the consumer acts at most a fixed number of times, and has returned once it has acted that often |
| Emitter.StopNeverStuck | core/event/event.cpp:43-48 | until the consumer has returned, it or the thread it waits for can act |
| ThreadPool.RunKeepsInv | core/api/OSSupport/ThreadPool.h:42-97 | the invariant of mutex, tasks, stop flag and wake-ups holds along every interleaving |
| ThreadPool.FifoExactlyOnce | core/api/OSSupport/ThreadPool.h:46-57 | tasks are dequeued in enqueue order and each runs exactly once |
| ThreadPool.EveryCallOnce | core/api/OSSupport/ThreadPool.h:63-85 | on every run the tasks taken and queued are those of the calls of `enqueue` that got the mutex before the stop flag was set, in the order in which they got it; every call waits, has the mutex, was accepted or was refused |
| ThreadPool.WorkConserving | core/api/OSSupport/ThreadPool.h:47-53 | while a worker sleeps, every queued task has a wake-up or a ready worker of its own |
| ThreadPool.NoLostWakeup | core/api/OSSupport/ThreadPool.h:63-85 | no reachable state has a task, no notify pending and every worker asleep |
| ThreadPool.EnqueueCompletes | core/api/OSSupport/ThreadPool.h:63-85 | a call of `enqueue` takes the mutex, queues its task or is refused, and notifies one sleeping worker if there is any; nobody else moves it |
| ThreadPool.DestroyProceeds | core/api/OSSupport/ThreadPool.h:88-97 | the destructor waits only for the mutex, sets the stop flag, and then wakes all workers |
| ThreadPool.ShutdownDrains | core/api/OSSupport/ThreadPool.h:77-97 | when all workers have returned the queue is empty, and the tasks of all accepted calls were taken in the order in which these got the mutex, and ran once |
| ThreadPool.ShutdownCountsDown | core/api/OSSupport/ThreadPool.h:88-97 | after stop each worker action uses up work and no action adds any |
| ThreadPool.ShutdownCompletes | core/api/OSSupport/ThreadPool.h:88-97 | on every run of a stopping pool the workers act at most as often as work is left; once they have, all have returned and the queue is empty |
| ThreadPool.ShutdownNeverStuck | core/api/OSSupport/ThreadPool.h:88-97 | until the last worker has returned some thread can act |
| Utf.LegalIffAccepted | core/api/StringUtils.cpp:567-600 | `isLegalUTF8` accepts exactly the grammar of RFC 3629 section 4 plus ED and F4 with a second byte below 80 |
| Utf.Scalar | core/api/StringUtils.cpp:632-641 | an accepted sequence decodes to a scalar value, beyond FFFF exactly when it has four bytes |
| Utf.Accumulate | core/api/StringUtils.cpp:619-641 | the fall-through shifts in 32 bits, less the offset, give the scalar value |
| Utf.Units | core/api/StringUtils.cpp:643-668 | the units written are those of RFC 2781 section 2.1; the branches that write a space are dead |
| Utf.Utf8ToRawBEUtf16 | core/api/StringUtils.cpp:606-671 | for every byte string the output encodes the accepted sequences it is cut into |
| Utf.RawBEToUtf8 | core/api/StringUtils.cpp:438-447 | the output is the encodings of the big-endian units in order |
| UtfLaws.LongestAcceptedPrefix | core/api/StringUtils.cpp:617-629 | what is consumed is the longest prefix made of accepted sequences |
| UtfLaws.WholeTextCut | core/api/StringUtils.cpp:617-629 | a text made of accepted sequences is consumed whole, and cut into these |
| UtfLaws.TranscodedDecodes | core/api/StringUtils.cpp:643-668 | what is written, read by the decoder of RFC 2781 section 2.2, is the characters of the text |
| UtfLaws.EncodedIsWellFormed | core/api/StringUtils.cpp:452-495 | what `UnicodeCharToUtf8` writes is well-formed and decodes to its argument, or is empty for surrogates and values out of range |
| UtfLaws.ReencodedIffWellFormed | core/api/StringUtils.cpp:452-600 | decoding and encoding again restores an accepted sequence if and only if it is in the grammar |
| UtfLaws.Utf8RoundTrip | core/api/StringUtils.cpp:438-671 | for any byte string, to UTF-16 and back gives what its accepted sequences come back as; the text survives if and only if it consists of sequences of the grammar, none above FFFF |
| UtfLaws.WellFormedReturned | core/api/StringUtils.cpp:438-671 | a well-formed text loses exactly its code points above FFFF |
| UtfLaws.Utf16RoundTrip | core/api/StringUtils.cpp:438-671 | to UTF-8 and back is the identity on surrogate-free units |
| Base64.Base64Encode | core/api/StringUtils.cpp:993-1036 | the output is the 6-bit digits of the 24-bit groups with padding, RFC 4648 section 4 |
| Base64.EncodeTail | core/api/StringUtils.cpp:1017-1032 | the last group of one or two bytes ends in the right number of '=' |
| Base64.SymbolChars | core/api/StringUtils.cpp:995-1001 | the alphabet is A to Z, a to z, 0 to 9, plus and slash |
| Base64.EncodedLength | core/api/StringUtils.cpp:1003-1036 | the encoding has the least multiple of four characters that holds the bits, and '=' exactly where no bit is left |
| Base64Decode.Decode | core/api/StringUtils.cpp:957-987 | the output is the bytes of the quads of numbers up to the first '='; the bit cursor stays inside the buffer |
| Base64Decode.PutNumber | core/api/StringUtils.cpp:966-977 | one number is or-ed into the one or two bytes it belongs to, within range |
| Base64Laws.DecodeInvertsEncode | core/api/StringUtils.cpp:957-1036 | decoding any text that is an encoding with other bytes than alphabet and '=' mixed in gives the original |
| Base64Laws.EncodedIsStripped | core/api/StringUtils.cpp:993-1036 | the encoding itself is such a text |
| Base64Laws.SkippedDoNotMatter | core/api/StringUtils.cpp:964-984 | bytes outside alphabet and '=' are skipped wherever they stand |
| Url.HexToDec | core/api/StringUtils.cpp:29-57 | the value of a hexadecimal digit of either case, and FF exactly for every other character |
| Url.UrlEncode | core/api/StringUtils.cpp:884-906 | the loop computes the byte-wise encoding |
| Url.UrlDecode | core/api/StringUtils.cpp:812-878 | the loop succeeds exactly when every piece is well-formed, reads in range, and its result is no longer than the text |
| Url.BadIff | core/api/StringUtils.cpp:818-876 | the decoder stops exactly at a percent sign that begins neither two hexadecimal digits, nor u or U, 0 and four of them |
| Url.UnicodeEscape | core/api/StringUtils.cpp:834-858 | an escape of four hexadecimal digits is read as the UTF-8 of its value |
| Url.ByteWritten | core/api/StringUtils.cpp:889-904 | alphanumerics stay, a space becomes a plus, any other byte a percent sign and two hexadecimal digits |
| Url.EncodedIsSafe | core/api/StringUtils.cpp:884-906 | the encoding has only alphanumerics, plus and percent signs, and is the text itself exactly when that is alphanumeric |
| Url.DecodeInvertsEncode | core/api/StringUtils.cpp:812-906 | decoding the encoding of any byte string succeeds and restores it |
| Url.EncodeInjective | core/api/StringUtils.cpp:884-906 | different byte strings have different encodings |
| Integers.StringToInteger | core/api/StringUtils.h:133-198 | succeeds if and only if the text is an optional sign and digits whose value the type holds, with no minus sign for an unsigned type; then gives that value, else leaves the variable; no step leaves the type |
| Integers.ReadPositive | core/api/StringUtils.h:147-166 | the digit loop up to the largest value |
| Integers.ReadNegative | core/api/StringUtils.h:168-193 | the digit loop down to the smallest value |
| Integers.GetStringMapInteger | core/api/StringUtils.h:204-223 | the default when the key is absent or its text does not parse |
| Integers.WrittenReadsBack | core/api/StringUtils.h:133-198 | every value of the type is read back from its decimal form with or without plus sign and leading zeros, and none outside it is accepted |
| Integers.NoDigitsIsZero | core/api/StringUtils.h:133-198 | a text without digits is accepted as 0, unless it is a minus sign for an unsigned type |
| Replace.Find | core/api/StringUtils.cpp:427-431 | the first occurrence at or after a position, or none |
| Replace.ReplaceString | core/api/StringUtils.cpp:419-433 | ends for every needle, and gives the pieces between the leftmost occurrences joined by the replacement |
| Replace.PiecesRejoin | core/api/StringUtils.cpp:419-433 | the pieces joined by the needle are the text, and are cut at its leftmost occurrences |
| Replace.CutIsUnique | core/api/StringUtils.cpp:419-433 | there is only one such cut |
| Replace.LengthAfter | core/api/StringUtils.cpp:419-433 | each replacement changes the length by the same amount |
| Rounding.RoundToNearest | core/engine/utility.cpp:76-80 | the rounded value is within half an increment |
| Rounding.MultiplesStay | core/engine/utility.cpp:76-80 | a multiple of the increment is left alone |
| Rounding.RoundsAwayFromZero | core/engine/utility.cpp:76-80 | the rounded value is a multiple of the increment, and halves go away from zero |
| Rounding.LotsToNearest | core/engine/utility.cpp:76-80 | whole lots are rounded to a multiple of the lot within half a lot, and multiples stay |
| StopLog.LocalIdInjective | app/cta_strategy/engine.cpp:358-359 | different counts give different stop ids |
| StopLog.FirstLocalIds | app/cta_strategy/engine.cpp:358-359 | local ids are "STOP." and the count, and are told from others by beginning with "STOP" |
| StopLog.LifeCycle | app/cta_strategy/engine.cpp:181-240 | in a legal history each stop id is told waiting and then at most one of cancelled or triggered; it is live exactly in between; only issued ids are mentioned |
| StopLog.TriggerJustified | app/cta_strategy/engine.cpp:186-238 | a stop order is reported triggered only after it was announced, while its strategy runs, on a tick of its symbol that crossed its price in its direction, after limit orders for its direction, offset and volume at the trigger price were sent; if the limits and quotes of the tick bracket its last price, each was sent at a price no worse than the stop price, to fill at once |
| StopLog.TriggerPriceFills | app/cta_strategy/engine.cpp:193-210 | on such a tick the trigger price is at the last price or beyond it on the side that fills; the limit of the day is taken when the tick has one |
| StopLog.CancelJustified | app/cta_strategy/engine.cpp:399-482 | a stop order is reported cancelled only after it was announced and because a strategy asked for it that was started and whose stop has not ended; its own strategy still runs then |
| StopLog.RunningMeansRuns | app/cta_strategy/engine.cpp:665-712 | a strategy counts as running if and only if it was started and not stopped since |
| StopLog.LiveWhileRunning | app/cta_strategy/engine.cpp:689-712 | only strategies that run have stop orders waiting |
| StopLog.LiveUntilTold | app/cta_strategy/engine.cpp:225-239 | a stop order that waits goes on waiting exactly as it stands until its end is told |
| StopLog.RefusalMeansDeclined | app/cta_strategy/engine.cpp:269-290 | a refused request was asked for, its legs were put to the exchange one after the other and each was declined; there was at least one leg if any volume was asked for |
| StopLog.TakenWasSent | app/cta_strategy/engine.cpp:269-290 | every id that an attempt reports as taken was sent in it, for what was asked |
| StopLog.GoneWasTold | app/cta_strategy/engine.cpp:225-239 | a stop order that waited and no longer does was told cancelled or triggered in between |
| StopLog.LiveWasAnnounced | app/cta_strategy/engine.cpp:361-377 | a live stop order was announced exactly as it stands |
| CtaBook.AnnouncedOk | app/cta_strategy/engine.cpp:358-377 | filing a fresh stop order keeps the four maps consistent |
| CtaBook.WithdrawnOk | app/cta_strategy/engine.cpp:407-419 | taking one out keeps them consistent |
| CtaBook.RecordedOk | app/cta_strategy/engine.cpp:275-290 | filing a server order keeps them consistent |
| CtaBook.StopIsListed | app/cta_strategy/engine.cpp:191-216 | the look-ups of strategy and contract for a waiting stop order always succeed |
| CtaBook.ProgressTrans | app/cta_strategy/engine.cpp:238-238 | what callbacks may do to the maps composes |
| CtaBook.GoneStayGone | app/cta_strategy/engine.cpp:404-422 | a stop order that is gone never waits again |
| CtaBook.GoneHow | app/cta_strategy/engine.cpp:225-239 | a stop order that is gone was cancelled, or is among the triggers in between |
| CtaBook.SweptHandled | app/cta_strategy/engine.cpp:177-243 | once the ids of a snapshot were checked in any order, exactly the crossed orders were tried, and any other that is gone was cancelled because a strategy asked for it; without callbacks none is cancelled and none is new |
| CtaBook.HandledStays | app/cta_strategy/engine.cpp:177-243 | what has become of an order stays so through later callbacks, except that they may cancel what still waits |
| CtaBook.StartedOk | app/cta_strategy/engine.cpp:679-681 | a start keeps everything consistent: exactly the strategies that trade run |
| CtaBook.StopEnded | app/cta_strategy/engine.cpp:689-712 | a stop keeps everything consistent at its end, and of the orders that waited only cancelled ones are gone |
| CtaBook.StoppedTrading | app/cta_strategy/engine.cpp:698-705 | after the cancels of a stop, all stop orders belong to strategies that trade and none to the stopped one |
| CtaBook.StrategyRemoved | app/cta_strategy/engine.cpp:741-760 | removing a strategy that does not trade keeps everything consistent |
| CtaBook.RemovalForgetsExactly | app/cta_strategy/engine.cpp:745-758 | an order of the removed strategy stays credited to it if and only if it had left the strategy's set |
| CtaBook.FiredAllowed | app/cta_strategy/engine.cpp:212-238 | once its legs are placed at the trigger price a crossed stop order may be reported |
| Cta.CtaEngine.constructor | app/cta_strategy/engine.cpp:30-36 | a new engine is empty and consistent |
| Cta.CtaEngine.Convert | core/engine/engine.cpp:557-566 | the legs are the request itself or those of a holding in some state; each is the request with another offset and volume, there is one if any volume is asked for, and the request is on record |
| Cta.CtaEngine.ExchangeSend | core/engine/engine.cpp:73-80 | an exchange refuses or gives an id it never gave before, and the answer is on record |
| Cta.CtaEngine.SendLeg | app/cta_strategy/engine.cpp:275-290 | a leg that was taken is filed under its id in both maps; a refused one is only recorded as declined |
| Cta.CtaEngine.SendServerOrder | app/cta_strategy/engine.cpp:245-293 | the request is put to the converter once and every leg to the exchange, in turn and once, and nothing else happens; the ids of the legs taken are returned, in the strategy's set and owned by it |
| Cta.CtaEngine.SendOrder | app/cta_strategy/engine.cpp:425-459 | nothing without a contract; otherwise a local stop order is announced, or the request at rounded price and volume is put to the exchange |
| Cta.CtaEngine.FileStop | app/cta_strategy/engine.cpp:358-377 | the whole new state after a stop order is filed |
| Cta.CtaEngine.TakeStop | app/cta_strategy/engine.cpp:411-416 | the new maps after a stop order is taken out |
| Cta.CtaEngine.SendLocalStopOrder | app/cta_strategy/engine.cpp:346-381 | the order is filed under the next id and announced, and all the callback does comes after |
| Cta.CtaEngine.CancelServerOrder | app/cta_strategy/engine.cpp:383-397 | a cancel request goes out exactly when the order is known |
| Cta.CtaEngine.CancelLocalStopOrder | app/cta_strategy/engine.cpp:399-423 | nothing if the order does not wait; otherwise it is taken out of both maps and its owner told, before anything else, and the history has who asked; without callbacks no other order is gone |
| Cta.CtaEngine.CancelOrder | app/cta_strategy/engine.cpp:461-467 | the prefix decides, and the order is dealt with |
| Cta.CtaEngine.CancelAll | app/cta_strategy/engine.cpp:469-482 | every id in the strategy's set on entry is dealt with, whatever callbacks do meanwhile; without callbacks no other stop order is gone |
| Cta.CtaEngine.TemplateSendOrder | app/cta_strategy/template.cpp:190-212 | a strategy that does not trade sends nothing; for one that does, what it asked for is announced or put to the exchange |
| Cta.CtaEngine.TemplateCancelOrder | app/cta_strategy/template.cpp:214-221 | a strategy that does not trade cancels nothing; one that does has the order dealt with |
| Cta.CtaEngine.TemplateCancelAll | app/cta_strategy/template.cpp:223-230 | the same for all its orders |
| Cta.CtaEngine.React | app/cta_strategy/engine.cpp:238-238 | whatever a callback does, at any depth, keeps the maps consistent, only adds to the history, triggers nothing, starts and stops nothing, and makes new stop orders for trading strategies only |
| Cta.CtaEngine.PriceFor | app/cta_strategy/engine.cpp:196-210 | the upper limit of the day for LONG and the lower one otherwise, when the tick has it, else the fifth ask or bid |
| Cta.CtaEngine.Fire | app/cta_strategy/engine.cpp:225-240 | a stop order whose legs are placed is taken out of both maps and reported before its strategy reacts |
| Cta.CtaEngine.TriggerStop | app/cta_strategy/engine.cpp:189-240 | the stop order's own request at the trigger price is put to the exchange, at a price no worse than the stop price if the tick's price is bracketed; it goes on waiting exactly when no leg was taken, and otherwise is gone and reported with its legs and the tick right after the last answer; callbacks come after that, and without them nothing else happens |
| Cta.CtaEngine.CheckOne | app/cta_strategy/engine.cpp:183-241 | one id of the snapshot is looked up again: if it still waits and the tick crossed it, it is tried as above; otherwise nothing at all changes |
| Cta.CtaEngine.CheckStopOrder | app/cta_strategy/engine.cpp:177-243 | each id of the snapshot is checked once, in some order; of the orders that waited, those the tick crossed were tried, and wait on exactly when no leg was taken, unless a strategy asked for their cancel first; the others wait on unless a strategy asked for their cancel; without callbacks exactly the crossed orders with a leg taken are gone and none is new |
| Cta.CtaEngine.ProcessTickEvent | app/cta_strategy/engine.cpp:97-112 | the same over a whole tick event with the strategies' callbacks, and where the tick is dropped because no strategy has its symbol |
| Cta.CtaEngine.ProcessOrderEvent | app/cta_strategy/engine.cpp:114-147 | an unknown order changes nothing; an order leaves its strategy's set on ALLTRADED, CANCELLED and REJECTED and on no other status, for good, before the strategy is told |
| Cta.CtaEngine.Credit | app/cta_strategy/engine.cpp:153-166 | a first hearing moves the owner's position by the signed volume and no other; a repetition moves nothing |
| Cta.CtaEngine.ProcessTradeEvent | app/cta_strategy/engine.cpp:149-175 | the trade is heard of with the owner its order has now; with the invariant, which ties every position to what was heard of, this determines all positions |
| Cta.CtaEngine.FileContract | core/engine/engine.cpp:417-420 | contracts are added or replaced and never taken away |
| Cta.CtaEngine.AddStrategy | app/cta_strategy/engine.cpp:563-601 | exactly the three refusals; otherwise one new idle strategy is registered under its name and symbol |
| Cta.CtaEngine.InitStrategy | app/cta_strategy/engine.cpp:611-663 | the strategy is initialised in the end and the invariant holds |
| Cta.CtaEngine.StartStrategy | app/cta_strategy/engine.cpp:665-687 | only an initialised strategy starts to trade, and nothing is sent from its start callback: the start is all that happens |
| Cta.CtaEngine.StopStrategy | app/cta_strategy/engine.cpp:689-712 | in the end the strategy does not trade and no stop order names it; whatever stop order of others is gone was cancelled because a strategy asked for it, new ones belong to strategies that trade then; without callbacks exactly the orders that name the strategy are gone |
| Cta.CtaEngine.RemoveStrategy | app/cta_strategy/engine.cpp:726-763 | refused exactly while trading; no stop order is lost or orphaned; the ids in its set are forgotten |
| Cta.CtaEngine.ForgetOwners | app/cta_strategy/engine.cpp:748-755 | the loop forgets exactly the ids given |
| Cta.CtaEngine.Serve | app/cta_strategy/engine.cpp:97-763 | over any sequence of calls with any callbacks the invariant holds, the history is legal with exactly the waiting stop orders live, the trades heard of are those of the calls, and each strategy's pos is what they credit to it |
| Cta.PosOfRun | app/cta_strategy/engine.cpp:149-166 | in any state reached, pos is the signed sum over the distinct trades of the strategy's orders, if each was first heard of while it owned the order |
| Cta.EveryTradeIn | app/cta_strategy/engine.cpp:149-166 | every trade report among the calls is among the trades heard of |
| Cta.SameTradesSamePos | app/cta_strategy/engine.cpp:149-166 | two runs with the same such trades, in any order and repetition, leave the same pos |
| Cta.LegsOfRequest | core/engine/engine.cpp:557-566 | in any state of a holding the converter's legs differ from the request in offset and volume only, and there is one if any volume is asked for |
| Bars.Together | core/engine/utility.cpp:228-238 | the longest run of ticks of one minute |
| Bars.SummariesOneTick | core/engine/utility.cpp:220-273 | a tick of the open minute changes the last group's bar only; any other starts a new one |
| Bars.TickArrives | core/engine/utility.cpp:220-273 | what a tick does to the bars that are out, the one open and the tick remembered |
| Bars.BarsOfRuns | core/engine/utility.cpp:220-273 | every bar is made of a whole run of ticks of one minute: first and last price, reached extremes, last open interest; the runs follow one another and leave no tick out; a bar that is out is stamped with the minute of its last tick |
| Bars.BarGenerator.UpdateTick | core/engine/utility.cpp:220-273 | after any inputs the bars out and the bar open are those of grouping all priced ticks by minute |
| Bars.BarGenerator.CloseOther | core/engine/utility.cpp:222-238 | a bar of another minute goes out with its minute as its time |
| Bars.BarGenerator.BarWith | core/engine/utility.cpp:240-270 | the bar a tick starts or joins, with the volume it adds |
| Bars.BarGenerator.Generate | core/engine/utility.cpp:358-363 | the open bar goes out, stamped, and the next tick starts a new one |
| Bars.Extremes | core/engine/utility.cpp:259-260 | high and low are the greatest and least price of the group, and are reached |
| Bars.EveryBarInOrder | core/engine/utility.cpp:220-273 | low is at most open and close, which are at most high, in every bar; bars that are out are stamped with a whole minute |
| Bars.AllVolume | core/engine/utility.cpp:266-270 | the volume out and open is the sum of the positive changes between consecutive priced ticks |
| Bars.AllVolumeTelescopes | core/engine/utility.cpp:266-270 | when the volume never falls that is the last tick's less the first's |
| RBreak.StartIsLatest | app/strategies/r_break_strategy/r_break_strategy.cpp:80-80 | the start of the current day is the latest change of day |
| RBreak.RangeOneMore | app/strategies/r_break_strategy/r_break_strategy.cpp:94-105 | how one bar changes the range of the whole day |
| RBreak.LevelsOneMore | app/strategies/r_break_strategy/r_break_strategy.cpp:80-92 | levels change only at a new day that follows one with an opening price |
| RBreak.RBreakStrategy.UpdateDay | app/strategies/r_break_strategy/r_break_strategy.cpp:79-105 | day fields and levels after a bar |
| RBreak.RBreakStrategy.KeepBar | app/strategies/r_break_strategy/r_break_strategy.cpp:67-77 | the last two bars are kept once the array is full, and the handler goes on from the third |
| RBreak.RBreakStrategy.PushBar | app/strategies/r_break_strategy/r_break_strategy.cpp:72-77 | the deque keeps the last two bars and the bar before this one is found there |
| RBreak.RBreakStrategy.TakeLevels | app/strategies/r_break_strategy/r_break_strategy.cpp:84-91 | the six levels are those of the day's range, about which `LevelsFormLadder` speaks |
| RBreak.RBreakStrategy.SendOrders | app/strategies/r_break_strategy/r_break_strategy.cpp:110-146 | the stop orders for a position and the trail they use; while a position is held, one order that closes exactly it |
| RBreak.RBreakStrategy.OnBar | app/strategies/r_break_strategy/r_break_strategy.cpp:55-149 | after any bars the day fields are the range of the whole current day and the levels are those of the day before; orders follow from these, none before the hundred-and-second bar; while a position is held, one order that closes exactly it |
| RBreak.Within | app/strategies/r_break_strategy/r_break_strategy.cpp:102-103 | the range covers every bar of the day and is reached |
| RBreak.RangeOrdered | app/strategies/r_break_strategy/r_break_strategy.cpp:94-105 | the day's close never leaves the day's range |
| RBreak.LevelsFormLadder | app/strategies/r_break_strategy/r_break_strategy.cpp:84-91 | levels that are set stand in order around the low and high of the whole day they were taken from |
| RBreak.LevelsByDistance | app/strategies/r_break_strategy/r_break_strategy.cpp:84-91 | the levels by their distances from the day's extremes, middle and each other |
| RBreak.NewDayAtMidnight | app/strategies/r_break_strategy/r_break_strategy.cpp:80-80 | two bars are of different days exactly when a multiple of 24 hours lies between them |
| RBreak.FlatOrders | app/strategies/r_break_strategy/r_break_strategy.cpp:114-133 | a flat strategy sends no or two opening orders, of one and three lots: a break-out order beyond the day's range and its break level, and one at the entry level on the other side; the upward pair exactly when the upper level is negative, the downward pair exactly when it is not and the lower one is positive |
| RBreak.LongTrail | app/strategies/r_break_strategy/r_break_strategy.cpp:135-140 | while a long position is held the trail is the highest price since it was flat and its stop never falls |
| RBreak.ShortTrail | app/strategies/r_break_strategy/r_break_strategy.cpp:141-146 | while a short position is held the trail is the lowest price since it was flat and its stop never rises |
| RBreak.LongOrders | app/strategies/r_break_strategy/r_break_strategy.cpp:135-140 | while a long position is held there is one order: it closes exactly what is held, at 99.6 percent of the highest price since flat, never below the one sent before |
| RBreak.ShortOrders | app/strategies/r_break_strategy/r_break_strategy.cpp:141-146 | the same for a short position at 100.4 percent of the lowest price, never above the one sent before |
| Pipeline.BarsWellFormed | core/engine/utility.cpp:220-273 | every bar made of any ticks has its close within its range |
| Pipeline.LadderOfTicks | app/strategies/r_break_strategy/r_break_strategy.cpp:72-105 | for any stream of ticks, levels that are set form the ladder around the range of a whole earlier day of their bars, and the day's close stays in its range |

## Left out

- HoldingRuns.NeverOverCloses: is about SHFE and INE, requests of the holding's own exchange with a direction other than NET and a non-negative volume, legs sent under fresh ids that contain a '.', and fills whose two reports arrive with no conversion in between; `HoldingLimits` shows what happens without the first, second and last of these.
- PlainRuns.PlainNeverOverCloses: is about the lock and net modes, since the plain mode outside SHFE and INE passes on whatever it is given, and otherwise under the conditions of the line above, with CLOSE for closing; `HoldingLimits.PlainFillCanOverClose` is a run without the order report.
- Holding.PositionHolding.UpdatePosition: a position report with active orders leaves their frozen volume as it was, in the code as in the model; the runs start from a report with none.
- Emitter.GuardsBalanced: recursive locking is not modelled beyond the counter, since no thread of the protocol locks twice.
- Utf.Utf8ToRawBEUtf16: the u16string of byte-swapped units is modelled by its bytes in memory on a little-endian machine.
- Url.UrlEncode: `isalnum` is the one of the "C" locale, and bytes from 80 on are taken for not alphanumeric.
- StopLog.LocalIdInjective: the counter is unbounded; the code's `int` would overflow after 2^31 - 1 stop orders.
- Rounding.RoundToNearest: increments are positive; the code divides by a zero increment of a contract that has none.
- Cta.CtaEngine.React: strategies act only through sending and cancelling with their template, and a callback ends; its extent is bounded by a number that callers choose freely.
- Cta.CtaEngine.CheckStopOrder: the order in which a tick triggers several stop orders is left open.
- Cta.CtaEngine.Convert: the state of the holding is left open here; `Splitting` and `HoldingRuns` say what the converter makes of a request. As in the code, whose binding fixes the argument (core/engine/engine.cpp:348), what is not locked is netted.
- Cta.CtaEngine.InitStrategy: restoring variables and subscribing to market data are not part of this model.
- Bars.BarGenerator.Generate: is called with a bar open, as the code needs.
- RBreak.RBreakStrategy.OnBar: orders are returned, not sent; that earlier orders are cancelled first is the engine's `cancel_all`.
- IEEE float rounding: prices are reals and volumes of the holding and the engine are whole lots.
- Exchange adapters, REST and websocket clients, signing, JSON settings, logging, files, e-mail and the GUI events.
- The OMS engine's own order, trade and quote tables and its wiring of converters, which creates a converter only if there is one already (core/engine/engine.cpp:424).
- `BarGenerator::update_bar`, which drops its window bar after every bar (core/engine/utility.cpp:352).
- `TargetPosTemplate`, whose test for finished orders is inverted (app/cta_strategy/template.cpp:386-389).
- The asio strand the emitter posts to, its timer, and its handler table.
- The array manager's price arrays, which nothing reads while the Donchian channel is constant.
- Calls into the engine from several threads at once: they are taken one after another.
