# A verified model of the trading engine's state machines

This project models the parts of the repository that keep state over a trading day and proves
what every run of them keeps. Prices, quantities and deltas are exact reals, counts are integers,
and everything that comes from outside (ticks, quotes, clock readings, broker answers, solved
option deltas, what a sleep overshoots) is an input that may take any value the code allows.

- **Order-flow recorder** (`OrderFlow`, `FootprintBars`, `Conservation`, `Recorder`, `Storage`,
  `Footprint`, with sums in `Sums`). `OrderFlow` is the value model of ticks, flushes and token
  re-resolves; `Recorder` holds the classes that do it in place and is proved against it.
  `Conservation` proves that volume is conserved over whole runs and that every bar is the summary
  of a plain tick journal; `Storage` and `Footprint` follow a bar into its rows and onto the screen.
- **Delta-hedge engines** (`HedgeSizing`, `HedgeOrders`, `HedgeEngine`, `Dispatcher`, `FMove`,
  `WingSearch`). Band, lot arithmetic and fallback ladder; one evaluation of a book; the
  dispatcher with its single hedge slot and carry-over; the futures-move machine (one model, the
  NATURALGAS and CRUDEOILM hedgers being instances with 1250 and 10 units a lot); the search for
  an option wing.
- **Order and time protocols** (`Throttle`, `SquareOff`, `RateLimiter`, `Triggers`). Bounds over
  every run and, for the duplicate-close guard, over every interleaving of threads.
- **Broker sagas** (`PartialBooking`, `Straddle`, `PaperMonitor`). Every broker call may fail, and
  an order may go through although its caller saw an error or a timeout.
- **Numeric loops and bookkeeping** (`Adx`, `Ema`, `Prototype`, `TunableStore`, `OverridesFile`,
  `ExpiryResolver`). `Nums` holds Python's `round`, `floor` and friends on exact reals.

Code that updates objects in place is a class or a method with loops, proved against functions;
whole-run statements are lemmas about sequences of events. Run `dafny verify dfyconfig.toml`.

## Where the code and its own comments differ

The model follows the code; each difference has a lemma that says exactly when it matters.

- `app/partial_booking.py:9-11` says the position is never bigger than its protection. It is, in
  every booking whose resize takes effect (`PartialBooking.ProtectionOrder`,
  `PartialBooking.BiggerThanItsProtection`), and stays so when the resize then raises
  (`PartialBooking.LeftUnderprotected`); the order of the steps keeps the converse. A reducing
  order that lands behind an error is sent again by the next pass (`PartialBooking.ReducedTwice`);
  row and broker agree exactly when none does (`PartialBooking.TalliedMeans`).
- `app/orders.py:341` promises no second close of a symbol within 30 seconds. What is kept apart is
  the moments at which calls enter the lock; the orders themselves come closer by what the first
  call took (`SquareOff.ClosesSoonWhen`, `SquareOff.ClosedTogether`). And only acknowledged orders
  count: the retry loop inside the call (`:69-98`) may send an order that has landed once more
  (`SquareOff.BoundHoldsWhen`, `SquareOff.OneLossDoublesWhen`, `SquareOff.SentTwice`).
- `app/main.py:339-356` sizes an option's stop to a rupee floor; the floor under the stop price can
  undercut it (`Triggers.StopRisksEnough`, `Triggers.CheapOptionRisksLess`).
- `app/main.py:1045-1110` records two pending orders, without ids, for a straddle whose short legs
  both failed when no wings were on (`Straddle.ProcessStraddle`, `Straddle.RefusedTwice`,
  `Straddle.LandedLateTwice`).
- `app/delta_hedge.py:114-119`: the carry-over does not rule out that the second book is crowded
  out in two consecutive completed ticks (`Dispatcher.TwiceCrowdedWhen`).
- `app/orderflow.py:350-375` and `:490` may resolve a tie for the point of control differently
  (`Storage.PocAgreement`, `Storage.PocMayDisagree`).
- `app/hedge_core.py:220-223` says a confirmed velocity pushes |delta| further out; it may not when
  the drift crosses zero (`HedgeSizing.ConfirmedDrift`).
- `app/hedge_core.py:33` and `:812` let two agreeing votes act earlier than one. The branch is
  reached only past six tenths of the band, where one vote already acts, so the second never
  decides (`HedgeEngine.PreHedgeWhen`).
- `app/hedge_core.py:1111-1112` projects delta after a roll without the leg it has just bought
  back, no projection counts what a LIMIT given up on had filled, and a ladder that fails
  afterwards reports that nothing happened (`HedgeOrders.Ladder`, `HedgeOrders.FailedRollWorsens`).
  So the dispatcher's promise is at most one book hedged per tick, not at most one placing orders.
- `app/ng_fmove_hedge.py:365-368` says the minimum delta keeps a lot from overshooting. At its
  default it keeps a fill from making |delta| larger (`FMove.FillNeverWorsens`); ruling out a sign
  flip takes a minimum as large as the capped order (`FMove.OvershootsWhen`). The file's header
  says the delta anchor becomes the delta seen; the code stores the projected one
  (`FMove.AnchorIsProjected`).
- `app/silverm_delta_hedge.py:117-123` announces the lowest-lot combination; the sort prefers the
  closest one (`WingSearch.FewestLotsWhen`, `WingSearch.FewestLotsNotPreferred`). Its fallback
  (`:215-217`) tries only the lot cap and can overshoot (`WingSearch.FallbackBestWhen`,
  `WingSearch.FallbackOvershoots`).
- `app/state.py:62-98` does not write `ng_fmove_hedge_enabled`, which `:169-170` reads back
  (`OverridesFile.RestartRestoresWhen`).
- `app_prototype.py:99-139` measures risk from the moved stop, so a position taken exactly to
  breakeven is closed by the next price, even one far in its favour (`Prototype.ClosesNextWhen`,
  `Prototype.BreakevenWhen`, `Prototype.BreakevenClosesNext`); one carried past breakeven in a
  single step is trailed (`Prototype.TrailsPastBreakeven`).
- `app/orderflow.py:536-537` speaks of several price levels cleared in sequence; the run is one of
  traded rows and may step over an untraded one (`Footprint.LevelHeightWhen`,
  `Footprint.GappedLevel`).

## Model

| member | source | states |
|---|---|---|
| OrderFlow.ClassifyMirror | app/orderflow.py:91-126 | Reflecting every price about a constant, swapping bid and ask and negating the last direction flips the classified side and direction, if and only if the print is not on both sides of a locked or crossed book (there the ask is tested first, so it counts as a buy both times). |
| OrderFlow.TouchOf | app/orderflow.py:290-313 | The quantity a tick adds, split over buy and sell, is exactly the non-negative increment of the token's cumulative volume, and neither part is negative. |
| OrderFlow.SideOfPrint | app/orderflow.py:91-126 | Of a traded quantity, a print at or above the ask is all buy, else one at or below the bid all sell; inside the book the nearer quote decides, then the direction from the last price, then the last direction; it is halved if and only if none of these decides. |
| OrderFlow.SideOfBar | app/orderflow.py:290-325 | The bar of the tick's bucket gains the whole quantity on that side and nothing on the other, and no other bar changes. |
| OrderFlow.IncrementIs | app/orderflow.py:290-300 | By cumulative volume a tick adds what it rose since the last reading, nothing on the first reading or a fall; without it, the last traded quantity. |
| OrderFlow.CursorFollows | app/orderflow.py:290-327 | A print without new volume leaves the direction; any print moves the last price, and a reported volume the last volume. |
| OrderFlow.RowHolds | app/orderflow.py:313 | A price lies on its row, up to the billionth of a row that absorbs float noise. |
| OrderFlow.BucketHolds | app/orderflow.py:138-145 | A bucket starts at a multiple of the bar width and contains the tick's second. |
| FootprintBars.ApplyBalanced | app/orderflow.py:282-325 | Folding a tick into a bar keeps it balanced (row asks sum to buy_qty, row bids to sell_qty, run_delta is their difference, low <= open, close <= high, delta extremes around run_delta and zero) and raises its volume by exactly the traded quantity. |
| FootprintBars.RowsReplayed | app/orderflow.py:313-319 | A row exists exactly when something traded on it, and its bid and ask are the sells and buys traded on it. |
| FootprintBars.FlowsReplayed | app/orderflow.py:321-325 | buy_qty and sell_qty are the sums over the ticks, and max_delta and min_delta are the exact maximum and minimum of the signed volume over all prefixes, the empty one included. |
| FootprintBars.BarIsSummary | app/orderflow.py:267-325 | The incrementally updated bar equals the statistics computed from its whole tick list, for every tick list: prices, flows and rows. |
| Conservation.TickConserves | app/orderflow.py:250-327 | One tick raises the volume held for a token by exactly what that token's volume meter counts, whatever else is tracked. |
| Conservation.FlushSplits | app/orderflow.py:336-343 | The volume in memory before a flush is the volume left in memory plus the volume handed over. |
| Conservation.VolumeConserved | app/orderflow.py:223-232 | Over every run of tick batches, flushes and token re-resolves, volume in memory plus volume handed to storage equals the sum of the token's non-negative volume increments while tracked; a re-resolve keeps the cursor of a token that stays wanted. |
| Conservation.StepBalanced | app/orderflow.py:247-343 | Every event keeps every bar in memory balanced. |
| Conservation.UpsTelescope | app/orderflow.py:291-296 | The sum of upward steps of a reading sequence is at least last minus first, and equal to it if and only if no reading falls. |
| Conservation.VolumeTelescopes | app/orderflow.py:290-296 | For a token that stays tracked and always reports its volume, the bars hold last minus first reading, if and only if the reported volume never falls. |
| Conservation.BarsSummariseJournal | app/orderflow.py:247-343 | At every point of every run, each bar in memory is the exact summary of a plain journal of the ticks routed to it since it was opened. |
| Conservation.InMemoryWhen | app/orderflow.py:247-343 | Over every run a bar is in memory if and only if an accepted tick has fallen into its bucket and no flush has handed it over since. |
| Conservation.HandedTwice | app/orderflow.py:331-343 | Between two flushes of a run that hand over the same bar lies an accepted tick of its bucket. |
| Storage.AscendingSorts | app/orderflow.py:494-494 | The row listing has every row once, in increasing order. |
| Storage.FirstHeaviestIs | app/orderflow.py:490-490 | The point of control is a heaviest row and the first such row in iteration order. |
| Storage.StoreRoundTrip | app/orderflow.py:484-487 | Storing a bar and reading its cells back recovers exactly the rows and quantities that were in memory. |
| Storage.ReaderPocIsLowest | app/orderflow.py:490-490 | The reader's point of control is the lowest of the heaviest rows. |
| Storage.PocAgreement | app/orderflow.py:350-375 | The stored point of control and the reader's coincide if and only if every row below the writer's is strictly lighter. |
| Storage.PocMayDisagree | app/orderflow.py:350-375 | Two equally heavy rows traded from the top down are stored with the upper row as point of control and shown with the lower. |
| Recorder.Bar.Observe | app/orderflow.py:282-325 | Updating a bar in place does what folding the tick into its value does. |
| Recorder.Tracked.Consume | app/orderflow.py:290-327 | A tick moves the token's cursors and yields its traded quantity by side. |
| Recorder.OrderFlowRecorder.Fold | app/orderflow.py:247-327 | Folding a batch into the shared maps of mutable bars and cursors has the effect of the value model, disturbs no other bar, and keeps every bar balanced. |
| Recorder.OrderFlowRecorder.ResolveTokens | app/orderflow.py:223-232 | Rebuilding the tracking table carries each surviving token's cursors over and touches no bar. |
| Recorder.OrderFlowRecorder.TakeReady | app/orderflow.py:336-343 | A flush takes exactly the completed bars out of memory (all when forced), each unchanged. |
| Recorder.OrderFlowRecorder.Flush | app/orderflow.py:331-390 | The rows written are the completed bars that traded, each stored once under its own key; a failed commit writes none and the bars are gone from memory. |
| Recorder.Drive | app/orderflow.py:189-390 | Any run of batches, flushes and re-resolves on a new recorder object ends in the state of the value model, so volume in its bars plus volume handed over is what was traded, for every token. |
| Footprint.DominatesMeans | app/orderflow.py:502-507 | The imbalance test with its guarded division holds if and only if the cell traded and is at least ratio times its diagonal neighbour. |
| Footprint.EdgesNeverFlagged | app/orderflow.py:496-507 | A row is flagged exactly when its diagonal neighbour is inside the bar's range and is dominated; the lowest row is never a buy imbalance nor the highest a sell imbalance. |
| Footprint.LoadBar | app/orderflow.py:479-529 | The rows shown are the stored rows in increasing price order with their flags, and the shown volume is the sum of their quantities. |
| Footprint.TotalOverIsSum | app/orderflow.py:488-488 | Adding up rows in any order that lists each once gives all bids plus all asks. |
| Footprint.VolumeSurvivesStorage | app/orderflow.py:484-488 | The volume the reader shows for a stored bar is the volume the recorder counted in it. |
| Footprint.StackRunsExact | app/orderflow.py:541-563 | For a minimum length of at least one, the reported spans are exactly the maximal runs of adjacent flagged rows of that length or more, each once and in order. |
| Footprint.SideLevels | app/orderflow.py:541-563 | The loop that collects and breaks runs writes exactly those spans, with the first row's price, the last row's upper edge and the row count. |
| Footprint.LevelHeightWhen | app/orderflow.py:535-563 | A level is at least as high as its rows, and exactly as high if and only if no untraded price row lies between them. |
| Footprint.LoadedLaddered | app/orderflow.py:490-530 | The rows of a loaded bar stand at their prices in strictly ascending order. |
| Footprint.GappedLevel | app/orderflow.py:535-563 | Three flagged rows around an untraded one make a level of four price rows. |
| Footprint.GridFits | app/main.py:4394-4406 | Merging uses between one and max_rows display rows, and every price row lands on one of them. |
| Footprint.MarkedIs | app/main.py:4405-4412 | A display cell's mark means that some row landing on it has the mark. |
| Footprint.MergeBar | app/main.py:4403-4413 | Display cells exist exactly where rows land, show a mark exactly when one of their rows has it, and preserve the bar's total bid and total ask. |
| Footprint.ShowBar | app/orderflow.py:479-529 | From recorder to screen: the display cells of a stored and reloaded balanced bar add up to the volume traded in it. |
| Footprint.SessionStats | app/orderflow.py:580-596 | Total buys and total sells of the bars, and at each bar of the path all buys so far minus all sells, so that it ends at the difference of the totals. |
| RateLimiter.IPRateLimiter.IsAllowed | app/auth.py:42-51 | A call updates only its own IP's bucket and is allowed exactly when the refilled bucket holds a token. |
| RateLimiter.AllowedArePaid | app/auth.py:42-51 | In any window of any interleaved history, allowed calls of an IP plus its closing balance never exceed its opening balance plus the refill in between. |
| RateLimiter.WindowBound | app/auth.py:27-51 | Between any two calls of a history an IP is allowed at most capacity plus refill_rate times the elapsed time. |
| RateLimiter.OthersAreInvisible | app/auth.py:39-51 | An IP's bucket after a history is its bucket after its own calls alone. |
| RateLimiter.AnswerDependsOnOwnCalls | app/auth.py:39-51 | The answer to a call is the answer it would get if no other IP had ever called. |
| RateLimiter.FirstCallServed | app/auth.py:45-49 | With capacity for one token an IP's first call is allowed. |
| RateLimiter.SpacedCallServed | app/auth.py:46-49 | With capacity for one token a call at least 1/refill_rate after the previous one of its IP is allowed. |
| RateLimiter.BurstServed | app/auth.py:42-52 | With some tokens in hand that many next calls are served, however close they come. |
| RateLimiter.BurstWhen | app/auth.py:42-52 | Of a new IP's calls at one instant a call is served if and only if it is within the capacity. |
| Throttle.BackoffCall | app/orders.py:69-98 | Attempts follow one another by exactly the answer's duration and the back-off; it goes on exactly while the error is retryable and retries are left, and succeeds exactly when the last attempt does. |
| Throttle.DelayDoubles | app/orders.py:69-98 | The back-off starts at a second and doubles up to eight. |
| Throttle.QuoteThrottle.ThrottledCall | app/orders.py:29-58 | A call starts at once if the last one ended the interval ago and otherwise when it is over, not later; its attempts are those of the retry loop, and consecutive attempts of all calls are a second apart. |
| Throttle.WindowHolds | app/orders.py:36-57 | Any two attempts are apart by at least a second for each attempt in between. |
| Throttle.Drive | app/orders.py:41-57 | Any sequence of requests sends between one and four attempts per request and never more than one a second. |
| SquareOff.InvHolds | app/orders.py:347-399 | In every interleaving of any number of threads, retries included, the per-symbol lock excludes, timestamps are ordered and every acknowledged order is remembered. |
| SquareOff.NoDuplicateClose | app/orders.py:347-399 | Two acknowledged orders for one symbol come from calls that entered the lock at least 30 seconds apart, in every interleaving. |
| SquareOff.OrdersApart | app/orders.py:347-399 | The orders themselves are at least 30 seconds apart less the time the first call took from entering the lock to its order. |
| SquareOff.ClosesSoonWhen | app/orders.py:347-399 | In any run, an acknowledged order can be followed by another acknowledged one of its symbol less than 30 seconds later if and only if its call took any time from entering the lock to it. |
| SquareOff.ClosedTogether | app/orders.py:347-399 | A run without a lost acknowledgement in which two orders for one symbol are acknowledged at the same instant. |
| SquareOff.LandedAfterOpen | app/orders.py:347-391 | Every order that reaches the broker, in every interleaving, comes from a call that entered the lock, passed its checks, was told the position is open, and only then made attempts. |
| SquareOff.FlatSendsNothing | app/orders.py:357-366 | A call told that the position is flat sends nothing: its thread sends again only after entering the lock again. |
| SquareOff.FlatBarsUntil | app/orders.py:349-366 | In any run a flat finding keeps later calls from sending for its symbol too: one that enters the lock at a given later moment can send if and only if that is 30 seconds or more after the flat call entered. |
| SquareOff.FlatThenSent | app/orders.py:349-366 | A run in which a call finds the position flat and another, 30 seconds later, sends. |
| SquareOff.LandedFarApart | app/orders.py:347-399 | If no attempt lands behind an error, any two orders that reach the broker for one symbol come from calls at least 30 seconds apart, in every interleaving. |
| SquareOff.BoundHoldsWhen | app/orders.py:69-98 | The calls behind any two orders of a symbol that reach the broker entered the lock 30 seconds apart, in every run, if and only if no attempt can land unacknowledged. |
| SquareOff.OneLossDoublesWhen | app/orders.py:69-98 | A single lost acknowledgement can bring a second order too soon if and only if the call that lost it still retries, or gives up within 30 seconds of entering the lock. |
| SquareOff.SentTwice | app/orders.py:391-396 | A run in which one close sends its order twice: the first attempt lands behind a network error and is retried. |
| Triggers.LandsOnGrid | app/main.py:232-236 | For a tick that is a whole number of paise, rounding lands on the tick grid and the second rounding to two decimals changes nothing. |
| Triggers.RoundToTickMonotone | app/main.py:232-236 | Rounding to the tick never reverses the order of two prices. |
| Triggers.SlDistanceIs | app/main.py:328-354 | An option's stop distance is at least a point and the least that is worth the rupee band, or else the percentage and a thousand rupees. |
| Triggers.TargetDistanceIs | app/main.py:328-356 | Its target distance is at least a point and the least that is worth the rupee band, or else the risk-reward multiple of the percentage. |
| Triggers.NoTick | app/main.py:232-236 | Without a tick size a price is rounded to whole paise. |
| Triggers.HalfUpTies | app/symbol_mapper.py:268-270 | A price just between two ticks goes out at the one further from zero. |
| Triggers.BandBrackets | app/main.py:304-392 | For a fill on the grid (options: at least one tick and 0.05) the rounded, floored stop and target lie on the correct sides of it, bought or sold, with fixed rupee bands or percentages. |
| Triggers.StrictlyBracketsWhen | app/main.py:304-392 | They lie strictly on their sides if and only if both distances are more than half a tick, or just half a tick off an odd grid price, and an option's fill is above the lowest trigger. |
| Triggers.StopOnFill | app/main.py:359-392 | An option bought for 0.05 at that tick has its stop on its fill. |
| Triggers.StopDistance | app/main.py:339-392 | The stop set for an option is within half a tick of its intended distance: always when sold, and when bought if and only if that distance ends no more than half a tick below the lowest stop. |
| Triggers.StopRisksEnough | app/main.py:339-392 | Allowing half a tick a unit for rounding, an option loses at least the 1000 rupee floor or the requested band at the stop set: always when sold, and when bought if and only if the fill is worth that much above the lowest stop. |
| Triggers.CheapOptionRisksLess | app/main.py:339-356 | Ten units bought at two rupees lose less than twenty at the stop, though its distance is meant for a thousand. |
| Triggers.ExitOrderIsSound | app/orders.py:152-221 | From fill to exchange the triggers go out unchanged and in ascending order around the fill, the exit is on the opposite side, and both limits are on the aggressive side of their triggers after rounding, within half a tick of the slippage allowed. |
| Straddle.PlaceEntryWings | app/entry_wings.py:107-148 | Both wings end up on, or only those whose late fill or failed reversal the caller cannot see. |
| Straddle.AttachEntryWings | app/entry_wings.py:261-319 | A plan is returned exactly when both wings are on, and the entry is blocked exactly when wings are required and missing. |
| Straddle.PlaceShorts | app/main.py:981-1108 | Leg by leg what the short phase leaves on, for every combination of fills, late fills and failed compensations, and what it records. |
| Straddle.ProcessStraddle | app/main.py:948-1108 | The broker holds exactly the booked legs if and only if nothing landed late and every needed compensation worked; two pending orders without ids are recorded exactly when neither short gets an id and there are no wings to give back; with required wings no short leg is ever sent without both wings on, and one is left uncovered exactly when it outlives its compensation while a wing is sold back. |
| Straddle.RefusedTwice | app/main.py:1045-1108 | Both short legs refused without wings: two pending orders are recorded and nothing is on. |
| Straddle.LandedLateTwice | app/main.py:1045-1108 | Both landing too late: two pending orders without ids are recorded while both short legs are on. |
| PartialBooking.BookedIsProper | app/partial_booking.py:51-56 | A position of at least two units is really split, whatever the configured fraction: something is booked and something is left. |
| PartialBooking.BookedSliceProfits | app/partial_booking.py:34-48 | A slice booked past a positive trigger earns at least that share of the way to target on every unit. |
| PartialBooking.SurvivorAtStop | app/partial_booking.py:109-124 | At a stop moved to breakeven the surviving slice is off its entry by at most half a tick a unit, by nothing when the entry is on the grid, and it does not lose if and only if the rounding did not go against it. |
| PartialBooking.ProtectionOrder | app/partial_booking.py:137-192 | From agreement: the exit order never exceeds the position unless and only unless, after a resize that returned, a reduction landed twice or landed behind an error and the restore took effect; the position never exceeds its protection if and only if the resize was refused; a failed booking ends in agreement if and only if the resize was refused, or it returned, nothing was reduced and the restore took effect. |
| PartialBooking.BiggerThanItsProtection | app/partial_booking.py:137-192 | The ordinary booking holds ten units under an exit order of seven for one step. |
| PartialBooking.Position.BrokerSteps | app/partial_booking.py:137-192 | The broker goes through exactly the steps of `Trail`, every attempt that lands leaves the position, a resize or restore may take effect behind an error, and success means resized and acknowledged. |
| PartialBooking.Position.BookPartial | app/partial_booking.py:83-243 | A booking completes exactly when there is something to book inside the re-armed band and the broker acknowledged both steps; it then moves the slice from open to booked, banks its rounded P&L and moves the stop, anything else leaves the row unchanged; row, position and exit order stay in agreement if and only if nothing was ready, the resize was refused, or it returned, nothing landed behind an error and a failed reduction was put right. |
| PartialBooking.Pass | app/partial_booking.py:246-298 | One pass books exactly the positions that are open, of its mode, unbooked, of more than one unit, with a live exit and a quote that has come the trigger share of the way in prices, and whose booking completes; each gets that slice at that quote, no other row changes, every unit stays accounted for, and the orders that landed behind an error are exactly those of the pass. |
| PartialBooking.ComesWhen | app/partial_booking.py:34-48 | The progress fraction reaches a share if and only if the price has come that share of the way from entry to target, or the band is inverted and the share is not positive. |
| PartialBooking.Passes | app/partial_booking.py:246-298 | Over any number of passes a position is booked by the first that meets it, with the slice of that pass, and by no other; a position that none meets keeps its row. |
| PartialBooking.BookedAtEnd | app/partial_booking.py:246-298 | So it is booked at the end if and only if it started booked or some pass met it. |
| PartialBooking.MetProfits | app/partial_booking.py:246-298 | A slice booked at a positive trigger is in profit by at least that share of the way to target on every unit. |
| PartialBooking.TalliedMeans | app/partial_booking.py:246-298 | After any passes the row has lost no unit; what the broker holds plus every reducing order that landed is the original quantity; row and broker agree if and only if no reducing order landed behind an error, and then at most one landed; once booked, the exit order is for what the row has left. |
| PartialBooking.ReducedTwice | app/partial_booking.py:159-192 | A reducing order that lands behind an error and one that is acknowledged: two orders of three landed, the row says seven are left and the broker holds four. |
| PartialBooking.LeftUnderprotected | app/partial_booking.py:137-157 | A resize that takes effect and then raises: nothing is booked or put back, and ten units are left under an exit order of seven. |
| PartialBooking.Position.ClosePaper | app/paper_trading.py:90-111 | The P&L written at the close is that of the closing slice and the banked one, within half a paisa of the slices' exact P&L, and the slices add up to the original quantity. |
| PartialBooking.PassesThenClose | app/paper_trading.py:90-111 | After any passes and the close, the P&L written is within half a paisa of that of the slices actually closed, which are the whole position: two if and only if it started booked or some pass met it, else one. |
| PaperMonitor.Monitor | app/paper_trading.py:171-218 | Each open paper position is closed at most once, at its quote and for a reason it has, and it is closed exactly when it is quoted and either exits on its own account or a leg of its straddle hit its band. |
| PaperMonitor.NoQuotedLegLeft | app/paper_trading.py:203-216 | After a minute in which one leg of a straddle hit its band, another leg is left open only if it had no quote. |
| PaperMonitor.ExitsWhen | app/paper_trading.py:193-207 | In prices, for a bought and a sold position: the stop comes first, then the target, and the end of the day closes exactly what is strictly inside its band or has none. |
| HedgeSizing.BandOrder | app/hedge_core.py:234-265 | The band stays within its floor and ceiling, is tightest when delta expands and widest when it contracts, and never narrows with book size or with the hedges already done. |
| HedgeSizing.BandIs | app/hedge_core.py:255-257 | Between floor and ceiling the band is what it multiplies out to, beyond them the nearer one. |
| HedgeSizing.BandScales | app/hedge_core.py:234-262 | Before its floor and ceiling the band is proportional to its base and the book-size factor, times the adverse, the favourable or no multiple. |
| HedgeSizing.EscalationSteps | app/hedge_core.py:234-262 | Every hedge done today adds the same share to the band. |
| HedgeSizing.LastSamplesAre | app/hedge_core.py:204-232 | The drift is read off the last samples in their order, all of them when there are no more. |
| HedgeSizing.ConfirmedDrift | app/hedge_core.py:204-231 | A confirmed velocity means delta is expanding, if and only if the oldest sample is not at least as far out on the other side of zero. |
| HedgeSizing.ConfirmedYetContracting | app/hedge_core.py:220-231 | A drift from -10 through -5 to 1 is confirmed although delta's size shrank. |
| HedgeSizing.LotsClear | app/hedge_core.py:268-280 | The lot count is between one and the cap, clears the excess unless capped, and never by a whole lot more than needed. |
| HedgeSizing.HedgeLands | app/hedge_core.py:998-1017 | An order sized for a breach with residual ratio at or below the trigger fraction always has something to clear, pushes delta toward zero and, uncapped, lands within one lot under the target; capped it stays on its side. |
| HedgeSizing.NothingToClear | app/hedge_core.py:268-280 | The branch of the lot sizing for a non-positive excess is reachable if and only if the residual ratio exceeds the trigger fraction. |
| HedgeOrders.LimitThenMarket | app/hedge_core.py:411-500 | LIMIT mode exactly when some poll completes before one is dead; the filled quantity is what the mode says if and only if the abandoned LIMIT had not filled, and otherwise exceeds it by that stray fill. |
| HedgeOrders.SellRung | app/hedge_core.py:998-1017 | Selling the same side adds delta of the opposite sign, with the solved lots, and from a breach lands where sized; a given-up LIMIT moves the book by its stray fill. |
| HedgeOrders.BuyRung | app/hedge_core.py:1138-1178 | Buying the opposite option adds delta of the opposite sign, with the solved lots, and from a breach lands where sized; a given-up LIMIT moves the book by its stray fill. |
| HedgeOrders.FutureRung | app/hedge_core.py:1184-1212 | The future is sold against a long book and bought against a short one, with the solved lots, and from a breach lands where sized; a given-up LIMIT moves the book by its stray fill. |
| HedgeOrders.Ladder | app/hedge_core.py:1030-1224 | Placing each rung through LIMIT and MARKET, it hedges exactly when some reachable rung works, with one well-sized order on the first such rung; the delta really on the book differs from the reported projection by exactly the bought-back leg and what given-up LIMITs of the rungs tried have filled; a ladder that fails leaves at most those. |
| HedgeOrders.FailedRollWorsens | app/hedge_core.py:1048-1132 | A buy-back followed by failure leaves delta further from zero than before. |
| HedgeEngine.PortfolioDelta | app/hedge_core.py:640-672 | The loop computes the sum over futures legs (delta one) and option legs with a solvable delta, and whether any option leg was priced. |
| HedgeEngine.BooksAdd | app/hedge_core.py:640-672 | Two books held together have the sum of their deltas. |
| HedgeEngine.LegMoves | app/hedge_core.py:640-672 | A future moves the delta by its quantity times the lot units; bought futures and calls raise it, sold ones lower it, puts the other way; an unsolvable leg counts nothing. |
| HedgeEngine.PreHedgeWhen | app/hedge_core.py:789-826 | A book is past its trigger if and only if it is past the band, or past six tenths of it with an order book leaning its way by more than half or a confirmed velocity; the second vote never decides. |
| HedgeEngine.WantsWhen | app/hedge_core.py:680-842 | A book wants to hedge if and only if it can be read, is past the band (or six tenths of it with a vote), and past the bypass multiple of every breaker that holds: the freeze, a hedge less than the cooldown ago, a delta no further out than its oldest sample. |
| HedgeEngine.Round1Near | app/hedge_core.py:693 | Samples are kept to the nearest tenth. |
| HedgeEngine.PassingBreaches | app/hedge_core.py:778-842 | With a residual ratio of at most one half, every book that passes the gates breaches the level its order is sized from, so sizing never meets a non-positive excess. |
| HedgeEngine.HedgeState.Gates | app/hedge_core.py:717-837 | The breakers let a tick through exactly when no freeze, cooldown or reversion hold applies within its bypass multiple and delta is outside the effective band. |
| HedgeEngine.HedgeState.Process | app/hedge_core.py:567-1285 | Whichever option of the right side is sold and however its orders are answered: hedged if and only if the book wants to, is let, has an option to sell, is not simulated and some rung works, and then by one well-sized genuine order of the first such rung, counted and timestamped; deferred if and only if it wants to but may not; the buy-back went out exactly when it worked; else nothing but the sample changes. |
| HedgeEngine.RunDay | app/hedge_core.py:567-1245 | A day of evaluations of one book is a chain over exactly the given inputs: each starts from the state the one before left, and does what one evaluation does. |
| HedgeEngine.CountIsHedges | app/hedge_core.py:1240-1244 | Over a day the escalation count a tick sees is the number of hedges before it. |
| HedgeEngine.BookOfDay | app/hedge_core.py:680-694 | The state a tick starts from is told by the ticks before it: the number of hedges, the time of the last, the last fifteen samples, and a deferral just before. |
| HedgeEngine.HedgesWhen | app/hedge_core.py:567-1285 | Over a whole day a tick hedges if and only if it is let, finds an option and a rung that works, and wants to, judged by what it sees and the results and samples of the ticks before it. |
| HedgeEngine.HedgesSpaced | app/hedge_core.py:739-756 | Over a day two hedges of one book are at least the cooldown apart unless the later one found delta beyond the bypass multiple of the band. |
| Dispatcher.AdjacentMinutes | app/hedge_core.py:326-340 | A cadence is due in two adjacent clock minutes if and only if its interval is at most one, or it is 59 and fires at :59 and :00. |
| Dispatcher.RunDue | app/delta_hedge.py:148-162 | At most one due book comes out hedged, and every due book ends, and leaves its slice, as its own visit makes it, allowed to place orders exactly when no earlier one hedged. |
| Dispatcher.ArbitratedMeans | app/delta_hedge.py:148-162 | So a due book is deferred if and only if it wants to hedge behind one that did, hedged if and only if it can and none did, and raised if and only if its evaluation raises. |
| Dispatcher.DeltaHedgeJob.Load | app/hedge_core.py:160-189 | On a new date both books start from blank slices; on the same date nothing changes. |
| Dispatcher.DeltaHedgeJob.Wake | app/delta_hedge.py:96-162 | The due books are evaluated if and only if there are any, nothing is stopped, the positions came and no half exit just happened; exactly the enabled books due by cadence or carry-over, NATURALGAS first and never deferred; each ends, and leaves its slice, as its own visit makes it. |
| Dispatcher.RunDay | app/delta_hedge.py:96-162 | A day of wake-ups with nothing carried over obeys the dispatcher's rules at every tick, its flags are those of the log, and every tick sees what there was to see and passes the slices of both books on. |
| Dispatcher.LeaderNeverCarried | app/delta_hedge.py:88-92 | Over every day the first book never carries over. |
| Dispatcher.CrowdedOnLeaderCadence | app/delta_hedge.py:114-119 | The second book is crowded out only in minutes of the first book's own cadence, by a hedge of the first. |
| Dispatcher.StaysCarried | app/delta_hedge.py:114-119 | A deferral outlives every wake-up at which the book cannot be evaluated. |
| Dispatcher.TurnComesNext | app/delta_hedge.py:114-119 | A crowded-out book is evaluated at the next wake-up that has a session and finds it switched on, however many are lost before; if that is the next minute and the first book's cadence has no adjacent minutes, it has the slot to itself. |
| Dispatcher.FirstCrowdingOnBoth | app/delta_hedge.py:114-119 | Over every day, the second book is crowded out only after a first time in a minute on both books' cadences. |
| Dispatcher.TwiceCrowdedWhen | app/delta_hedge.py:114-162 | A day whose consecutive completed ticks at two given minutes both crowd out the second book exists if and only if both minutes are on the first book's cadence and some minute is on both cadences. |
| FMove.FMoveHedge.Tick | app/crudeoilm_fmove_hedge.py:213-478 | Anchored exactly on the first priced tick of the day, advanced exactly when the trigger is reached but delta is small or reverting, filled exactly when every gate passes and the order goes through; any other tick leaves the state file alone. |
| FMove.FMoveHedge.Hedge | app/ng_fmove_hedge.py:363-499 | The same machine past its trigger: a fill moves anchor, delta anchor, count and time together. |
| FMove.ResolveMeans | app/ng_fmove_hedge.py:326-350 | An unpriced leg never counts; a priced one by its solved delta, else by 0.95 toward the side that is in the money: calls below the futures price, puts above. |
| FMove.WantedNearest | app/crudeoilm_fmove_hedge.py:398-400 | When at least half a lot is due, the uncapped lot count leaves at most half a lot's delta. |
| FMove.SizeLands | app/crudeoilm_fmove_hedge.py:390-410 | Lots are between one and the cap; the projection is within half a lot of flat when half a lot was due and the cap allowed it; when the cap binds the sign is kept. |
| FMove.ImprovesWhen | app/crudeoilm_fmove_hedge.py:398-404 | An order leaves the book closer to flat if and only if more than half a lot was due, and no further if and only if at least half a lot was. |
| FMove.FillNeverWorsens | app/crudeoilm_fmove_hedge.py:346-404 | With the minimum delta at half a lot's units, as both engines default to, no fill leaves the book further from flat. |
| FMove.OvershootsWhen | app/ng_fmove_hedge.py:363-425 | Some delta at or above the minimum is overshot if and only if the minimum is below what the capped order moves. |
| FMove.AnchorIsProjected | app/ng_fmove_hedge.py:378-496 | After a fill the delta anchor is the projected delta, never the delta seen, and the direction gate then judges some delta otherwise if and only if the order did not carry twice the delta seen. |
| FMove.FillsCapped | app/crudeoilm_fmove_hedge.py:244-249 | Over a day the counter equals the number of fills and a positive daily cap bounds it. |
| FMove.FillsSpaced | app/crudeoilm_fmove_hedge.py:251-264 | Any two fills of a day are at least the cooldown apart. |
| FMove.TravelCovers | app/crudeoilm_fmove_hedge.py:266-275 | Over a day the distance the futures price has travelled covers the trigger for every anchor move plus the present distance to the anchor. |
| FMove.FillsNeedTravel | app/crudeoilm_fmove_hedge.py:266-275 | Over a day the futures price travels at least the trigger for every fill. |
| FMove.RunDay | app/crudeoilm_fmove_hedge.py:213-478 | Any day of ticks of the machine itself is such a day: fills within a positive cap, and at least the trigger of price travel for each. |
| WingSearch.OtmMembers | app/silverm_delta_hedge.py:144-149 | The rows looked at are the out-of-the-money ones and all of them: calls above the price, puts below. |
| WingSearch.CandidatesNearest | app/silverm_delta_hedge.py:150-156 | They are looked at nearest first, and one is left out only when fifteen others are no further away. |
| WingSearch.UsableWhen | app/silverm_delta_hedge.py:182-206 | A strike is used if and only if it is quoted, held by enough others, solved, neither too far out nor too deep, and a call for a short or flat book or a put for a long one. |
| WingSearch.FindHit | app/silverm_delta_hedge.py:203-211 | The lot loop finds the fewest lots within the cap that reach the target, or none does. |
| WingSearch.SortIs | app/silverm_delta_hedge.py:246-253 | Sorting yields every entry in strictly ascending key order, or raises, if and only if two entries share the whole key. |
| WingSearch.TiedHits | app/silverm_delta_hedge.py:203-211 | Two scored entries share a key if and only if two usable strikes reach the target with the same residual size, lots and open-interest bucket. |
| WingSearch.PickWing | app/silverm_delta_hedge.py:105-261 | If some usable strike reaches the target within the cap, the pick reaches it with the fewest lots for its strike and beats every other strike's fewest-lot hit; otherwise it is the best usable strike at the lot cap; none exactly when no quote or no usable strike; raised exactly on a key tie. |
| WingSearch.BestHitMeans | app/silverm_delta_hedge.py:203-251 | The pick leaves the least delta of all hits; among those that leave as little it has the fewest lots, and among those the most open interest in five-hundreds up to twenty. |
| WingSearch.CapIsBestWhen | app/silverm_delta_hedge.py:219-246 | For one strike the lot cap leaves the least delta of all lot counts if and only if the cap is one or (2*cap-1) lots carry at most twice the book's delta. |
| WingSearch.CapWorsensWhen | app/silverm_delta_hedge.py:219-246 | Buying at the cap leaves the book further from flat if and only if it buys more than twice the book's delta. |
| WingSearch.FallbackBestWhen | app/silverm_delta_hedge.py:215-251 | The fallback's choice is the best of all usable strikes and all lot counts if and only if no usable strike does better at the lot count nearest to flat, computed from the book and one lot's delta. |
| WingSearch.FallbackBest | app/silverm_delta_hedge.py:215-251 | It is so whenever the lot cap is every usable strike's own best lot count, under the exact condition of `WingSearch.CapIsBestWhen`. |
| WingSearch.FineFallbackBest | app/silverm_delta_hedge.py:215-251 | When no lot is coarser than the target window it is so too, and the book keeps its sign. |
| WingSearch.FallbackOvershoots | app/silverm_delta_hedge.py:215-251 | With coarse lots the fallback can leave more delta than doing nothing, although fewer lots would have helped. |
| WingSearch.FewestLotsWhen | app/silverm_delta_hedge.py:117-123 | The pick has the fewest lots of all hits if and only if some usable strike's fewest-lot hit is at once the fewest in lots and the closest to flat. |
| WingSearch.FewestLotsNotPreferred | app/silverm_delta_hedge.py:117-123 | A hit with fewer lots is passed over for one that lands closer. |
| Adx.ComputeAdx | app/adx.py:10-66 | The loops compute the index, and it is missing only for fewer than 2*period+1 candles: the second missing-value branch is dead. |
| Adx.DxCancels | app/adx.py:41-47 | The true range cancels out of DX. |
| Adx.RangeIs | app/adx.py:29 | The true range is the spread of the bar and the close before it together. |
| Adx.MovesOneWay | app/adx.py:31-35 | A bar moves up or down by whichever of its high and low went further out, and only outward; never both ways. |
| Adx.DxMeans | app/adx.py:42-49 | DX is the percentage of the directional sums by which one exceeds the other: nothing when they are level, a hundred when one is absent. |
| Adx.SteadySmoothed | app/adx.py:38-56 | In a steady market the smoothed sums are those of the last period bars for good. |
| Adx.StraightTrend | app/adx.py:9-66 | A market that climbs, or falls, by the same step at every bar has an index of a hundred. |
| Adx.AdxIsPercentage | app/adx.py:41-66 | The index is between 0 and 100 for all candles. |
| Adx.TrueRangeCancels | app/adx.py:24-55 | On candles with low <= close <= high the smoothed directional movements, and even their sum, stay within the smoothed true range, and DX depends on them alone. |
| Adx.AdxUnchanged | app/adx.py:10-66 | Scaling all prices by a positive factor, shifting them, or mirroring them leaves the index unchanged. |
| Ema.EmaSeries | app/ema_analyzer.py:44-61 | The loop fills the aligned list: missing before the seed bar, the seed mean, then the recurrence. |
| Ema.AverageBetween | app/ema_analyzer.py:44-61 | Every defined average lies between the least and greatest input so far. |
| Ema.TrailsALine | app/ema_analyzer.py:34-61 | On a straight line of prices the average runs parallel to it, trailing by half of period - 1 bars at every bar. |
| Ema.SeriesPrefix | app/ema_analyzer.py:44-61 | The series of a prefix is the prefix of the series. |
| Ema.AverageImage | app/ema_analyzer.py:44-61 | Averaging commutes with every affine change of units. |
| Ema.WarmUpWhen | app/ema_analyzer.py:89-107 | With enough candles and a lookback of at least zero the warm-up branch is reached if and only if the fast period is not positive. |
| Ema.CrossNeedsBreak | app/ema_analyzer.py:109-132 | A bullish cross happens only on a bar that closes above both averages of the bar before and above the slow average now, a bearish one only on one that closes below; never both; and every action has its cross. |
| Ema.ActsWhen | app/ema_analyzer.py:98-132 | On positive prices the signal is to buy if and only if the fast average has come from at or below the slow one to above it and the slow one has risen by the given share over the look-back, and to sell in the mirror image. |
| Ema.FlatWithoutReference | app/ema_analyzer.py:109 | Without a reference to compare with, the slope counts as flat. |
| Ema.UnitsDoNotMatter | app/ema_analyzer.py:89-137 | Multiplying every close by a positive constant changes neither the action nor the slope. |
| Prototype.Bot.UpdatePositions | app_prototype.py:88-167 | The two loops move every stop, then take exactly the hit positions off the list and book each of them in order. |
| Prototype.Bot.Webhook | app_prototype.py:174-237 | A signal is answered and applied as the value model says: duplicates change nothing, others update first and open only if every limit allows. |
| Prototype.StopNeverLoosens | app_prototype.py:103-139 | An update never loosens a stop. |
| Prototype.ProfitWritten | app_prototype.py:95-141 | Profit is written to the nearest hundredth: what the price gained on a bought position, lost on a sold one, nothing otherwise. |
| Prototype.ClosesNextWhen | app_prototype.py:99-139 | The next price closes a position, wherever that is, if and only if its stop is exactly its entry price or is not short of its target. |
| Prototype.BreakevenWhen | app_prototype.py:105-139 | An update leaves a position open with its stop on the entry price if and only if the stop was on the losing side and the gain is at least one risk but less than one and a half. |
| Prototype.BreakevenClosesNext | app_prototype.py:99-139 | A long taken to breakeven by the price 110 is closed by the price 500. |
| Prototype.TrailsPastBreakeven | app_prototype.py:105-112 | The same long carried past breakeven in one step is trailed twice. |
| Prototype.StaysOpenWhen | app_prototype.py:99-139 | Moving the stop first changes nothing about which prices close a position: it stays open exactly strictly between the stop it had and its target, unless that stop is its entry price. |
| Prototype.ClosesFor | app_prototype.py:99-139 | It closes at its stop, which comes first and claims every position whose stop is its entry price, or else at its target. |
| Prototype.SignalKeeps | app_prototype.py:65-224 | Every signal keeps open_positions = number of positions <= 3, trade_count = open + closed <= 10, daily_pnl = sum of closed P&L and consecutive_losses = trailing losing run. |
| Prototype.OpensWhen | app_prototype.py:65-82 | A signal opens a trade, at its own prices, if and only if its id is new and, after its price has closed what it closes, the day's loss is short of 2000, fewer than ten trades were opened, fewer than three are open, fewer than three losses came in a row, and trading is on. |
| Prototype.InvAlways | app_prototype.py:65-224 | These hold after every run of signals and start/stop switches. |
| Prototype.IdActsOnce | app_prototype.py:183-188 | The second arrival of a signal id changes nothing, in every run. |
| Prototype.LockedForever | app_prototype.py:65-82 | Once nothing is open and the loss limit, the trade limit or the losing run is reached, no event of any run opens a trade again. |
| Prototype.LockedWhen | app_prototype.py:65-82 | A flat bot is locked if and only if no signal could open a trade even with trading switched on. |
| Prototype.StopsHoldOverRuns | app_prototype.py:88-139 | Over any stretch of any run the stop of a position still open has not loosened and its side, entry and target are unchanged. |
| TunableStore.Overrides.Clear | app/state.py:893-903 | Deleting name by name leaves exactly the entries not under the dotted slug: the engine is left with no override, and every engine of a separate slug with all of its own. |
| TunableStore.ClearTouchesWhen | app/state.py:893-903 | Clearing one engine can touch another's entry if and only if one dotted slug begins the other. |
| TunableStore.DotFreeSeparate | app/state.py:869-870 | Different slugs without a dot never interfere, even when one begins the other. |
| TunableStore.EnginesSeparate | app/hedge_tunables.py:94-223 | The registry's slugs are pairwise separate, "ng" and "ng_fmove" included. |
| TunableStore.PutRefines | app/state.py:881-890 | Setting or clearing one entry of the flat store edits that engine's own map and leaves every separate engine's map unchanged. |
| TunableStore.ClearRefines | app/state.py:893-903 | Resetting an engine empties its own map and leaves every separate engine's map unchanged. |
| TunableStore.BoundedWhen | app/hedge_tunables.py:53-56 | Every coerced value is inside the bounds if and only if the bounds of an integer knob round inward, as whole-number bounds do. |
| TunableStore.StoreHoldsLastEdit | app/state.py:869-903 | After any history of sets and clears an entry holds its last uncleared value. |
| TunableStore.EffectiveIs | app/hedge_tunables.py:248-271 | Every effective value is the clamp of the last uncleared override or else of the default, and is within bounds. |
| TunableStore.PostTakesEffect | app/main.py:5968-5984 | Posting a value makes the engine read that value, clamped, whether it is stored or (when equal to the default) cleared, and no other knob moves. |
| OverridesFile.RestartRestoresWhen | app/state.py:62-203 | Saving and reloading restores every override if and only if the NATURALGAS F-move switch is at its start value: that flag is read back but never written. |
| OverridesFile.LoadsSafely | app/state.py:105-202 | Whatever the file holds, a name it lacks keeps its value, a mode stays a mode, the symbols stay a list, and of a threshold table exactly the numbers come through. |
| ExpiryResolver.LeastEligible | app/expiry_resolver.py:54-98 | The two-phase selection returns the least eligible expiry, and none exactly when no expiry is eligible. |

## Left out

- Float rounding: all prices, quantities and deltas are exact reals; `round` keeps its half-to-even rule.
- Broker HTTP and WebSocket calls, login, Telegram, the database layer, web routes and pages: inputs or fallible steps.
- Option pricing and solvers (`app/greeks.py`): a solved delta is an input; calls positive, puts negative where a property needs it.
- The book-size factor of the band (`x**0.667`), the ADX multiplier and the notional base: one non-negative factor each, monotone where a property needs it.
- Choice of the option to sell in the band hedger (nearest leg, in-the-money tilt, corridor, efficiency check): its delta is an input of the right sign.
- Uncaught exceptions: inside a hedge tick they leave any state with the carry-over flag consumed; elsewhere they and failing commits or file writes are not modelled, except a failing flush commit.
- Partial fills of MARKET orders, and acknowledgements lost by the order calls of a hedge: what an abandoned LIMIT may still fill is covered.
- Ticks that reopen a bucket already flushed are folded like any other; that storage would then hold two rows for that bucket is not stated.
- The iteration order of the dictionary of bars during a flush; symbols and exchanges are not part of a bar's value.
- Footprint.SideLevels: for a minimum run length of zero the source would index an empty run and raise; the model asks for at least one.
- Adx.ComputeAdx: a period below one, which the source would divide by or mis-slice, is excluded.
- FMove.FMoveHedge.Tick: thresholds are those of the tick; the day lemmas hold them fixed, while the control page may change them between ticks.
- SquareOff.NoDuplicateClose: the broker's answer to the position check is an input, as an order on its way may not show in it; the lock table is created atomically; two threads racing to create one symbol's lock are not modelled.
- Prototype.Bot.UpdatePositions: a ticket number stands for the identity of a position record; the signal history shown on the dashboard is not part of the state.
- PaperMonitor.Monitor: position ids are distinct, as the primary key makes them; the P&L written is in `PartialBooking.Position.ClosePaper`.
- Triggers.BandBrackets: the short option's profit percentage is an input of at least zero, and equity is only ever bought.
- `app/goldm_delta_hedge.py`, `app/bnf_delta_hedge.py` and the one-shots of `app/ng_delta_hedge.py`: the same gates again.
- The SILVERM day machine around the wing search: anchor, cooldown and cap as in `FMove`, without the direction gate.
- HedgeEngine.HedgeState.Process: which option is sold and how each order is answered are inputs, the options having deltas of their side's sign; bookkeeping of position rows after a fill is left to the database.
- Straddle.ProcessStraddle: live entries only; a leg is on or not, so an order that its retry loop lands twice counts once; pre-entry checks, the paper branch and the recording of wings after the fill are left out.
- Lot sizing and risk gates of `_process_alert` and `app/risk.py`, the drawdown loop, mode cycles and symbol toggles.
- Trailing stops, order watcher, strike selection, straddle defense, symbol mapping, schedulers, settings and schemas are not part of this model.
