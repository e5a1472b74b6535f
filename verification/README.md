# A verified model of the LCEX exchange pipeline

LCEX is a spot exchange made of services that talk through logs and a shared database. This project models
one trading pair end to end in Dafny and proves the properties its documentation relies on:

- the **matching engine** (price-time priority, limit/market, GTC/IOC/FOK, post-only, self-trade prevention),
- the **runner** that hosts it (replay from the start, publish, then commit, with crashes anywhere),
- the **money path** (freeze, settle, release, deposits, withdrawals on a double-entry ledger),
- the **depth replica** and the **order status** that other services rebuild from events,
- the **arithmetic and pricing** around them (128-bit mul-div, decimal strings, index price, quote grid).

Code that changes things step by step is a class or a method with loops here too, and each method is proved
equal to a function of the old state. The theorems are about those functions and about runs of them.

## How the files fit together

| layer | files |
|---|---|
| vocabulary, arithmetic | `Protocol`, `Fixed`, `Decimal`, `Sums` |
| matching: flat specification and what it means | `Book`, `Matching`, `Rulings` |
| matching: the engine's maps and queues, in place | `Levels`, `EngineState`, `Engine` |
| whole runs of the engine | `History`, `Priority`, `Duplicates`, `Scenario` |
| at-least-once delivery, the crash protocol, its process | `Delivery`, `Runner`, `Recovery`, `Worker` |
| consumers of events | `Replica`, `Agreement`, `StatusSync`, `Convergence`, `StaleRun` |
| ledger | `Ledger`, `LedgerSound`, `Database` |
| money path | `Reserve`, `OrderService`, `Clearing`, `Accounting`, `Settlement`, `Exchange`, `Wallet`, `Transfers` |
| all of it as one machine | `Trading`, `Reconcile`, `Funding`, `Stalls`, `EndToEnd`, `Pipeline` |
| concrete runs of it | `Steps`, `Deal`, `DustRun`, `WrappedFreeze`, `FokRuns` |
| pricing | `PriceIndex`, `QuoteGrid` |

`Trading.Exec` is the state machine of the money path: users place and cancel, commands reach the log or are
compensated, clearing consumes any event up to the next one (so it may repeat anything), deposits are reported
and credited by any number of interleaved handlers, money is withdrawn. `Runner.Exec` is the state machine of
the engine's host: produce, start, poll, send, failed send (delivered or not), commit (which may be lost),
crash, in any order. `Pipeline.Reached` joins the two over one log and one topic, with clearing at a committed
position of the topic. Theorems over `Runner.Exec` hold for every action sequence; theorems over the money path hold
for every sequence that is `Trading.Ordinary` (below).

## Hypotheses

The theorems state what they need; where a hypothesis is about the system rather than about one input it is:

- One market. `Reserve.MarketOk`: base and quote differ and `makerRate <= takerRate <= 1`. The second part is
  exactly what the freeze needs, for a taker rate of at most one (`Reserve.FreezeSufficesIff`); rate overrides
  are not checked when loaded (`internal/markets/markets.go:100-109`).
- A release build, where `fillable_qty` wraps at 64 bits instead of panicking.
- `Trading.Ordinary`: of each placement the amount to freeze, and of each withdrawal amount plus fee, fits in a
  signed 64-bit column (`Trading.Fits`, a test on the request alone), or the action was refused anyway. Exactly
  these runs keep the money path's invariant from start to end (`Trading.ThroughoutIff`, step by step
  `Trading.ActKeeps` and `PlacingIff`). The machine itself performs every action, wrapped or not.
- Counters and ids do not run out.
- A produce error of the order service means that the command did not reach the log.
- The runner's seek to the beginning of the log succeeds.
- The replica starts with the first event.

## Behaviour of the code that the proofs pinned down

Each of these is proved: as a concrete input, as the exact condition under which the code meets its promise,
or as both.

- A fill-or-kill pre-check whose 64-bit sum wraps refuses an order the book could fill (`FokRefusalExact`).
  A run with three bids at the smallest price reaches such a sum with freezes of under two thousand units of quote
  currency each (`FokSellRefused`). Asks never do in an ordinary run, because base currency backs them
  (`BuysNeverWrap`); an ask whose own freeze wraps does (`FokBuyRefused`). Accepted orders are all-or-nothing even so.
- The freeze of an order is computed modulo 2^64 and read as a signed number. On every market with a taker fee some
  bid for more than 2^63 freezes one or two units (`HugeBidAccepted`, `FreezeOfOne`), and a run leads from it to a
  trade with proceeds and fees that cannot be settled because the buyer has too little frozen
  (`WrappedFreezeRunsShort`). A freeze that comes out negative is accepted when that much is already frozen, and
  gives it back (`FreezePosting`, `PlacementExact`).
- The depth replica agrees with the engine exactly while a side has at most 200 levels and their totals fit in
  64 bits: `trim` drops depth but not the resting order (`BatchAgreement`, `RunAgreementIff`). The 201st level
  is enough (`DeepBookDisagrees`).
- A trade whose proceeds or fees round down to zero cannot be posted, because entries must be positive. In an
  ordinary run this is the only way clearing can be stuck (`NextTradeExact`); outside, lack of money is another.
  Clearing then stays at that event whatever happens afterwards, in ordinary and other continuations
  (`StuckForGood`). A run that gets there exists on every market that takes orders below one unit
  (`ClearingStuckForGood`). It happens exactly when the taker fee is below one unit or the seller's rate is one
  (`PostableIff`): for small remainders, and for every trade of a market without fees.
- `checkBalanced` can be fooled by three wrapping amounts on one side (`ThreeCreditsWrap`); two never suffice
  (`NarrowPostingKeeps`). A withdrawal has three: when amount plus fee leaves the int64 range the debit turns
  into a credit (`WrappedWithdrawalPays`, `WithdrawalSoundIff`). With a zero fee a withdrawal always fails
  (`WithdrawalExact`).
- Reconciliation adds assets and claims over all currencies, so a gap in one can hide a surplus in another
  (`TotalsMixCurrencies`). It never reports a false alarm (`ReconcileAlwaysClean`).
- Two outputs share a deposit key exactly when transaction and number are spelled alike, a minus sign read as
  part of the transaction (`SameKeyIff`): never for numbers from zero up, but a negative one can take another
  output's key (`NegativeIndexCollides`).
- When the committed position cannot be read at a start, published numbers jump back and a crash can leave them
  jumping forward again, after which an order's status can stay stale (`FailedReadGoesBack`,
  `CrashLeavesStaleRow`). Once everything has been read, a row is right exactly when its order has ended or the
  last update read is the highest-numbered one (`StatusExact`). If the position can always be read, that is
  every row (`StatusesSurviveCrashes`).
- A cancel that overtook its place is not absorbed when it is delivered again (`OvertakenCancelBites`,
  `HarmlessIff`).
- `MulDivCeil` wraps to zero at the top of the range (`CeilWrapsToZero`). The index sum wraps (`WrappedIndexIsZero`,
  `AverageIsMeanIff`), and the index then leaves the neighbourhood of the median (`IndexNearIff`).
- A quote grid crosses itself exactly when two kept levels have different centres (`GridUncrossedIff`): one level
  low and one high, as half spread and skew alone decide (`GridCrossesIff`). With an offset limit, as the service
  runs, or an index of at least 0.0002, that never happens (`GridNeverCrosses`); otherwise a half spread near the
  smallest int64 does it (`WrappedSpreadCrosses`).

## Model

| member | source | states |
|---|---|---|
| Engine.Engine.Process | matching/crates/engine/src/lib.rs:50-57 | on the price-indexed queues, one command yields exactly the events and the flat book of the specification, and the index, the two books and the seen set stay consistent (no `expect` can fail) |
| Engine.Engine.PlaceOrder | matching/crates/engine/src/lib.rs:79-113 | duplicates are ignored; each refusal, the post-only test and the fill-or-kill pre-check as specified; otherwise the order is executed |
| Engine.Engine.Run | matching/crates/engine/src/lib.rs:115-209 | the matching loop ends with exactly the greedy sweep of the flat list and its events, because the remaining quantity strictly falls |
| Engine.Engine.FillFront | matching/crates/engine/src/lib.rs:141-205 | one execution takes the quantity from the front of the best level, drops order, level and index entry when used up, and reports trade and maker |
| Engine.Engine.Finish | matching/crates/engine/src/lib.rs:211-255 | the taker ends canceled, filled, resting or canceled with its rest, and reports it |
| Engine.Engine.Queue | matching/crates/engine/src/lib.rs:218-230 | pushing to the back of a price level is insertion behind every order at the same or a better price of the flat list |
| Engine.Engine.CancelOrder | matching/crates/engine/src/lib.rs:258-292 | through the index, exactly the named order leaves the book and is reported; unknown ids do nothing |
| Engine.Engine.Reject | matching/crates/engine/src/lib.rs:294-307 | a refusal reports the order with nothing filled and touches nothing else |
| Engine.Engine.BestOf | matching/crates/engine/src/lib.rs:312-317 | the best opposite level's front order is the head of the flat list |
| Engine.Engine.WouldCross | matching/crates/engine/src/lib.rs:319-327 | true iff the head of the opposite list accepts the limit |
| Engine.Engine.FillableQty | matching/crates/engine/src/lib.rs:331-348 | walking the levels adds up, modulo 2^64, what lies within the limit before the taker's first own order |
| Levels.FlattenInsert | matching/crates/engine/src/lib.rs:225-230 | appending to a price level of the map is priority insertion into the flat list |
| Levels.FlattenRemove | matching/crates/engine/src/lib.rs:262-277 | removing from a level, and the level when empty, is removal from the flat list |
| Matching.MatchIsGreedy | matching/crates/engine/src/lib.rs:119-209 | closed form: the i-th reachable order gives min(its remaining, quantity left by everyone ahead), trades are the positive shares in order, and the sweep stops exactly at the limit, at the quantity or at the first own order |
| Matching.MatchConserves | matching/crates/engine/src/lib.rs:141-208 | the list gives up exactly what the taker receives |
| Matching.FillablePredictsLoop | matching/crates/engine/src/lib.rs:329-348 | the unbounded sum reaches the quantity iff the loop would complete the order, self-trade cut-off included |
| Matching.FillOrKillAllOrNothing | matching/crates/engine/src/lib.rs:108-113 | a fill-or-kill order ends filled for its whole quantity, or rejected with both books untouched |
| Matching.FokRefusalExact | matching/crates/engine/src/lib.rs:108-113 | acceptance coincides with the loop completing the order iff the 64-bit sum has not wrapped below the quantity |
| Rulings.TurnedAwayIs | matching/crates/engine/src/lib.rs:84-113 | in the order's fields and the resting prices: malformed, post-only with somebody within its price, or fill-or-kill with too little in reach, it is rejected in one update and nothing else happens |
| Rulings.TradesAre | matching/crates/engine/src/lib.rs:119-209 | everybody else trades with the orders within the price in turn, up to the first own one where that is asked for, each for its rest or what is still wanted, at its price and between the two users |
| Rulings.ClosesAs | matching/crates/engine/src/lib.rs:211-255 | the closing status and filled quantity, and that the order rests, with its price and exact rest, iff it is good till canceled, not used up and not stopped |
| Rulings.PostOnlyIff | matching/crates/engine/src/lib.rs:104-107 | a post-only order is rejected iff some resting opposite order is at or inside its price, compared directly, and otherwise rests whole; it never trades |
| Rulings.StoppedIff | matching/crates/engine/src/lib.rs:136-139 | an accepted good-till-canceled order is canceled iff it asked not to trade with its own user and meets that user's order within its price with something left |
| Funding.BuysNeverWrap | matching/crates/engine/src/lib.rs:329-348 | in every state an ordinary run reaches the pre-check of a fill-or-kill buy is exact, because the asks together are covered by frozen base currency |
| FokRuns.FokSellRefused | matching/crates/engine/src/lib.rs:331-348 | an ordinary run of one user with three paid bids after which a sell that they would fill completely is refused |
| FokRuns.FokBuyRefused | matching/crates/engine/src/lib.rs:331-348 | a run with an ask whose freeze wraps, after which every fill-or-kill buy is refused although the asks would fill it; it is not ordinary |
| Matching.InsertAt | matching/crates/engine/src/lib.rs:225-230 | insertion splits the list: nobody before is worse, everyone after is strictly worse |
| Matching.StepKeeps | matching/crates/engine/src/lib.rs:50-57 | every command keeps: priority order, distinct ids all seen, remaining between 1 and the quantity, best bid below best ask |
| Priority.PriorityOrder | matching/crates/engine/src/lib.rs:30-42 | in every reachable book, list order is better price first and then earlier arrival in the log |
| Priority.PriceTimePriority | matching/crates/engine/src/lib.rs:119-209 | in every reachable book, whoever is ahead of a filled order by price and arrival is used up by the same command |
| History.RunHist | matching/crates/engine/src/lib.rs:50-57 | over every log: each event is admissible after those before it, every known order either rests with what has not been traded or has ended |
| History.NothingAfterTheEnd | matching/crates/engine/src/lib.rs:175-255 | an order has at most one terminal update and no event names it afterwards |
| History.UpdatesReportTrades | matching/crates/engine/src/lib.rs:190-205 | an update's filled quantity is the sum of all earlier trades naming the order, at most its quantity, and fits its status |
| History.NumberedWithoutGaps | matching/crates/engine/src/lib.rs:350-353 | sequence numbers are 1, 2, 3, ... and trade ids count the trades |
| History.EveryOrderAccounted | matching/crates/engine/src/lib.rs:32-42 | an order has ended iff it does not rest, and a resting one has exactly its untraded quantity left |
| History.TradesRespectBothOrders | matching/crates/engine/src/lib.rs:175-189 | a trade is between two live orders of its two users on opposite sides, at the maker's price, within both named prices and quantities; the maker is a good-till-canceled limit order |
| History.TakersKeepTheirWord | matching/crates/engine/src/lib.rs:104-139 | over every log no trade has a post-only taker, and none with a cancel-taker taker is between a user and itself |
| Duplicates.RedeliveryIsInvisible | matching/crates/engine/src/lib.rs:79-83 | if cancels follow their places, re-inserting processed commands anywhere changes neither the events nor any later state |
| Duplicates.CancelInertIff | matching/crates/engine/src/lib.rs:258-261 | a cancel does nothing iff its order does not rest |
| Duplicates.HarmlessIff | matching/crates/engine/src/lib.rs:258-261 | all processed commands are harmless to repeat iff no processed cancel names an order resting now |
| Duplicates.OvertakenCancelBites | matching/crates/engine/src/lib.rs:258-261 | a cancel before its place, delivered again, cancels a live order |
| Delivery.DedupIsPrefix | services/market/state.go:86-89 | dropping known sequence numbers from any at-least-once delivery leaves a gap-free prefix of the history |
| Delivery.ReadsDeliver | services/clearing/main.go:107-118 | a consumer that restarts at any earlier position still reads an at-least-once delivery, as far as the topic prefix it reached |
| Delivery.SameNumberSameEvent | matching/crates/runner/src/worker.rs:8-10 | equal sequence numbers carry equal events |
| Runner.ActKeeps | matching/crates/runner/src/worker.rs:187-256 | every action of the crash protocol keeps its invariant: the worker has the crash-free state for its position, has published everything before it, and what it will send continues the history |
| Runner.SentIsNext | matching/crates/runner/src/worker.rs:227-245 | whatever is sent is the history's next event or one that has been out before |
| Runner.SendsAre | matching/crates/runner/src/worker.rs:227-245 | a confirmed send is on the topic and done with; a failed one is tried again, and is on the topic iff it got there all the same |
| Runner.ExactlyOnce | matching/crates/runner/src/worker.rs:41-51 | in every run the deduplicated topic is a gap-free prefix of the crash-free events and covers every command below the committed position |
| Runner.CommitKeeps | matching/crates/runner/src/worker.rs:247-256 | a commit that succeeds and one that is lost both leave the protocol's invariant: everything below the committed position has been published |
| Runner.CommittedIsDone | matching/crates/runner/src/worker.rs:247-256 | a commit that arrives puts its record below the committed position |
| Runner.RestartIsSilent | matching/crates/runner/src/worker.rs:187-208 | a restart that can read the position replays everything below it without sending or committing anything, and has the crash-free state there |
| Runner.FirstPublished | matching/crates/runner/src/worker.rs:199-225 | the record at the position is then published, all of its events and nothing else |
| Runner.RepublishedUnchanged | matching/crates/runner/src/worker.rs:187-225 | republished sequence numbers carry identical events |
| Runner.CaughtUp | matching/crates/runner/src/worker.rs:187-256 | a worker at the end of the log has delivered every event |
| MatchingWorker.SymbolWorker.HandleRecord | matching/crates/runner/src/worker.rs:187-225 | replay, undecodable payloads, publishing and committing perform exactly the protocol's actions for that record |
| MatchingWorker.SymbolWorker.PublishAll | matching/crates/runner/src/worker.rs:227-245 | each event is retried until confirmed; failed attempts may or may not have been delivered |
| MatchingWorker.SymbolWorker.constructor | matching/crates/runner/src/worker.rs:138-170 | a start reads the committed position (0 when it cannot be read) and replays from the beginning with an empty engine |
| MatchingWorker.RunSymbol | matching/crates/runner/src/worker.rs:53-123 | from any state crashes can leave behind, a worker that reaches the end of the log completes the topic; if its commits arrive, the committed position is the end of the log |
| Recovery.ExecSteady | matching/crates/runner/src/worker.rs:138-153 | while the committed position can be read at every start, the last published number never falls behind it and never jumps forward |
| Recovery.FailedReadGoesBack | matching/crates/runner/src/worker.rs:148-152 | one failed read republishes the first event on top of a finished topic |
| StatusSync.StatusSync.ApplyOrderUpdate | services/order/api.go:478-503 | the guarded UPDATE changes a row iff it is not terminal, and reports whether it did |
| StatusSync.StatusSync.Consume | services/order/api.go:465-473 | consuming a stream is the fold of single updates |
| StatusSync.RowClosedForm | services/order/api.go:492-494 | a row is its order's terminal update if one was delivered, else the latest update |
| StatusSync.TerminalIsFinal | services/order/api.go:492-494 | a terminal row never changes again |
| StatusSync.StatusConverges | services/order/api.go:478-503 | any reading of a topic without forward jumps up to its end gives the rows of once-only delivery |
| Convergence.SyncIff | services/order/api.go:478-503 | for any delivery of everything, a row equals that of once-only delivery iff its order has ended or the last update read says what the history's last update says |
| Convergence.StatusExact | services/order/api.go:478-503 | for what the engine emits: iff the order has ended or its last update read is its highest-numbered one |
| Convergence.StatusesSurviveCrashes | services/order/api.go:465-503 | the same for any crashes, republishing and consumer restarts; if the committed position was readable at every start and the topic is complete and read to its end, every row is that of one crash-free pass |
| StaleRun.CrashLeavesStaleRow | matching/crates/runner/src/worker.rs:148-152 | a run with one failed read and one crash whose topic, read once in order, leaves an order's row behind its trades |
| Replica.SymbolState.Apply | services/market/state.go:79-106 | known numbers are skipped; the new replica and the reported levels are those of the specification |
| Replica.SymbolState.ApplyOrderUpdate | services/market/state.go:108-144 | every branch: re-priced, adjusted, added, market order, removed, unknown |
| Replica.SymbolState.RemoveLevel | services/market/state.go:146-155 | the level falls by the order's quantity, never below zero, and disappears at zero |
| Replica.UpdateIs | services/market/state.go:108-155 | one rule for every update: the order rests iff it is not over and has a price, each level changes by what the order leaves and brings, and the other side not at all |
| Replica.ReportIs | services/market/state.go:108-144 | the reported level is the one the order is in now, or else the one it has left, with its new total |
| Replica.LoweredIs | services/market/state.go:146-155 | taking more out of a level than is there empties it, and an empty level is not stored |
| Replica.EventIs | services/market/state.go:79-106 | known numbers change nothing, a trade only moves the number on, an update is applied |
| Replica.SymbolState.Trim | services/market/state.go:158-174 | keeps the 200 best levels |
| Replica.TrimKeepsBest | services/market/state.go:158-174 | what is kept is unchanged, as many as allowed, and no dropped level is better than a kept one |
| Replica.TopLevels | services/market/state.go:220-239 | the snapshot lists the best levels in strict order, and every level left out is worse than all listed |
| Replica.RedeliveryIgnored | services/market/state.go:86-89 | repeats do not change the replica |
| Agreement.BatchAgreement | services/market/state.go:108-174 | after a command's events the replica has the engine's resting orders and level totals iff no side has more than 200 levels, and then merging the reported levels into the old depth gives the new one |
| Agreement.RunAgreementIff | services/market/state.go:79-174 | over every log, the replica agrees after every command iff every book along the run has at most 200 levels a side and level totals that fit in 64 bits |
| Agreement.DeepBookDisagrees | services/market/state.go:158-174 | after 200 price levels the replica still agrees, with the 201st it no longer does |
| Agreement.ReplicaFollowsEngine | services/market/state.go:79-144 | under any redelivery of such a run the replica agrees with the book, and every reported change list, also of repeated events, turns the old depth into the new one |
| Agreement.TouchAgrees | services/market/state.go:254-262 | an agreeing replica shows the engine's best prices and is never crossed |
| Ledger.CheckBalanced | internal/ledger/ledger.go:93-115 | passes iff in every currency the wrapped 64-bit debit and credit totals agree |
| Database.Database.Move | internal/ledger/ledger.go:142-177 | one balance change and its entry with the balance after it, refused when the balance would leave its range or the amount is not positive |
| Database.Database.PostTx | internal/ledger/ledger.go:119-179 | all moves in order under a new journal key, or the first error; nothing at all is written for a known key |
| Database.Database.Post | internal/ledger/ledger.go:182-184 | all or nothing |
| LedgerSound.PostedEntries | internal/ledger/ledger.go:142-177 | an accepted posting appends one entry for each move, in order, with key, account, size and the direction such an account grows or shrinks in |
| LedgerSound.LastEntryShowsBalance | internal/ledger/ledger.go:148-177 | in sound books every entry carries the sum of its account's entries up to it, so the last one shows the balance |
| LedgerSound.MoveRefusals | internal/ledger/ledger.go:152-177 | a move is refused exactly for a balance below zero, one out of range, or an amount that is zero or has no absolute value |
| LedgerSound.PostingRefusals | internal/ledger/ledger.go:119-135 | before any move a posting is refused exactly for fewer than two entries, totals that differ modulo 2^64 in some currency, or a used key, in this order |
| LedgerSound.PostingSoundIff | db/migrations/000001_ledger_core.up.sql:30-60 | an accepted posting keeps balances non-negative and derived from entries that carry running balances; it keeps assets equal to claims iff its unbounded totals agree in every currency |
| LedgerSound.NarrowPostingKeeps | internal/ledger/ledger.go:90-115 | with at most two debits and two credits per currency the 64-bit check cannot be fooled |
| LedgerSound.ThreeCreditsWrap | internal/ledger/ledger.go:93-115 | three credits that wrap to zero are accepted and break the books |
| LedgerSound.RunSound | internal/ledger/ledger.go:119-179 | any run of such postings, failed and repeated ones included, leaves the books sound |
| LedgerSound.AtMostOnce | internal/ledger/ledger.go:128-135 | a journal key that took effect once never does again, whatever moves come with it |
| Fixed.MulDivIsFloor | internal/fixed/fixed.go:68-81 | exact floor of the 128-bit quotient, with an error iff it does not fit in 64 bits |
| Fixed.MulDivCeilIsCeil | internal/fixed/fixed.go:84-97 | exact ceiling iff the ceiling fits |
| Fixed.CeilWrapsToZero | internal/fixed/fixed.go:92-96 | at the top of the range the increment wraps to zero |
| Decimal.Parse | internal/fixed/fixed.go:22-53 | accepts exactly the strings with digits, at most one dot and eight decimals, and returns their value times 10^8 or an overflow |
| Decimal.ParseUint | internal/fixed/fixed.go:48-51 | the digits' value, or an overflow iff it does not fit in 64 bits |
| Decimal.ParseOfFormat | internal/fixed/fixed.go:56-65 | parsing what was printed gives the amount back, for every 64-bit amount |
| Decimal.OneCanonicalSpelling | internal/fixed/fixed.go:56-65 | among all accepted spellings of an amount exactly one is canonical, and it is the printed one |
| Decimal.SpellingMeans | internal/fixed/fixed.go:22-53 | digits, perhaps a dot and up to eight more digits, either part missing but not both, with blanks around: its value times 10^8, or an overflow |
| Decimal.OnlySpellings | internal/fixed/fixed.go:22-47 | whatever is not invalid is such a spelling once white space is cut off |
| Reserve.ReserveSuffices | services/order/api.go:172-190 | any mix of fills within limit and quantity, in any roles, consumes at most the floored notional plus the rounded-up taker fee |
| Reserve.ReserveSufficesForRuns | services/order/api.go:172-190 | the same for whatever the engine emits over any log |
| Reserve.FreezeSufficesIff | internal/markets/markets.go:100-109 | for every market, the freeze covers what the engine makes of every buy order over every log iff the maker rate is not above the taker rate |
| OrderService.CheckedReserve | services/order/api.go:172-192 | the 64-bit computation gives the intended freeze read as int64, hence the intended one exactly when it fits |
| OrderService.AcceptedIff | services/order/api.go:140-190 | an order is accepted iff it is well formed, its quantity is at least the minimum, a market order is within its limit, and a bid's floored notional is at least the minimum and fits in 64 bits |
| OrderService.RefusedBecause | services/order/api.go:140-190 | each refusal has exactly its own reason, in the order in which they are looked at |
| OrderService.Service.Place | services/order/api.go:221-257 | the order row and its freeze are written together or not at all; a price the signed column refuses writes nothing |
| OrderService.Service.RejectAndUnfreeze | services/order/api.go:268-284 | compensation posts the release under clearing's key, so that one of the two takes effect |
| Clearing.Service.SettleTrade | services/clearing/main.go:175-259 | side checks, the five moves and the two guarded deductions as one transaction; poison, repeated and stuck outcomes, an out-of-range column included |
| Clearing.Service.UnfreezeReserved | services/clearing/main.go:262-299 | releases what is left of the freeze, once |
| Clearing.Service.HandleRecord | services/clearing/main.go:122-157 | trades are settled, terminal updates release, anything else is passed over |
| Settlement.SettlePosting | services/clearing/main.go:193-234 | given covered frozen balances the posting goes through iff proceeds and fees are positive, changes exactly the five balances, and keeps the books sound |
| Accounting.GoodPosting | internal/ledger/ledger.go:119-179 | an affordable balanced posting on different accounts succeeds iff no amount is empty, and changes balances exactly by its moves |
| Accounting.ClaimsBounded | db/README.md:24-40 | two claims on a currency never exceed its hot wallet, hence never the int64 range |
| Exchange.FreezePosting | services/order/api.go:234-237 | on sound books the freeze posting of any signed amount goes through iff it is positive and available, or negative and already frozen, and then moves exactly that and keeps the books sound |
| Settlement.PostableIff | services/clearing/main.go:180-202 | proceeds and fees are positive iff the taker fee is at least one unit and the seller's rate is below one |
| Settlement.SettleOutcomes | services/clearing/main.go:176-258 | arithmetic failure iff the notional needs more than 64 bits, poison iff a row is missing or on the wrong side, and nothing is written unless the trade is settled, under a new key |
| Settlement.DeductedIs | services/clearing/main.go:236-249 | a deduction takes place iff enough is left, so no row falls below zero |
| Settlement.RowsStayInColumn | services/clearing/main.go:236-249 | whatever wraps, no row's remaining freeze leaves the signed 64-bit column |
| Settlement.UpdateOutcomes | services/clearing/main.go:147-157 | only filled, canceled and rejected orders are released, an unknown one is never passed over, and a release is written once |
| Exchange.TradeIsCovered | services/clearing/main.go:175-249 | the next trade always finds both rows, unreleased, with the right sides and enough left in each freeze |
| Exchange.SettleNext | services/clearing/main.go:175-259 | settling the next trade keeps the accounts in agreement with the history, or it is one that rounds to nothing and changes nothing |
| Exchange.ReleaseNext | services/clearing/main.go:262-299 | a terminal update always releases and keeps the agreement |
| Exchange.HandleAgain | services/clearing/main.go:250-253 | an event consumed before, delivered again at any later time, changes nothing and never blocks |
| Exchange.RedeliveredClearing | services/clearing/main.go:122-157 | whatever is repeated and wherever clearing gets stuck, the database is that of clearing once, in order, the events that took effect, and the accounts agree with exactly those |
| EndToEnd.ClearingSurvivesCrashes | services/clearing/main.go:99-119 | composed with engine crashes, republishing and clearing restarts: the database is that of clearing the crash-free history once, as far as clearing's position in the topic |
| EndToEnd.DepthSurvivesCrashes | services/market/state.go:79-106 | the replica of a crashing engine's complete topic agrees with the crash-free book, and all its reports merge |
| Trading.ActKeeps | services/order/api.go:172-217 | an action of users, order service, clearing or wallet keeps the invariant iff it fits in the columns or changes nothing |
| Trading.PlacingIff | services/order/api.go:172-192 | for placements alone: iff the placement is refused or its freeze fits in int64 |
| Trading.ThroughoutIff | services/order/api.go:172-217 | a run keeps the invariant in all its states iff every action fits or was refused |
| WrappedFreeze.HugeBidAccepted | services/order/api.go:172-192 | on every market with a taker fee there is a bid beyond int64 for which the order service asks for one or two units |
| WrappedFreeze.FreezeOfOne | services/order/api.go:172-192 | at a taker rate of 0.1%, a bid for about 184 billion units at price one freezes one |
| WrappedFreeze.WrappedFreezeRunsShort | services/clearing/main.go:193-234 | such a bid leads to a reachable state whose next trade is postable and still stuck: the posting is refused because the buyer has too little frozen, and nothing changes |
| Trading.FrozenIsOpenReserves | services/clearing/main.go:237-247 | in every state an ordinary run reaches each user's frozen balance in a currency is the sum of what the user's unreleased orders hold |
| Trading.ReservedTracksTrades | services/clearing/main.go:237-247 | every guarded deduction took effect: a row holds its freeze minus what its trades consumed, never negative |
| Trading.NextTradeExact | services/clearing/main.go:193-258 | in ordinary runs the next trade is settled iff proceeds and fees are positive; it never lacks money and is never poison |
| Trading.NextReleaseWorks | services/clearing/main.go:261-299 | a terminal update is never stuck and leaves nothing unreleased |
| Trading.RepeatsChangeNothing | services/clearing/main.go:217-258 | consuming an earlier event again changes nothing in any state an ordinary run reaches |
| Pipeline.RepeatsInvisible | services/clearing/main.go:217-258 | every ordinary run reaches the same state as the run without its repeated events |
| Stalls.StuckForGood | services/clearing/main.go:99-119 | once an ordinary run has brought clearing to an unpostable trade, no later action of anybody, ordinary or not, moves it on |
| Pipeline.ReachedInv | services/clearing/main.go:107-118 | with users, crashing engine host and restarting clearing interleaved in any way, both invariants hold as long as the actions fit or are refused, and clearing has taken in exactly what lies below its position in the topic |
| Pipeline.CrashesInvisible | services/clearing/main.go:99-157 | each of these states is one of the money path, reached without consuming any event twice |
| DustRun.ClearingStuckForGood | services/clearing/main.go:193-234 | on every market that takes orders below one unit, two credits, two orders and their dispatch lead clearing to a trade for nothing, where it stays under any further actions |
| Trading.RefundKeeps | services/order/api.go:268-284 | compensating an undispatched order gives back exactly its freeze |
| Trading.BooksStaySound | internal/ledger/ledger.go:90-179 | non-negative balances, derived from entries, assets equal to claims per currency, in every state an ordinary run reaches |
| Reconciliation.PlacementExact | services/order/api.go:221-257 | a placement that passes the checks succeeds iff its price fits the signed column and the freeze as computed is positive and available, or negative and already frozen; a positive one is told that the balance is insufficient iff it is |
| WalletService.Service.CreditUser | services/wallet/api.go:135-144 | a credit under the caller's key; replays are reported and change nothing |
| WalletService.Service.HandleChainDeposit | services/wallet/api.go:181-230 | limits, upsert by output, credit once confirmed, tolerance of an already used key, rollback on failure |
| WalletService.Service.HandleWithdraw | services/wallet/api.go:271-326 | row and posting together or not at all |
| WalletService.SameKeyIff | services/wallet/api.go:208-208 | two outputs have the same journal key iff they are spelled alike, for all output numbers |
| WalletService.NegativeIndexCollides | services/wallet/api.go:208-208 | a negative output number can take another output's key |
| Transfers.CreditExact | services/wallet/api.go:207-224 | an output's first credit gives exactly its amount iff the wallet balance stays in range; later ones change no balance whatever amount they name |
| Transfers.DepositExact | services/wallet/api.go:170-230 | a report of an output moves money iff the amount is at least the minimum and positive in int64, the output uncredited under an unused key, the reported confirmations enough, and the wallet can take it; then exactly the amount |
| Transfers.DepositReplies | services/wallet/api.go:170-230 | every reply with its exact condition, pending below the required confirmations among them |
| Transfers.DepositRowKept | services/wallet/api.go:190-224 | the row keeps user, currency and amount of the first report, takes the latest confirmations, and is credited iff the reporter is told so |
| Transfers.WithdrawalExact | services/wallet/api.go:296-312 | a withdrawal is posted iff the available balance covers amount and fee and the fee is positive; the hot wallet is never what refuses it; exactly the user, wallet and fee balances change |
| Transfers.WithdrawalReplies | services/wallet/api.go:271-326 | every reply with its condition; an accepted request writes one row with its amount and fee, any other changes nothing |
| Reconciliation.WithdrawalNeverBlocked | services/wallet/api.go:296-312 | the same in every state an ordinary run reaches |
| Transfers.WithdrawalSoundIff | services/wallet/api.go:306-311 | an accepted withdrawal keeps the books sound iff amount plus fee fits in int64 |
| Transfers.WrappedWithdrawalPays | services/wallet/api.go:306-311 | a withdrawal beyond that range is accepted and pays its user |
| Reconciliation.SoundIsClean | services/wallet/reconcile.go:8-35 | sound books with registered rows give a clean report |
| Reconciliation.CleanIff | services/wallet/reconcile.go:8-35 | a report is clean iff every listed balance equals its entries, the totals over all currencies agree, and credited deposits and withdrawals have their journals |
| Reconciliation.ImbalanceReported | services/wallet/reconcile.go:15-17 | in one currency, books with right entries but unequal totals are always reported |
| Reconciliation.WrappedWithdrawalReported | services/wallet/reconcile.go:15-17 | the state a wrapped withdrawal leaves behind is reported |
| Reconciliation.TotalsMixCurrencies | services/wallet/reconcile.go:15-17 | a clean report does not imply balanced currencies |
| Reconciliation.ReconcileAlwaysClean | services/wallet/reconcile.go:8-35 | in every state an ordinary run reaches the report is clean |
| PriceIndex.ComputeIndex | services/price-index/agg.go:28-63 | whatever order sources are visited in, the result is the average of the sources near the lower median of the fresh ones, with the right rejections |
| PriceIndex.MedianOf | services/price-index/agg.go:66-73 | the lower median: at most half below it, more than half at or below it |
| PriceIndex.MedianIsMiddle | services/price-index/agg.go:66-73 | it is the middle price of any ascending list of the sources, the cheaper of two middle ones |
| PriceIndex.IndexUnique | services/price-index/agg.go:28-63 | the result does not depend on map order |
| PriceIndex.IndexExistsIff | services/price-index/agg.go:31-40 | there is an index iff some source is fresh |
| PriceIndex.StaleIff | services/price-index/agg.go:31-40 | every source is used or rejected; it is rejected as stale iff the clock is past its time plus the limit or its price is zero, and there is an index iff some source is neither |
| PriceIndex.AgeingOnlyHurts | services/price-index/agg.go:31-40 | as the clock advances no stale source becomes usable |
| PriceIndex.DeviationIff | services/price-index/agg.go:42-51 | a source in time is rejected iff its distance from the median times the scale reaches the limit plus one times the median |
| PriceIndex.IndexBetween | services/price-index/agg.go:57-62 | if the sum fits, the index lies between any bounds of the usable prices; if not, it falls below all of them unless they spread over the whole range |
| PriceIndex.MajorityHoldsMedian | services/price-index/agg.go:66-73 | more than half of the fresh prices in an interval hold the median there |
| PriceIndex.IndexNearIff | services/price-index/agg.go:42-62 | the index is within the deviation limit of the median iff the sum fits, for moderately many sources |
| PriceIndex.IndexRobust | services/price-index/agg.go:42-62 | an interval holding more than half of the fresh prices holds the index within one deviation window if the sum fits, and with a moderate interval only then |
| PriceIndex.AverageIsMeanIff | services/price-index/agg.go:57-61 | the average is the mean iff the sum fits in 64 bits |
| PriceIndex.WrappedIndexIsZero | services/price-index/agg.go:57-61 | two fresh sources with the same large price have index zero |
| QuoteGrid.BuildGrid | services/market-maker/quote.go:59-79 | the kept levels in order, both sides each, in int64 arithmetic |
| QuoteGrid.GridUncrossedIff | services/market-maker/quote.go:59-79 | for every input, each bid is below each ask iff the kept levels have one centre |
| QuoteGrid.GridCrossesIff | services/market-maker/quote.go:59-79 | a grid crosses iff among its levels one is low and one is high, two ranges of the wrapped distance given by the skew, and both have prices at this index |
| QuoteGrid.GridNeverCrosses | services/market-maker/quote.go:59-79 | no grid crosses with an offset limit up to a quarter of the 64-bit range, whatever wraps, nor at an index of at least 0.0002, nor with a skew outside two narrow bands, nor when nothing wraps |
| QuoteGrid.GridWithinOffset | services/market-maker/quote.go:65-69 | with an offset limit, every price is the index scaled by at most that limit either way, rounded down, whatever wraps |
| QuoteGrid.WrappedSpreadCrosses | services/market-maker/quote.go:65-66 | a spread whose basis points wrap crosses the grid |
| QuoteGrid.SkewBounded | services/market-maker/quote.go:35-56 | the inventory skew never leaves its limits, whatever wraps |
| QuoteGrid.NoSkew | services/market-maker/quote.go:35-46 | there is none without a limit, an index, holdings, or a value that fits |
| QuoteGrid.SkewLeansBack | services/market-maker/quote.go:35-56 | without wrap-around it leans against the heavier side and is the truncated quotient |

## Left out

- Kafka, Postgres, HTTP, WebSocket, Redis, YAML and JSON: topics and tables are sequences and maps, a transaction
  is a change that is kept or put back; undecodable log records are modelled for the runner only.
- Cross-symbol settlement: the trade key carries no symbol while trade ids restart per engine, so the theorems
  are for one market.
- A produce call that times out although the command reached the log, two live runners on one symbol, and a
  market service restarted from a committed position with empty memory.
- A database error inside status sync, which logs and moves on and so skips that update.
- Authentication, market halt, clientOrderId replay, rate limits, cancel ownership and status checks before a
  cancel, cancel-all windows, risk checks, deposit addresses, withdrawal confirmation.
- Currencies as a foreign key and the 32-bit width of the output-index column.
- The order row's status and filled quantity live in `StatusSync`, apart from the money columns.
- Trades, candles and tickers of the market service (`services/market/state.go:176-214`).
- `apps/web`, scripts, exchange adapters, key derivation, and liveness of orders never dispatched.
- Order, user and trade numbers and sequence numbers are unbounded naturals; the quantity column of an order row,
  which no modelled step reads back, is kept as the unsigned number whose bits it holds.
- Library sorting: the median, the snapshot rows and the trimmed levels are taken by repeated selection of the
  least or worst entry.
- Clearing.Service.SettleTrade: the two row reads and the posting are one step; row locks between concurrent
  transactions are not modelled.
