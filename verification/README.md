# TradePulse event pipeline: a Dafny model

TradePulse posts trades to a double-entry ledger, relays them through a transactional outbox to
Redis streams, and projects them into cash, positions and risk figures. Delivery is at least
once; the design claims an effect of exactly once. This project models that path and proves the
claim, and what it rests on, over all runs: every interleaving, crash point and duplicate.

| file | models |
|---|---|
| `Events.dfy` | ledger events, the deduplicated log, the derived and the in-place projection |
| `EndToEnd.dfy` | the ledger feeding the pipeline: projections against the system of record |
| `Pipeline.dfy`, `Progress.dfy`, `InOrder.dfy`, `Newest.dfy` | the whole path as a step machine: exactly-once effect, draining, when order is kept, and when each position is the newest |
| `KillRestart.dfy` | the SQLite store, the killable relay and consumer, and the kill/restart proof |
| `OutboxRelay.dfy` | the ledger service's batched relay |
| `StreamBus.dfy`, `PocConsumer.dfy` | the in-process stream bus and the idempotent consumer on it |
| `Ledger.dfy`, `LedgerOutcomes.dfy`, `LedgerRuns.dfy`, `Interleaving.dfy` | the ledger's transactions: one by one, what each answers and writes, over serial runs, interleaved |
| `PocLedger.dfy` | the first proof of concept's ledger with crash points, and its relay |
| `RiskStore.dfy`, `Prices.dfy`, `Metrics.dfy` | the risk engine's store, rolling windows, price cache, P&L attribution and statistics |
| `RiskEngine.dfy`, `RiskWorker.dfy`, `WorkerRuns.dfy`, `RiskPublication.dfy` | its consumer, its worker loops and their runs, and what it publishes when |
| `PocRiskEngine.dfy` | the cost-basis P&L of the end-to-end proof of concept |
| `Broker.dfy` | the gateway's fan-out to clients |

Code that updates state in place is a class, proved against functions on its tables; runs are
lists of steps in which a step that is not enabled does nothing, so that a statement about every
list is one about every run. A crash loses only what the code keeps in memory. Money and
quantities are exact (`real`); identifiers and times are strings and parameters, and generated
identifiers come in as arguments.

Two places where the code does less than its documentation says. The code is modelled as it is:

- `services/risk-engine/app/store.py:243` takes the largest rowid of a symbol for its newest event
  in stream order. That holds exactly while no entry is applied after a newer one of the same
  account and symbol (`Newest.NewestIff`; `InOrder.StalePosition` is a run where it fails).
  Applying in order suffices and is more than it needs (`Newest.LateButNewest`), and the code
  applies in order when every reclaim finds all pending entries idle (`InOrder.InOrderAlways`,
  `WorkerRuns.PromptIsRecoverable`; `WorkerRuns.CycleKeepsResumableIff` for one cycle).
- `services/risk-engine/app/store.py:283` promises that the read API serves what was last
  published. After a crash between saving and publishing it is ahead
  (`RiskPublication.SnapshotAheadOfStream`), and that event is never published
  (`RiskPublication.CrashLosesPublication`). `RiskPublication.SnapshotCurrentIff` and
  `RiskPublication.UnpublishedIff` say exactly when.

A tick commits to the price cache and then to its window. A crash between the two leaves the
cache ahead until the symbol's next tick, since ticks are never reclaimed (`Prices.NewestIff`).

The position limit of the ledger rests on posting one trade of a position at a time:
`Interleaving.InterleavedLimitIff` is the exact condition, `Interleaving.LimitNeedsSerialPosting`
a run that misses it. Stable replay rests on generated ids being new
(`LedgerRuns.ReplayReturnsOriginal`): the lookup joins the journal on the request id.

Order of outbox rows is insertion order (`created_at` strictly increasing); there is one relay
and one consumer in a group.

## Model

| member | source | states |
|---|---|---|
| EndToEnd.Joined | services/ledger-core/src/main/java/com/tradepulse/ledger/ledger/LedgerService.java:142-143 | A joint run of ledger transactions, relay and consumer is an interleaved ledger run and a pipeline run over one and the same outbox |
| EndToEnd.QuietCashIsLedgerCash | poc/native-kill-restart/run_proof.py:232-240 | Whenever the pipeline is quiet, projected cash is ledger cash minus admin credits, over every interleaving of postings and in any order of application |
| EndToEnd.QuietPositionsAreLedgerPositions | poc/native-kill-restart/run_proof.py:232-240 | Under the discipline, and with accepted commits on current reads (as serial posting gives), the log is the ledger's outbox and every projected position is the net of posted trades |
| EndToEnd.QuietValueIsLedgerValue | services/risk-engine/app/metrics.py:67-69 | Portfolio value is then ledger cash less admin credits plus net posted positions at their marks, and profit is attributed trade by trade |
| Pipeline.ExactlyOnce | poc/native-kill-restart/store.py:138-170 | Over every list of steps (commits, relay and consumer steps, reclaims, crashes): no event is applied twice and only outbox events are; each outbox event is applied, or unsent, or has a stream entry still undelivered or pending; the in-place cash and positions are exactly those of the applied events |
| Progress.AlwaysDrains | poc/native-kill-restart/consumer_proc.py:83-117 | From every reachable state, whatever crashed and wherever, one restart of relay and consumer and no further fault leads to a quiet pipeline over the same outbox |
| Pipeline.QuietMeansBaseline | poc/native-kill-restart/seed.py:66-74 | When nothing is unsent, undelivered or pending, the applied events are exactly the outbox events and seeded cash is seed plus every cash movement, whatever the order of application |
| Pipeline.RelayStutters | services/ledger-core/src/main/java/com/tradepulse/ledger/stream/OutboxRelay.java:72-93 | Over every run sent rows are a prefix of the outbox; the stream, adjacent repeats collapsed, is that prefix or one row more; so its first occurrences are an outbox prefix in order |
| Pipeline.ConsumerInvariant | poc/native-kill-restart/consumer_proc.py:83-115 | Over every run: pending ids ascend and lie up to the cursor, every delivered entry that is no longer pending has been applied, and the entry about to be acknowledged has been applied |
| Events.DerivedRefinesInPlace | services/risk-engine/app/store.py:202-255 | For every delivery sequence with duplicates, the incrementally updated tables hold, per account and symbol, the SUM of cash and the last position that the queries derive from the first occurrences |
| Events.OnlyFirstOccurrencesMatter | poc/native-kill-restart/store.py:146-168 | Two delivery sequences with the same first occurrences leave equal tables |
| Events.InsertAllIsFirstOccurrences | services/risk-engine/app/store.py:210-218 | Inserting deliveries with INSERT OR IGNORE keeps exactly the events no earlier delivery carried, in order |
| Events.FirstIsKept | services/risk-engine/app/store.py:210-218 | An event is kept if and only if it occurs at some place before which its id does not |
| Events.CollapseIsFirstOccurrences | docs/contracts/streams/redis-streams.md:76-88 | On a stream whose repeats are adjacent, deduplicating by id is the same as dropping adjacent repeats |
| Events.CashSumIsOrderFree | services/risk-engine/app/store.py:232-238 | Two logs of distinct events with the same contents have the same cash sum and length |
| InOrder.InOrderAlways | services/risk-engine/app/worker.py:85-134 | If every reclaim claims all pending entries before a new read, then over every run with crashes the applied log is a prefix of the outbox in order, the tables are the single-delivery fold of that prefix, and pending entries never exceed one claim |
| InOrder.QuietInOrder | poc/native-kill-restart/consumer_proc.py:83-115 | Under that discipline a quiet pipeline has applied exactly the outbox, in order, and all tables equal the baseline |
| InOrder.HandleKeepsOrderIff | poc/native-kill-restart/consumer_proc.py:83-107 | In any run whose log is still in outbox order, applying an entry keeps the whole log in order if and only if it is a duplicate or no earlier pending entry carries another unapplied event |
| InOrder.StalePosition | services/risk-engine/app/worker.py:85-117 | For every batch size, without the discipline: a run that ends quiet, with nothing lost, and with a position that is not the last one in the outbox |
| Newest.AppliedNewestIff | services/risk-engine/app/store.py:240-252 | Where the last applied event of each account and symbol is the newest applied one in outbox order, applying a new event keeps it so if and only if no applied event of its account and symbol comes later in the outbox |
| Newest.NewestIff | services/risk-engine/app/store.py:240-252 | Over every run: the largest rowid of each account and symbol has always been the newest of theirs applied if and only if no entry was ever applied after a newer one of the same account and symbol |
| Newest.QuietPositionsIff | services/risk-engine/app/store.py:240-255 | When the pipeline is quiet that is the case if and only if log and outbox end with the same event for every account and symbol; and then every position is the outbox's last one |
| Newest.InOrderIsNewest | services/risk-engine/app/store.py:240-252 | A log in outbox order has the property for every account and symbol |
| Newest.LateButNewest | services/risk-engine/app/worker.py:85-117 | For every batch size, a run that ends quiet and out of order with every position right: order of the whole log is more than positions need |
| NativeStore.Store.SeedOutbox | poc/native-kill-restart/store.py:66-78 | All rows are appended, or none when any id repeats (exactly then it fails) |
| NativeStore.Store.ApplyEvent | poc/native-kill-restart/store.py:138-170 | Reports true exactly for a new event id; dedupe row, cash and position move together or not at all; cash of an unseeded account is never created |
| RelayProc.RunProcess | poc/native-kill-restart/relay_proc.py:41-55 | Publishes the unsent rows oldest first, once each; dies exactly when the chosen row exists, leaving it published and unmarked; marks exactly the rows before it |
| ConsumerProc.Consumer.Handle | poc/native-kill-restart/consumer_proc.py:49-56 | A malformed entry or known id changes nothing; otherwise the event is applied once |
| ConsumerProc.Consumer.Reclaim | poc/native-kill-restart/consumer_proc.py:84-91 | From any state a crash leaves, the reclaim empties the pending list and leaves the tables of one delivery of every entry up to the cursor |
| ConsumerProc.Consumer.RunProcess | poc/native-kill-restart/consumer_proc.py:78-119 | Terminates; exits 137 exactly when the chosen new entry exists; a clean exit leaves nothing undelivered or pending and the tables of single delivery; death leaves exactly that entry pending, its effect recorded |
| ConsumerProc.SingleDelivery | poc/native-kill-restart/consumer_proc.py:49-56 | The tables after one delivery of each entry prefix, none of which a redelivery of its last entry changes |
| Seed.Generate | poc/native-kill-restart/seed.py:47-63 | One event per trade; positions run on from the previous event of the symbol, and each cash movement pays for its change of position |
| Seed.Baseline | poc/native-kill-restart/seed.py:66-74 | The loop computes the fold BaselineCash and BaselinePositions, which BaselineIsSingleDelivery ties to the projection |
| Seed.BaselineIsSingleDelivery | poc/native-kill-restart/seed.py:66-74 | The baseline is exactly what one delivery of each event leaves in the projection tables, cash and positions |
| KillRestartProof.RestartedRelay | poc/native-kill-restart/run_proof.py:160-188 | Publishing again from the row whose mark was lost leaves the same first occurrences |
| KillRestartProof.Prove | poc/native-kill-restart/run_proof.py:147-240 | For every event list, every relay death and every consumer death (or none), one restart of each ends with one stream duplicate at most, nothing pending, every id processed once in order, cash at 10000 plus all movements, each position the symbol's last one, and both equal to the baseline |
| OutboxRelay.Relay.RelayBatch | services/ledger-core/src/main/java/com/tradepulse/ledger/stream/OutboxRelay.java:72-93 | Disabled: no effect. Enabled: publishes the oldest unsent rows up to the batch size, stops exactly at the first failing publish, and marks exactly the published rows |
| OutboxRelay.UnsentAfter | services/ledger-core/src/main/java/com/tradepulse/ledger/ledger/LedgerRepository.java:110-124 | What is unsent after a call is the rest of what was unsent before, still oldest first |
| OutboxRelay.DrainedInCeilCalls | services/ledger-core/src/main/java/com/tradepulse/ledger/stream/OutboxRelay.java:72-93 | After n fault-free calls the outbox is empty if and only if n >= ceil(unsent / batch size) |
| GroupRuns.Conservation | poc/outbox-idempotency/stream_bus.py:39-55 | Over every run of appends, reads and acks, the ids up to the cursor split exactly into acknowledged and pending, no id in both |
| StreamBus.Bus.XAdd | poc/outbox-idempotency/stream_bus.py:25-29 | Ids are 1..n per stream; other streams and all groups are untouched |
| StreamBus.Bus.Scan | poc/outbox-idempotency/stream_bus.py:41-49 | The scan under a moving cursor returns exactly the next entries after the cursor, in order, and makes exactly them pending |
| StreamBus.Bus.XReadGroup | poc/outbox-idempotency/stream_bus.py:39-49 | A read changes only its own group and returns the next entries in order |
| StreamBus.Bus.XAck | poc/outbox-idempotency/stream_bus.py:51-52 | Removes one id from the pending list of one group; an absent id changes nothing |
| StreamBus.Bus.RedeliverPending | poc/outbox-idempotency/stream_bus.py:57-59 | Returns exactly the pending entries in delivery order and leaves the group as it was |
| PocConsumer.RiskConsumer.Poll | poc/outbox-idempotency/consumer.py:36-42 | Delivers the next ten entries: applied in order and all acknowledged, or, on an injected crash, none applied and all left pending |
| PocConsumer.RiskConsumer.Recover | poc/outbox-idempotency/consumer.py:44-47 | Applies every pending entry in order and leaves nothing pending |
| PocConsumer.PollingCoversTheRest | poc/outbox-idempotency/consumer.py:36-42 | Polling until nothing is new delivers every remaining entry once, in order |
| PocConsumer.AcknowledgedIsSeen | poc/outbox-idempotency/consumer.py:36-47 | Over every run of appends, polls, polls that die, recoveries and SETID 0, each id up to the cursor that is not pending has had its event id seen |
| PocConsumer.ReplayChangesNothing | poc/outbox-idempotency/run_scenarios.py:101-114 | A consumer that has caught up, through whatever crashes and recoveries, and is replayed from SETID 0 to the end skips every entry once more and applies none |
| PocConsumer.RiskConsumer.Replay | poc/outbox-idempotency/stream_bus.py:61-63 | On the objects: SETID 0 and polling to the end leave every group and the whole view as they were, save for the count of skipped entries |
| PocConsumer.ViewIsFirstOccurrences | poc/outbox-idempotency/consumer.py:25-34 | The view is exactly the first occurrences on the stream: their number applied, their ids seen, the last of them per position |
| Ledger.FirstViolation | services/ledger-core/src/main/java/com/tradepulse/ledger/domain/ComplianceRules.java:34-42 | No violation exactly when cash is not negative and the position within the limit; negative cash takes precedence |
| Ledger.LedgerService.PostTrade | services/ledger-core/src/main/java/com/tradepulse/ledger/ledger/LedgerService.java:88-148 | The sequence of table writes equals the transaction function Post on tables and outcome, all rows or none, for every request and constraint failure |
| LedgerOutcomes.AcceptableIsPosted | services/ledger-core/src/main/java/com/tradepulse/ledger/ledger/LedgerService.java:96-147 | A request not seen, for a known account, with positive quantity and price, unused identifiers, cash that stays non-negative and a position within the limit is posted, buy or sell, and these are all the rows it writes |
| LedgerOutcomes.BreakingIsRefused | services/ledger-core/src/main/java/com/tradepulse/ledger/ledger/LedgerService.java:108-119 | One that breaks a limit is refused for that reason, cash first, and leaves the refused trade, one audit and nothing else |
| LedgerOutcomes.OtherwiseUnchanged | services/ledger-core/src/main/java/com/tradepulse/ledger/ledger/LedgerService.java:88-148 | Exactly when a request is answered as a replay, as an unknown account, or with a constraint violation; none of these changes anything |
| LedgerOutcomes.CreditOutcome | services/ledger-core/src/main/java/com/tradepulse/ledger/ledger/LedgerService.java:62-86 | A positive credit to a known account under new identifiers goes through, returns the new balance and writes these rows; exactly when each error is given instead |
| Ledger.LedgerService.CreditAccount | services/ledger-core/src/main/java/com/tradepulse/ledger/ledger/LedgerService.java:62-86 | The credit's writes equal the transaction function Credit, or leave every table unchanged on a bad amount, an unknown account or a constraint failure |
| LedgerRuns.JournalDeterminesCash | services/ledger-core/src/main/java/com/tradepulse/ledger/ledger/LedgerService.java:125-143 | Over every run of posts and credits each entry is a balanced pair of lines and cash is opening cash plus the net of the account's own lines |
| LedgerRuns.AcceptedJournal | services/ledger-core/src/main/java/com/tradepulse/ledger/ledger/LedgerService.java:129-138 | A posted trade keeps cash equal to the journal if and only if no account is named like the securities account |
| LedgerRuns.CreditedJournal | services/ledger-core/src/main/java/com/tradepulse/ledger/ledger/LedgerService.java:76-81 | An admin credit keeps cash equal to the journal if and only if no account is named like the funding account |
| LedgerRuns.DebitsEqualCredits | services/ledger-core/src/main/java/com/tradepulse/ledger/ledger/LedgerService.java:129-136 | Balanced entries add up: total debits equal total credits over every prefix of the journal |
| LedgerRuns.LimitsHold | services/ledger-core/src/main/java/com/tradepulse/ledger/ledger/LedgerService.java:103-119 | Posting serially, no account goes below zero and no position beyond the limit, in every reachable state |
| LedgerRuns.RecordsCorrespond | services/ledger-core/src/main/java/com/tradepulse/ledger/ledger/LedgerService.java:110-147 | In every reachable state posted trades, journal entries, accepted audits and outbox rows correspond one to one in order; a refused trade has exactly one audit; one trade per request |
| LedgerRuns.ReplayIsStable | services/ledger-core/src/main/java/com/tradepulse/ledger/ledger/LedgerRepository.java:32-41 | Resubmitting a request after any further commands changes nothing and is not created again; the outcome is the original one if and only if the trade was posted or no credit's journal entry bears that id |
| LedgerRuns.ReplayReturnsOriginal | services/ledger-core/src/main/java/com/tradepulse/ledger/ledger/LedgerService.java:88-94 | In every run whose credits draw source ids other than the request id, a retry after any further commands returns the original outcome, posted or refused, and changes nothing |
| LedgerRuns.RefusalReplayDiffers | services/ledger-core/src/main/java/com/tradepulse/ledger/ledger/LedgerRepository.java:34-39 | Why generated source ids have to be new: if one collided with a refused request id, which no client can bring about, the retry would be answered with that credit's journal entry |
| LedgerRuns.OutboxIsFaithful | services/ledger-core/src/main/java/com/tradepulse/ledger/ledger/LedgerService.java:62-148 | Over every run the last position event of each account and symbol is the net of posted trades, each event pays for its own change of position, and opening cash plus all movements is cash minus admin credits |
| Interleaving.InterleavedPostingIsSafe | services/ledger-core/src/main/resources/db/migration/V1__users_accounts.sql:19 | Over all interleavings of early reads and atomic commits: cash is never negative, one trade per request, records one to one, and no cash update is lost |
| Interleaving.UninterruptedIsSerial | services/ledger-core/src/main/java/com/tradepulse/ledger/ledger/LedgerService.java:88-148 | A transaction nobody interrupts has exactly the effect of the serial post |
| LedgerOutcomes.CommitOutcome | services/ledger-core/src/main/java/com/tradepulse/ledger/ledger/LedgerService.java:96-148 | A commit decides on the cash and position it read and the database on the cash there now: exactly when it accepts, refuses or does nothing, and what it writes |
| Interleaving.UninterruptedIsCurrent | services/ledger-core/src/main/java/com/tradepulse/ledger/ledger/LedgerService.java:88-148 | The commit of a transaction nobody interrupts is on a current read |
| Interleaving.InterleavedCash | services/ledger-core/src/main/java/com/tradepulse/ledger/ledger/LedgerService.java:97-101 | Over every interleaving opening cash plus the outbox's cash movements is ledger cash minus admin credits, whatever was read |
| Interleaving.LimitNeedsSerialPosting | services/ledger-core/src/main/java/com/tradepulse/ledger/ledger/LedgerService.java:103-109 | For every limit, an interleaving of two buys that go past it together and publish a wrong position |
| Interleaving.CommitKeepsLimitIff | services/ledger-core/src/main/java/com/tradepulse/ledger/ledger/LedgerService.java:103-109 | From a state within the limit an accepted commit keeps it if and only if the position at commit, not the one read, has room for the trade |
| Interleaving.CommitKeepsOutboxIff | services/ledger-core/src/main/java/com/tradepulse/ledger/ledger/LedgerService.java:142-143 | From a faithful outbox an accepted commit leaves it faithful if and only if the position read is still current |
| Interleaving.InterleavedLimitIff | services/ledger-core/src/main/java/com/tradepulse/ledger/ledger/LedgerService.java:88-148 | Over every interleaving the limit has held in every state if and only if every accepted commit found room at commit |
| Interleaving.InterleavedOutboxIff | services/ledger-core/src/main/java/com/tradepulse/ledger/ledger/LedgerService.java:88-148 | Over every interleaving the outbox has been faithful in every state if and only if every accepted commit had read the current position |
| Interleaving.CurrentReadsSuffice | services/ledger-core/src/main/java/com/tradepulse/ledger/ledger/LedgerService.java:104-109 | With current reads throughout, limit and faithful outbox hold in every state of every interleaving |
| PocLedger.Ledger.PostTrade | poc/outbox-idempotency/ledger.py:55-164 | The writes equal one attempt of the transaction: rolled back entirely when dying before commit, kept entirely when dying after |
| PocLedger.PostOutcome | poc/outbox-idempotency/ledger.py:62-150 | Exactly when each answer is given, and every row a posted trade of either side writes |
| PocLedger.RetriesPostOnce | poc/outbox-idempotency/ledger.py:62-164 | However often a request is retried and wherever each attempt dies, it posts once, as the first attempt that committed; a refused one leaves one audit per attempt and nothing else |
| PocLedger.RunsAreSound | poc/outbox-idempotency/ledger.py:55-158 | Over every run of attempts, crashes and marking: debits equal credits, no account is overdrawn, events are distinct and consistent, and they account for the position table and for cash |
| PocLedger.JournalDeterminesCashIff | poc/outbox-idempotency/ledger.py:94-109 | A posting keeps cash equal to the journal if and only if its amount is zero, or positive with no account named like the securities account |
| PocLedger.RunsJournalIff | poc/outbox-idempotency/ledger.py:94-109 | Over every run of attempts and crashes: cash has equalled the journal in every state if and only if every trade that posted had such an amount |
| PocLedger.NegativeQuantityBreaksJournal | poc/outbox-idempotency/ledger.py:73-109 | Buying a quantity of -1 posts, raises cash, and leaves cash and journal apart |
| PocLedger.Ledger.RelayOutbox | poc/outbox-idempotency/relay.py:15-25 | Every unsent row is published, in order, once or twice as asked, and marked; other streams and all groups are untouched |
| PocLedger.DuplicatesAreInvisible | poc/outbox-idempotency/relay.py:19-24 | A stream with every row published twice has the same first occurrences |
| Windows.RollingWindow | services/risk-engine/app/store.py:101-119 | Under any interleaving of appends across keys the table holds per key min(n, max(window_size, 0) + 1) of its n values, the newest, oldest first; so at most window_size returns |
| Windows.ReturnsAreChanges | services/risk-engine/app/store.py:188-199 | The series has one return for every step from a value that is not zero, in order, and return times value is the change over the step |
| Windows.ReturnsCompound | services/risk-engine/app/store.py:188-199 | With no zero value there is one return per step, and compounding the returns leads from the oldest retained value to the newest |
| RiskStore.Store.AppendPrice | services/risk-engine/app/store.py:101-119 | The price goes to the end of its symbol's window, of which the newest max(window_size, 0) + 1 stay; other windows are untouched |
| RiskStore.Store.AppendPv | services/risk-engine/app/store.py:152-169 | The same for portfolio values |
| RiskStore.Store.PvReturns | services/risk-engine/app/store.py:188-199 | The loop yields the return series of the account's retained values, zero denominators skipped |
| RiskStore.Store.ApplyLedgerEvent | services/risk-engine/app/store.py:202-218 | True exactly for an id not in the log; a duplicate leaves the log as it was |
| RiskStore.Store.ResolvedPositions | services/risk-engine/app/store.py:240-266 | One holding per traded symbol: its last position, at the latest tick or else its last trade price |
| RiskStore.SymbolsAreTraded | services/risk-engine/app/store.py:246-252 | The symbols listed are each listed once and are exactly those the account has an event for |
| RiskStore.DistinctAreAccounts | services/risk-engine/app/store.py:268-272 | The accounts listed are each listed once and are exactly those with an event |
| RiskStore.MarkAfter | services/risk-engine/app/store.py:254-266 | After an event its symbol is marked at the tick, else at the event's price, else at zero; all other marks stay |
| Attribution.PnlIsAttributed | services/risk-engine/app/metrics.py:67-69 | Profit over the seed equals the sum over events of the change of position times the distance from the event's price to the current mark |
| Attribution.PnlIsCashPlusMarketValue | services/risk-engine/app/metrics.py:67-69 | Profit computed from the resolved positions is cash moved plus the worth of every symbol held |
| Attribution.TradeMovesPnl | services/risk-engine/app/store.py:257-266 | One trade gains its quantity times the distance to the mark; without a tick it also revalues what was held at its own price |
| Attribution.TradeAtTick | services/risk-engine/app/store.py:257-266 | A trade in a symbol with a tick leaves portfolio value unchanged if and only if it is at that tick |
| RiskMetrics.MeanMinimises | services/risk-engine/app/metrics.py:45-46 | No reference value gives a smaller sum of squared distances than the mean |
| RiskMetrics.VolatilityBound | services/risk-engine/app/metrics.py:46 | Volatility is at most half the range of the returns |
| RiskMetrics.ValueAtRiskBound | services/risk-engine/app/metrics.py:47 | Value at risk lies between 0 and 1.65 times half the range times the absolute portfolio value |
| RiskMetrics.ZeroVolatilityIff | services/risk-engine/app/metrics.py:46 | Volatility is zero if and only if there are fewer than two returns or all are equal |
| RiskMetrics.SharpeSign | services/risk-engine/app/metrics.py:48 | Sharpe has the sign of the mean when there is volatility and is zero when all returns are equal |
| RiskMetrics.VolatilityFromSums | services/risk-engine/app/metrics.py:46 | n^2 v^2 is n times the sum of the squared returns less the square of their sum |
| RiskMetrics.SharpeRatio | services/risk-engine/app/metrics.py:48 | Sharpe times volatility times the number of returns is their sum; zero without volatility |
| RiskMetrics.ComputationBounds | services/risk-engine/app/metrics.py:45-49 | Every computation saved and published has its volatility from the sums of the returns, VaR 1.65 times volatility times absolute value, Sharpe the ratio of mean to volatility, and obeys all of these bounds |
| RiskEngine.Consumer.ProcessTick | services/risk-engine/app/consumer.py:42-59 | Recorded exactly when symbol and price are present, into cache and window; otherwise nothing changes |
| RiskEngine.Consumer.ProcessLedger | services/risk-engine/app/consumer.py:62-95 | Builds exactly for a new event with three non-empty names and both amounts; the new log row is the envelope's field by field, cash moves by its cash_delta and the position is its position_after; the saved snapshot describes the store after it; otherwise nothing changes |
| RiskEngine.EnvelopeRoundTrip | services/ledger-core/src/main/java/com/tradepulse/ledger/ledger/LedgerService.java:151-183 | What the ledger encodes is accepted and parses back to the same event, and only that |
| RiskEngine.Consumer.BuildRiskEnvelope | services/risk-engine/app/consumer.py:97-137 | The metrics describe the account: P&L of its log at the marks, and volatility, VaR and Sharpe given outright from the returns of its retained window; they become its snapshot |
| RiskEngine.Consumer.RecomputeAccount | services/risk-engine/app/consumer.py:151-164 | Builds exactly when the account has a symbol; the sampled value is the one published, and the statistics are those of the window that includes it |
| RiskWorker.Worker.HandleEntry | services/risk-engine/app/worker.py:94-100 | One entry is the steps deliver, build, publish of the publication machine, or nothing for a malformed entry or duplicate |
| RiskWorker.Worker.ReclaimLedger | services/risk-engine/app/worker.py:85-102 | Claims the oldest idle pending entries up to a batch, applies and acknowledges exactly them, and publishes once per newly applied event in order |
| RiskWorker.ClaimsOldest | services/risk-engine/app/worker.py:89-92 | A claim takes idle pending entries in order; one is left only when the claim is full, of older ones |
| RiskWorker.Worker.DrainLedger | services/risk-engine/app/worker.py:104-117 | Applies exactly the next batch in order, leaves older pending entries pending and none of its own; the count is that of newly applied events |
| RiskWorker.Worker.RefreshPrices | services/risk-engine/app/worker.py:72-83 | From any cache and windows, whatever a crash left: the next batch of ticks enters both in order; malformed ones are acknowledged without effect |
| RiskWorker.Worker.Cycle | services/risk-engine/app/worker.py:131-134 | From any state: group and log move by AfterCycle, cache and windows by the next batch of ticks, one publication per newly applied event, and the whole is a run of the publication machine |
| RiskWorker.StoppedReclaim | services/risk-engine/app/worker.py:85-102 | From a recoverable state with all pending entries idle, stopping a reclaim after any number of applied and acknowledged entries leaves a recoverable state with at most one batch pending |
| RiskWorker.StoppedDrain | services/risk-engine/app/worker.py:104-117 | With nothing older pending, stopping a drain after any number of applied and acknowledged entries does too |
| WorkerRuns.AlwaysSafe | services/risk-engine/app/worker.py:85-134 | Over every run of arrivals, cycles and deaths, whichever entries are idle: no event is applied twice, only stream events are, and every delivered entry no longer pending is malformed or has its event in the log |
| WorkerRuns.DeathBeforeAck | services/risk-engine/app/worker.py:94-101 | A death between applying an entry and acknowledging it, in a reclaim or a drain, leaves that entry pending with its effect made |
| WorkerRuns.PromptIsRecoverable | services/risk-engine/app/worker.py:85-134 | Over every such run whose reclaims find every pending entry idle: the newest delivered entries are pending, at most a batch of them, and the log is the first occurrences of the stream up to one of them |
| WorkerRuns.DrainedStream | services/risk-engine/app/worker.py:104-117 | In such a run, a worker that has drained a stream of encoded ledger events has exactly their first occurrences in its log, in order, field by field |
| WorkerRuns.EncodedTicks | services/risk-engine/app/worker.py:77-82 | A batch of well-formed ticks enters cache and windows as those ticks, in order |
| WorkerRuns.CycleKeepsResumableIff | services/risk-engine/app/worker.py:85-134 | From a recoverable state a cycle leads to one if and only if all pending entries were idle, or the stream had nothing new and no entry was idle before an older one |
| WorkerRuns.HastyCycle | services/risk-engine/app/worker.py:89-92 | A restart quicker than the idle threshold, with one entry pending and one new, leaves the recoverable states |
| RiskWorker.PromptCycle | services/risk-engine/app/worker.py:85-134 | From any recoverable state, such as every death leaves in a run whose reclaims find everything idle: if all pending entries are idle and fit one batch, a cycle leaves nothing pending and the log is the first occurrences of the stream up to the new cursor |
| RiskWorker.CaughtUp | services/risk-engine/app/worker.py:131-134 | Then n cycles advance the cursor by n batches in stream order, and reach the end if and only if n >= ceil(undelivered / batch size) |
| Prices.NewestIff | services/risk-engine/app/consumer.py:56-58 | Over every run with crashes a symbol's cached price is the newest in its window if and only if no crash struck between its last upsert and that upsert's append and the append is not still to come, or that upsert wrote the price the window already ended with |
| Prices.CacheAheadOfWindow | services/risk-engine/app/store.py:86-119 | One tick and one crash: a cached price that no window has |
| Prices.TicksAreSteps | services/risk-engine/app/worker.py:77-82 | A batch of ticks that goes through is a run of upserts, each followed by its append |
| RiskWorker.Worker.MaybeRecompute | services/risk-engine/app/worker.py:136-156 | Over the calls of a process lifetime the worker fires exactly at the throttle's firings; a firing publishes exactly once for each account with an event and for no other, that account's window receives that portfolio value as its one sample, and the whole is a run of the publication machine |
| RiskPublication.OnePublicationPerEvent | services/risk-engine/app/consumer.py:92-95 | Over every run with crashes each ledger event is the cause of at most one publication, and only applied events are |
| RiskPublication.CrashLosesPublication | services/risk-engine/app/worker.py:94-100 | An event whose process died after applying it and before publishing is never published for, whatever follows |
| RiskPublication.UnpublishedIff | services/risk-engine/app/worker.py:94-100 | In every run an applied event has no publication if and only if a crash struck while it was in hand, or it is in hand now |
| RiskPublication.SnapshotIsLastPublished | services/risk-engine/app/store.py:279-302 | Whenever an account's most recent computation was published, by either path, its snapshot is the last one on the stream for that account |
| RiskPublication.SnapshotCurrentIff | services/risk-engine/app/store.py:279-302 | When no two computations of an account give the same data, its snapshot is the last publication on the stream for it if and only if its most recent computation was published |
| RiskPublication.SnapshotAheadOfStream | services/risk-engine/app/store.py:283-289 | A run, ending between saving and publishing, whose snapshot differs from the last one on the stream |
| Throttle.FiringsAreSpaced | services/risk-engine/app/worker.py:144-149 | Whatever the call times, consecutive firings are at least the interval apart, and k firings span at least k - 1 intervals |
| Throttle.FiringsKeepUp | services/risk-engine/app/worker.py:144-149 | When calls are at most d apart the first one fires, consecutive firings are less than the interval plus d apart, and less than an interval has passed since the last firing |
| PocRiskEngine.RiskEngine.Apply | poc/end-to-end/risk_engine.py:60-106 | A duplicate only counts as skipped; a new event adds the relative change of value exactly when the last value is set and not zero, and publishes once: the P&L of the whole log, and volatility, VaR and Sharpe of all returns so far given outright |
| PocRiskEngine.CostBasisDifference | poc/end-to-end/risk_engine.py:74-81 | The service's P&L minus the cost-basis P&L is what was earned on other symbols plus the value given to AAPL before its first tick |
| PocRiskEngine.CostBasisAgreesIff | poc/end-to-end/risk_engine.py:74-81 | With an AAPL tick the two agree if and only if nothing net was earned on other symbols, in particular when only AAPL is traded |
| Broker.Channel.AllUnlessDropped | services/gateway/broker.go:24-31 | Received plus buffered messages are all messages offered if and only if none was dropped |
| Broker.Channel.Offer | services/gateway/broker.go:47-51 | Queued when there is room, dropped only when 128 are buffered; received plus buffered stays an in-order subsequence of what was offered |
| Broker.Broker.Subscribe | services/gateway/broker.go:25-31 | The new client starts open and empty, owed what is published from now on; others are untouched |
| Broker.Broker.Unsubscribe | services/gateway/broker.go:34-41 | Closes a registered client once; an unregistered channel is left alone; registered channels stay open |
| Broker.Broker.Publish | services/gateway/broker.go:44-54 | Every client is offered the message exactly once, none is closed, and a full buffer costs only its own client; what a client was offered stays exactly what was published since it subscribed |

## Left out

- HTTP, authentication, configuration binding, SSE writing, the dashboard, deployment and logging: plumbing without an invariant of its own.
- The engines of Redis and SQL: only append, cursor, pending entries, claim, unique and check constraints and atomic commit are modelled.
- The bound of XAUTOCLAIM on how many pending entries one call scans: a claim here finds the oldest idle entries wherever they are.
- Floating point, rounding of published figures and NUMERIC(20,4): arithmetic is exact.
- The square root: volatility is a non-negative number whose square is the variance, given as a function that has this property.
- JSON: an entry is well-formed or malformed. Envelopes that parse and then make a process raise are not modelled: a cash movement or position that does not convert to a number (in both consumers), and in the native store a missing account or symbol, which its NOT NULL columns refuse.
- Fields that only travel along (side, trade and computation times, correlation id, currency) and the gateway's audit and history read endpoints.
- The computation time in a snapshot row: that two computations of an account never give the same row is a hypothesis of SnapshotCurrentIff.
- The order of symbols in a position list (sorted by name in the code, by first trade here); sums do not depend on it.
- Two generated ids per event: the outbox row and the envelope inside it each get their own in LedgerService.java:142-183; here one id stands for both.
- Phase5PocConsumer: the same deduplicating consumer as PocConsumer with an in-memory set; it makes no claim across restarts.
- poc/outbox-idempotency identifiers: the ledger's generated ids are taken to be new, so its integrity errors are not modelled.
- SETID to a position other than 0 in the replay statement: the simulator clears the pending list and can skip entries.
- Stream trimming, several relays, several consumers in one group, configuration changes during a run.
- The gateway tailer's start at the end of the stream: entries before its first read may be missed, and nothing is claimed about them.
- Explanations of risk figures and tick generation: text formatting and test data.
