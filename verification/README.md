# Iguanatrader core guarantees in Dafny

A verification model of the parts of iguanatrader whose correctness spans several functions or
whole runs. `dafny verify dfyconfig.toml` checks everything.

## What is modelled

**Message bus and outbox.** `MessageBus.dfy` has the subscription and the bus as classes with
the source's loops; `DedupWindow.dfy` is what their recent-keys window means, over a log of every
key appended. `Delivery.dfy` is the labelled transition system of bus, workers and units of work:
any interleaving of its steps is a run. `DeliveryUnits.dfy` and `DeliveryQueues.dfy` hold the
inductive invariants, `DeliveryTheorems.dfy` the guarantees, `DeliveryOnce.dfy` and
`DeliveryDuplicates.dfy` the promise about duplicates and exactly when it breaks,
`DeliveryFailures.dfy` what failed deliveries leave behind. `ScopedContext.dfy` treats one task
as a program of nested scopes: an evaluator, the class that sets and resets the context variables
in place and is proved to follow it, and the guarantees of nesting.

**Tenant isolation.** `TenantListener.dfy` has the two session listeners, `TenantIsolation.dfy`
the row invariant and non-interference over whole runs of flushes and queries, under a tenant
and under none.

**Append-only ledger.** `AppendOnly.dfy` has the ORM listener and the SQLite triggers as two
implementations of one rule and says exactly when they agree; `Ledger.dfy` runs arbitrary ORM and
raw statements, those with OR REPLACE among them, against the triggers, with the one-shot supersession
and the as-of predicate.

**Session rotation.** `SessionRotation.dfy`: request handlers, and the browser's chain of requests.

**Arithmetic.** `BankersRounding.dfy`, `MoneyAmounts.dfy` (`Money` and the currency table, with
arithmetic expressions over amounts), `Portfolio.dfy` (business days, average entry, P&L).

**Reconnect machines and lists.** `Heartbeat.dfy`, `SseReconnect.dfy`, `RecentSymbols.dfy`,
`Citations.dfy` and `CitationTheorems.dfy`.

`Options.dfy`, `Results.dfy`, `Sequences.dfy` and `Ascii.dfy` are shared helpers.

## Where the code and its documentation differ

The model follows the code.

- `shared/messagebus.py:67-68,150-154` promise that duplicate keys are silently dropped. The key is
  checked when an event is queued and recorded after its handler returned, so copies queued in
  between are all handled (`TwoCopiesBothHandled`). `DuplicateBreaksExactly` says when a duplicate
  is harmless: no earlier copy is queued or in hand and still able to succeed.
- `shared/contextvars.py:173-175` say that when a delivery fails the rollback has already protected
  durability. Two things escape the rollback, and a redelivery repeats them: the writes of a unit
  that raises after its commit (`RedeliveryStoresTwice`) and those of a unit that the handler opened
  inside its own, which commits for itself (`NestedCommitStoresTwice`). `FailureLeavesNothingExactly`,
  `OpenFailureLeavesNothingExactly` and `CommittedFailsExactly` give the conditions.
- `shared/heartbeat.py:10-14,105` promise one hook call per CONNECTED to DISCONNECTED transition. The
  hook also fires when reconnecting is given up (`GivingUpFiresHook`, `DocumentedCountExactly`).
- `migrations/_trading_trigger_helpers.py:28` calls fills and equity snapshots purely append-only, and
  `_whitelist_update_trigger` and the research triggers are meant to do the same for frozen columns. No
  connection turns `recursive_triggers` on (`persistence/session.py:43-47`), so the rows that an OR
  REPLACE conflicts with go without firing the DELETE triggers: INSERT OR REPLACE over any of the tables
  (`ReplaceOverwritesFill`), and UPDATE OR REPLACE through the unique keys that a permitted column is
  part of (`UpdateOrReplaceErasesOrder`, `UpdateOrReplaceErasesFact`). `LedgerIsImmutable` and
  `RowStaysExactly` give the condition. The repository issues no such statement.
- Some research sources stamp `recorded_from` with a publication date
  (`contexts/research/sources/fred.py:104,140`, `bls.py:116`, `bea.py:118`), which
  `contexts/research/repository.py:238` stores as it is. Such an insert changes what as_of returns for
  instants already past (`BackdatedInsertChangesPast`); `PastIsStableExactly` gives the condition.
- A negative `dedup_window` makes `_record_key` raise after emptying the window; the worker logs it
  as a handler failure.

## Model

Source paths are relative to the repository root.

| member | source | states |
|---|---|---|
| DedupWindow.LoggedIffSpaced | apps/api/src/iguanatrader/shared/messagebus.py:94-101 | Appending only keys outside the window is the same as keeping equal entries of the append log more than `dedup_window` entries apart; both directions |
| DedupWindow.WindowPush | apps/api/src/iguanatrader/shared/messagebus.py:97-101 | Append then evict from the left is the window of the extended log, and the entries stay distinct |
| DedupWindow.SeenExactly | apps/api/src/iguanatrader/shared/messagebus.py:103-104 | A key is seen iff it was appended before and fewer than `dedup_window` different keys were appended since its last entry |
| MessageBus.Subscription.RecordKey | apps/api/src/iguanatrader/shared/messagebus.py:94-101 | Deque and set of recent keys stay the last W entries of the log; an already listed key changes nothing; raises exactly for a negative window |
| MessageBus.Subscription.EvictOldest | apps/api/src/iguanatrader/shared/messagebus.py:99-101 | The eviction loop leaves the last W entries and their exact set; raises (pop from an empty deque) exactly for a negative window |
| MessageBus.Subscription.HasSeen | apps/api/src/iguanatrader/shared/messagebus.py:103-104 | The set answers membership in the window of the log |
| MessageBus.Subscription.Offer | apps/api/src/iguanatrader/shared/messagebus.py:214-220 | A suppressed event changes nothing, every other one is put at the end of the queue |
| MessageBus.Subscription.DeliverNext | apps/api/src/iguanatrader/shared/messagebus.py:248-267 | Head of the queue is taken and marked done once; the key is recorded only on a normal return; a failure keeps the worker, a cancellation ends it |
| MessageBus.MessageBus.Subscribe | apps/api/src/iguanatrader/shared/messagebus.py:156-175 | New empty subscription at the end of its type's bucket; refused on a closed bus; routing stays one entry per subscription |
| MessageBus.MessageBus.Unsubscribe | apps/api/src/iguanatrader/shared/messagebus.py:179-186 | Leaves routing (other buckets untouched) and its worker is cancelled, whether or not it was routed |
| MessageBus.MessageBus.Publish | apps/api/src/iguanatrader/shared/messagebus.py:196-220 | Closed: refused. Outbox bound: appended there and no queue changes. Otherwise each subscription of the exact type gets it once unless it suppresses it |
| MessageBus.MessageBus.Close | apps/api/src/iguanatrader/shared/messagebus.py:224-235 | First close cancels every routed subscription and empties routing; a second one changes nothing |
| MessageBus.CancelAll | apps/api/src/iguanatrader/shared/messagebus.py:228-230 | Every subscription of a bucket is cancelled |
| DeliveryTheorems.PublishAfterCommit | apps/api/src/iguanatrader/shared/contextvars.py:136-153 | In every run, an event that is queued, in hand or handled anywhere was published in a unit that committed, as did all units around it, and all their writes are in the store |
| DeliveryTheorems.UncommittedLeavesNothing | apps/api/src/iguanatrader/shared/contextvars.py:140-147 | A unit rolled back, cancelled or still open has no stored write and none of its events, nor those of units nested in it, reached a subscriber |
| DeliveryTheorems.FlushIsPrefix | apps/api/src/iguanatrader/shared/contextvars.py:138-153 | What a unit handed on is a prefix of its outbox in order, nothing when it rolled back; a settled committed unit handed on the whole iff it returned normally or had nothing to hand on |
| DeliveryFailures.FailedDeliveryStores | apps/api/src/iguanatrader/shared/contextvars.py:138-153 | In every run a failed delivery in a unit of work has stored that unit's writes iff the unit raised after its commit, none otherwise; its events have not all gone out unless it had none |
| DeliveryFailures.FailureLeavesNothingExactly | apps/api/src/iguanatrader/shared/contextvars.py:138-153 | In every run a failed delivery has stored nothing at all iff neither its unit nor any unit nested in it, at any depth, has committed writes |
| DeliveryFailures.OpenFailureLeavesNothingExactly | apps/api/src/iguanatrader/shared/contextvars.py:136-153 | While the bus is open and no committed unit was cancelled or failed to close its session, that is so iff no unit opened inside the delivery's own has returned with writes |
| DeliveryFailures.NestedCommitStoresTwice | apps/api/src/iguanatrader/shared/contextvars.py:140-147 | The other input: a nested unit commits, the handler raises, nothing is interrupted and the bus is open; the redelivery stores the write again |
| DeliveryFailures.CommittedFailsExactly | apps/api/src/iguanatrader/shared/contextvars.py:148-152 | A committed unit can still fail, without interruption and without a further close, iff the bus is already closed and an event is left to hand on |
| DeliveryFailures.RedeliveryStoresTwice | apps/api/src/iguanatrader/shared/messagebus.py:249-265 | The input: commit, session close fails, key not recorded, the same event again and handled with success: the write is stored twice |
| DeliveryTheorems.RecordedMeansDone | apps/api/src/iguanatrader/shared/messagebus.py:249-256 | Every recorded key, hence every suppressed event, has a successful delivery behind it whose unit is committed and fully fanned out |
| DeliveryTheorems.InOrderAndConserved | apps/api/src/iguanatrader/shared/messagebus.py:212-220 | Handled, then in hand, then queued is exactly the due publications of the subscriber's type in order minus the suppressed; one task_done per dequeue |
| DeliveryTheorems.DrainsDespiteFailures | apps/api/src/iguanatrader/shared/messagebus.py:248-267 | From every reachable state a waiting worker can empty its queue whatever mix of successes and failures its handler gives, each event once and in order |
| DeliveryDuplicates.DuplicateBreaksExactly | apps/api/src/iguanatrader/shared/messagebus.py:213-256 | After any run guarded for a key and a subscriber, one more fan-out of that key keeps the promise (no two successes within the window) in every later guarded run iff the window is empty or no copy of the key is outstanding: neither queued nor in hand with a unit that has not failed, at a worker that has not ended |
| DeliveryDuplicates.BothSucceed | apps/api/src/iguanatrader/shared/messagebus.py:248-267 | From every state of a run with an open bus: a copy queued or in hand and a later one in the queue can both be handled with success, one right after the other |
| DeliveryOnce.KeyOnceWithinWindow | apps/api/src/iguanatrader/shared/messagebus.py:213-256 | In every run that fans a key out to a subscriber only while no copy is outstanding, two successes for it are more than W successes apart |
| DeliveryOnce.OnceWithinWindow | apps/api/src/iguanatrader/shared/messagebus.py:213-256 | When that holds for all keys, the successes of an idempotent subscriber are exactly its log of recorded keys |
| DeliveryOnce.TwoCopiesBothHandled | apps/api/src/iguanatrader/shared/messagebus.py:213-256 | The input: two copies published before the first finishes are both handled, contrary to the class docstring |
| DeliveryUnits.RunKeepsInv | apps/api/src/iguanatrader/shared/contextvars.py:136-153 | Inductive invariant over all interleavings: unit lifecycle, store contents per unit, where buffered events may be, flush order |
| DeliveryUnits.StepKeepsStore | apps/api/src/iguanatrader/shared/contextvars.py:142-145 | Every step keeps: the store holds exactly the writes of the committed units, in order |
| DeliveryUnits.StepKeepsOrigins | apps/api/src/iguanatrader/shared/messagebus.py:207-210 | Every step keeps: an event in an outbox or on the bus has only committed units between its origin and that place |
| DeliveryUnits.StepKeepsFlush | apps/api/src/iguanatrader/shared/contextvars.py:151-152 | Every step keeps: each sink holds the flushed prefix of each unit's outbox |
| DeliveryQueues.RunKeepsSubs | apps/api/src/iguanatrader/shared/messagebus.py:188-267 | Inductive invariant over all interleavings: queue conservation, key log and suppressed set, returned units behind successful deliveries |
| ScopedContext.VariablesRestored | apps/api/src/iguanatrader/shared/contextvars.py:88-113 | For every program of nested tenant, session and unit-of-work scopes, raising or not, the three context variables end at their starting values (an enclosing outbox may only have grown) |
| ScopedContext.WorldGrows | apps/api/src/iguanatrader/shared/contextvars.py:138-153 | Committed rows and fanned-out events are never taken back by any program |
| ScopedContext.BufferedInsideUnit | apps/api/src/iguanatrader/shared/messagebus.py:207-210 | While an outbox is bound nothing is fanned out, however deeply units nest |
| ScopedContext.OuterDecidesDelivery | apps/api/src/iguanatrader/shared/contextvars.py:136-153 | Rows of nested units are stored at once; events are fanned out only if the outer unit commits, and then exactly the collected ones in order (or none, with an error, on a closed bus) |
| ScopedContext.NestedCommitSurvives | apps/api/src/iguanatrader/shared/contextvars.py:140-152 | An inner unit's rows stay committed when the outer unit raises right after, while nothing is fanned out |
| ScopedContext.TaskContext.Run | apps/api/src/iguanatrader/shared/contextvars.py:81-113 | The set-and-reset code on real variables computes what the scope semantics says, for every program |
| ScopedContext.TaskContext.RunInSessionScope | apps/api/src/iguanatrader/shared/contextvars.py:136-153 | Same for run_in_session_scope: new session, empty outbox, commit or roll back, reset, only then publish |
| ScopedContext.TaskContext.RunWithSession | apps/api/src/iguanatrader/shared/contextvars.py:106-113 | Same for with_session_context, which leaves the tenant alone when none is given |
| ScopedContext.TaskContext.FlushAll | apps/api/src/iguanatrader/shared/contextvars.py:151-152 | The flush loop publishes the buffer in order, or raises on a closed bus without publishing |
| ScopedContext.TaskContext.PublishEvent | apps/api/src/iguanatrader/shared/messagebus.py:196-210 | Publishing from a task buffers when an outbox is bound, else fans out, and raises when closed |
| TenantListener.OrmExecuteState.TargetsOnlyUnscoped | apps/api/src/iguanatrader/persistence/tenant_listener.py:91-99 | True iff some class is selected and no selected one is tenant-guarded |
| TenantListener.OrmExecuteState.ScopedNames | apps/api/src/iguanatrader/persistence/tenant_listener.py:143-149 | Exactly the tables of the selected guarded classes |
| TenantListener.OrmExecuteState.InjectTenantFilter | apps/api/src/iguanatrader/persistence/tenant_listener.py:123-186 | Adds the tenant criterion for every guarded mapped class; unbound: nothing for unscoped queries, IS NULL for audit_log alone, else refused |
| TenantListener.AuditNames | apps/api/src/iguanatrader/persistence/tenant_listener.py:151-166 | The name set is {audit_log} iff every selected guarded class is audit_log and there is one |
| TenantListener.StampTenantOnInserts | apps/api/src/iguanatrader/persistence/tenant_listener.py:203-243 | Stops at the first refused instance with the right error; those before are stamped or already right, the others untouched |
| TenantIsolation.RowsCarryTheirTenant | apps/api/src/iguanatrader/persistence/tenant_listener.py:209-243 | Over all runs every stored row of a guarded class carries the tenant bound at its insert; NULL only in audit_log |
| TenantIsolation.AnswersIgnoreOtherTenants | apps/api/src/iguanatrader/persistence/tenant_listener.py:135-186 | Non-interference over all runs: removing every guarded insert of other tenants, or of none, leaves all answers to tenant t's queries unchanged |
| TenantIsolation.UnboundAnswersExactly | apps/api/src/iguanatrader/persistence/tenant_listener.py:135-167 | An unbound query's answers are, in every run, those of the run without any tenant's guarded inserts iff it touches no guarded class for which no criterion is added |
| TenantIsolation.MatchingFromView | apps/api/src/iguanatrader/persistence/tenant_listener.py:135-186 | Criteria that hide what the reader must not see select exactly from the reader's own view of the database |
| TenantIsolation.UnboundSeesNoTenantExactly | apps/api/src/iguanatrader/persistence/tenant_listener.py:135-167 | With no tenant bound a query is refused or shows, in every database, only NULL-tenant audit_log rows of the guarded classes iff it touches no guarded class for which no criterion is added |
| AppendOnly.DirtyColumnNames | apps/api/src/iguanatrader/persistence/append_only_listener.py:62-68 | Exactly the mapped columns whose value differs from the loaded snapshot |
| AppendOnly.BlockAppendOnlyMutations | apps/api/src/iguanatrader/persistence/append_only_listener.py:86-117 | No error iff every dirty instance stays in its whitelist and no append-only row is deleted; otherwise the first offender and exactly its offending columns, updates before deletes |
| AppendOnly.ListsPartitionColumns | apps/api/src/iguanatrader/migrations/_trading_whitelist_trigger_helpers.py:45-130 | The trigger's two column lists split the mapped columns of trades, orders and trade_proposals, and the mutable one is the ORM whitelist |
| AppendOnly.EmittedComparison | apps/api/src/iguanatrader/migrations/_trading_whitelist_trigger_helpers.py:157-163 | The NULL-safe comparison of all frozen columns amounts to comparing the offending dirty ones |
| AppendOnly.ListenerImpliesTrigger | apps/api/src/iguanatrader/migrations/_trading_whitelist_trigger_helpers.py:150-167 | Every UPDATE the listener lets through passes the trigger, whatever the row holds by then |
| AppendOnly.LayersAgreeExactly | apps/api/src/iguanatrader/persistence/append_only_listener.py:91-109 | Listener and trigger agree iff no column is offending or the stored row differs from the instance on an offending column |
| AppendOnly.FreshSnapshotAgrees | apps/api/src/iguanatrader/persistence/append_only_listener.py:62-109 | They always agree when the loaded snapshot is the stored row |
| AppendOnly.StaleSnapshotDiffers | apps/api/src/iguanatrader/persistence/append_only_listener.py:62-109 | A stale snapshot on which they differ |
| AppendOnly.FactLayersDifferExactly | apps/api/src/iguanatrader/migrations/_research_trigger_helpers.py:82-96 | research_facts: on any stored row the layers differ exactly when the instance closes recorded_to where the row has none and its other dirty listed columns are in the row already |
| Ledger.LedgerIsImmutable | apps/api/src/iguanatrader/migrations/_trading_whitelist_trigger_helpers.py:150-187 | From any state and over all runs of ORM and raw statements, INSERT OR REPLACE, multi-row UPDATE OR REPLACE and statements that fail part-way among them, no row disappears or changes a frozen column iff no INSERT OR REPLACE hits one with other frozen values and no accepted UPDATE OR REPLACE evicts one |
| Ledger.RowStaysExactly | apps/api/src/iguanatrader/migrations/_trading_whitelist_trigger_helpers.py:150-187 | The same for one row and the states of the run it goes through |
| Ledger.UpdatedKeepsExactly | apps/api/src/iguanatrader/migrations/_trading_whitelist_trigger_helpers.py:157-167 | One multi-row UPDATE, stopped by RAISE(FAIL) at its first refused row or not, keeps a row with its frozen columns iff no accepted change of it evicts the row |
| Ledger.LockedRowNeverChanges | apps/api/src/iguanatrader/migrations/_trading_trigger_helpers.py:28-52 | A row of a fully locked table is the same, cell by cell, in every later state, unless an INSERT OR REPLACE hits it |
| Ledger.ReplaceOverwritesFill | apps/api/src/iguanatrader/persistence/session.py:43-47 | The input: recursive_triggers is never turned on, so INSERT OR REPLACE changes the quantity of a fill |
| Ledger.UpdateOrReplaceErasesOrder | apps/api/src/iguanatrader/migrations/versions/0004_trading_tables.py:296-301 | The input for UPDATE OR REPLACE: an order that is given the broker order id of another one erases it, past both triggers |
| Ledger.UpdateOrReplaceErasesFact | apps/api/src/iguanatrader/migrations/versions/0008_research_dedupe_index.py:48-58 | The same for facts: any open fact, closed under the dedupe key of another, erases the other |
| Ledger.FactUpdatedAtMostOnce | apps/api/src/iguanatrader/migrations/_research_trigger_helpers.py:82-96 | In every run in which no OR REPLACE reopens or removes it once closed, a research fact accepts at most one UPDATE, and only by getting a recorded_to |
| Ledger.ClosedStaysExactly | apps/api/src/iguanatrader/migrations/_research_trigger_helpers.py:82-106 | A closed fact stays closed under a statement iff the statement is no OR REPLACE that reopens or removes it |
| Ledger.ReplacedFactIsUpdatedTwice | apps/api/src/iguanatrader/migrations/_research_trigger_helpers.py:82-96 | The input: closed, replaced by its open version and closed again, a fact accepts two UPDATEs |
| Ledger.SupersessionChangesPastExactly | apps/api/src/iguanatrader/contexts/research/repository.py:135-185 | An accepted supersession changes the as-of answer at an instant iff it closes a fact visible there at that instant or before |
| Ledger.InsertChangesPastExactly | apps/api/src/iguanatrader/contexts/research/repository.py:191-262 | An accepted insert changes the as-of answer at an instant iff the new row is itself visible there |
| Ledger.BackdatedInsertChangesPast | apps/api/src/iguanatrader/contexts/research/sources/fred.py:103-140 | The input: a row stamped with a publication date changes what was known after that date |
| Ledger.PastIsStableExactly | apps/api/src/iguanatrader/contexts/research/repository.py:135-292 | The as-of answer for an instant is the same all along a run iff no statement inserts a fact visible there, closes one at or before it, or replaces or evicts one visible there |
| Ledger.PastIsStable | apps/api/src/iguanatrader/contexts/research/repository.py:191-292 | If no later statement records or closes a fact as of an instant or before, its as-of answer never changes, nor do the listed columns of the facts |
| Ledger.StampingLeavesPast | apps/api/src/iguanatrader/contexts/research/repository.py:191-292 | Writers that stamp the current clock meet that condition for every earlier instant |
| SessionRotation.Exchange.GetCurrentUser | apps/api/src/iguanatrader/api/deps.py:354-435 | Outcome in the source's order of checks; accepted only before the token's expiry and the ceiling; a cookie is set only on acceptance, lives at least a second and ends seven days after login |
| SessionRotation.Exchange.Login | apps/api/src/iguanatrader/api/routes/auth.py:198-229 | The browser that stores the answer holds the session of a fresh login: alive from now on with a cookie up to the ceiling |
| SessionRotation.RotationKeepsDeadline | apps/api/src/iguanatrader/api/deps.py:411-432 | A rotated cookie has Max-Age at least 1 and ends exactly seven days after login; the login time is copied and the token is not yet expired |
| SessionRotation.LoginTimeIsKept | apps/api/src/iguanatrader/api/deps.py:414-423 | Along every chain of requests login_at is constant and the cookie never lapses before the ceiling |
| SessionRotation.CeilingIsHard | apps/api/src/iguanatrader/api/deps.py:367-369 | No request is accepted at or after login + 7 days, however often the token was rotated |
| SessionRotation.RequestKeepsAlive | apps/api/src/iguanatrader/api/auth.py:161-168 | An accepted request leaves a token good for at least the rotation threshold |
| SessionRotation.ChainStaysAlive | apps/api/src/iguanatrader/api/deps.py:362-432 | With gaps of at most 1799 s every request before the ceiling is accepted |
| SessionRotation.KeepAliveExactly | apps/api/src/iguanatrader/api/auth.py:53-168 | That guarantee holds for a gap bound iff it is at most 1799 s |
| SessionRotation.HalfHourExpires | apps/api/src/iguanatrader/api/auth.py:161-168 | Requests exactly 30 minutes apart are never rotated and the session expires: the boundary is strict |
| BankersRounding.QuantizeIsTiesToEven | apps/api/src/iguanatrader/shared/decimal_utils.py:59-72 | quantize(a, p) is r iff p >= 0 and r is the nearest multiple of 10^-p, the even one of two, within 28 digits; ValidationError iff p < 0, InvalidOperation iff the digits do not fit (exponents within the context's range) |
| BankersRounding.RoundingIsMonotone | apps/api/src/iguanatrader/shared/decimal_utils.py:71-72 | Rounding keeps order |
| BankersRounding.RoundingIsOdd | apps/api/src/iguanatrader/shared/decimal_utils.py:71-72 | Rounding a negated amount negates the rounded amount |
| BankersRounding.FixedPoints | apps/api/src/iguanatrader/shared/decimal_utils.py:71-72 | An amount is unchanged iff it is a whole number of minor units; results always are |
| BankersRounding.RoundThenFiner | apps/api/src/iguanatrader/shared/decimal_utils.py:71-72 | Idempotent, and kept by every later rounding to more places |
| BankersRounding.HalfUnit | apps/api/src/iguanatrader/shared/decimal_utils.py:71-72 | The error is at most half a minor unit |
| BankersRounding.SumOfRounded | apps/api/src/iguanatrader/shared/decimal_utils.py:5-7 | Rounding n amounts first moves their sum by at most n/2 minor units |
| MoneyAmounts.ConstructionIsExact | apps/api/src/iguanatrader/shared/types.py:45-68 | Construction succeeds iff the code is known in some case, keeps the amount and stores the capitals |
| MoneyAmounts.QuantizeReachesMinorUnit | apps/api/src/iguanatrader/shared/types.py:102-105 | Quantizing a constructed amount fails only beyond 28 digits; else it reaches the minor unit within half of it, and is the identity iff already there |
| MoneyAmounts.NeverMixesCurrencies | apps/api/src/iguanatrader/shared/types.py:70-87 | Every expression of additions, subtractions and negations evaluates, to its exact value, iff all its amounts share one currency; else the mismatch error |
| MoneyAmounts.ClosedAtMinorUnit | apps/api/src/iguanatrader/shared/types.py:74-105 | Such expressions over minor-unit amounts stay at the minor unit and quantize is the identity on the result iff its digits fit |
| Portfolio.HeldBusinessDays | apps/api/src/iguanatrader/api/routes/portfolio.py:127-138 | The full-weeks-plus-leftover loop returns the number of Monday-to-Friday dates in the inclusive range, for every pair of dates |
| Portfolio.WeekAddsFive | apps/api/src/iguanatrader/api/routes/portfolio.py:132-133 | Any seven more days are exactly five more business days |
| Portfolio.AdjacentRangesAdd | apps/api/src/iguanatrader/api/routes/portfolio.py:127-138 | Counts of adjacent ranges add up; the count grows with the end date by at most a day per day |
| Portfolio.ComputeAvgEntryPrice | apps/api/src/iguanatrader/api/routes/portfolio.py:88-100 | The accumulation loop returns total cost over total quantity, none without fills or with a zero total |
| Portfolio.AverageIsAmongPrices | apps/api/src/iguanatrader/api/routes/portfolio.py:93-100 | With positive quantities there is an average iff there is a fill, and it lies between any bounds of the fill prices |
| Portfolio.AverageIgnoresOrderAndSplits | apps/api/src/iguanatrader/api/routes/portfolio.py:93-100 | Reordering the fills and splitting one at its price leave the average unchanged |
| Portfolio.PnlIsSumOfFills | apps/api/src/iguanatrader/api/routes/portfolio.py:153-157 | Unrealized P&L is the sum of the per-fill P&L iff the trade quantity is the filled total or the price is at the average |
| Portfolio.ShortMirrorsLong | apps/api/src/iguanatrader/api/routes/portfolio.py:157 | A short gains exactly what the same long loses |
| Heartbeat.HeartbeatMixin.MarkDisconnected | apps/api/src/iguanatrader/shared/heartbeat.py:87-96 | The hook count grows by one iff the state was not DISCONNECTED; state and count follow the call sequence |
| Heartbeat.HeartbeatMixin.MarkConnected | apps/api/src/iguanatrader/shared/heartbeat.py:79-81 | Sets CONNECTED; state and hook count follow the call sequence |
| Heartbeat.HeartbeatMixin.MarkReconnecting | apps/api/src/iguanatrader/shared/heartbeat.py:83-85 | Sets RECONNECTING; state and hook count follow the call sequence |
| Heartbeat.HeartbeatMixin.ReconnectLoop | apps/api/src/iguanatrader/shared/heartbeat.py:117-128 | With any calls of others between its awaits: its own calls are Reconnecting first and Connected last (or none when cancelled), it sleeps the jittered schedule once per failure, and by itself never fires the hook |
| Heartbeat.HookPerDrop | apps/api/src/iguanatrader/shared/heartbeat.py:93-96 | In any call sequence the hook fires exactly once per step from another state into DISCONNECTED |
| Heartbeat.DocumentedCountExactly | apps/api/src/iguanatrader/shared/heartbeat.py:10-14 | The documented count (drops from CONNECTED) is right iff mark_disconnected is never called while reconnecting |
| Heartbeat.GivingUpFiresHook | apps/api/src/iguanatrader/shared/heartbeat.py:93-96 | The input: reconnecting and then giving up, after any calls, fires the hook with no drop from CONNECTED |
| Heartbeat.DuplicateReportsAreHarmless | apps/api/src/iguanatrader/shared/heartbeat.py:90-94 | A disconnect reported twice has the effect of one, whatever follows |
| Heartbeat.BudgetStep | apps/api/src/iguanatrader/shared/backoff.py:21-47 | The schedule's closed form 3*(2^min(n,5)-1)+48*max(0,n-5) grows by the n-th delay |
| Heartbeat.JitterStaysClose | apps/api/src/iguanatrader/shared/backoff.py:37-47 | A jittered delay is within a fifth of the schedule; ValueError iff the attempt is negative |
| Heartbeat.SleepsStayInBudget | apps/api/src/iguanatrader/shared/backoff.py:37-47 | n failures sleep between 0.8 and 1.2 times the closed form |
| SseReconnect.UseSSE.Connect | apps/web/src/lib/composables/useSSE.ts:83-88 | Opens one source unless closed |
| SseReconnect.UseSSE.OnOpen | apps/web/src/lib/composables/useSSE.ts:90-94 | Does the open step and keeps at most one source or timer, never both |
| SseReconnect.UseSSE.OnError | apps/web/src/lib/composables/useSSE.ts:100-118 | Closes the source and schedules the next delay, or gives up after five; keeps the same |
| SseReconnect.UseSSE.OnTimer | apps/web/src/lib/composables/useSSE.ts:117 | The timer reconnects; keeps the same |
| SseReconnect.UseSSE.Close | apps/web/src/lib/composables/useSSE.ts:121-131 | No source and no timer is left anywhere; idempotent step |
| SseReconnect.RunKeepsInvariant | apps/web/src/lib/composables/useSSE.ts:83-131 | Invariant over all event sequences: attempts, delays waited and retries since the last open go together |
| SseReconnect.EffortIsBounded | apps/web/src/lib/composables/useSSE.ts:109-117 | Without an open: at most six connections from the start, five after the last open, 93 s of delay |
| SseReconnect.NeverBoth | apps/web/src/lib/composables/useSSE.ts:104-117 | A source is never live while a reconnect is scheduled |
| SseReconnect.IdleExactly | apps/web/src/lib/composables/useSSE.ts:107-131 | Nothing is left to do iff close was called or the fifth reconnect since the last open failed |
| SseReconnect.IdleForGood | apps/web/src/lib/composables/useSSE.ts:107-131 | Once idle no connection is ever made again and no callback is enabled |
| RecentSymbols.RecentIsLatestDistinct | apps/web/src/lib/research/recent.ts:68-79 | After any history from an empty list the result is the first max of the valid symbols, each once, latest use first |
| RecentSymbols.MostRecentFirstIsUnique | apps/web/src/lib/research/recent.ts:60-67 | There is only one list of the used symbols ordered by last use |
| RecentSymbols.CutThenRemove | apps/web/src/lib/research/recent.ts:75-78 | Cutting before the dedupe loses at most the place the dedupe frees |
| Citations.TokenizeKeepsText | apps/web/src/lib/research/render-brief-body.ts:59 | Splitting a text into markers and characters loses and invents nothing |
| Citations.EveryMarkerIsFound | apps/web/src/lib/research/render-brief-body.ts:59 | Markers cannot overlap, so the left-to-right replacement finds every one |
| Citations.NumberMarker | apps/web/src/lib/research/render-brief-body.ts:209-219 | One callback: known identifier keeps its number, a new one gets the next; entry list and number map stay inverse |
| Citations.RenderBriefBody | apps/web/src/lib/research/render-brief-body.ts:202-222 | The pass over the text equals rendering every token by itself under one fixed numbering, with one item per cited fact |
| Citations.NumberIsStable | apps/web/src/lib/research/render-brief-body.ts:211-217 | A number once given is kept when more of the text is read |
| CitationTheorems.NumberIsRank | apps/web/src/lib/research/render-brief-body.ts:207-219 | A marker's number is one more than the count of different lower-cased identifiers before its first appearance |
| CitationTheorems.LinksMatchItems | apps/web/src/lib/research/render-brief-body.ts:133-167 | Items are numbered 1..n, one per fact; every link has the item of its fact and every item a link |
| CitationTheorems.TextIsKept | apps/web/src/lib/research/render-brief-body.ts:209-219 | Writing links back as markers gives the text again up to letter case |
| CitationTheorems.AnchorsUniqueExactly | apps/web/src/lib/research/render-brief-body.ts:141-143 | The cite-back anchors are unique iff no fact is cited twice |
| CitationTheorems.BrokenAgreesExactly | apps/web/src/lib/research/render-brief-body.ts:212-216 | Links and items agree about what is unresolved in every text iff every capital-letter key of the fact map also has its lower-case form |

## Left out

- Tasks spawned inside a unit of work, which copy the bound outbox: one coroutine per unit is assumed.
- asyncio, SQLAlchemy, PyJWT and Argon2 internals: a session is pending writes with commit and rollback, a queue an unbounded sequence, a token an unforgeable record whose `iat` is not checked.
- Durability across a process crash: the outbox is in memory.
- MessageBus.MessageBus.Unsubscribe: does not wait for the cancelled worker to end; in the transition system that end is a later step, and a handler that swallows the cancellation goes on.
- MessageBus.MessageBus.Close: does not wait for the cancelled workers either, for the same reason.
- DeliveryDuplicates.DuplicateBreaksExactly: the breaking run may roll back or interrupt open units and unsubscribe; fairness is not modelled.
- DeliveryTheorems.DrainsDespiteFailures: says the draining run exists, not that the event loop schedules it; fairness is not modelled.
- Tenant isolation for raw text SQL, ORM bulk UPDATE and DELETE, and later changes of a row: the listener does not cover them. Joins to classes that are not selected are covered under a bound tenant only.
- TenantIsolation.UnboundAnswersIgnoreTenants: requires covered queries, which UnboundAnswersExactly shows to be the right ones.
- The Postgres trigger branch with its text comparison of JSON, and rollback of a whole transaction in ledger runs.
- Columns of research_facts outside the trigger's list (`dedupe_key`): the trigger does not protect them.
- Ledger.LedgerIsImmutable: counts every statement as it acts on the triggers alone. Foreign keys (all RESTRICT on these tables), unique keys without OR REPLACE, CHECK and NOT NULL refuse some of them, an INSERT OR REPLACE over a trade with orders or an order with fills for one; those change nothing, so the runs that break immutability are fewer than the condition allows.
- Changes of the schema itself: dropping a trigger or a table, or PRAGMA writable_schema.
- Ledger.PastIsStable: the set of universe rows of a symbol is fixed, and `recorded_to` itself, which an API response shows, does change on supersession.
- Ledger.SupersessionChangesPastExactly: covers the as-of predicate, not the ordering or limit of the query around it.
- BankersRounding.QuantizeIsTiesToEven: leaves out the context's exponent range, beyond which quantize raises too (places past about a million).
- SessionRotation.KeepAliveExactly: requests go in turn, each after the answer before it; overlapping ones, which still carry the older cookie, are not chains.
- Decimal's 28-digit rounding of sums and products, negative zero and the exponent of a result: amounts are exact reals and equal values are one amount.
- The TypeErrors of `Money` for floats and other operand types, and multiplication, which need not stay at the minor unit.
- JavaScript and Python case mapping outside ASCII.
- Floating point in the backoff: seconds are exact.
- useSSE outside a browser (a handle that does nothing), message callbacks and connection-store aggregation.
- Local storage and JSON parsing of the recent list; histories start from an empty list.
- The wording and escaping of tooltips and items, markdown and sanitising: links and items are tokens.
- FastAPI routing, DTOs, CLI, password ageing, the OpenBB sidecar, Svelte stores, and everything else under `contexts/`.
