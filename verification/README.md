# A Dafny model of the Stacks Capital decision code

Stacks Capital is a non-custodial Bitcoin finance platform. This project models the code that decides
what the platform believes about the chain, what a wallet is asked to sign, and what a user's money is
said to be worth, and proves what that code promises. `dafny verify dfyconfig.toml` checks all of it.

## What is modelled

**The chain.** A worker walks a checkpoint along a remote chain that may change between any two provider
calls (`Ingest`). It writes blocks, events and activities to tables that only ever gain rows and lose
canonical flags (`Evidence`). The remote is a sequence of views, one for each provider call, so nothing
is assumed to stay put during a tick. `Lineage` holds what one tick or log keeps and `Runs` the safety
results over whole runs, `Convergence` what happens once the remote stands still, `Ingestion` the pure form of
the same steps and `Refinement` how the tables relate to it. `Confirmations` and `Workflows` are the decision on a
submitted transaction and the state machine it moves, `Liveness` what both come to once the remote stands still.

The provider is assumed to answer a request for height h with a block of height h, and a hash is assumed
to fix its block's height and parent; for agreement with the remote this makes a hash fix its ancestry.

**The client cache.** `ClientCache` treats load, resolve, reject, clean-up, set, invalidate and a scope
switch as steps in any interleaving, and `CacheHistory` tells every entry from what happened to its key;
`ScopeKeys` says which keys belong to a scope. Listeners and loaders do not call back into the cache.

**Quotes and plans.** `Plans`, `AssetIds`, `Decimal`, `Units` and `Wire` are the data and its text forms.
`Matching`, `Signing` and `Validation` are the gate before a wallet opens: a greedy matcher that splices
amounts out of a list, and the reasons it reports. `Approval` says what a plan may do for its quote, step by step
and without the matcher; an empty verdict means that. `Steps` says in which orders a plan can be carried out.

**Money.** `Risk` and `RiskReport` are loan health and stress, `Concentration` the spread over markets, `Quorum` the
price several sources agree on, `Holdings`, `Accounting` and `Ledger` the portfolio totals, `Figures` what each of
their figures is, entry by entry, `Performance` share conversion and yield.

**The rest.** `Registry` is the canonical text a registry signature covers (section 7 of RFC 8259 for its
strings) and the activation of releases, `JsonText` a reader of JSON by that grammar, which reads every canonical
text back; `RateLimit` the fixed-window limiter. `Arith`, `Lists`, `Rounding`,
`Sorting`, `Text` and `Wrappers` are shared vocabulary.

## Where the code and its documentation part ways

The model follows the code. These are the places where a promise needs a condition, each stated as an
if-and-only-if or shown with a concrete input:

- **A block that comes back.** `recordBlock` inserts with `ON CONFLICT DO NOTHING`. When a reorg is undone
  and the old block is recorded again, its row stays noncanonical while the checkpoint moves onto it. The
  chain under the checkpoint is whole exactly when no block was recorded that was stored as an orphan
  (`Lineage.TickWholeIff`, `Runs.RunWhole`); the remote chain a, b, a breaks it (`Convergence.FlipBackBreaks`).
  For the same reason a run of ticks refines the pure steps exactly as long as no orphan is recorded
  (`Refinement.TicksRefineIff`).
- **A log ahead of the checkpoint.** `ingestEvents` stores a log's block as canonical, also above the checkpoint.
  When the remote then settles on another block at that height, the unique index makes `recordBlock` throw on
  every later tick, and the checkpoint never moves again (`Convergence.LogAheadBlocks`). The tip is reached
  exactly when every height up to it holds the remote's block or no canonical one (`Convergence.ArrivesIff`).
- **A log of an orphaned block.** A new event is stored as canonical even when the block row it refers to is
  an orphan, and no later rewind ever clears it (`Runs.RunEvidenceIff`).
- **What a rewind flags.** `applyReorg` flags every event and activity of a block above the ancestor, `markReorg`
  those of the blocks it orphans. The two differ exactly on evidence that was already canonical in an orphaned
  block above the ancestor (`Refinement.RewindRefinesIff`, `Refinement.WorkerRowsMoveIff`).
- **Cache keys.** Nothing in a key is escaped. A tenant named like a network can share a prefix with an address
  named like one (`ScopeKeys.PrefixOwnsKeysIff`), and every request with two or more parameters shares its key with
  one that has a single longer value (`ScopeKeys.KeyIsUniqueIff`).
- **Keys that tie.** `localeCompare` may call two different keys of an object equal; then the canonical text depends
  on the order they were written in, and only then (`Registry.OneTextIff`).
- **Deposits and sends.** A deposit takes the first native bitcoin input of its quantity. Greedy matching finds
  an assignment whenever there is one exactly when native bitcoin inputs of equal quantity are of one asset
  (`Matching.GreedyExactIff`); otherwise some plan that does what its quote says is turned down
  (`Validation.VerdictExactIff`).
- **A loader that throws before it returns a promise** leaves its entry loading with nothing under way
  (`ClientCache.StepKeepsLoadingIff`).
- **Liquidation.** The report's text speaks of a health factor below 1.0; the code calls a position liquidatable
  from the threshold on, where the factor is still at least 1.0 (`RiskReport.LiquidatableAtOneIff`).
- **The sentinels.** A loan-to-value of 100000 stands for worthless collateral. `maxBorrow` is exact, and stress is
  monotone, exactly when that sentinel does not sit on the wrong side of the limit
  (`Risk.MaxBorrowExactIff`, `RiskReport.StressMonotoneIff`).
- **Prices with more than eight decimals** can round to zero, and then no disagreement is seen
  (`Quorum.RoundedToZeroAgrees`).
- **A stale reading of a second source.** Stale readings give no price but still count as sources. One source's
  prices are never disputed; the same prices are, once a stale reading names another source. A reading without a
  usable price changes more than the list of sources exactly when it names the second one
  (`Quorum.UnusableIgnoredIff`, `Quorum.StaleSourceDisputes`).
- **Two minuses.** `parseUnits` takes one sign off and reads the rest as an integer, which may bring a minus of its
  own: `--5` is five (`Units.EnteredReads`, `Units.AcceptedIsEntered`).
- **Receipts.** What keeps an entry out of the totals is `countsTowardTotal`, not `isReceipt`
  (`Ledger.SkippedIff`). One unknown quantity hides an asset from the gross total though a category still shows
  its part (`Ledger.AssetWithinIff`, `Ledger.UnknownHidesAsset`).
- **Dependencies.** The validator does not look for cycles; a plan can be carried out exactly when it has none
  (`Steps.CompleteRunIffAcyclic`).

## Model

| member | source | states |
|---|---|---|
| Evidence.EvidenceStore.FindCanonicalBlock | packages/database/src/ingestion.ts:92-102 | answers with a canonical block of that height, and with nothing only when there is none |
| Evidence.EvidenceStore.InsertBlock | packages/database/src/ingestion.ts:133-141 | a stored hash is left alone; a second canonical block at a height is refused |
| Evidence.EvidenceStore.RecordBlock | packages/database/src/ingestion.ts:158-188 | block and checkpoint change together or not at all |
| Evidence.EvidenceStore.MarkReorg | packages/database/src/ingestion.ts:191-229 | exactly the canonical blocks above the ancestor, their events and their activities lose the flag, and the checkpoint moves to the ancestor; an unknown ancestor changes nothing |
| Evidence.EvidenceStore.StoreLog | apps/worker/src/ingest.ts:142-201 | block, then event, then activity, each kept when already there; the checkpoint stays |
| Ingest.FindCommonAncestor | apps/worker/src/ingest.ts:48-57 | the loop over heights finds what the search over views specifies, and throws when it finds nothing |
| Ingest.RecordNext | apps/worker/src/ingest.ts:101-107 | one block of that loop: recorded, left when it does not continue the chain, or thrown on by provider or store |
| Ingest.WalkForward | apps/worker/src/ingest.ts:97-107 | the forward loop records exactly the walk, with one provider call per height |
| Ingest.RewindToAncestor | apps/worker/src/ingest.ts:80-95 | the branch that meets another block at the checkpoint: search, then rewind, call by call the rewind the results below speak of; what it reports is what it leaves (`Ingest.TickReports`) |
| Ingest.IngestBlocks | apps/worker/src/ingest.ts:59-115 | one tick over store and provider, call by call, is the tick the results below speak of, on every path including the throwing ones; what it reports is `Ingest.TickReports` |
| Ingest.TickReports | apps/worker/src/ingest.ts:59-115 | a tick that does not throw reports the checkpoint it leaves in the tables, the height of the tip it was shown, as many blocks as it recorded, and for a rewind how many blocks, events and activities lost their flag |
| Ingest.WalkFailsIff | apps/worker/src/ingest.ts:97-107 | the forward loop ends for want of an answer exactly when its last call got none; it makes one call for each height |
| Ingest.SearchAnswers | apps/worker/src/ingest.ts:48-57 | the search throws for want of an answer only when its last call got none, finds a block only when the remote shows it at its height, and finds nothing only when the remote shows another block at every stored height it reaches |
| Lineage.TickKeeps | apps/worker/src/ingest.ts:59-115 | whatever each provider call answers, a tick keeps one canonical block per height, rows with their headers and valid references, and only adds rows or clears flags |
| Lineage.TickKeepsEvidence | apps/worker/src/ingest.ts:59-115 | no canonical event or activity is left in an orphaned block |
| Lineage.TickTracks | apps/worker/src/ingest.ts:59-115 | every canonical block is the checkpoint or an ancestor of it at its own height |
| Lineage.TickWholeIff | apps/worker/src/ingest.ts:79-107 | a whole chain under the checkpoint stays whole exactly when the tick recorded no block stored as an orphan |
| Lineage.FirstTickWholeIff | apps/worker/src/ingest.ts:74-77 | the first tick starts a whole chain exactly when its block was not an orphan |
| Lineage.RecordWholeIff | packages/database/src/ingestion.ts:158-188 | the same for one recorded block |
| Lineage.RewindWhole | packages/database/src/ingestion.ts:191-229 | a rewind to a canonical block keeps the chain whole |
| Lineage.LogKeeps | apps/worker/src/ingest.ts:142-201 | a stored log keeps the tables sound and only adds rows |
| Lineage.LogReads | apps/worker/src/ingest.ts:142-201 | nothing for a known event; a refused block throws; otherwise the block and a canonical event are stored, and a canonical activity unless one of the event and kind is there already |
| Lineage.LogWhole | apps/worker/src/ingest.ts:142-150 | a block stored for a log never changes the chain between base and checkpoint |
| Lineage.LogEvidenceIff | apps/worker/src/ingest.ts:142-201 | canonical evidence stays in canonical blocks exactly when the log's event is known already or its block is not an orphan |
| Runs.RunKeeps | apps/worker/src/tick.ts:52-62 | over every run of ticks and logs: sound tables, nothing removed, no flag set again |
| Runs.TicksTrack | apps/worker/src/ingest.ts:59-115 | over every run of ticks each canonical block is an ancestor of the checkpoint |
| Runs.RunWhole | apps/worker/src/tick.ts:52-62 | after every step of a run of ticks and logs, every ancestor of the checkpoint from the run's own base up is stored and canonical, exactly when no tick recorded an orphan |
| Runs.BaseAtMost | apps/worker/src/ingest.ts:74-95 | the base of a run is at most the height of every checkpoint it ever had, the first block ingested included |
| Runs.BaseIsReached | apps/worker/src/ingest.ts:74-95 | and it is the height of one of them, or the base before the run |
| Runs.TicksExact | apps/worker/src/ingest.ts:59-115 | after ticks alone, none of which recorded an orphan, the canonical blocks are exactly the chain from the base to the checkpoint |
| Runs.RunEvidenceIff | apps/worker/src/tick.ts:52-62 | after a run every canonical event and activity sits in a canonical block, exactly when none before it was misplaced and no log brought a new event of an orphan |
| Lineage.WholeIsLinked | packages/database/migrations/0004_chain_evidence.sql:3-16 | in a whole chain each height has exactly one canonical block, the parent of the next |
| Convergence.SearchExact | apps/worker/src/ingest.ts:48-57 | against a fixed remote the search returns the highest shared block of its window, and fails exactly when there is none |
| Convergence.RewindAgrees | apps/worker/src/ingest.ts:79-95 | after a rewind to a shared block every canonical block of a whole chain is the remote's own |
| Convergence.RewindAgreesTracked | apps/worker/src/ingest.ts:79-95 | the same for any run of ticks, whole or not |
| Convergence.NextAcceptedIff | packages/database/src/ingestion.ts:158-188 | the remote's next block is stored exactly when it is stored already or its height has no canonical block; anything else throws |
| Convergence.TickAdvances | apps/worker/src/ingest.ts:97-107 | from agreement a tick moves the checkpoint up by maxBlocks, to the tip, or to just below the first height another block holds, and throws exactly in the last case |
| Convergence.TickBlocked | apps/worker/src/ingest.ts:97-107 | with the next height held by another block a tick throws and changes nothing |
| Convergence.TickRewinds | apps/worker/src/ingest.ts:80-95 | from disagreement a tick rewinds to the highest shared block below the checkpoint |
| Convergence.TickFindsNothing | apps/worker/src/ingest.ts:48-57 | without a shared block within reach it throws and changes nothing |
| Convergence.TickProgressesIff | apps/worker/src/ingest.ts:59-115 | away from the tip a tick strictly lowers (disagrees, tip minus checkpoint) exactly when the next height is free, or, in disagreement, a shared block is within reach; any other tick throws and changes nothing |
| Convergence.TicksArriveIff | apps/worker/src/ingest.ts:97-107 | from agreement n ticks reach the tip exactly when n * maxBlocks covers the distance and every height up to the tip holds the remote's block or no canonical one |
| Convergence.RecoversIff | apps/worker/src/ingest.ts:59-115 | from a disagreement with a shared block within reach n ticks reach the tip exactly when n - 1 of them cover the distance from the highest shared block |
| Convergence.ArrivesIff | apps/worker/src/ingest.ts:59-115 | some number of ticks reaches the tip exactly when there is no checkpoint and the tip's height is free, or the checkpoint agrees and every height above it is free, or disagrees with a shared block within reach |
| Convergence.LogAheadBlocks | apps/worker/src/ingest.ts:142-150 | a log stored ahead of the checkpoint, for a block that is then replaced, makes every later tick throw on the taken height |
| Convergence.FlipBackBreaks | packages/database/src/ingestion.ts:164-185 | the remote chain a, b, a leaves the checkpoint on a block still stored as an orphan |
| Ingestion.ApplyBlockKeeps | packages/core/src/ingestion.ts:116-131 | a block that continues the checkpoint keeps one linked chain with the checkpoint at its head and canonical evidence in canonical blocks; any other throws |
| Ingestion.ApplyBlockAppends | packages/core/src/ingestion.ts:116-131 | an applied block and its events are added as canonical; nothing else changes but the checkpoint |
| Ingestion.ApplyReorgKeepsIff | packages/core/src/ingestion.ts:133-157 | a consistent state stays consistent exactly when the named ancestor is canonical; an unknown ancestor throws |
| Ingestion.StepFlags | packages/core/src/ingestion.ts:116-157 | no block, event or activity is ever removed; only flags change |
| Ingestion.RunConsistent | packages/core/src/ingestion.ts:116-157 | the invariant over every run of steps |
| Refinement.RecordRefinesIff | packages/core/src/ingestion.ts:116-131 | recording a continuing block is applyBlock, for blocks, events, activities and checkpoint, exactly when it is not stored as an orphan; a block a log stored earlier is no difference |
| Refinement.RewindRefinesIff | packages/core/src/ingestion.ts:133-157 | markReorg is applyReorg on all four exactly when no canonical event sits in an orphaned block above the ancestor and every canonical activity's event is above it exactly when the activity's own block is orphaned |
| Refinement.WorkerRowsMoveIff | apps/worker/src/ingest.ts:183-189 | with each activity in its event's block, as the worker stores it, event and activity are flagged together exactly when no canonical activity sits in an orphaned block above the ancestor |
| Refinement.TickRefinesIff | apps/worker/src/ingest.ts:59-115 | a tick refines its pure steps, which never throw, exactly when it recorded no orphan and its rewind met nothing that the two sides flag differently |
| Refinement.LogRefines | apps/worker/src/ingest.ts:142-201 | storing a log is what it does on the pure state: its block unless stored, its event, and the activity under the event's id |
| Refinement.RunRefinesIff | apps/worker/src/tick.ts:52-62 | every prefix of a run of ticks and logs refines its pure side exactly when no tick records an orphan and every rewind is clean |
| Refinement.CleanRunsRefine | apps/worker/src/tick.ts:52-62 | and that is so when no orphan is recorded and no log brings an event of one |
| Refinement.TicksRefineIff | apps/worker/src/ingest.ts:59-115 | for ticks alone, from the start, exactly when no orphan is recorded |
| Confirmations.ApplyConfirmation | apps/worker/src/confirmations.ts:134-173 | the loop walks the decided states one move at a time, stopping at the first that throws |
| Confirmations.DecisionApplies | apps/worker/src/confirmations.ts:77-173 | applying a decision never throws and records exactly its states as one trail of allowed moves, each on the given evidence and by the worker, or by ingestion for a reorg, and ends in what the user is asked for that state |
| Confirmations.DecidesExactly | apps/worker/src/confirmations.ts:47-128 | for every input: failed exactly for the two reverted statuses, action required exactly for the five dropped ones, reorged exactly for a success out of a canonical block, confirmed exactly for one in a canonical block strictly below the checkpoint, a signature asked for exactly when that was not the final step, and nothing else or in another order |
| Workflows.EdgesIff | packages/core/src/workflow.ts:89-107 | which moves exist, told by the state moved into |
| Workflows.ActionsIff | packages/core/src/workflow.ts:109-139 | what the user is asked for, told by the request: to sign, to wait, to retry an outage, to reclaim, and so on, each in exactly these states |
| Confirmations.TrailTells | packages/core/src/workflow.ts:89-107 | in an unbroken trail nothing leaves an ended workflow, only reconciling completes one, only a reorg reopens a completed one, and a step is confirmed only from a block or a reconciliation |
| Confirmations.CompletableIff | packages/core/src/workflow.ts:89-107 | a workflow can still be completed exactly when it has not expired, failed or been rejected |
| Confirmations.TwoTicksAreOne | apps/worker/src/confirmations.ts:77-128 | the same evidence over two ticks or in one gives the same sequence of states |
| Confirmations.ConfirmedIffBuried | apps/worker/src/confirmations.ts:217-235 | against a whole chain a step is confirmed exactly when its block is a canonical ancestor strictly below the checkpoint |
| Confirmations.ReplacedIsReorged | apps/worker/src/confirmations.ts:108-110 | a transaction is reported reorged exactly when the chain holds another block at its height |
| Confirmations.UnstoredTrusts | apps/worker/src/confirmations.ts:219-227 | without a stored block or a reported hash, only the checkpoint height decides |
| Confirmations.BuriedExactIff | apps/worker/src/confirmations.ts:217-235 | at a height below the checkpoint confirmed means buried, for every hash that could be reported, exactly when the checkpoint's ancestor there is stored as canonical |
| Confirmations.RunConfirms | apps/worker/src/tick.ts:52-90 | after a whole run that recorded no orphan, judged by the height the last tick reports, for every transaction from the run's base up: confirmed exactly when its block is a canonical ancestor strictly below the checkpoint, and reorged exactly when the chain holds another |
| Liveness.ConfirmsIff | apps/worker/src/confirmations.ts:217-235 | once the remote stands still, a waiting step on its chain below the tip is confirmed at the tip exactly when no other canonical block stood at its height |
| Liveness.ForkConfirmsIff | apps/worker/src/confirmations.ts:217-235 | after a fork likewise, and always above the highest shared block |
| Liveness.EveryStepConfirms | apps/worker/src/tick.ts:52-90 | from tables that ticks alone lead to and that can be followed, some number of ticks reaches the tip, and the height the last of them reports confirms every waiting step on the remote chain below it |
| Liveness.ConfirmedIsWritten | apps/worker/src/confirmations.ts:205-261 | such a step is written to its workflow, unless that moved since it was read |
| Confirmations.FlowStore.AdvanceWorkflow | packages/database/src/execution.ts:229-249 | moves are written exactly when the workflow is stored, there are some, and it has not moved since it was read; only its own row changes, and unbroken trails stay unbroken |
| Confirmations.CheckStored | apps/worker/src/confirmations.ts:219-227 | the stored block at that height, if any, decides |
| Confirmations.ExamineRow | apps/worker/src/confirmations.ts:205-261 | one row: which moves are written, and how it is counted |
| Confirmations.RowOutcome | apps/worker/src/confirmations.ts:205-261 | an answered row leaves its decided states as one trail of moves on its transaction, with the state and the request that end it, exactly when something is decided and the workflow is stored and has not moved; nothing else changes |
| Confirmations.AdvanceSubmittedWorkflows | apps/worker/src/confirmations.ts:198-261 | the pass over all rows, each against the workflows the rows before it left, and exact counts |
| Confirmations.PassKeepsTrails | packages/database/src/execution.ts:224-249 | every stored workflow keeps one unbroken trail of allowed moves, also when rows were read before other moves were written |
| ScopeKeys.KeyIgnoresOrder | packages/client/src/cache.ts:47-54 | a key does not depend on the order of its parameters or on undefined ones |
| ScopeKeys.PrefixOwnsKeysIff | packages/client/src/cache.ts:34-54 | with separator-free tenants and addresses, a scope's prefix starts exactly its own keys and those of a scope whose tenant is named like its network while its own address is named like that scope's, or the other way round with a resource that spells its address |
| ScopeKeys.PrefixOwnsScopeIff | packages/client/src/cache.ts:34-45 | the same in terms of the scopes: equal ones, up to the two spellings of no address and of no tenant |
| ScopeKeys.NetworkNamedTenantLeaks | packages/client/src/cache.ts:34-37 | the failing names: a tenant called mainnet and an address spelled mainnet |
| ScopeKeys.KeyIsUniqueIff | packages/client/src/cache.ts:47-54 | a request is the only one with its key exactly when it gives at most one parameter and that value does not spell a further parameter of a later name |
| ScopeKeys.SameKeyIff | packages/client/src/cache.ts:47-54 | of two requests whose values hold no &, the keys are the same exactly when resource and defined parameters are |
| ScopeKeys.UnescapedCollides | packages/client/src/cache.ts:47-54 | a failing input: a value holding & spells the parameters of another request |
| ClientCache.StepKeepsRegistered | packages/client/src/cache.ts:103-148 | keys in flight have entries, and at most one live request is registered for a key |
| ClientCache.StepKeepsLoadingIff | packages/client/src/cache.ts:103-132 | loading keeps meaning a request under way exactly when no loader threw before returning |
| ClientCache.RunKeeps | packages/client/src/cache.ts:103-153 | the invariants in every interleaving |
| CacheHistory.CacheRemembers | packages/client/src/cache.ts:79-148 | over every run of a new cache: an entry is ready with the data and time last stored for its key, in error with the last error and the data from before, loading since the last request was asked for, and gone once dropped; the request in flight and the notifications are what the key's past says |
| CacheHistory.CacheAnswers | packages/client/src/cache.ts:103-130 | after every run a load returns cached data exactly when the last write stored them less than staleMs ago and it is not forced; else it joins the open request, or starts one |
| ClientCache.DroppedIsSilent | packages/client/src/cache.ts:114-128 | a request its key no longer waits for changes no entry, registers nothing and notifies no one |
| ClientCache.LateAnswerIsSilent | packages/client/src/cache.ts:114-148 | no request started before its key was dropped writes that key afterwards, whatever happens in between |
| ClientCache.ChangesNotify | packages/client/src/cache.ts:79-86 | every change to an entry notifies its key |
| ClientCache.KeepScopeExact | packages/client/src/cache.ts:150-153 | after a switch exactly the entries remain that are the scope's own or leak into it, each unchanged |
| ClientCache.SwitchIsFinalIff | packages/client/src/cache.ts:114-153 | no request for any other key brings anything back, whatever happens in between; a request for one of those keys stays registered |
| ClientCache.Cache.StartLoad | packages/client/src/cache.ts:103-132 | the maps change as the load step says: fresh, joined, or registered anew |
| ClientCache.Cache.OnResolve | packages/client/src/cache.ts:115-119 | an answer is stored exactly when its request is the one its key waits for; what entries hold is `CacheHistory.CacheRemembers` |
| ClientCache.Cache.OnReject | packages/client/src/cache.ts:120-125 | an error likewise, keeping the data |
| ClientCache.Cache.OnFinally | packages/client/src/cache.ts:126-128 | clean-up unregisters only its own request |
| ClientCache.Cache.Put | packages/client/src/cache.ts:134-136 | a set writes a ready entry and leaves the requests |
| ClientCache.Cache.DropMatching | packages/client/src/cache.ts:138-148 | the loop drops exactly the matching entries and their requests, and counts them |
| ClientCache.Cache.SwitchTo | packages/client/src/cache.ts:150-153 | a scope switch drops exactly what lies outside the scope |
| Decimal.ParseFormatInteger | packages/core/src/amounts.ts:8-20 | an integer written out reads back as itself |
| Units.ParseFormatUnits | packages/core/src/amounts.ts:75-170 | what is formatted reads back as the amount cut toward zero at the last written place |
| Units.FormatUnitsRoundTrip | packages/core/src/amounts.ts:75-170 | with every decimal written the amount comes back, trimmed or not, for every integer and 0 to 36 decimals |
| Units.BaseUnitsRoundTrip | apps/web/src/swapState.ts:65-98 | base units survive the trip through display text |
| Units.UnitsAgree | apps/web/src/swapState.ts:65-79 | on every text both accept, toBaseUnits and parseUnits read the same amount |
| Units.EnteredReads | packages/core/src/amounts.ts:75-128 | blanks aside, a sign, digits, and possibly a point with digits after it are read as what they say, without digits before the point too; a second minus cancels the first |
| Units.AcceptedIsEntered | packages/core/src/amounts.ts:75-128 | nothing else is accepted |
| Units.ScientificIff | packages/core/src/amounts.ts:86-88 | scientific notation is refused as such, whatever else is wrong |
| Text.TrimPadded | packages/core/src/amounts.ts:81 | blanks around a text are taken off, and nothing else |
| Units.MinusIff | packages/core/src/amounts.ts:136-170 | a minus is written exactly for negative amounts |
| Units.WrittenDecimals | packages/core/src/amounts.ts:155-170 | trimmed, no zero ends the decimals; untrimmed, as many are written as were asked for |
| Units.FormatsAgree | apps/web/src/swapState.ts:85-99 | fromBaseUnits writes what formatUnits writes, trimmed |
| Units.ToBaseAcceptsIff | apps/web/src/swapState.ts:65-79 | toBaseUnits accepts exactly nothing, a lone point, and digits with or without a point and digits after it |
| Units.ToBaseCuts | apps/web/src/swapState.ts:65-79 | decimals beyond the places there are, are cut off |
| AssetIds.ParseFormatIff | packages/core/src/ids.ts:45-73 | an asset's text reads back exactly when its principal holds no separator |
| AssetIds.SameAssetIsEqual | packages/core/src/ids.ts:79-81 | same text means same asset, between separator-free assets |
| AssetIds.ParsedIsColonFree | packages/core/src/ids.ts:52-73 | whatever parses has a separator-free principal |
| AssetIds.SpelledContract | packages/core/src/ids.ts:45-50 | the text of a contract's asset, spelled out |
| AssetIds.SpelledNative | packages/core/src/ids.ts:45-50 | and that of the native ones |
| Wire.AmountRoundTripIff | packages/core/src/amounts.ts:22-34 | an amount survives the wire exactly when its asset is separator-free |
| Wire.AmountThrowsIff | packages/core/src/amounts.ts:26-34 | why an amount is refused: a number, then its asset, then a quantity that is no integer |
| Wire.QuoteRoundTripIff | packages/core/src/wire.ts:130-169 | a quote survives exactly when all its assets are separator-free |
| Wire.QuoteOnWire | packages/core/src/wire.ts:130-148 | the wire form says what the quote says, field by field, amounts as the asset's text and decimal digits, the action by its name |
| Wire.PayloadRoundTripIff | packages/core/src/wire.ts:95-128 | a payload survives exactly when no amount in it, however deep, is a number and its assets are separator-free |
| Wire.CleanIff | packages/core/src/wire.ts:95-128 | what keeps a payload from surviving: a number anywhere in its amounts or arguments, or a principal with a separator |
| Wire.PlanRoundTripIff | packages/core/src/wire.ts:171-206 | a plan survives exactly when every step does |
| Matching.AmountPool.Take | packages/core/src/signing.ts:23-28 | the first covering element and no other is spliced out; false exactly when nothing covers |
| Matching.TakeSend | packages/core/src/signing.ts:19-28 | a send takes exactly its own key out of the bag of amounts |
| Matching.FitsIsPerfect | packages/core/src/signing.ts:96-140 | when every claim is met and nothing is left, sends and deposits match the inputs one to one |
| Matching.FitsIff | packages/core/src/signing.ts:96-140 | with one kind of bitcoin per quantity, greedy matching succeeds exactly when an assignment exists, whatever the order |
| Matching.GreedyExactIff | packages/core/src/signing.ts:103-115 | that condition is exactly what greedy matching needs |
| Signing.DependsOnReasons | packages/core/src/signing.ts:59-72 | exactly the duplicate ids, self dependencies and unknown dependencies are reported |
| Signing.EffectBindingReasons | packages/core/src/signing.ts:74-94 | one reason for each effect foreign to the quote, then one for each quoted output the effects lack, counted as bags |
| Signing.MissingOutputReasons | packages/core/src/signing.ts:87-92 | the second loop reports as many missing outputs as the bag difference holds |
| Signing.EffectsBoundIff | packages/core/src/signing.ts:74-94 | no effect reason exactly when every effect is on the quote and the outputs are a sub-bag of the effects |
| Signing.EffectReasonsIgnoreOrder | packages/core/src/signing.ts:74-94 | the list reported is the same for every order of effects, inputs and outputs |
| Signing.CallConditionReasons | packages/core/src/signing.ts:117-133 | the conditions of one call: exactly the reasons that hold, and what they leave in the pool |
| Signing.PostConditionBindingReasons | packages/core/src/signing.ts:96-140 | exactly the reasons that hold about conditions and deposits, which `Validation.ConditionReasonsRead` and `Validation.SendReasonsRead` read off the steps; throws exactly on a deposit that is no integer |
| Validation.CallReasons | packages/core/src/signing.ts:142-149 | exactly the reasons that hold against a contract call |
| Validation.StepReasons | packages/core/src/signing.ts:190-207 | exactly the reasons that hold against one step, its amounts included |
| Validation.ValidatePlan | packages/core/src/signing.ts:163-210 | exactly the reasons that hold, and throws exactly on a deposit that is no integer; what no reason means is `Validation.VerdictMeaning` |
| Approval.AddressNetworkIff | packages/core/src/network.ts:11-20 | for every text: of the network its second letter says, exactly with 36 to 40 characters of the address alphabet after it |
| Approval.PerfectIff | packages/core/src/signing.ts:96-140 | the inputs can be dealt out to sends and deposits exactly when they are, as a bag of asset and quantity, the amounts of all post-conditions but receipts and, for each deposit, a native bitcoin amount of its quantity |
| Validation.ApprovedIff | packages/core/src/signing.ts:163-210 | the checks together say what a plan may do, step by step: bound and fresh, each condition by the sender on its network, sends and deposits exactly the inputs, receipts and effects on the quote, outputs covered, every step approved |
| Validation.PlanReasonsRead | packages/core/src/signing.ts:165-174 | another quote, network, registry or adapter version, a differing or past expiry, a quote that is not executable and an empty plan are each reported by their own name |
| Validation.CallReasonsRead | packages/core/src/signing.ts:142-149 | what is held against a contract call, each reason by its own name |
| Validation.ConditionReasonsRead | packages/core/src/signing.ts:115-132 | exactly the post-conditions of a foreign principal, of another sender, or of a receipt the quote does not promise are reported as such |
| Validation.EffectReasonsRead | packages/core/src/signing.ts:74-94 | a foreign effect exactly when some step names an amount not on the quote, a missing output exactly when the effects do not hold all outputs |
| Validation.StepReasonsRead | packages/core/src/signing.ts:40-53 | a number or a non-integer for an amount, a deposit of another bitcoin network, and a recipient of another network |
| Validation.SendReasonsRead | packages/core/src/signing.ts:121-138 | without deposits: a send too many exactly when the sends are not within the inputs, an unprotected input exactly when the inputs are not within the sends |
| Validation.VerdictMeaning | packages/core/src/signing.ts:163-210 | an empty verdict means the plan is bound, sends exactly the quoted inputs, covers the quoted outputs and is safe step by step; and conversely, with one kind of bitcoin per quantity |
| Validation.VerdictExactIff | packages/core/src/signing.ts:103-115 | some plan for a list of inputs is approved and still turned down exactly when two native bitcoin inputs of one quantity are of different assets |
| Validation.WireKeepsVerdict | packages/core/src/wire.ts:130-206 | a plan and quote that survive the wire get the same verdict on the other side |
| Steps.UnsignedSteps | packages/core/src/borrowSafety.ts:14-20 | exactly the unconfirmed steps of the plan whose dependencies are confirmed |
| Steps.OfferedInPlanOrder | packages/core/src/borrowSafety.ts:14-20 | steps are offered in plan order |
| Steps.SomethingIsOffered | packages/core/src/borrowSafety.ts:14-20 | in an acyclic plan something is offered while any step is unconfirmed, whatever has been confirmed |
| Steps.RunIsTopological | packages/core/src/borrowSafety.ts:14-20 | a run that confirms only offered steps confirms none twice and none before its dependencies |
| Steps.CompleteConfirmsOnce | packages/core/src/borrowSafety.ts:14-20 | a complete run confirms each step exactly once |
| Steps.RunCompletes | packages/core/src/borrowSafety.ts:14-20 | any run of an acyclic plan can be carried on to the end |
| Steps.AcyclicIffRanked | packages/core/src/signing.ts:59-72 | no path of dependencies comes back to its start exactly when steps can be ranked above what they depend on |
| Steps.CompleteRunIffAcyclic | packages/core/src/signing.ts:59-72 | a plan that passes the dependency check can be carried out exactly when no path of dependencies comes back to its start |
| Steps.TwoStepsWait | packages/core/src/signing.ts:59-72 | two steps waiting for each other pass the check and neither is ever offered |
| Risk.RoundingExactIff | packages/core/src/amounts.ts:60-65 | exactly when "down" is the floor and "up" the ceiling |
| Risk.PowerOfTen | packages/core/src/risk.ts:46-51 | the loop computes the power and refuses a negative exponent |
| Risk.HealthIs | packages/core/src/risk.ts:80-144 | on evidenced positions nothing throws and every figure is a plain quotient |
| Risk.WithheldIff | packages/core/src/risk.ts:88-116 | all figures are withheld and the position reads unhealthy exactly when a price is disputed, stale, undated, of the future or too old |
| Risk.ThrowsIff | packages/core/src/risk.ts:75-125 | otherwise health throws exactly on a scale other than eight, negative decimals, or a debt priced at zero |
| Risk.NothingToDivide | packages/core/src/risk.ts:120-122 | without collateral worth anything the ratio, and without debt the factor, is reported as ten; owing nothing is within the buffer |
| Risk.ProjectionIs | packages/core/src/risk.ts:146-164 | a projection is the health of the amounts after the change, where more taken out than there is leaves nothing |
| Risk.MaxBorrowExactIff | packages/core/src/risk.ts:118-128 | maxBorrow tells for every debt amount whether it is within the buffer, exactly when collateral is worth something or the limit is below the sentinel |
| Risk.WithinBufferIsHealthy | packages/core/src/risk.ts:118-128 | up to maxBorrow a position is healthy when borrowing stops at or below the liquidation threshold |
| Risk.BorrowRoom | packages/core/src/risk.ts:146-164 | a further debt stays in the buffer exactly up to maxBorrow minus the debt |
| Risk.MinOutIsExact | packages/core/src/risk.ts:166-169 | the least output is the greatest that gives up at least the allowed share |
| Risk.SlippageRejectedIff | packages/core/src/risk.ts:166-168 | slippage is refused exactly below zero and from the whole output on |
| RiskReport.ReadInMoney | packages/core/src/riskReport.ts:45-47 | liquidatable, within the cap, within the buffer and healthy as exact comparisons of debt and collateral |
| RiskReport.StaleMarksNothing | packages/core/src/riskReport.ts:45-70 | stale health is neither liquidatable nor within the cap or the buffer |
| RiskReport.NeverLiquidatable | packages/core/src/riskReport.ts:45-47 | a position without debt is never liquidatable |
| RiskReport.FactorBelowOneIff | packages/core/src/riskReport.ts:33-39 | a factor below one means loan-to-value over the threshold, exactly when collateral is worth something or the threshold is below the sentinel |
| RiskReport.LiquidatableAtOneIff | packages/core/src/riskReport.ts:46-57 | liquidatable with a factor of at least one exactly at the threshold |
| RiskReport.NeverBothIff | packages/core/src/riskReport.ts:46-47 | never healthy and liquidatable at once exactly when borrowing stops below the threshold, or the threshold is zero |
| RiskReport.Stress | packages/core/src/riskReport.ts:246-269 | one row per shift in order; a report that throws does so with the error of its first row that throws |
| RiskReport.RowBlockedIff | packages/core/src/riskReport.ts:211-269 | a row has no health for the first of: stale collateral price, stale debt price, no collateral price, no debt price, a shift that cannot be made |
| RiskReport.ShiftableIff | packages/core/src/riskReport.ts:200-206 | a price can be shifted exactly when there is one, by whole basis points, with some of it left |
| RiskReport.DeeperStaysLiquidatable | packages/core/src/riskReport.ts:200-269 | what a shift makes liquidatable stays so under every deeper computable shift |
| RiskReport.StressMonotoneIff | packages/core/src/riskReport.ts:200-269 | over all positions that holds exactly for thresholds up to the sentinel |
| RiskReport.RoundedAwayIsSafe | packages/core/src/riskReport.ts:200-206 | above the sentinel, collateral rounded to nothing is no longer liquidatable |
| Concentration.TallySlices | packages/core/src/riskReport.ts:339-345 | the loop's total and its map hold the sum of all slices and the sum for each key |
| Concentration.ConcentrationByQuantity | packages/core/src/riskReport.ts:299-367 | unavailable in exactly the cases the code lists, and otherwise the shares the results below speak of |
| Concentration.SpreadReads | packages/core/src/riskReport.ts:299-357 | the cases: no slices, an unknown quantity, two assets, nothing held, in this order; else the total is the sum of all slices |
| Concentration.SharesAddUp | packages/core/src/riskReport.ts:339-364 | each key once, largest share first, quantities adding up to the total |
| Concentration.ShareIsItsKeys | packages/core/src/riskReport.ts:339-364 | each share is its key's own quantity, in whole basis points of the total, rounded down |
| Concentration.TiesKeepOrder | packages/core/src/riskReport.ts:362-364 | keys of equal shares stay in the order they first appear in |
| Concentration.SharesNearlyWhole | packages/core/src/riskReport.ts:362-364 | with nothing negative the shares sum to at most 10000 basis points, short by less than one for each key |
| Quorum.LowestAndHighest | packages/core/src/valuation.ts:109-115 | the loop finds the lowest and the highest price |
| Quorum.ReconcilePriceQuorum | packages/core/src/valuation.ts:44-163 | lowest, highest and median decide, as the results below read them |
| Quorum.StatusReads | packages/core/src/valuation.ts:53-163 | unsupported exactly without readings, stale exactly when none is fresh with a positive price; a price exactly when verified, eight decimals unless stale, a spread exactly with two sources, and disputed exactly when that is over the limit |
| Quorum.ReadingCounts | packages/core/src/valuation.ts:72-77 | a reading counts exactly when it is fresh and has a positive price |
| Quorum.AtEightDecimals | packages/core/src/valuation.ts:101-107 | a price keeps its worth at eight decimals, but for the decimals cut off |
| Quorum.SpreadIsLeast | packages/core/src/valuation.ts:117 | the spread is the least number of basis points of the lowest price that covers the highest |
| Quorum.UnusableIgnoredIff | packages/core/src/valuation.ts:66-77 | a reading without a usable price changes nothing but the sources, exactly unless it names the second of them |
| Quorum.StaleSourceDisputes | packages/core/src/valuation.ts:126-145 | the failing input: two prices of one source are verified, and disputed with a stale reading of another |
| Quorum.ReadingsInAnyOrder | packages/core/src/valuation.ts:44-163 | price, status, spread and sources are the same for every order of the readings |
| Quorum.VerifiedIff | packages/core/src/valuation.ts:117-145 | when a price is given: one source, or all usable prices within the spread of the lowest, or a lowest that rounds to zero |
| Quorum.TwoSourcesAgreeIff | packages/core/src/valuation.ts:117-145 | with at most eight decimals and two sources, a price is given exactly when every pair of usable prices is within the spread |
| Quorum.VerifiedIsMedian | packages/core/src/valuation.ts:147-154 | a verified price is a usable reading's own, with at most half of them on either side |
| Quorum.RoundedToZeroAgrees | packages/core/src/valuation.ts:103-117 | a reading that rounds to zero hides any disagreement |
| Holdings.ValuePortfolio | packages/core/src/valuation.ts:202-334 | outcomes in order, the total of the valued ones, and which assets were valued |
| Holdings.OutcomeReads | packages/core/src/valuation.ts:222-300 | why a holding has no value: the first of unknown quantity, no feed, dispute, no fresh price |
| Holdings.ReportLists | packages/core/src/valuation.ts:210-320 | every holding has its outcome at its place, and is listed as valued or unvalued accordingly |
| Holdings.AggregateHoldings | packages/core/src/accounting.ts:139-151 | one holding for each asset in order of first appearance, its quantity the sum, unknown as soon as one part is |
| Accounting.FileEntries | packages/core/src/accounting.ts:116-136 | the first pass files every counted entry in its lists, and notices unknown quantities |
| Accounting.ValueCategories | packages/core/src/accounting.ts:161-178 | each category is valued from its own entries |
| Accounting.EvaluatePortfolioAccounting | packages/core/src/accounting.ts:96-234 | the figures are those of the ledger the results below speak of; what each of them is, `Figures.GrossAndNet`, `Figures.CategoryIs` and `Figures.CoverageCounts` say |
| Figures.GrossAndNet | packages/core/src/accounting.ts:139-190 | for every ledger and all prices each gross figure is the sum over its assets of known quantity times price, cut to whole units, zero when nothing counts and unknown when nothing counted has a value; the net is known exactly when both are, and net plus debt is then the assets |
| Figures.CategoryIs | packages/core/src/accounting.ts:161-178 | each category counts its own entries and is the like sum over its own assets |
| Figures.CoverageCounts | packages/core/src/accounting.ts:192-204 | assets are counted once, as valued where a side values them and as unvalued where a side does not |
| Figures.UnitIs | packages/core/src/valuation.ts:192-195 | an asset has six decimals exactly when its id holds ":stx", or "usdc" in any case, and eight otherwise |
| Ledger.CategoriesAgainstGross | packages/core/src/accounting.ts:153-181 | for every ledger the asset categories sum to at most the gross total and what it hides for unknown quantities, short of that by at most one for each category beyond the first that holds a valued asset |
| Ledger.CategoriesWithinGross | packages/core/src/accounting.ts:153-181 | with known quantities nothing is hidden: the categories stay within the gross total |
| Ledger.AssetWithinIff | packages/core/src/accounting.ts:139-151 | an asset's categories stay within its part of the gross total exactly when its quantities are all known or its categories show nothing of it |
| Ledger.CompleteIff | packages/core/src/accounting.ts:192-204 | coverage is complete exactly when something counts and all that counts has a known quantity and a usable, undisputed price |
| Ledger.SkippedIff | packages/core/src/accounting.ts:116-122 | taking an entry out leaves every figure as it was exactly when it is not marked as counting, receipt or not |
| Ledger.CountedReceiptCounts | packages/core/src/accounting.ts:116-122 | an entry marked as counting, receipt or not, adds its own worth to the gross total, to one unit of rounding, and leaves the debts as they are |
| Ledger.CountedDebtCounts | packages/core/src/accounting.ts:116-136 | a counted debt adds its own worth to the gross debt, to one unit of rounding, and leaves the assets as they are |
| Ledger.UnknownHidesAsset | packages/core/src/accounting.ts:139-151 | the failing ledger: one known and one unknown quantity of an asset, hidden from the gross total and shown in its category |
| Registry.QuotedUnique | packages/config/src/signedRegistry.ts:54-57 | a quoted string ends where it ends: equal texts have equal strings and equal rests |
| Registry.ControlIsLowerCase | packages/config/src/signedRegistry.ts:54-57 | a control character without a short form is written with two lower-case hexadecimal digits |
| Registry.Unique | packages/config/src/signedRegistry.ts:54-66 | so does every value: equal texts have equal meanings and equal rests |
| Registry.OneTextIff | packages/config/src/signedRegistry.ts:58-64 | all values equal to one up to key order have its text exactly when no two keys of an object in it tie |
| Registry.CanonicalIff | packages/config/src/signedRegistry.ts:54-70 | equal canonical texts only for values equal up to key order, whatever the order of keys; and for all of those, without ties |
| Registry.HasTextIff | packages/config/src/signedRegistry.ts:54-66 | a value has a canonical text exactly when nothing in it, however deep, is beyond JSON |
| JsonText.ValueReads | packages/config/src/signedRegistry.ts:54-66 | canonical text is JSON: read by the grammar of RFC 8259 it gives back the value's meaning, whatever follows it, and reading stops where the text ends |
| JsonText.CanonicalReads | packages/config/src/signedRegistry.ts:68-70 | the canonical text of a value, read as JSON, is that value up to key order |
| Registry.ReleasedIff | packages/config/src/signedRegistry.ts:151-175 | releases are accepted exactly when each names the one before it; the last is active, and a rollback restores the one before it |
| RateLimit.MemoryLimiter.Take | apps/api/src/rateLimit.ts:26-37 | one request: the counter of its bucket and window goes up by one and decides |
| RateLimit.KeysDistinct | apps/api/src/rateLimit.ts:31 | different buckets and windows never share a counter |
| RateLimit.AllowedIff | apps/api/src/rateLimit.ts:21-35 | a request passes exactly when it is among the first of its window, as many as the limit |
| RateLimit.RemainingIs | apps/api/src/rateLimit.ts:21-35 | the reported remainder is how many more the window lets through |
| RateLimit.ThroughIs | apps/api/src/rateLimit.ts:26-37 | exactly the smaller of requests and limit pass in each window, for every sequence of requests and times |
| RateLimit.SpanAtMostTwice | apps/api/src/rateLimit.ts:15-37 | at most twice the limit passes in any half-open span of a window's length |
| RateLimit.TwiceIsReached | apps/api/src/rateLimit.ts:15-37 | and twice the limit does pass, in two milliseconds around a boundary |
| RateLimit.WaitEndsNext | apps/api/src/rateLimit.ts:15-19 | waiting as long as told ends in the very next window |
| RateLimit.WaitIsLeast | apps/api/src/rateLimit.ts:15-19 | no shorter wait in whole seconds reaches another window |
| Performance.BackLosesLittle | packages/core/src/performance.ts:107-122 | shares to assets and back never gains, loses less than (numerator + denominator) / denominator, and nothing exactly when the division is even |
| Performance.FlowTotals | packages/core/src/performance.ts:157-168 | the loop totals each kind of cash flow |
| Performance.FlowCounts | packages/core/src/performance.ts:157-168 | a cash flow counts in the total of its own kind with its amount, and in no other |
| Performance.AttributeCashFlowYield | packages/core/src/performance.ts:144-256 | the figures are those the results below speak of |
| Performance.FlowsInAnyOrder | packages/core/src/performance.ts:157-168 | attribution depends on which cash flows there were, not on their order |
| Performance.GainsAreLeast | packages/core/src/performance.ts:188-198 | realized gains are the least amount that balances what came out against deposits and fees |
| Performance.AppreciationIsLeast | packages/core/src/performance.ts:173-186 | the least amount that makes up the difference between what the shares are worth now and what they were worth at the initial rate, or cost when there is none |
| Performance.NothingAppreciates | packages/core/src/performance.ts:173-175 | without shares or a rate nothing appreciates |
| Performance.FiguresAdd | packages/core/src/performance.ts:170-216 | yield is appreciation plus realized gains; cost, gains and unattributed inflow are each the least amount that balances |
| Performance.RiseIsNotYield | packages/core/src/performance.ts:200-215 | a rise in the balance alone adds nothing to yield, and is unattributed in full exactly from the expected value on |
| Performance.DepositIsNotYield | packages/core/src/performance.ts:170-215 | a deposit already in the balance never adds yield, and leaves it as it was exactly when it neither lowers the shares' worth over the cost nor makes up for a counted gain; then no inflow is unattributed either |

## Left out

- Confirmations.RunConfirms: asks that no orphan was recorded again; height by height the exact condition is `Confirmations.BuriedExactIff`.
- Ingest.WalkForward: is the forward loop of `ingestBlocks` as a method of its own; the body of that loop, the rewind branch, the missing-output loop and the category loop are split off likewise.
- Accounting.EvaluatePortfolioAccounting: leaves out the items listed under each category and the coverage percentage.
- Registry.CanonicalIff: numbers are integers as `toString` writes them below 10^21, and the order of keys is any strict weak order; fractions and NaN are not covered.
- Refinement.LogRefines: the pure form has no step for a log, so its effect is written out on the pure state.
- ScopeKeys.SameKeyIff: asks that no value holds `&`; what holds of a request against all others is `ScopeKeys.KeyIsUniqueIff`.
- Liveness.EveryStepConfirms: is for tables that ticks alone lead to; with logs the exact condition is `Liveness.ConfirmsIff` and `Liveness.ForkConfirmsIff`.
- Validation.SendReasonsRead: is for plans without deposits; with them, `Approval.PerfectIff` and `Matching.FitsIff` say when nothing is reported.
- Performance.AppreciationIsLeast: asks for shares that are not negative and rates above zero, as an on-chain rate is.
- JsonText.ValueReads: the reader knows whole numbers only, and reads objects whose names are distinct.
- Holdings.ValuePortfolio: values holdings as the accounting passes them, without decimals of their own; quantities and prices are integers already, and the coverage percentage is not modelled.
- Quorum.ReconcilePriceQuorum: leaves out timestamps and warnings, and takes the sort by price to sort.
- Performance.AttributeCashFlowYield: leaves out USD values and unclaimed rewards.
- RateLimit.MemoryLimiter.Take: times are whole milliseconds and window arithmetic is exact.
- Validation.ValidatePlan: bitcoin address kinds come from a function that is a parameter.
- Strings are sequences of Unicode scalar values: lone surrogates do not occur, and comparisons by UTF-16 code unit are by scalar value.
- `ingestEvents` is modelled only by what it stores; which logs the provider lists, the decoding and the link to workflows are not part of this model. Table columns that no decision reads are dropped.
- Reason, warning and label texts are constructors or dropped; `Number()` conversions of small counts are exact.
- Loaders and listeners that call back into the cache, abort signals and `dropQuotes`.
- `validatePayload` of the registry, `safeExitOnly`, key import and signature verification.
- `settleRepayAmount`, the partial-completion helpers, `graniteProtectiveActions`, `evaluateForward30dProjection` and `buildPerformanceChartSeries`: single-branch claims or display.
- The Redis limiter, the HTTP client's retries, reconciliation, alerts, staking, liquidity and the user interface.
