# Verified model of the OOMU desktop core

This project models, in Dafny, the parts of the OOMU desktop application (`src-tauri/src`) whose
correctness is hardest to see from the code, and proves what they keep over all inputs and all runs.
`dafny verify dfyconfig.toml` checks everything.

| files | component |
|---|---|
| `TokenText.dfy`, `TokenAllocation.dfy`, `ContextAssembly.dfy` | token-budget context assembly (`context_manager.rs`) |
| `ResourcePaths.dfy`, `ApprovalScopes.dfy`, `ApprovalRuns.dfy`, `ApprovalStore.dfy` | reviewed approval scopes (`approval_scopes.rs`), with the deletions that remove them |
| `PlanExecution.dfy`, `PlanExecutors.dfy`, `SelfHealing.dfy` | checkpointed plan execution and self-healing (`agentic_loop.rs`, `db/agent_execution.rs`) |
| `ImportGrants.dfy`, `ProviderStore.dfy` | import grants; provider rows and their secrets (`agent_manager.rs`) |
| `UpdateScheduler.dfy`, `CheckGate.dfy` | update scheduling and check coalescing (`app_updates.rs`) |
| `ReleaseGate.dfy` | release evidence gate (`audit.rs`) |
| `Utf8.dfy`, `ConnectRequest.dfy`, `ProxyHeader.dfy` | CONNECT request line, header reader and forwarding (`browser_proxy.rs`) |
| `Basics.dfy` | options, results, saturating arithmetic, sums |

How the code is represented:

* Loops that update variables are methods with invariants, each proved equal to a specification
  function or predicate; objects whose methods change stored rows are classes. Concurrent callers,
  crashes and failing writes are step systems, and their theorems are about every run.
* `usize` is a natural number with explicit saturating multiplication and subtraction; text is a
  sequence of Unicode scalar values with the Unicode White_Space property written out; header bytes
  are bytes, with UTF-8 validity as in section 4 of RFC 3629.
* Clocks, random ids, write failures, file contents and the effects of tools and planners are
  parameters, so every theorem holds for all of them.

## What the code does not do

Some expected properties are false of the code. Each failure has a concrete input and an exact
condition.

* Completed steps of a plan can be replayed in two ways. A plan resumed without approval lists its
  actions from the first plan step while the loop index starts at the checkpoint
  (`PlanExecution.UnapprovedResumeReplays`, a run from the empty store). And two overlapping executions
  of one plan, which nothing prevents when the plan is run without approval, can both invoke a step,
  and can leave a cursor behind the receipts that no restart accepts (`PlanExecutors.OverlapReplays`).
  Over all runs by any number of executors a receipted step is invoked again if and only if an
  unapproved plan resumed past its first step, or an executor behind the receipts, gets to invoke an
  action (`PlanExecutors.ReplayIffUnsafeOrLate`); without overlap only the former happens
  (`PlanExecution.ReplayIff`, `PlanExecutors.NoOverlapReplaysIff`). Even with overlap no step gets two
  receipts (`PlanExecutors.OneReceiptPerStep`), and a checkpoint can be resumed exactly when its cursor
  counts the receipts (`PlanExecutors.ResumableIff`).
* A validated output that is verified but not marked completed has run its action and is never sealed:
  the store seals exactly the outputs marked completed (`PlanExecution.SealedIffCompleted`).
* Whether a CONNECT header is accepted can depend on how its bytes arrive
  (`ProxyHeader.ReadingDependsOnArrival`), because the size limit is applied to everything buffered,
  not to the header. `ProxyHeader.AlwaysReadIff` and `ProxyHeader.NeverReadIff` give the exact
  boundaries of always, sometimes and never.
* The allocator can take more passes than there are needs, for budgets and attachments near the end of
  the `usize` range (`ContextAssembly.LargestBudgetRequest`). Lists of n needs are always served in time
  if and only if (budget - 1) * weight of the last part is below `usize::MAX`
  (`TokenAllocation.RoundsBoundIff`); a single pass makes no progress exactly when all shares are short
  (`TokenAllocation.PassStallsIff`). Work conservation and proportional shares hold regardless.
* Two automatic attempts can be claimed less than a window apart, because recording a successful check
  loads and writes the policy without its lock (`UpdateScheduler.LostClaim`), or because an unreadable
  policy is replaced by the default. No run can be led there if and only if no repair, and no such write
  that was loaded before the last claim and records an earlier time, follows a claim
  (`UpdateScheduler.AlwaysSafeIff`). A claim at clock zero can be repeated at once, because a stored
  zero means "never" (`UpdateScheduler.EpochClaimsRepeat`, `UpdateScheduler.Service.ClaimAutomaticAttempt`).
* A timestamp within a window of the largest `i64` is never due, however often the scheduler waits
  (`UpdateScheduler.SaturatedWait`); `UpdateScheduler.OneWaitIsExact` and
  `UpdateScheduler.WaitsAfterRollback` hold if and only if there is none.
* A configured provider row can lose its rightly bound secret (`ProviderStore.LostCompensationUnbinds`):
  for an upsert if and only if the database write and the restoring keychain write both fail and the
  request changes the origin or provider of a configured row (`ProviderStore.UpsertKeepsValidIff`), for a
  removal if and only if both fail and the row is configured (`ProviderStore.RemoveKeepsValidIff`).

## Model

| member | source | states |
|---|---|---|
| `TokenText.TrimSplits` | src-tauri/src/context_manager.rs:406-509 | trimming removes whitespace at the two ends and nothing else, for every text |
| `TokenText.TrimUnique` | src-tauri/src/context_manager.rs:406-509 | that determines the trimmed text |
| `TokenText.WhitespaceTable` | src-tauri/src/context_manager.rs:406-411 | the twenty-five characters that count as whitespace |
| `TokenText.WordsAcross` | src-tauri/src/context_manager.rs:405-413 | words are counted on either side of any whitespace separately, which determines the count |
| `TokenText.EstimateIsLeast` | src-tauri/src/context_manager.rs:405-413 | the estimate is the least number of tokens, one at least, with four characters and one word each |
| `TokenText.EstimateOfTrim` | src-tauri/src/context_manager.rs:405-413 | the estimate ignores surrounding whitespace and is zero exactly on blank text |
| `TokenText.EstimateWithMarker` | src-tauri/src/context_manager.rs:508-536 | the estimate of a kept prefix with the marker, in closed form: three tokens more by characters, one more by words |
| `TokenText.MarkerEstimate` | src-tauri/src/context_manager.rs:517-521 | the marker alone is estimated at 3 tokens |
| `TokenText.FitsDownward` | src-tauri/src/context_manager.rs:523-535 | a shorter prefix fits wherever a longer one does |
| `TokenText.LongestFit` | src-tauri/src/context_manager.rs:523-535 | reference: the longest prefix that fits with the marker, every longer one failing |
| `TokenText.StartIsHighEnough` | src-tauri/src/context_manager.rs:523-527 | no prefix above the loop's starting length can fit |
| `TokenText.LongestFitUnique` | src-tauri/src/context_manager.rs:523-535 | a fitting prefix below only failing ones is the longest fit |
| `TokenText.PopUntilFits` | src-tauri/src/context_manager.rs:523-535 | the pop loop returns the longest fitting prefix with the marker; the pop-failure exit is unreachable |
| `TokenText.TruncateText` | src-tauri/src/context_manager.rs:508-536 | the whole function meets the reference definition of truncation |
| `TokenText.TruncationSound` | src-tauri/src/context_manager.rs:508-536 | the result never exceeds the token limit |
| `TokenText.TruncationExactCases` | src-tauri/src/context_manager.rs:508-536 | text is returned trimmed exactly if it fits; oversized text gives the empty string exactly when the limit is at most 3 |
| `TokenText.TruncationOptimal` | src-tauri/src/context_manager.rs:508-536 | oversized text keeps a proper prefix, and every longer marked prefix exceeds the limit |
| `TokenText.TruncationMonotone` | src-tauri/src/context_manager.rs:508-536 | a higher limit never shortens the kept prefix |
| `TokenAllocation.After` | src-tauri/src/context_manager.rs:473-487 | within a pass allocations only grow, stay within the needs, and spending stays within the budget |
| `TokenAllocation.PassSum` | src-tauri/src/context_manager.rs:473-487 | conservation: what a pass spends is what the allocations gain |
| `TokenAllocation.PassRetains` | src-tauri/src/context_manager.rs:473-487 | the retained parts are exactly the visited ones still short, once each |
| `TokenAllocation.PassBalanced` | src-tauri/src/context_manager.rs:467-492 | after a full pass the list again holds exactly the unmet parts |
| `TokenAllocation.PassSpends` | src-tauri/src/context_manager.rs:488-490 | every pass spends something, so the `spent == 0` exit is never taken |
| `TokenAllocation.WorkConserving` | src-tauri/src/context_manager.rs:458-495 | for all needs and budgets, saturation included: nobody exceeds their need and the sum is min(budget, sum of needs) |
| `TokenAllocation.AmpleBudget` | src-tauri/src/context_manager.rs:458-495 | a sufficient budget gives everyone exactly their need |
| `TokenAllocation.ProportionalShare` | src-tauri/src/context_manager.rs:467-487 | for every input, in a pass the part at position p is met or gains g with W*(g+p) >= R*w, the product saturating as in the code |
| `TokenAllocation.PassStallsIff` | src-tauri/src/context_manager.rs:473-490 | for every input, saturation included: a pass leaves budget over and meets nobody exactly when every share is short of its need and the shares are short of the budget |
| `TokenAllocation.PassProgress` | src-tauri/src/context_manager.rs:467-492 | a pass exhausts the budget or fully meets a part whenever (R-1)*w is below `usize::MAX` for its parts |
| `TokenAllocation.RoundsBound` | src-tauri/src/context_manager.rs:467-492 | the passes never outnumber the positive needs when (budget-1) times the last weight is below `usize::MAX` |
| `TokenAllocation.RoundsBoundIff` | src-tauri/src/context_manager.rs:467-492 | that condition on the budget is exact for lists of n needs |
| `TokenAllocation.LonePartRounds` | src-tauri/src/context_manager.rs:477-480 | a lone need takes one pass exactly when min(need, budget) is within ceil(`usize::MAX` / weight) |
| `TokenAllocation.WeightIs` | src-tauri/src/context_manager.rs:468-472 | part 0 weighs 100 and each next part 5 more, up to saturation |
| `TokenAllocation.LargeNeedsShares` | src-tauri/src/context_manager.rs:458-495 | when every part needs the whole budget and nothing saturates, part k gets budget*(100+5k) out of 100n+5n(n-1)/2, rounded up, or what is left |
| `TokenAllocation.TwoLargeNeeds` | src-tauri/src/context_manager.rs:458-495 | of two such parts the first gets 100/205 of the budget, rounded up, and the second the rest |
| `TokenAllocation.PassLoop` | src-tauri/src/context_manager.rs:473-487 | the `retain` pass as a loop computes the specified pass |
| `TokenAllocation.RecencyWeightedAllocations` | src-tauri/src/context_manager.rs:458-495 | the loop terminates with the specified, work-conserving allocation |
| `ContextAssembly.BlocksWithinQuota` | src-tauri/src/context_manager.rs:293-334 | selected block texts, the truncated one included, respect an enforced quota |
| `ContextAssembly.BlocksInOrder` | src-tauri/src/context_manager.rs:293-334 | selected texts are the formatted blocks in order, all whole but perhaps the last; without a quota all of them |
| `ContextAssembly.LastBlock` | src-tauri/src/context_manager.rs:310-328 | the last text is whole if it fits, otherwise its truncation to the rest of the quota |
| `ContextAssembly.FormattedIs` | src-tauri/src/context_manager.rs:24-33 | a block is its trimmed content, on the line after its trimmed tag if it has one |
| `ContextAssembly.BlocksAre` | src-tauri/src/context_manager.rs:293-334 | an enforced quota selects exactly the longest run of whole blocks that fits, and the next block cut to the rest if anything is left of it |
| `ContextAssembly.JoinLaysOut` | src-tauri/src/context_manager.rs:336-343 | joined texts stand in order with one empty line between two, and nothing else |
| `ContextAssembly.TrimmedPartStays` | src-tauri/src/context_manager.rs:345-363 | what is not blank in a part survives the trimming of the whole |
| `ContextAssembly.SelectContextBlocks` | src-tauri/src/context_manager.rs:293-334 | the loop returns the specified selection with its tokens within the quota |
| `ContextAssembly.IsUserIff` | src-tauri/src/context_manager.rs:201-204 | a user turn is a message whose role is "user" in any case |
| `ContextAssembly.MessageTokensAre` | src-tauri/src/context_manager.rs:369-403 | four tokens for a message and what its texts cost, attachment by attachment |
| `ContextAssembly.DispatchableIff` | src-tauri/src/context_manager.rs:379-393 | nothing to dispatch means blank content, texts and data throughout |
| `ContextAssembly.TruncateMessageToBudget` | src-tauri/src/context_manager.rs:415-456 | content and attachments are each truncated to their allocated share |
| `ContextAssembly.TruncationTouchesTexts` | src-tauri/src/context_manager.rs:415-456 | truncation cuts each text to its share and changes nothing else of a message |
| `ContextAssembly.TruncatedMessageFits` | src-tauri/src/context_manager.rs:415-456 | a truncated message costs at most max(budget, its untouchable part) |
| `ContextAssembly.LatestKept` | src-tauri/src/context_manager.rs:228-250 | which message is kept; it stays dispatchable; both flags, told on the texts; and it exceeds its quota only for two named reasons |
| `ContextAssembly.KeepLatest` | src-tauri/src/context_manager.rs:228-250 | the latest message is kept or truncated by the loops exactly as specified |
| `ContextAssembly.LatestIndex` | src-tauri/src/context_manager.rs:201-204 | the latest user message, or the last message exactly when there is none |
| `ContextAssembly.WorkingWindowStart` | src-tauri/src/context_manager.rs:269-284 | the reverse scan returns the specified start |
| `ContextAssembly.WindowTurns` | src-tauri/src/context_manager.rs:269-284 | the window holds exactly min(limit, user turns) user turns and starts at one unless it starts at 0 |
| `ContextAssembly.ScanWindow` | src-tauri/src/context_manager.rs:220-258 | the newest-first scan, truncating the latest message by its loops, keeps exactly the specified messages in original order |
| `ContextAssembly.SelectWorkingMessages` | src-tauri/src/context_manager.rs:185-267 | the whole selection equals its specification |
| `ContextAssembly.MessagesWithinQuota` | src-tauri/src/context_manager.rs:185-267 | working tokens are at most max(quota, tokens of the kept latest message) |
| `ContextAssembly.DroppedDidNotFit` | src-tauri/src/context_manager.rs:220-258 | greedy completeness: a message is dropped only because it did not fit beside the newer kept ones |
| `ContextAssembly.SelectionShape` | src-tauri/src/context_manager.rs:185-284 | the selection is an in-order subsequence of the turn window ending in the kept latest message; the window ends in the latest user turn and holds min(limit, turns) turns |
| `ContextAssembly.WeightedQuota` | src-tauri/src/context_manager.rs:365-367 | a tier's quota never exceeds the budget, saturation included |
| `ContextAssembly.AssembleContext` | src-tauri/src/context_manager.rs:92-174 | assembling through the loops gives the assembly the budget theorem is about |
| `ContextAssembly.CoreTextsAre` | src-tauri/src/context_manager.rs:336-343 | the core texts are the formatted core blocks that are not blank, all of them, in order |
| `ContextAssembly.PromptShape` | src-tauri/src/context_manager.rs:140-174 | the prompt is the core, working and long-term texts laid out in order, trimmed, under their headings, blank sections left out with theirs; tokens and drop counts are of these texts |
| `ContextAssembly.CoreOpensPrompt` | src-tauri/src/context_manager.rs:345-363 | the core opens the prompt |
| `ContextAssembly.WorkingTextStands` | src-tauri/src/context_manager.rs:345-363 | a working text stands after the heading of its tier and before that of the next |
| `ContextAssembly.WorkingTextsReachPrompt` | src-tauri/src/context_manager.rs:140-174 | every selected working text that is not blank reaches the prompt, under its heading |
| `ContextAssembly.LongTermTextsReachPrompt` | src-tauri/src/context_manager.rs:140-174 | every selected long-term text that is not blank reaches the prompt, under its heading |
| `ContextAssembly.TiersUseTheirShares` | src-tauri/src/context_manager.rs:97-144 | each tier stays within its share (40 hundredths, a third of that for blocks, 15 hundredths, less what earlier tiers used) and drops nothing that fits it |
| `ContextAssembly.FittingMessagesAreKept` | src-tauri/src/context_manager.rs:185-267 | messages whose window fits are kept as they are |
| `ContextAssembly.BudgetTheorem` | src-tauri/src/context_manager.rs:92-174 | estimated tokens <= max(b, core + working context + kept latest); <= b if the core fits b and the latest fits its quota |
| `ContextAssembly.NoBudgetKeepsEverything` | src-tauri/src/context_manager.rs:92-174 | without a budget no block is dropped, nothing is condensed, and the whole window is kept |
| `ContextAssembly.LatestTurnSurvives` | src-tauri/src/context_manager.rs:92-174 | with any messages the assembly ends in the latest turn, dispatchable if it was |
| `ContextAssembly.TextBudgetBound` | src-tauri/src/context_manager.rs:97-126 | the text budget of the latest message is at most a hundredth of the `usize` range |
| `ContextAssembly.MessagePasses` | src-tauri/src/context_manager.rs:415-456 | a message without attachments is divided in one pass, one with attachments in at most as many as it has non-blank texts while the budget is narrow |
| `ContextAssembly.LargestBudgetTakesMorePasses` | src-tauri/src/context_manager.rs:415-456 | with the largest budget and one attachment asking for all of it, more than one pass is taken |
| `ContextAssembly.LargestBudgetRequest` | src-tauri/src/context_manager.rs:92-174 | such a request exists, and its passes outnumber its non-blank texts |
| `ResourcePaths.SplitOfSlashed` | src-tauri/src/approval_scopes.rs:261-267 | round trip: splitting names joined by "/" gives the names back |
| `ResourcePaths.AbsoluteComponents` | src-tauri/src/approval_scopes.rs:261-267 | the components of an absolute path are the root and its names, repeated "/" and inner "." aside |
| `ResourcePaths.RelativeComponents` | src-tauri/src/approval_scopes.rs:261-267 | those of any other path are its names, and a "." in front is kept |
| `ResourcePaths.CoversIff` | src-tauri/src/approval_scopes.rs:261-267 | an absolute path starts with a folder exactly when the folder's names are a leading part of its names |
| `ResourcePaths.FolderCovers` | src-tauri/src/approval_scopes.rs:261-267 | a folder covers its entries, not its parent, and not a neighbour whose name begins with its own |
| `ApprovalScopes.ReviewedBounds` | src-tauri/src/approval_scopes.rs:117-195 | a new grant is unused, unrevoked, bounded in uses and, unless until-revoked, in time; never for a mandatory-reconfirm approval |
| `Basics.AsciiLowerAt` | src-tauri/src/approval_scopes.rs:71-74 | lowering keeps a capital letter's place in the alphabet and leaves everything else alone |
| `ApprovalScopes.MandatoryIff` | src-tauri/src/approval_scopes.rs:71-93 | the eighteen actions that always demand reconfirmation, whitespace and ASCII case aside |
| `ApprovalScopes.ScopeMatchesMeans` | src-tauri/src/approval_scopes.rs:259-269 | a matching grant has the request's task run, or its project, and a folder whose names lead the request's |
| `ApprovalScopes.ScopeMatchesWhen` | src-tauri/src/approval_scopes.rs:259-269 | conversely, for canonical resources |
| `ApprovalScopes.ReviewedTerms` | src-tauri/src/approval_scopes.rs:175-198 | whose grant it is and for which classes and resource |
| `ApprovalScopes.ReviewedAmounts` | src-tauri/src/approval_scopes.rs:139-166 | how long and how often, what was asked for cut to the bounds of the kind |
| `ApprovalScopes.ReviewedIff` | src-tauri/src/approval_scopes.rs:117-174 | when there is a grant, when there is none to make, and why it is refused |
| `ApprovalScopes.LifecycleMeaning` | src-tauri/src/approval_scopes.rs:196-209 | an audited life: one "granted" first, uses adding up, "revoked" only last |
| `ApprovalScopes.InsertKeeps` | src-tauri/src/approval_scopes.rs:196-209 | granting an id that is not in the table keeps rows and audit trail consistent |
| `ApprovalScopes.ChargeKeeps` | src-tauri/src/approval_scopes.rs:281-308 | a guarded charge with its "used" entry keeps them consistent |
| `ApprovalScopes.WithdrawKeeps` | src-tauri/src/approval_scopes.rs:475-507 | a revocation with its entry keeps them consistent |
| `ApprovalScopes.PurgeKeeps` | src-tauri/src/projects/deletion.rs:538-539 | deleting rows and clearing their ids in the audit trail keeps the lives of all other grants and names no grant that is gone |
| `ApprovalScopes.DeletedRows` | src-tauri/migrations/0016_constrained_delegation_and_trust_ux.sql:42-60 | a grant goes exactly with its project or its task run |
| `ApprovalScopes.ClearedEntries` | src-tauri/migrations/0016_constrained_delegation_and_trust_ux.sql:62-73 | an audit entry loses exactly the references to what is gone |
| `ApprovalScopes.HistoryCleared` | src-tauri/migrations/0016_constrained_delegation_and_trust_ux.sql:62-73 | clearing references leaves the audited life of every other grant as it was |
| `ApprovalScopes.NoteKeeps` | src-tauri/src/approval_scopes.rs:222-234 | refusals change no counter and keep the ledger consistent |
| `ApprovalRuns.CommitMatches` | src-tauri/src/approval_scopes.rs:258-308 | with a stale snapshot that also picks the UPDATE statement, the charged row still matches the request, is unrevoked, in budget, and unexpired at the captured time |
| `ApprovalRuns.StepKeepsInv` | src-tauri/src/approval_scopes.rs:212-335 | every step of every caller, and every deletion of a project or of task runs, keeps the system invariant |
| `ApprovalRuns.RunKeepsInv` | src-tauri/src/approval_scopes.rs:212-335 | the invariant holds in every state of every run |
| `ApprovalRuns.NeverOverspent` | src-tauri/src/approval_scopes.rs:235-310 | in every reachable state, for every existing grant: used_count <= max_uses unless until-revoked, used_count is the sum of audited uses, exactly one "granted" first, "revoked" at most once and last |
| `ApprovalRuns.TrueReturnsAreCharged` | src-tauri/src/approval_scopes.rs:235-310 | every true return charged one grant of the same principal, classes and scope, unrevoked, unexpired and in budget, and recorded it |
| `ApprovalRuns.SkippedIsUnusable` | src-tauri/src/approval_scopes.rs:258-297 | a row is skipped only when the grant really cannot be charged then, however stale the row |
| `ApprovalRuns.TriedInOrder` | src-tauri/src/approval_scopes.rs:258-310 | a call in flight has given up, in order, on exactly the rows it no longer holds |
| `ApprovalRuns.FalseReturnsWereTried` | src-tauri/src/approval_scopes.rs:258-334 | a false return is right: each grant live and addressed when the call began could not be charged at some moment before the return |
| `ApprovalRuns.UsedEntriesNeverMandatory` | src-tauri/src/approval_scopes.rs:222-234 | no "used" entry carries a mandatory-reconfirm action class, ever, and no entry names a grant that is gone |
| `ApprovalRuns.StepMoves` | src-tauri/src/approval_scopes.rs:281-308 | a step leaves the terms of an issued grant alone, adds exactly what it charges, and never brings a deleted grant back |
| `ApprovalRuns.AuditSurvives` | src-tauri/migrations/0016_constrained_delegation_and_trust_ux.sql:62-73 | no audit entry is ever removed or rewritten, only its references are cleared |
| `ApprovalRuns.BudgetOverWholeRun` | src-tauri/src/approval_scopes.rs:235-310 | over a whole run, deletions included, the uses committed against a grant never exceed the budget it was reviewed with, and are its use count while it exists |
| `ApprovalRuns.EmptyIsConsistent` | src-tauri/src/approval_scopes.rs:117-209 | the empty ledger is a valid start |
| `ApprovalStore.Store.Grant` | src-tauri/src/approval_scopes.rs:117-210 | inserts exactly the reviewed row and its entry, or changes nothing |
| `ApprovalStore.Store.Revoke` | src-tauri/src/approval_scopes.rs:475-507 | succeeds exactly on an unrevoked grant, recorded once; otherwise nothing changes |
| `ApprovalStore.Store.DeleteProject` | src-tauri/src/projects/deletion.rs:538-539 | removes exactly the grants of the project and clears them from the audit trail, or changes nothing |
| `ApprovalStore.Store.Candidates` | src-tauri/src/approval_scopes.rs:236-261 | exactly the live addressed rows, once each, newest review first |
| `ApprovalStore.Store.LatestExpired` | src-tauri/src/approval_scopes.rs:311-320 | the expired match with the latest expiry, none exactly if there is none |
| `ApprovalStore.Store.Authorize` | src-tauri/src/approval_scopes.rs:212-335 | run alone: true exactly when not mandatory and some live matching grant has budget; charges the newest reviewed one, whose folder covers the resource; otherwise no counter changes and the refusal is recorded |
| `ApprovalStore.EligibleMeans` | src-tauri/src/approval_scopes.rs:235-280 | an eligible grant, on the fields of grant and request |
| `ApprovalStore.EligibleWhen` | src-tauri/src/approval_scopes.rs:235-280 | conversely, for canonical resources |
| `ApprovalStore.RefusalMeans` | src-tauri/src/approval_scopes.rs:311-324 | what a refusal records: which addressed, unrevoked grant ran out last, or that none did |
| `ApprovalStore.FirstIsNewest` | src-tauri/src/approval_scopes.rs:236-280 | the first usable candidate is the newest eligible grant |
| `PlanExecution.StepKeeps` | src-tauri/src/agentic_loop.rs:3628-4191 | every event, crashes included, keeps receipts, cursor and memory in step, and no receipt is lost |
| `PlanExecution.RunKeeps` | src-tauri/src/agentic_loop.rs:3497-4285 | that invariant holds in every state of every run of one executor without an unsafe invocation |
| `PlanExecution.ReceiptsSurvive` | src-tauri/src/db/agent_execution.rs:352-479 | receipts are only ever appended over a run |
| `PlanExecution.CommitKeeps` | src-tauri/src/db/agent_execution.rs:352-479 | sealing a receipt and advancing the cursor happen together and in plan order |
| `PlanExecution.CommitIff` | src-tauri/src/db/agent_execution.rs:352-479 | exactly when a step is sealed, and what the store then holds |
| `PlanExecution.LoadIff` | src-tauri/src/db/agent_execution.rs:680-726 | exactly when a checkpoint is accepted, and with which outputs |
| `PlanExecution.ReceiptsAcross` | src-tauri/src/db/agent_execution.rs:703-717 | a row is a receipt exactly when it is completed and has an output; order is kept |
| `PlanExecution.SealedFields` | src-tauri/src/agentic_loop.rs:5122-5145 | what is sealed has an operation, a message and claims without a tool error, and is verified and completed |
| `PlanExecution.ContainsIff` | src-tauri/src/agentic_loop.rs:5133-5138 | containing means standing somewhere in the text |
| `PlanExecution.NeverReplayed` | src-tauri/src/agentic_loop.rs:3691-3732 | one executor at a time: a step with a durable receipt is never invoked again; receipt count equals step index at every invocation |
| `PlanExecution.InvocationsInOrder` | src-tauri/src/agentic_loop.rs:3691-3732 | invocations come in plan order over crashes and resumes |
| `PlanExecution.CompletedMeansEveryStep` | src-tauri/src/agentic_loop.rs:4153-4191 | Completed carries one verified, completed output per plan step |
| `PlanExecution.AlwaysResumable` | src-tauri/src/agentic_loop.rs:3543-3556 | one executor at a time: a checkpoint left by such a run is never refused, and the receipt guard never fires |
| `PlanExecution.NeverStuck` | src-tauri/src/agentic_loop.rs:3683-4191 | in every state of a safe run an executor that may invoke can make its next step |
| `PlanExecution.SealedIffCompleted` | src-tauri/src/db/agent_execution.rs:352-479 | one executor at a time: for a validated output the store seals the step exactly when the output is marked completed |
| `PlanExecution.ReplayIsUnsafe` | src-tauri/src/agentic_loop.rs:3628-3657 | while the invariant of one executor holds, an invocation repeats a receipted step exactly when its plan is unapproved and was resumed past its first step |
| `PlanExecution.ReplayIff` | src-tauri/src/agentic_loop.rs:3628-3732 | over every run of one executor at a time, with any starts, crashes and restarts: some receipted step is invoked again if and only if some unapproved, resumed plan gets to invoke an action |
| `PlanExecution.UnsafeNeverCompletes` | src-tauri/src/agentic_loop.rs:3691-3708 | an unapproved plan resumed past its first step never returns Completed, in any run |
| `PlanExecution.UnapprovedResumeReplays` | src-tauri/src/agentic_loop.rs:3628-3657 | a run from the empty store that invokes step 0 twice |
| `PlanExecutors.CommitMove` | src-tauri/src/db/agent_execution.rs:352-479 | the store's cursor and count tests make a sealed receipt the next one in plan order, whoever else is running |
| `PlanExecutors.StepKeepsShared` | src-tauri/src/agentic_loop.rs:3628-4191 | any executor's step keeps all executors' memory true of the receipts, their rows apart, and every receipt |
| `PlanExecutors.SharedKeeps` | src-tauri/src/agentic_loop.rs:2833-2862 | that holds in every state of every run by any number of overlapping executors without an unsafe invocation |
| `PlanExecutors.OneReceiptPerStep` | src-tauri/src/db/agent_execution.rs:352-479 | receipt k belongs to step k, no step gets two, and Completed means all steps, however many executors overlap |
| `PlanExecutors.InvocationRepeatsIff` | src-tauri/src/agentic_loop.rs:3691-3732 | an invocation repeats a receipted step exactly when it is unsafe or its step is below the receipt count |
| `PlanExecutors.ReplayIffUnsafeOrLate` | src-tauri/src/agentic_loop.rs:2833-2862 | over every run by any number of executors: some receipted step is invoked again if and only if some invocation is unsafe or its executor is behind |
| `PlanExecutors.ResumableIff` | src-tauri/src/db/agent_execution.rs:680-726 | a checkpoint is accepted exactly when its cursor counts the receipts |
| `PlanExecutors.OverlapReplays` | src-tauri/src/agentic_loop.rs:2833-2862 | a run of two overlapping executors that invokes step 0 twice with no unsafe invocation, and leaves a refused checkpoint on the way |
| `PlanExecutors.NoOverlapIsSingle` | src-tauri/src/agentic_loop.rs:3497-4285 | executors that do not overlap run as a single one |
| `PlanExecutors.NoOverlapReplaysIff` | src-tauri/src/agentic_loop.rs:3497-4285 | without overlap only unsafe invocations replay |
| `SelfHealing.ExecutePlan` | src-tauri/src/agentic_loop.rs:4003-4028 | nested runs terminate; attempts rise by one per run, limit and root objective never change; every run but the last was repaired into the next; the last accounts for the verdict and the outputs |
| `SelfHealing.HandleSensor` | src-tauri/src/agentic_loop.rs:4287-4518 | one record per failure, stop at the limit, otherwise one corrective run with the counter advanced |
| `SelfHealing.ExecuteFresh` | src-tauri/src/agentic_loop.rs:4320-4332 | from a fresh start at most 3 runs and 3 sensor records |
| `ImportGrants.ConsumeAlwaysSpends` | src-tauri/src/agent_manager.rs:4405-4454 | a well-formed consume removes the id whether or not it succeeds, and touches no other grant |
| `ImportGrants.IssuedIff` | src-tauri/src/agent_manager.rs:3562-3611 | exactly when a grant is issued, with all limits written out |
| `ImportGrants.IssueRefusedWhy` | src-tauri/src/agent_manager.rs:3562-3611 | why not, the first reason that applies |
| `ImportGrants.IssuedGrant` | src-tauri/src/agent_manager.rs:3591-3623 | what an issued grant holds: the files, no manifest, ten minutes |
| `ImportGrants.ScannedGrant` | src-tauri/src/agent_manager.rs:3631-3687 | exactly when a scan succeeds, and exactly what it offers |
| `ImportGrants.ConsumedIff` | src-tauri/src/agent_manager.rs:4405-4454 | exactly when a consume succeeds |
| `ImportGrants.BytesAcross` | src-tauri/src/agent_manager.rs:3572 | bytes of files add up |
| `ImportGrants.LengthAcross` | src-tauri/src/agent_manager.rs:4410-4413 | lengths in UTF-8 add up, one to four bytes a character |
| `ImportGrants.CapacityStep` | src-tauri/src/agent_manager.rs:3588-3623 | every operation keeps the three capacity limits |
| `ImportGrants.LogStep` | src-tauri/src/agent_manager.rs:3640-3680 | every operation keeps the store in agreement with the log of successes |
| `ImportGrants.Reachable` | src-tauri/src/agent_manager.rs:3588-3623 | both hold in every reachable state |
| `ImportGrants.CapacityHolds` | src-tauri/src/agent_manager.rs:3588-3623 | at most 4 grants, 480 files and 40 MiB in every reachable state |
| `ImportGrants.SingleUse` | src-tauri/src/agent_manager.rs:4419-4454 | at most one successful consume per issue, only unexpired, with the most recent scan's token and keys |
| `ImportGrants.Store.Total` | src-tauri/src/agent_manager.rs:3593-3603 | the loop computes the order-independent sum over live grants |
| `ImportGrants.Store.IssueGrant` | src-tauri/src/agent_manager.rs:3562-3623 | prunes, then inserts exactly if all three limits allow it |
| `ImportGrants.Store.ScanGrant` | src-tauri/src/agent_manager.rs:3631-3687 | a scan replaces the manifest of a live grant and nothing else |
| `ImportGrants.Store.ConsumeGrant` | src-tauri/src/agent_manager.rs:4405-4454 | removes first and checks afterwards, with the exact refusals |
| `ProviderStore.RunStaysValid` | src-tauri/src/agent_manager.rs:1827-1993 | validity after every sequence of operations and faults without such an exception |
| `ProviderStore.UpsertKeepsValidIff` | src-tauri/src/agent_manager.rs:1827-1958 | an upsert keeps secrets bound and auto-routing single and non-local, except exactly on a double fault that changes the scope of a configured row |
| `ProviderStore.RemoveKeepsValidIff` | src-tauri/src/agent_manager.rs:1975-1993 | a removal does, except exactly on a double fault on a configured row |
| `ProviderStore.AlwaysValidIff` | src-tauri/src/agent_manager.rs:1827-1993 | over every sequence of operations and faults all states are valid if and only if no operation is such an exception |
| `ProviderStore.KeyChanges` | src-tauri/src/agent_manager.rs:1863-1889 | when an upsert changes what the keychain holds |
| `ProviderStore.FailedUpsertRestores` | src-tauri/src/agent_manager.rs:1939-1948 | a failed upsert leaves rows and keychain values as found, except exactly its own key when it would change and both writes fail |
| `ProviderStore.FailedRemoveRestores` | src-tauri/src/agent_manager.rs:1975-1993 | a failed remove leaves rows and keychain values as found, except exactly on a double fault with a stored secret |
| `ProviderStore.CleanKeyIs` | src-tauri/src/agent_manager/provider_store.rs:21-33 | blank, "masked" and all-mask input is no key; other input is the trimmed key |
| `ProviderStore.LocalIff` | src-tauri/src/agent_manager.rs:3108-3115 | the names of a local provider, case, "-" and whitespace aside |
| `ProviderStore.RefusedIff` | src-tauri/src/agent_manager.rs:1831-1852 | exactly what an upsert refuses |
| `ProviderStore.RefusedWhy` | src-tauri/src/agent_manager.rs:1831-1852 | why, the first reason that applies |
| `ProviderStore.UpsertWrites` | src-tauri/src/agent_manager.rs:1860-1958 | every field of the row an upsert leaves, and what becomes of the other rows |
| `ProviderStore.UpsertKeeps` | src-tauri/src/agent_manager.rs:1863-1889 | a submitted key replaces the secret, a change of scope without one clears it, and masked input leaves the keychain as it was |
| `ProviderStore.LostCompensationUnbinds` | src-tauri/src/agent_manager.rs:1939-1948 | two upserts from empty stores after which a configured row has another origin's key |
| `ProviderStore.Manager.Upsert` | src-tauri/src/agent_manager.rs:1827-1958 | the in-place operation with rollback equals its specification and keeps the stores valid exactly outside the exception |
| `ProviderStore.Manager.Remove` | src-tauri/src/agent_manager.rs:1975-1993 | likewise for removal |
| `UpdateScheduler.DelayRange` | src-tauri/src/app_updates.rs:284-311 | for every `i64` clock and timestamps the delay is zero exactly when due and never above one window |
| `UpdateScheduler.OneWaitIsExact` | src-tauri/src/app_updates.rs:280-311 | without future timestamps one wait reaches due if and only if no timestamp is within a window of the largest `i64`; above the floor no shorter wait does |
| `UpdateScheduler.SaturatedIsNeverDue` | src-tauri/src/app_updates.rs:280-291 | such a timestamp is never a window old |
| `UpdateScheduler.SaturatedWait` | src-tauri/src/app_updates.rs:293-311 | a concrete wait that sleeps until the largest time and is not due there |
| `UpdateScheduler.DueStays` | src-tauri/src/app_updates.rs:293-301 | once due, further waits are zero |
| `UpdateScheduler.SkewedWait` | src-tauri/src/app_updates.rs:303-311 | with a future timestamp the wait is a window, cut off at the largest `i64`, and the skew shrinks by it |
| `UpdateScheduler.WaitsAfterRollback` | src-tauri/src/app_updates.rs:293-311 | at most ceil(skew/window)+1 waits reach due, unless a timestamp is within a window of the largest `i64`, when no time is due |
| `UpdateScheduler.RollbackBoundIsTight` | src-tauri/src/app_updates.rs:293-311 | one millisecond of skew really costs two waits |
| `UpdateScheduler.RunStaysSpaced` | src-tauri/src/app_updates.rs:616-620 | with loads and writes of successes as separate unlocked steps, claims stay a window apart while nothing forgets one |
| `UpdateScheduler.StepForgetsIff` | src-tauri/src/app_updates.rs:313-328 | a step forgets the last claim exactly when it is a repair or a stale write of an earlier success |
| `UpdateScheduler.EarlyClaimIff` | src-tauri/src/app_updates.rs:284-291 | at some `i64` time a claim less than a window after the last one is possible exactly when that one is forgotten |
| `UpdateScheduler.AlwaysSafeIff` | src-tauri/src/app_updates.rs:616-620 | over every run, at every `i64` time: no early claim is ever possible if and only if no operation forgets a claim |
| `UpdateScheduler.LostClaim` | src-tauri/src/app_updates.rs:616-620 | a concrete run with two claims less than a window apart |
| `UpdateScheduler.ClaimsAreSpaced` | src-tauri/src/app_updates.rs:739-752 | in such a run n claims later at least n windows have gone by, for any clock movement |
| `UpdateScheduler.EpochClaimsRepeat` | src-tauri/src/app_updates.rs:280-282 | at clock zero a claim can be repeated |
| `UpdateScheduler.OfferIsIdempotent` | src-tauri/src/app_updates.rs:642-673 | looking at an offer again changes neither answer nor policy |
| `UpdateScheduler.OfferShownIff` | src-tauri/src/app_updates.rs:642-673 | when an offer is shown, and what is kept of skips and reminders |
| `UpdateScheduler.Service.ClaimAutomaticAttempt` | src-tauri/src/app_updates.rs:739-752 | claims exactly when due and written; afterwards due again at the same time only if the clock reads zero or less |
| `UpdateScheduler.Service.ProjectAutomaticOffer` | src-tauri/src/app_updates.rs:642-673 | equals its specification, reports change exactly, leaves the timestamps alone |
| `CheckGate.RunKeepsInv` | src-tauri/src/app_updates.rs:675-691 | gate, calls and completed checks agree in every reachable state |
| `CheckGate.StartStep` | src-tauri/src/app_updates.rs:680-685 | a check is started only by a caller that no completed check can serve |
| `CheckGate.CachedWhenDone` | src-tauri/src/app_updates.rs:685-689 | what is cached: the result with the time the check finished |
| `CheckGate.ChecksNeverOverlap` | src-tauri/src/app_updates.rs:675-691 | network checks never overlap, under every interleaving |
| `CheckGate.ResultsAreFresh` | src-tauri/src/app_updates.rs:680-683 | each caller's result completed no earlier than its request |
| `CheckGate.WaitersShare` | src-tauri/src/app_updates.rs:680-685 | whoever starts a check asked after every completed one, so waiters share |
| `CheckGate.EachCheckWasAskedFor` | src-tauri/src/app_updates.rs:675-691 | each finished check was asked for after all earlier ones completed |
| `ReleaseGate.LatestAtMost` | src-tauri/src/audit.rs:333-377 | the opening time is the latest of verified_at and all produced_at |
| `ReleaseGate.DistinctPermutation` | src-tauri/src/audit.rs:386-390 | the seen-set test on names is exactly "a permutation of the required names" |
| `ReleaseGate.SeenDecides` | src-tauri/src/audit.rs:386-390 | size and coverage of the seen-set decide it |
| `ReleaseGate.MinimumDecides` | src-tauri/src/audit.rs:382-395 | the running minimum decides whether every evidence outlives the gate |
| `ReleaseGate.ScanDecides` | src-tauri/src/audit.rs:386-396 | after the loop the closing test is equivalent to acceptance |
| `ReleaseGate.Verify` | src-tauri/src/audit.rs:295-397 | accepts exactly a sound gate at times from one minute before the latest of verified_at and all produced_at up to, excluding, expires_at |
| `ReleaseGate.AcceptedIsCompleteAndFresh` | src-tauri/src/audit.rs:342-396 | acceptance: the 13 required types, once each, every evidence for this build and younger than its freshness window |
| `ReleaseGate.AcceptedIff` | src-tauri/src/audit.rs:295-397 | acceptance told on the fields alone, every name and number written out |
| `ReleaseGate.WrongIsRefused` | src-tauri/src/audit.rs:295-397 | an accepted gate is refused once its signature fails, or a record was not executed, failed, is synthetic, mutable or for another build |
| `ReleaseGate.AcceptanceIsShort` | src-tauri/src/audit.rs:423-431 | no gate is accepted at two times a day and a minute apart |
| `ReleaseGate.SomethingIsAccepted` | src-tauri/src/audit.rs:295-397 | a gate with thirteen fresh records is accepted |
| `ReleaseGate.ReadinessFlagsAgree` | src-tauri/src/audit.rs:242-280 | the readiness flags read from the gate rise and fall together |
| `ProxyHeader.BoundaryMeaning` | src-tauri/src/browser_proxy.rs:218 | the found boundary is the first CRLFCRLF, and none is found exactly if there is none |
| `ProxyHeader.BoundaryOfPrefix` | src-tauri/src/browser_proxy.rs:214-218 | a boundary found in a prefix is the stream's first |
| `ProxyHeader.ReadProxyHeader` | src-tauri/src/browser_proxy.rs:200-229 | the chunked loop returns what the whole stream determines, and header + separator + leftover are the bytes read |
| `ProxyHeader.SuccessSplitsStream` | src-tauri/src/browser_proxy.rs:218-223 | success returns the bytes before the first CRLFCRLF; leftover plus unread rest is everything after it |
| `ProxyHeader.SuccessesAgree` | src-tauri/src/browser_proxy.rs:200-229 | two successful reads of one stream agree on the header and on all that follows |
| `ProxyHeader.HandleConnection` | src-tauri/src/browser_proxy.rs:139-198 | dials exactly an approved destination that the request names; a tunnel sends upstream exactly the bytes after the separator and returns the handshake and the replies, in order; otherwise nothing goes upstream and the exact refusal is answered |
| `ProxyHeader.Approve` | src-tauri/src/browser_proxy.rs:145-167 | finds a destination exactly when the request line is approved, and it is the one named |
| `ProxyHeader.Relay` | src-tauri/src/browser_proxy.rs:178-196 | the tunnel sends the leftover first and then the chunks in order |
| `ConnectRequest.SplitOfJoined` | src-tauri/src/browser_proxy.rs:149-152 | round trip: splitting words joined by any blank gives the words back |
| `ConnectRequest.WordsAreWords` | src-tauri/src/browser_proxy.rs:149-152 | no word is empty or has a blank in it |
| `ConnectRequest.FirstLineIs` | src-tauri/src/browser_proxy.rs:145-148 | the first line is what stands before the first CR LF |
| `ConnectRequest.RequestApprovedIff` | src-tauri/src/browser_proxy.rs:149-163 | a well-formed CONNECT request is approved exactly when its authority, ASCII case aside, is that of an approved destination, whatever header lines follow |
| `ConnectRequest.ApprovedNamesDestination` | src-tauri/src/browser_proxy.rs:149-163 | whatever is approved names an approved destination in a three-word first line |
| `ProxyHeader.HeldBounds` | src-tauri/src/browser_proxy.rs:204-217 | how many bytes can be buffered when the separator completes |
| `ProxyHeader.AlwaysReadIff` | src-tauri/src/browser_proxy.rs:214-217 | every arrival succeeds if and only if min(stream, separator end - 1 + 2048) is within the limit |
| `ProxyHeader.NeverReadIff` | src-tauri/src/browser_proxy.rs:214-217 | every arrival is refused for size if and only if the separator ends beyond the limit |
| `ProxyHeader.LimitNeverHitIff` | src-tauri/src/browser_proxy.rs:214-217 | for every stream, valid or not: no arrival hits the limit if and only if the most that can be held is within it |
| `ProxyHeader.VerdictIsTheStreams` | src-tauri/src/browser_proxy.rs:200-229 | within that bound the header or the error does not depend on the arrival |
| `ProxyHeader.ReadingDependsOnArrival` | src-tauri/src/browser_proxy.rs:214-217 | a stream with one accepted and one refused arrival |
| `Utf8.ValidIff` | src-tauri/src/browser_proxy.rs:220-221 | bytes are accepted exactly when they encode some text by RFC 3629 |
| `ConnectRequest.AuthorityIs` | src-tauri/src/browser_proxy.rs:257-263 | the authority of a destination, with brackets around an IPv6 host |
| `ConnectRequest.LowerIsAsciiLower` | src-tauri/src/browser_proxy.rs:157 | lowering bytes is lowering the text |

## Left out

- BudgetTheorem: is about the accounting fields; the tier headings and the blank lines joining texts are not counted by the code and not here.
- OneWaitIsExact: is stated up to one second before the largest `i64`, where the floor would wait past it.
- AlwaysSafeIff: splits only the recording of a success into load and write; a user's decision (which holds the lock), the projection of an offer and the repair of an unreadable policy are one step each.
- SingleUse: counts consumes per issue of an id; ids are random in the source and assumed not to repeat.
- BudgetOverWholeRun: assumes that a new grant's id was never used before; ids are 18 random bytes in the source. `NeverOverspent` rests on the same.
- DeleteProject: models the effect on grants and their audit entries; the rest of a project's deletion is left out. A compensating revocation exists in the source for tests only.
- NeverReplayed: is about executors of one plan that do not overlap, which nothing ensures for unapproved runs; `PlanExecutors` says what holds with overlap. Approval leases are not modelled.
- ExecutePlan: treats a step as done, captured by the sensor or halted; how a tool response is classified is a parameter.
- HandleConnection: takes as a parameter whether the approved destination can be revalidated and dialled.
- Verify: takes digests, the Ed25519 signature check and the parses of JSON and timestamps as inputs; overflow of `now` plus one minute is not modelled.
- Overflow of plain `usize` additions, which would need texts of about 2^64 characters.
- The choice of journals by date range for an import scan (`apply_log_import_range`); the selected keys are a parameter.
- File reading, canonical paths and content digests of import grants; whether the files are intact is a parameter.
- URL parsing behind canonical provider origins, which is a function parameter; migration of secrets from older stores.
- SQL and JSON text, the dashboards and the budget JSON of approval grants beyond its flag.
- The `argument_class` digest of a request, kept as a string.
- Cryptography, prompts, intent routing, DNS pinning, downloads, installation and all user interface code.
