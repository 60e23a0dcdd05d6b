# VerseLink: verified models of its ledgers, protocols and algorithms

VerseLink is a Node.js server for crew bookkeeping with a Go tray program. This project models the
parts of it that are state machines, ledgers or arithmetic, and proves what they are meant to keep.

Where several database transactions meet, the model is a state machine: the tables are maps and
sequences, and a transaction is a chain of steps (lock a row, read what is committed plus its own
writes, write, commit or abort) that may interleave with any others. The main results there hold for
every run, that is, for every sequence of steps. Where a single handler or algorithm works step by
step, it is a method with loops or a class whose methods reassign its fields, proved against a
specification function whose properties are then proved as lemmas.

| files | what they model |
|---|---|
| `MaterialKeys`, `MaterialReplay`, `MaterialLaws`, `MaterialScope`, `MaterialExact`, `MaterialOrder` | the shared material stock: the greedy replay of contributions and withdrawals, its laws, which rows a withdrawal reaches, and what the order of contributions changes |
| `MaterialHandlers`, `MaterialAnswers`, `MaterialLedger`, `MaterialLegacy`, `MaterialTransactions` | the withdraw, move and move-all handlers, what they do to the stock with and without old withdrawals, and their interleavings |
| `MissionProgress`, `MissionTransactions`, `MissionBoard` | task and mission status as values derived from tasks and contributions, and the concurrent handlers that cache them |
| `PresenceHistory`, `PresenceProtocol`, `PresenceRuns`, `PresenceStretches`, `PresenceHandler` | presence updates with revision high-water marks, the change-only history, revocation, deactivation, deletion and clean-up |
| `HistoryPaging`, `HistoryListing`, `HistoryGrouping` | keyset paging over the history, the client that follows the cursors while the presence protocol goes on, and the grouping into runs |
| `PairingProtocol`, `PairingRuns`, `PairingCode` | one-time pairing codes: the concurrent protocol, and the base-32 packing, display and reading of a code |
| `WindowsArguments` | the quoting of Windows command-line arguments, inverted by the Microsoft parsing rules, and the autostart value |
| `RateLimit`, `AuthInFlight` | the fixed-window request limiter and the limiter for authentications in flight |
| `InventoryEvents`, `PatchReset`, `PatchMeaning` | inventory transactions reported by the game, and the patch reset that merges an inventory into one location |

## What turned out false, and when it holds

- Stock rows are keyed by a string joined with `|` (`src/server.js:2653`). A material name that holds
  `|` can give two different stocks the same key: they are then added up in one row and shown under
  the first one's name (`MaterialExact.SeparatorInNameMergesRows`). Rows are right if and only if no
  two contributions with different fields share a key (`MaterialExact.RowsFaithfulIffUnambiguous`), and
  the stock check of withdrawals and moves prevents overdrafts under exactly the same condition,
  whatever was withdrawn before (`MaterialLedger.StockCheckSoundIffUnambiguous`). The ledger and
  transaction results assume that condition of the state they speak about, and nothing else about
  names. Names without the separator guarantee it, in one state (`MaterialExact.PlainNamesUnambiguous`)
  and over a whole run (`MaterialTransactions.PlainRunUnambiguous`); a caller can check that.
- A contribution does not always leave every view at least as high. `created_at` is the start of a
  transaction, and a move waits for its lock after that, so contributions can be committed out of
  order. Inserted before others, one can move a row to the front of an old withdrawal
  (`MaterialLaws.EarlierContributionCanLowerARow`). It lowers no view, whatever the withdrawals, if and
  only if its row is already opened before it, or is not opened after it either, or the rows that its
  row jumps hold no more of its material, band and location than it brings
  (`MaterialOrder.InsertionNeverLowersIff`).
- A command line starts with a program name, which follows simpler rules than arguments: backslashes
  escape nothing there. A quoted executable path comes back as the program name if and only if it
  holds no quote and does not both need quotes and end in a backslash
  (`WindowsArguments.CommandStartsIffReliable`). The path of a Windows executable always meets that.
- Windows of the request limiter start with a key's first request, so a limit per window is not a limit
  per interval. From a given moment on a key gets at most its limit in the next window length if and
  only if it has no running window, or has used it up, or keeps it to the end
  (`RateLimit.LimitPerIntervalIff`). Any interval of that length admits fewer than twice the limit
  (`RateLimit.BelowTwiceTheLimit`), and every configuration reaches that bound
  (`RateLimit.BoundIsReached`).

## Model

| member | source | states |
|---|---|---|
| MaterialKeys.KeyInjective | src/server.js:2653 | joined row keys are equal exactly when all five fields are, for material names without the separator, whatever the location holds |
| MaterialKeys.LowerIff | src/server.js:2653 | names fold together exactly when they differ in the case of letters only |
| MaterialReplay.GroupRows | src/server.js:2651-2659 | the loop with the key map builds the rows of the specification, in the order of their first contribution |
| MaterialReplay.AbsorbWithdrawal | src/server.js:2665-2675 | the inner loop with its early exit allocates one withdrawal greedily over the matching rows, in row order |
| MaterialReplay.MaterialInventoryNetRows | src/server.js:2646-2677 | grouping and replaying compute the specified net rows |
| MaterialLaws.GroupDistinct | src/server.js:2651-2658 | no two rows share a key |
| MaterialLaws.Conservation | src/server.js:2651-2676 | for every set of slots that each withdrawal respects, the stock shown is contributed minus withdrawn, whichever rows the greedy allocation chose |
| MaterialLaws.TotalConservation | src/server.js:2651-2676 | the group's total is contributions minus withdrawals for all three match strengths, once all withdrawals are absorbed |
| MaterialLaws.ClassConservation | src/server.js:2660-2676 | the same for every material, band and warehouse, old withdrawals included |
| MaterialLaws.LeftOver | src/server.js:2665-2675 | what is left of a withdrawal after any number of rows is its quantity less what the matching ones held, or nothing |
| MaterialLaws.AbsorbCovers | src/server.js:2665-2675 | greedy allocation is monotone: rows with at least as much before have at least as much after, and no more of the withdrawal is left over |
| MaterialLaws.ReplayCovers | src/server.js:2665-2675 | a whole replay is monotone, and what was fully absorbed stays so |
| MaterialLaws.LaterContributionOnlyAdds | src/server.js:2651-2676 | a contribution that sorts last lowers no row and breaks no past withdrawal |
| MaterialLaws.EarlierContributionCanLowerARow | src/server.js:2648-2676 | the counterexample when it sorts earlier |
| MaterialScope.OneRowIffSamePosition | src/server.js:2653 | contributions of plain names share a row exactly when user, material in either case, band, quality and location agree |
| MaterialScope.RowsInOpeningOrder | src/server.js:2651-2659 | each row stands for the first contribution of its key, and rows come in the order of those |
| MaterialScope.OnlyScopeChanges | src/server.js:2660-2675 | a row that a withdrawal changes has its material in either case, band and location, its quality if one is given, and its user if quality and contributor are given |
| MaterialScope.UnmetMeansScopeEmpty | src/server.js:2665-2675 | something stays unmet only when every row of that scope is empty |
| MaterialScope.EarlierRowsFirst | src/server.js:2665-2675 | a row gives only when the rows before it in the scope are empty |
| MaterialScope.GivenIsQuantity | src/server.js:2665-2675 | the rows together give the quantity less what stays unmet |
| MaterialScope.QualityConservation | src/server.js:2651-2676 | each quality of a material, band and location keeps its own balance when the withdrawals there name their quality, with or without a contributor |
| MaterialOrder.ReplayMoved | src/server.js:2665-2675 | a row moved ahead of others keeps at least what it showed, as long as it has grown by what the jumped rows of its class hold; every other row gains |
| MaterialOrder.InsertionNeverLowersIff | src/server.js:2648-2676 | the exact condition under which a contribution inserted anywhere in the order lowers no view, whatever the withdrawals |
| MaterialExact.RowsFaithfulIffUnambiguous | src/server.js:2653-2657 | each row holds exactly what was contributed under its fields if and only if joined keys stand for their fields |
| MaterialExact.PlainNamesUnambiguous | src/server.js:2653 | names without the separator suffice |
| MaterialExact.SeparatorInNameMergesRows | src/server.js:2653-2657 | a family of inputs that collide, with the merged row |
| MaterialExact.ReplayExact | src/server.js:2660-2675 | under exact withdrawals each row gives up the smaller of its quantity and what was asked of its slot |
| MaterialExact.ViewIsBalance | src/server.js:2646-2677 | the stock shown for a slot depends only on the two sums for that slot, not on the order of the lists |
| MaterialExact.NoOverdraftAbsorbs | src/server.js:2665-2675 | without overdraft every withdrawal is fully absorbed |
| MaterialHandlers.InStockIff | src/server.js:2734-2735 | the stock lookup succeeds exactly when the slot shows at least the quantity |
| MaterialHandlers.DecisionCovered | src/server.js:2705-2739 | whatever a handler writes is covered by the stock it has read, names its quality and contributor, and touches only its user's slots |
| MaterialHandlers.DecisionPlain | src/server.js:2705-2739 | the handlers only write names that are in stock, so names without the separator stay so |
| MaterialHandlers.MoveAllOut | src/server.js:2711-2712 | move-all withdraws everything its user has in every slot |
| MaterialHandlers.MoveAllIn | src/server.js:2711-2712 | move-all deposits the user's total of each quality at the destination |
| MaterialAnswers.DecisionMeaning | src/server.js:2717-2737 | who is refused and why, in the source's order of checks, and the records that an accepted withdrawal or move writes, told by the stored fields |
| MaterialAnswers.MoveAllMeaning | src/server.js:2711-2712 | move-all takes out whole, and puts back at the destination, exactly the user's rows with something left, in row order |
| MaterialLedger.AcceptedApplies | src/server.js:2705-2739 | every accepted withdrawal, and every accepted move of names without the separator, brings no clash of keys |
| MaterialLedger.AcceptedEffect | src/server.js:2705-2739 | an accepted request that brings no clash of keys keeps the ledger free of overdrafts and shifts every slot by exactly what was written for it |
| MaterialLedger.SingleEffect | src/server.js:2716-2739 | a withdrawal or move changes its source and destination slot by the amount, and no other slot of anyone |
| MaterialLedger.MoveAllEffect | src/server.js:2705-2715 | after move-all the destination holds the user's total of each quality, the user's other slots are empty, others are untouched |
| MaterialLedger.HoldingBalance | src/server.js:2646-2677 | a user's total of a material, band and quality over all locations is contributed minus withdrawn |
| MaterialLedger.MovesKeepHoldings | src/server.js:2705-2718 | moves keep every such total |
| MaterialLedger.MoveAllTwice | src/server.js:2705-2715 | a second move-all changes no slot's view |
| MaterialLedger.AcceptanceIff | src/server.js:2716-2739 | a request is accepted exactly when it is well formed, made by the owner and within the view |
| MaterialLedger.StockCheckSoundIffUnambiguous | src/server.js:2653-2735 | on every ledger without overdrafts, accepted withdrawals, moves and move-alls keep every slot covered, if and only if joined keys stand for their fields |
| MaterialLedger.MoveAllWrites | src/server.js:2711-2712 | the loop over the user's rows writes the specified withdrawals and contributions |
| MaterialLedger.Ledger.Contribute | src/server.js:2683-2690 | appends one contribution and raises one slot |
| MaterialLedger.Ledger.WithdrawOrMove | src/server.js:2716-2739 | answers and writes as DecisionMeaning tells on the replayed stock; refused requests change nothing, accepted ones shift source and destination |
| MaterialLedger.Ledger.MoveEverything | src/server.js:2705-2715 | the appended rows and their number, and the new view of every slot, with holdings kept |
| MaterialLegacy.DrainsAreMet | src/server.js:2711-2712 | the withdrawals of a move-all are met one after the other, each leaving the rows still to come as they were |
| MaterialLegacy.AcceptedStaysMet | src/server.js:2705-2739 | on a ledger that still holds old withdrawals, an accepted request leaves every withdrawal met |
| MaterialLegacy.AcceptedShiftsClasses | src/server.js:2705-2739 | and shifts the total of every material, band and location by exactly what was written there |
| MaterialTransactions.ContributedPermutation | src/server.js:2648 | sums over contributions do not depend on their order |
| MaterialTransactions.WithdrawnPermutation | src/server.js:2649 | sums over withdrawals do not depend on their order |
| MaterialTransactions.StepKeepsInv | src/server.js:2646-2739 | every lock, read, write, commit, abort and unlocked contribution keeps the overdraft invariant |
| MaterialTransactions.NeverOverdrawn | src/server.js:2646-2739 | in every interleaving, in each state whose keys stand for their fields, each slot shows contributed minus withdrawn, never below zero |
| MaterialTransactions.PlainRunUnambiguous | src/server.js:2653-2739 | when every contribution comes with a name without the separator, keys stand for their fields in every state of a run |
| MaterialTransactions.CommitEffect | src/server.js:2710-2737 | a commit shifts the view by what it wrote, although it was decided on older reads |
| MaterialTransactions.LoneRequestCommits | src/server.js:2722-2737 | when nobody else is at work, an accepted request goes through all its steps and appends what was decided |
| MissionProgress.DerivedStatusMeaning | src/server.js:2291-2311 | completed: some active task and all at 100 percent; in progress: not completed and some active task above zero |
| MissionProgress.CompletedIffAverageIs100 | src/server.js:2275-2311 | with active tasks, completed exactly when the unrounded average percentage is 100 |
| MissionProgress.StatusMatchesProgress | src/server.js:2262-2273 | a stored active task is completed exactly at 100 percent and open exactly at zero |
| MissionProgress.ProgressIsShare | src/server.js:2262-2273 | a task's percentage is its share of the target up to 100, and for a checklist all or nothing |
| MissionProgress.EditConsistent | src/server.js:2515-2621 | toggles, edits and contributions keep the sum within the target and the status column right, and lose no contribution |
| MissionTransactions.StepKeepsInv | src/server.js:2289-2634 | every step of every handler keeps the caches equal to their derivations |
| MissionTransactions.MissionRowIsDerived | src/server.js:2289-2317 | in every interleaving a non-cancelled mission's committed status is the derived one, with completed_at set exactly when completed |
| MissionTransactions.ItemTasksWithinTarget | src/server.js:2540-2621 | in every interleaving each item task's sum stays within its target and its status is open, in progress or completed by where the sum stands |
| MissionTransactions.ContributionsKept | src/server.js:2600-2621 | no committed contribution is lost |
| MissionTransactions.OneNoticePerCompletion | src/server.js:2314-2320 | completion notices are committed once per committed transition into completed |
| MissionBoard.Board.RecalculateMissionStatus | src/server.js:2289-2316 | the new mission row is the specified recalculation, and completedNow tells a fresh completion |
| MissionBoard.Board.PatchTask | src/server.js:2510-2634 | after each kind of request the task that the request asks for, done exactly under the handler's guards; the mission recalculated; refused requests change nothing |
| MissionBoard.Board.CreateTask | src/server.js:2487-2506 | the new task at the end of the list and the recalculated mission |
| MissionBoard.EditMeaning | src/server.js:2510-2621 | which requests are allowed, and the task after each: a toggle stores the requested status and its stamp, a new target keeps the contributions, a contribution is added to them, other edits leave both |
| MissionBoard.RecalculateMeaning | src/server.js:2291-2311 | the mission's status and stamp after a recalculation, told by its tasks |
| MissionBoard.PatchIsRun | src/server.js:2510-2634 | the lone edit is a run of the protocol's steps |
| MissionBoard.CreateIsRun | src/server.js:2487-2506 | the lone creation is a run of the protocol's steps |
| PresenceHistory.HistoryIsChanges | src/telemetry-management.js:32-49 | the stored history is the accepted log without consecutive duplicates |
| PresenceHistory.AppendFaithful | src/telemetry-management.js:32-49 | one more accepted snapshot keeps every lookup by revision right and neighbours different |
| PresenceHistory.SuffixFaithful | src/telemetry-management.js:197-217 | dropping the oldest rows, or all, keeps the history faithful |
| PresenceHistory.RetainedIsSuffix | src/telemetry-history-cleanup.js:7-22 | oldest-first deletion in (received_at, id) order leaves a suffix of each device's history |
| PresenceHistory.CleanupFaithful | src/telemetry-history-cleanup.js:7-22 | oldest-first clean-up keeps the history faithful |
| PresenceProtocol.StepKeepsInv | src/telemetry-presence.js:141-212 | every step of updates, revocation, deactivation, reactivation, pairing, deletion and clean-up keeps the invariant |
| PresenceRuns.ShownPresenceIsLive | src/telemetry-presence.js:141-212 | in every run a committed presence row has an unrevoked device, an active owner and the revision of the high-water mark |
| PresenceRuns.MarkNeverFalls | src/telemetry-presence.js:182-186 | the mark never falls, the accepted log only grows, and a revoked device is never accepted again |
| PresenceRuns.RevisionsAcceptedOnce | src/telemetry-presence.js:159-186 | each revision is accepted at most once, in rising order, and the newest is the mark |
| PresenceRuns.RetainedHistoryIsFaithful | src/telemetry-management.js:32-49 | in every run adjacent history rows differ, and the last row not newer than an accepted revision gives its fields |
| PresenceRuns.NoRevisionConflict | src/telemetry-management.js:47 | the insert's conflict clause never applies |
| PresenceRuns.HistoryIsAcceptedChanges | src/telemetry-management.js:32-49 | as long as nothing is deleted, the history is exactly the accepted log without consecutive duplicates |
| PresenceRuns.CommitIsHandle | src/telemetry-presence.js:182-212 | the committed effect of an accepted transaction is that of one request handled alone |
| PresenceRuns.LonePutCommits | src/telemetry-presence.js:141-212 | when nobody else is at work, a live device's request above its mark goes through all its steps |
| PresenceRuns.LoneRevokeCommits | src/telemetry-management.js:135-158 | a lone revocation marks its device, removes its presence row and changes nothing else |
| PresenceRuns.LoneDeactivateCommits | src/server.js:2976-2982 | after a lone deactivation the account is inactive and exactly its devices have lost their presence rows |
| PresenceRuns.OnlyRecordHighsMatter | src/telemetry-presence.js:159-212 | duplicated, delayed and reordered requests end where the record-high requests alone end |
| PresenceRuns.RetryIsRecognised | src/telemetry-presence.js:166-180 | a retry of an accepted request is recognised and changes nothing until a higher revision is accepted |
| PresenceStretches.StretchIsHandled | src/telemetry-presence.js:141-212 | on any stretch of a run without a deletion that hits the device, its mark, presence row and history come from the requests committed for it, handled in commit order, and these are their own record highs |
| PresenceStretches.ShownWasAccepted | src/telemetry-presence.js:182-212 | in every run a committed presence row shows the snapshot that was accepted under its revision |
| PresenceStretches.RepeatOnlyOfAccepted | src/telemetry-presence.js:166-180 | a request is answered as repeated only for the snapshot that was accepted under its revision |
| PresenceStretches.OnlyOwnDeactivationDisturbs | src/server.js:2976-2982 | only the deactivation of its own account removes a device's presence row |
| PresenceHandler.RowsOfWithout | src/telemetry-management.js:197-217 | a deletion empties the histories of its devices and leaves the others as they were |
| PresenceHandler.PresenceTables.InsertAcceptedPresenceHistory | src/telemetry-management.js:32-49 | inserts unless the device's newest row has the same four fields; other devices' rows stay |
| PresenceHandler.PresenceTables.PutPresence | src/telemetry-presence.js:141-212 | accepted exactly above the mark, stale below it, repeated at the mark with a stored row of the same snapshot, conflict at the mark otherwise; the new rows of each branch, and other devices as they were |
| PresenceHandler.PresenceTables.Revoke | src/telemetry-management.js:135-158 | a stranger's request is not found and changes nothing; otherwise the device is refused from then on, loses its presence row, and keeps mark and history |
| PresenceHandler.PresenceTables.DeleteHistory | src/telemetry-management.js:197-217 | exactly the account's devices lose their history, and the count is the number of removed rows |
| HistoryPaging.PageIsStretch | src/telemetry-management.js:160-195 | a page is the stretch of the ordered table that starts at the first row below the cursor, and next_cursor is null exactly at the end |
| HistoryPaging.ListIsOrdered | src/telemetry-management.js:160-195 | whatever changes between pages, the collected list is strictly descending by (received_at, id), so nothing repeats |
| HistoryPaging.NewestFirst | src/telemetry-management.js:160-195 | of two entries in the list the later one was received earlier, or at the same time under a smaller id |
| HistoryPaging.LastingRowsExactlyOnce | src/telemetry-management.js:160-195 | once the last page came, each row present throughout is listed exactly once |
| HistoryPaging.ListedRowsExisted | src/telemetry-management.js:160-195 | every listed row stood in the table at one of the requests |
| HistoryPaging.QuietTableIsListed | src/telemetry-management.js:160-195 | on an unchanged table following the cursors ends within as many requests as there are rows and lists exactly the table |
| HistoryListing.CollectedWasAccepted | src/telemetry-management.js:160-195 | over any run of the presence protocol, every entry the client collects shows a snapshot accepted for its device |
| HistoryListing.VisibleThroughoutCollectedOnce | src/telemetry-management.js:160-195 | a history row visible at every request is collected exactly once |
| HistoryGrouping.CollectRun | public/js/telemetry-history-view.js:13-22 | the inner loop takes a run that cannot be longer, with the entry after it |
| HistoryGrouping.GroupTelemetryHistory | public/js/telemetry-history-view.js:12-26 | the groups flatten back to the entries and are cut exactly where device, day or one of the four texts changes, absent and empty being the same |
| HistoryGrouping.MaximalRunsIff | public/js/telemetry-history-view.js:3-26 | groups are maximal runs exactly when they are so cut |
| HistoryGrouping.GroupingIsUnique | public/js/telemetry-history-view.js:12-26 | only one grouping into maximal runs exists |
| PairingProtocol.StepKeepsInv | src/server.js:1511-1661 | every step of creation, claim, deactivation, reactivation, clean-up and abort keeps the invariant |
| PairingRuns.OneUnusedCodePerAccount | src/server.js:1515-1543 | in every run an account has at most one code neither consumed nor invalidated |
| PairingRuns.ConsumedOrInvalidated | src/server.js:1615-1647 | a code is never both consumed and invalidated, and is consumed only before it expires |
| PairingRuns.UsedCodeIsSealed | src/server.js:40-62 | consumption and invalidation are never undone: the row stays as it is until it is deleted, and does not come back |
| PairingRuns.OneDevicePerCode | src/server.js:1625-1647 | each code yields at most one device |
| PairingRuns.DeviceOnlyForActiveOwner | src/server.js:1599-1648 | a device appears only by consuming an unused, unexpired code of an account that is active before and after |
| PairingRuns.ConsumingNeverMisses | src/server.js:1641-1647 | the guarded update always finds the row as it was read, so the "pairing state changed" failure cannot happen |
| PairingRuns.DeactivationClosesPairing | src/server.js:2976-2982 | when a deactivation commits, the account has no unused code and no claim about to commit |
| PairingRuns.CodeRowsChange | src/server.js:40-62 | in every run a code row appears by a creation, ten minutes good and in place of the account's others, disappears thirty days after its use or expiry, and is stamped once in between |
| PairingRuns.TenMinutes | src/server.js:1532-1536 | no code is ever good for more than ten minutes from now |
| PairingRuns.LoneClaimPairs | src/server.js:1599-1648 | when nobody else is at work, an active account's unused and unexpired code pairs one device |
| PairingRuns.LoneClaimInvalidates | src/server.js:1599-1640 | the code of an account that is no longer active is invalidated instead |
| PairingRuns.LoneCreateDraws | src/server.js:1511-1543 | and an active account gets a new code in place of the one it had |
| PairingRuns.LoneDeactivateSweeps | src/server.js:2976-2982 | after a lone deactivation exactly the account's unused codes are invalidated |
| PairingCode.CharOfIsAlphabet | src/telemetry-pairing.js:3 | the arithmetic form of the digits is the alphabet string |
| PairingCode.PackByte | src/telemetry-pairing.js:11-13 | reading a byte keeps value(encoded) times 2^bits plus buffer equal to the value of the bytes read |
| PairingCode.PackDigit | src/telemetry-pairing.js:14-18 | so does writing a character |
| PairingCode.EncodePairingCode | src/telemetry-pairing.js:6-21 | the loops write the sixteen base-32 digits of the number that the ten bytes spell; any other length is refused |
| PairingCode.DecodeUndoesEncode | src/telemetry-pairing.js:6-21 | ten bytes come back from their code, which is canonical, so encoding is injective |
| PairingCode.EncodeUndoesDecode | src/telemetry-pairing.js:6-21 | every canonical code is the code of ten bytes |
| PairingCode.FormatPairingCode | src/telemetry-pairing.js:23-26 | nineteen characters with a dash in every fifth place; anything but a canonical code is refused |
| PairingCode.NormalizeIffSpells | src/telemetry-pairing.js:30-34 | reading succeeds with a code on exactly its spellings: separators anywhere, either case, nothing else |
| PairingCode.ShownCodeReadsBack | src/telemetry-pairing.js:6-34 | the shown code of ten bytes reads back to them |
| WindowsArguments.QuoteWindowsArgument | telemetry/cmd/verselink-telemetry-tray/autostart.go:81-110 | the loop with its backslash counter prints the specified quoting |
| WindowsArguments.QuotedOnlyIfNeeded | telemetry/cmd/verselink-telemetry-tray/autostart.go:81-88 | a string stays as it is exactly when it is not empty and holds no space, tab, newline, vertical tab or quote; otherwise quotes stand around it |
| WindowsArguments.ReadQuoted | telemetry/cmd/verselink-telemetry-tray/autostart.go:81-110 | one quoted argument followed by a blank or the end is read back, for every string |
| WindowsArguments.SplitUndoesQuoting | telemetry/cmd/verselink-telemetry-tray/autostart.go:81-110 | splitting the space-joined quoted strings returns them, for every list and both runtime readings of a doubled quote |
| WindowsArguments.CommandSplits | telemetry/cmd/verselink-telemetry-tray/autostart.go:32-34 | command() parses to the executable and --autostart |
| WindowsArguments.CommandStartsIffReliable | telemetry/cmd/verselink-telemetry-tray/autostart.go:32-34 | under the program-name rules it does so exactly for reliable paths |
| WindowsArguments.UnreliablePathExample | telemetry/cmd/verselink-telemetry-tray/autostart.go:81-110 | a remark on the printer: a text that needs quotes and ends in a backslash, which no executable's path does, comes back with that backslash doubled |
| WindowsArguments.AutostartManager.Enable | telemetry/cmd/verselink-telemetry-tray/autostart.go:50-63 | writes only where nothing was stored, reports a conflict exactly for a stale value, and ends enabled when it succeeds |
| WindowsArguments.AutostartManager.Repair | telemetry/cmd/verselink-telemetry-tray/autostart.go:67-69 | ends enabled whatever was stored, or changes nothing |
| WindowsArguments.AutostartManager.Disable | telemetry/cmd/verselink-telemetry-tray/autostart.go:73-79 | ends disabled, or changes nothing |
| WindowsArguments.EnabledStartsInAutostart | telemetry/cmd/verselink-telemetry-tray/autostart.go:36-48 | an enabled value starts the program in autostart mode exactly for reliable paths |
| RateLimit.RequestRateLimiter.Cleanup | src/rate-limit.js:43-46 | keeps exactly the entries and the overflow bucket that have not expired |
| RateLimit.RequestRateLimiter.Allow | src/rate-limit.js:48-53 | answers for the key itself, or "unknown" without one, what consume would answer before and after its clean-up, and counts nothing |
| RateLimit.RequestRateLimiter.EarliestReset | src/rate-limit.js:59-60 | the loop finds the smallest reset time |
| RateLimit.RequestRateLimiter.Consume | src/rate-limit.js:54-84 | a key is counted under itself and the empty one under "unknown"; every other running key keeps its entry; the whole verdict and the overflow bucket |
| RateLimit.ConsumedMeaning | src/rate-limit.js:54-84 | the verdict and the new entries of one request, told by the key that the client is counted under |
| RateLimit.CreateRequestRateLimiter | src/rate-limit.js:37-42 | refuses exactly the invalid configurations |
| RateLimit.RetryHintIsExact | src/rate-limit.js:58-82 | after a rejection, per key or for capacity, a wait of whole seconds without other requests is enough exactly when it reaches retryAfter |
| RateLimit.KeysBounded | src/rate-limit.js:54-75 | no run holds more than maxEntries keys, and every count stays within the limit |
| RateLimit.RemainingIsExact | src/rate-limit.js:76-82 | as many of a client's next requests pass as remaining says, while the window runs, and no more |
| RateLimit.LimitPerWindow | src/rate-limit.js:71-77 | the window that a request opens for its client's key admits at most the limit |
| RateLimit.BelowTwiceTheLimit | src/rate-limit.js:37-84 | in any run with non-decreasing times any half-open interval of the window's length admits less than twice the limit |
| RateLimit.LimitPerIntervalIff | src/rate-limit.js:37-84 | however requests go on, a key gets at most its limit in the next window length exactly when it has no running window, or has used it up, or keeps it to the end |
| RateLimit.BoundIsReached | src/rate-limit.js:37-84 | every configuration has, for every client, a run of twice the limit of requests with all but one admitted in one interval |
| AuthInFlight.TotalIsOpen | src/telemetry-auth-inflight.js:14-15 | the per-peer counts add up to the number of unreleased tokens |
| AuthInFlight.AcquireKept | src/telemetry-auth-inflight.js:17-25 | an allowed acquire keeps counts exact and all three limits |
| AuthInFlight.ReleaseKept | src/telemetry-auth-inflight.js:27-34 | a release finds its peer's entry and keeps counts exact, with no zero entry |
| AuthInFlight.CreateLimiter | src/telemetry-auth-inflight.js:5-12 | refuses exactly limits that are not positive |
| AuthInFlight.InFlightLimiter.TryAcquire | src/telemetry-auth-inflight.js:17-35 | succeeds exactly within the three limits of the peer, a nameless one being "unknown"; one more is counted for it and as many as before for others; a refusal changes nothing |
| AuthInFlight.InFlightLimiter.Release | src/telemetry-auth-inflight.js:27-34 | counts one less for the token's peer, once; the fallback for a missing entry is never taken; repeated releases change nothing |
| AuthInFlight.InFlightLimiter.Run | src/telemetry-auth-inflight.js:38-46 | admitted exactly when an acquire is, and leaves every count as it was |
| AuthInFlight.InFlightLimiter.Snapshot | src/telemetry-auth-inflight.js:47-49 | activeTotal is the sum over peers and the number of unreleased tokens, and no smaller than the number of peers |
| AuthInFlight.InFlightLimiter.AllReleased | src/telemetry-auth-inflight.js:27-34 | once every token is released the map is empty |
| InventoryEvents.InventoryStore.ApplyTransaction | src/server.js:1297-1327 | an admissible event to the backpack raises inventory and backpack by its quantity and lowers the station, not below zero; one to the station does the reverse; other rows stay; anything else fails |
| InventoryEvents.AppliedMeaning | src/server.js:1297-1327 | an event is applied exactly when it is well formed and no column overflows, and then moves its quantity in its direction |
| InventoryEvents.InventoryStore.Handle | src/server.js:1806-1817 | repeated events are acknowledged without effect and failing ones rolled back |
| InventoryEvents.InventoryIsClampedBalance | src/server.js:1312-1324 | in every run inventory and synchronised backpack agree, and both are the quantities taken less those brought back, above the lowest value of that so far; the station mirrors it |
| InventoryEvents.EachEventLoggedOnce | src/server.js:1325 | every seen event is logged once and is valid |
| InventoryEvents.RedeliveryChangesNothing | src/server.js:1806-1811 | seen events may come again in any order and number without effect |
| InventoryEvents.LogRebuildsTables | src/server.js:1297-1327 | replaying the log rebuilds every table |
| PatchReset.MergeRow | src/server.js:2018 | one pass of the accumulation merges a row into its item's group |
| PatchReset.MergeRows | src/server.js:2016-2018 | the map holds every item's merged rows, in order of first appearance |
| PatchReset.Inventory.HomeRow | src/server.js:2020 | the inserted row, or the failure when the note is too long or a number does not fit |
| PatchReset.CountItems | src/server.js:2010 | the recorded numbers of items, quantities and locations |
| PatchReset.Inventory.Reset | src/server.js:2005-2025 | the whole new table, the recorded event, and the rollback, with the exact condition of success |
| PatchReset.OneRowPerItem | src/server.js:2018-2020 | one row per item at home with the summed quantity and the smaller of summed trade and summed quantity |
| PatchReset.QuantityPerItemKept | src/server.js:2018-2020 | every item keeps its total quantity |
| PatchReset.CountsKept | src/server.js:2010-2021 | the recorded unique and total counts are those of the table before and after |
| PatchReset.ResetLeavesOneLocation | src/server.js:2022 | after a reset everything is at one location |
| PatchReset.SecondResetChangesNothing | src/server.js:2010-2023 | a second reset to the same place succeeds and reproduces the same rows |
| PatchReset.ResetRowsValid | src/server.js:2020 | the new rows pass the table's checks |
| PatchReset.ItemOrderKept | src/server.js:2016 | rows read in item order are written in item order |
| PatchMeaning.ResetMeaning | src/server.js:2016-2020 | one row for each item, in the order of first appearance, with its sums, its largest target, its distinct notes in order, and status, favorite and share flag as its rows give them |
| PatchMeaning.ResettableIff | src/server.js:2010-2020 | a reset fits exactly when the sums stay within 32 bits and no joined note is longer than 500 characters |
| PatchMeaning.TrimIsInner | src/server.js:2018 | a note's words are the text without the white space around it |
| PatchMeaning.JoinConcat | src/server.js:2020 | notes are joined with a bar between |
| PatchMeaning.CountsMeaning | src/server.js:2010 | the counts are those of the distinct items and locations |

## Left out

Abstractions of the model:

- Numbers: SCU quantities, percentages and timestamps of the rate limiter are exact reals; the rounding of
  JavaScript's `Number`, of SQL `numeric` division and of the two-decimal display is not modelled, so
  nothing is said about a displayed 100. Integer column overflow is modelled where the code can meet it.
- Text: lower-casing covers ASCII letters only; strings are sequences of characters, so invalid UTF-8 in
  the Go program and unpaired surrogates are not modelled, and string lengths count characters.
- Randomness: newly drawn pairing codes never repeat an earlier one, so the retry loop on a hash
  collision is one step. Hashes, HMAC, AES and the encoding of cursors are left out.
- Time: clocks do not run backwards. Presence rows get strictly increasing times.
- Transactions: a deadlock is an abort; `SKIP LOCKED` is not modelled, so clean-up takes the oldest rows
  without gaps. The row locks that history deletion takes on devices are not needed for the results
  and are omitted.
- Each state machine holds one group (materials) or one mission; handlers of other groups or missions touch
  other rows.
- MaterialTransactions.NeverOverdrawn: a state with clashing keys is left out, because the claim is false
  there; MaterialLedger.StockCheckSoundIffUnambiguous has the exact condition. Ledgers with old
  withdrawals are left out of the interleavings, because reordered contributions move what those take
  from one row to another; MaterialLegacy covers them request by request.
- MaterialLedger.AcceptanceIff: group membership and the formats of identifiers are checked before the
  lock and are not modelled.
- MaterialReplay.MaterialInventoryNetRows: the collected notes of a row and the joined player name are not
  modelled.
- MissionTransactions.MissionRowIsDerived: runs start with a fresh mission or one that agrees with its
  tasks. Cancelled missions and tasks are modelled as found; no handler cancels or deletes one.
- MissionBoard.Board.PatchTask: permissions, the validation of titles and assignees, and assignment
  notifications are not modelled.
- MissionBoard.Board.CreateTask: permissions, validation and the assignment notification are not modelled.
- HistoryPaging.PageIsStretch: the refusal of malformed limits and cursors is not modelled.
- PresenceHandler.PresenceTables.PutPresence: the validation of the request body is not modelled; requests
  arrive as projected snapshots, and the several credential errors are one.
- AuthInFlight.InFlightLimiter.Run: the asynchronous operation, and what other callers do meanwhile, are not
  part of it.
- InventoryEvents.InventoryStore.ApplyTransaction: trimming and upper-casing of the payload's texts and the
  upserts of item and location names are not modelled; a clash of station names is a delivery that is
  interrupted.
- PatchReset.Inventory.Reset: one user's rows in the order the query reads them; whether the home location
  exists is a parameter.

Not modelled at all:

- HTTP routing, sessions, body parsing, SQL text, pools, and everything fetched from Discord, UEX, the wiki or RSI.
- Order delivery reporting: it reads the order before its transaction, so only a sequential claim holds.
- Clearing the material inventory: its statements do not share one connection, so it is not atomic.
- Hard deletion of an account with its cascades, group ownership, invites, mining pools and admin endpoints.
- Trade routes, reference matching, companion and tray dialogs, page markup and logging.
- The failure limiter in `src/rate-limit.js:1-35`, device-name trimming and the surrogate check in
  `src/telemetry-pairing.js:42-60`, and the already-running flag of the clean-up runner.
