# DohFlow, verified

A Dafny model of the parts of DohFlow whose correctness rests on several operations together: the base
image protocol, the durable job table, the state that is derived from canonical tables, and the codecs
and identifiers everything else is stored under.

`dafny verify dfyconfig.toml` checks the whole project with Dafny 4.11.

## How it is laid out

| file | models |
|---|---|
| `BaseImage.dfy` | the capture, reconcile and restore steps over the `sync_base` row and the file `base.db`, as a state machine in which any step fails, the process dies at any point and commands land between steps |
| `BaseImageSafety.dfy`, `BaseImageProgress.dfy`, `BaseImageOutbox.dfy`, `BaseImageReopen.dfy` | what every run keeps: what a Ready base is, how it is replaced, which commands are still to be pushed, and what opening the vault makes of it |
| `BaseImageStore.dfy` | the code of the phases over mutable fields; each method performs exactly the atomic steps of `BaseImage` that run under its lock |
| `Jobs.dfy`, `JobEffects.dfy` | every UPDATE of `durable_jobs` with its WHERE guard, what all runs of them keep, and what each leaves in its row |
| `JobStore.dfy` | the same statements over a mutable table, and the runner's terminal write |
| `OneOffMatcher.dfy` | the matcher that links planned one-off entries to transactions |
| `Overrides.dfy` | how base and scenario events compose into an amount, an anchor and an exclusion |
| `Projection.dfy`, `LedgerBalance.dfy`, `LedgerExample.dfy` | the commands that write the ledger, and the transaction-display read model: incremental and rebuild |
| `Aliases.dfy`, `Grouping.dfy`, `GroupingExactly.dfy`, `Memory.dfy` | alias index, brand anchors and their planner, merchant memory |
| `Recurring.dfy`, `RecurringExactly.dfy`, `SpendClassifier.dfy`, `SpendOverflow.dfy` | recurring-charge detection, extraordinary spend, and what the latter makes of amounts that overflow |
| `Json.dfy`, `JsonEscapes.dfy`, `DatesAndIds.dfy`, `Params.dfy`, `Snapshots.dfy` | the hand-built JSON, a reader for it, assumption parameters, the hashed forecast inputs |
| `Bits.dfy`, `Crockford.dfy`, `DerivedIds.dfy`, `IssuedAt.dfy`, `ClockYears.dfy` | display codes, derived identifiers, the command clock |
| `CivilDate.dfy`, `Money.dfy` | the build stamp's calendar, integer division of money |
| `Common.dfy`, `Integers.dfy`, `Ordering.dfy`, `Text.dfy` | shared vocabulary: options, 64-bit integers, sorting and counting, white space and words |

SHA-256 is a free constructor, so two contents never share a digest. HMAC is any function. A database
transaction commits or does not, as a whole. The outcome of every file or database call is a parameter
of the step that makes it, so every result holds for every pattern of failures.

## Where the code does less than its documentation says

- Sync is turned on by the first initialize. A command that lands between its copy and its commit is in
  neither the image nor the outbox: `record_pending` writes a row only while a base row exists
  (crates/db-worker/src/sync_state.rs:43-60). `BaseImageOutbox.CommandMissedByTheFirstCapture` is such a run;
  `BaseImageOutbox.LostToTheServerExactly` says exactly which commands are lost in this way.
- A base that cannot be read while phase 0 vouches for it counts as no base, so an initialize may replace
  a Ready base by one of a smaller sequence number. `BaseImageOutbox.UnreadableBaseIsReplaced` is such a run,
  and `BaseImageProgress.SmallerBaseExactly` the exact condition for one capture. In every run the number falls,
  other than by a restore, exactly where an initialize asked for less commits: `BaseImageProgress.SeqFallsExactly`.
- `decode_crockford` accepts 27 symbols as well as the documented 26, and ignores the last symbol and the
  padding bits: `Crockford.DecodesExactly`, `Crockford.DecodesToTheFirstBits`, `Crockford.ExtraSymbolIsIgnored`.
- The median of `spend_classifier.rs` adds its two middles with a plain `+`. When they sum past the largest
  64-bit integer a debug build panics and a release build wraps, and more than half of a category's own postings
  may become extraordinary: `SpendOverflow.FourLargePostings`. `SpendClassifier.ProfileFitsExactly` says when
  nothing overflows, `SpendOverflow.HalfAtMostExtraordinaryExactly` when a release build still flags at most half.
- Ids of two commands of one millisecond do not keep the commands' order:
  `DerivedIdentifiers.SameMillisecondStartsOver`, with `DerivedIdentifiers.LaterCommandCanMintLower` as an instance.
- `IssuedAt::now` returns a value twice once it has reached the largest 64-bit integer, and only then:
  `IssuedAtClock.IssuedAreDistinctUntilTheEnd`, with `IssuedAtClock.TheEndIsIssuedTwice` as a run that does.
- A committed run is recorded as cancelled if its handler says so after committing, and may be if the runner
  fails to read the commit marker: `JobStores.CommittedRunCancelledExactly`, with
  `JobStores.FailedReadsCancelACommit` as a run that nobody asked to cancel.
- The build stamp has a year of more than four digits from the year 10000 on: `CivilDate.FourDigitYears`.

## Model

| member | source | states |
|---|---|---|
| BaseImageSafety.Invariant | crates/db-worker/src/base_image.rs:348-503 | in every run of captures, commands, pushes, failures, crashes, reopens, restores and overwritten files, every digest in a row or a backup is that of an image taken for that row's sequence number |
| BaseImageSafety.ReadyIsAnInstant | crates/db-worker/src/base_image.rs:376-487 | a Ready base is the stripped copy of the committed vault at one instant when the outbox was empty, taken by a capture given its sequence number; no unpushed command is in it and the live history continues it |
| BaseImageProgress.FailedCapturesKeepOrLose | crates/db-worker/src/base_image.rs:435-495 | until a capture commits, whatever is tried, fails or dies, the status is that of the old pair or there is no base |
| BaseImageProgress.CopyNeverMatchesItsRow | crates/db-worker/src/base_image.rs:457-461 | a copy contains the row it was taken under, so it cannot hash to the digest in that row: the half-done replacement reads as no base |
| BaseImageProgress.SeqFallsExactly | crates/db-worker/src/base_image.rs:389-407 | in every run a step other than a restore lowers the recorded sequence number exactly when it commits an initialize asked for less |
| BaseImageProgress.SeqNeverFalls | crates/db-worker/src/base_image.rs:389-407 | through any number of captures, failed and committed, the recorded sequence number never falls without a restore or a committing initialize asked for less |
| BaseImageProgress.SeqNeverFallsUntilLost | crates/db-worker/src/base_image.rs:389-407 | from a Ready base on there is no such initialize, and the number never falls, while every state is Ready or inside a capture's own rename and commit, given that since some moment without a capture in flight no step brought a lost base back or hid a live one |
| BaseImageProgress.SmallerBaseExactly | crates/db-worker/src/base_image.rs:364-407 | a capture that begins over Ready{s} and commits is an initialize exactly when phase 0 could not read the file, and its sequence number is below s exactly when it is such an initialize asked for less |
| BaseImageOutbox.UnreadableBaseIsReplaced | crates/db-worker/src/base_image.rs:370-374 | a concrete run in which an unreadable Ready base of sequence 9 is replaced by one of sequence 3, with the base Ready or being replaced throughout and only the failed read as an excluded step |
| BaseImageOutbox.AdvanceMovesTheBase | crates/db-worker/src/base_image.rs:397-407 | a concrete run in which a Ready base of sequence 3 is replaced by one of sequence 9 with no excluded step |
| BaseImageOutbox.PendingOrPushedIffSyncWasOn | crates/db-worker/src/sync_state.rs:43-60 | a command is pending or has been pushed exactly when a base row existed as it landed |
| BaseImageOutbox.LostToTheServerExactly | crates/db-worker/src/sync_state.rs:43-60 | at a Ready base a command is in neither the image nor the outbox and was never pushed exactly when it is beyond the image and no base row existed as it landed |
| BaseImageOutbox.CommandMissedByTheFirstCapture | crates/db-worker/src/base_image.rs:376-487 | a concrete run of the first initialize after which a command is in neither the image nor the outbox |
| BaseImageStores.BaseImageStore.TakeGate | crates/db-worker/src/base_image.rs:348-358 | a negative sequence number is refused and changes nothing; otherwise the capture begins |
| BaseImageStores.BaseImageStore.VouchForRecorded | crates/db-worker/src/base_image.rs:364-374 | the recorded base is vouched for only by a file that hashes to its digest |
| BaseImageStores.BaseImageStore.CheckAndCopy | crates/db-worker/src/base_image.rs:380-433 | phase 1 has its outcome, each refusal is named exactly, and success leaves a copy of the whole vault with nothing pending |
| BaseImageStores.BaseImageStore.StripAndHash | crates/db-worker/src/base_image.rs:435-455 | phase 2 leaves a stripped copy and its digest, or only what its cleanup leaves |
| BaseImageStores.BaseImageStore.SealCapture | crates/db-worker/src/base_image.rs:457-495 | phase 3 has its outcome: row and file together, or the old row |
| BaseImageStores.CopyPhaseSpelled | crates/db-worker/src/base_image.rs:380-433 | the outcome of phase 1 is that of the three atomic steps check, fold and copy, under every combination of failures |
| BaseImageStores.SealPhaseSpelled | crates/db-worker/src/base_image.rs:457-495 | the outcome of phase 3 is that of the four atomic steps seal, rename, sync and commit, under every combination of failures |
| BaseImageStores.BaseImageStore.BaseImageStatus | crates/db-worker/src/base_image.rs:511-515 | the reported status is that of the durable row and file |
| BaseImageStores.BaseImageStore.OpenVault | crates/db-worker/src/base_image.rs:519-547 | opening performs the reconcile step, whatever part of it fails |
| BaseImageReopen.StatusExactly | crates/db-worker/src/base_image.rs:777-799 | the status is Ready exactly while the row is and the file hashes to its digest, Rebasing and off as recorded, and lost otherwise |
| BaseImageReopen.OpenKeepsAReadableBase | crates/db-worker/src/base_image.rs:519-547 | opening a vault whose base can be vouched for leaves row, file and status as they were, whatever else fails |
| BaseImageReopen.OpenForgetsExactly | crates/db-worker/src/base_image.rs:519-547 | opening records a base as lost exactly when it was, or when its file is missing, unreadable or another one; everything else stays, and a vault without a row has no file |
| BaseImageReopen.FailedOpenKeeps | crates/db-worker/src/base_image.rs:519-547 | where the temp file cannot be removed or the write fails, row and file stay as they were |
| BaseImageReopen.OpenRecordsTheTruth | crates/db-worker/src/base_image.rs:516-547 | in every run, after an open that fails nowhere the recorded state is the status: Ready for a base that is there, NoBase for one that is lost |
| BaseImageReopen.CrashLosesAtMostTheRename | crates/db-worker/src/base_image.rs:457-487 | a crash keeps what is committed and loses at most a rename whose directory was not synced |
| BaseImageReopen.DegradedOnlyReads | crates/db-worker/src/base_image.rs:380-384 | a degraded worker takes no command and lets no capture copy or seal |
| Jobs.RowsOk | crates/db-worker/src/jobs.rs:179-201 | in every run marker and outcome are set together and only on running rows, and no queued, succeeded or failed row carries a cancel request |
| Jobs.MarkerIsTheFirstMark | crates/db-worker/src/jobs.rs:179-201 | a running row carries a marker exactly when it was marked since its latest claim, and then the first mark's instant, outcome and reason |
| Jobs.RunningSinceItsClaim | crates/db-worker/src/jobs.rs:606-623 | a running row has been running since a claim, with none after it |
| Jobs.RecoveryTellsWhatCommitted | crates/db-worker/src/jobs.rs:509-577 | recovery leaves nothing running; a cancel-requested row is cancelled exactly when its run was never marked, and otherwise gets its first mark's outcome, a failure with its own reason |
| Jobs.ClaimedOncePerWindow | crates/db-worker/src/jobs.rs:606-623 | two claims in one unlock window need another window's claim, a reconfiguration or a deletion between them, whatever stale records the claimants hold |
| Jobs.AtMostOneClaimPerWindow | crates/db-worker/src/jobs.rs:606-623 | with windows never reused, a row not reconfigured or deleted is claimed at most once in a window |
| Jobs.AttemptsCountClaims | crates/db-worker/src/jobs.rs:606-665 | the attempt count is the number of claims since the row was new, reconfigured or last succeeded |
| Jobs.TerminalUntilRenewed | crates/db-worker/src/jobs.rs:266-363 | a failed or cancelled row keeps its state, outcome, reason and attempts until it is reconfigured or deleted |
| JobEffects.StatementsFind | crates/db-worker/src/jobs.rs:179-757 | which rows each statement finds, by state, request, attempts, window and marker |
| JobEffects.OthersAreLeftAlone | crates/db-worker/src/jobs.rs:179-757 | a statement changes at most the row it finds; only scheduling and reconfiguring make rows |
| JobEffects.FailureRetriesOrEnds | crates/db-worker/src/jobs.rs:687-720 | a failed run is queued for its retry time if it has one, and has otherwise failed with its due time as it was; attempts, window and configuration stay |
| JobEffects.SuccessIsDueAsScheduled | crates/db-worker/src/jobs.rs:635-685 | a success, late request or not, has the given due time and no attempts |
| JobEffects.SkipKeepsItsDueTime | crates/db-worker/src/jobs.rs:739-757 | a skipped run is queued with its due time and its attempts |
| JobEffects.CancelledKeepsItsRequest | crates/db-worker/src/jobs.rs:722-737 | a cancelled run keeps due time, attempts and request |
| JobEffects.CancelRequestsOrCancels | crates/db-worker/src/jobs.rs:349-363 | a running row keeps running with a request; any other is cancelled |
| JobEffects.ClaimStartsAfresh | crates/db-worker/src/jobs.rs:599-624 | a claim starts the attempt and window it names, with no request and no marker |
| JobEffects.MarkKeepsTheRest | crates/db-worker/src/jobs.rs:179-201 | marking changes neither state, due time, attempts nor request |
| JobEffects.ScheduleSetsWhatItOwns | crates/db-worker/src/jobs.rs:224-264 | scheduling sets configuration and due time, and makes a fresh row where there is none |
| JobEffects.ReconfigureStartsOver | crates/db-worker/src/jobs.rs:266-321 | a reconfigured row is as a fresh one, but for when it last ran |
| JobEffects.RecoveryIsDue | crates/db-worker/src/jobs.rs:509-577 | recovery queues a run without a request for now or when it was due, if before; sets the due time of a success from its cadence; keeps it otherwise |
| JobEffects.RetriedFromItsRetryTime | crates/db-worker/src/jobs.rs:579-720 | after a failure with a retry time the job is claimable exactly from then on, in any window but its last |
| JobEffects.FailedForGood | crates/db-worker/src/jobs.rs:599-720 | after one without, no claim takes it until it is reconfigured or deleted |
| JobEffects.WaitsForItsTurn | crates/db-worker/src/jobs.rs:579-757 | after a success or a skip it is claimable exactly from its due time on, in any window but its last |
| JobEffects.RecoveredRunsAtOnce | crates/db-worker/src/jobs.rs:509-597 | a run requeued by recovery is claimable at once in any window but the one it ran in |
| JobEffects.ClaimableIsClaimed | crates/db-worker/src/jobs.rs:579-624 | what is claimable is claimed by a claimant that holds its attempts |
| JobStores.RecoveryIsThreeStatements | crates/db-worker/src/jobs.rs:509-577 | the per-row loop and the two bulk updates together settle each running row once, and their counts add up to the rows that ran |
| JobStores.JobStore.MarkCommitted | crates/db-worker/src/jobs.rs:179-201 | the first mark of a running row wins; any other row is left alone |
| JobStores.JobStore.ScheduleJob | crates/db-worker/src/jobs.rs:224-264 | scheduling an existing row keeps its state and its attempts |
| JobStores.JobStore.ReconfigureJob | crates/db-worker/src/jobs.rs:266-321 | refused exactly while the job runs; otherwise queued afresh with no window remembered |
| JobStores.JobStore.CancelJob | crates/db-worker/src/jobs.rs:349-363 | a running row gets a request, an idle one is cancelled, a terminal one is left alone |
| JobStores.JobStore.DeleteJob | crates/db-worker/src/jobs.rs:472-480 | deletes exactly rows that do not run |
| JobStores.JobStore.RecoverRunning | crates/db-worker/src/jobs.rs:509-577 | is the recovery step of every row, and counts the rows that were running |
| JobStores.JobStore.DueJobs | crates/db-worker/src/jobs.rs:579-597 | returns exactly the enabled due rows a claim of this window would take, each once, by due time and then id |
| JobStores.JobStore.ClaimJob | crates/db-worker/src/jobs.rs:599-624 | succeeds exactly under its guard, with one more attempt and no marker |
| JobStores.JobStore.FinishSuccess | crates/db-worker/src/jobs.rs:635-660 | applies exactly to a running row without a cancel request |
| JobStores.JobStore.FinishCommitted | crates/db-worker/src/jobs.rs:662-685 | applies to a running row whatever was requested |
| JobStores.JobStore.FinishFailure | crates/db-worker/src/jobs.rs:687-720 | applies exactly under its guard and requeues or fails |
| JobStores.JobStore.FinishCancelled | crates/db-worker/src/jobs.rs:722-737 | cancels a running row and clears its marker |
| JobStores.JobStore.FinishSkipped | crates/db-worker/src/jobs.rs:739-757 | requeues exactly a running row without a cancel request |
| JobStores.RunRecordedCancelledExactly | crates/job-runtime/src/lib.rs:1150-1166 | when the runner records a run as cancelled, whatever the handler returned, whether the token fired, and whether the marker could be read |
| JobStores.CommittedRunCancelledExactly | crates/job-runtime/src/lib.rs:1150-1166 | a committed run ends cancelled exactly when its handler returned Cancelled, or Skipped with a request pending, or the marker could not be read and the token fired over a result other than Committed or a request was pending over Succeeded |
| JobStores.FailedReadsCancelACommit | crates/job-runtime/src/lib.rs:1122-1150 | a concrete run in which a committed success nobody asked to cancel is recorded as cancelled because the store could not be read |
| JobStores.ClaimedRunNeedsCommitted | crates/job-runtime/src/lib.rs:920-937 | without the runner's override a marked run that returns Succeeded is recorded cancelled exactly when a request is pending |
| OneOffMatcher.RebuildLinks | crates/db-worker/src/manual_entry.rs:159-224 | links are one to one, inside the account, amount, currency and window rules, each entry takes the nearest of what is left, and the links are counted |
| OneOffMatcher.LinksFollowTheRules | crates/db-worker/src/manual_entry.rs:159-224 | links join same account, amount and currency at most seven days apart, none of them voided or recurring; each entry has the nearest, on equal days the smallest id, of what no entry before it took |
| OneOffMatcher.Nearest | crates/db-worker/src/manual_entry.rs:159-224 | no unclaimed candidate is nearer than the one chosen, and none is chosen only if there is none |
| OneOffMatcher.NoMatchingBettersAll | crates/db-worker/src/manual_entry.rs:159-224 | any other matching that betters one entry worsens an earlier one: the result is Pareto optimal |
| OneOffMatcher.UnlinkedHasNoFreeCandidate | crates/db-worker/src/manual_entry.rs:159-224 | an unlinked entry has no candidate left over |
| OneOffMatcher.SerialIsUnique | crates/db-worker/src/manual_entry.rs:159-224 | the transactions linked are determined by the rules |
| Overrides.EntityOverrides | crates/db-worker/src/forecast_overrides.rs:106-194 | fails exactly if some selected event is malformed, and otherwise gives every entity the fold of the selected events in precedence order |
| Overrides.BadIsMalformed | crates/db-worker/src/forecast_overrides.rs:157-204 | what makes an event malformed, kind by kind |
| Overrides.TheRestYields | crates/db-worker/src/forecast_overrides.rs:91-104 | whatever else answers yields to the deciding event: base to any scenario, then by first mention in the selection, creation and id |
| Overrides.CompositionIsPrecedence | crates/db-worker/src/forecast_overrides.rs:106-156 | sorting by rank and arrival runs through exactly the selected events by selection rank, creation and id |
| Overrides.OverridesProjectByPrecedence | crates/db-worker/src/forecast_overrides.rs:74-89 | on every date the amount is that of the covering event greatest in precedence, the base amount if none covers, nothing if excluded |
| Overrides.AnchorByPrecedence | crates/db-worker/src/forecast_overrides.rs:61-63 | the anchor is that of the date event greatest in precedence, or the base anchor |
| Overrides.BaseAmountNeverOverridesAScenario | crates/db-worker/src/forecast_overrides.rs:91-104 | a base amount event changes no date that a selected scenario's amount event covers, whenever it was created |
| Projection.RunsAgree | crates/db-worker/src/projection.rs:164-307 | after any interleaving of commands, incremental runs and rebuilds the read model is the projection of the inputs up to the cursor |
| Projection.EntriesShowPostings | crates/db-worker/src/projection.rs:141-201 | after every run each entry shows a posting of its transaction on its account: its amount, currency, time and log sequence, uncategorized and to be reviewed |
| Projection.PostingsAreShown | crates/db-worker/src/projection.rs:164-201 | and each posting on a user account up to the cursor is shown so |
| Projection.ProjectedShowsEverything | crates/db-worker/src/projection.rs:275-307 | right after a projection or a rebuild every posting on a user account is shown |
| Projection.CursorReachesTheEnd | crates/db-worker/src/projection.rs:221-229 | a projection or rebuild leaves the cursor at the last log row |
| LedgerBalance.BooksAlwaysBalance | crates/db-worker/src/lib.rs:5404-5430 | in every run the postings of every transaction add up to nothing |
| LedgerBalance.BookPostsBothLegs | crates/db-worker/src/apply/transactions.rs:52-73 | a transaction posts its amount on one party and the negation on the other, and nothing else |
| LedgerBalance.ReversalCancels | crates/db-worker/src/lib.rs:6248-6286 | a reversal takes back exactly what its original posted, ledger account by ledger account |
| LedgerExample.VaultIsShown | crates/db-worker/src/projection.rs:275-307 | a concrete vault: an opening balance of 999 and its reversal are shown as 999 and -999 |
| Projection.CommandAgrees | crates/db-worker/src/lib.rs:6210-6286 | a command of any account creations, system accounts, transactions and reversals leaves the projection up to the cursor as it is: all it adds comes after the cursor |
| Projection.NeverPostsTwice | crates/db-worker/src/lib.rs:6137-6173 | no transaction is joined twice to one user account: its legs are on different ledger accounts, each with one owner |
| Projection.IncrementalIsRebuild | crates/db-worker/src/projection.rs:278-307 | after every run, one more incremental run gives exactly the rows and the cursor a full rebuild gives |
| Projection.IncrementalSucceedsIffRebuildDoes | crates/db-worker/src/projection.rs:164-201 | after every run the stored values an incremental run reads parse exactly when those a full rebuild reads do |
| Projection.NewAccountAgrees | crates/db-worker/src/projection.rs:168-175 | putting an account over a ledger account keeps the projection exactly when that ledger account has no posting the cursor has passed, which the key of a new ledger account ensures |
| Projection.IncrementalIsIdempotent | crates/db-worker/src/projection.rs:293-307 | an incremental run with nothing new changes nothing |
| Projection.ReadModelStore.Rebuild | crates/db-worker/src/projection.rs:275-288 | is a rebuild, or changes nothing; it fails exactly if a stored value does not parse |
| Projection.ReadModelStore.Incremental | crates/db-worker/src/projection.rs:290-307 | is an incremental projection, or changes nothing; it fails exactly if a stored value after the cursor does not parse |
| Aliases.Load | crates/db-worker/src/merchant_identity.rs:218-250 | the index holds exactly the rows of the table, its prefixes longest first, whatever order the rows came in |
| Aliases.GetAnswersByTheTable | crates/db-worker/src/merchant_identity.rs:254-264 | `get` is the exact alias, or else the one longest prefix alias the key extends at a word boundary |
| Aliases.GetIsAFunctionOfTheTable | crates/db-worker/src/merchant_identity.rs:218-264 | two indexes of one table answer every key alike |
| Aliases.LookupFinds | crates/db-worker/src/merchant_identity.rs:272-289 | `lookup` finds something exactly for keys held or extending a prefix alias |
| Aliases.LookupAnswersByTheTable | crates/db-worker/src/merchant_identity.rs:272-283 | `lookup` is the row of that very key, exact or prefix, or else the one longest prefix alias the key extends at a word boundary |
| Aliases.LookupIsAFunctionOfTheTable | crates/db-worker/src/merchant_identity.rs:218-283 | two indexes of one table look up every key alike |
| Grouping.Peel | crates/categorization/src/merchant_grouping.rs:376-402 | cuts a proper tail of cities, locations and store numbers, never the last token, and says whether it did |
| GroupingExactly.PeelDropsPlaces | crates/categorization/src/merchant_grouping.rs:360-402 | what is dropped are listed cities and then listed locations and numbers of one to three digits; where it stops, none is left to drop but the last token |
| GroupingExactly.AnchorExactly | crates/categorization/src/merchant_grouping.rs:409-436 | a key has an anchor exactly when what is left of it is one distinctive token of six bytes or more, or several of which one is no generic head |
| Grouping.KeyExtendsItsAnchor | crates/categorization/src/merchant_grouping.rs:409-436 | a key that is not its own anchor extends it at a word boundary |
| Grouping.PlanAnchors | crates/db-worker/src/merchant_grouping.rs:35-95 | plans exactly the anchors sighted under two keys or more, valid, and held by no alias, in order without repetition |
| GroupingExactly.PlanExactly | crates/db-worker/src/merchant_grouping.rs:35-95 | by the tables alone: anchors met under two unresolved keys or more, of at most 251 bytes, that are no alias and have a name to show |
| Grouping.ReplanMintsNothing | crates/db-worker/src/merchant_grouping.rs:35-95 | once everything planned is held as a prefix alias, planning again on the same transactions plans nothing |
| Grouping.MintedAnchorResolvesItsKeys | crates/db-worker/src/merchant_identity.rs:254-283 | every key sighted for a minted anchor resolves afterwards |
| Grouping.PlanIsAccepted | crates/db-worker/src/apply/merchant_cmds.rs:55-93 | the plan, cut into commands of at most 5000 anchors, is sent whole and none of the commands is refused; uncut it is accepted exactly when it holds 1 to 5000 |
| GroupingExactly.AcceptedExactly | crates/db-worker/src/apply/merchant_cmds.rs:55-93 | a command is accepted exactly with 1 to 5000 anchors in strict key order, each within its bounds |
| Grouping.ConflictIsSymmetric | crates/categorization/src/merchant_grouping.rs:442-494 | whether two keys conflict does not depend on which is named first |
| Grouping.ConflictNeedsAStem | crates/categorization/src/merchant_grouping.rs:442-494 | conflicting keys share a stem both are or extend at a word boundary, but for the completion of a one-letter last token |
| GroupingExactly.ConflictsExactly | crates/categorization/src/merchant_grouping.rs:438-494 | keys belong to one series exactly when equal, of the same anchor, or one cut off the other |
| Memory.WinnerIsAStrictMajority | crates/db-worker/src/merchant_memory.rs:90-110 | a category at the 60 percent threshold has a strict majority, so no other reaches its count |
| Memory.KeyByTheTable | crates/db-worker/src/merchant_memory.rs:35-45 | a counterparty without text or of an ambiguous identity has no group; an identity groups what its alias resolves, a text none resolves is a group of its own |
| Memory.PlanAssignments | crates/db-worker/src/merchant_memory.rs:52-126 | assigns exactly the open transactions whose merchant has a winner, with its agreement, in order of transaction |
| Memory.PlanExactly | crates/db-worker/src/merchant_memory.rs:52-126 | an assignment is planned exactly for an open transaction of whose group a category has three fifths of the votes, with that share in basis points |
| Memory.PlanIsAFunctionOfTheTables | crates/db-worker/src/merchant_memory.rs:52-126 | the plan does not depend on row order, map order or the order of alias rows |
| Recurring.DetectRecurring | crates/categorization/src/recurring_detection.rs:131-229 | returns exactly the candidates of the merchant and currency groups, each once, by falling confidence, key and currency |
| RecurringExactly.ReturnedExactlyIfRecurring | crates/categorization/src/recurring_detection.rs:131-176 | a merchant and currency has a candidate exactly when it has three observations or more, its lower middle gap lies in a band, and at least half of its gaps do |
| RecurringExactly.ReturnedIsDescribed | crates/categorization/src/recurring_detection.rs:176-222 | it has one candidate, with the lower middle amount, the range, the last date, the band's token, the next date by the band's interval, and the confidence by count, regularity and evenness |
| RecurringExactly.ReturnedInOrder | crates/categorization/src/recurring_detection.rs:223-229 | candidates come by falling confidence, then key, then currency |
| Recurring.OrderDoesNotMatter | crates/categorization/src/recurring_detection.rs:131-229 | permuting the observations changes nothing but display names: not which candidates, their other fields or their order |
| Recurring.DisplayIsOfTheLatest | crates/categorization/src/recurring_detection.rs:203-214 | the display name is that of some observation with the latest date and, on it, the largest amount |
| Recurring.CandidateIsRegular | crates/categorization/src/recurring_detection.rs:157-201 | at least half of the gaps are in the cadence's band, and the confidence is between 625 and 10000 |
| Recurring.CandidateHoldsItsCharges | crates/categorization/src/recurring_detection.rs:203-222 | the range holds every amount and the last date is the latest |
| Recurring.CandidateIsDueNext | crates/categorization/src/recurring_detection.rs:203-244 | the next date is the first one by whole intervals, one or more, after the last charge that is not before today |
| Recurring.EveryCandidateIsRegular | crates/categorization/src/recurring_detection.rs:131-244 | every candidate returned counts its group, three observations or more with at least half of their gaps in its cadence's band, with a confidence between 625 and 10000 and the first due date that is not before today |
| Recurring.EveryCandidateHoldsItsGroup | crates/categorization/src/recurring_detection.rs:131-222 | every observation of a returned candidate's merchant and currency lies in its range and is no later than its last date, which one of them has |
| Recurring.MedianSplits | crates/categorization/src/recurring_detection.rs:122-124 | fewer than half of the values are below the median and at least half at or below it |
| Recurring.CadenceIsTheOnlyOne | crates/categorization/src/recurring_detection.rs:85-118 | the bands do not overlap: a gap finds a cadence exactly if it is in its band |
| SpendClassifier.MedianInPlace | crates/categorization/src/spend_classifier.rs:165-177 | sorts the slice and returns its median, in the arithmetic of the build: a sum of the middles that leaves 64 bits panics or wraps |
| SpendClassifier.ProfileFitsExactly | crates/categorization/src/spend_classifier.rs:97-104 | a profile of magnitudes comes about without overflow exactly when the number of amounts is odd or none, or the two middle ones add up to at most the largest 64-bit integer; then both builds give the same profile |
| SpendClassifier.ClassifyIsMonotone | crates/categorization/src/spend_classifier.rs:117-150 | a larger amount is never less extraordinary; over a profile that did not overflow nor with less confidence, and nothing in it overflows |
| SpendClassifier.ClassifyExactly | crates/categorization/src/spend_classifier.rs:18-150 | the rule in figures: which amounts are extraordinary, recurring, below the floor or in range, and with what confidence |
| SpendClassifier.OrdinaryConfidenceFalls | crates/categorization/src/spend_classifier.rs:117-150 | over a profile that did not overflow, the confidence that an amount is within range never grows towards the fence |
| SpendClassifier.HalfAtMostExtraordinary | crates/categorization/src/spend_classifier.rs:97-150 | in either build, where the middle amounts do not overflow, at most half of a category's own postings are extraordinary |
| SpendOverflow.HalfAtMostExtraordinaryExactly | crates/categorization/src/spend_classifier.rs:97-177 | in a release build more than half are extraordinary exactly when the merchant does not recur, the middles overflow, the lower one is at the floor or over it, and they are not neighbours under a deviation that saturates |
| SpendOverflow.FourLargePostings | crates/categorization/src/spend_classifier.rs:165-177 | four postings of 2^62: no profile in a debug build, and all four extraordinary in a release build |
| SpendClassifier.ProfileReordered | crates/categorization/src/spend_classifier.rs:97-104 | a profile does not depend on the order of the amounts |
| Json.JsonStr | crates/db-worker/src/forecast_persist.rs:413-429 | the loop writes the quoted text character by character |
| Json.StringReads | crates/db-worker/src/forecast_persist.rs:413-429 | every text, quotes, backslashes and control characters included, reads back exactly under section 7 of RFC 8259 |
| JsonEscapes.EscapeReads | crates/db-worker/src/forecast_persist.rs:413-429 | the reader these texts are read back with reads every character in every escaped form that section 7 of RFC 8259 allows, surrogate pairs included |
| JsonEscapes.PlainReadsExactly | crates/db-worker/src/forecast_persist.rs:413-429 | and reads a character as itself exactly if it is no quote, backslash or control character |
| Json.ObjectReads | crates/db-worker/src/forecast_events.rs:110-193 | a hand-built object of text, integer and null fields reads back as its fields |
| Json.ArrayTextIsInjective | crates/db-worker/src/forecast_persist.rs:323-407 | two lists of rows share a canonical array only if they are the same |
| DatesAndIds.DateReads | crates/db-worker/src/forecast_overrides.rs:197-204 | every date reads back from its text, years before 0 and after 9999 included |
| DatesAndIds.UuidReads | crates/db-worker/src/manual_entry.rs:51-54 | every identifier reads back from its hyphenated text |
| AssumptionParameters.ParamsJson | crates/db-worker/src/forecast_events.rs:110-193 | each of the eight kinds is written as its fields in order |
| AssumptionParameters.BuildParamsJson | crates/db-worker/src/manual_entry.rs:45-63 | a manual entry is written as its fields, the account only when there is one |
| AssumptionParameters.ParamsReadBack | crates/db-worker/src/forecast_events.rs:110-193 | the reader of each kind recovers exactly the amount, dates and label written |
| AssumptionParameters.ManualEntryReadsBack | crates/db-worker/src/manual_entry.rs:66-105 | a manual entry reads back with its account |
| AssumptionParameters.DebtReads | crates/db-worker/src/recurring_debt.rs:33-64 | a recurring debt payment reads back with its end date |
| AssumptionParameters.ParamsAreInjective | crates/db-worker/src/forecast_events.rs:110-193 | no two different assumptions of a kind share a text |
| Snapshots.CanonicalArray | crates/db-worker/src/forecast_persist.rs:340-407 | the writers' loop renders the rows' fields in order |
| Snapshots.BasisIsInjective | crates/db-worker/src/forecast_persist.rs:119-149 | the hashed text tells any two inputs apart, whatever names, labels or time zone they hold |
| Snapshots.SnapshotStore.CaptureSnapshot | crates/db-worker/src/forecast_persist.rs:156-197 | a capture returns an existing snapshot exactly when it was taken of these very inputs, and otherwise adds one |
| Snapshots.RunningBalances | crates/db-worker/src/forecast_persist.rs:258-293 | each row carries the start plus all amounts so far; it fails exactly if some such balance leaves 64 bits |
| Snapshots.SumJoins | crates/db-worker/src/forecast_persist.rs:258-293 | the sum in those balances is that of its pieces |
| Crockford.EncodeCrockford | crates/core-ids/src/lib.rs:84-103 | writes the 128 bits and two zero bits, five bits to a symbol, with a 32-bit buffer |
| Crockford.DecodeCrockford | crates/core-ids/src/lib.rs:113-126 | reads the symbols' bits as bytes, or refuses, with a 32-bit buffer |
| Crockford.SpellingsHaveTheValue | crates/core-ids/src/lib.rs:128-138 | exactly the spellings of a symbol, in either case and with O, I and L, have its value |
| Crockford.ReadsExactly | crates/core-ids/src/lib.rs:128-138 | the whole table of what is read as which value: the alphabet in either case, O as 0, I and L as 1 |
| Crockford.DecodeUndoesEncode | crates/core-ids/src/lib.rs:84-138 | decoding undoes encoding for every 16 bytes under any respelling |
| Crockford.EncodedIsInjective | crates/core-ids/src/lib.rs:84-103 | two ids never share a code |
| Crockford.DecodesExactly | crates/core-ids/src/lib.rs:105-126 | exactly strings of 26 or 27 symbols decode |
| Crockford.DecodesToTheFirstBits | crates/core-ids/src/lib.rs:113-126 | only the first 128 bits of what decodes matter |
| Crockford.ExtraSymbolIsIgnored | crates/core-ids/src/lib.rs:113-126 | a code with any symbol after it decodes to its id |
| DerivedIdentifiers.PackedNumber | crates/core-ids/src/derived.rs:325-341 | the bytes of an id are, as a 128-bit number, the layout of section 5.7 of RFC 9562 |
| DerivedIdentifiers.DerivedIds.Next | crates/core-ids/src/derived.rs:404-414 | an ordinal is used up exactly when an id comes back |
| DerivedIdentifiers.IdsIncrease | crates/core-ids/src/derived.rs:286-414 | the ids of a command strictly increase as numbers, whatever tags, failures and HMAC |
| DerivedIdentifiers.MintedIsBounded | crates/core-ids/src/derived.rs:404-444 | ordinals consumed are ids returned, at most 4096 |
| DerivedIdentifiers.FailuresLeaveNoTrace | crates/core-ids/src/derived.rs:399-414 | without a failed call the same ids come back |
| DerivedIdentifiers.EarlierCommandsPrecede | crates/core-ids/src/derived.rs:286-341 | all ids of a command precede all ids of a command of a later millisecond, under any keys |
| DerivedIdentifiers.IdsCompare | crates/core-ids/src/derived.rs:286-341 | any two ids compare by millisecond, then by ordinal, then by the bits of their digests |
| DerivedIdentifiers.SameMillisecondStartsOver | crates/core-ids/src/derived.rs:387-397 | all ids of a command precede all ids of a command not issued before it exactly when their milliseconds differ, or the first command has a single id and that has the smaller digest bits |
| DerivedIdentifiers.LaterCommandCanMintLower | crates/core-ids/src/derived.rs:387-397 | two concrete commands of one millisecond of which the later one mints the lower id |
| DerivedIdentifiers.IdsFollowTheClock | crates/core-ids/src/derived.rs:286-341 | of two commands issued by the clock the first never has the later millisecond, its ids precede the other's wherever the milliseconds differ, and within one millisecond ids go by their ordinals |
| DerivedIdentifiers.DerivesExactly | crates/core-ids/src/derived.rs:286-311 | an id is derived exactly for a valid tag, an ordinal below 4096 and a supported instant; the 48-bit check never decides |
| DerivedIdentifiers.DerivedExactly | crates/core-ids/src/derived.rs:286-341 | the id in figures: whole milliseconds, version 7, the ordinal, variant 2 and the first 62 bits of the digest of command, tag and ordinal |
| DerivedIdentifiers.DeriveFails | crates/core-ids/src/derived.rs:286-311 | the tag is checked first, then the ordinal, then the instant |
| DerivedIdentifiers.ValidTagExactly | crates/core-ids/src/derived.rs:265-276 | a tag is one to 255 printable characters other than the space |
| DerivedIdentifiers.KeyedMessageIsInjective | crates/core-ids/src/derived.rs:142-163 | equal keyed messages come from equal commands, tags and natural keys |
| DerivedIdentifiers.ContentMessageIsInjective | crates/core-ids/src/derived.rs:183-200 | equal content messages come from equal tags and natural keys |
| DerivedIdentifiers.OrdinalMessageIsInjective | crates/core-ids/src/derived.rs:314-318 | equal ordinal messages come from equal commands, tags and ordinals |
| DerivedIdentifiers.PartsFitExactly | crates/core-ids/src/derived.rs:150-163 | a natural key is framed exactly when every part's length fits four bytes |
| DerivedIdentifiers.KindsAreApart | crates/core-ids/src/derived.rs:36-43 | the labels part keyed, content and singleton messages |
| DerivedIdentifiers.VersionsAreApart | crates/core-ids/src/derived.rs:160-162 | ordinal ids and hashed ids never meet |
| IssuedAtClock.IssuedAreDistinctUntilTheEnd | crates/core-ids/src/issued_at.rs:79-94 | under any interleaving, clock readings and stale loads the values increase, two being equal exactly at the largest integer |
| IssuedAtClock.LaterCallsGetLarger | crates/core-ids/src/issued_at.rs:79-94 | a call begun after others returned gets a larger value, no less than its clock |
| IssuedAtClock.NextIsLeast | crates/core-ids/src/issued_at.rs:79-94 | a call tries the least value above the last one and no less than its clock |
| ClockYears.SupportedExactly | crates/core-ids/src/issued_at.rs:29-42 | supported are exactly the instants from the epoch on whose year has four digits |
| IssuedAtClock.TheEndIsIssuedTwice | crates/core-ids/src/issued_at.rs:79-94 | a concrete run of two calls that both return the largest integer |
| IssuedAtClock.Clock.TryOnce | crates/core-ids/src/issued_at.rs:82-93 | one turn of the loop installs the next value or changes nothing but what the thread believes |
| CivilDate.CivilIsDayByDay | apps/desktop/src-tauri/build.rs:94-104 | the computed date is the one reached by stepping day by day from 1970-01-01 under Appendix C of RFC 3339 |
| CivilDate.StampIsRight | apps/desktop/src-tauri/build.rs:92-106 | every field is in range and the fields give back the seconds |
| CivilDate.YearOfEraContains | apps/desktop/src-tauri/build.rs:98 | the estimated year of the era is the one the day falls in |
| CivilDate.DatesIncrease | apps/desktop/src-tauri/build.rs:92-106 | later days have later dates |
| CivilDate.FourDigitYears | apps/desktop/src-tauri/build.rs:105 | the year has four digits exactly before second 253402300800 |
| MoneyArithmetic.DivisionIsTheRounding | crates/core-money/src/lib.rs:260-303 | division returns the one integer the mode defines for the exact quotient, in the same currency |
| MoneyArithmetic.DivisionFailsExactly | crates/core-money/src/lib.rs:260-303 | it fails exactly for a zero divisor and for the least integer divided by -1 |
| MoneyArithmetic.RoundsOneWay | crates/core-money/src/lib.rs:67-82 | a mode leaves no choice |
| MoneyArithmetic.DivisionMirrors | crates/core-money/src/lib.rs:260-303 | negating the amount negates the result, floor and ceiling trading places |
| MoneyArithmetic.ModesLieBetween | crates/core-money/src/lib.rs:260-303 | every mode lies between floor and ceiling, which differ by one exactly when the division is not even |

## Left out

- SQLCipher, keying, VACUUM, fsync details, re-encryption and key rotation of images: only their effect on what is durable.
- The rebase swap itself: `BeginSwap` only marks the row; nothing of the swap's file work is shown.
- `JobRunner`'s loop, polling and report, backoff arithmetic and job validation: its store calls are arbitrary sequences of steps, and only its verdict and terminal write are modelled.
- The text sanitizing of failure reasons.
- Timestamps and dates are integers outside `DatesAndIds`; so `recovery`'s comparison of due times is one of instants, not of text.
- JobStores.JobStore.RecoverRunning: the next due time of each cadence is a parameter, absent when the cadence does not parse.
- The word lists and regular expressions of merchant normalization are parameters; only its last white-space and trimming steps are written out. So are display names (`title_case`).
- Projection.RunsAgree: assumes that canonical rows do not change, and that commands write these tables only by the four writes of `Projection.Write`, as the modelled helpers and their callers do; the content checksum of the read model is not modelled.
- Projection.NewAccountAgrees: `accounts.ledger_account_id` is not unique in the schema; that every account is created with a new ledger account is read off `apply_create_account`.
- Vote counts are unbounded, and so are the integers of detection; the original uses 32 and 64 bits.
- OneOffMatcher.RebuildLinks: the window compares days; the original compares date text with BETWEEN, which orders otherwise where a window or a date has a year before 0 or after 9999.
- Recurring.DetectRecurring: amounts are magnitudes, as its callers pass them; dates past chrono's range are not modelled.
- Json.ObjectReads: the reader covers objects of texts, integers, true, false and null; nested values, fractions and exponents are refused by it and never written.
- DatesAndIds.UuidReads: the reader takes the hyphenated form; the unhyphenated, braced and URN forms are not modelled.
- A JSON text that is no object is one error here; the original reports its first missing field.
- IssuedAtClock.Clock.TryOnce: a weak exchange may fail without bound, so the loop of `now` is modelled turn by turn.
- Text of the build stamp, and reading SOURCE_DATE_EPOCH.
- The other `checked_` operations of money, the ledger, debt, loans, commitments and households: short folds and validation.
- `monotonic_v7`: the layout of the random part is that of a library.
- `sync-core` encodings, connectors, ingestion, the desktop shell and the user interface.
