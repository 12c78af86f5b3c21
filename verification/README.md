# Formal model of Spendable Today

This project models the parts of the repository in which correctness depends on more than one
function or on more than one moment, and proves what they keep. `dafny verify dfyconfig.toml`
checks all of it.

| file | models |
|---|---|
| `MobileSession.dfy`, `MobileLogout.dfy` | the mobile `SessionController`: storage queue, publication, clears, expiry, logout |
| `ConsultationQuota.dfy` | `StartConsultation` against the monthly quota, with many requests interleaving |
| `LimitNotification.dfy` | the claim, send and complete protocol of the limit notification on PostgreSQL |
| `SqliteClaim.dfy` | the two-statement claim on SQLite, as a refinement of the one above |
| `LoginLimiter.dfy` | the fixed-window login limiter |
| `SessionTable.dfy` | server sessions with password snapshots and deletion of expired rows |
| `Amount.dfy` | amounts as text: the mobile printer and the server's parser |
| `Dates.dfy`, `Sorting.dfy`, `Subscriptions.dfy` | Gregorian dates, sorting, and the detection of subscriptions |
| `PreviewCache.dfy` | import previews with expiry |
| `Ledger.dfy` | the deduplicating import and category corrections |
| `Merchants.dfy` | merchant names, branch numbers, and the rules that are looked up by name |
| `Dashboards.dfy`, `SpendingVerdict.dfy` | the monthly dashboard and the verdict on a planned expense |
| `StripComments.dfy` | the comment-blanking lexer of the architecture check |
| `GitHooks.dfy`, `CodexHooks.dfy` | the formatting hooks and the check of generated files, next to an editor |
| `Text.dfy`, `Wrappers.dfy` | string helpers and shared value types |

Protocols are state machines: one step is one database call, one piece of code between two
awaits, or one statement, and a run is any sequence of steps. Objects and tables that the program
updates in place are classes whose methods are proved against those steps. An error that the
program ignores, a lost answer and an edit by somebody else are steps or nondeterministic choices.

## What turned out to be false

Each of these has a lemma with the input, and the condition under which the statement holds.

- The stored session is not always the current one at rest (`RejectionDuringActivateLosesRecord`);
  `StorageAtRest` says exactly when it is.
- A sent notification does not mean that the committed consultations have reached the limit
  (`NotifiesBeforeCommitted`, `NotifiesAfterRelease`; when exactly: `NotifiesEarlyIff`).
- Continuations on the external model do not stay within the limit, neither together
  (`TwoContinuationsOverrun`) nor with later starts (`LaterStartOverruns`). At most one for each
  continuation under way comes on top of the limit, and that many can (`ExternalWithContinuations`,
  `BoundIsMet`).
- `yen` and `ParseAmount` do not agree on -2^63, and a record's amount of -2^63 stays negative
  (`PrintedAmountsReadBack`, `NormalizeAmount`, `LeastAmountCanBeWritten`).
- A separator put into a blank text is not ignored: the blank text is 0 and the result is an error
  (`CommaInBlankText`; when exactly: `SeparatorsAreIgnored`).
- `NormalizeMerchant` is not idempotent (`TwoNumbers`; when exactly: `NormalizedTwiceIff`), so a
  correction that is to be remembered for a merchant whose normalized name still ends in a number is
  stored under a name that the next row of the same description does not look up
  (`RememberedRuleIsFound`).
- A verdict can become milder when a row is moved into a fixed category (`CorrectionCanRelax`; when
  exactly: `CorrectionRelaxesIff`), or when a new memory pushes a regret off the list of the 20 newest
  (`TwentyFirstMemory`; when exactly: `NewMemoryRelaxesIff`).
- The comment at `tools/git_hooks.py:206` says that a failed re-check leaves no older receipt. One
  that fails before that line has done its work leaves it, as on an unmerged index
  (`UnmergedKeepsReceipt`; when exactly: `FailedRecheckIff`), and a commit can rest on it
  (`CommitOnOldReceipt`). The model follows the code.

## What the model takes for granted

- A database call that fails has no effect, except that the answers of claims and completions may be
  lost after the fact, that a reservation's release may be lost, and where a contract says otherwise.
- A working file whose write fails is as it was before; `update-index` takes all or nothing.
- A storage call of the mobile app that fails leaves the record as it was. The session model begins
  when `initialize` has finished without an error.
- Session tokens, request ids and preview ids are fresh. SHA-256 and blob names are injective, so a
  digest is modelled by what it hashes; a transaction is named by its user and fingerprint, which
  are unique together, instead of by its row id.
- `overtaken` in `MobileSession` and the logs in `GitHooks` and `CodexHooks` are history: the
  program's own behaviour does not depend on them.
- IP addresses and usernames used as limiter keys are distinct, where a lemma says so. Times do not
  go back.
- `strings.ToLower` works character by character, keeps the space, and changes nothing when applied
  again. `sort.Slice` is any sort: the lemmas about it hold for stable and unstable ones.
- A build of generated files depends on the mobile inputs of the index only, and a formatter on path
  and content only.
- No other Git command runs between the last comparison of the index and the restaging. Reading the
  index fails on an unmerged index; that Git does not answer at all is part of `removable` in
  `VerifyGenerated`.

## Model

| member | source | states |
|---|---|---|
| MobileSession.StorageFollowsCallOrder | mobile/lib/features/session/provider/session_provider.dart:70-75 | In every interleaving the stored record is the fold, in call order, of the storage calls that have finished, failed ones skipped; the calls left over are exactly the queue |
| MobileSession.FailureNeverBlocks | mobile/lib/features/session/provider/session_provider.dart:70-75 | Whatever storage answers, each queued call gets its turn: as many answers as calls drain the queue |
| MobileSession.StorageAtRest | mobile/lib/features/session/provider/session_provider.dart:102-180 | At rest, in every run in which no delete fails, the record is absent or belongs to the current session, and the two are equal if and only if no clear took effect between the call and the publication of the activate that made the session |
| MobileSession.QuietRunAgrees | mobile/lib/features/session/provider/session_provider.dart:102-180 | If no clear takes effect while an activate is in flight, record and session are equal at rest |
| MobileSession.RejectionDuringActivateLosesRecord | mobile/lib/features/session/provider/session_provider.dart:168-180 | The race that makes the unqualified statement false: a 401 for the old session during the write of the new one leaves the new session in memory and no record |
| MobileSession.FailedDeleteLeavesRecord | mobile/lib/features/session/provider/session_provider.dart:175-179 | Why deletes must succeed: one failed delete leaves a record without a session, with storageError set |
| MobileSession.EveryChangeRaisesGeneration | mobile/lib/features/session/provider/session_provider.dart:128-132 | generation never falls, and any run that ends in another session has raised it |
| MobileSession.OnlyOwnTokenRemoves | mobile/lib/features/session/provider/session_provider.dart:166-189 | A session is removed exactly by a 401, timer or logout aimed at its own token; one aimed at another token changes neither session nor queue nor generation |
| MobileSession.TimerBelongsToSession | mobile/lib/features/session/provider/session_provider.dart:182-189 | In every run the pending expiry timer is the one of the current session |
| MobileLogout.LogoutsFollowHistory | mobile/lib/features/session/provider/session_provider.dart:147-165 | In every run the logout requests without an answer are the tokens that were current at the logouts of a live session, in order, less those answered |
| MobileLogout.AcceptedLogoutEndsSession | mobile/lib/features/session/provider/session_provider.dart:147-180 | Once such a request is answered with success or a 401, its token is not that of the session; and if the token was activated only once, it never is again |
| MobileLogout.AcceptedLogoutEndsRecord | mobile/lib/features/session/provider/session_provider.dart:147-180 | Then at rest, when no delete failed, no record with that token is left |
| MobileLogout.ErrorFollowsHistory | mobile/lib/features/session/provider/session_provider.dart:126-132 | The error is shown exactly from a failed delete to the next session that is published |
| MobileSession.SessionController.constructor | mobile/lib/features/session/provider/session_provider.dart:80-99 | The state in which initialize leaves the controller when it meets no error |
| MobileSession.SessionController.Activate | mobile/lib/features/session/provider/session_provider.dart:102-109 | Is the protocol step: a dead session is refused and nothing changes, a live one is queued for writing and not yet published |
| MobileSession.SessionController.StorageFinishes | mobile/lib/features/session/provider/session_provider.dart:71-75 | Is the protocol step in which storage answers the oldest call |
| MobileSession.SessionController.CallerResumes | mobile/lib/features/session/provider/session_provider.dart:126-132 | Is the protocol step after the await: publication after a successful write, storageError after a failed delete |
| MobileSession.SessionController.ClearIfCurrent | mobile/lib/features/session/provider/session_provider.dart:168-180 | Is the protocol step: no match, no change; a match drops session and timer at once and queues the delete |
| MobileSession.SessionController.ExpiryTimerFires | mobile/lib/features/session/provider/session_provider.dart:185-188 | Is the protocol step of the timer |
| MobileSession.SessionController.Logout | mobile/lib/features/session/provider/session_provider.dart:147-155 | Is the protocol step before the request: without a live token the session is cleared at once |
| MobileSession.SessionController.LogoutAnswered | mobile/lib/features/session/provider/session_provider.dart:153-164 | Is the protocol step after the answer: done or 401 clears that token, another error clears nothing |
| ConsultationQuota.SlotsAreConserved | server/internal/application/application.go:296-331 | In every interleaving the count of a user-month is what it was at the start plus committed, in-flight and leaked slots, and the `> 0` guard never keeps a release from its slot |
| ConsultationQuota.ReleaseHitsReservedMonth | server/internal/application/application.go:300-304 | A release takes one from the month that its request reserved, and from no other row |
| ConsultationQuota.ReservationSeesAllSlots | server/internal/infrastructure/persistence/postgres/repository.go:66-101 | The count a reservation answers is the number of slots held at that moment, its own among them |
| ConsultationQuota.ExternalNeverExceedsLimit | server/internal/domain/consultation.go:57-59 | However requests interleave and the limit changes, consultations committed or in flight on the external model never outnumber what the largest limit seen leaves over |
| ConsultationQuota.ContinuationsFit | server/internal/application/application.go:381-388 | At the moment of its read a continuation on the external model finds a free slot; n that read the same count fit in the limit then when n is at most the room, and, with every counted slot external, only then |
| ConsultationQuota.ContinuationsLeaveCounts | server/internal/application/application.go:381-388 | With continuations anywhere in between, the starts run as they would without them |
| ConsultationQuota.ExternalWithContinuations | server/internal/application/application.go:381-388 | Over any run, later starts included: with at most n continuations under way on the external model, at most n more than what the largest limit leaves are on it |
| ConsultationQuota.BoundIsMet | server/internal/application/application.go:381-388 | For every n and every limit from 1 on there is a run with limit + n on the external model, so that bound is exact |
| ConsultationQuota.LaterStartOverruns | server/internal/application/application.go:381-388 | At limit 2, a start, a continuation that fits, and a second start make three |
| ConsultationQuota.TwoContinuationsOverrun | server/internal/application/application.go:381-388 | Two continuations at limit 2 with one slot taken both pass, which makes three |
| ConsultationQuota.NotifiesBeforeCommitted | server/internal/application/application.go:338-341 | The notification can go out before that many consultations are committed: two requests at limit 2 |
| ConsultationQuota.NotifiesAfterRelease | server/internal/application/application.go:338-341 | It can also go out when another request has given its slot back: two requests at limit 2, one of which fails, leave one |
| ConsultationQuota.NotifierSawTheLimit | server/internal/application/application.go:338-341 | A request that notifies has a reservation at which the slots held, its own among them, with what the month had at the start, had reached the limit it reports |
| ConsultationQuota.NotifiesEarlyIff | server/internal/application/application.go:338-341 | In any run the month is short of that limit if and only if, of those slots, the ones in flight, leaked or released since outnumber the excess of the count and the later commits; and what has become of each of them |
| ConsultationQuota.NotifiesOnTimeIff | server/internal/application/application.go:338-341 | When the count meets the limit exactly and nothing later has committed, the committed consultations have reached it if and only if every slot held at the reservation is committed |
| ConsultationQuota.UsageTable.ReserveMonthlyConsultation | server/internal/infrastructure/persistence/postgres/repository.go:66-101 | One more for the key and that number as the answer, or an error and no change |
| ConsultationQuota.UsageTable.ReleaseMonthlyConsultation | server/internal/infrastructure/persistence/postgres/repository.go:103-121 | One less for the key if it has one, or an error and no change |
| ConsultationQuota.StartConsultation | server/internal/application/application.go:284-336 | Succeeds if and only if the message is not blank, the amount not negative and every call succeeds; a failure leaves the counts as they were unless the release failed too, notifies nobody and stores no message; after a success the notification rows are those of its protocol, and the trimmed message and the answer are stored, whose errors change nothing else |
| ConsultationQuota.StartAccepted | server/internal/application/application.go:295-336 | The same after the input checks, with the deferred release |
| ConsultationQuota.ScriptRun | server/internal/application/application.go:295-336 | The undisturbed call is a run of the interleaving model, and leaves the same counts |
| ConsultationQuota.NotifyMonthlyLimit | server/internal/application/application.go:338-356 | Below the limit or without a notifier no row changes; otherwise the rows are those of the protocol run claim, send, complete, whatever becomes of the claim and of the completion |
| ConsultationQuota.NotificationOfCommit | server/internal/application/application.go:338-356 | When every answer arrives: below the limit nothing; a first row has the count, the limit and the time, delivered or failed with the error; a failed row is tried again; any other stays |
| LimitNotification.AtMostOneSend | server/internal/application/application.go:338-356 | In every interleaving with claims and completions lost at will: at most one send per user and month is in progress, and at most one ever reports success |
| LimitNotification.RowTellsHistory | server/internal/infrastructure/persistence/postgres/repository.go:123-160 | attempts is the number of claims that took effect; the status is delivered if and only if a successful send was recorded |
| LimitNotification.DeliveredIsAbsorbing | server/internal/infrastructure/persistence/postgres/repository.go:123-160 | A reachable delivered row never changes again, not even by the unconditional completion update |
| LimitNotification.LostAnswerBlocksClaims | server/internal/infrastructure/persistence/postgres/repository.go:123-142 | A row left in sending by a lost answer admits no claim ever again |
| LimitNotification.FailedSendIsTriedAgain | server/internal/infrastructure/persistence/postgres/repository.go:123-160 | A row has failed if and only if every send of the month has and each failure was recorded; and then, or without a row, and only then, the next answered claim may send |
| LimitNotification.RowIsItsHistory | server/internal/infrastructure/persistence/postgres/repository.go:123-160 | Every column: count and limit of the last claim that took effect, time and number of claims from the first on, the message of the last recorded failure while failed, the time of delivery |
| LimitNotification.PostgresNotifications.ClaimMonthlyLimitNotification | server/internal/infrastructure/persistence/postgres/repository.go:123-142 | Claims if and only if there is no row or a failed one, and what the row then holds; an error may come before or after the effect |
| LimitNotification.PostgresNotifications.CompleteMonthlyLimitNotification | server/internal/infrastructure/persistence/postgres/repository.go:144-160 | The row after a completion, whatever its status was, or after one that is lost |
| SqliteClaim.TwoStatementsRefineOne | server/internal/infrastructure/persistence/sqlite/repository.go:118-148 | Every run of the two-statement claim, with any steps between the statements, has the rows and the answers of an atomic run |
| SqliteClaim.LinearisedOnce | server/internal/infrastructure/persistence/sqlite/repository.go:118-148 | Each request is linearised exactly once, at one of its own statements, by the time it has an answer |
| SqliteClaim.SqliteSendsAtMostOnce | server/internal/infrastructure/persistence/sqlite/repository.go:118-166 | So SQLite, too, has at most one send in progress and at most one success |
| SqliteClaim.SqliteFailedSendIsTriedAgain | server/internal/infrastructure/persistence/sqlite/repository.go:118-166 | And after recorded failures only, the two statements of the next request make the claim |
| SqliteClaim.SqliteNotifications.ExecInsertOrIgnore | server/internal/infrastructure/persistence/sqlite/repository.go:120-136 | Inserts if and only if there is no row, and counts it |
| SqliteClaim.SqliteNotifications.ExecUpdateFailed | server/internal/infrastructure/persistence/sqlite/repository.go:137-148 | Updates if and only if the row is failed, and counts it |
| SqliteClaim.SqliteNotifications.ClaimMonthlyLimitNotification | server/internal/infrastructure/persistence/sqlite/repository.go:118-148 | Undisturbed, the two statements answer and leave what the PostgreSQL statement does |
| LoginLimiter.LoginLimiter.AllowLogin | server/internal/infrastructure/persistence/postgres/auth.go:20-43 | The table and the answer after purging and counting the attempt under both keys; an error of a statement or of the commit leaves the table as it was |
| LoginLimiter.RowsAreWindows | server/internal/infrastructure/persistence/postgres/auth.go:20-43 | In every history each row is the window that the key's own uses lead to: purges and other keys are invisible |
| LoginLimiter.CountsAreWindows | server/internal/infrastructure/persistence/postgres/auth.go:20-43 | An attempt is allowed if and only if both of its own windows are within their limits |
| LoginLimiter.UserAdmissionsPerMinute | server/internal/infrastructure/persistence/postgres/auth.go:20-43 | Any half-open minute, wherever it begins, admits at most 9 logins of a username (one less than two windows of 5) |
| LoginLimiter.IpAdmissionsPerMinute | server/internal/infrastructure/persistence/postgres/auth.go:20-43 | Any half-open minute admits at most 39 logins from an IP |
| LoginLimiter.NineLoginsInAMinute | server/internal/infrastructure/persistence/postgres/auth.go:20-43 | Nine are possible, so the bound is exact |
| LoginLimiter.ThirtyNineLoginsInAMinute | server/internal/infrastructure/persistence/postgres/auth.go:20-43 | Thirty-nine from one IP are possible, under as many usernames, so that bound is exact too |
| LoginLimiter.ModestCallerIsNeverRefused | server/internal/infrastructure/persistence/postgres/auth.go:20-43 | A caller with at most 5 attempts per username and 20 per IP in every minute is allowed |
| SessionTable.ResolveFollowsHistory | server/internal/infrastructure/persistence/postgres/auth.go:67-74 | A token resolves to a user if and only if some event of the history grants it: created, not deleted or revoked, unexpired, user active, password still the one of the session |
| SessionTable.PurgeIsInvisible | server/internal/infrastructure/persistence/postgres/auth.go:44-74 | Deleting expired rows changes no answer |
| SessionTable.TableIsExact | server/internal/infrastructure/persistence/postgres/auth.go:44-78 | Without purging the table holds exactly the sessions that live, with the values they were created with |
| SessionTable.ChangedPasswordEndsSession | server/internal/infrastructure/persistence/postgres/auth.go:67-74 | A disabled user, or one with another password, is refused under the old token, whatever else happens |
| SessionTable.AuthStore.CreateSession | server/internal/infrastructure/persistence/postgres/auth.go:44-66 | Is the specified step; an error leaves everything, including expired rows, as it was |
| SessionTable.AuthStore.ResolveSession | server/internal/infrastructure/persistence/postgres/auth.go:67-74 | Answers as the specification |
| SessionTable.AuthStore.DeleteSession | server/internal/infrastructure/persistence/postgres/auth.go:75-78 | Is the specified step |
| Amount.PrintYen | mobile/lib/shared/utils/formatters.dart:1-12 | Prints the sign, the yen mark and the digits grouped by threes from the right |
| Amount.YenLooks | mobile/lib/shared/utils/formatters.dart:1-12 | A minus sign if negative, the yen mark, and the decimal digits without a leading zero, a comma at every fourth place from the right |
| Amount.WrittenIsGrouped | mobile/lib/shared/utils/formatters.dart:5-10 | The printer's left-to-right rule with a modulus groups by threes from the right |
| Amount.ParseAmount | server/internal/csvimport/importer.go:163-186 | Reads what the text stands for, or the cleaned text as the error |
| Amount.ToAsciiDigits | server/internal/csvimport/importer.go:390-403 | Turns full-width digits into ASCII ones and drops white space |
| Amount.PrintedAmountsReadBack | server/internal/csvimport/importer.go:163-186 | ParseAmount(yen(v)) is v for a 64-bit v if and only if v is not the least one |
| Amount.SeparatorsAreIgnored | server/internal/csvimport/importer.go:168-174 | Without parentheses, a separator or currency sign anywhere changes nothing, if and only if the text was not blank or the character is white space |
| Amount.CommaInBlankText | server/internal/csvimport/importer.go:163-177 | A blank text is 0, but a comma alone is no amount |
| Amount.ParenthesesNegate | server/internal/csvimport/importer.go:168-184 | Parentheses around a text turn a positive amount into a negative one and leave a negative one or an error as it is |
| Amount.EmptyParentheses | server/internal/csvimport/importer.go:168-177 | Parentheses around nothing are an error |
| Amount.IgnoredIff | server/internal/csvimport/importer.go:169-174 | The characters that can be put anywhere without changing an amount are the commas, yen signs, parentheses and white space written out, and no others |
| Amount.DigitsRead | server/internal/csvimport/importer.go:178-185 | Decimal digits are their number up to 2^63 - 1, and beyond that an error |
| Amount.PlusReads | server/internal/csvimport/importer.go:169-185 | Either plus sign changes nothing |
| Amount.MinusReads | server/internal/csvimport/importer.go:169-185 | Each of the four minus signs negates, down to -2^63 |
| Amount.SpaceAroundIsIgnored | server/internal/csvimport/importer.go:163-167 | White space around a text changes nothing, with or without parentheses |
| Amount.FullWidthReadsTheSame | server/internal/csvimport/importer.go:390-403 | Without parentheses, full-width digits read like ASCII ones |
| Amount.NormalizeAmount | server/internal/csvimport/importer.go:295-328 | When a record has an amount, its kind and its absolute value, which is positive if and only if the value is not the least one |
| Amount.LeastAmountCanBeWritten | server/internal/csvimport/importer.go:300-305 | The amount that stays negative can be written in a file |
| Dates.TextOrderIsDayOrder | server/internal/application/application.go:716-731 | On valid dates the order of the strings is the order of the days (section 5.6 of RFC 3339) |
| Dates.MonthlyGap | server/internal/application/application.go:722-731 | Charges on the same day of consecutive months, clamped to the month end, are 28 to 31 days apart, over leap days and turns of the year |
| Dates.DateReads | server/internal/application/application.go:721-722 | Which texts of the layout are dates, by the lengths of the months written out, and of which day |
| Dates.DayNumberIs | server/internal/application/application.go:721-726 | The number of a day in closed form, over leap years and months |
| Subscriptions.DetectSubscriptionCandidates | server/internal/application/application.go:698-750 | One candidate for each merchant that makes one, no other, costliest first, for any iteration order |
| Subscriptions.Group | server/internal/application/application.go:701-712 | Groups the expenses by merchant, in input order |
| Subscriptions.HasRegularPair | server/internal/application/application.go:718-734 | Finds a pair of neighbours that is equal and 25 to 35 days apart if and only if there is one |
| Subscriptions.CandidateMeansSubscribed | server/internal/application/application.go:713-736 | With distinct dates a merchant makes a candidate if and only if two date-adjacent charges are equal and 25 to 35 days apart |
| Subscriptions.RegularIff | server/internal/application/application.go:721-728 | 25 to 35 days by the calendar, both included, and equal amounts |
| Subscriptions.CandidateTells | server/internal/application/application.go:733-744 | A candidate tells the merchant, how many expenses it has, the amount of a latest one, and twelve times that |
| Subscriptions.MatchedMeansSubscribed | server/internal/application/application.go:715-717 | That holds for any sort of the charges, stable or not |
| Subscriptions.InputOrderIsIrrelevant | server/internal/application/application.go:698-750 | A permutation of the input has the same candidates |
| Subscriptions.MonthlyChargesAreFound | server/internal/application/application.go:718-734 | Equal charges on the same day of consecutive months, clamped to the month end and with none between, are always found |
| PreviewCache.PurgingIsInvisible | server/internal/application/application.go:818-825 | Under a clock that never goes back, the cache that purges gives every commit the answer of one that never does |
| PreviewCache.CommitFollowsHistory | server/internal/application/application.go:230-245 | A commit succeeds if and only if the same user previewed the id, nobody replaced it and the owner did not take it in between, and at most 30 minutes, inclusive, have passed; it then imports those rows |
| PreviewCache.EachPreviewCommitsOnce | server/internal/application/application.go:231-237 | With fresh ids, two calls that the purging cache has answered with rows for one id are the same call |
| PreviewCache.ForeignTakeChangesNothing | server/internal/application/application.go:231-237 | Another user's attempt fails and changes nothing |
| PreviewCache.Application.CleanupPreviews | server/internal/application/application.go:818-825 | Keeps exactly the entries that have not expired |
| PreviewCache.Application.StorePreview | server/internal/application/application.go:214-228 | Is the specified step of the cache |
| PreviewCache.Application.CommitImport | server/internal/application/application.go:230-245 | Is the specified pair of steps, undisturbed |
| Ledger.ImportMeans | server/internal/infrastructure/persistence/postgres/repository.go:236-275 | Rows that were there stay, of any user; the new keys are those of the batch; each new row is that of its first item |
| Ledger.CountsAreExact | server/internal/infrastructure/persistence/postgres/repository.go:236-275 | The imported count is the number of distinct fingerprints new to the user, and imported plus duplicate is the length of the batch |
| Ledger.ImportsCompose | server/internal/infrastructure/persistence/postgres/repository.go:236-275 | Importing a ++ b gives the rows and the summed counts of importing a, then b |
| Ledger.ReimportIsAllDuplicates | server/internal/infrastructure/persistence/postgres/repository.go:236-275 | A batch imported again changes nothing and counts duplicates only |
| Ledger.CorrectionsSurvive | server/internal/infrastructure/persistence/postgres/repository.go:312-344 | A corrected category, and the rest of the row, survives any imports by anyone and any corrections of other rows |
| Ledger.OtherUsersUntouched | server/internal/infrastructure/persistence/postgres/repository.go:236-275 | One user's imports and corrections never touch another user's rows |
| Ledger.Repository.ImportTransactions | server/internal/infrastructure/persistence/postgres/repository.go:236-275 | All of the batch with its counts, or on an error nothing |
| Ledger.Repository.UpdateTransactionCategory | server/internal/infrastructure/persistence/postgres/repository.go:312-344 | The row's category and, if remembered, the rule; an error may leave the correction without the rule |
| Merchants.StartIsLeftmostMatch | server/internal/csvimport/importer.go:208-215 | What the pattern removes begins at its leftmost match; there is one if and only if the text ends in a digit or a hyphen |
| Merchants.NormalizedTwiceIff | server/internal/csvimport/importer.go:208-215 | Normalizing twice is normalizing once if and only if what stands before the branch number of the folded description, if anything, ends in neither a digit nor a hyphen |
| Merchants.NormalizedTwice | server/internal/csvimport/importer.go:208-215 | The same, read off the normalized name |
| Merchants.TwoNumbers | server/internal/csvimport/importer.go:208-215 | "a 1 2" becomes "a 1", and "a 1" becomes "a", for any lower-casing that leaves these characters alone |
| Merchants.BranchNumberIsDropped | server/internal/csvimport/importer.go:208-215 | A name, a space, 支店, 店, 店舗 or nothing, and a number of ASCII or full-width digits and hyphens: the name is left |
| Merchants.RememberedRuleIsFound | server/internal/infrastructure/persistence/postgres/repository.go:329-341 | A remembered correction decides the next row of the same description if and only if the normalized name is not still numbered; otherwise that row is imported as if the rule were not there |
| Merchants.Categorize | server/internal/csvimport/importer.go:217-248 | The user's rule for the normalized name, else the first group of keywords mentioned, else unclassified |
| Merchants.FirstKeywords | server/internal/csvimport/importer.go:222-228 | The first three groups of keywords and their categories by name |
| Merchants.TravelKeywords | server/internal/csvimport/importer.go:229-231 | The next three |
| Merchants.MealKeywords | server/internal/csvimport/importer.go:232-234 | The next three |
| Merchants.LastKeywords | server/internal/csvimport/importer.go:235-245 | The last two, and what no keyword applies to |
| Dashboards.MonthlyDashboard | server/internal/infrastructure/persistence/postgres/repository.go:382-438 | The loop over the grouped sums reports the direct sums over the rows: total, fixed, free, drinking, subscriptions, budget left; fixed plus free is the total; and the five newest rows of the month are listed |
| Dashboards.AddedIsSum | server/internal/infrastructure/persistence/postgres/repository.go:411-426 | After n groups the accumulators are the sums over the rows of those groups |
| Dashboards.DashboardByName | server/internal/infrastructure/persistence/postgres/repository.go:406-431 | The fixed expenses are the sums of 家賃, 光熱費 and 通信, the rest is free and charged to the budget, and 酒・飲み会 and サブスクリプション have sums of their own |
| Dashboards.ExpensesAre | server/internal/infrastructure/persistence/postgres/repository.go:387-392 | The rows summed are the user's expenses whose date begins with the month |
| SpendingVerdict.CategoryTotalIsSum | server/internal/domain/spending.go:59-66 | On a month's dashboard the category total is the sum of that category's rows, and the only number that is |
| SpendingVerdict.CategoryTotal | server/internal/domain/spending.go:59-66 | The first line of that category, or 0 if there is none |
| SpendingVerdict.EvaluateSpending | server/internal/domain/spending.go:20-57 | Every fact and the verdict, which is insufficient if and only if no amount is planned |
| SpendingVerdict.QuotientIsBound | server/internal/domain/spending.go:49-51 | For amounts within what is left, the truncating /4 and /5 compare as exact quarters and fifths |
| SpendingVerdict.Decide | server/internal/domain/spending.go:46-55 | The switch with its truncating divisions decides by a rule that has no division |
| SpendingVerdict.VerdictLimits | server/internal/domain/spending.go:37-56 | In numbers: avoid beyond what is left, after a regret, or on a reduced habit beyond 3000 yen and a fifth of it; caution under 厳しい beyond a quarter of it; else safe |
| SpendingVerdict.RegretIsFirst | server/internal/domain/spending.go:39-45 | The regret is the content of the first memory of type regret_pattern that has the category in it, or of any once the message has 飲 in it |
| SpendingVerdict.ImportedCategoriesAreKnown | server/internal/domain/categories.go:3-7 | Every category that an import finds by keywords is one that a plan can name |
| SpendingVerdict.NewMemoryDropsRegretIff | server/internal/application/application.go:493-499 | Of the 20 newest memories that a consultation is given: a newly saved one takes a regret away if and only if it is recalled and says nothing, or it is not recalled and pushes the regret off the list |
| SpendingVerdict.NewMemoryRelaxesIff | server/internal/application/application.go:493-499 | A newly saved memory with content makes the verdict milder if and only if it pushes the only regret off the list and the amount is not to be avoided for another reason |
| SpendingVerdict.TwentyFirstMemory | server/internal/application/application.go:493-499 | A regret behind nineteen unrelated memories and one more of these: 100 of 10000 yen turn from avoid to safe |
| SpendingVerdict.RuleIsMonotone | server/internal/domain/spending.go:46-55 | safe < caution < avoid is monotone in the planned amount, in what is already spent and in every flag |
| SpendingVerdict.FactsNeverRelax | server/internal/domain/spending.go:20-57 | The facts on a month's dashboard, and those after any run of imports by anyone and corrections into free categories, for an amount planned no smaller: the verdict never becomes milder |
| SpendingVerdict.VerdictNeverRelaxes | server/internal/domain/spending.go:46-55 | The same of the rule on the user's rows |
| SpendingVerdict.CorrectionRelaxesIff | server/internal/infrastructure/persistence/postgres/repository.go:318-324 | A correction never makes a verdict milder, whatever is planned, if and only if it does not move a charge of that user and month from a free category into a fixed one |
| SpendingVerdict.CorrectionMovesTotal | server/internal/infrastructure/persistence/postgres/repository.go:318-324 | A correction takes a row off the free total if and only if the row becomes fixed, and puts it on if it ceases to be |
| SpendingVerdict.CorrectionCanRelax | server/internal/infrastructure/persistence/postgres/repository.go:318-324 | Moving 5000 yen from food to rent turns an avoid into a safe |
| StripComments.TokenisationIsUnique | tools/server_architecture.py:65-106 | Every text has exactly one tokenisation into code, literals and comments, the one that is found |
| StripComments.StripCommentsLoop | tools/server_architecture.py:65-106 | The loop over modes writes the tokens, with the comments blanked |
| StripComments.OnlyCommentsAreBlanked | tools/server_architecture.py:65-106 | Length and newlines are kept, and exactly the other characters of comments become blanks |
| StripComments.OutputHasNoComment | tools/server_architecture.py:65-106 | Read again, the output has the same code and literals and no comment |
| StripComments.StripIsIdempotent | tools/server_architecture.py:65-106 | Stripping twice is stripping once |
| StripComments.RawStringIsKept | tools/server_architecture.py:73-87 | A raw string is kept, whatever it holds |
| StripComments.QuotedIsKept | tools/server_architecture.py:73-87 | A string and a rune are kept |
| StripComments.EscapeIsKept | tools/server_architecture.py:73-79 | A quote or any other character behind a backslash does not end them |
| StripComments.UnclosedIsKept | tools/server_architecture.py:73-87 | A quote that is not closed keeps the rest of the file |
| StripComments.LineCommentIsBlanked | tools/server_architecture.py:88-92 | Two slashes blank the rest of the line |
| StripComments.BlockCommentIsBlanked | tools/server_architecture.py:93-103 | A slash and a star blank everything up to the next star and slash, but for newlines |
| StripComments.UnclosedCommentIsBlanked | tools/server_architecture.py:93-103 | or up to the end of the file |
| StripComments.CodeIsKept | tools/server_architecture.py:104-105 | Any other character is kept |
| StripComments.BlankLine | tools/server_architecture.py:88-92 | Blanks up to the newline or the end |
| StripComments.BlankBlock | tools/server_architecture.py:93-103 | Blanks up to the first closer or the end, newlines kept |
| StripComments.CopyLiteral | tools/server_architecture.py:74-82 | Copies a character, or a backslash and the one it protects, and notices the closing quote |
| GitHooks.Repository.PreCommit | tools/git_hooks.py:127-201 | With an editor at work at any moment: the index ends up as it was or with the formatter's output of the old blobs under their old modes; after a failure before the write loop, an unmerged index among them, working files, index and HEAD are as others left them; working files are only ever changed by others and by logged writes, which go to formatted targets, each of them once, and before each write every target was seen, after the formatters had ended, to be as it is staged; past writing, the commit passes if and only if it needs no generated files or there is a receipt for what is staged after formatting |
| GitHooks.Repository.Prepare | tools/git_hooks.py:127-183 | Working files, index and HEAD are as others left them; on success the index is still the one read first, the updates are the formatter's output of its blobs, and after the formatters ended every target was seen unedited |
| GitHooks.Repository.RunToolsAndRecheck | tools/git_hooks.py:149-183 | True only if, after the tools ended, the index and the changes are those read first and every file was seen unedited |
| GitHooks.Repository.ReadOriginals | tools/git_hooks.py:132-140 | Every target was, at some moment of its run, a regular file with exactly the staged content and a plain mode |
| GitHooks.Repository.Unedited | tools/git_hooks.py:180-183 | True only if each file was seen with its content since the call began |
| GitHooks.Repository.WriteFiles | tools/git_hooks.py:184-185 | The working files are as others left them but for the logged writes; on success each update is written once |
| GitHooks.Repository.Apply | tools/git_hooks.py:184-192 | Writes each update once, then restages exactly those bytes; a failed write restages nothing; nothing else changes working files or index |
| GitHooks.SecondRunHasNothingToDo | tools/git_hooks.py:127-193 | With an idempotent formatter nothing is left to format after a run |
| GitHooks.WhatIsFormatted | tools/git_hooks.py:111-131 | Formatted are the staged files that differ from HEAD, are no submodules, and lie in mobile/lib or mobile/test as .dart files not generated, or in server but not server/agent as .go files |
| GitHooks.PassedRunsWrite | tools/git_hooks.py:127-193 | A run that got past writing has written every such file that the formatter changes |
| GitHooks.RunsLookAgain | tools/git_hooks.py:177-185 | Before any write every such file was, at some moment after the formatters had ended, as it is staged |
| GitHooks.RunTwice | tools/git_hooks.py:127-193 | Two runs with an editor in between, the first passed or stopped only for want of a verification, write each file once and restage at most once |
| GitHooks.Repository.VerifyGenerated | tools/git_hooks.py:204-263 | Working files, index and HEAD are as others left them; on a merged index whose receipt can be removed, a receipt is left if and only if the check passes on an unchanged index, and then the generated files are what the builder makes of its inputs; otherwise the receipt stays as it was |
| GitHooks.FailedRecheckIff | tools/git_hooks.py:205-207 | A re-check that does not pass leaves no receipt if and only if there was none, or the index was merged and the receipt could be removed |
| GitHooks.UnmergedKeepsReceipt | tools/git_hooks.py:205-207 | At an index with a conflict the older receipt stays |
| GitHooks.CommitOnOldReceipt | tools/git_hooks.py:194-207 | With a receipt, a re-check that fails on a conflict, and the conflict resolved to the same index, the commit is not refused for want of a verification |
| GitHooks.FingerprintCoversGeneratedFiles | tools/git_hooks.py:61-75 | Two indexes with one fingerprint hold the same generated files |
| GitHooks.FingerprintIff | tools/git_hooks.py:61-75 | Two indexes have one fingerprint if and only if they agree on every path mobile/ ... .dart, .yaml or .lock and on mobile/.fvmrc |
| GitHooks.VerificationIsNeededIff | tools/git_hooks.py:194-195 | A commit needs a verification if and only if it changes such a path and there is a generated file in the index or the change, or mobile/pubspec.yaml names build_runner: |
| GitHooks.FreshFiles | tools/git_hooks.py:204-256 | After a passed verification the .g.dart and .freezed.dart files under mobile/lib are those that the builder makes |
| GitHooks.Day | tools/git_hooks.py:127-263 | Over any sequence of staging, verifying and committing, a commit that needs generated files passes only on the strength of the last verification, which passed on the same mobile inputs; a commit is refused for want of a verification only if it needs one and none stands for its inputs; the receipt is at the end what the log says stands |
| GitHooks.Act | tools/git_hooks.py:127-263 | The entry of a commit tells the verdict of the hook and what it had staged; one stopped before its writes has written nothing; staging and verifying write no working file |
| GitHooks.MobileCommitsAreVouched | tools/git_hooks.py:194-202 | In the log of a day a passed commit that changed such a path rests on a verification that passed on an index with the same such files |
| CodexHooks.Workspace.Capture | tools/codex_hooks.py:40-47 | A baseline that exists is never replaced; a new one holds every format target that stayed the same meanwhile, and only contents that were there |
| CodexHooks.Workspace.WorkingFiles | tools/codex_hooks.py:19-23 | Reads format targets only, each with the content it had at some moment, and misses none that is not ignored and stays the same meanwhile |
| CodexHooks.Workspace.Finish | tools/codex_hooks.py:50-81 | Never stages anything; working files are only changed by others and by its logged writes: the formatter's output of unstaged files that changed since the baseline, and on success all of it; before each write every such file was seen, after the formatters had ended, to be what had been read, and no file that stayed the same was missed; after a failure before the write loop working files are as others left them; the files that count as staged, whenever anything was written, are those staged when it began; at a conflict nothing is written; the baseline goes only after success, which reports the changed files left to the pre-commit hook |
| CodexHooks.Turn | tools/codex_hooks.py:40-81 | Over any sequence of prompts and stops, with others at work at any moment: nothing is staged; the working files written are, in order, those of the logged stops; each of these wrote and answered as a finish does, against the first baseline captured since the last successful stop and what was staged when it began; and a file that has kept one content since that capture is never written |
| CodexHooks.TurnWritesOnly | tools/codex_hooks.py:50-78 | What a stop of a logged turn writes is the formatter's output for a file to be formatted, read with another content, not so in the baseline, and in the index as in HEAD when the stop began |
| CodexHooks.TurnLooksAgain | tools/codex_hooks.py:68-77 | Before that write every file to be written was still what had been read, at some moment after the formatters |
| CodexHooks.TurnMissesNothing | tools/codex_hooks.py:50-81 | A stop that succeeds has written every such file it read, and names exactly the changed ones that are staged |
| CodexHooks.RepeatedPromptsKeepBaseline | tools/codex_hooks.py:40-47 | Prompts delivered again never move the baseline |

## Left out

- Dashboards.MonthlyDashboard: sums are unbounded integers; int64 overflow of totals is not modelled, and the answers of its two queries are parameters. Rows of one date are listed in any order, since rows have no ids here.
- SpendingVerdict.EvaluateSpending: int64 overflow of budget minus planned amount is not modelled.
- Subscriptions.DetectSubscriptionCandidates: int64 overflow of twelve times the amount is not modelled; the texts of a candidate are left out.
- SpendingVerdict.FactsNeverRelax: is about rows with amounts of at least 0, which is what the import produces except for -2^63, and about corrections that do not go into a fixed category.
- GitHooks.Repository.PreCommit: an edit that lands between the last look at a working file and the write to it can be overwritten, in the program and in the model; the syntax, architecture and lint checks are one nondeterministic refusal; an index that cannot be read again after restaging is not modelled.
- CodexHooks.Workspace.Finish: has the same gap before its writes.
- GitHooks.Repository.VerifyGenerated: looking for the SDK, the packages and the builder is one nondeterministic failure.
- ConsultationQuota.SlotsAreConserved: a reservation that takes effect while its answer is lost is not modelled; it would be one more leaked slot.
- ConsultationQuota.StartConsultation: the agent and the stored consultation are reduced to success or failure.
- Ledger.Repository.UpdateTransactionCategory: the application's check that the category is a known one comes before it and is not modelled.
- StripComments.TokenisationIsUnique: follows the tool where it is wider than the Go specification: a newline does not end an interpreted string.
- `revoke` and the error texts of `activate` in the mobile session, and its `initialize`.
- HTTP handlers, JSON, the agents and their revision loop, the notifier client, and identity checks in the handlers.
- CSV reading, header detection, Shift_JIS, date layouts other than the canonical one, and SHA-256.
- The monthly cost report, which rests on PostgreSQL's numeric scale rules; profiles, the storing of memories, and monthly reviews.
- The rest of the SQLite adapter, which has no model of its own.
- Flutter widgets, routing, the deployment stacks and the mobile architecture check.
