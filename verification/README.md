# Account links: a verified model

The service creates account links over PostgreSQL. `AccountLinkService.Create` stores a link, guards
it with an idempotency key and writes an outbox row in the same transaction; `OutboxProcessor`
claims outbox rows, publishes them and marks them. A migration engine prepares the database at
start-up, and an HTTP transport retries outgoing requests. This project models the four of them and
proves what they promise, for every interleaving, failure and crash.

## How it is modelled

**The service as interleaved steps** (`domain`, `tables`, `protocol`). A state holds the committed
tables, every request and every tick with its program counter and its open transaction (pending
rows, held key, claimed rows), the identifiers handed out, the log of `Publish` calls and two
histories that only proofs read. A step is one call to the database or the broker with the local
code up to the next call. Any number of requests and ticks interleave. At every step a call may
fail, the process may die (`FailReq`, `FailTick`), and a commit may land and still report an error
(`Unreported`). `invariant` and `preservation` give the inductive invariant; `growth`,
`idempotency`, `outbox_laws`, `progress` and `causes` draw the laws from it for whole runs, and
`witnesses` gives runs that reach what the laws only allow for.

**The code itself** (`database`, `service`, `processor`, `migrate`, `startup`, `retry`,
`transaction`, and the loops in `version`, `listing` and `sql_statements`). Classes and methods with
the loops and early returns of the source. Each call of `Create` and `PublishOnce` first lets all
others take any number of steps (`Database.Interfere`) and then may fail. These methods are proved to take only steps of the system
(`Reaches`), so every law about runs holds of them. Two constants narrow what may happen: with `solo`
nobody interferes, with `reliable` every call that can proceed succeeds. Under both the methods are
proved to do exactly what the code does by itself (`Sequential`, `RanAlone`, `Drained`).

**Assumptions about the outside.**
- PostgreSQL at Read Committed. A transaction ends by its own commit or rollback or when its
  process dies. `INSERT ... ON CONFLICT DO NOTHING` waits for an in-flight inserter of the key.
- Selecting and locking outbox rows is atomic with the check on `published_at`; equal creation
  times may come in either order.
- `uuid.New` is fresh and not nil. A query on the pool takes one connection for its duration.
- An error return and the deferred rollback behind it are one step; `transaction` shows why that
  loses nothing.
- A tick that fails or dies while calling `Publish` leaves an unsuccessful call on record.
- SHA-256 and CRC-32 are parameters, collision freedom a stated hypothesis where it is needed. An
  outbox payload is the structure, not its JSON text.
- `sort.Slice` is any deterministic sort that looks at elements only by comparing them (`Sorter`);
  where it puts elements that compare equal is left open. History rows are read in table order;
  `Atoi` is that of a 64-bit platform.
- One migrator at a time, from a fixed directory. A crash of `Migrate` is an error return nobody
  sees: it leaves the same database.
- The retry library makes at most `retryMax + 1` attempts, stops at the first nil error and returns
  the last error.

**Where the code does less than it seems to.**
- The loser of a key race commits its own link (`internal/app/accountlink_service.go:152`), so "every
  link has an event" is false. `RaceCanBeLost` gives a run that leaves such a link, and
  `Conservation` says exactly which links have none.
- A key reused with a different payload is promised a conflict (README.md:40 of the repository).
  `ReplayComparesJoined` gives the exact condition and `PipeReplaysForeignLink` a run that breaks the
  promise.
- The comment at `internal/httpclient/retry.go:142` says that every body is returned or closed.
  `NothingLeaksWhen` gives the exact condition and `RecoveryLeaks` an input.
- Versions are kept apart as texts only, so "1" and "1.0" are both accepted and the directory decides
  their order (`EquivalentVersionsKeepDirectoryOrder`). `ListingIgnoresDirectoryOrder` gives the
  exact condition for every accepted directory.
- A file name with a second double underscore that the greedy version group can reach is refused
  (`NameRoundTrip`).
- `Commit` on a handle already rolled back returns nil though nothing is stored (`NilMeansStored`).

## Model

| member | source | states |
|---|---|---|
| `Preservation.StepKeepsInv` | internal/app/accountlink_service.go:101-192 | every step of every request and tick keeps the invariant of tables, transactions, locks, responses and publish log |
| `Preservation.RunKeepsInv` | internal/app/outbox_processor.go:91-126 | so the invariant holds in every state of every run, whatever fails |
| `Growth.StepKeeps` | internal/persistence/accountlink_store.go:50-70 | no step alters or removes a committed link, record or row, takes back a mark, or changes a response once given |
| `Growth.RunKeeps` | internal/persistence/idempotency_store.go:39-51 | the same over any stretch of any run |
| `Idempotency.Simulation` | internal/app/accountlink_service.go:126-165 | each step either leaves the map from key to request hash and link alone or is one atomic create that finds its key free |
| `Idempotency.Linearizable` | internal/app/accountlink_service.go:108-165 | every success, replay and conflict is what the atomic create answers at one of that request's own steps: its winning commit or its own lookup |
| `Idempotency.ExactlyOneEffect` | internal/app/accountlink_service.go:101-166 | a recorded key keeps its record and link for good, the link is no other key's and has exactly one outbox row |
| `Idempotency.SuccessesAgree` | internal/app/accountlink_service.go:147-165 | all successes for one key carry the same link and at most one says it created it |
| `Idempotency.KeylessCreatesAreApart` | internal/app/accountlink_service.go:168-192 | without a key every success is a newly created link of its own |
| `Idempotency.DefensiveErrorsUnreachable` | internal/app/accountlink_service.go:161-206 | no run returns "existed but could not be read", "referenced missing AccountLink" or the re-validation error of `FindByID` |
| `Causes.FailureHasCause` | internal/app/accountlink_service.go:101-192 | no request fails of itself: an error has a failed call or an unreported commit of its own behind it, a crash a crash, and a refusal a blank user or institution |
| `Causes.RequestMayFail` | internal/app/accountlink_service.go:117-165 | at every step a request's call may fail or its process die, which stores nothing, and its commit may land unreported |
| `Idempotency.ReplayComparesJoined` | internal/app/accountlink_service.go:106-197 | with a collision-free hash a keyed request succeeds, rather than conflicts, exactly if its joined payload equals that of the recorded link |
| `Idempotency.JoinedInjective` | internal/app/accountlink_service.go:106 | joining user and institution with a bar is injective where users hold no bar |
| `Idempotency.ReplayFidelity` | internal/app/accountlink_service.go:194-209 | with bar-free users success means the caller's own user and institution, and conflict means a different payload, both ways |
| `Witnesses.PipeReplaysForeignLink` | internal/app/accountlink_service.go:106-209 | in a run of two requests a user with a bar is handed a link with another payload, whatever the hash |
| `Witnesses.SecondIsReplayed` | internal/app/accountlink_service.go:106-209 | for any two calls with one key and one request hash a run hands the second the first one's link |
| `Witnesses.RaceCanBeLost` | internal/app/accountlink_service.go:108-165 | for any two storable calls with one key a run of both leaves a committed link without an event, and the loser is answered the winner's link when the hashes agree and a conflict when they differ |
| `Idempotency.OriginIsHistory` | internal/app/accountlink_service.go:135-154 | the recorded origin of a link names the commit that stored it, with its event, or as the loser of a race for a recorded key |
| `Idempotency.LinksComeFromCalls` | internal/app/accountlink_service.go:211-218 | every stored link carries the payload of a request that was made |
| `Causes.RowIsDated` | internal/app/accountlink_service.go:232-240 | the creation time of an event row is the time of the call that wrote it |
| `Idempotency.Conservation` | internal/app/accountlink_service.go:126-192 | in every reachable state links = rows + lost races, rows = records + keyless creates, and a link has no event exactly if it lost its race |
| `OutboxLaws.ClaimsAreExclusive` | internal/persistence/outbox_store.go:39-46 | no row is claimed by two open transactions, and a claimed row is stored and unmarked |
| `OutboxLaws.NoPublishAfterMark` | internal/app/outbox_processor.go:106-125 | once the mark of a row is committed no later step passes the row to Publish |
| `OutboxLaws.MarkedWasDelivered` | internal/app/outbox_processor.go:108-122 | a marked row was published successfully before, with the very time of its mark |
| `OutboxLaws.AbortsAreCounted` | internal/app/outbox_processor.go:97-104 | the abort count in the state is the number of ticks of the run that had claimed the row and were aborted |
| `OutboxLaws.DuplicateBound` | internal/app/outbox_processor.go:106-125 | an event is passed to Publish, whatever came of the calls, and so delivered, at most once more than the number of aborted ticks that had claimed it |
| `OutboxLaws.OnlyTrueMessages` | internal/app/accountlink_service.go:211-240 | every Publish call carries id, user, institution and PENDING status of a link still stored unchanged, the row's creation time and the two type names, and link and event were committed in one transaction |
| `Causes.EndHasCause` | internal/app/outbox_processor.go:91-126 | a tick returns nil only from its own reported commit, and an error only from a failed call of its own, an unreported commit or a negative batch size |
| `Causes.TickMayFail` | internal/app/outbox_processor.go:91-126 | at every step a tick's call may fail or its process die, which stores nothing, and its commit may land unreported |
| `Progress.AskersHoldNothing` | internal/app/accountlink_service.go:108-165 | whoever asks for a connection holds no transaction |
| `Causes.PoolIsNeverExceeded` | internal/persistence/postgres.go:54-61 | in every reachable state the open transactions do not outnumber the pool's connections |
| `Progress.KeyHolderAdvances` | internal/persistence/idempotency_store.go:39-51 | the holder of an uncommitted key waits for nobody: its own next call can go ahead |
| `Progress.DeadlockFree` | internal/app/accountlink_service.go:108-165 | with one connection or more some successful step of unfinished work is possible in every reachable state |
| `Progress.StepUsesWork` | internal/app/outbox_processor.go:91-126 | every step but an arrival uses up work of one request or tick |
| `Progress.BoundedWork` | internal/app/accountlink_service.go:101-192 | however steps interleave and fail, a stretch without arrivals takes at most as many steps as there was work |
| `Claims.ClaimExists` | internal/persistence/outbox_store.go:39-46 | the claiming query has an answer for every table, set of locks and limit |
| `Claims.ClaimIsUnique` | internal/persistence/outbox_store.go:39-46 | without ties in creation time it has exactly one |
| `Ticks.FailingTicks` | internal/app/outbox_processor.go:106-122 | k ticks failing at one position of a batch publish each earlier event exactly k times, mark nothing and never reach the events behind |
| `Ticks.FailingTicksSeeOneBatch` | internal/app/outbox_processor.go:101-118 | without ties such ticks do all see the same batch of the unchanged outbox |
| `Ticks.CommittedTick` | internal/app/outbox_processor.go:101-125 | a committed tick takes exactly its batch out of the unpublished rows |
| `Ticks.Draining` | internal/app/outbox_processor.go:75-126 | after k successful ticks N - kB rows are left, each other one was published exactly once, and the publish sequence of all ticks is in creation order |
| `Ticks.DrainBound` | internal/app/outbox_processor.go:75-126 | exactly ceil(N / B) successful ticks empty the outbox |
| `SharedDatabase.Database.FindByKey` | internal/persistence/idempotency_store.go:21-37 | answers from the committed records of that moment |
| `SharedDatabase.Database.FindById` | internal/persistence/accountlink_store.go:22-48 | answers from the committed links and validates again |
| `SharedDatabase.Database.BeginTx` | internal/persistence/postgres.go:54-61 | opens an empty transaction or fails |
| `SharedDatabase.Database.Save` | internal/persistence/accountlink_store.go:50-70 | puts the valid link into the transaction under an identifier never handed out before, which no table and no other transaction holds |
| `SharedDatabase.Database.TryInsert` | internal/persistence/idempotency_store.go:39-51 | returns when no other transaction holds the key, and writes the record into the transaction exactly if none is committed then |
| `SharedDatabase.Database.Add` | internal/persistence/outbox_store.go:19-37 | writes one unpublished event row for the link, dated with the given time, into the transaction, under an identifier nobody else holds |
| `SharedDatabase.Database.CommitTx` | internal/persistence/postgres.go:24-35 | whatever the others did before, stores all of the transaction or none of it; nil means all, an error may mean either |
| `SharedDatabase.Database.SelectOldest` | internal/persistence/outbox_store.go:39-77 | collects row by row a complete answer of the claiming query |
| `SharedDatabase.Database.FindUnpublishedForUpdateSkipLocked` | internal/persistence/outbox_store.go:39-78 | claims the oldest unpublished rows that no other tick holds at that moment, up to the batch size |
| `SharedDatabase.Database.MarkPublished` | internal/persistence/outbox_store.go:80-86 | adds the mark of one row to the transaction |
| `SharedDatabase.Database.CommitWork` | internal/persistence/postgres.go:24-35 | whatever the others did before, stores all marks of the tick or none; nil means all, an error may mean either |
| `AccountLinkService.AccountLinkService.Create` | internal/app/accountlink_service.go:101-166 | takes only steps of the system, closes its transaction on every path and answers what the tables then hold; undisturbed its answer and its whole change of the tables are those of the sequential create |
| `AccountLinkService.AccountLinkService.CreateAndRecord` | internal/app/accountlink_service.go:117-165 | the path of a keyed create behind its first lookup, winner and loser alike, is steps of the system and ends answered; undisturbed with the key taken it leaves one link without event and replays the recorded key |
| `AccountLinkService.AccountLinkService.AnnounceAndCommit` | internal/app/accountlink_service.go:139-147 | undisturbed the winner stores link, record and event together, the event dated with the given time, and reports the link as created |
| `AccountLinkService.AccountLinkService.CommitAndReread` | internal/app/accountlink_service.go:152-165 | undisturbed the loser's commit leaves its link alone, and the answer is that of the recorded key: its link or a conflict |
| `AccountLinkService.AccountLinkService.Reread` | internal/app/accountlink_service.go:156-165 | looks the key up again and replays its record |
| `AccountLinkService.AccountLinkService.CreateNonIdempotent` | internal/app/accountlink_service.go:168-192 | the keyless path ends answered with no transaction open, and undisturbed stores one new link with its event and no record |
| `AccountLinkService.AccountLinkService.CreateNew` | internal/app/accountlink_service.go:211-218 | leaves the caller at the key or at the event, with the saved link, or answered with the failure; undisturbed it refuses exactly a blank user or institution |
| `AccountLinkService.AccountLinkService.Replay` | internal/app/accountlink_service.go:194-209 | compares hashes before it reads the link and answers on every path; undisturbed with a conflict or the recorded link, as the hashes differ or agree |
| `OutboxProcessor.OutboxProcessor.PublishOnce` | internal/app/outbox_processor.go:91-126 | takes only steps of the system, ends with its transaction closed, alone does exactly what the recorded tick says, and undisturbed commits |
| `OutboxProcessor.OutboxProcessor.PublishAll` | internal/app/outbox_processor.go:106-125 | publishes then marks row by row and commits, or stops at the first failure with nothing marked |
| `OutboxProcessor.OutboxProcessor.Start` | internal/app/outbox_processor.go:75-89 | n ticks in a row are steps of the system and alone a possible series of ticks; undisturbed n ticks empty the outbox exactly if n reaches ceil(N / B), each row sent once and in creation order |
| `Transaction.PostgresTx.CommitTx` | internal/persistence/postgres.go:24-35 | stores the writes at most once; nil exactly if the handle was closed or the commit landed and reported |
| `Transaction.PostgresTx.RollbackTx` | internal/persistence/postgres.go:37-48 | closes the handle, never changes the tables, and is nil exactly if the handle was closed or the rollback worked |
| `Transaction.StoresOnce` | internal/persistence/postgres.go:24-48 | of any series of calls on a handle only the first can store anything |
| `Transaction.DeferredRollback` | internal/app/accountlink_service.go:122-124 | a deferred rollback undoes nothing that was stored and is nil after any other call |
| `Transaction.NilMeansStored` | internal/persistence/postgres.go:24-48 | a nil commit means the writes are stored exactly if no rollback and no lost commit came first |
| `Transaction.DeferredRollbackIsNoStep` | internal/app/accountlink_service.go:122-145 | commit and deferred rollback of a request together are the one commit step of the system, and a rollback alone changes no table |
| `Transaction.DeferredRollbackIsNoTickStep` | internal/app/outbox_processor.go:97-125 | the same for the commit and deferred rollback of a tick |
| `Text.SplitAtSeparator` | internal/db/migrate.go:237-295 | splitting around one separator is the two splits side by side |
| `Text.JoinSplit` | internal/db/migrate.go:237-295 | joining undoes splitting for every text |
| `Text.TrimSpaceTrims` | internal/db/migrate.go:299 | trimming cuts white space off both ends and nothing else, and trimmed text stays as it is |
| `Text.SpaceMeaning` | internal/db/migrate.go:299 | white space is that of Unicode, code point by code point |
| `Text.OnlyWhiteSpaceIsCut` | internal/db/migrate.go:299 | every character cut off is one of those code points |
| `SqlStatements.SplitSqlStatements` | internal/db/migrate.go:294-308 | the loop computes the statements of the text |
| `SqlStatements.StatementsAreClean` | internal/db/migrate.go:294-308 | every statement is non-empty, trimmed and free of semicolons |
| `SqlStatements.NothingLost` | internal/db/migrate.go:294-308 | apart from white space and semicolons every character of the text is in its statements, in order |
| `SqlStatements.StandsAsItIs` | internal/db/migrate.go:294-308 | a text without semicolons that neither begins nor ends with white space is one statement, unchanged |
| `SqlStatements.StatementsConcatenate` | internal/db/migrate.go:294-308 | the statements of a + ";" + b are those of a and then those of b |
| `SqlStatements.StatementsRoundTrip` | internal/db/migrate.go:294-308 | joining the statements of any text and splitting again gives the same statements |
| `Version.AtoiItoa` | internal/db/migrate.go:245-248 | a printed number in range reads back |
| `Version.AtoiMeaning` | internal/db/migrate.go:245-248 | a text of digits is read as the number it writes, exactly if that is a 64-bit number |
| `Version.SignedMeaning` | internal/db/migrate.go:245-248 | and likewise with a sign in front |
| `Version.OnlyNumbersAreRead` | internal/db/migrate.go:245-248 | nothing else is read |
| `Version.LeadingZero` | internal/db/migrate.go:245-248 | leading zeros do not matter |
| `Version.DigitsFromLeft` | internal/db/migrate.go:245 | a digit is worth ten times as much for every digit behind it |
| `Version.ParseVersionParts` | internal/db/migrate.go:234-254 | the loop computes the numbers or the first error |
| `Version.EmptyTokenIsBad` | internal/db/migrate.go:241-243 | an empty token anywhere makes the version invalid |
| `Version.ParsedMeaning` | internal/db/migrate.go:239-253 | the tokens are read one by one, and the first unread one decides the error |
| `Version.NormalizedMeaning` | internal/db/migrate.go:235-236 | hyphens and underscores become dots and nothing else changes |
| `Version.PrintedVersionReadsBack` | internal/db/migrate.go:234-254 | tokens of digits, leading zeros and all, with any of the three separators between them read back as their numbers |
| `Version.CompareVersionParts` | internal/db/migrate.go:256-283 | the loop computes the comparison |
| `Version.CompareAt` | internal/db/migrate.go:262-280 | the first place that differs, missing numbers being zero, decides |
| `Version.CompareIsPreorder` | internal/db/migrate.go:256-283 | a total preorder: reflexive, antisymmetric in sign, transitive, total |
| `Version.CompareZero` | internal/db/migrate.go:256-283 | zero exactly if the lists are equal up to trailing zeros |
| `Version.CompareIsLexicographic` | internal/db/migrate.go:256-283 | lexicographic order once trailing zeros are stripped |
| `FileName.LongestMatchMatches` | internal/db/migrate.go:24 | the greedy version group is the longest one that matches |
| `FileName.NameMeaning` | internal/db/migrate.go:24-232 | a name is accepted exactly if it is V, version, two underscores, dot-free description and .sql with a readable longest version, and the migration holds just what the name says; otherwise the error tells which part failed |
| `FileName.NameRoundTrip` | internal/db/migrate.go:215-232 | a name printed from digit tokens, separators and a description parses back to its version, numbers and description exactly if the description is non-empty, dot-free and offers no second cut; otherwise it is refused |
| `FileName.PlainDescriptionsReadBack` | internal/db/migrate.go:24 | a non-empty dot-free description that starts with no version character always reads back |
| `FileName.NamedPartsAreNonNegative` | internal/db/migrate.go:221-231 | an accepted name carries a non-empty list of non-negative numbers |
| `Listing.ListMigrations` | internal/db/migrate.go:181-213 | the loop over the directory computes the collected migrations or the first error, sorted by whatever comparison sort |
| `Listing.CollectMeaning` | internal/db/migrate.go:190-206 | the directory is accepted exactly if every migration file has a readable name and no version text occurs twice, and then its migrations are all collected |
| `Listing.FailureMeaning` | internal/db/migrate.go:195-202 | the error is that of the first file refused: an unreadable name, or a version text already listed |
| `Listing.MigrationFileMeaning` | internal/db/migrate.go:191-193 | files are told by the suffix .sql, and directories never count |
| `Listing.SortSorts` | internal/db/migrate.go:208-210 | insertion sort gives a sorted permutation |
| `Listing.SortIsSorter` | internal/db/migrate.go:208-210 | insertion sort is one of the sorts allowed for: trading two elements that compare equal trades them in its result |
| `Listing.SortedIsUnique` | internal/db/migrate.go:208-210 | without equivalent versions there is one sorted arrangement, so every sort gives it |
| `Listing.ListingMeaning` | internal/db/migrate.go:181-213 | every directory order gives the same verdict, and an accepted directory a permutation of its files' migrations in ascending order |
| `Listing.StrictWithoutEquivalents` | internal/db/migrate.go:208-210 | a sorted list is strictly increasing exactly if it holds no equivalents |
| `Listing.TradedListing` | internal/db/migrate.go:181-213 | trading the files of two migrations that compare equal trades them in the listing |
| `Listing.ListingIgnoresDirectoryOrder` | internal/db/migrate.go:181-213 | for every accepted directory and every comparison sort: the listing is the same in every directory order exactly if no two versions are equivalent, and exactly then it is strictly increasing |
| `Listing.EquivalentVersionsKeepDirectoryOrder` | internal/db/migrate.go:200-210 | versions n and n.0 are both accepted, and reading them in the other order gives another listing |
| `Migrate.RankIsFresh` | internal/db/migrate.go:165 | the rank a new row is given is one above the greatest in the table |
| `Migrate.ScriptIsFileName` | internal/db/migrate.go:285-292 | the script of a listed migration is its file name |
| `Migrate.FitsMeaning` | internal/db/migrate.go:79-98 | a history row is taken exactly if rank and checksum are 32-bit signed and the texts fit their columns |
| `Migrate.AppliedIsRecorded` | internal/db/migrate.go:100-126 | a version is applied exactly if a successful row says so, and the last such row's checksum counts |
| `Migrate.ListedPath` | internal/db/migrate.go:226-227 | every listed migration is a file of the directory under its path in the embedded tree |
| `Migrate.Migrator.LoadAppliedMigrations` | internal/db/migrate.go:100-126 | reads the applied versions with checksums, and fails exactly if a row that counts has none |
| `Migrate.Migrator.ApplyMigration` | internal/db/migrate.go:128-179 | the statements of the file's text and a history row with the CRC of that text become durable together or not at all, only if the row fits its columns, and always if it does and calls succeed |
| `Migrate.Migrator.CheckOrApply` | internal/db/migrate.go:56-74 | an applied migration is only checked, a pending one only applied, and the run so far stays an uninterrupted one |
| `Migrate.Migrator.Migrate` | internal/db/migrate.go:33-77 | whatever fails, the durable effect is an uninterrupted run stopped somewhere; nil means the whole list, every version recorded with the CRC of its file's text; with every version applied no statement is sent; when calls succeed only an unreadable listing or history, a mismatch or a row that does not fit stops it |
| `Listing.ListedVersionsAreDistinct` | internal/db/migrate.go:200-204 | listed versions are distinct |
| `Migrate.AppliedMeaning` | internal/db/migrate.go:62-74 | after n migrations exactly the first n and those applied before are applied, the new ones with their own checksums |
| `Migrate.Resume` | internal/db/migrate.go:56-74 | a run that starts where another stopped goes on as the other would have: nothing repeated, nothing skipped |
| `Migrate.ResumeMatches` | internal/db/migrate.go:63-66 | stopping and resuming neither hides nor invents a checksum mismatch |
| `Migrate.RanksCount` | internal/db/migrate.go:165 | from an empty table ranks count 1, 2, 3 and so on |
| `Migrate.PrefixFromEmpty` | internal/db/migrate.go:128-179 | from an empty database the history is a prefix of the sorted list and the durable statements are that prefix's statements, each once and in order |
| `Migrate.MigratedMatches` | internal/db/migrate.go:62-76 | once the list was gone through every listed version is recorded with the CRC of its file's text |
| `Migrate.MismatchGuards` | internal/db/migrate.go:63-66 | a mismatch at position k: never nil, nothing at or behind k applied, and when reported every pending one before k is |
| `Startup.MigrateWithRetry` | cmd/server/main.go:117-149 | at most floor(maxWait / retryInterval) + 1 attempts, or maxWait + 1 without an interval, the result is the last attempt's and only the last can be nil, it gives up only when cancelled or when no further wait fits before the deadline, and all attempts together are one uninterrupted run stopped somewhere |
| `Startup.WaitAgain` | cmd/server/main.go:134-147 | another attempt starts exactly one interval after the last has ended, or at once without one, and not after the deadline, and there is one unless cancelled or out of time |
| `Startup.AttemptsFit` | cmd/server/main.go:124-147 | so many attempts fit before the deadline |
| `Startup.NextRun` | internal/db/migrate.go:33-77 | any further run keeps the series one run, and nil makes it complete |
| `Startup.SeriesFromEmpty` | internal/db/migrate.go:56-179 | from an empty database any series of failed, crashed or ambiguous runs leaves a prefix of the list, complete exactly if it is the whole |
| `Startup.CompleteMatches` | internal/db/migrate.go:56-76 | from any database a nil result means every listed version is recorded with the CRC of its file's text |
| `Startup.EditedFileIsCaught` | internal/db/migrate.go:62-66 | when the text of an applied file is changed to one with another CRC, no further run returns nil |
| `Retry.Transport.DrainAndClose` | internal/httpclient/retry.go:194-200 | drains and closes a body, if there is one |
| `Retry.Transport.Attempt` | internal/httpclient/retry.go:131-162 | one attempt: what is remembered, what is drained and how it failed, for every combination of response and error |
| `Retry.Transport.RoundTrip` | internal/httpclient/retry.go:127-184 | the attempts go on exactly past errors and statuses of 500 or above, at most retryMax + 1 of them, and the reply is that of the last, case by case; a body that cannot be replayed is never sent |
| `Retry.HeldIsLatest` | internal/httpclient/retry.go:153-159 | what is remembered between failing attempts is the latest response at 500 or above |
| `Retry.StatusDecides` | internal/httpclient/retry.go:151-161 | a single answer ends the attempts exactly if its status is below 500 |
| `Retry.Accounting` | internal/httpclient/retry.go:127-184 | with distinct bodies none is drained twice and exactly two may stay open: the returned one and that of the latest earlier response at 500 or above, if the last attempt was none |
| `Retry.AccountingWrittenOut` | internal/httpclient/retry.go:127-184 | the same attempt by attempt: a body stays open exactly if it is returned, or its attempt got the latest status of 500 or above |
| `Retry.SharedBodyStaysOpen` | internal/httpclient/retry.go:153-155 | answers at 500 or above that carry one and the same body never drain it |
| `Retry.NothingLeaksWhen` | internal/httpclient/retry.go:142-162 | every other body is drained exactly if the last attempt got a response at 500 or above, or none did, or the latest that did has no body |
| `Retry.RecoveryLeaks` | internal/httpclient/retry.go:153-162 | 500 and then 200: the first body stays open |

## Left out

- The HTTP layer, JSON, middleware and server shutdown. `Create` is modelled for every user and
  institution; the handler's trimming and blank check only narrow them.
- The SNS and logging publishers: `Publish` is a call that succeeds or fails and leaves a record.
- `GetByID`: a single read of the links table with no effect.
- SHA-256, CRC-32, JSON marshalling and UUID generation are assumed, not computed.
- Which pooled session holds the advisory lock (`internal/db/migrate.go:34-40`): one migrator at a time
  is assumed.
- The database ending a transaction while its processor goes on: the law on publishing after a
  mark would not hold then.
- Replaying request bodies: `GetBody` is looked at and never called, so nothing is claimed about
  what a retry sends.
- Backoff times, unlimited retries, cancellation inside the retry library, and a base transport that
  itself returns the transport's own status error.
- Migrations whose statements change `flyway_schema_history` themselves or end their transaction.
- Timestamps the database fills in, `installed_by`, `execution_time` and the constant `type` column.
- Configuration loading, infrastructure code, shell scripts, the playground and the set wrapper.
- Startup.MigrateWithRetry: time is idealised; an attempt takes any time, but one unit at least when the
  interval is zero or less, and a wait takes exactly its interval.
