# dbferry: the backup protocol, proved

dbferry streams one database through zstd and age into an S3 multipart upload, writes a
manifest beside the finished object, and later prunes old backups by a
grandfather-father-son policy. This project models those parts in Dafny and proves what the
program promises about them:

* the concurrent multipart uploader, from the dump process to the manifest;
* the bucket protocol: uploads, listings, retention passes, crashes and foreign writers
  interleaved one S3 call at a time;
* the retention selection and the calendar arithmetic under it;
* object keys, scopes and the path cleaning they go through;
* the generated MySQL, PostgreSQL and S3 permissions, the scanner of SHOW GRANTS rows, and
  the config file and keychain transaction.

`dafny verify dfyconfig.toml` checks everything.

## How it is organised

| file | contents |
|---|---|
| `Multipart.dfy` | one backup as a transition system: dump process, feed goroutine, pipe, read loop, part workers, cancellation watcher, S3 server, caller |
| `MultipartSafety.dfy` | its invariant, and what holds in every reachable state |
| `MultipartProgress.dfy`, `MultipartSuccess.dfy` | it never gets stuck, and it ends, and unless something fails it succeeds |
| `MultipartExample.dfy` | two concrete runs that fail and leave something behind |
| `PartLists.dfy` | chunks, part lists and their sorting |
| `Uploader.dfy` | the same uploader as code: buffers are arrays from a pool, the part list is sorted in place, plus abort, run, feed and a whole backup |
| `Store.dfy`, `Listing.dfy`, `Prune.dfy` | the object store, listing and pruning as code; convergence of interrupted passes |
| `BackupIds.dfy` | the timestamp in a backup id and its recovery by a listing |
| `Protocol.dfy`, `Safety.dfy` | the bucket protocol as a transition system, and its safety over all runs |
| `Converge.dfy`, `Finish.dfy` | the convergence of concurrent passes, and what a pass that finishes has done |
| `Calendar.dfy`, `Retention.dfy`, `Backups.dfy` | dates, ISO weeks, the selection and its laws, the order of backups |
| `Paths.dfy`, `Keys.dfy`, `Scopes.dfy`, `S3Policy.dfy` | path cleaning, key segments, scopes, separation of databases, the bucket policy |
| `Grants.dfy`, `ShowGrants.dfy` | generated grants read back by the servers' rules; the SHOW GRANTS scanner against a printer |
| `ConfigStore.dfy`, `ConfigLock.dfy` | config commands with failures and crashes; concurrent commands under the file lock |
| `Text.dfy`, `Sets.dfy`, `Wrappers.dfy` | byte strings, finite sets, Option and Result |

## What is assumed of the environment

* Each S3 call is atomic and strongly consistent. A failing call may or may not have taken
  effect. A list page holds the keys after its token, in byte order, as they are at that
  moment; the token is the last key of the page before, and a truncated page is not empty.
* Backup ids are fresh and of one length. No foreign key extends the stem of a backup by a
  dot, and outsiders do not put manifests that this database would trust. Within these limits
  outsiders may write and delete anything at any time.
* A Go string is a sequence of bytes; a Dafny `char` stands for a byte, and the results hold
  for all chars. In `ShowGrants.dfy` and `ConfigStore.dfy` a char is a code point: white space
  is that of Unicode, as Go trims it, and upper-casing is any mapping that agrees with ASCII
  and turns no other character into ASCII punctuation.
* An instant is the number of nanoseconds since Monday, January 1 of year 1, UTC. A bucket
  label is the number its printed digits spell.
* zstd and age are streaming encoders: what they emitted after some input is a prefix of what
  they emit after more, or once closed. A hash is the sequence of bytes it absorbed, and an
  ETag the content the server stored.
* A scheduler may pick any enabled step of any component. Nothing is assumed about fairness:
  the progress results say which steps are possible and bound how many there can be.

## Where the code and its documentation differ

The model follows the code.

* `pipeline/upload.go:119-122` says that a failed upload never leaves a completed object. It
  does when HEAD fails after an ambiguous completion that took effect
  (`pipeline/upload.go:150-154`). `MultipartSafety.FailedLeaves` and `Uploader.Upload` say
  exactly when, and `MultipartExample.FailedUploadLeavesObject` is such a run. A run whose
  manifest was stored but whose reply was lost fails too
  (`MultipartExample.FailedRunLeavesManifest`).
* A keyring name of white space only is accepted by `connections add`, but the file written
  then cannot be loaded any more, so every later command fails; a name that ends in white
  space reads back without it, and resolves only if that other entry exists
  (`config/secret.go:37-51`). `ConfigStore.BlankNamesBreak`, `ConfigStore.AddedResolves` and
  `ConfigStore.CommandKeeps` give the exact conditions, `ConfigStore.BlankNameExample` and
  `ConfigStore.TrailingSpaceExample` the inputs.
* `pipeline/mysql.go:336-337` says that an unrecognised grant yields a warning, never the
  reverse. Because rows are upper-cased first, a schema spelt `MySQL` on a server with
  case-sensitive names is taken for `mysql` (`ShowGrants.LookalikeAccepted`).
  `ShowGrants.ScannerAgainstSpelling` says exactly when the answer differs from the meaning
  with names as they are spelt; with names in upper case the scanner is exact.
* `pipeline/prune.go:207-209` describes the guard as refusing keys outside the scope or without
  the suffix. It also stops a pass that is to remove an artifact named like the bare suffix
  directly under its own scope, which the listing pairs like any other: a dropped backup's
  ciphertext or manifest, or a dangling manifest of ours. `Prune.PruneWith` states that without
  a failing call this is exactly when a pass stops, and `Prune.BareSuffixExample` gives a bucket
  with which it does and one, with an orphan of that name, with which it does not.

## Model

| member | source | states |
|---|---|---|
| `MultipartSafety.CompleteIsSound` | `pipeline/upload.go:132-145` | in every reachable state in which the upload is being completed, no part is in flight, the list is 1..n in order with n at most 10000, all parts but the last are full, the server holds each of them, their concatenation is the whole ciphertext of a dump that exited successfully, and total, hash and progress counter agree with it |
| `MultipartSafety.StoredIsWhole` | `pipeline/upload.go:119-157` | at any time, whatever object exists is the whole ciphertext of a successful dump, and a manifest exists only beside it and records exactly its size and contents |
| `MultipartSafety.DoneIsSound` | `pipeline/pipeline.go:241-292` | a run that returns no error has stored both objects, counted every uploaded byte, returns the recorded size and hash, and is in the final phase |
| `MultipartSafety.FailedLeaves` | `pipeline/upload.go:146-156` | a failed run leaves an object if and only if HEAD denied one that exists or only the manifest failed, and a manifest only if the reply to its write was lost |
| `MultipartSafety.FailureCompletesNothing` | `pipeline/upload.go:246-252` | once a part has failed, the dump has failed or the pipe was closed with an error, nothing is or was completed |
| `MultipartSafety.SlotsAndBuffers` | `pipeline/upload.go:185-230` | semaphore occupancy is the workers in flight plus the slot of the reader and never exceeds the limit; at most that many buffers are out, none has two owners or is also in the pool; what a worker has sent is a prefix of its own chunk, still in its buffer |
| `MultipartSafety.StepInv` | `pipeline/upload.go:162-257` | every step of every component keeps the invariant behind these results |
| `MultipartSafety.SourceStep` | `pipeline/pipeline.go:299-338` | what was drawn from the pipe stays a prefix of what the encoders owe, closing zstd before age only adds to it, and a clean close follows the whole output of a dump that exited successfully |
| `MultipartSafety.JoinedList` | `pipeline/upload.go:246-256` | the entries workers appended in any order sort to parts 1..n with the contents of the chunks |
| `MultipartSafety.ReachableInv` | `pipeline/upload.go:162-257` | the invariant holds in every reachable state |
| `MultipartExample.FailedUploadLeavesObject` | `pipeline/upload.go:146-156` | a reachable failed run whose complete object stays, because the reply to the completion was lost and HEAD failed |
| `MultipartExample.FailedRunLeavesManifest` | `pipeline/pipeline.go:274-281` | a reachable failed run whose backup is valid, because the reply to the manifest was lost |
| `MultipartProgress.NeverStuck` | `pipeline/upload.go:172-200` | in every reachable unfinished state that is not stalled on the dump, some step is enabled; after any cancellation it is a step of the uploader itself |
| `MultipartProgress.FailureWakes` | `pipeline/upload.go:172-183` | after a failed part the reader is never left waiting for a stalled dump |
| `MultipartProgress.StalledIsBlocked` | `pipeline/upload.go:172-183` | with no part in flight, waiting for a dump that neither prints nor exits is the one situation in which neither uploader nor feed can step |
| `MultipartProgress.FullMeansBusy` | `pipeline/upload.go:194-199` | a full semaphore at the select means that some worker is in flight |
| `MultipartProgress.OwnStepFalls` | `pipeline/upload.go:192-252` | a natural number falls with every step of the uploader and with every reply to it |
| `MultipartProgress.RunsEnd` | `pipeline/upload.go:192-252` | in any run, however interleaved, the uploader takes at most a fixed number of steps that depends on part size and retries only |
| `MultipartSuccess.GoodRunsSucceed` | `pipeline/pipeline.go:241-292` | whatever the interleaving, a run in which no call, part or encoder failed, nobody cancelled and the dump did not exit with an error does not fail unless its stream exceeds 10000 parts |
| `MultipartSuccess.GoodRunsGoOn` | `pipeline/upload.go:162-257` | and in every unfinished state of such a run a step that is no failure is possible, unless the dump stalls, the stream is too long or empty |
| `MultipartSuccess.FailedRunsAbort` | `pipeline/upload.go:132-156` | a run that fails while streaming or completing has called the abort one to three times, three times if the upload is still open; no other run calls it |
| `PartLists.SortedIsFull` | `pipeline/upload.go:253-256` | entries with distinct numbers, one for each chunk, sort to the chunks in order |
| `PartLists.FullContents` | `pipeline/upload.go:140-145` | the parts of the sorted list concatenate to the stream |
| `Uploader.Body.ReadFull` | `pipeline/upload.go:202-204` | io.ReadFull over a pipe: a full buffer, or what was left at a clean end, or the error of the writer, and nothing lost in between |
| `Uploader.PartJobs.UploadOne` | `pipeline/upload.go:219-229` | a part is counted and listed once the server holds it, otherwise the group fails and cancels |
| `Uploader.PartJobs.RunJob` | `pipeline/upload.go:217-230` | a job finishes, in any order, and gives back its buffer and its slot; every other job keeps its buffer, contents and number |
| `Uploader.PartJobs.Acquire` | `pipeline/upload.go:192-199` | a slot, or nothing if the run is cancelled; never more slots than the limit |
| `Uploader.PartJobs.TakeBuffer` | `pipeline/upload.go:185-201` | a buffer of part size that no job holds and that is not in the pool |
| `Uploader.PartJobs.Obtain` | `pipeline/upload.go:172-202` | slot first, then a buffer, while jobs finish and the run may be cancelled |
| `Uploader.PartJobs.Fill` | `pipeline/upload.go:202-203` | reading into that buffer disturbs no part in flight |
| `Uploader.PartJobs.PutBack` | `pipeline/upload.go:234-242` | an unused buffer and its slot go back |
| `Uploader.PartJobs.Go` | `pipeline/upload.go:205-217` | a new chunk gets the next number and a job of its own |
| `Uploader.PartJobs.Wait` | `pipeline/upload.go:246-249` | afterwards no job is left, and each chunk is listed once unless some part failed |
| `Uploader.StreamParts` | `pipeline/upload.go:162-257` | success means a clean end of the stream, and a sorted list of at most 10000 parts that is the whole stream: parts 1, 2, ... of exactly the part size but for the last, all held by the server, with size, hash and counter to match; a part failure is reported exactly if some part failed, too many parts only for streams beyond 10000 parts, a dump error only for streams that broke, and cancellation only if the run was cancelled from outside |
| `Uploader.ReadLoop` | `pipeline/upload.go:192-244` | the loop ends with everything read cut into chunks, each with a job, or with the fault that stopped it |
| `Uploader.InsertLast` | `pipeline/upload.go:253-255` | one element is moved left past every larger number, in place |
| `Uploader.SortByNumber` | `pipeline/upload.go:253-255` | the in-place sort by part number |
| `Uploader.Upload` | `pipeline/upload.go:123-157` | whatever ends up under the key is the whole of a clean stream; success returns its size and hash; an error leaves an object if and only if HEAD denied an existing one; without failing calls and cancellation every clean stream that is neither empty nor too long is uploaded; each kind of failure has its cause, and after every failure that follows the creation one to three aborts were attempted, three if the upload is still open |
| `Uploader.Abort` | `pipeline/upload.go:279-297` | one to three attempts, fewer than three only if the server confirmed that the upload is gone, which is when it returns true |
| `Uploader.PartServer.Head` | `pipeline/upload.go:301-308` | true only if the object exists; remembers a denied existing one |
| `Uploader.Run` | `pipeline/pipeline.go:241-292` | the manifest is written only for a completed object and records it; success if and only if the phase is final; which failure leaves and aborts what; success on every clean, non-empty, not too long stream if no call fails and nobody cancels |
| `Uploader.FeedPipe` | `pipeline/pipeline.go:299-338` | the pipe is closed once, cleanly if and only if no read and no write failed and the dump exited successfully; after a clean close it carried the age encoding of the zstd encoding of the whole output, after any other a prefix of that |
| `Uploader.BackUp` | `pipeline/pipeline.go:241-338` | from the dump to the manifest: whatever is stored is the whole ciphertext of a dump that exited successfully, a manifest only beside it and about it, and if the dump exits successfully, nothing fails and nobody cancels, a ciphertext that is neither empty nor too long is stored with its manifest |
| `Store.ObjectStore.GetObject` | `pipeline/list.go:266-274` | the object under a key, or a failure |
| `Listing.PageAdvances` | `pipeline/list.go:183-188` | a page adds exactly the keys up to its last one, and leaves fewer to come |
| `Text.BelowMeans` | `pipeline/list.go:246-252` | the order of keys decides at the first difference, and puts a proper prefix first |
| `Listing.ReadEntries` | `pipeline/list.go:219-243` | one entry for each stem, in the order met |
| `Prune.SelectPass` | `pipeline/prune.go:78-102` | the selection a pass works with is that of the whole scope |
| `Store.ObjectStore.ListPage` | `pipeline/list.go:183-188` | one list page: the keys after the token under the prefix, in byte order, and whether more follow |
| `Store.ObjectStore.DeleteObjects` | `pipeline/prune.go:226-241` | one batch of at most 1000 keys; an error or a reported failure may leave any part of it deleted |
| `Listing.ManifestEntry` | `pipeline/list.go:260-299` | a pair is valid if and only if its manifest is small enough, parses, and is trusted: this schema, this ciphertext, an id, a timestamp, this owner |
| `Listing.EntryMeans` | `pipeline/list.go:219-299` | in the fields of the two objects of a stem: which are dangling and which orphans; which pairs are valid, unsupported (small enough and of a schema above 1) and which corrupt; keys and size; a valid entry carries the time of its manifest, any other that of its stem |
| `BackupIds.StampReadsBack` | `pipeline/objectkey.go:60-66` | a stamp of a year of four digits is read as the date and time it was written from |
| `BackupIds.CreatedAtReadsBack` | `pipeline/list.go:301-314` | a listing dates an artifact of a run to the second the run began, whatever lies above the file and whatever random part its id has |
| `BackupIds.TimeOfStem` | `pipeline/list.go:301-314` | fourteen digits around a T, a Z or a fraction, and a dash are read as that instant, if the calendar has the day and the clock the second, and as no time otherwise |
| `BackupIds.NoTimeInStem` | `pipeline/list.go:301-314` | any other text before the dash, but for a fraction of a second, and any name without a dash, has no time |
| `BackupIds.FractionReadsBack` | `pipeline/list.go:309-313` | a fraction of up to nine digits, which the parser accepts unasked, is read in nanoseconds; a Z alone is none |
| `Listing.Observe` | `pipeline/list.go:192-216` | a listed object joins the pair of its stem or is ignored |
| `Listing.ListPairs` | `pipeline/list.go:183-217` | after the last page every artifact of the scope is in the pair of its stem, each stem once |
| `Listing.ReadManifest` | `pipeline/list.go:260-299` | the read manifest is classified as ManifestEntry says, or the listing fails |
| `Listing.EntryOf` | `pipeline/list.go:219-243` | dangling, orphan or classified by its manifest |
| `Listing.ListBackups` | `pipeline/list.go:172-254` | every stem of the scope with a ciphertext or a manifest is reported exactly once, classified, and nothing else; later times first, and of equal times the greater key first |
| `Listing.EntryInjective` | `pipeline/list.go:219-243` | different stems give different entries |
| `Listing.StemInScope` | `pipeline/list.go:192-215` | an artifact under a scope has its sibling under the scope |
| `Prune.GuardKeys` | `pipeline/prune.go:210-217` | passes if and only if every key lies in the scope, carries the suffix, and is more than both; otherwise it names an offending key |
| `Prune.GuardMeans` | `pipeline/prune.go:210-217` | a key passes if and only if it is the scope, a name that is not empty, and the suffix |
| `Prune.DeleteBatches` | `pipeline/prune.go:219-244` | all keys are gone, or it stopped early and some subset is |
| `Prune.DeleteBackups` | `pipeline/prune.go:177-197` | a single foreign key stops it before any deletion; ciphertexts go before any manifest |
| `Prune.DeleteKeys` | `pipeline/prune.go:200-205` | the same guard for a plain list of keys |
| `Prune.DeletableDangling` | `pipeline/prune.go:125-150` | of the given manifests exactly those of at most 1048576 bytes that parse, have schema 1 and, if there is an owner, its engine, cluster and database; a read that fails fails the pass |
| `Prune.SortOut` | `pipeline/prune.go:83-92` | orphans and dangling manifests are set apart |
| `Prune.PruneWith` | `pipeline/prune.go:77-116` | however it ends, what is gone is part of what the pass removes and no manifest is gone before its ciphertext; every key gone lies in the scope and has beside it, or is, a manifest of at most 1048576 bytes, of exactly schema 1 and of this owner, and about the ciphertext if there is one; if it finishes, exactly what the policy drops of the pairs with such a manifest, and exactly the dangling manifests of that kind, are gone; a dry run removes nothing and reports the same; without a failing call it stops if and only if it is to remove an artifact named like the bare suffix of its scope |
| `Prune.GuardedUnlessRefused` | `pipeline/prune.go:207-217` | everything a pass is to remove passes the guard if and only if none of it is named like the bare suffix of the scope |
| `Prune.BareSuffixExample` | `pipeline/prune.go:207-217` | a bucket at which every pass refuses, and one with an orphan of that name at which none does |
| `Prune.SelectionAfterInterruption` | `pipeline/prune.go:77-116` | an interrupted pass leaves a set of valid backups between the kept ones and all, on which the selection keeps the same |
| `Prune.PassAfterInterruption` | `pipeline/prune.go:77-116` | a full pass after an interrupted one ends in the bucket an uninterrupted one leaves |
| `Prune.CrashConfluence` | `pipeline/prune.go:54-57` | any number of interrupted passes and one full pass leave exactly what one uninterrupted pass leaves |
| `Prune.PassIdempotent` | `pipeline/prune.go:54-57` | a further pass removes nothing |
| `Prune.NoOrphanMade` | `pipeline/prune.go:191-197` | no pass makes an orphan, wherever it stops |
| `Prune.RemovedIsInScope` | `pipeline/prune.go:207-217` | everything a pass removes is an artifact under its scope |
| `Prune.KeptIsUntouched` | `pipeline/prune.go:102-113` | neither key of a kept backup is among what a pass removes |
| `Protocol.BetweenSiblings` | `pipeline/list.go:183-228` | only keys that extend the stem sort between a ciphertext and its manifest, so no page boundary separates them unseen |
| `Safety.StepKeepsInv` | `pipeline/prune.go:77-116` | every step of any upload, pass or outsider keeps the invariant of the protocol |
| `Safety.GreatestSurvives` | `pipeline/prune.go:77-116` | over every interleaving of uploads, passes with any valid policies, page boundaries, partial batches, crashes and foreign writes, the newest backup ever published keeps its ciphertext and its own manifest |
| `Safety.FloorSurvives` | `pipeline/prune.go:77-116` | over the same interleavings, every backup that a policy reached by those of all passes keeps of all ever published has its ciphertext and its own manifest |
| `Protocol.LeastIsReached` | `pipeline/retention.go:27-40` | every valid policy reaches the least one, which keeps the newest backup only |
| `Safety.NoOrphanEver` | `pipeline/prune.go:177-197` | in no reachable state is the ciphertext of a published backup left without its manifest |
| `Safety.UnpublishedUntouched` | `pipeline/prune.go:45-47` | an upload whose manifest has not landed keeps its ciphertext |
| `Safety.PassesStayInScope` | `pipeline/prune.go:207-217` | a pass deletes artifacts under its scope only |
| `Converge.StepSince` | `pipeline/prune.go:77-150` | while nothing is uploaded, every step of any number of concurrent passes of one policy stays within what one interrupted pass may do |
| `Converge.PassesConverge` | `pipeline/prune.go:77-150` | whatever such passes did together, crashed or not, one full pass then ends where one pass over the original bucket ends, and the next finds nothing |
| `Finish.FinishedPassIsWhole` | `pipeline/prune.go:77-150` | when one of such concurrent passes is through with its last stage, the bucket is exactly what one uninterrupted pass over the original bucket leaves |
| `Retention.Validate` | `pipeline/retention.go:27-40` | accepts exactly the policies with all counters in 0..3650 and one of them positive |
| `Retention.SortedValid` | `pipeline/retention.go:94-108` | the valid backups, each as often as before, newest first with the key as tie-break |
| `Retention.Mark` | `pipeline/retention.go:58-74` | one marking loop adds exactly the first backup of each of the first n buckets met |
| `Retention.SelectRetention` | `pipeline/retention.go:48-90` | keep and drop split the valid backups, later times first and of equal times the greater key; on distinct keys the kept ones are exactly the newest of all, those each counter keeps for its own period, or all if all counters are zero |
| `Retention.KeptForMeans` | `pipeline/retention.go:58-80` | a counter n keeps a backup if and only if no later one, nor one of the same instant with a greater key, shares its label, and fewer than n greater labels have backups |
| `Retention.MarkedIffKeptFor` | `pipeline/retention.go:58-74` | a key is marked if and only if its backup is the newest of a bucket with fewer than n later buckets |
| `Retention.MarkingIsKeeping` | `pipeline/retention.go:54-80` | the union of the marks is the declared set |
| `Retention.NewestIsKept` | `pipeline/retention.go:42-47` | the newest valid backup is always kept |
| `Retention.SelectionStable` | `pipeline/retention.go:48-90` | selecting from any set between the kept and the valid backups keeps the same |
| `Retention.PruneThenAdd` | `pipeline/retention.go:48-90` | pruning before new backups arrive does not change what is kept after |
| `Retention.PruneFrequencyIrrelevant` | `pipeline/retention.go:9-13` | pruning after every batch of backups ends where one pruning of everything ends |
| `Retention.KeepSetSize` | `pipeline/retention.go:9-21` | at most daily + weekly + monthly backups are kept |
| `Retention.RaisingKeeps` | `pipeline/retention.go:54-80` | raising a counter of a non-zero policy never drops what was kept |
| `Retention.OneMoreDropsFew` | `pipeline/retention.go:54-89` | one newer backup added to an already pruned set drops at most one backup for each positive counter |
| `Retention.DisplacedAtMostOne` | `pipeline/retention.go:58-74` | a newer backup displaces at most one backup of one counter |
| `Calendar.YearOfSpec` | `pipeline/retention.go:75-80` | a day lies between the new year of its year and the next, by the Gregorian rule |
| `Calendar.DateOfDay` | `pipeline/retention.go:75-80` | the date of a day is a real date and converts back to the day |
| `Calendar.NextDay` | `pipeline/retention.go:75-80` | each day has the date after the one before: the next of a month of 31, 30, 29 or 28 days by the Gregorian rule, the first of the next month, or January 1 |
| `Calendar.MonthLength` | `pipeline/retention.go:80-80` | from the first of a month on, that many days bear its date in turn, and then comes the first of the next month |
| `Calendar.RealDateMeans` | `pipeline/list.go:309-313` | the dates there are: thirty days in months 4, 6, 9 and 11, 28 or 29 in month 2, 31 in the others |
| `Calendar.FirstDay` | `pipeline/retention.go:75-80` | the count of days begins at 0001-01-01 |
| `Calendar.DayOfDateMonotone` | `pipeline/retention.go:75-80` | earlier dates are earlier days |
| `Calendar.WeekIsIso` | `pipeline/retention.go:76-79` | the week label is the week date of ISO 8601, section 4.1.4: weeks count from the Monday of the week with January 4 |
| `Calendar.WeeksInYear` | `pipeline/retention.go:76-79` | a year has 53 weeks exactly if it starts on a Thursday, or on a Wednesday and is a leap year, and 52 otherwise |
| `Calendar.NextWeek` | `pipeline/retention.go:76-79` | the week label changes on Mondays only, to the next number, or to week 1 of the next year after number 53 in a year that starts on a Thursday, or on a Wednesday and is a leap year, and after 52 in any other |
| `Calendar.WeekOne` | `pipeline/retention.go:76-79` | January 4 lies in week 1 of its year |
| `Calendar.FirstWeek` | `pipeline/retention.go:76-79` | the count of weeks begins with week 1 of year 1 |
| `Calendar.SameWeekIffSameMonday` | `pipeline/retention.go:76-79` | the week label changes exactly at Monday |
| `Calendar.DailyLabelExact` | `pipeline/retention.go:75-75` | two instants share a daily label exactly on the same UTC day |
| `Calendar.WeeklyLabelExact` | `pipeline/retention.go:76-79` | two instants share a weekly label exactly in the same Monday-to-Sunday week |
| `Calendar.MonthlyLabelExact` | `pipeline/retention.go:80-80` | two instants share a monthly label exactly in the same month |
| `Calendar.LabelMonotone` | `pipeline/retention.go:58-80` | labels never decrease with time, across year ends and 53-week years |
| `Backups.SortNewestFirst` | `pipeline/list.go:246-252` | the in-place sort gives the same elements newest first, the greater key first among equal times |
| `Calendar.WeekMonotone` | `pipeline/retention.go:76-79` | ISO year and week never decrease from day to day |
| `Calendar.YearOfUnique` | `pipeline/retention.go:75-80` | no other year contains the day |
| `Retention.Split` | `pipeline/retention.go:82-89` | keep and drop in the order of the list, together all of it |
| `Retention.KeptForSize` | `pipeline/retention.go:58-74` | one counter keeps as many backups as it says, or one for each bucket if there are fewer |
| `Keys.SanitizeKeySegment` | `pipeline/objectkey.go:79-98` | ".", ".." and the empty name become %2E, %2E%2E and %; in any other name each slash, backslash, space, percent sign, control byte and 0x7f becomes a percent sign and its two upper-case hexadecimal digits and every other byte stays, so a name without such bytes is returned as it is |
| `Keys.SanitizeReadsBack` | `pipeline/objectkey.go:68-98` | every name can be read back from its segment, so distinct names have distinct segments |
| `Keys.SanitizeIsSafe` | `pipeline/objectkey.go:68-98` | no segment is empty, a dot, two dots, or has a slash, a space, a backslash or a control byte |
| `Keys.LabelsShared` | `pipeline/dump.go:70-76` | two servers share a cluster label exactly if they are the same or one uses the default port and its host is spelt like host and port of the other |
| `Paths.DirOfCleanChild` | `pipeline/list.go:147-149` | the directory of a cleaned child is the cleaned path, for every path |
| `Paths.CleanOfChild` | `pipeline/objectkey.go:42-56` | cleaning a path with a safe piece added leaves the piece at the end |
| `Paths.CleanLaws` | `pipeline/objectkey.go:42-56` | a trailing slash or dot changes nothing, and a double dot undoes the safe piece before it, after any path |
| `Paths.CleanDots` | `pipeline/objectkey.go:42-56` | a double dot stays in front of a relative path and vanishes at the root; nothing is a dot |
| `Keys.ScopeRoundTrip` | `pipeline/list.go:143-170` | for every prefix, dotted or with doubled slashes, the scope read off a key is the scope the configuration derives, and the key is that scope, year, month and file |
| `Keys.ManifestSharesScope` | `pipeline/manifest.go:40-44` | the manifest of a key is its sibling in the same scope with the other suffix |
| `Keys.KeyExample` | `pipeline/objectkey_test.go:45-63` | the published example of a key, and the same layout for MySQL without a prefix |
| `Keys.ScopeShape` | `pipeline/list.go:163-169` | a scope is the root of the prefix, then engine, cluster label and encoded database, each followed by a slash |
| `Keys.ScopesSeparate` | `pipeline/objectkey.go:68-78` | for one prefix, a scope that is a prefix of another belongs to the same engine, label and database |
| `Keys.KeysSeparate` | `pipeline/objectkey.go:68-78` | no key lies in the scopes of two databases |
| `Keys.TrimmedPrefix` | `pipeline/objectkey.go:32-32` | the prefix is the URL path without its outer slashes |
| `Keys.KeysAreRelative` | `pipeline/objectkey.go:32-56` | no key under a destination starts with a slash |
| `Scopes.GuardSeparates` | `pipeline/prune.go:207-217` | a key the guard of one database lets through is in no scope of another |
| `Scopes.OthersUntouched` | `pipeline/prune.go:207-217` | a pass leaves every object of every other database as it is |
| `Scopes.PassesCommute` | `pipeline/prune.go:58-74` | passes of two databases commute |
| `Scopes.PruneFor` | `pipeline/prune.go:58-74` | a bad policy or an unexpected scope stops Prune before it touches anything; without a failing call it succeeds if and only if policy and scope are right and, unless it is a dry run, the pass does not refuse; in every outcome other databases keep all their objects |
| `Scopes.DeleteGiven` | `pipeline/prune.go:159-175` | unless every given entry is a valid backup whose manifest has the engine, cluster and database of the configuration, and both keys lie in its scope with a name and the right suffix, nothing is deleted, and otherwise it succeeds unless a call fails; other databases keep all their objects |
| `Scopes.RunIsListed` | `pipeline/pipeline.go:257-273` | the two keys Run writes are the artifacts of one stem in the scope a pass over the same configuration lists, and in any bucket that holds an object and this manifest under them the listing reports a valid backup of that time and size |
| `S3Policy.ValidatePrefix` | `onboard/onboard.go:210-238` | accepts exactly the prefixes whose text between the outer slashes has no star, question mark, percent sign, dollar before a brace, character below 32 or 127, two slashes in a row, or piece that is a dot or two, and returns that text |
| `S3Policy.Generate` | `onboard/onboard.go:248-298` | refuses exactly the unusable buckets and prefixes; otherwise grants exactly PutObject, AbortMultipartUpload, ListMultipartUploadParts and GetObject, and DeleteObject if and only if asked, on the objects of the bucket under the prefix, and listing within it |
| `S3Policy.GlobPrefix` | `onboard/onboard.go:266-271` | literal text with a star behind it matches exactly what starts with the text |
| `S3Policy.PrefixIsLiteral` | `onboard/onboard.go:201-209` | path cleaning takes an accepted prefix as it is |
| `S3Policy.ObjectsCovered` | `onboard/onboard.go:257-282` | the object resource matches an object if and only if it is in this bucket and under the prefix |
| `S3Policy.CallsAllowed` | `onboard/onboard.go:240-265` | a call on an object, from creating the upload to deleting the backup, is allowed if and only if the object is in this bucket under the prefix and, for a deletion, deletions were asked for |
| `S3Policy.ListingsCovered` | `onboard/onboard.go:267-290` | the list condition matches a requested prefix if and only if it is within the prefix |
| `S3Policy.RunIsCovered` | `onboard/onboard.go:240-247` | every key a run writes, its manifest and the listed scope are covered |
| `Grants.QuotedReadsBack` | `onboard/onboard.go:31-39` | every quoted identifier reads back to the name with nothing left over |
| `Grants.StringReadsBack` | `onboard/onboard.go:60-66` | every string literal reads back to the text in the default sql_mode |
| `Grants.StringWithoutEscapes` | `onboard/onboard.go:60-66` | with NO_BACKSLASH_ESCAPES it does so exactly for texts without a backslash |
| `Grants.EscapedIsExact` | `onboard/onboard.go:41-52` | where wildcards are active the escaped name matches a database if and only if it is the listed one |
| `Grants.NamesAreExact` | `onboard/onboard.go:41-58` | names without special characters match only themselves in both server modes; the escaped spelling under partial_revokes names the listed database only if it needed no escape |
| `Grants.MySQLGrants` | `onboard/onboard.go:140-199` | succeeds exactly if there is a database and no name is empty or has a control character, with the lines of the script; names the first complaint otherwise |
| `Grants.ScriptLines` | `onboard/onboard.go:140-199` | the script has exactly these lines: the user with a random password, first; SELECT, SHOW VIEW, EVENT and TRIGGER for that user at any host on each database that needs no escape, and the same in two commented spellings on each that does; SHOW_ROUTINE on everything, with its commented substitute; and the flush, last |
| `Grants.GrantReadsBack` | `onboard/onboard.go:161-184` | a grant line reads back to its name and user |
| `Grants.ScriptIsExact` | `onboard/onboard.go:153-186` | run as it stands, in either mode, the script grants exactly the listed databases without underscore, percent sign and backslash; with the lines for the mode of the server uncommented, exactly the listed ones |
| `Grants.ScriptIsLines` | `onboard/onboard.go:14-29` | no accepted name breaks a line, so no comment of the script ends early |
| `Grants.PostgresGrants` | `onboard/onboard.go:75-127` | succeeds exactly if there is a database and no name is empty or has a control character, with the statements of the script and its psql command; names the first complaint otherwise |
| `Grants.PostgresScriptIsExact` | `onboard/onboard.go:87-103` | the script lets the role, and nobody else, connect to exactly the listed databases |
| `Grants.PostgresLines` | `onboard/onboard.go:87-103` | the script has exactly these lines: the role with LOGIN, its password prompt, pg_read_all_data, and for each database a REVOKE of CONNECT from PUBLIC and a GRANT of it to the role |
| `Grants.PasswordReadsBack` | `onboard/onboard.go:93-96` | the psql command names the role with nothing after it |
| `Grants.PostgresScriptIsLines` | `onboard/onboard.go:14-29` | no accepted name breaks a line of the script |
| `Grants.ConnectIsExact` | `onboard/onboard.go:88-91` | the role may connect to exactly the listed databases, each closed to PUBLIC first |
| `ShowGrants.PrivListHas` | `pipeline/mysql.go:399-409` | true if and only if some piece between commas is the privilege |
| `ShowGrants.HasRoutineGrant` | `pipeline/mysql.go:348-381` | the two loops compute the predicate the next rows are about |
| `ShowGrants.ScannerIsExact` | `pipeline/mysql.go:333-381` | on rows printed from privilege grants, partial revokes and role assignments with arbitrary quoted names, the answer is yes if and only if there is a global SHOW_ROUTINE, or, with no SELECT or ALL PRIVILEGES revoked, a global SELECT or ALL PRIVILEGES, or a SELECT on mysql.proc or mysql.*, names compared in upper case, and none of these on columns only |
| `ShowGrants.PaddedRows` | `pipeline/mysql.go:351-359` | white space around the rows changes nothing |
| `ShowGrants.ScannerAgainstSpelling` | `pipeline/mysql.go:333-381` | where names are case-sensitive, the answer is yes if and only if the grants suffice as spelt, or nothing is revoked and some SELECT is on a schema or table whose name only folds to that of the system |
| `ShowGrants.AssigningRow` | `pipeline/mysql.go:339-342` | a role assignment proves and restricts nothing, whatever the role is called |
| `ShowGrants.GrantingColumns` | `pipeline/mysql.go:388-397` | a grant on columns proves nothing, whatever the columns are called |
| `ShowGrants.HasIsNames` | `pipeline/mysql.go:402-409` | in a printed list exactly the printed privileges are found |
| `ShowGrants.TargetTests` | `pipeline/mysql.go:363-369` | the tests of the target hold exactly for *.*, mysql.proc and mysql.* |
| `ShowGrants.LookalikeAccepted` | `pipeline/mysql.go:351-369` | a schema spelt MySQL, or with a long s, is taken for mysql |
| `ShowGrants.GrantingPlain` | `pipeline/mysql.go:357-379` | a grant without columns proves what it means |
| `ShowGrants.RevokingRow` | `pipeline/mysql.go:350-356` | a partial revoke restricts exactly if it names SELECT or ALL, and proves nothing |
| `ShowGrants.PlainRow` | `pipeline/mysql.go:388-397` | a printed list without quotes is cut exactly where it ends |
| `ShowGrants.PrivilegesCut` | `pipeline/mysql.go:383-397` | the list is what stands before the first " ON ", and is ignored if it holds a quote of any of the three kinds |
| `ShowGrants.UnquotedTargets` | `pipeline/mysql.go:363-379` | mysql.proc and mysql.* count without quotes too, for a SELECT with nothing revoked |
| `ConfigStore.RefReadsBack` | `config/secret.go:30-51` | a reference is written as keyring: or env: and its name; it reads back as itself if and only if its name does not end in Unicode white space, and is refused if and only if it is blank |
| `ConfigStore.PaddedReadsBack` | `config/secret.go:37-51` | white space around a reference is skipped; what then begins with neither word, or ends behind it, is refused |
| `ConfigStore.ConfigReadsBack` | `config/store.go:125-158` | a configuration without such names is loaded as it was saved |
| `ConfigStore.SecretRefStillUsed` | `cmd/dbferry/config_cmds.go:502-516` | true if and only if the password of some connection or one of the three keys of some destination refers to the entry |
| `ConfigStore.NamesMean` | `cmd/dbferry/config_cmds.go:502-516` | the entries in use are there if and only if that of every connection and of each of the three keys of every destination is |
| `ConfigStore.Machine.StoreWithRollback` | `config/secret.go:103-129` | on success, which is when no keychain call fails, the undo it returns restores the exact prior keychain; an unreadable entry is not overwritten |
| `ConfigStore.Machine.RunUndo` | `config/secret.go:120-128` | it restores the prior keychain if and only if its call does not fail |
| `ConfigStore.Machine.UpsertConnection` | `cmd/dbferry/config_cmds.go:488-500` | the file changes in one step under the lock, by that connection only, or not at all; it does if nothing goes wrong and the file loads |
| `ConfigStore.Machine.ConnectionsAdd` | `cmd/dbferry/config_cmds.go:179-200` | in every outcome, crashes included: the file changes only after the secret is stored, and by that connection only; a failure whose undo succeeded, and any failure without a failing keychain call, leaves file and keychain as they were; if nothing goes wrong it succeeds exactly if the file loads |
| `ConfigStore.Machine.ConnectionsRm` | `cmd/dbferry/config_cmds.go:217-261` | the file changes first, by that connection only; it succeeds if the connection exists and neither lock, file nor process fails, and if no keychain call fails either, its entry is gone exactly if no other record refers to it |
| `ConfigStore.Machine.DestinationsAdd` | `cmd/dbferry/config_cmds.go:378-396` | the file changes in one step, by that destination only, or not at all; it does if nothing goes wrong and the file loads |
| `ConfigStore.Machine.DestinationsRm` | `cmd/dbferry/config_cmds.go:410-454` | the file changes first, by that destination only; it succeeds if the destination exists and neither lock, file nor process fails, and if no keychain call fails either, exactly those of its three entries are gone that no other record refers to |
| `ConfigStore.CommandKeeps` | `cmd/dbferry/config_cmds.go:179-262` | whatever fails and wherever it dies, a command leaves every reference of the file resolving if and only if it leaves the file alone or each reference it introduces, without the white space behind its name, is not empty and, in the keychain, is the stored entry or another existing one |
| `ConfigStore.ReferenceKept` | `cmd/dbferry/config_cmds.go:245-259` | reference by reference, what resolved before a command and is still in the file resolves after it |
| `ConfigStore.RunsKeep` | `cmd/dbferry/config_cmds.go:179-262` | over any sequence of commands, all references resolve all the way if and only if every command that changed the file met that condition where it ran |
| `ConfigStore.BlankNamesBreak` | `config/secret.go:37-51` | after an added connection the file loads if and only if the name of the reference is more than white space |
| `ConfigStore.AddedResolves` | `config/secret.go:103-129` | the added reference is read back without the white space behind its name, so as given if and only if there is none; the secret is stored under the given name |
| `ConfigStore.BlankNameExample` | `cmd/dbferry/config_cmds.go:141-192` | a name of one character is always added, and the file then fails to load exactly for the 25 white space characters of Unicode |
| `ConfigStore.TrailingSpaceExample` | `cmd/dbferry/config_cmds.go:141-192` | a name with a space behind it is added, the file loads, and its reference does not resolve |
| `ConfigLock.NoLostUpdate` | `config/store.go:89-120` | however commands interleave, fail and die, the file is what those that wrote it make of it one after the other, in the order they got the lock, each once; at any time the lock is held exactly by the command between taking it and letting go |
| `ConfigLock.GetsThrough` | `config/store.go:89-120` | a command that finds the lock free, is not disturbed and does not refuse applies its change to the file as it finds it and lets go |

## Left out

- Uploader.StreamParts: jobs run at the points where the reader waits; interleavings inside a read or inside a part upload are those of `Multipart.dfy` only.
- Uploader.BackUp: the pipe is filled before it is drained; feed and uploader run side by side in `Multipart.dfy`.
- Uploader.Body.ReadFull: a dump that stalls is not modelled here but in `Multipart.dfy` and `MultipartProgress.dfy`.
- MultipartProgress.NeverStuck: says which steps are possible, not that a scheduler takes them, and a dump that stalls with no failure may stall forever, as in the program.
- Listing.ReadManifest: parsing is abstract; an object carries the manifest its JSON gives, if any, and the parsed timestamp, if any.
- Grants.MySQLGrants: the explanatory comment lines that carry no name are not part of the modelled script.
- Grants.PostgresGrants: the same.
- S3Policy.ListingsCovered: IAM policy variables and the JSON rendering of the policy.
- ShowGrants.ScannerIsExact: rows printed with ANSI_QUOTES on, and rows of other servers, are not modelled.
- ConfigStore.RunsKeep: commands run one at a time; the keychain is written before the lock is taken, so concurrent commands may interfere in the keychain.
- ConfigLock.NoLostUpdate: the keychain is not part of this system.
- ConfigStore.RefReadsBack: names are valid UTF-8.
- The AWS SDK with its retries, HTTP, client construction and the destination probe: S3 is a map with steps that may fail.
- age, zstd, SHA-256, the dump tools, database drivers and queries.
- URL and DSN parsing, TOML, JSON, flags, prompts, output, doctor, diagnose, progress rendering and redaction.
- Ids and clocks: ids are given and fresh, times are given.
- File permissions, the owner check and the temporary file behind the atomic rename.
- Classification of errors: the model tells kinds of failure apart where the program acts on them.
