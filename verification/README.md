# Verified model of the subtitle extractor

A Dafny model of the parts of the subtitle extractor where state, concurrency or text formats are
easy to get wrong, with proofs. `dafny verify dfyconfig.toml` checks the whole project.

**The job queue and the worker protocol.** `JobTable` has the `jobs` table with one row update per
SQL statement; `Protocol` has the handlers, the requeuer and the cleanup run each as one step, and
what holds in every run; `Histories` has what a row tells of its job's past; `Blobs` and
`ResultFiles` follow videos and results; `Server` is the handlers as they run, each a few statements
that together make exactly one step; `ClaimLocks` is the claim query under row locks. `StorageUse`
and `Upload` are storage accounting and the quota, `QuotaRuns` uploads that overlap.

Who may move a job is settled only when a handler is one step: at statement granularity
`JobTable.LateCompleteEndsAnothersRun` shows a late post ending another worker's run. The clock, the
outcome of every blob operation and the rows locked by others are part of the steps.

**Readings into cues.** `Cues`, `Consensus` and `Tidy` are `merge_into_cues`, `consensus_text` and
the clean-up of texts of the worker, with `ConsensusTexts` for what the weights of the readings
decide and `Merging` for when what is read is shown, `BrowserCues` and `EditDistance` their browser
counterparts, `AutoZone` and `OrderText` the subtitle bands and the reading order. Times,
confidences and coordinates are reals. The similarity ratio is any function; edit scripts are any
blocks that cover both strings with equal blocks equal.

**Subtitle files.** `Editor` is `parseASS` and `toASS` with the text column in `EventText`,
`AssImport` files of others, `EditorSaves` repeated saving, `EditorSrt` `toSRT` and `toVTT`, `Srt`
and `WorkerAss` the worker's writers read by the editor, `Cleaning` what its cleaning of texts
keeps. Times are whole milliseconds.

**Small engines.** `NormalizeFr`, `Segment` and `FrenchFixes` are the French normalizer, `Cron` the
schedule of the cleanup, `BackendCache` the double-checked model cache as thread steps.

`Wrappers`, `Sequences` and `Text` hold what the others share.

## Findings

- A cron step close to 2^63 makes the loop variable wrap, and values below the part are set
  (`Cron.HugeStepStrays`); `Cron.PartExact` says exactly when a part is exact, and
  `Cron.MatchesIsDueIff` exactly when a whole expression is.
- When the usage query fails, an upload is checked against a usage of zero
  (`Upload.FailedQueryOverruns`); `Upload.QuotaKeptIff` says exactly when the quota holds for an upload
  with nothing between its reading of the usage and its row.
- Two overlapping uploads of one user both read the usage before either row is there, and store more
  than the limit (`QuotaRuns.TwoUploadsOverrun`); `QuotaRuns.OverlapIff` and `QuotaRuns.QuotaKeptInRunIff`
  say exactly when the quota holds in a run.
- A re-run request on an active job whose Stat fails for another reason than a missing blob marks
  the job as having lost its video (`Blobs.FailedStatMarksActiveJob`); `Blobs.NeverMarkedIff` says that
  nothing else does.
- The comment above `parseASS` calls the round trip of the editor's own output exact;
  it is not for a start of five milliseconds (`EditorSaves.OffGridStart`), and
  `Editor.AssRoundTripExact` says for which cues it is. What was opened is not always stable either
  (`EditorSaves.TaggedCueMoves`): `EditorSaves.SecondSaveExact` says when it is, and from the second
  opening on it is (`EditorSaves.ThirdSaveSettles`).
- A `Format:` line that puts start or end after the text makes `parseASS` throw
  (`Editor.CrashIff`).
- The normalizer is not idempotent for every lexicon (`NormalizeFr.JusquilChangesTwice`);
  `NormalizeFr.IdempotentIff` gives the exact condition, which is weaker than leaving the long prefixes
  unchanged.
- The comment at the arrow pattern says that `-->` is illegal in a WebVTT body, but one
  substitution pass leaves it there exactly for `--->` (`Srt.ArrowSurvivesInBody`,
  `Srt.LongArrowSurvives`).
- The editor's own SRT and WebVTT lose what stands behind an empty line in a text;
  `EditorSrt.EditorRoundTripExact` says for which texts nothing is lost.
- The comment at the support of a band asks that it recurs across the clip, but boxes are counted, not
  frames: those of a single frame can be enough (`AutoZone.OneFrameSupports`) unless each has one at most
  (`AutoZone.OneBoxEachSupports`).
- A zone that the top or the left of the frame cuts keeps its full height or width and reaches further on
  the other side (`AutoZone.TopBandReachesFurther`); `AutoZone.ZoneHugs` says exactly when it does not.
- The comment at the browser's junk filter calls it an exact port, but its letters are ASCII only:
  it drops a word of two accented letters (`BrowserCues.AccentedWordIsJunk`), and
  `BrowserCues.FiltersAgreeIff` says for which texts the two filters agree.

## Model

| member | source | states |
|---|---|---|
| JobTable.RunKeepsTable | api/internal/jobs/jobs.go:91-149 | Over every interleaving of statements on any number of jobs: attempt at most 3; queued means unclaimed with attempt at most 2; running means claimed, with heartbeat, start time and attempt at least 1; finish time exactly when final; start and claim times exactly when attempt is at least 1; an error message only when failed; succeeded means progress 100; never `claimed` |
| JobTable.StatementKeepsTable | api/internal/jobs/jobs.go:328-389 | One statement, whoever sends it, keeps that invariant, although completing, heartbeat and marking have no status guard |
| JobTable.NeverClaimedStatus | api/internal/jobs/jobs.go:98-101 | In no run from the empty table is a job `claimed` or tried more than three times |
| JobTable.LateCompleteEndsAnothersRun | api/internal/jobs/jobs.go:328-345 | At statement granularity a worker that passed the ownership check can end the run of the worker that claimed the stale job since |
| JobTable.Table.Create | api/internal/jobs/jobs.go:91-102 | The inserted row: queued, attempt 0, negative size recorded as 0 |
| JobTable.Table.Claim | api/internal/jobs/jobs.go:130-149 | Takes an oldest queued job of the classes that is not locked, or nothing if there is none, and writes the claimed row |
| JobTable.Table.UpdateProgress | api/internal/jobs/jobs.go:155-164 | Applies while the job runs and says whether it did |
| JobTable.Table.Heartbeat | api/internal/jobs/jobs.go:167-170 | Writes the heartbeat whatever the status |
| JobTable.Table.Complete | api/internal/jobs/jobs.go:328-345 | Writes the final status whatever the status was; the message only on failure, progress 100 only on success |
| JobTable.Table.Cancel | api/internal/jobs/jobs.go:350-358 | Cancels an active job and says whether it did |
| JobTable.Table.Rerun | api/internal/jobs/jobs.go:364-383 | Re-queues a finished job whose video is not marked, with its run state reset, and says whether it did |
| JobTable.Table.MarkVideoDeleted | api/internal/jobs/jobs.go:386-389 | Sets the mark once |
| JobTable.Table.Delete | api/internal/jobs/jobs.go:434-437 | Removes one row |
| JobTable.Table.RequeueStale | api/internal/jobs/jobs.go:515-530 | Re-queues exactly the stale running jobs, fails those at attempt 3, and counts the rows that differ |
| JobTable.RequeueExactly | api/internal/jobs/jobs.go:515-530 | A row changes if and only if its job runs and its last heartbeat lies more than the timeout before now; it then loses its claimant and is queued again, or failed with the time-out message at the third attempt, and nothing else of it changes |
| Protocol.OnlyTheClaimantPosts | api/internal/httpapi/handlers_internal.go:191-249 | A post takes effect only from the current claimant by name of an active job, is refused without effect from anybody else, and touches no other job |
| Protocol.RefusedUntilClaimed | api/internal/httpapi/handlers_internal.go:182-217 | In every run a worker that does not own a job stays refused until that name claims it |
| Protocol.ClaimantHeldSince | api/internal/httpapi/handlers_internal.go:182-217 | In every run whoever may post claimed the job and has owned it in every state since |
| Protocol.RequeueDisowns | api/internal/jobs/jobs.go:513-530 | Nobody owns a job that has just gone stale |
| Protocol.LastSign | api/internal/httpapi/handlers_internal.go:219-261 | In every run an owner has claimed, reported or sent a heartbeat as the owner, and its row shows the time of the last of these |
| Protocol.SilenceIff | api/internal/jobs/jobs.go:513-530 | In every run with an ascending clock a requeue leaves a job to its owner if and only if the owner gave a sign of life for it within the timeout |
| Protocol.SilentIsDisowned | api/internal/jobs/jobs.go:513-530 | In every run with an ascending clock a worker silent for longer than the timeout of a requeue owns nothing after it until it claims again |
| Protocol.LivelyOwnerKeeps | api/internal/jobs/jobs.go:513-530 | In every run with an ascending clock an owner with signs of life within the timeout of every requeue keeps its job as long as the job neither ends nor is removed |
| Protocol.OwnershipFromClaim | api/internal/httpapi/handlers_internal.go:120-153 | One step makes nobody an owner but a claim by that name of that job |
| Protocol.EpochStep | api/internal/jobs/jobs.go:132-149 | A step that does not start a job lowers a measure on (status, attempt) whenever it changes either, pays for a claim out of three and for an ending out of one |
| Protocol.EpochBounds | api/internal/jobs/jobs.go:348-383 | In every run, between one start of a job (upload or effective re-run) and the next: at most three claims, one ending and six changes of status or attempt |
| Protocol.TableAlwaysOk | api/internal/httpapi/handlers_internal.go:219-249 | In every run of the handlers the table keeps its invariant |
| Protocol.RowCases | api/internal/httpapi/handlers_jobs.go:484-567 | What one handler step can do to the status, claimant and attempt of a job |
| Histories.RowTellsPast | api/internal/jobs/jobs.go:155-383 | In every run a row tells what happened since its job was last started: as many attempts as claims, claim and start times of the last and first claim, stage and percentage of the last accepted report (100 for a success), finish time, final status and message of the step that ended it |
| Histories.RowFollows | api/internal/jobs/jobs.go:155-383 | One step that does not start a job changes in its row what its claim, report or ending says, and nothing else; the upload never changes |
| Histories.StartRow | api/internal/jobs/jobs.go:364-383 | A start leaves a row without a past, and a re-run keeps the upload |
| Histories.EverybodyIsOffered | api/internal/httpapi/handlers_internal.go:120-165 | In every run an enabled worker of any class gets no job only if all queued jobs are locked by other requests, and otherwise owns one that no unlocked queued job is older than |
| Histories.ClassesAsked | api/internal/httpapi/handlers_internal.go:120-131 | A worker asks for its own class and the one for anybody |
| Histories.CleanupByAge | api/internal/jobs/jobs.go:401-420 | A cleanup marks only videos not yet marked of jobs that finished before the cutoff, and all of them when every delete and mark works |
| Blobs.ActiveJobsKeepVideos | api/internal/httpapi/cleaner.go:126-157 | In every run, with any blob delete and any mark statement failing part-way through a cleanup: the video of every queued or running job is in the store, and no two jobs share one |
| Blobs.NeverMarkedIff | api/internal/httpapi/handlers_jobs.go:508-542 | In every run: no active job was ever marked as having lost its video if and only if no step was a re-run request on an active job whose Stat failed and whose mark was written |
| Blobs.MarksStayOffIff | api/internal/httpapi/handlers_jobs.go:508-542 | One step marks an active job if and only if it is such a request |
| Blobs.ActiveJobsNotMarked | api/internal/httpapi/handlers_jobs.go:508-542 | So in every run in which Stat fails only for missing blobs no active job is marked |
| Blobs.FailedStatMarksActiveJob | api/internal/httpapi/handlers_jobs.go:517-522 | Where Stat fails for another reason a re-run request marks an active job whose video is there |
| Blobs.CleanupResult | api/internal/httpapi/cleaner.go:126-157 | One cleanup run marks exactly the candidates whose delete and mark both succeeded, a marked video is gone, only old videos of finished jobs go, and nothing else changes |
| Blobs.OnlyGivenUpRemoved | api/internal/httpapi/handlers_jobs.go:546-599 | A step removes a video only of a job that is finished or leaves the table |
| ResultFiles.ListedCanBeFetched | api/internal/httpapi/handlers_internal.go:285-348 | In every run, whatever fails part-way: each result listed belongs to a job that is there, and its file is in the store, a file of its own, with the size recorded where one is |
| ResultFiles.ResultLasts | api/internal/httpapi/handlers_jobs.go:423-595 | In every run a result stays as it is, and so does its file, as long as nobody deletes it, its job or its user |
| ResultFiles.ResultsChange | api/internal/httpapi/handlers_internal.go:285-348 | A result leaves exactly when it, its job or its user is deleted, and appears exactly when its poster owns the job and storing and recording worked |
| ResultFiles.RemovedWhole | api/internal/httpapi/handlers_jobs.go:423-595 | A job leaves exactly when it is deleted, its last result or its user is; no result of it is left, and its files are gone where deleting them worked |
| Server.Server.BindWorker | api/internal/httpapi/handlers_internal.go:191-217 | Conflict when the job is gone, not active or claimed under another name, unauthorized without a name, otherwise let through |
| Server.Server.HandleCreateJob | api/internal/httpapi/handlers_jobs.go:98-147 | Video first, row after: exactly the upload step |
| Server.Server.HandleClaim | api/internal/httpapi/handlers_internal.go:120-165 | Asks for its own class and `any`, nothing for a disabled worker: exactly the claim step |
| Server.Server.HandleProgress | api/internal/httpapi/handlers_internal.go:219-249 | Ownership check and progress statement together: exactly the progress step, with its answer |
| Server.Server.HandleHeartbeat | api/internal/httpapi/handlers_internal.go:251-261 | Exactly the heartbeat step |
| Server.Server.HandleResult | api/internal/httpapi/handlers_internal.go:285-348 | Blob first, row after, size -1 when Stat fails: exactly the result step |
| Server.Server.HandleComplete | api/internal/httpapi/handlers_internal.go:350-373 | Exactly the completing step |
| Server.Server.HandleCancelJob | api/internal/httpapi/handlers_jobs.go:484-503 | Exactly the cancelling step, conflict when the job is not active |
| Server.Server.HandleRerunJob | api/internal/httpapi/handlers_jobs.go:508-542 | Exactly the re-run step; it succeeds exactly when it starts the job |
| Server.Server.HandleDeleteVideo | api/internal/httpapi/handlers_jobs.go:546-567 | Refused while active; marks first, then drops the blob: exactly that step |
| Server.Server.HandleDeleteJob | api/internal/httpapi/handlers_jobs.go:571-595 | Row and results first, blobs after: exactly that step |
| Server.Server.HandleDeleteResult | api/internal/httpapi/handlers_jobs.go:423-449 | The last result takes the job with it: exactly that step |
| Server.Server.HandleDeleteUser | api/internal/httpapi/handlers_admin.go:133-168 | Keys are listed before the rows go: exactly that step |
| Server.Server.RequeueTick | api/internal/httpapi/handlers_internal.go:377-399 | Exactly the requeue step, with the number of rows that differ |
| Server.Server.VideosForCleanup | api/internal/jobs/jobs.go:401-420 | Every candidate once and nothing else |
| Server.Server.CleanVideo | api/internal/httpapi/cleaner.go:128-150 | One candidate: the mark follows only a delete that worked; the size is what the store held |
| Server.Server.Execute | api/internal/httpapi/cleaner.go:103-174 | One run at a time; retention below one day counts as seven; exactly the cleanup step; the record lists the videos deleted and marked with the sizes they had, the bytes are their sum, and the status is partial exactly when something failed |
| ClaimLocks.NoDoubleClaim | api/internal/jobs/jobs.go:132-149 | Under any number of concurrent claims, aborts and other statements, no job is returned twice in one queued period, locked rows are queued and of the classes, and the table keeps its invariant |
| ClaimLocks.LockComesFromPick | api/internal/jobs/jobs.go:142-146 | Every lock goes back to a pick at which the job was the oldest unlocked queued one of the classes, and since then its row has not changed |
| ClaimLocks.ReturnedWasOldest | api/internal/jobs/jobs.go:132-149 | A returned claim wrote the picked row, claimed for the picking worker |
| ClaimLocks.EmptyPick | api/internal/jobs/jobs.go:142-146 | A pick is empty exactly when every queued job of its classes is locked |
| ClaimLocks.PickAnswers | api/internal/jobs/jobs.go:142-146 | A pick always has an answer |
| StorageUse.StorageUsedByUser | api/internal/jobs/jobs.go:470-481 | Videos not marked plus results joined with jobs, nulls left out |
| StorageUse.StorageUsedByUsers | api/internal/jobs/jobs.go:485-511 | In every state of the tables the grouped query gives each user what the query per user gives, and leaves out exactly users without rows |
| StorageUse.DeletedVideoFrees | api/internal/jobs/jobs.go:466-469 | Marking a video frees exactly its bytes, for its owner only |
| StorageUse.NewJobAdds | api/internal/jobs/jobs.go:466-469 | A new job adds exactly its bytes |
| StorageUse.NewResultAdds | api/internal/jobs/jobs.go:470-481 | A new result adds its size, when it is known, for the owner of its job and for nobody else |
| StorageUse.NothingStored | api/internal/jobs/jobs.go:470-481 | Without rows nothing is stored |
| Upload.CountingReader.Read | api/internal/httpapi/handlers_jobs.go:157-165 | Counts what was read and reports the quota error as soon as the limit is passed |
| Upload.Put | api/internal/httpapi/handlers_jobs.go:98-127 | Storing succeeds exactly when the stream is read to its end within the limit and the writing works |
| Upload.LimitInForce | api/internal/httpapi/handlers_jobs.go:29-43 | The limit an upload goes by: none where quotas are off, else that of the user where there is one, else the general one, and none or less is unlimited |
| Upload.GoodUploadIff | api/internal/httpapi/handlers_jobs.go:29-147 | A video sent without error, anywhere among form fields, is accepted if and only if no limit is in force or there is room for it and for the length declared, if one was |
| Upload.ChunkingIrrelevant | api/internal/httpapi/handlers_jobs.go:149-165 | Two error-free streams of one length are accepted alike, however cut into chunks |
| Upload.DrainClean | api/internal/httpapi/handlers_jobs.go:149-165 | An error-free stream is accepted exactly when its length is within the limit, and counted exactly |
| Upload.Uploads.HandleCreateJob | api/internal/httpapi/handlers_jobs.go:26-147 | The answer for every combination of settings, declared length and parts; a row is added exactly on success, with the size of the last file |
| Upload.QuotaHolds | api/internal/httpapi/handlers_jobs.go:29-59 | When nothing comes between the reading of the usage and the insert of the row, an accepted upload under a quota leaves recorded usage within the limit, whatever the declared length, the chunks and the wrap-around of the checks |
| Upload.KeptFromIff | api/internal/httpapi/handlers_jobs.go:33-59 | Whatever usage was read and whatever the tables hold when the row is inserted: every accepted upload leaves usage within the limit if and only if nothing is accepted or no more is stored than was read |
| Upload.QuotaKeptIff | api/internal/httpapi/handlers_jobs.go:33-59 | When nothing comes between the reading and the insert: every accepted upload, of any declared length and parts, leaves usage within the limit if and only if the usage query answers with a sum below 2^63, or nothing is stored |
| Upload.FailedQueryOverruns | api/internal/httpapi/handlers_jobs.go:38-42 | When the usage query fails the usage counts as zero, and an upload of the whole limit is accepted on top of what is stored |
| QuotaRuns.HandlerIsTwoSteps | api/internal/httpapi/handlers_jobs.go:29-147 | Reading the usage and recording the row, with nothing between, do what the handler does in one go |
| QuotaRuns.UsageIsRecorded | api/internal/httpapi/handlers_jobs.go:29-147 | In every run of readings, recordings and any other statements, what is stored for a user is what was stored before and the bytes recorded since |
| QuotaRuns.PendingWasRead | api/internal/httpapi/handlers_jobs.go:38-42 | In every run an upload that is streaming goes by a reading of its own, made once |
| QuotaRuns.OverlapIff | api/internal/httpapi/handlers_jobs.go:38-147 | In every run, an accepted upload leaves usage within its limit if and only if the bytes recorded for its user since it read the usage leave room for it |
| QuotaRuns.QuotaKeptInRunIff | api/internal/httpapi/handlers_jobs.go:38-147 | In every run, whatever is uploaded, the quota is kept if and only if nothing is accepted or what was stored at the reading and the bytes recorded since make no more than was read; for a reading that is right, if and only if nothing is accepted or those bytes come to nothing |
| QuotaRuns.OneByOneKeepsQuota | api/internal/httpapi/handlers_jobs.go:29-147 | In every run in which nothing is recorded for a user, on balance, between the reading and the recording of an upload of the user, and readings are right or nothing is stored, each accepted upload of the user leaves usage within its limit |
| QuotaRuns.TwoUploadsOverrun | api/internal/httpapi/handlers_jobs.go:38-147 | Two overlapping uploads of one user, both reading an empty store with a query that works, are both accepted and store twice the limit |
| Cron.MarkSpan | api/internal/cronspec/cronspec.go:88-91 | The inner loop, its variable wrapping at 64 bits, marks exactly lo, lo+step, ... up to hi, and below lo the multiples of 2^64 - 2 step |
| Cron.PartExact | api/internal/cronspec/cronspec.go:88-91 | A part marks just what it lists exactly when lo + 2 step < 2^64 |
| Cron.ParseField | api/internal/cronspec/cronspec.go:52-94 | A field is accepted exactly when every comma part is, and then its mask is known bit by bit |
| Cron.Parse | api/internal/cronspec/cronspec.go:25-50 | Accepted exactly with five accepted fields; every mask is known bit by bit, Sunday closed under 0 and 7 |
| Cron.MatchesIsDueIff | api/internal/cronspec/cronspec.go:96-114 | For every accepted expression: `Matches` is the set meaning, with the either-day rule, at all moments of the calendar if and only if the schedule fires on no day, or no minute and hour is a stray that is not listed and in every month that is set the stray days and weekdays are listed, hidden by a restricted day field that lists every day of the month, or on no day of it |
| Cron.BitsInRange | api/internal/cronspec/cronspec.go:23-50 | For every accepted expression every mask stays in the range of its field and day 0 is set exactly when day 7 is, but for bit 0 of the day and the month, set exactly when the lower bound of some part is a multiple of 2^64 - 2 step |
| Cron.PartReadsBack | api/internal/cronspec/cronspec.go:54-87 | A part written out with bounds and step is read back |
| Cron.DaysOfMonths | api/internal/cronspec/cronspec.go:96-114 | The calendar that matching is compared on has the days of the months of a leap year |
| Cron.PartForms | api/internal/cronspec/cronspec.go:54-87 | A star is the whole range, a number itself and two the values between, each with a step or without; out of range or upside down is refused |
| Cron.AtoiReads | api/internal/cronspec/cronspec.go:61-83 | Signs and leading zeros are read, numbers beyond 64 bits are not |
| Cron.AtoiRefuses | api/internal/cronspec/cronspec.go:61-83 | Nothing but digits, with or without a sign, is read as a number |
| Cron.FieldsOfWords | api/internal/cronspec/cronspec.go:26-29 | Words separated by blanks are the fields |
| Cron.HugeStepStrays | api/internal/cronspec/cronspec.go:88-91 | A step of 2^63 - d is accepted and marks values 2d, 4d, ... below the lower bound, even below the range |
| BackendCache.OneBuildAtATime | worker/subextractor/backends/__init__.py:44-49 | In every interleaving at most one build is in progress |
| BackendCache.BuiltOncePerUnload | worker/subextractor/backends/__init__.py:21-49 | In every interleaving a key is built at most once more often than the cache was emptied, so at most once without an unload |
| BackendCache.SameInstance | worker/subextractor/backends/__init__.py:21-76 | Without an unload all calls with one key return the same instance |
| BackendCache.AlwaysSafe | worker/subextractor/backends/__init__.py:40-76 | Only the holder of the lock is inside, what is being built is not cached, and whatever is handed out was built for its key |
| BackendCache.UnloadRebuilds | worker/subextractor/backends/__init__.py:84-92 | After an unload a call can return another instance |
| Editor.ParseASS | web/src/editor/subtitles.ts:132-190 | The loop over the lines is the line-by-line meaning of the file, including the lines on which it throws |
| Editor.AssRoundTrip | web/src/editor/subtitles.ts:228-254 | For any cues, parsing a printed file gives the size and the cues back, stably sorted by start: times at the nearest centisecond, text and position as the column reads, confidence lost |
| Editor.AssRoundTripExact | web/src/editor/subtitles.ts:126-190 | For any cues, nothing but the confidence is lost exactly when all times are on the centisecond grid, positions are digits that no other in the text comes before, and texts are trimmed and free of carriage returns, tags and escapes |
| EventText.TextKept | web/src/editor/subtitles.ts:172-185 | A text is read back from its column exactly when it is trimmed and free of carriage returns, tags and escapes |
| EventText.AlignmentKept | web/src/editor/subtitles.ts:180-182 | For any text, a position is read back exactly when it is a digit and, where it is written without a tag, none but 2 comes first in the text freed of carriage returns |
| EventText.StripEscaped | web/src/editor/subtitles.ts:183-183 | Tags are stripped alike before and after line breaks are escaped |
| EventText.ReadIsPlain | web/src/editor/subtitles.ts:179-185 | Whatever text was written, the text read is one that the column can carry |
| EditorSaves.SecondSaveExact | web/src/editor/subtitles.ts:126-254 | For any cues: what was saved and opened comes back as it is from being saved and opened again if and only if no cue read with position 2 has another position first in the text that was read |
| EditorSaves.ThirdSaveSettles | web/src/editor/subtitles.ts:126-254 | For any cues: from the second opening on, saving and opening changes nothing |
| EditorSaves.TaggedCueMoves | web/src/editor/subtitles.ts:180-185 | A cue with a tag for position 2 and another position in its text moves when it is saved a second time |
| EditorSaves.OffGridStart | web/src/editor/subtitles.ts:88-97 | A start of five milliseconds comes back as ten |
| Editor.ColumnOrderIrrelevant | web/src/editor/subtitles.ts:151-171 | Moving the columns of the Format line, Text staying last, and the values of every Dialogue line alike changes nothing |
| AssImport.OtherLinesIgnored | web/src/editor/subtitles.ts:132-190 | Comments, styles and other lines can stand anywhere in a file and make no difference |
| AssImport.HeaderNotNeeded | web/src/editor/subtitles.ts:132-190 | Dialogue lines alone are read, with the usual columns and a size of 1280 by 720 |
| AssImport.FontSizeIsTwentieth | web/src/editor/subtitles.ts:229-229 | The letters are a twentieth of the height, to the nearest whole and at least sixteen |
| Editor.CrashIff | web/src/editor/subtitles.ts:156-172 | Some Dialogue line makes the parser throw exactly when start or end come after the text |
| Editor.SortIsStable | web/src/editor/subtitles.ts:204-206 | The sort orders, loses nothing and keeps cues of one start time in order |
| Editor.AssTimeReadsBack | web/src/editor/subtitles.ts:88-97 | A printed time is read back as the nearest centisecond |
| Editor.SrtTimeReadsBack | web/src/editor/subtitles.ts:77-86 | A printed time is read back to the millisecond |
| WorkerAss.WriteAss | worker/subextractor/formats.py:78-105 | The file is the header and one Dialogue line a cue, in order |
| WorkerAss.WorkerFileOpens | worker/subextractor/formats.py:78-105 | For any cues the editor reads the worker's file back: size, order, times at the nearest centisecond, text and position as the column reads, confidence to the hundredth |
| WorkerAss.SizeForHeight | worker/subextractor/formats.py:79-81 | The letters are as large as asked for, or a twentieth of the height, cut down, and at least sixteen |
| WorkerAss.WorkerTextKept | worker/subextractor/formats.py:96-105 | Text and position come back exactly when the column can carry them |
| WorkerAss.WorkerAssTimeReadsBack | worker/subextractor/formats.py:49-56 | The worker's time is read back as the nearest centisecond, halves to even |
| WorkerAss.NearestIsNear | worker/subextractor/formats.py:49-56 | That is at most 5 ms away, and exact on the grid |
| Srt.CleanBlock | worker/subextractor/formats.py:18-31 | Cleaned text line by line |
| Srt.WriteFile | worker/subextractor/formats.py:59-75 | The file entry by entry, cues numbered before empty ones are skipped |
| Srt.ParseSRT | web/src/editor/subtitles.ts:101-124 | The loop over the blocks is the block-by-block meaning of the file |
| Srt.WorkerRoundTrip | worker/subextractor/formats.py:18-75 | Parsing what the worker wrote as SRT or WebVTT gives, in order, exactly the cues whose cleaned text is not empty, with their times and the trimmed cleaned text |
| Cleaning.TextCleaned | worker/subextractor/formats.py:18-31 | Cleaning keeps exactly the lines that are not blank, in order and freed of trailing carriage returns; in SRT only a lone arrow is changed, in WebVTT only lines with an arrow |
| Cleaning.CleanStays | worker/subextractor/formats.py:18-31 | A text without blank line, carriage return and arrow is cleaned to itself in both formats |
| Cleaning.CleanCuesComeBack | worker/subextractor/formats.py:18-75 | Such cues, written by the worker in either format, come back from the editor with their times and their own trimmed texts |
| Srt.StoredWhole | worker/subextractor/formats.py:18-31 | Text without carriage returns is stored as cleaned |
| Srt.ArrowSurvivesInBody | worker/subextractor/formats.py:18-31 | The body of a WebVTT cue, cleaned line by line, still holds `-->` exactly when the text holds `--->` |
| Srt.LongArrowSurvives | worker/subextractor/formats.py:26-26 | The text `--->` leaves an arrow in the body |
| EditorSrt.EditorRoundTrip | web/src/editor/subtitles.ts:101-226 | For any cues, SRT and WebVTT are read back as the cues stably sorted by start, each with its trimmed text up to the first empty line and followed by the cues found behind that line |
| EditorSrt.EditorRoundTripExact | web/src/editor/subtitles.ts:101-226 | For any cues, both formats bring back every cue alone with its trimmed text if and only if no trimmed text holds a carriage return and no text, freed of them, has an empty line before its last character that is not blank |
| EditorSrt.EmptyLineCuts | web/src/editor/subtitles.ts:201-212 | Of a paragraph, an empty line and anything else only the paragraph comes back as the text, followed by the cues that the rest holds by itself |
| EditDistance.LevRatio | web/src/clientside/clientOcr.ts:318-335 | The one-row loop computes the ratio of the recursive edit distance |
| EditDistance.DistanceSymmetric | web/src/clientside/clientOcr.ts:318-335 | The distance is symmetric |
| EditDistance.DistanceBounds | web/src/clientside/clientOcr.ts:318-335 | It is at least the difference of the lengths and at most the longer length |
| EditDistance.DistanceTriangle | web/src/clientside/clientOcr.ts:318-335 | It satisfies the triangle inequality |
| EditDistance.DistanceIsReached | web/src/clientside/clientOcr.ts:318-335 | As many insertions, deletions and replacements as the distance turn one string into the other |
| EditDistance.NoFewerEdits | web/src/clientside/clientOcr.ts:318-335 | No fewer do |
| EditDistance.RatioRange | web/src/clientside/clientOcr.ts:318-335 | The ratio lies in [0,1], is 1 exactly for equal strings and is symmetric |
| BrowserCues.Winner | web/src/clientside/clientOcr.ts:356-360 | The leader of the votes: most votes, then longest, then first |
| BrowserCues.WinnerHasMost | web/src/clientside/clientOcr.ts:356-360 | The winner was read at least as often as any text, and is the longest of those read as often |
| BrowserCues.VotesCount | web/src/clientside/clientOcr.ts:389-389 | The vote map holds each text once, with the number of its readings |
| BrowserCues.MergeCues | web/src/clientside/clientOcr.ts:352-401 | The loop cuts the non-blank readings into groups and makes a cue of each that passes |
| BrowserCues.GroupingUnique | web/src/clientside/clientOcr.ts:385-398 | There is only one way to cut readings exactly where more than two blanks intervene or a reading does not resemble the winner so far |
| BrowserCues.BrowserCuesSound | web/src/clientside/clientOcr.ts:361-384 | For samples at least an interval apart cues are in order, not empty and disjoint, and each passes the filters |
| BrowserCues.ReadsSpeak | web/src/clientside/clientOcr.ts:385-398 | The readings are the samples that say something, trimmed and in order, each with the number of silent samples since the one before |
| BrowserCues.CutsExplained | web/src/clientside/clientOcr.ts:385-398 | A reading stays with those before it exactly when at most two silent samples lie between and it is at least six tenths like a text that leads among them |
| BrowserCues.CuesOfMaking | web/src/clientside/clientOcr.ts:361-384 | The cues are those of the groups that have two frames, four tenths of a second, a text that is not junk and not too foreign, in order and no others |
| BrowserCues.FiltersAgreeIff | web/src/clientside/clientOcr.ts:275-297 | For every text: the browser's junk filter and the worker's agree if and only if what is left without white space is short enough to be dropped, by each language's white space and letters, in both or in neither; where both see the same white space they agree unless it is two or three characters of which some are letters but none an ASCII letter, and there the browser drops what the worker keeps |
| BrowserCues.AccentedWordIsJunk | web/src/clientside/clientOcr.ts:289-296 | A word of two accented letters is dropped in the browser only |
| BrowserCues.ByteOrderMarkIsJunk | web/src/clientside/clientOcr.ts:291-296 | A letter next to a byte order mark is dropped in the browser only |
| Consensus.AlignToAnchor | worker/subextractor/dedup.py:250-264 | The list filled block by block is the aligned reading |
| Consensus.CastVotes | worker/subextractor/dedup.py:294-297 | The vote maps filled reading by reading |
| Consensus.ConsensusText | worker/subextractor/dedup.py:267-308 | The text computed is the position-wise winners on the anchor, with the shortcuts for no and for equal readings |
| Consensus.AnchorIsBest | worker/subextractor/dedup.py:285-292 | No reading has a higher weighted similarity to the others than the anchor, and none before it as high |
| Consensus.VotesAreWeights | worker/subextractor/dedup.py:294-297 | Each entry is the weight of the readings that say so |
| Consensus.VotesAddUp | worker/subextractor/dedup.py:294-297 | Every reading casts one vote at every position: the votes add up to the total weight |
| Consensus.MajorityWins | worker/subextractor/dedup.py:299-307 | A character, or a deletion, with more than half of the weight wins |
| Consensus.MajorityText | worker/subextractor/dedup.py:299-308 | A line that more than half of the weight agrees on is the consensus |
| ConsensusTexts.ConsensusByWeight | worker/subextractor/dedup.py:267-308 | Over the texts and weights given, each weight at least a millionth: the anchor is closest to the others by the given weights, each place of it is elected by them, and a character or deletion that more than half of the weight agrees on is in the result |
| ConsensusTexts.AlignedAt | worker/subextractor/dedup.py:250-264 | What an alignment has at each place of the anchor: the character of the block that covers it, or nothing |
| ConsensusTexts.EmptyTextIgnored | worker/subextractor/dedup.py:271-279 | An empty text makes no difference |
| ConsensusTexts.UnfitWeights | worker/subextractor/dedup.py:274-278 | Weights not as many as the texts that are not empty count as all ones |
| ConsensusTexts.SmallWeights | worker/subextractor/dedup.py:278-278 | A weight below a millionth counts as a millionth |
| ConsensusTexts.SameTexts | worker/subextractor/dedup.py:279-283 | Texts that are all the same are the consensus |
| Consensus.Winner | worker/subextractor/dedup.py:304-307 | The winner does not depend on the order of the map |
| Consensus.WinnersOrderIrrelevant | worker/subextractor/dedup.py:294-308 | With the anchor fixed, the order of the readings does not matter |
| Consensus.ConsensusLength | worker/subextractor/dedup.py:267-308 | The consensus is never longer than the anchor |
| Consensus.AlignedIsSubsequence | worker/subextractor/dedup.py:250-264 | An alignment invents nothing: its characters are those of the reading, in order |
| Cues.GroupSamples | worker/subextractor/dedup.py:356-381 | The loop builds the groups of the maximal runs |
| Cues.RunsArePartition | worker/subextractor/dedup.py:356-381 | The runs are in order, cover the non-blank samples, are unbroken inside and separated by a blank or a dissimilar pair |
| Cues.PartitionUnique | worker/subextractor/dedup.py:356-381 | There is only one such partition |
| Cues.GroupsKeepTexts | worker/subextractor/dedup.py:356-381 | The texts of the groups, one after the other, are the stripped non-blank samples |
| Cues.BuildCue | worker/subextractor/dedup.py:384-410 | The cue of a group when it passes the filters |
| Tidy.WordsKept | worker/subextractor/dedup.py:243-247 | Tidying a text keeps every character that is not white space, in order |
| Tidy.LinesKept | worker/subextractor/dedup.py:243-247 | It has as many lines as the text has lines that are not blank, each trimmed and free of tabs and double blanks |
| Tidy.NormalizeIdempotent | worker/subextractor/dedup.py:243-247 | Tidying twice is tidying once |
| Tidy.PiecesAreLines | worker/subextractor/dedup.py:246-246 | Where line feeds are the only line breaks the pieces are the lines |
| Cues.ReadingKept | worker/subextractor/dedup.py:384-410 | Where all readings of a group are one text, the cue keeps every character of it that is not white space |
| Cues.CueExtent | worker/subextractor/dedup.py:395-405 | A cue's extent is the hull of its frames' extents exactly when leftmost edge and width lie between 0 and 1; they do when every extent is inside the zone with positive width, and then the width is zero exactly when no frame has one |
| Cues.ExtentIsHull | worker/subextractor/dedup.py:395-434 | For samples whose extents are inside the zone with positive width, as the pipeline passes them: the extent of every returned cue is the hull of the extents of all frames merged into it, and its width is zero exactly when none of them has one |
| Cues.BridgeCues | worker/subextractor/dedup.py:412-436 | The loop that bridges gaps |
| Merging.BridgeIs | worker/subextractor/dedup.py:412-436 | Cues are cut, in the only way, into stretches whose cues read like the first and begin soon after the one before ends, no stretch beginning with a cue near the first of the one before; each stretch becomes one cue with the text and position of its first, from its start to the end of its last, with all their frames |
| Merging.JoinedUnique | worker/subextractor/dedup.py:412-436 | There is only one such cut |
| Cues.BridgeKeepsFrames | worker/subextractor/dedup.py:412-436 | Bridging conserves the number of frames |
| Cues.BridgeIdempotent | worker/subextractor/dedup.py:412-436 | Bridging again changes nothing |
| Cues.BridgeDisjoint | worker/subextractor/dedup.py:412-436 | Bridging keeps cues ordered and disjoint |
| Cues.BridgePasses | worker/subextractor/dedup.py:412-436 | Bridged cues still meet the frame, duration and junk filters |
| Cues.ConfidenceIsMean | worker/subextractor/dedup.py:398-424 | Each confidence is exactly the mean over all frames merged into the cue |
| Cues.MergeIntoCues | worker/subextractor/dedup.py:323-437 | The whole function |
| Cues.MergedCues | worker/subextractor/dedup.py:323-437 | For samples at least a positive interval apart the cues are sorted, not empty in time, disjoint and pass the filters |
| Merging.SpokenIsShown | worker/subextractor/dedup.py:323-437 | For samples an interval apart, every sample of a run whose group passes the filters lies with its interval in the time of a returned cue |
| Merging.CueTimes | worker/subextractor/dedup.py:323-437 | A returned cue begins when a sample is read and ends an interval after a sample that is read or the silent one behind it |
| Merging.KeptArePassing | worker/subextractor/dedup.py:384-397 | The groups kept are those with enough frames, long enough and not junk, in order |
| Merging.MostCommonIs | worker/subextractor/dedup.py:384-386 | Without voting the text is the first of those that occur most often |
| Segment.Search.Rec | worker/subextractor/normalize_fr.py:127-140 | The recursion keeps the stack and replaces the best split only by a strictly shorter one, the earliest of its length |
| Segment.SegmentRun | worker/subextractor/normalize_fr.py:122-143 | The split with fewest pieces, the earliest in shortest-first order among those; none exactly when there is no split into 2 to `most` words of two letters or more |
| Segment.BestUnique | worker/subextractor/normalize_fr.py:122-143 | There is only one such split |
| NormalizeFr.FixRun | worker/subextractor/normalize_fr.py:146-171 | The loops over the prefixes and the split give the plan for the run |
| NormalizeFr.CapLikeKeeps | worker/subextractor/normalize_fr.py:118-119 | The capitalization step never changes an output that begins like its source |
| NormalizeFr.NormalizeLine | worker/subextractor/normalize_fr.py:174-176 | Every maximal letter run is replaced by its fixed form |
| NormalizeFr.RunDerives | worker/subextractor/normalize_fr.py:146-171 | A run stays, gets one apostrophe, has one `i` turned into one, or gets spaces |
| NormalizeFr.LineDerives | worker/subextractor/normalize_fr.py:174-176 | A line is never shortened and keeps every character in order but for inserted spaces and apostrophes and at most one `i` a run turned into an apostrophe |
| NormalizeFr.WordsUntouched | worker/subextractor/normalize_fr.py:148-149 | Text of valid words is left alone |
| NormalizeFr.StrictElision | worker/subextractor/normalize_fr.py:146-171 | A run that is no word but n, c, s, m or t before one of the short words that these elide before gets its apostrophe there |
| NormalizeFr.CestIsElided | worker/subextractor/normalize_fr.py:146-171 | `cest` becomes `c'est` when `est` is a word and `cest` is not |
| NormalizeFr.LongElision | worker/subextractor/normalize_fr.py:146-171 | A run that is no word but a long prefix before a word with a vowel first gets its apostrophe behind the prefix |
| NormalizeFr.OpenElision | worker/subextractor/normalize_fr.py:146-171 | So does qu, j, d or l before any such word, unless the run begins with a long prefix |
| FrenchFixes.FirstElision | worker/subextractor/normalize_fr.py:146-164 | A run that is no word is elided at the first prefix that can, and an `i` turned into the apostrophe only where the rest needs it |
| FrenchFixes.SplitOrStays | worker/subextractor/normalize_fr.py:146-171 | A run that is no word and cannot be elided is split, into as few words as possible and at most three, if it has five letters and can be; else it stays |
| FrenchFixes.GluedText | worker/subextractor/normalize_fr.py:165-171 | Two words read as one are parted by a blank, at their joint or before it, letters and capitals as they were |
| NormalizeFr.NonLetterKept | worker/subextractor/normalize_fr.py:174-176 | A non-letter stays, and what is left and right of it does not interact |
| NormalizeFr.IdempotentIff | worker/subextractor/normalize_fr.py:146-176 | For every lexicon: normalizing is idempotent on all texts exactly when each long prefix is itself left alone or is never put before a word |
| NormalizeFr.JusquilChangesTwice | worker/subextractor/normalize_fr.py:122-176 | With the words jus, qu and il, `jusquil` becomes `jusqu'il` and that becomes `jus qu'il` |
| AutoZone.Scan | worker/subextractor/pipeline.py:315-329 | The scan cuts the sorted boxes exactly at gaps beyond the tolerance |
| AutoZone.ClustersAreComponents | worker/subextractor/pipeline.py:315-329 | Two boxes are in one cluster exactly when a chain of boxes within tolerance connects them |
| AutoZone.EveryBoxOnce | worker/subextractor/pipeline.py:315-329 | Every box is in exactly one cluster |
| AutoZone.KeptAreDensest | worker/subextractor/pipeline.py:331-341 | At most two clusters, each with enough support, none dropped that has more |
| AutoZone.MinSupportIsFifth | worker/subextractor/pipeline.py:331-334 | At least two, and a fifth of the frames to within half a frame |
| AutoZone.OneFrameSupports | worker/subextractor/pipeline.py:331-334 | However many frames are sampled, the boxes of a single one can make a band that is kept |
| AutoZone.OneBoxEachSupports | worker/subextractor/pipeline.py:331-334 | Where no frame has more than one box, a band is kept only when at least a fifth of the frames have one |
| AutoZone.ZoneCovers | worker/subextractor/pipeline.py:343-365 | Before rounding a zone contains what of its cluster's boxes is in the frame |
| AutoZone.ZoneInUnitSquare | worker/subextractor/pipeline.py:355-365 | Before rounding a zone lies in the unit square |
| AutoZone.ZoneHugs | worker/subextractor/pipeline.py:343-365 | Before rounding a zone goes beyond the boxes of its cluster by the padding and no further; a side that the frame does not cut is reached exactly |
| AutoZone.TopBandReachesFurther | worker/subextractor/pipeline.py:355-361 | The zone of a band at the top of the frame goes twice as far below it as the padding says |
| AutoZone.ToleranceIsMedian | worker/subextractor/pipeline.py:318-322 | The tolerance is the median height of the boxes, at least 0.02 |
| AutoZone.BoxesAreDetected | worker/subextractor/pipeline.py:299-313 | The boxes are the detections that have an extent, at their place in the frame, frame by frame |
| AutoZone.AutoDetectZones | worker/subextractor/pipeline.py:290-372 | The whole detection: sampled frames, normalized boxes, tolerance, clusters, kept clusters, zones from top to bottom |
| AutoZone.ZonesAreSound | worker/subextractor/pipeline.py:336-372 | Every zone found is the rounded zone of a supported cluster, with both properties |
| OrderText.OrderText | worker/subextractor/pipeline.py:375-403 | Every box with text is in exactly one row, and the text is the rows by mean height |
| OrderText.BuiltKeeps | worker/subextractor/pipeline.py:388-397 | The running mean of each row is exactly the mean of its boxes, each box was within tolerance of it when it joined, and none is lost |
| OrderText.RowInOrder | worker/subextractor/pipeline.py:399-402 | A row goes from left to right and loses nothing |
| OrderText.RowReads | worker/subextractor/pipeline.py:399-403 | The text of a row is that of its boxes from left to right, blanks between |
| OrderText.ToleranceIsMedian | worker/subextractor/pipeline.py:385-386 | The tolerance of a row is sixty per cent of the median height |
| OrderText.OneLine | worker/subextractor/pipeline.py:388-403 | Boxes at one height are one line, read from left to right |
| OrderText.Column | worker/subextractor/pipeline.py:388-403 | Boxes further apart than the tolerance make a line each, from top to bottom |

## Left out

- Statement granularity for ownership and videos: who may move a job and that active jobs keep their videos are proved with each handler and each cleanup run one step; two concurrent deletions of results can leave a job without results.
- HTTP, JSON and multipart parsing, logging, audit, the event hub, the worker registry and authentication: the handlers' guards, answers and effects are modelled, a worker without a name stands for a failed authentication.
- `handleSaveResult`: results saved by the user, and results moved to another key.
- The ticker of the cleaner with its once-a-minute guard, a failing candidate query and the figure of checked videos: `Server.Execute` starts where the run does.
- A second file part in one upload: in the protocol an upload has one; in `Upload` the last one counts and blobs of earlier ones are not followed.
- Upload.CountingReader.Read: the byte count is unbounded, because the request body is capped far below 2^63 bytes.
- StorageUse.StorageUsedByUser: the sum is unbounded; one that does not fit 64 bits is an error of the query in `Upload`.
- ClaimLocks.NoDoubleClaim: a pick sees and locks in one instant; the re-check of a row that changed between snapshot and lock is not followed.
- Editor.AssRoundTrip: the generated cue ids are left out, and reading a number is a parameter that finds none in an empty name.
- WorkerAss.WorkerFileOpens: rounding to hundredths and reading a number are parameters assumed to agree on 0.00 to 1.00.
- Upload.QuotaHolds: nothing comes between the reading of the usage and the insert of the row; `QuotaRuns` has the two as steps of a run.
- Upload.QuotaKeptIff: likewise.
- QuotaRuns.QuotaKeptInRunIff: the streaming itself is one instant, and what other statements do to the tables is arbitrary.
- Floating point: times in `formats.py` and `subtitles.ts` are rounded from seconds to milliseconds or centiseconds in the source; here they are integers on the millisecond grid, and everything else is real.
- AutoZone.AutoDetectZones: rounding to four places is a parameter, and nothing is claimed of rounded zones; decoding and text detection are the input.
- Text encodings: a string is a sequence of characters; UTF-16 units, case folding outside Latin-1 and `splitlines` on rare separators are not followed.
- NormalizeFr.NormalizeLine: the word list is any set; downloading and checking it, and its TypeScript copy, are left out.
- BackendCache.SameInstance: keys are numbers; how a name and its options make a key is left out, as is the detector cache, which repeats the scheme.
- BrowserCues.MergeCues: the share of foreign letters is a parameter, and cue ids are left out.
- Video decoding, OCR, substitution rules, zones of the user, the permanent-overlay filter and the user interface: foreign libraries or display.
