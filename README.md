# StemSplit in Dafny

StemSplit separates a song into stems (vocals and accompaniment) with the
Demucs tool. It has three parts:

- **Python back end.** A FastAPI service (`main.py`) keeps jobs in a dict. It mirrors each job to a JSON file and runs one separation at a time under a GPU lock. `processor.py` starts Demucs, parses the `%` progress lines from its stderr and collects the stem files it wrote. `worker.py` is a stand-alone variant that writes a status file. `database/` holds the SQL job and quota tables.
- **Next.js front ends.** They cover:
  - a fixed-window rate limiter;
  - upload validation and file-name normalisation;
  - `Cache-Control` builders;
  - Web-Vitals rating and HTML escaping;
  - a WAV encoder and duration formatter;
  - the route-protection middleware;
  - a Web-Audio playback engine, stem-to-device routing and synced lyrics;
  - `srcset`, `sizes` and SEO metadata builders.

There is one Dafny module per source file, named after the file. `Wrappers`
holds `Option` and `Strings` holds the shared text and number helpers.

Where the source changes state, the model changes state too:

- `JobStore.JobStore` is `main.py`'s dict and its job files.
- `Repositories.JobRepository` and `Repositories.UserQuotaRepository` are the two tables.
- `RateLimit.RateLimiter` is the module-level counter store.
- `Cache.Headers` is a response's headers.
- `AudioEngine.Engine` is the playback engine.
- `DeviceRouter.Router` is the component's routing state.
- The WAV encoder writes into an `array` of bytes.

Loops become methods with invariants, and each method is proved against a
specification function. The rest is functions and lemmas.

Clocks, the file system, the subprocess and the network are parameters of
the operations that use them.

Where the written description of the system and the code differ, the model
follows the code:

- A job's progress is described as a monotone integer. `main.py` stores each parsed float as it arrives, so progress can go down (`JobStore.ProgressCanDecrease`).
- `create` is described as failing with a duplicate-id error. The table's primary key makes that a failed commit, so `CreateJob` requires a fresh id and no rejection is invented.

## Model

| member | source | states |
|---|---|---|
| Schema.NewJobDefaults | backend/python/database/schema.py:27 | Without the optional arguments a job has 2 stems and no file name, size or address. |
| Schema.NewJob | backend/python/database/schema.py:13-55 | A new row has the given id, owner and stems (2 unless given). Its status is "queued", progress 0, files not deleted, no start, completion or stems, and cleanup exactly 7 days after creation. Its timeline is consistent. |
| Schema.NewQuota | backend/python/database/schema.py:86-105 | A new quota allows 5 jobs an hour, 20 a day and 25 MB files. Both counters are 0 and there is no last job. |
| Repositories.UpdateSetsProvidedFields | backend/python/database/repositories.py:77-92 | Each field given in the update takes the given value, every other field keeps its value, and `updated_at` is the call's time. |
| Repositories.UpdateKeepsIdentity | backend/python/database/repositories.py:51-96 | An update never touches id, owner, paths, stems, creation time, cleanup time, deletion flag, size, file name or IP. |
| Repositories.StartStampedOnlyOnce | backend/python/database/repositories.py:69-70 | The start time is set only by a move to "processing" while it is unset. Once set it is never overwritten. |
| Repositories.CompletionNeedsStart | backend/python/database/repositories.py:71-75 | Completion time and duration (completion minus start) are recorded exactly when the job moves to "completed" or "error" and has a start time. Otherwise both keep their values. |
| Repositories.UpdatePreservesTimeline | backend/python/database/repositories.py:66-92 | With a clock that does not run backwards, every update keeps a job's timestamps consistent. |
| Repositories.StartTimeIsStable | backend/python/database/repositories.py:69-70 | Once a job has a start time, no series of later updates moves it. |
| Repositories.EstimateWaitFacts | backend/python/database/repositories.py:117 | The estimate is 0 exactly when nothing is queued or running, and each queued job adds 240 s. Three queued and one running give 780 s. |
| Repositories.QueueAfterCreate | backend/python/database/repositories.py:108-118 | Inserting a queued job raises "jobs ahead" by one, leaves "currently processing" alone and adds 240 s to the estimate. |
| Repositories.PurgeRemovesExactly | backend/python/database/repositories.py:120-148 | The purge removes exactly the old jobs whose files are marked deleted and keeps every other row unchanged. It never removes a job `get_old_jobs` still reports. Kept plus removed is the table's size. |
| Repositories.MarkedOldJobIsPurged | backend/python/database/repositories.py:120-148 | Marking an old job's files deleted moves it out of `get_old_jobs` and into the purge set for the same cutoff. |
| Repositories.InsertDescending | backend/python/database/repositories.py:98-106 | The newest-first insertion used by `get_user_jobs` adds exactly the new row to the multiset of rows. |
| Repositories.JobRepository.constructor | backend/python/database/repositories.py:15-16 | The table starts empty. |
| Repositories.JobRepository.CreateJob | backend/python/database/repositories.py:18-45 | Inserts the row `NewJob` describes under its fresh id and returns it. Nothing else changes. Stems default to 2; file name, size and address to none. |
| Repositories.JobRepository.GetJob | backend/python/database/repositories.py:47-49 | Returns `None` exactly for an absent id, and otherwise the row whose primary key is the id. |
| Repositories.JobRepository.UpdateJob | backend/python/database/repositories.py:51-96 | An unknown id gives `None` and changes nothing. Otherwise the row becomes the updated row, which is also returned. |
| Repositories.JobRepository.GetUserJobs | backend/python/database/repositories.py:98-106 | `limit` defaults to 50. Returns at most `limit` of the owner's rows, newest first and without repeats. Any owner row left out is no newer than every returned row. If fewer than `limit` come back, all the owner's rows are there. |
| Repositories.JobRepository.UserJobsNewestFirst | backend/python/database/repositories.py:98-106 | The loop over the table yields exactly the owner's rows, newest first and without repeats. |
| Repositories.JobRepository.GetQueueInfo | backend/python/database/repositories.py:108-118 | Jobs ahead and position are the queued count, currently processing is the processing count, and the estimate is 240 per queued job plus 60 if any is running. |
| Repositories.JobRepository.GetOldJobs | backend/python/database/repositories.py:120-127 | `days` defaults to 7. Returns exactly the rows created before now minus `days` whose files are not deleted. |
| Repositories.JobRepository.MarkFilesDeleted | backend/python/database/repositories.py:129-137 | Returns whether the id exists. If it does, only that row's deletion flag and update time change; otherwise nothing changes. |
| Repositories.JobRepository.DeleteOldJobs | backend/python/database/repositories.py:139-148 | `days` defaults to 7. The table becomes the purged table and the result is the number of rows removed. |
| Repositories.DecisionOrder | backend/python/database/repositories.py:216-250 | The first violated rule wins, checked in the order size (strictly larger), hourly count, daily count. A request is admitted exactly when no rule is violated. |
| Repositories.AdmissionKeepsCountersWithinLimits | backend/python/database/repositories.py:233-262 | After an admitted request is recorded, neither counter exceeds its limit. |
| Repositories.AdmitRepeatedlyCounts | backend/python/database/repositories.py:216-262 | For a file within the size limit, counts with `0 <= hourly count <= hourly limit` and `hourly count <= daily count`, and daily headroom at least the hourly headroom: checking and recording `n` requests in a row admits `min(n, hourly limit − hourly count)` of them. |
| Repositories.FreshUserBurstIsFive | backend/python/database/repositories.py:216-262 | A new user submitting files within the size limit gets exactly five jobs admitted in a burst. |
| Repositories.HourlyLimitScenario | backend/python/database/repositories.py:232-239 | A user at 5 of 5 hourly jobs sending a 10 MB file is refused for the hourly limit, with limit 5 and current 5. |
| Repositories.UserQuotaRepository.constructor | backend/python/database/repositories.py:201-202 | The quota table starts empty. |
| Repositories.UserQuotaRepository.GetOrCreateQuota | backend/python/database/repositories.py:204-214 | Returns the stored row if there is one and changes nothing. Otherwise it inserts and returns the default row. |
| Repositories.UserQuotaRepository.CheckQuota | backend/python/database/repositories.py:216-250 | The file size defaults to 0 MB. The answer is the ordered decision on the user's row. Only a missing row is created, and no counter changes. |
| Repositories.UserQuotaRepository.IncrementUsage | backend/python/database/repositories.py:252-262 | Both counters go up by exactly one, and the last-job and update times become now. |
| Repositories.GetOrCreateTwice | backend/python/database/repositories.py:204-214 | Two calls for one user return the same row and create at most one row. |
| JobStore.SaveEffect | backend/python/main.py:101-109 | A save writes only the job's own file, and only when opening succeeds. Opening truncates the file, so a failed dump, or a job missing from the dict, leaves an empty, unreadable file. Other files are untouched. |
| JobStore.LoadEffect | backend/python/main.py:112-128 | A job in memory is returned as is. Otherwise a readable file is loaded and cached in memory. A missing or corrupt file gives `None` and changes nothing. |
| JobStore.SaveThenLoadAfterRestart | backend/python/main.py:101-128 | After a successful save, a process with an empty dict loads the same record. |
| JobStore.FailedSaveKeepsMemory | backend/python/main.py:101-128 | Whatever the save did to the file, the job is still read from memory. |
| JobStore.CorruptFileIsNotFound | backend/python/main.py:112-128 | An unreadable file for a job not in memory gives `None` and changes nothing. |
| JobStore.SaveOverwrites | backend/python/main.py:101-109 | A second save of a job replaces what the first wrote. |
| JobStore.ApplyEventsLastWins | backend/python/main.py:154-158 | After a run of progress callbacks the record shows the last event's percentage and text. Only progress, message and update time change. |
| JobStore.ProgressCanDecrease | backend/python/main.py:154-158 | A 50% report followed by a 20% report leaves progress at 20: nothing clamps it. |
| JobStore.VerdictIsTerminal | backend/python/main.py:162-173 | A finished task is either "completed" at 100% with the processor's stems and the earlier error untouched, or "error" with the processor's message and progress where it stopped. |
| JobStore.JobStore.constructor | backend/python/main.py:93 | The dict starts empty over the given directory of job files. |
| JobStore.JobStore.SaveJob | backend/python/main.py:101-109 | The directory changes exactly as `SaveEffect` says and the dict does not change. |
| JobStore.JobStore.LoadJob | backend/python/main.py:112-128 | The result and the new dict are those of `LoadEffect`, and the directory does not change. |
| JobStore.JobStore.StartSeparation | backend/python/main.py:182-208 | A queued record is stored under the new id and saved, and the id is returned. |
| JobStore.JobStore.GetStatus | backend/python/main.py:211-215 | Answers by `load_job` and writes no file. |
| JobStore.JobStore.BeginTask | backend/python/main.py:138-147 | The record is saved as "waiting" without the lock, then set to "processing" and saved under the lock. The directory is the result of those two saves, each with its own outcome. |
| JobStore.JobStore.ProgressCallback | backend/python/main.py:154-158 | One event updates the running record and saves it under the lock, whatever an earlier save did to the file. |
| JobStore.JobStore.ReportEvents | backend/python/main.py:154-158 | A run of events leaves the record `ApplyEvents` gives. There is one save per event, each of the intermediate record and each with its own outcome. |
| JobStore.JobStore.FinishTask | backend/python/main.py:162-173 | The record becomes the processor's verdict and is saved under the lock, whatever the disk held before. |
| JobStore.JobStore.FailTask | backend/python/main.py:175-179 | A raised exception marks the job "error" with its text and saves it outside the lock, whatever the disk held before. |
| JobStore.JobStore.RunUnderLock | backend/python/main.py:149-173 | The events then the verdict decide the record. A success implies exit code 0 and a launched tool. The directory is the result of one save per event and one for the verdict, each with its own outcome. |
| JobStore.JobStore.RunSeparationTask | backend/python/main.py:135-179 | Either the processor cannot be built and the job fails with that error, or the events and verdict decide the record. The saves are the trace `TaskTrace` describes. The directory is the result of saving the `TaskWrites` records one by one, the k-th with the k-th save's outcome. |
| JobStore.JobStore.TaskWithoutProcessor | backend/python/main.py:135-179 | A construction error leaves the running record in "error" with that message, after the waiting, processing and error saves. The directory reflects those three saves, each with its own outcome. |
| JobStore.JobStore.TaskWithProcessor | backend/python/main.py:135-179 | The record is the verdict after the events, and the saves are waiting, processing, one per event, then the verdict's status. The directory reflects each of those saves with its own outcome. |
| JobStore.RunProcessor | backend/python/main.py:160 | A success implies exit code 0 and a launched tool. A launch failure gives an error with no events. |
| JobStore.TaskTrace | backend/python/main.py:135-179 | A task saves `events + 3` times: waiting without the lock, processing and each event under it, then the final status. |
| JobStore.SaveSeries | backend/python/main.py:101-109 | A run of saves of one job touches no other job's file. |
| JobStore.SaveSeriesAppend | backend/python/main.py:101-109 | Two runs of saves, one after the other, leave what the combined run leaves. |
| JobStore.FileHoldsLastWrite | backend/python/main.py:101-109 | After a run of saves, the file holds the record of the last save that was written, provided every later save failed to open the file. |
| JobStore.NoOpenKeepsDisk | backend/python/main.py:101-109 | A run of saves none of which opens the file leaves the directory unchanged. |
| JobStore.TaskWrites | backend/python/main.py:135-179 | A task saves `events + 3` records: waiting, processing, one per event, then the final record. |
| JobStore.VerdictSurvivesRestart | backend/python/main.py:101-179 | When a task's last save is written, a restarted service loads the task's final record. |
| JobStore.StaleProcessingFile | backend/python/main.py:101-179 | Saves fail one by one. With no events, the waiting and processing saves written and the verdict's save failing to open the file, memory says "completed" while a restarted service loads the "processing" record. |
| JobStore.JwksCache.constructor | backend/python/main.py:44-45 | The cache starts with no keys and expiry 0. |
| JobStore.JwksCache.GetJwks | backend/python/main.py:49-63 | Fresh non-empty keys are served unchanged. Otherwise a successful fetch is cached for an hour and returned, and a failed fetch returns the stale keys. |
| JobStore.ReuseWithinTtl | backend/python/main.py:52-60 | A non-empty key set fetched at `t` is served from the cache until `t + 3600`, whatever the network answers. |
| Processor.StripLeft | backend/python/processor.py:33 | Removes exactly the leading copies of the character: a suffix of the input that does not start with it. |
| Processor.StripRight | backend/python/processor.py:33 | Removes exactly the trailing copies of the character: a prefix of the input that does not end with it. |
| Processor.StripKeepsMiddle | backend/python/processor.py:33 | `strip(c)` neither starts nor ends with `c`. |
| Processor.StripIsSlice | backend/python/processor.py:33 | `strip(c)` is the slice between the leading and the trailing copies of `c`. |
| Processor.StripDropsTail | backend/python/processor.py:33 | Everything after the stripped slice is copies of `c`. |
| Processor.StripUnquoted | backend/python/processor.py:33 | A path that does not start or end with the character is unchanged. |
| Processor.StripQuotedOnce | backend/python/processor.py:33 | A path quoted once with a character that appears nowhere inside loses exactly its two quotes. |
| Processor.StripDoubleQuotes | backend/python/processor.py:33 | A double-quoted path without quotes inside gives the bare path. |
| Processor.StripQuotesOrder | backend/python/processor.py:33 | Double quotes are stripped before single quotes, so `'"p"'` keeps its double quotes. |
| Processor.RunLength | backend/python/processor.py:88 | The length of the leading run of non-space characters, which is followed by a space if it is not the whole string. |
| Processor.Words | backend/python/processor.py:88 | `split()` gives non-empty pieces without whitespace. |
| Processor.NoWordsMeansAllSpace | backend/python/processor.py:88 | `split()` is empty exactly when the text is all whitespace. |
| Processor.LastWordLocated | backend/python/processor.py:88 | The last piece of `split()` occurs in the text followed only by whitespace. |
| Processor.ParseDecimal | backend/python/processor.py:89 | An accepted token is a well-formed decimal: digits with at most one point and at least one digit. |
| Processor.TrimZeros | backend/python/processor.py:90-94 | Drops exactly the trailing zeros of a fraction and keeps a prefix of digits. |
| Processor.Render | backend/python/processor.py:90-94 | The rendered number always has a decimal point, as Python's positional repr of a float does (`12.0` for `12`). |
| Processor.TrimZerosKeepsValue | backend/python/processor.py:90-94 | Dropping trailing zeros of the fraction keeps the value. |
| Processor.ParseJoinedDecimal | backend/python/processor.py:89 | Digits, a point and digits parse to exactly those two parts. |
| Processor.RenderRoundTrip | backend/python/processor.py:89-94 | The number written into the progress message parses back to the value of the token it came from. |
| Processor.ParseProgressLineSpec | backend/python/processor.py:84-98 | Given the position `k` of the first `%` and a non-empty space-free word `w` that ends the text before `k` (only spaces after it): the line yields an event exactly when `w` parses as a decimal, and the event carries that number and the message "Separating Stems: N%". |
| Processor.NoTokenNoEvent | backend/python/processor.py:85-98 | A line with no `%`, or with only spaces before its first `%`, yields no event. |
| Processor.LastWordUnique | backend/python/processor.py:88 | When a non-empty space-free word ends a text up to trailing spaces, `split()[-1]` is that word. |
| Processor.TokenPrecedesFirstPercent | backend/python/processor.py:88 | The piece before the first `%` holds no `%`, and the text continues with `%` after it. |
| Processor.TqdmLineExample | backend/python/processor.py:84-98 | A Demucs line " 12%…" gives the event 12.0 with message "Separating Stems: 12.0%". |
| Processor.EventsOf | backend/python/processor.py:79-98 | There are at most as many events as lines. |
| Processor.EventsOfAppend | backend/python/processor.py:79-98 | Lines are handled one by one in order: the events of two runs of lines are the events of the first, then those of the second. |
| Processor.EventsCount | backend/python/processor.py:79-98 | There is exactly one event per parseable line. |
| Processor.Name | backend/python/processor.py:103 | A path's name has no `/`, ends the path, and is the whole path or follows a `/`. |
| Processor.PathStem | backend/python/processor.py:103 | A name's stem is a prefix of the name. It is the whole name exactly when no dot other than a leading or trailing one is the last dot; otherwise it is cut at the last dot, with no dot after it. |
| Processor.StemOfPlainName | backend/python/processor.py:103 | `vocals.wav` has stem `vocals`. |
| Processor.StemOfDotFile | backend/python/processor.py:103 | `.wav` keeps its leading dot as its stem. |
| Processor.StemOfTwoDots | backend/python/processor.py:103 | Only the last suffix goes: `a.b.wav` has stem `a.b`. |
| Processor.BaseCommand | backend/python/processor.py:53-61 | The command is 14 words: the interpreter first, the input path last, `--out` with the separated directory, and `--device` with the detected device; `-m demucs`, `-n htdemucs`, `--segment 10` and `--shifts 1` at fixed places. |
| Processor.BuildCommand | backend/python/processor.py:53-64 | `--two-stems vocals` is appended exactly when two stems are asked for, after the base command. |
| Processor.StemsOfKeys | backend/python/processor.py:112-114 | The stems map has one key per stem name among the `.wav` files, and no other key. |
| Processor.StemsOfValues | backend/python/processor.py:112-114 | Each stem maps to the relative path of the last file with that stem. |
| Processor.StemsOfSeparators | backend/python/processor.py:114 | No stem path holds a backslash. |
| Processor.FailureMessage | backend/python/processor.py:121-123 | The failure message starts with "Demucs failed with code ". |
| Processor.FailureMessageNamesCode | backend/python/processor.py:121-123 | The code can be read back from the failure message. |
| Processor.ReadProgress | backend/python/processor.py:79-98 | The loop over stderr reports exactly the events of the lines when a callback is given, and none otherwise. |
| Processor.CollectStems | backend/python/processor.py:112-114 | The loop over the output files builds exactly the stems map. |
| Processor.Process | backend/python/processor.py:27-126 | Takes the stripped, resolved path. Covers the not-found error, the launch failure, the failure code and the success with the stems of the model directory, reporting the progress events in order. |
| Worker.StatusContent | backend/python/worker.py:8-20 | The status file holds the four base fields, then the extra data over them, then a non-empty error over both. |
| Worker.WriteStatus | backend/python/worker.py:8-23 | The written content is exactly the status record. Progress defaults to 0, the message to "", no data and no error. |
| Worker.Basename | backend/python/worker.py:55 | The base name has no `/` and ends the path. |
| Worker.SplitExtRoot | backend/python/worker.py:56 | `splitext`'s root is a prefix of the name. |
| Worker.SplitExtRootOf | backend/python/worker.py:55-56 | A stem without dots plus a dotted extension gives that stem back. |
| Worker.BasenameOfJoin | backend/python/worker.py:55-58 | The base name of a directory joined with a file name is the file name. |
| Worker.WorkerCommand | backend/python/worker.py:39-45 | The command is `demucs`, `--two-stems vocals`, the output directory and the input file, in that order. |
| Worker.WorkerStems | backend/python/worker.py:62-65 | The stems map has exactly "vocals" and "no_vocals", each at `htdemucs/<track>/<stem>.wav`. |
| Worker.StemPathsMatchOutputDir | backend/python/worker.py:58-65 | Each stem path, joined to the output directory, is the file inside the model directory the worker checks for. |
| Worker.SeparateAudio | backend/python/worker.py:25-87 | If creating the directory fails, nothing is written or printed and the exit code is 1. Otherwise it writes "processing" 10% and prints the "starting" line with the command, then writes, prints and exits as `AfterStart` says. |
| Worker.AfterStart | backend/python/worker.py:51-87 | The launch error or the Demucs exit-code error with exit 1 and no further line; after a clean exit, the completed record with the stems map and the completed line, or the missing-output error and the "failed" line, both with exit 0. |
| Worker.ReportsAgree | backend/python/worker.py:60-87 | The worker exits 0 exactly when Demucs exits cleanly, prints nothing more on failure, and records "completed" exactly when it prints the completed line. |
| Worker.CompletedRecordShape | backend/python/worker.py:67-70 | The completed file says "completed", 100 and "Separation complete!", and carries the stems map. |
| RateLimit.KeyParts | frontend/src/lib/rate-limit.ts:83 | The key's last colon separates the identifier from the window length in decimal. |
| RateLimit.KeyInjective | frontend/src/lib/rate-limit.ts:83 | Different identifiers or windows never share a key. |
| RateLimit.CeilDiv | frontend/src/lib/rate-limit.ts:101 | `Math.ceil(x / d)`: the least `q` with `x <= q·d`. |
| RateLimit.Check | frontend/src/lib/rate-limit.ts:78-109 | An absent or expired counter restarts at 1 with a new window. Otherwise it goes up by one, refused calls included. The call is allowed exactly when the count is within the limit. Remaining is `max(0, max − count)`, the limit is reported, reset-in is the ceiling in seconds, and no other key changes. |
| RateLimit.Swept | frontend/src/lib/rate-limit.ts:23-30 | The sweep drops exactly the counters whose window ended before now and keeps the rest unchanged. |
| RateLimit.SweepIsTransparent | frontend/src/lib/rate-limit.ts:23-109 | Any later check answers as it would without the sweep. |
| RateLimit.FirstCallAdmitted | src/lib/__tests__/rate-limit.test.ts:18-24 | A fresh identifier's first call is admitted with `max − 1` remaining. |
| RateLimit.StrictFirstCall | src/lib/__tests__/rate-limit.test.ts:18-24 | With STRICT, the first call is allowed with 9 of 10 remaining and resets in 3600 s. |
| RateLimit.CallsCount | frontend/src/lib/rate-limit.ts:88-97 | After `n` calls inside the first window, the counter holds `n` and the window still ends where the first call put it. |
| RateLimit.BlockedAfterLimit | src/lib/__tests__/rate-limit.test.ts:26-40 | After `max` calls in one window, the next call in that window is refused with 0 remaining. |
| RateLimit.AdmittedAfterWindow | src/lib/__tests__/rate-limit.test.ts:42-60 | After the window ends, a call is admitted again with `max − 1` remaining. |
| RateLimit.IdentifiersIndependent | src/lib/__tests__/rate-limit.test.ts:62-70 | A call for one identifier does not change the answer for another. |
| RateLimit.RateLimiter.constructor | frontend/src/lib/rate-limit.ts:20 | The store starts empty. |
| RateLimit.RateLimiter.CheckRateLimit | frontend/src/lib/rate-limit.ts:78-109 | The answer and the new store are those of `Check`. |
| RateLimit.RateLimiter.Sweep | frontend/src/lib/rate-limit.ts:23-30 | The store becomes the swept store. |
| RateLimit.TrimStart | frontend/src/lib/rate-limit.ts:120 | Removes exactly the leading JavaScript whitespace. |
| RateLimit.TrimEnd | frontend/src/lib/rate-limit.ts:120 | Removes exactly the trailing JavaScript whitespace. |
| RateLimit.Trim | frontend/src/lib/rate-limit.ts:120 | The result neither starts nor ends with whitespace. |
| RateLimit.TrimIdentity | frontend/src/lib/rate-limit.ts:120 | A text without surrounding whitespace is unchanged. |
| RateLimit.GetClientIp | frontend/src/lib/rate-limit.ts:117-134 | The first trimmed `x-forwarded-for` entry if non-empty, else the trimmed `x-real-ip` if non-empty, else "unknown". Never empty. |
| RateLimit.ForwardedFirstHop | src/lib/__tests__/rate-limit.test.ts:73-82 | A forwarded list's first address wins, over `x-real-ip` too. |
| RateLimit.RealIpFallback | src/lib/__tests__/rate-limit.test.ts:83-92 | Without a forwarded list, `x-real-ip` is used. |
| RateLimit.NoHeadersUnknown | src/lib/__tests__/rate-limit.test.ts:93-99 | Without either header, the answer is "unknown". |
| UploadConstraints.ValidateFile | frontend/src/lib/upload-constraints.ts:38-54 | There is no error exactly when the type or extension is accepted and the size is within the limit. The type message wins over the size message. |
| UploadConstraints.MessagesDiffer | frontend/src/lib/upload-constraints.ts:44-50 | The type and size messages are never equal. |
| UploadConstraints.LimitIsInclusive | frontend/src/lib/upload-constraints.ts:49 | A file of exactly the maximum size is accepted. |
| UploadConstraints.ExtensionCaseInsensitive | frontend/src/lib/upload-constraints.ts:40-41 | Names differing only in letter case are treated alike. |
| UploadRoute.StatusMatchesCode | frontend/src/app/api/upload/route.ts:14-91 | Status 200 exactly when there is no error code, and 500 exactly for UPLOAD_ERROR. |
| UploadRoute.TrimTrailingSlashes | frontend/src/app/api/upload/route.ts:22 | Removes exactly the trailing slashes. |
| UploadRoute.LastComponent | frontend/src/app/api/upload/route.ts:22 | `basename`: the slash-free end of the path after trailing slashes. |
| UploadRoute.ExtName | frontend/src/app/api/upload/route.ts:23 | `extname`: empty, or a dot and no other dot, ending the base name and shorter than it. |
| UploadRoute.BaseWithoutExt | frontend/src/app/api/upload/route.ts:22 | Base name without extension, plus the extension, is the base name. It is non-empty when there is an extension. |
| UploadRoute.ExtNameOfSimple | frontend/src/app/api/upload/route.ts:22-23 | A dot-free, slash-free stem with an extension splits back into exactly those two parts. |
| UploadRoute.LastComponentOfPlainName | frontend/src/app/api/upload/route.ts:22 | A name without slashes is its own base name. |
| UploadRoute.Sanitize | frontend/src/app/api/upload/route.ts:22 | Every character of the result is an ASCII letter, digit or underscore. |
| UploadRoute.SanitizeFixedPoints | frontend/src/app/api/upload/route.ts:22 | Sanitising leaves a text unchanged exactly when it is all letters, digits and underscores. |
| UploadRoute.SafeStem | frontend/src/app/api/upload/route.ts:22 | The normalised stem is lower-case letters, digits and underscores. |
| UploadRoute.SafeName | frontend/src/app/api/upload/route.ts:22-25 | The safe name ends with the original extension, and the part before it is safe. |
| UploadRoute.SafeNameKeepsExtension | frontend/src/app/api/upload/route.ts:22-25 | The safe name's extension is the original's and its stem is the normalised stem. |
| UploadRoute.SafeNameIdempotent | frontend/src/app/api/upload/route.ts:22-25 | Normalising a safe name again changes nothing. |
| UploadRoute.NormalisedStemIsStable | frontend/src/app/api/upload/route.ts:22 | Lower-casing a sanitised lower-case text changes nothing. |
| UploadRoute.SafeNameOfCleanName | frontend/src/app/api/upload/route.ts:22-25 | A lower-case safe stem with its extension is kept as is. |
| UploadRoute.Refusal | frontend/src/app/api/upload/route.ts:14-55 | Checks run in the order missing file, type, size. A request is refused exactly when one fails, and the refusal is the first failed check's response. A `file` field sent as text is MISSING_FILE when empty and UPLOAD_ERROR otherwise. |
| UploadRoute.Post | frontend/src/app/api/upload/route.ts:9-92 | Accepted exactly when no check fails and the save works, with the safe name, the size and the type. A failed save, an unreadable form or a non-empty text `file` field gives UPLOAD_ERROR; an empty text field gives MISSING_FILE. |
| UploadRoute.RouteAgreesWithClient | frontend/src/app/api/upload/route.ts:28-55 | A file the client-side `validateFile` accepts passes the route's checks. |
| UploadRoute.TypeBeforeSize | frontend/src/app/api/upload/route.ts:28-55 | A file of a wrong type is refused for its type even when it is too large. |
| UploadRoute.SizeLimitBoundary | frontend/src/app/api/upload/route.ts:45-55 | 25 MB exactly is accepted; one byte more is refused as too large. |
| UploadRoute.TooLargeMessageNamesLimit | frontend/src/app/api/upload/route.ts:48 | The message reads "File too large. Maximum size is 25MB". |
| UploadRouteMvp.PostMvp | src/app/api/upload/route.ts:7-72 | Missing, type and size checks in order. Accepted exactly when none fails, with the original name. Refusals are 400. An unreadable form or a non-empty text `file` field is UPLOAD_ERROR, and an empty text field is MISSING_FILE. |
| UploadRouteMvp.MvpAcceptanceCarriesOver | src/app/api/upload/route.ts:7-72 | Whatever the 10 MB route accepts, the 25 MB route accepts with the same size. |
| UploadRouteMvp.RoutesDisagreeBetweenLimits | src/app/api/upload/route.ts:37-47 | A valid file between 10 and 25 MB is refused here and accepted by the other route. |
| UploadRouteMvp.MvpTooLargeMessage | src/app/api/upload/route.ts:40 | The message reads "File too large. Maximum size is 10MB". |
| Cache.Rendered | frontend/src/lib/cache.ts:80-106 | Each directive is rendered in place, in order. |
| Cache.DirectivesStart | frontend/src/lib/cache.ts:80-86 | The header starts with public or private, then `max-age`. |
| Cache.DirectivesOrdered | frontend/src/lib/cache.ts:80-106 | Directives always come in the builder's fixed order. |
| Cache.DirectivesRequested | frontend/src/lib/cache.ts:86-106 | Every directive after the first is one the options asked for, with the asked value. |
| Cache.DirectivesComplete | frontend/src/lib/cache.ts:88-106 | Every optional directive the options ask for is present. |
| Cache.PushValued | frontend/src/lib/cache.ts:88-99 | A valued option pushes its rendering if given and nothing otherwise. |
| Cache.PushFlag | frontend/src/lib/cache.ts:100-106 | A flag pushes its name if true and nothing otherwise. |
| Cache.GenerateCacheControl | frontend/src/lib/cache.ts:61-109 | The pushes build exactly the joined rendering of the directives. |
| Cache.DefaultHeader | frontend/src/lib/cache.ts:61-68 | No options give "public, max-age=3600". |
| Cache.TimedStrategiesMatchBuilder | frontend/src/lib/cache.ts:26-56 | The short, medium and long strategy texts are what the builder gives for their durations. |
| Cache.FlagStrategiesMatchBuilder | frontend/src/lib/cache.ts:26-56 | The immutable and revalidate strategy texts are what the builder gives for their flags. |
| Cache.AudioFilesIsMedium | frontend/src/lib/cache.ts:153-157 | The audio-file recommendation equals the medium strategy. |
| Cache.Headers.constructor | frontend/src/lib/cache.ts:114-119 | A headers object starts empty. |
| Cache.Headers.Set | frontend/src/lib/cache.ts:118 | Setting a header replaces it under its lower-cased name, and reading it back gives the value. |
| Cache.SetCacheHeaders | frontend/src/lib/cache.ts:114-119 | `Cache-Control` is set to the strategy given, or to the medium strategy, and no other header changes. |
| Performance.MetricRating | frontend/src/lib/performance.ts:67-80 | "good" exactly up to the good threshold, "needs improvement" up to the second, "poor" above it. |
| Performance.ThresholdsOrdered | frontend/src/lib/performance.ts:31-62 | For every metric, 0 < good < needs-improvement, and each threshold is rated on its own side. |
| Performance.RatingMonotone | frontend/src/lib/performance.ts:67-80 | A larger value is never rated better. |
| Validations.Escape | frontend/src/lib/validations.ts:50-57 | The escaped text holds none of `< > " ' /`. |
| Validations.SanitizeAppend | frontend/src/lib/validations.ts:50-57 | Sanitising works character by character: it distributes over concatenation. |
| Validations.SanitizeOneChar | frontend/src/lib/validations.ts:52-56 | A single character becomes its entity, or stays if it is not one of the five. |
| Validations.SanitizeIsEscape | frontend/src/lib/validations.ts:50-57 | The chain of five `replace` calls equals one pass of per-character escaping. |
| Validations.SanitizedHasNoTargets | frontend/src/lib/validations.ts:50-57 | The sanitised text holds none of the five characters. |
| Validations.EscapeKeepsPlainText | frontend/src/lib/validations.ts:50-57 | A text without the five characters is unchanged. |
| Validations.SanitizeIdempotent | frontend/src/lib/validations.ts:50-57 | Sanitising twice is sanitising once, since `&` is not escaped. |
| AudioUtils.Uint16At | src/lib/audio-utils.ts:73-84 | A little-endian 16-bit read is below 2^16. |
| AudioUtils.Uint32At | src/lib/audio-utils.ts:73-84 | A little-endian 32-bit read is below 2^32. |
| AudioUtils.Int16At | src/lib/audio-utils.ts:92 | A signed 16-bit read is in [−32768, 32767]. |
| AudioUtils.ToInt16 | src/lib/audio-utils.ts:92 | `setInt16` keeps the value modulo 2^16, in range. |
| AudioUtils.ToInt16InRange | src/lib/audio-utils.ts:92 | An in-range value is kept. |
| AudioUtils.LE16 | src/lib/audio-utils.ts:76-82 | Two little-endian bytes that read back as the value modulo 2^16. |
| AudioUtils.LE32 | src/lib/audio-utils.ts:73-84 | Four little-endian bytes that read back as the value modulo 2^32. |
| AudioUtils.SetUint16 | src/lib/audio-utils.ts:76-82 | Writes exactly the two bytes at the offset. |
| AudioUtils.SetInt16 | src/lib/audio-utils.ts:92 | Writes exactly the two bytes at the offset, and they read back as the wrapped sample. |
| AudioUtils.SetUint32 | src/lib/audio-utils.ts:73-84 | Writes exactly the four bytes at the offset. |
| AudioUtils.WriteString | src/lib/audio-utils.ts:100-104 | Byte `k` is character `k`'s code at `offset + k`, and nothing else changes. |
| AudioUtils.SampleOffsetsIncrease | src/lib/audio-utils.ts:87-95 | Interleaved sample slots come in write order and do not overlap. |
| AudioUtils.SampleInBounds | src/lib/audio-utils.ts:61-66 | Every sample slot lies inside the buffer of `44 + samples·channels·2` bytes. |
| AudioUtils.WriteHeader | src/lib/audio-utils.ts:72-84 | The 44-byte header holds the four tags, sizes, format 1, channels, rate, byte rate, block align and 16 bits, all little-endian. |
| AudioUtils.HeaderWrites | src/lib/audio-utils.ts:72-84 | The header writes keep the buffer's length. |
| AudioUtils.HeaderOfWrites | src/lib/audio-utils.ts:72-84 | The header writes produce a valid WAV header for the buffer's sizes. |
| AudioUtils.WriteFrame | src/lib/audio-utils.ts:88-94 | One frame writes each channel's sample at its slot, keeps the header and moves the offset to the next frame. |
| AudioUtils.AudioBufferToWav | src/lib/audio-utils.ts:55-98 | The result has the valid header and every channel's samples interleaved at `44 + 2·(i·channels + c)`. |
| AudioUtils.JsRem | src/lib/audio-utils.ts:120 | JavaScript `%`: Euclidean for a non-negative dividend; for a negative one, the negated remainder of its absolute value, in `(-b, 0]`. |
| AudioUtils.PadStart | src/lib/audio-utils.ts:121 | `padStart(w, "0")`: the text right-aligned in at least `w` characters with zero fill. |
| AudioUtils.SecondsField | src/lib/audio-utils.ts:119-121 | A seconds value below 60 renders as two digits without a colon that parse back to it. |
| AudioUtils.FormatDurationShape | src/lib/audio-utils.ts:118-122 | Whole minutes, a colon, and seconds padded to two digits. |
| AudioUtils.FormatDurationRoundTrip | src/lib/audio-utils.ts:118-122 | A formatted duration parses back to the same number of seconds. |
| Middleware.Middleware | src/middleware.ts:36-56 | Signed-in on an auth page redirects to `/dashboard`. Signed-out on a protected page redirects to `/sign-in` with the path as callback. Everything else passes. |
| Middleware.PageSetsDisjoint | src/middleware.ts:36-42 | No path is both an auth page and a protected page. |
| Middleware.AtMostOneRedirect | src/middleware.ts:45-56 | A path redirects for at most one of the two sign-in states. |
| Middleware.RedirectTargetPasses | src/middleware.ts:45-56 | The redirect target passes for the same user, so there is no redirect loop. |
| AudioEngine.Clamp | frontend/src/lib/audio-engine.ts:110 | The result lies in the range: the value itself when inside it, the nearer bound otherwise. |
| AudioEngine.ClampIdempotent | frontend/src/lib/audio-engine.ts:110 | Clamping twice is clamping once. |
| AudioEngine.ClampMonotone | frontend/src/lib/audio-engine.ts:159 | Clamping keeps order. |
| AudioEngine.Engine.constructor | frontend/src/lib/audio-engine.ts:24-35 | A context only in a browser, at the configured rate or 44100. Nothing loaded or playing, volume 1 and rate 1. |
| AudioEngine.Engine.CurrentTime | frontend/src/lib/audio-engine.ts:119-125 | 0 without a context, the clock minus the start while playing, else the pause position. |
| AudioEngine.Engine.Duration | frontend/src/lib/audio-engine.ts:130-132 | The buffer's duration, or 0 without a buffer. |
| AudioEngine.Engine.Volume | frontend/src/lib/audio-engine.ts:166-168 | The gain, or 0 without a gain node. |
| AudioEngine.Engine.LoadAudioFile | frontend/src/lib/audio-engine.ts:40-49 | Fails without a context and changes nothing. A fetch or decode that rejects fails with its reason and keeps the old buffer. Otherwise it only replaces the buffer. |
| AudioEngine.Engine.Play | frontend/src/lib/audio-engine.ts:54-79 | Fails without a buffer and does nothing while playing. Otherwise a fresh node starts at the current rate and playback resumes from the pause position. |
| AudioEngine.Engine.Pause | frontend/src/lib/audio-engine.ts:84-90 | Stops playback and keeps the position reached, so the current time does not move. It does nothing unless playing. |
| AudioEngine.Engine.Seek | frontend/src/lib/audio-engine.ts:95-104 | The position becomes the target and the playing state is kept. A playing engine restarts on a fresh node. |
| AudioEngine.Engine.SetPlaybackRate | frontend/src/lib/audio-engine.ts:109-114 | The rate is clamped to [0.5, 2] and passed on to the current node if there is one. |
| AudioEngine.Engine.SetVolume | frontend/src/lib/audio-engine.ts:157-161 | The gain is clamped to [0, 1] when there is a gain node. |
| AudioEngine.Engine.SourceEndedAsWritten | frontend/src/lib/audio-engine.ts:76-78 | Any node's end clears the playing flag. |
| AudioEngine.Engine.SourceEnded | frontend/src/lib/audio-engine.ts:76-78 | Only the current node's end stops playback, and the engine's invariant is kept. |
| AudioEngine.StaleEndAfterSeekAsWritten | frontend/src/lib/audio-engine.ts:76-104 | Play, seek, then the first node's end: the engine reports stopped while its new node plays. |
| AudioEngine.StaleEndAfterSeek | frontend/src/lib/audio-engine.ts:76-104 | The same events with the corrected callback: the engine still reports playing. |
| DeviceRouter.Routing.With | src/components/audio/DeviceRouter.tsx:51-56 | Replaces one stem's list and keeps the other. |
| DeviceRouter.Without | src/components/audio/DeviceRouter.tsx:53 | `filter`: every id except the device, and only ids that were there. |
| DeviceRouter.WithoutAbsent | src/components/audio/DeviceRouter.tsx:53 | Filtering out an absent id changes nothing. |
| DeviceRouter.WithoutAppend | src/components/audio/DeviceRouter.tsx:53 | Filtering distributes over concatenation. |
| DeviceRouter.Toggled | src/components/audio/DeviceRouter.tsx:50-57 | The device's membership flips, every other id keeps its membership, and an absent device is appended at the end. |
| DeviceRouter.Toggle | src/components/audio/DeviceRouter.tsx:46-62 | Only the chosen stem's list is toggled. |
| DeviceRouter.ToggleKeepsKnownDevices | src/components/audio/DeviceRouter.tsx:35-62 | The starting lists name listed devices, and toggling a listed device keeps every id listed. |
| DeviceRouter.ToggleTwiceRestores | src/components/audio/DeviceRouter.tsx:46-62 | Toggling an absent device twice restores the routing. |
| DeviceRouter.Router.constructor | src/components/audio/DeviceRouter.tsx:41-44 | Vocals start on device-1 and the instrumental on device-2, with nothing reported. |
| DeviceRouter.Router.IsRouted | src/components/audio/DeviceRouter.tsx:64-66 | Whether the device is in the stem's list. |
| DeviceRouter.Router.HandleStemToggle | src/components/audio/DeviceRouter.tsx:46-62 | The routing becomes the toggled routing and is reported once. The device's routed state flips and the other stem is unchanged. |
| LyricDisplay.FirstCovering | frontend/src/components/audio/LyricDisplay.tsx:49-54 | `findIndex`: the first interval `[start, end)` that holds the time, or −1 exactly when none does. |
| LyricDisplay.LineSpans | frontend/src/components/audio/LyricDisplay.tsx:51 | Each line's interval, in order. |
| LyricDisplay.WordSpans | frontend/src/components/audio/LyricDisplay.tsx:81-83 | Each word's interval, in order. |
| LyricDisplay.ActiveLineIndex | frontend/src/components/audio/LyricDisplay.tsx:49-54 | The first line whose interval holds the time, or −1 exactly when none does. |
| LyricDisplay.ActiveWordIndex | frontend/src/components/audio/LyricDisplay.tsx:79-84 | −1 without word timings. Otherwise the first word whose interval holds the time, and −1 exactly when no word's interval holds it. |
| LyricDisplay.RenderedWordIndex | frontend/src/components/audio/LyricDisplay.tsx:94 | Only the active line looks for an active word. |
| LyricDisplay.LineClick | frontend/src/components/audio/LyricDisplay.tsx:74-76 | It seeks exactly when there is a handler, and then to the line's start, which lies in a non-empty line's interval. |
| LyricDisplay.ClickActivatesLine | frontend/src/components/audio/LyricDisplay.tsx:49-76 | In ordered lyrics, clicking a non-empty line makes exactly that line active. |
| LyricDisplay.SharedBoundaryGoesToLaterLine | frontend/src/components/audio/LyricDisplay.tsx:51 | At a boundary two lines share, the later line is active. |
| LyricDisplay.SampleLyricsTimeline | src/lib/sample-data.ts:40-60 | On the sample lyrics, 3.5 s makes the second line active, and 1 s the first line and its word "AI". |
| ImageOptimization.SrcSetEntries | src/lib/image-optimization.ts:11-15 | One candidate `src?w=W Ww` per width, in order. |
| ImageOptimization.GenerateSrcSet | src/lib/image-optimization.ts:11-15 | Empty exactly for no widths, and a single width gives its one candidate. |
| ImageOptimization.SizesEntries | src/lib/image-optimization.ts:20-24 | One `(max-width: B) S` entry per breakpoint, in order. |
| ImageOptimization.GenerateSizes | src/lib/image-optimization.ts:20-24 | Empty exactly for no breakpoints, and a single breakpoint gives its one entry. |
| ImageOptimization.NoCommaInNumber | src/lib/image-optimization.ts:14 | A rendered number holds no comma. |
| ImageOptimization.SrcSetEntryHasNoComma | src/lib/image-optimization.ts:14 | A comma-free URL gives comma-free candidates. |
| ImageOptimization.SrcSetSplitsIntoCandidates | src/lib/image-optimization.ts:11-15 | Splitting the `srcset` at ", " gives back one candidate per width. |
| ImageOptimization.SizesSplitIntoEntries | src/lib/image-optimization.ts:20-24 | Splitting `sizes` at ", " gives back one entry per breakpoint. |
| Seo.SiteUrl | src/lib/seo.ts:10 | The environment's URL if set and non-empty, else the default site. Never empty. |
| Seo.OgImageUrl | src/lib/seo.ts:97 | The image if given and non-empty, else the site's `/og-image.png`. |
| Seo.GeneratePageMetadata | src/lib/seo.ts:83-130 | Title and description are shared by page, Open Graph and Twitter. The canonical URL is the site plus the path. There is one 1200×630 image. Robots `noindex, nofollow` appear exactly when `noIndex` is true. |
| Seo.CanonicalRecoversPath | src/lib/seo.ts:96-102 | The canonical URL starts with the site URL and gives the path back. |
| Seo.EmptyImageIsDefault | src/lib/seo.ts:97 | An empty image is treated like no image. |
| Seo.GenerateBreadcrumbSchema | src/lib/seo.ts:191-202 | A schema.org BreadcrumbList whose item `k` is a ListItem with position `k + 1`, its name and the site URL plus its path. |
| Seo.BreadcrumbPositions | src/lib/seo.ts:191-202 | Positions run from 1 to the item count and increase, and each item gives back its crumb. |
| Strings.Split | frontend/src/lib/rate-limit.ts:120 | `split` always yields at least one piece. |
| Strings.SplitJoin | src/lib/image-optimization.ts:14 | Splitting a join of pieces free of the separator's first character gives the pieces back. |
| Strings.Lower | frontend/src/lib/upload-constraints.ts:41 | `toLowerCase` maps each character through ASCII lower-casing and keeps the length. |

## Findings

| source | as written | input that shows it | evidently intended | confidence | as-written member | corrected member |
|---|---|---|---|---|---|---|
| frontend/src/lib/audio-engine.ts:76-78 | The `onended` handler of every source node clears `isPlaying`, including a node that `pause` or `seek` has already stopped and replaced. | `play()` at time 0, `seek(5)` at time 1 while playing, then the first node's `ended` event arrives. | Only the end of the current source node stops playback, so after a seek the engine keeps reporting that it plays. | medium, not executed | AudioEngine.Engine.SourceEndedAsWritten, AudioEngine.StaleEndAfterSeekAsWritten | AudioEngine.Engine.SourceEnded, AudioEngine.StaleEndAfterSeek |

## Left out

- Worker.SeparateAudio: when creating the output directory fails, the handler's own status write fails the same way and the exception escapes; the model gives no write, no line and exit code 1, without the traceback text.
- AudioEngine.Engine.LoadAudioFile: the fetch and the decode are one input, either the decoded duration or the rejection reason; the network and the decoder themselves are not modelled.
- Concurrency: the GPU lock is a ghost flag recorded in the save trace. FastAPI background tasks, async scheduling and other threads are not modelled; each task runs sequentially.
- Time: one clock value per call, even where Python reads `datetime.utcnow()` or `time.time()` more than once in a call. `JsRem` and the other JavaScript numbers are whole integers except in the performance ratings, the audio engine and the lyrics, which use reals.
- The Demucs subprocess, the file system and the `torch` device probe are parameters. These include the stderr lines, the exit code, a launch error, which files exist, the files the glob finds and the disk outcome of each save. Within a separation task the k-th save's outcome is given by a function of k.
- Processor.ParseDecimal: accepts only digits with at most one point. Python `float()` also takes signs, exponents, `nan`, `inf` and underscores, so such progress tokens are rejected by the model but accepted by the source.
- Processor.Render: the progress is an exact decimal, not a binary float. The text matches Python's repr only for tokens with at most 15 significant digits whose value is 0 or lies between 0.0001 and 10^16. Outside that range repr switches to exponent form, and past 17 significant digits it rounds; neither is modelled. Demucs prints percentages from 0 to 100, which lie within the range.
- Processor.Process: which names the glob finds in `separated/<model>/<track>` under the input's grandparent, and in what order, is a parameter; their public path `separated/<model>/<track>/<name>`, relative to the input's grandparent with `\` turned into `/`, is computed exactly.
- JobStore.RunProcessor: states only that success implies a launched tool with exit code 0, and that a launch failure gives an error with no events; `Processor.Process` carries the full contract.
- JSON: only the fields the operations read or write are modelled, and serialisation is not.
- `verify_token`, JWT decoding and the JWKS HTTP fetch are left out; `JobStore.JwksCache.GetJwks` covers only the cache decision. The `/health` and startup handlers only probe the device, which is a parameter here.
- `JobMetricRepository` and the database configuration (`database/config.py`) are not part of this model. SQL sessions, commits and refreshes become map updates.
- Repositories.JobRepository.CreateJob: requires a fresh id; a duplicate primary key would make the commit fail, and that failure is not modelled.
- Case mapping is ASCII only, in `Strings.Lower`, `Strings.Upper` and the upload checks. Unicode case folding is not modelled.
- The upload routes: the disk write is a boolean outcome, and the response's `path` field, the directory creation and the GET handlers are left out. `basename` and `extname` follow POSIX `path` rules for the names a browser sends; Windows separators are not modelled.
- Cache.Headers.Set: keys are lower-cased, but values are stored as given, without the whitespace normalisation the Fetch `Headers` class applies. `CacheStrategy` texts are the joined directive lists.
- AudioUtils.AudioBufferToWav: samples are taken as already converted 16-bit integers. The float clamping and the scaling to 16 bits are floating point and are not modelled.
- AudioUtils.FormatDurationShape: `formatDuration` is modelled on whole non-negative seconds, so `Math.floor` of a fractional or negative input is not covered.
- AudioEngine: Web Audio nodes are known by number and a buffer by its duration. `resume()`, the analyser and its getters, `dispose`, the Tone.js import and the module-level singleton are left out.
- AudioEngine.Engine.CurrentTime: counts seconds of the context clock as the source does, not seconds of the buffer at rates other than 1.
- Middleware.Middleware: the redirect is a path with an optional callback, so the absolute URL, the percent-encoding of `callbackUrl` and the matcher configuration are left out; `getToken` is an input flag.
- LyricDisplay: the active line is computed from the current time directly, so the one-render lag of the React effect and the scrolling are left out.
- ImageOptimization.GenerateSizes: takes the breakpoints as an ordered entry list, so `Object.entries` putting integer-like keys first is not modelled.
- Seo: the title template, `defaultMetadata` and the other structured-data generators are left out.
- DeviceRouter.Router.HandleStemToggle: React's StrictMode may call the state updater twice; the model applies it once.
- RateLimit.RateLimiter.Sweep: the `setInterval` timer that calls the sweep is left out; the sweep is an operation called with the current time.
