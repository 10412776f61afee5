/**
 * The repository layer over the job database
 * (backend/python/database/repositories.py): `JobRepository` and
 * `UserQuotaRepository`. A table is a map from primary key to row; a session
 * commit is the reassignment of that map. The clock is the `now` parameter.
 */
module Repositories {
  import opened Wrappers
  import opened Schema

  // ---------------------------------------------------------------------------
  // Jobs: partial updates
  // ---------------------------------------------------------------------------

  /** The optional arguments of `update_job`; `None` stands for an argument left at `None`. */
  datatype JobUpdate = JobUpdate(
    status: Option<string>,
    progress: Option<int>,
    message: Option<string>,
    error: Option<string>,
    stemFiles: Option<map<string, string>>,
    metadata: Option<map<string, string>>)

  predicate IsTerminalStatus(s: string) { s == "completed" || s == "error" }

  /** The status assignment of `update_job` with the processing timestamps it stamps. */
  function StatusTransition(j: Job, status: string, now: int): Job
  {
    if status == "processing" && j.processingStartedAt.None? then
      j.(status := status, processingStartedAt := Some(now))
    else if IsTerminalStatus(status) && j.processingStartedAt.Some? then
      j.(status := status, processingCompletedAt := Some(now),
         processingDurationSeconds := Some(now - j.processingStartedAt.value))
    else j.(status := status)
  }

  /** The remaining optional fields of `update_job`, and the `updated_at` refresh. */
  function OverrideFields(j: Job, u: JobUpdate, now: int): Job
  {
    j.(progress := u.progress.GetOr(j.progress),
       message := if u.message.Some? then u.message else j.message,
       error := if u.error.Some? then u.error else j.error,
       stemFiles := if u.stemFiles.Some? then u.stemFiles else j.stemFiles,
       metadata := if u.metadata.Some? then u.metadata else j.metadata,
       updatedAt := now)
  }

  /** The row `update_job` leaves behind, given the row it found and its arguments. */
  function ApplyUpdate(j: Job, u: JobUpdate, now: int): Job
  {
    OverrideFields(if u.status.Some? then StatusTransition(j, u.status.value, now) else j, u, now)
  }

  /** Only the fields passed as non-`None` change, and `updated_at` is always refreshed. */
  lemma UpdateSetsProvidedFields(j: Job, u: JobUpdate, now: int)
    ensures var r := ApplyUpdate(j, u, now);
      && r.status == u.status.GetOr(j.status)
      && r.progress == u.progress.GetOr(j.progress)
      && r.message == (if u.message.Some? then u.message else j.message)
      && r.error == (if u.error.Some? then u.error else j.error)
      && r.stemFiles == (if u.stemFiles.Some? then u.stemFiles else j.stemFiles)
      && r.metadata == (if u.metadata.Some? then u.metadata else j.metadata)
      && r.updatedAt == now
  {
  }

  /** Identity, input, ownership and cleanup columns are never touched by an update. */
  lemma UpdateKeepsIdentity(j: Job, u: JobUpdate, now: int)
    ensures var r := ApplyUpdate(j, u, now);
      && r.id == j.id && r.userId == j.userId && r.inputPath == j.inputPath && r.outputDir == j.outputDir
      && r.stems == j.stems && r.createdAt == j.createdAt && r.autoCleanupAt == j.autoCleanupAt
      && r.filesDeleted == j.filesDeleted && r.fileSize == j.fileSize
      && r.originalFilename == j.originalFilename && r.ipAddress == j.ipAddress
  {
  }

  /**
   * The start time is stamped only by the first move into "processing" and
   * is never overwritten afterwards.
   */
  lemma StartStampedOnlyOnce(j: Job, u: JobUpdate, now: int)
    ensures var r := ApplyUpdate(j, u, now);
      && (j.processingStartedAt.Some? ==> r.processingStartedAt == j.processingStartedAt)
      && (j.processingStartedAt.None? ==>
            r.processingStartedAt == (if u.status == Some("processing") then Some(now) else None))
  {
  }

  /**
   * A completion time and duration are recorded only by a move into
   * "completed" or "error" for a job that has a start time; otherwise both
   * stay as they were.
   */
  lemma CompletionNeedsStart(j: Job, u: JobUpdate, now: int)
    ensures var r := ApplyUpdate(j, u, now);
      var stamps := u.status.Some? && IsTerminalStatus(u.status.value) && j.processingStartedAt.Some?;
      && (stamps ==>
            (r.processingCompletedAt == Some(now)
             && r.processingDurationSeconds == Some(now - j.processingStartedAt.value)))
      && (!stamps ==>
            (r.processingCompletedAt == j.processingCompletedAt
             && r.processingDurationSeconds == j.processingDurationSeconds))
  {
  }

  /** With a clock that does not run backwards, every update keeps a job's timestamps consistent. */
  lemma UpdatePreservesTimeline(j: Job, u: JobUpdate, now: int)
    requires TimelineConsistent(j) && j.updatedAt <= now
    ensures TimelineConsistent(ApplyUpdate(j, u, now))
  {
  }

  /** Applies a series of updates, the k-th at time `times[k]`. */
  function ApplyUpdates(j: Job, us: seq<JobUpdate>, times: seq<int>): Job
    requires |us| == |times|
    decreases |us|
  {
    if us == [] then j else ApplyUpdates(ApplyUpdate(j, us[0], times[0]), us[1..], times[1..])
  }

  /** Once a job has a start time, no later series of updates moves it. */
  lemma {:induction false} StartTimeIsStable(j: Job, us: seq<JobUpdate>, times: seq<int>)
    requires |us| == |times| && j.processingStartedAt.Some?
    ensures ApplyUpdates(j, us, times).processingStartedAt == j.processingStartedAt
    decreases |us|
  {
    if us != [] {
      StartStampedOnlyOnce(j, us[0], times[0]);
      StartTimeIsStable(ApplyUpdate(j, us[0], times[0]), us[1..], times[1..]);
    }
  }

  // ---------------------------------------------------------------------------
  // Jobs: queue estimate, ageing and purging
  // ---------------------------------------------------------------------------

  /** Seconds a queued job is expected to take, and the remainder charged for a running job. */
  const SecondsPerQueuedJob: int := 240
  const SecondsForRunningJob: int := 60

  datatype QueueInfo = QueueInfo(jobsAhead: nat, currentlyProcessing: nat, position: nat, estimatedWaitSeconds: nat)

  /** The ids of the jobs with a status. */
  function WithStatus(table: map<string, Job>, status: string): set<string>
  {
    set k | k in table && table[k].status == status
  }

  function CountWithStatus(table: map<string, Job>, status: string): nat
  {
    |WithStatus(table, status)|
  }

  function EstimateWait(queued: nat, processing: nat): nat
  {
    queued * SecondsPerQueuedJob + (if processing > 0 then SecondsForRunningJob else 0)
  }

  /** What `get_queue_info` reports for a table. */
  function QueueInfoOf(table: map<string, Job>): QueueInfo
  {
    var queued := CountWithStatus(table, "queued");
    var processing := CountWithStatus(table, "processing");
    QueueInfo(queued, processing, queued, EstimateWait(queued, processing))
  }

  /** The estimate is zero exactly when nothing is queued or running, and each queued job adds 240 s. */
  lemma EstimateWaitFacts(queued: nat, processing: nat)
    ensures EstimateWait(queued, processing) == 0 <==> queued == 0 && processing == 0
    ensures EstimateWait(queued + 1, processing) == EstimateWait(queued, processing) + SecondsPerQueuedJob
    ensures EstimateWait(3, 1) == 780
  {
  }

  lemma CountAfterInsert(table: map<string, Job>, id: string, j: Job, status: string)
    requires id !in table
    ensures CountWithStatus(table[id := j], status)
            == CountWithStatus(table, status) + (if j.status == status then 1 else 0)
  {
    WithStatusAfterInsert(table, id, j, status);
    assert id !in WithStatus(table, status);
  }

  lemma WithStatusAfterInsert(table: map<string, Job>, id: string, j: Job, status: string)
    requires id !in table
    ensures WithStatus(table[id := j], status) == WithStatus(table, status) + (if j.status == status then {id} else {})
  {
  }

  /** Inserting a new queued job puts one more job ahead and adds 240 s to the estimate. */
  lemma QueueAfterCreate(table: map<string, Job>, j: Job)
    requires j.id !in table && j.status == "queued"
    ensures QueueInfoOf(table[j.id := j]).jobsAhead == QueueInfoOf(table).jobsAhead + 1
    ensures QueueInfoOf(table[j.id := j]).currentlyProcessing == QueueInfoOf(table).currentlyProcessing
    ensures QueueInfoOf(table[j.id := j]).estimatedWaitSeconds
            == QueueInfoOf(table).estimatedWaitSeconds + SecondsPerQueuedJob
  {
    CountAfterInsert(table, j.id, j, "queued");
    CountAfterInsert(table, j.id, j, "processing");
  }

  /** The creation-time cutoff for "older than `days` days". */
  function Cutoff(days: int, now: int): int { now - days * SecondsPerDay }

  predicate IsOld(j: Job, cutoff: int) { j.createdAt < cutoff }

  /** `get_old_jobs`: the jobs created before the cutoff whose files are not yet deleted. */
  function OldJobs(table: map<string, Job>, cutoff: int): (r: map<string, Job>)
  {
    map k | k in table && IsOld(table[k], cutoff) && !table[k].filesDeleted :: table[k]
  }

  /** The table `delete_old_jobs` leaves: every job except those both old and marked deleted. */
  function Purged(table: map<string, Job>, cutoff: int): map<string, Job>
  {
    map k | k in table && !(IsOld(table[k], cutoff) && table[k].filesDeleted) :: table[k]
  }

  /** The ids `delete_old_jobs` removes. */
  function PurgeSet(table: map<string, Job>, cutoff: int): set<string>
  {
    set k | k in table && IsOld(table[k], cutoff) && table[k].filesDeleted
  }

  /**
   * Purging removes exactly the old jobs marked deleted, keeps every other
   * job unchanged, and never removes a job `get_old_jobs` still reports.
   */
  lemma PurgeRemovesExactly(table: map<string, Job>, cutoff: int)
    ensures Purged(table, cutoff).Keys == table.Keys - PurgeSet(table, cutoff)
    ensures forall k :: k in Purged(table, cutoff) ==> Purged(table, cutoff)[k] == table[k]
    ensures OldJobs(table, cutoff).Keys !! PurgeSet(table, cutoff)
    ensures |table| == |Purged(table, cutoff)| + |PurgeSet(table, cutoff)|
  {
    var kept := Purged(table, cutoff).Keys;
    var gone := PurgeSet(table, cutoff);
    assert table.Keys == kept + gone;
    assert kept !! gone;
    assert |table.Keys| == |table|;
  }

  // ---------------------------------------------------------------------------
  // Jobs: listing a user's jobs
  // ---------------------------------------------------------------------------

  /** Non-increasing by `key`: the order of `ORDER BY ... DESC`. */
  predicate Descending<T>(s: seq<T>, key: T -> int)
  {
    forall i, j :: 0 <= i < j < |s| ==> key(s[i]) >= key(s[j])
  }

  predicate NoDuplicates<T(==)>(s: seq<T>)
  {
    forall i, j :: 0 <= i < j < |s| ==> s[i] != s[j]
  }

  /** Inserts `x` into a descending list before the first element whose key is not greater. */
  function InsertDescending<T>(s: seq<T>, x: T, key: T -> int): (r: seq<T>)
    ensures multiset(r) == multiset(s) + multiset{x}
  {
    if s == [] then [x]
    else if key(x) >= key(s[0]) then [x] + s
    else
      assert s == [s[0]] + s[1..];
      [s[0]] + InsertDescending(s[1..], x, key)
  }

  lemma {:induction false} InsertKeepsDescending<T>(s: seq<T>, x: T, key: T -> int)
    requires Descending(s, key)
    ensures Descending(InsertDescending(s, x, key), key)
  {
    if s != [] && key(x) < key(s[0]) {
      var rest := InsertDescending(s[1..], x, key);
      InsertKeepsDescending(s[1..], x, key);
      forall j | 0 <= j < |rest| ensures key(rest[j]) <= key(s[0]) {
        var e := rest[j];
        assert e in multiset(rest);
        if e != x {
          assert e in multiset(s[1..]);
          var p :| 0 <= p < |s[1..]| && s[1..][p] == e;
          assert s[p + 1] == e;
        }
      }
      var r := [s[0]] + rest;
      forall i, j | 0 <= i < j < |r| ensures key(r[i]) >= key(r[j]) {
        assert r[j] == rest[j - 1];
        if i > 0 {
          assert r[i] == rest[i - 1];
        }
      }
    }
  }

  /** Inserting adds exactly the new element to the members. */
  lemma InsertMembers<T>(s: seq<T>, x: T, key: T -> int)
    ensures forall e :: e in InsertDescending(s, x, key) <==> e in s || e == x
  {
    var r := InsertDescending(s, x, key);
    forall e ensures e in r <==> e in s || e == x {
      assert e in r <==> e in multiset(r);
      assert e in s <==> e in multiset(s);
    }
  }

  lemma {:induction false} InsertKeepsNoDuplicates<T>(s: seq<T>, x: T, key: T -> int)
    requires NoDuplicates(s) && x !in s
    ensures NoDuplicates(InsertDescending(s, x, key))
  {
    if s != [] && key(x) < key(s[0]) {
      var rest := InsertDescending(s[1..], x, key);
      InsertKeepsNoDuplicates(s[1..], x, key);
      forall e | e in rest ensures e != s[0] {
        assert e in multiset(rest);
        if e != x {
          assert e in multiset(s[1..]);
          var p :| 0 <= p < |s[1..]| && s[1..][p] == e;
          assert s[p + 1] == e;
        }
      }
      var r := [s[0]] + rest;
      forall i, j | 0 <= i < j < |r| ensures r[i] != r[j] {
        if i == 0 {
          assert r[j] in rest;
        } else {
          assert r[i] == rest[i - 1] && r[j] == rest[j - 1];
        }
      }
    }
  }

  /** Every element a prefix of a descending list leaves out has a key no greater than any it keeps. */
  lemma PrefixOfDescending<T>(s: seq<T>, n: nat, key: T -> int)
    requires Descending(s, key) && n <= |s|
    ensures forall e, i :: e in s && e !in s[..n] && 0 <= i < n ==> key(e) <= key(s[..n][i])
  {
    forall e, i | e in s && e !in s[..n] && 0 <= i < n ensures key(e) <= key(s[..n][i]) {
      assert s == s[..n] + s[n..];
      assert e in s[n..];
      var p :| 0 <= p < |s[n..]| && s[n..][p] == e;
      assert s[n + p] == e;
    }
  }

  function CreatedAt(j: Job): int { j.createdAt }

  // ---------------------------------------------------------------------------
  // The job repository
  // ---------------------------------------------------------------------------

  class JobRepository {
    /** The `jobs` table, keyed by the primary key `id`. */
    var jobs: map<string, Job>

    /** Every row is stored under its own id. */
    ghost predicate Valid()
      reads this
    {
      forall k :: k in jobs ==> jobs[k].id == k
    }

    constructor ()
      ensures Valid() && jobs == map[]
    {
      jobs := map[];
    }

    /** `create_job`: inserts the new row with its defaults; the primary key makes a duplicate id a failed commit, so ids are fresh. */
    method CreateJob(id: string, userId: string, inputPath: string, outputDir: string, stems: int := 2,
                     originalFilename: Option<string> := None, fileSize: Option<int> := None,
                     ipAddress: Option<string> := None, now: int) returns (job: Job)
      requires Valid() && id !in jobs
      modifies this
      ensures Valid()
      ensures job == NewJob(id, userId, inputPath, outputDir, stems, originalFilename, fileSize, ipAddress, now)
      ensures jobs == old(jobs)[id := job]
    {
      job := NewJob(id, userId, inputPath, outputDir, stems, originalFilename, fileSize, ipAddress, now);
      jobs := jobs[id := job];
    }

    /** `get_job`: the row whose primary key is `id`, and `None` exactly when there is none. */
    function GetJob(id: string): (r: Option<Job>)
      requires Valid()
      reads this
      ensures r.None? <==> id !in jobs
      ensures r.Some? ==> r.value.id == id
    {
      if id in jobs then Some(jobs[id]) else None
    }

    /**
     * `update_job`: an unknown id gives `None` and changes nothing; otherwise
     * the row is updated field by field and committed.
     */
    method UpdateJob(id: string, u: JobUpdate, now: int) returns (r: Option<Job>)
      requires Valid()
      modifies this
      ensures Valid()
      ensures id !in old(jobs) ==> r.None? && jobs == old(jobs)
      ensures id in old(jobs) ==> r == Some(ApplyUpdate(old(jobs)[id], u, now)) && jobs == old(jobs)[id := r.value]
    {
      if id !in jobs {
        return None;
      }
      var job := jobs[id];
      if u.status.Some? {
        job := StatusTransition(job, u.status.value, now);
      }
      job := OverrideFields(job, u, now);
      jobs := jobs[id := job];
      r := Some(job);
    }

    /**
     * `get_user_jobs`: at most `limit` of the user's jobs, newest first. Any
     * job of the user that is left out is no newer than every job listed,
     * and when fewer than `limit` are listed none is left out.
     */
    method GetUserJobs(userId: string, limit: nat := 50) returns (r: seq<Job>)
      requires Valid()
      ensures |r| <= limit
      ensures forall e :: e in r ==> e.userId == userId && e.id in jobs && jobs[e.id] == e
      ensures NoDuplicates(r) && Descending(r, CreatedAt)
      ensures |r| < limit ==> forall k :: k in jobs && jobs[k].userId == userId ==> jobs[k] in r
      ensures forall k, i :: k in jobs && jobs[k].userId == userId && jobs[k] !in r && 0 <= i < |r|
                ==> jobs[k].createdAt <= r[i].createdAt
    {
      var all := UserJobsNewestFirst(userId);
      var n := if limit < |all| then limit else |all|;
      r := all[..n];
      PrefixOfDescending(all, n, CreatedAt);
    }

    /** Every job of the user, newest first, each once. */
    method UserJobsNewestFirst(userId: string) returns (all: seq<Job>)
      requires Valid()
      ensures Descending(all, CreatedAt) && NoDuplicates(all)
      ensures forall e :: e in all ==> e.userId == userId && e.id in jobs && jobs[e.id] == e
      ensures forall k :: k in jobs && jobs[k].userId == userId ==> jobs[k] in all
    {
      all := [];
      var rest := jobs.Keys;
      while rest != {}
        invariant rest <= jobs.Keys
        invariant Descending(all, CreatedAt) && NoDuplicates(all)
        invariant forall e :: e in all ==> e.userId == userId && e.id in jobs && jobs[e.id] == e && e.id !in rest
        invariant forall k :: k in jobs && k !in rest && jobs[k].userId == userId ==> jobs[k] in all
        decreases |rest|
      {
        var k :| k in rest;
        if jobs[k].userId == userId {
          var x := jobs[k];
          InsertKeepsDescending(all, x, CreatedAt);
          InsertKeepsNoDuplicates(all, x, CreatedAt);
          InsertMembers(all, x, CreatedAt);
          all := InsertDescending(all, x, CreatedAt);
        }
        rest := rest - {k};
      }
    }

    /** `get_queue_info`. */
    method GetQueueInfo() returns (info: QueueInfo)
      ensures info == QueueInfoOf(jobs)
      ensures info.position == info.jobsAhead
    {
      info := QueueInfoOf(jobs);
    }

    /** `get_old_jobs`: the jobs older than `days` days whose files are not yet deleted. */
    method GetOldJobs(days: int := 7, now: int) returns (old_: map<string, Job>)
      ensures old_.Keys <= jobs.Keys
      ensures forall k :: k in old_ ==> old_[k] == jobs[k] && jobs[k].createdAt < Cutoff(days, now) && !jobs[k].filesDeleted
      ensures forall k :: k in jobs && jobs[k].createdAt < Cutoff(days, now) && !jobs[k].filesDeleted ==> k in old_
    {
      old_ := OldJobs(jobs, Cutoff(days, now));
    }

    /** `mark_files_deleted`: flags the row and refreshes `updated_at`; false for an unknown id. */
    method MarkFilesDeleted(id: string, now: int) returns (found: bool)
      requires Valid()
      modifies this
      ensures Valid()
      ensures found == (id in old(jobs))
      ensures found ==> jobs == old(jobs)[id := old(jobs)[id].(filesDeleted := true, updatedAt := now)]
      ensures !found ==> jobs == old(jobs)
    {
      var job := GetJob(id);
      if job.Some? {
        jobs := jobs[id := job.value.(filesDeleted := true, updatedAt := now)];
        return true;
      }
      return false;
    }

    /** `delete_old_jobs`: removes the old rows already marked deleted and returns how many went. */
    method DeleteOldJobs(days: int := 7, now: int) returns (deleted: nat)
      requires Valid()
      modifies this
      ensures Valid()
      ensures jobs == Purged(old(jobs), Cutoff(days, now))
      ensures deleted == |PurgeSet(old(jobs), Cutoff(days, now))|
    {
      var cutoff := Cutoff(days, now);
      PurgeRemovesExactly(jobs, cutoff);
      deleted := |PurgeSet(jobs, cutoff)|;
      jobs := Purged(jobs, cutoff);
    }
  }

  /** Marking a job's files deleted moves it from `get_old_jobs` into the purge set of the same cutoff. */
  lemma MarkedOldJobIsPurged(table: map<string, Job>, id: string, now: int, cutoff: int)
    requires id in OldJobs(table, cutoff)
    ensures var marked := table[id := table[id].(filesDeleted := true, updatedAt := now)];
      id !in OldJobs(marked, cutoff) && id in PurgeSet(marked, cutoff) && id !in Purged(marked, cutoff)
  {
  }

  // ---------------------------------------------------------------------------
  // Quotas
  // ---------------------------------------------------------------------------

  /** The outcome of `check_quota`, with the limit and the observed value each rejection reports. */
  datatype QuotaDecision =
    | Allowed
    | FileTooLarge(limit: int, requested: real)
    | HourlyLimit(limit: int, current: int)
    | DailyLimit(limit: int, current: int)

  /** The admission checks of `check_quota`, in their fixed order: size, then hourly, then daily. */
  function Decide(q: UserQuota, fileSizeMb: real): QuotaDecision
  {
    if fileSizeMb > q.maxFileSizeMb as real then FileTooLarge(q.maxFileSizeMb, fileSizeMb)
    else if q.jobsLastHour >= q.jobsPerHour then HourlyLimit(q.jobsPerHour, q.jobsLastHour)
    else if q.jobsLastDay >= q.jobsPerDay then DailyLimit(q.jobsPerDay, q.jobsLastDay)
    else Allowed
  }

  /**
   * The first violated rule wins: an oversized file is rejected for its size
   * whatever the counters say, the hourly limit is reported before the daily
   * one, and a request is admitted exactly when no rule is violated.
   */
  lemma DecisionOrder(q: UserQuota, fileSizeMb: real)
    ensures Decide(q, fileSizeMb).Allowed? <==>
              fileSizeMb <= q.maxFileSizeMb as real && q.jobsLastHour < q.jobsPerHour && q.jobsLastDay < q.jobsPerDay
    ensures Decide(q, fileSizeMb).FileTooLarge? <==> fileSizeMb > q.maxFileSizeMb as real
    ensures Decide(q, fileSizeMb).HourlyLimit? <==>
              fileSizeMb <= q.maxFileSizeMb as real && q.jobsLastHour >= q.jobsPerHour
    ensures Decide(q, fileSizeMb).DailyLimit? <==>
              fileSizeMb <= q.maxFileSizeMb as real && q.jobsLastHour < q.jobsPerHour && q.jobsLastDay >= q.jobsPerDay
  {
  }

  /** The quota row after `increment_usage`. */
  function Bumped(q: UserQuota, now: int): UserQuota
  {
    q.(jobsLastHour := q.jobsLastHour + 1, jobsLastDay := q.jobsLastDay + 1, lastJobAt := Some(now), updatedAt := now)
  }

  /** Recording usage after an admission never takes a counter past its limit. */
  lemma AdmissionKeepsCountersWithinLimits(q: UserQuota, fileSizeMb: real, now: int)
    requires Decide(q, fileSizeMb) == Allowed
    ensures Bumped(q, now).jobsLastHour <= q.jobsPerHour
    ensures Bumped(q, now).jobsLastDay <= q.jobsPerDay
  {
  }

  /** Admits and records `n` jobs in a row, each at time `now`; returns how many were admitted. */
  function AdmitRepeatedly(q: UserQuota, fileSizeMb: real, n: nat, now: int): (r: (UserQuota, nat))
    decreases n
  {
    if n == 0 then (q, 0)
    else if Decide(q, fileSizeMb) == Allowed then
      var (q', k) := AdmitRepeatedly(Bumped(q, now), fileSizeMb, n - 1, now);
      (q', k + 1)
    else (q, 0)
  }

  lemma {:induction false} AdmitRepeatedlyCounts(q: UserQuota, fileSizeMb: real, n: nat, now: int)
    requires fileSizeMb <= q.maxFileSizeMb as real
    requires 0 <= q.jobsLastHour <= q.jobsPerHour && q.jobsLastHour <= q.jobsLastDay
    requires q.jobsLastDay + q.jobsPerHour <= q.jobsPerDay + q.jobsLastHour
    ensures AdmitRepeatedly(q, fileSizeMb, n, now).1
            == (if n < q.jobsPerHour - q.jobsLastHour then n else q.jobsPerHour - q.jobsLastHour)
    decreases n
  {
    if n > 0 && Decide(q, fileSizeMb) == Allowed {
      AdmitRepeatedlyCounts(Bumped(q, now), fileSizeMb, n - 1, now);
    }
  }

  /** A fresh user submitting files within the size limit gets exactly five jobs admitted in a burst. */
  lemma FreshUserBurstIsFive(userId: string, fileSizeMb: real, n: nat, now: int)
    requires fileSizeMb <= 25.0 && n >= 5
    ensures AdmitRepeatedly(NewQuota(userId, now), fileSizeMb, n, now).1 == 5
  {
    AdmitRepeatedlyCounts(NewQuota(userId, now), fileSizeMb, n, now);
  }

  /** A user at the hourly limit (5 of 5) submitting a 10 MB file is refused for the hourly limit. */
  lemma HourlyLimitScenario(q: UserQuota)
    requires q.jobsPerHour == 5 && q.jobsLastHour == 5 && q.maxFileSizeMb == 25
    ensures Decide(q, 10.0) == HourlyLimit(5, 5)
  {
  }

  class UserQuotaRepository {
    /** The `user_quotas` table, keyed by the unique `user_id`. */
    var quotas: map<string, UserQuota>

    ghost predicate Valid()
      reads this
    {
      forall u :: u in quotas ==> quotas[u].userId == u
    }

    constructor ()
      ensures Valid() && quotas == map[]
    {
      quotas := map[];
    }

    /** `get_or_create_quota`: the existing row, or a new row with the default limits. */
    method GetOrCreateQuota(userId: string, now: int) returns (q: UserQuota)
      requires Valid()
      modifies this
      ensures Valid()
      ensures userId in old(quotas) ==> q == old(quotas)[userId] && quotas == old(quotas)
      ensures userId !in old(quotas) ==> q == NewQuota(userId, now) && quotas == old(quotas)[userId := q]
      ensures userId in quotas && quotas[userId] == q
    {
      if userId in quotas {
        q := quotas[userId];
      } else {
        q := NewQuota(userId, now);
        quotas := quotas[userId := q];
      }
    }

    /** `check_quota`: the decision for the user's row; only the lazy creation of the row changes the table. */
    method CheckQuota(userId: string, fileSizeMb: real := 0.0, now: int) returns (d: QuotaDecision)
      requires Valid()
      modifies this
      ensures Valid()
      ensures userId in quotas && d == Decide(quotas[userId], fileSizeMb)
      ensures userId in old(quotas) ==> quotas == old(quotas)
      ensures userId !in old(quotas) ==> quotas == old(quotas)[userId := NewQuota(userId, now)]
    {
      var q := GetOrCreateQuota(userId, now);
      d := Decide(q, fileSizeMb);
    }

    /** `increment_usage`: both counters go up by exactly one; other users are untouched. */
    method IncrementUsage(userId: string, now: int) returns (q: UserQuota)
      requires Valid()
      modifies this
      ensures Valid()
      ensures var before := if userId in old(quotas) then old(quotas)[userId] else NewQuota(userId, now);
        && q == Bumped(before, now)
        && q.jobsLastHour == before.jobsLastHour + 1 && q.jobsLastDay == before.jobsLastDay + 1
        && quotas == old(quotas)[userId := q]
    {
      q := GetOrCreateQuota(userId, now);
      q := q.(jobsLastHour := q.jobsLastHour + 1);
      q := q.(jobsLastDay := q.jobsLastDay + 1);
      q := q.(lastJobAt := Some(now), updatedAt := now);
      quotas := quotas[userId := q];
    }
  }

  /** Asking twice for the same user's quota returns the same row and creates it at most once. */
  method GetOrCreateTwice(repo: UserQuotaRepository, userId: string, t1: int, t2: int)
    returns (first: UserQuota, second: UserQuota)
    requires repo.Valid()
    modifies repo
    ensures first == second
    ensures |repo.quotas.Keys - old(repo.quotas.Keys)| <= 1
  {
    first := repo.GetOrCreateQuota(userId, t1);
    second := repo.GetOrCreateQuota(userId, t2);
  }
}
