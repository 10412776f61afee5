/**
 * Record shapes of the job database (backend/python/database/schema.py):
 * the `jobs` and `user_quotas` tables, with their column defaults.
 * Timestamps are whole seconds; the clock is always a parameter.
 */
module Schema {
  import opened Wrappers

  const SecondsPerDay: int := 86400

  /** Days after creation at which a job's files are due for deletion. */
  const AutoCleanupDays: int := 7

  /** One row of the `jobs` table. `id` is the primary key. */
  datatype Job = Job(
    id: string,
    status: string,
    progress: int,
    message: Option<string>,
    error: Option<string>,
    inputPath: string,
    outputDir: string,
    stems: int,
    originalFilename: Option<string>,
    fileSize: Option<int>,
    processingStartedAt: Option<int>,
    processingCompletedAt: Option<int>,
    processingDurationSeconds: Option<int>,
    userId: string,
    ipAddress: Option<string>,
    queuePosition: Option<int>,
    estimatedWaitSeconds: Option<int>,
    stemFiles: Option<map<string, string>>,
    metadata: Option<map<string, string>>,
    createdAt: int,
    updatedAt: int,
    autoCleanupAt: Option<int>,
    filesDeleted: bool)

  /** One row of the `user_quotas` table. `userId` is unique. */
  datatype UserQuota = UserQuota(
    userId: string,
    jobsPerHour: int,
    jobsPerDay: int,
    maxFileSizeMb: int,
    jobsLastHour: int,
    jobsLastDay: int,
    lastJobAt: Option<int>,
    createdAt: int,
    updatedAt: int)

  /**
   * The processing timestamps of a job agree with each other: a completion
   * time exists only after a start time, the stored duration is exactly
   * their difference, and nothing lies after the last update.
   */
  predicate TimelineConsistent(j: Job)
  {
    && j.createdAt <= j.updatedAt
    && (j.processingStartedAt.Some? ==> j.processingStartedAt.value <= j.updatedAt)
    && (j.processingCompletedAt.Some? ==>
          && j.processingStartedAt.Some?
          && j.processingStartedAt.value <= j.processingCompletedAt.value <= j.updatedAt
          && j.processingDurationSeconds == Some(j.processingCompletedAt.value - j.processingStartedAt.value))
    && (j.processingCompletedAt.None? ==> j.processingDurationSeconds.None?)
  }

  /**
   * The row `create_job` inserts: the given fields, the column defaults for
   * the rest, and the auto-cleanup deadline seven days after creation.
   */
  function NewJob(id: string, userId: string, inputPath: string, outputDir: string, stems: int := 2,
                  originalFilename: Option<string> := None, fileSize: Option<int> := None,
                  ipAddress: Option<string> := None, now: int): (j: Job)
    ensures j.id == id && j.userId == userId && j.stems == stems
    ensures j.status == "queued" && j.progress == 0 && !j.filesDeleted
    ensures j.createdAt == now && j.autoCleanupAt == Some(now + AutoCleanupDays * SecondsPerDay)
    ensures j.processingStartedAt.None? && j.processingCompletedAt.None? && j.stemFiles.None?
    ensures TimelineConsistent(j)
  {
    Job(id := id, status := "queued", progress := 0, message := None, error := None,
        inputPath := inputPath, outputDir := outputDir, stems := stems,
        originalFilename := originalFilename, fileSize := fileSize,
        processingStartedAt := None, processingCompletedAt := None, processingDurationSeconds := None,
        userId := userId, ipAddress := ipAddress, queuePosition := None, estimatedWaitSeconds := None,
        stemFiles := None, metadata := None, createdAt := now, updatedAt := now,
        autoCleanupAt := Some(now + AutoCleanupDays * SecondsPerDay), filesDeleted := false)
  }

  /** A job created with only the required arguments splits into two stems and records no file name, size or address. */
  lemma NewJobDefaults(id: string, userId: string, inputPath: string, outputDir: string, now: int)
    ensures var j := NewJob(id, userId, inputPath, outputDir, now := now);
      j.stems == 2 && j.originalFilename.None? && j.fileSize.None? && j.ipAddress.None?
  {
  }

  /** The row `get_or_create_quota` inserts for an unseen user: limits 5/hour, 20/day, 25 MB, no usage yet. */
  function NewQuota(userId: string, now: int): (q: UserQuota)
    ensures q.userId == userId
    ensures q.jobsPerHour == 5 && q.jobsPerDay == 20 && q.maxFileSizeMb == 25
    ensures q.jobsLastHour == 0 && q.jobsLastDay == 0 && q.lastJobAt.None?
  {
    UserQuota(userId := userId, jobsPerHour := 5, jobsPerDay := 20, maxFileSizeMb := 25,
              jobsLastHour := 0, jobsLastDay := 0, lastJobAt := None,
              createdAt := now, updatedAt := now)
  }
}
