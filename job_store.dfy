/**
 * The API service's job bookkeeping (backend/python/main.py): the global
 * `jobs` dict, its one-file-per-job JSON mirror on disk, the background
 * separation task that drives a job through
 * queued → waiting → processing → completed | error, and the JWKS cache.
 *
 * The disk directory is a map from job id to file contents; whether a file
 * operation succeeds is a parameter. The GPU lock is a ghost flag, and a
 * ghost trace records every save with the status saved and whether the
 * lock was held at the time.
 */
module JobStore {
  import opened Wrappers
  import Processor

  /** One entry of the `jobs` dict; `None` stands for a key the dict does not have. */
  datatype JobRecord = JobRecord(
    id: string,
    status: string,
    progress: real,
    message: string,
    userId: Option<string>,
    createdAt: int,
    updatedAt: int,
    error: Option<string>,
    stems: Option<map<string, string>>)

  /** The contents of `<id>.json`: a record, or a file that does not parse (empty or truncated). */
  datatype DiskEntry = Stored(record: JobRecord) | Corrupt

  /** How the file write in `save_job` goes. */
  datatype SaveOutcome = WriteOk | OpenFails | DumpFails

  /** The directory after `save_job(id)`: opening truncates the file, so a failure after the open leaves it unreadable. */
  function SaveEffect(jobs: map<string, JobRecord>, disk: map<string, DiskEntry>, id: string, outcome: SaveOutcome)
    : (d: map<string, DiskEntry>)
    ensures d.Keys == disk.Keys + (if outcome.OpenFails? then {} else {id})
    ensures forall k :: k in disk && k != id ==> d[k] == disk[k]
  {
    match outcome
    case OpenFails => disk
    case DumpFails => disk[id := Corrupt]
    case WriteOk => if id in jobs then disk[id := Stored(jobs[id])] else disk[id := Corrupt]
  }

  /** `load_job(id)`: the record found and the dict afterwards (a disk hit is promoted into memory). */
  function LoadEffect(jobs: map<string, JobRecord>, disk: map<string, DiskEntry>, id: string, readOk: bool)
    : (r: (Option<JobRecord>, map<string, JobRecord>))
    ensures id in jobs ==> r == (Some(jobs[id]), jobs)
    ensures id !in jobs && id in disk && disk[id].Stored? && readOk ==>
              r == (Some(disk[id].record), jobs[id := disk[id].record])
    ensures r.0.None? ==> r.1 == jobs
  {
    if id in jobs then (Some(jobs[id]), jobs)
    else if id in disk && disk[id].Stored? && readOk then (Some(disk[id].record), jobs[id := disk[id].record])
    else (None, jobs)
  }

  /**
   * What was saved survives the loss of memory: after a successful save, a
   * load from an empty dict returns the record that was in memory.
   */
  lemma SaveThenLoadAfterRestart(jobs: map<string, JobRecord>, disk: map<string, DiskEntry>, id: string)
    requires id in jobs
    ensures LoadEffect(map[], SaveEffect(jobs, disk, id, WriteOk), id, true).0 == Some(jobs[id])
  {
  }

  /** A failed save never takes away a record that a load could find in memory. */
  lemma FailedSaveKeepsMemory(jobs: map<string, JobRecord>, disk: map<string, DiskEntry>, id: string,
                              outcome: SaveOutcome, readOk: bool)
    requires id in jobs
    ensures LoadEffect(jobs, SaveEffect(jobs, disk, id, outcome), id, readOk).0 == Some(jobs[id])
  {
  }

  /** A corrupt or unreadable file makes a job that is not in memory unknown. */
  lemma CorruptFileIsNotFound(jobs: map<string, JobRecord>, disk: map<string, DiskEntry>, id: string, readOk: bool)
    requires id !in jobs && (id !in disk || disk[id].Corrupt? || !readOk)
    ensures LoadEffect(jobs, disk, id, readOk) == (None, jobs)
  {
  }

  /** The record `start_separation` inserts. */
  function QueuedRecord(id: string, sub: Option<string>, now: int): JobRecord
  {
    JobRecord(id, "queued", 0.0, "Job added to queue", sub, now, now, None, None)
  }

  /** What the progress callback does to a record. */
  function ApplyEvent(r: JobRecord, e: Processor.ProgressEvent, now: int): JobRecord
  {
    r.(progress := e.progress, message := e.raw, updatedAt := now)
  }

  function ApplyEvents(r: JobRecord, es: seq<Processor.ProgressEvent>, now: int): JobRecord
  {
    if es == [] then r else ApplyEvent(ApplyEvents(r, es[..|es| - 1], now), es[|es| - 1], now)
  }

  /**
   * Callbacks copy each reported percentage as it comes: after a run of
   * events the record shows the last one, and nothing but progress,
   * message and the update time changes.
   */
  lemma {:induction false} ApplyEventsLastWins(r: JobRecord, es: seq<Processor.ProgressEvent>, now: int)
    ensures es != [] ==> ApplyEvents(r, es, now).progress == es[|es| - 1].progress
                         && ApplyEvents(r, es, now).message == es[|es| - 1].raw
    ensures es == [] ==> ApplyEvents(r, es, now) == r
    ensures ApplyEvents(r, es, now).(progress := r.progress, message := r.message, updatedAt := r.updatedAt) == r
    decreases |es|
  {
    if es != [] {
      ApplyEventsLastWins(r, es[..|es| - 1], now);
    }
  }

  /** Progress is not clamped to be monotone: a lower later report lowers it. */
  lemma ProgressCanDecrease(r: JobRecord, now: int)
    ensures var es := [Processor.ProgressEvent(50.0, "Separating Stems: 50.0%"),
                       Processor.ProgressEvent(20.0, "Separating Stems: 20.0%")];
      ApplyEvents(r, es, now).progress == 20.0
  {
    var es := [Processor.ProgressEvent(50.0, "Separating Stems: 50.0%"),
               Processor.ProgressEvent(20.0, "Separating Stems: 20.0%")];
    ApplyEventsLastWins(r, es, now);
  }

  /** Every record in the dict sits under its own id. */
  ghost predicate RecordsUnderOwnId(jobs: map<string, JobRecord>)
  {
    forall k :: k in jobs ==> jobs[k].id == k
  }

  /** Every readable file holds the record of the job it is named after. */
  ghost predicate FilesUnderOwnId(disk: map<string, DiskEntry>)
  {
    forall k :: k in disk && disk[k].Stored? ==> disk[k].record.id == k
  }

  /** Replacing a record twice is replacing it with the second. */
  lemma UpdateTwice(jobs: map<string, JobRecord>, id: string, first: JobRecord, second: JobRecord)
    ensures jobs[id := first][id := second] == jobs[id := second]
  {
  }

  /** Putting a record under its own id keeps every record under its own id. */
  lemma OwnIdAfterUpdate(jobs: map<string, JobRecord>, id: string, r: JobRecord)
    requires RecordsUnderOwnId(jobs) && r.id == id
    ensures RecordsUnderOwnId(jobs[id := r])
  {
  }

  /** Saving a job twice leaves what the second save wrote. */
  lemma SaveOverwrites(j1: map<string, JobRecord>, j2: map<string, JobRecord>, disk: map<string, DiskEntry>,
                       id: string, outcome: SaveOutcome)
    requires id in j1 <==> id in j2
    ensures SaveEffect(j2, SaveEffect(j1, disk, id, outcome), id, outcome) == SaveEffect(j2, disk, id, outcome)
  {
  }

  /** The record once the task holds the lock: "processing", with the message the front end shows. */
  function Running(r: JobRecord, now: int): JobRecord
  {
    r.(status := "processing", message := "Separating stems with CUDA...", updatedAt := now)
  }

  /** The record once the processor has answered: its stems on success, its message as the error otherwise. */
  function Verdict(r: JobRecord, result: Processor.Outcome, now: int): JobRecord
  {
    match result
    case Complete(stems) =>
      r.(status := "completed", progress := 100.0, message := "Separation successful.", stems := Some(stems), updatedAt := now)
    case Error(m) => r.(status := "error", error := Some(m), updatedAt := now)
  }

  /**
   * A finished task ends in exactly one of the two terminal states: completed
   * at 100% with the processor's stems and the earlier error untouched, or
   * failed with the processor's message and the progress where it stopped.
   */
  lemma VerdictIsTerminal(r: JobRecord, result: Processor.Outcome, now: int)
    ensures var v := Verdict(r, result, now);
      && v.id == r.id && v.userId == r.userId && v.createdAt == r.createdAt && v.updatedAt == now
      && (v.status == "completed" <==> result.Complete?)
      && (v.status == "error" <==> result.Error?)
      && (result.Complete? ==> v.progress == 100.0 && v.stems == Some(result.stems) && v.error == r.error)
      && (result.Error? ==> v.error == Some(result.message) && v.progress == r.progress && v.stems == r.stems)
  {
  }

  /** The record while the task waits for the lock. */
  function Waiting(r: JobRecord, now: int): JobRecord
  {
    r.(status := "waiting", message := "Waiting for GPU access...", updatedAt := now)
  }

  /**
   * The directory after the records `written` are saved under `id` one
   * after the other, `written[i]` by a save whose outcome is
   * `outcome(from + i)`: each save may fail on its own.
   */
  function SaveSeries(disk: map<string, DiskEntry>, id: string, written: seq<JobRecord>,
                      outcome: nat -> SaveOutcome, from: nat): (d: map<string, DiskEntry>)
    ensures forall k :: k in disk && k != id ==> k in d && d[k] == disk[k]
    decreases |written|
  {
    if written == [] then disk
    else
      var n := |written| - 1;
      SaveEffect(map[id := written[n]], SaveSeries(disk, id, written[..n], outcome, from), id, outcome(from + n))
  }

  /** One more save of the record `jobs` holds extends the series. */
  lemma SaveSeriesSnoc(disk: map<string, DiskEntry>, id: string, written: seq<JobRecord>, jobs: map<string, JobRecord>,
                       outcome: nat -> SaveOutcome, from: nat)
    requires id in jobs
    ensures SaveSeries(disk, id, written + [jobs[id]], outcome, from)
            == SaveEffect(jobs, SaveSeries(disk, id, written, outcome, from), id, outcome(from + |written|))
  {
    assert (written + [jobs[id]])[..|written|] == written;
  }

  /** Two series of saves, one after the other, are one series. */
  lemma {:induction false} SaveSeriesAppend(disk: map<string, DiskEntry>, id: string, a: seq<JobRecord>, b: seq<JobRecord>,
                                            outcome: nat -> SaveOutcome, from: nat)
    ensures SaveSeries(disk, id, a + b, outcome, from)
            == SaveSeries(SaveSeries(disk, id, a, outcome, from), id, b, outcome, from + |a|)
    decreases |b|
  {
    if b == [] {
      assert a + b == a;
    } else {
      var n := |b| - 1;
      assert (a + b)[..|a| + n] == a + b[..n];
      SaveSeriesAppend(disk, id, a, b[..n], outcome, from);
    }
  }

  /**
   * What the job's file holds after a series of saves: the record of the
   * last save that got its file written, as long as every later save failed
   * to open the file.
   */
  lemma {:induction false} FileHoldsLastWrite(disk: map<string, DiskEntry>, id: string, written: seq<JobRecord>,
                                              outcome: nat -> SaveOutcome, from: nat, k: nat)
    requires k < |written| && outcome(from + k).WriteOk?
    requires forall j: nat :: from + k < j < from + |written| ==> outcome(j).OpenFails?
    ensures var d := SaveSeries(disk, id, written, outcome, from);
      id in d && d[id] == Stored(written[k])
    decreases |written|
  {
    var n := |written| - 1;
    if k < n {
      assert outcome(from + n).OpenFails?;
      assert written[..n][k] == written[k];
      FileHoldsLastWrite(disk, id, written[..n], outcome, from, k);
    }
  }

  /** A series of saves none of which opens the file leaves the directory as it was. */
  lemma {:induction false} NoOpenKeepsDisk(disk: map<string, DiskEntry>, id: string, written: seq<JobRecord>,
                                           outcome: nat -> SaveOutcome, from: nat)
    requires forall j: nat :: from <= j < from + |written| ==> outcome(j).OpenFails?
    ensures SaveSeries(disk, id, written, outcome, from) == disk
    decreases |written|
  {
    if written != [] {
      var n := |written| - 1;
      assert outcome(from + n).OpenFails?;
      NoOpenKeepsDisk(disk, id, written[..n], outcome, from);
    }
  }

  /** The records the progress callbacks save: the running record after the first `i + 1` events, for each `i`. */
  function ProgressWrites(r: JobRecord, es: seq<Processor.ProgressEvent>, now: int): (w: seq<JobRecord>)
    ensures |w| == |es|
  {
    if es == [] then [] else ProgressWrites(r, es[..|es| - 1], now) + [ApplyEvents(r, es, now)]
  }

  /** The records one task saves, in order: waiting, processing, one per progress event, then `final`. */
  function TaskWrites(r: JobRecord, now: int, events: seq<Processor.ProgressEvent>, final: JobRecord)
    : (w: seq<JobRecord>)
    ensures |w| == |events| + 3
    ensures w[0] == Waiting(r, now) && w[1] == Running(r, now) && w[|w| - 1] == final
  {
    [Waiting(r, now), Running(r, now)] + ProgressWrites(Running(r, now), events, now) + [final]
  }

  /**
   * When the task's last save gets through, a restarted service loads the
   * record the task finished with.
   */
  lemma VerdictSurvivesRestart(r: JobRecord, now: int, events: seq<Processor.ProgressEvent>, final: JobRecord,
                               disk: map<string, DiskEntry>, id: string, save: nat -> SaveOutcome)
    requires save(|events| + 2).WriteOk?
    ensures LoadEffect(map[], SaveSeries(disk, id, TaskWrites(r, now, events, final), save, 0), id, true).0
            == Some(final)
  {
    FileHoldsLastWrite(disk, id, TaskWrites(r, now, events, final), save, 0, |events| + 2);
  }

  /**
   * Each save fails on its own, so the file can fall behind memory: with no
   * progress events, the "waiting" and "processing" saves written and the
   * verdict's save failing to open the file, memory says "completed" while
   * the file still holds the "processing" record, and that is what a
   * restarted service reports.
   */
  lemma StaleProcessingFile(r: JobRecord, now: int, stems: map<string, string>,
                            disk: map<string, DiskEntry>, id: string, save: nat -> SaveOutcome)
    requires save(0).WriteOk? && save(1).WriteOk? && save(2).OpenFails?
    ensures var final := Verdict(Running(r, now), Processor.Complete(stems), now);
      && final.status == "completed"
      && LoadEffect(map[], SaveSeries(disk, id, TaskWrites(r, now, [], final), save, 0), id, true).0
         == Some(Running(r, now))
      && Running(r, now).status == "processing"
  {
    var final := Verdict(Running(r, now), Processor.Complete(stems), now);
    FileHoldsLastWrite(disk, id, TaskWrites(r, now, [], final), save, 0, 1);
  }

  /** One `save_job` call as the ghost trace records it. */
  datatype SaveRecord = SaveRecord(id: string, status: Option<string>, lockHeld: bool)

  class JobStore {
    /** The global `jobs` dict. */
    var jobs: map<string, JobRecord>
    /** The `JOB_STORE_DIR` directory: one entry per `<id>.json` file. */
    var disk: map<string, DiskEntry>
    /** Whether the task holds `gpu_lock`. */
    ghost var gpuHeld: bool
    /** Every `save_job` call so far. */
    ghost var saves: seq<SaveRecord>

    /** Records sit under their own id, in memory and on disk, and the lock is free between calls. */
    ghost predicate Valid()
      reads this
    {
      && RecordsUnderOwnId(jobs)
      && FilesUnderOwnId(disk)
      && !gpuHeld
    }

    constructor (disk0: map<string, DiskEntry>)
      requires FilesUnderOwnId(disk0)
      ensures Valid() && jobs == map[] && disk == disk0 && saves == []
    {
      jobs := map[];
      disk := disk0;
      gpuHeld := false;
      saves := [];
    }

    /** `save_job`: writes the record's file; failures are swallowed and memory is untouched. */
    method SaveJob(id: string, outcome: SaveOutcome)
      requires RecordsUnderOwnId(jobs)
      requires FilesUnderOwnId(disk)
      modifies this
      ensures jobs == old(jobs) && gpuHeld == old(gpuHeld)
      ensures disk == SaveEffect(old(jobs), old(disk), id, outcome)
      ensures FilesUnderOwnId(disk)
      ensures saves == old(saves) + [SaveRecord(id, if id in jobs then Some(jobs[id].status) else None, gpuHeld)]
    {
      saves := saves + [SaveRecord(id, if id in jobs then Some(jobs[id].status) else None, gpuHeld)];
      match outcome
      case OpenFails =>
      case DumpFails =>
        disk := disk[id := Corrupt];
      case WriteOk =>
        if id in jobs {
          disk := disk[id := Stored(jobs[id])];
        } else {
          disk := disk[id := Corrupt];
        }
    }

    /** `load_job`: memory first, then the file, promoting a readable file into memory. */
    method LoadJob(id: string, readOk: bool) returns (r: Option<JobRecord>)
      requires Valid()
      modifies this
      ensures Valid()
      ensures (r, jobs) == LoadEffect(old(jobs), old(disk), id, readOk)
      ensures disk == old(disk) && saves == old(saves)
    {
      if id in jobs {
        return Some(jobs[id]);
      }
      if id in disk {
        if readOk && disk[id].Stored? {
          var jobData := disk[id].record;
          jobs := jobs[id := jobData];
          return Some(jobData);
        }
        return None;
      }
      return None;
    }

    /** `POST /separate`: inserts the queued record and persists it before the task is scheduled. */
    method StartSeparation(id: string, sub: Option<string>, now: int, outcome: SaveOutcome) returns (jobId: string)
      requires Valid()
      modifies this
      ensures Valid()
      ensures jobId == id
      ensures jobs == old(jobs)[id := QueuedRecord(id, sub, now)]
      ensures disk == SaveEffect(jobs, old(disk), id, outcome)
      ensures saves == old(saves) + [SaveRecord(id, Some("queued"), false)]
    {
      jobs := jobs[id := QueuedRecord(id, sub, now)];
      SaveJob(id, outcome);
      jobId := id;
    }

    /** `GET /status/{id}`: the record, or `None` for the 404 answer. */
    method GetStatus(id: string, readOk: bool) returns (r: Option<JobRecord>)
      requires Valid()
      modifies this
      ensures Valid()
      ensures (r, jobs) == LoadEffect(old(jobs), old(disk), id, readOk)
      ensures disk == old(disk)
    {
      r := LoadJob(id, readOk);
    }

    /**
     * The first phase of the task: "waiting" saved before the lock, then
     * "processing" saved under it; these are the task's saves 0 and 1.
     */
    method BeginTask(id: string, outcome: nat -> SaveOutcome, now: int)
      requires Valid() && id in jobs
      modifies this
      ensures id in jobs && jobs == old(jobs)[id := Running(old(jobs)[id], now)]
      ensures RecordsUnderOwnId(jobs)
      ensures FilesUnderOwnId(disk)
      ensures disk == SaveSeries(old(disk), id, [Waiting(old(jobs)[id], now), Running(old(jobs)[id], now)], outcome, 0)
      ensures gpuHeld
      ensures saves == old(saves) + [SaveRecord(id, Some("waiting"), false)] + [SaveRecord(id, Some("processing"), true)]
    {
      ghost var disk0 := disk;
      ghost var jobs0 := jobs;
      jobs := jobs[id := Waiting(jobs[id], now)];
      SaveJob(id, outcome(0));
      ghost var disk1 := disk;
      gpuHeld := true;
      jobs := jobs[id := jobs[id].(status := "processing", message := "Separating stems with CUDA...", updatedAt := now)];
      UpdateTwice(jobs0, id, Waiting(jobs0[id], now), jobs[id]);
      SaveJob(id, outcome(1));
      ghost var written := [Waiting(jobs0[id], now), Running(jobs0[id], now)];
      assert written[..1] == [Waiting(jobs0[id], now)] && written[..1][..0] == [];
      assert disk1 == SaveSeries(disk0, id, written[..1], outcome, 0);
    }

    /** `progress_callback`: the event's percentage and text copied into the record, then saved under the lock. */
    method ProgressCallback(id: string, e: Processor.ProgressEvent, save: SaveOutcome, now: int)
      requires id in jobs && gpuHeld && jobs[id].status == "processing"
      requires RecordsUnderOwnId(jobs)
      requires FilesUnderOwnId(disk)
      modifies this
      ensures jobs == old(jobs)[id := ApplyEvent(old(jobs)[id], e, now)]
      ensures jobs[id].status == "processing"
      ensures RecordsUnderOwnId(jobs)
      ensures FilesUnderOwnId(disk)
      ensures disk == SaveEffect(jobs, old(disk), id, save)
      ensures gpuHeld
      ensures saves == old(saves) + [SaveRecord(id, Some("processing"), true)]
    {
      ghost var before := jobs;
      jobs := jobs[id := ApplyEvent(jobs[id], e, now)];
      OwnIdAfterUpdate(before, id, jobs[id]);
      SaveJob(id, save);
    }

    /**
     * The progress callback, once per event, each followed by a save under
     * the lock; the save for `events[i]` is the task's save `from + i`.
     */
    method ReportEvents(id: string, events: seq<Processor.ProgressEvent>, outcome: nat -> SaveOutcome, from: nat, now: int)
      requires id in jobs && gpuHeld && jobs[id].status == "processing"
      requires RecordsUnderOwnId(jobs)
      requires FilesUnderOwnId(disk)
      modifies this
      ensures id in jobs && jobs == old(jobs)[id := ApplyEvents(old(jobs)[id], events, now)]
      ensures RecordsUnderOwnId(jobs)
      ensures FilesUnderOwnId(disk)
      ensures disk == SaveSeries(old(disk), id, ProgressWrites(old(jobs)[id], events, now), outcome, from)
      ensures gpuHeld
      ensures saves == old(saves) + seq(|events|, _ => SaveRecord(id, Some("processing"), true))
    {
      ghost var r0 := jobs[id];
      var i := 0;
      while i < |events|
        invariant 0 <= i <= |events|
        invariant id in jobs && jobs == old(jobs)[id := ApplyEvents(r0, events[..i], now)]
        invariant jobs[id].status == "processing"
        invariant RecordsUnderOwnId(jobs)
        invariant FilesUnderOwnId(disk)
        invariant disk == SaveSeries(old(disk), id, ProgressWrites(r0, events[..i], now), outcome, from)
        invariant gpuHeld
        invariant saves == old(saves) + seq(i, _ => SaveRecord(id, Some("processing"), true))
      {
        assert events[..i + 1][..i] == events[..i];
        ghost var before := jobs;
        ProgressCallback(id, events[i], outcome(from + i), now);
        UpdateTwice(old(jobs), id, before[id], jobs[id]);
        ProcessingSavesSnoc(id, i);
        SaveSeriesSnoc(old(disk), id, ProgressWrites(r0, events[..i], now), jobs, outcome, from);
        i := i + 1;
      }
      assert events[..i] == events;
    }

    /** The end of the task under the lock: the processor's verdict is copied into the record and saved. */
    method FinishTask(id: string, result: Processor.Outcome, save: SaveOutcome, now: int)
      requires id in jobs && gpuHeld
      requires RecordsUnderOwnId(jobs)
      requires FilesUnderOwnId(disk)
      modifies this
      ensures Valid()
      ensures id in jobs && jobs == old(jobs)[id := jobs[id]]
      ensures jobs[id] == Verdict(old(jobs)[id], result, now)
      ensures disk == SaveEffect(jobs, old(disk), id, save)
      ensures saves == old(saves) + [SaveRecord(id, Some(jobs[id].status), true)]
    {
      ghost var before := jobs;
      if result.Complete? {
        jobs := jobs[id := jobs[id].(status := "completed", progress := 100.0, message := "Separation successful.",
                                     stems := Some(result.stems), updatedAt := now)];
      } else {
        jobs := jobs[id := jobs[id].(status := "error", error := Some(result.message), updatedAt := now)];
      }
      OwnIdAfterUpdate(before, id, jobs[id]);
      SaveJob(id, save);
      gpuHeld := false;
    }

    /** The `except` branch when the processor cannot be built: the lock is already released when the error is saved. */
    method FailTask(id: string, message: string, save: SaveOutcome, now: int)
      requires id in jobs && gpuHeld
      requires RecordsUnderOwnId(jobs)
      requires FilesUnderOwnId(disk)
      modifies this
      ensures Valid()
      ensures id in jobs && jobs == old(jobs)[id := old(jobs)[id].(status := "error", error := Some(message), updatedAt := now)]
      ensures disk == SaveEffect(jobs, old(disk), id, save)
      ensures saves == old(saves) + [SaveRecord(id, Some("error"), false)]
    {
      gpuHeld := false;
      jobs := jobs[id := jobs[id].(status := "error", error := Some(message), updatedAt := now)];
      SaveJob(id, save);
    }

    /**
     * Everything the task does while it holds the lock after saving
     * "processing"; its first save is the task's save `from`.
     */
    method RunUnderLock(id: string, inputPath: string, outputDir: string, stems: int, device: Processor.Device,
                        env: Processor.Environment, outcome: nat -> SaveOutcome, from: nat, now: int)
      returns (result: Processor.Outcome, events: seq<Processor.ProgressEvent>)
      requires id in jobs && gpuHeld && jobs[id].status == "processing"
      requires RecordsUnderOwnId(jobs)
      requires FilesUnderOwnId(disk)
      modifies this
      ensures Valid()
      ensures id in jobs && jobs == old(jobs)[id := Verdict(ApplyEvents(old(jobs)[id], events, now), result, now)]
      ensures disk == SaveSeries(old(disk), id, ProgressWrites(old(jobs)[id], events, now) + [jobs[id]], outcome, from)
      ensures result.Complete? ==> env.returnCode == 0 && env.launchError.None?
      ensures saves == old(saves) + seq(|events|, _ => SaveRecord(id, Some("processing"), true))
                                  + [SaveRecord(id, Some(jobs[id].status), true)]
    {
      ghost var r0 := jobs[id];
      ghost var disk0 := disk;
      var processor := Processor.AudioProcessor(outputDir, stems, device);
      result, events := RunProcessor(processor, inputPath, env);
      ReportEvents(id, events, outcome, from, now);
      ghost var progress := ProgressWrites(r0, events, now);
      assert |progress| == |events|;
      FinishTask(id, result, outcome(from + |events|), now);
      SaveSeriesSnoc(disk0, id, progress, jobs, outcome, from);
    }

    /**
     * `run_separation_task`. The processor's result and the events it
     * reported come back as `outcome` and `events` (`outcome` is `None` when
     * constructing the processor raised `constructError`); the task's k-th
     * `save_job` call goes as `save(k)` says.
     */
    method RunSeparationTask(id: string, inputPath: string, outputDir: string, stems: int,
                             device: Processor.Device, constructError: Option<string>,
                             env: Processor.Environment, save: nat -> SaveOutcome, now: int)
      returns (outcome: Option<Processor.Outcome>, events: seq<Processor.ProgressEvent>)
      requires Valid() && id in jobs
      modifies this
      ensures Valid()
      ensures id in jobs && jobs == old(jobs)[id := jobs[id]]
      ensures disk == SaveSeries(old(disk), id, TaskWrites(old(jobs)[id], now, events, jobs[id]), save, 0)
      ensures constructError.Some? <==> outcome.None?
      ensures outcome.Some? && outcome.value.Complete? ==> env.returnCode == 0 && env.launchError.None?
      ensures outcome.None? ==>
                events == [] && jobs[id] == Running(old(jobs)[id], now).(status := "error", error := constructError)
      ensures outcome.Some? ==>
                jobs[id] == Verdict(ApplyEvents(Running(old(jobs)[id], now), events, now), outcome.value, now)
      ensures saves == old(saves) + TaskTrace(id, |events|, jobs[id].status, outcome.Some?)
    {
      if constructError.Some? {
        TaskWithoutProcessor(id, constructError.value, save, now);
        return None, [];
      }
      var result;
      result, events := TaskWithProcessor(id, inputPath, outputDir, stems, device, env, save, now);
      outcome := Some(result);
    }

    /** The task when building the processor raised `message`. */
    method TaskWithoutProcessor(id: string, message: string, save: nat -> SaveOutcome, now: int)
      requires Valid() && id in jobs
      modifies this
      ensures Valid()
      ensures id in jobs && jobs == old(jobs)[id := jobs[id]]
      ensures disk == SaveSeries(old(disk), id, TaskWrites(old(jobs)[id], now, [], jobs[id]), save, 0)
      ensures jobs[id] == Running(old(jobs)[id], now).(status := "error", error := Some(message))
      ensures saves == old(saves) + TaskTrace(id, 0, "error", false)
    {
      ghost var disk0 := disk;
      ghost var r0 := jobs[id];
      ghost var saves0 := saves;
      BeginTask(id, save, now);
      ghost var disk1 := disk;
      FailTask(id, message, save(2), now);
      TaskTraceOfParts(saves0, id, 0, "error", false);
      ghost var begun := [Waiting(r0, now), Running(r0, now)];
      SaveSeriesSnoc(disk0, id, begun, jobs, save, 0);
      assert TaskWrites(r0, now, [], jobs[id]) == begun + [jobs[id]];
    }

    /** The task when the processor was built: the lock phase, the run and the verdict. */
    method TaskWithProcessor(id: string, inputPath: string, outputDir: string, stems: int,
                             device: Processor.Device, env: Processor.Environment, save: nat -> SaveOutcome, now: int)
      returns (result: Processor.Outcome, events: seq<Processor.ProgressEvent>)
      requires Valid() && id in jobs
      modifies this
      ensures Valid()
      ensures id in jobs && jobs == old(jobs)[id := jobs[id]]
      ensures disk == SaveSeries(old(disk), id, TaskWrites(old(jobs)[id], now, events, jobs[id]), save, 0)
      ensures result.Complete? ==> env.returnCode == 0 && env.launchError.None?
      ensures jobs[id] == Verdict(ApplyEvents(Running(old(jobs)[id], now), events, now), result, now)
      ensures saves == old(saves) + TaskTrace(id, |events|, jobs[id].status, true)
    {
      ghost var disk0 := disk;
      ghost var r0 := jobs[id];
      ghost var saves0 := saves;
      BeginTask(id, save, now);
      ghost var disk1 := disk;
      result, events := RunUnderLock(id, inputPath, outputDir, stems, device, env, save, 2, now);
      TaskTraceOfParts(saves0, id, |events|, jobs[id].status, true);
      ghost var begun := [Waiting(r0, now), Running(r0, now)];
      ghost var rest := ProgressWrites(Running(r0, now), events, now) + [jobs[id]];
      SaveSeriesAppend(disk0, id, begun, rest, save, 0);
      assert TaskWrites(r0, now, events, jobs[id]) == begun + rest;
    }
  }

  /**
   * `processor.process(input_path, callback=progress_callback)`: the verdict
   * and the progress events the callback receives. The verdict is complete
   * only when the separator was launched and exited with code 0; a launch
   * failure reports no events.
   */
  method RunProcessor(p: Processor.AudioProcessor, inputPath: string, env: Processor.Environment)
    returns (result: Processor.Outcome, events: seq<Processor.ProgressEvent>)
    ensures result.Complete? ==> env.returnCode == 0 && env.launchError.None?
    ensures env.launchError.Some? ==> result.Error? && events == []
  {
    var launched;
    result, events, launched := Processor.Process(p, inputPath, true, env);
  }

  /**
   * The saves one task makes, in order: "waiting" without the lock,
   * "processing" under it, one "processing" save per progress event, and
   * the final status, under the lock unless the task failed before the
   * processor existed.
   */
  function TaskTrace(id: string, events: nat, final: string, finalUnderLock: bool): (t: seq<SaveRecord>)
    ensures |t| == events + 3
    ensures t[0] == SaveRecord(id, Some("waiting"), false)
    ensures forall i :: 1 <= i < |t| - 1 ==> t[i] == SaveRecord(id, Some("processing"), true)
    ensures t[|t| - 1] == SaveRecord(id, Some(final), finalUnderLock)
  {
    [SaveRecord(id, Some("waiting"), false), SaveRecord(id, Some("processing"), true)]
    + seq(events, _ => SaveRecord(id, Some("processing"), true))
    + [SaveRecord(id, Some(final), finalUnderLock)]
  }

  /** One more progress save extends the run of progress saves. */
  lemma ProcessingSavesSnoc(id: string, n: nat)
    ensures seq(n + 1, _ => SaveRecord(id, Some("processing"), true))
            == seq(n, _ => SaveRecord(id, Some("processing"), true)) + [SaveRecord(id, Some("processing"), true)]
  {
  }

  /** The saves of the three phases, one after the other, make up the task's trace. */
  lemma TaskTraceOfParts(before: seq<SaveRecord>, id: string, events: nat, final: string, finalUnderLock: bool)
    ensures before + [SaveRecord(id, Some("waiting"), false)] + [SaveRecord(id, Some("processing"), true)]
                   + seq(events, _ => SaveRecord(id, Some("processing"), true))
                   + [SaveRecord(id, Some(final), finalUnderLock)]
            == before + TaskTrace(id, events, final, finalUnderLock)
  {
  }

  // ---------------------------------------------------------------------------
  // JWKS cache
  // ---------------------------------------------------------------------------

  /** Seconds a fetched key set stays fresh. */
  const JwksCacheTtl: int := 3600

  /** A key set as the identity provider serves it; an empty one is falsy. */
  type Jwks = map<string, string>

  /** The outcome of the HTTP fetch: the decoded body, or an exception. */
  datatype FetchResult = Fetched(body: Jwks) | FetchFailed

  /** The cache answers without fetching: keys are present and non-empty, and not yet expired. */
  predicate Fresh(keys: Option<Jwks>, expiry: int, now: int)
  {
    keys.Some? && |keys.value| > 0 && now < expiry
  }

  class JwksCache {
    var keys: Option<Jwks>
    var expiry: int

    constructor ()
      ensures keys.None? && expiry == 0
    {
      keys := None;
      expiry := 0;
    }

    /** `get_jwks`: cached keys while fresh; otherwise a fetch that refreshes the cache, or the stale keys if it fails. */
    method GetJwks(now: int, fetch: FetchResult) returns (r: Option<Jwks>)
      modifies this
      ensures Fresh(old(keys), old(expiry), now) ==> r == old(keys) && keys == old(keys) && expiry == old(expiry)
      ensures !Fresh(old(keys), old(expiry), now) && fetch.Fetched? ==>
                r == Some(fetch.body) && keys == r && expiry == now + JwksCacheTtl
      ensures !Fresh(old(keys), old(expiry), now) && fetch.FetchFailed? ==>
                r == old(keys) && keys == old(keys) && expiry == old(expiry)
    {
      if keys.Some? && |keys.value| > 0 && now < expiry {
        return keys;
      }
      match fetch
      case Fetched(body) =>
        keys := Some(body);
        expiry := now + JwksCacheTtl;
        return keys;
      case FetchFailed =>
        return keys;
    }
  }

  /**
   * A non-empty key set fetched at `t` is served from the cache for the
   * next hour, whatever the network would answer.
   */
  method ReuseWithinTtl(c: JwksCache, t: int, t2: int, first: FetchResult, second: FetchResult)
    returns (r1: Option<Jwks>, r2: Option<Jwks>)
    requires first.Fetched? && |first.body| > 0 && !Fresh(c.keys, c.expiry, t)
    requires t <= t2 < t + JwksCacheTtl
    modifies c
    ensures r1 == Some(first.body) && r2 == r1
  {
    r1 := c.GetJwks(t, first);
    r2 := c.GetJwks(t2, second);
  }
}
