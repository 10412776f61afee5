/**
 * The stand-alone separation worker (backend/python/worker.py): the
 * `status.json` record it writes for the front end to poll, and the
 * sequence of records one `separate_audio` run writes.
 *
 * The Demucs run, the output-directory probe and the clock are parameters;
 * each written record is returned instead of being dumped to a file.
 */
module Worker {
  import opened Wrappers
  import opened Strings

  /** A JSON value as the worker writes it. */
  datatype Value = Text(text: string) | Number(number: int) | Dict(entries: map<string, string>)

  type Record = map<string, Value>

  /** The four fields every status record starts with. */
  const BaseKeys: set<string> := {"status", "progress", "message", "updatedAt"}

  /** Python truthiness of the optional `error` argument. */
  predicate HasError(error: Option<string>)
  {
    error.Some? && error.value != ""
  }

  /**
   * The record `write_status` dumps: the four base fields, then `data`
   * merged over them (its entries win), then `error` when it is truthy.
   */
  function StatusContent(status: string, progress: int, message: string, data: Record,
                         error: Option<string>, now: int): (c: Record)
    ensures c.Keys == BaseKeys + data.Keys + (if HasError(error) then {"error"} else {})
    ensures HasError(error) ==> c["error"] == Text(error.value)
    ensures forall k :: k in data && !(k == "error" && HasError(error)) ==> c[k] == data[k]
    ensures "status" !in data ==> c["status"] == Text(status)
    ensures "progress" !in data ==> c["progress"] == Number(progress)
    ensures "message" !in data ==> c["message"] == Text(message)
    ensures "updatedAt" !in data ==> c["updatedAt"] == Number(now)
  {
    var base := map["status" := Text(status), "progress" := Number(progress),
                    "message" := Text(message), "updatedAt" := Number(now)];
    var merged := base + data;
    if HasError(error) then merged["error" := Text(error.value)] else merged
  }

  /** `write_status`: builds the dict step by step as the source does. */
  method WriteStatus(status: string, progress: int := 0, message: string := "", data: Record := map[],
                     error: Option<string> := None, now: int) returns (content: Record)
    ensures content == StatusContent(status, progress, message, data, error, now)
  {
    content := map["status" := Text(status), "progress" := Number(progress),
                   "message" := Text(message), "updatedAt" := Number(now)];
    ghost var base := content;
    if |data| > 0 {
      content := content + data;
    } else {
      assert data == map[];
      assert content == base + data;
    }
    if error.Some? && error.value != "" {
      content := content["error" := Text(error.value)];
    }
  }

  // ---------------------------------------------------------------------------
  // POSIX path helpers (os.path)
  // ---------------------------------------------------------------------------

  /** `os.path.basename`: everything after the last `/`. */
  function Basename(p: string): (r: string)
    ensures '/' !in r
    ensures EndsWith(p, r)
  {
    match LastIndexOf(p, '/')
    case None => p
    case Some(i) => p[i + 1..]
  }

  /**
   * `os.path.splitext(p)[0]`: drops the part from the last `.` of the last
   * component on, unless every character before that dot in the component
   * is a dot (so `.bashrc` and `..wav` keep their names).
   */
  function SplitExtRoot(p: string): (r: string)
    ensures |r| <= |p| && r == p[..|r|]
  {
    var sep := LastIndexOf(p, '/');
    var start := if sep.Some? then sep.value + 1 else 0;
    match LastIndexOf(p, '.')
    case None => p
    case Some(dot) =>
      if dot >= start && exists i :: start <= i < dot && p[i] != '.' then p[..dot] else p
  }

  /** `os.path.join(a, b)`: an absolute `b` replaces `a`; otherwise a `/` goes between unless `a` is empty or ends with one. */
  function PosixJoin(a: string, b: string): string
  {
    if StartsWith(b, "/") then b
    else if a == "" || EndsWith(a, "/") then a + b
    else a + "/" + b
  }

  /** What `PosixJoin` puts before a relative second part. */
  function DirPrefix(a: string): string
  {
    if a == "" || EndsWith(a, "/") then a else a + "/"
  }

  lemma JoinRelative(a: string, b: string)
    requires b != [] && b[0] != '/'
    ensures PosixJoin(a, b) == DirPrefix(a) + b
  {
    assert !StartsWith(b, "/") by { assert b[..1] == [b[0]]; }
  }

  /** The basename of a file inside a directory is the file's own name. */
  lemma BasenameOfJoin(dir: string, f: string)
    requires '/' !in f && f != ""
    ensures Basename(PosixJoin(dir, f)) == f
  {
    JoinRelative(dir, f);
    var x := DirPrefix(dir);
    var p := x + f;
    if x == [] {
      assert p == f;
    } else {
      assert x[|x| - 1] == '/';
      assert p[|x| - 1] == '/';
      assert p[|x|..] == f;
      LastIndexOfAt(p, '/', |x| - 1);
    }
  }

  /** A name with one extension, and a non-dot character before it, splits back to its stem. */
  lemma SplitExtRootOf(stem: string, ext: string)
    requires '/' !in stem && '.' !in ext && '/' !in ext
    requires exists i :: 0 <= i < |stem| && stem[i] != '.'
    ensures SplitExtRoot(stem + "." + ext) == stem
  {
    var p := stem + "." + ext;
    assert '/' !in p by {
      forall k | 0 <= k < |p| ensures p[k] != '/' {
        if k < |stem| { assert p[k] == stem[k]; } else if k > |stem| { assert p[k] == ext[k - |stem| - 1]; }
      }
    }
    assert p[|stem|] == '.' && p[|stem| + 1..] == ext;
    LastIndexOfAt(p, '.', |stem|);
    var i :| 0 <= i < |stem| && stem[i] != '.';
    assert p[i] == stem[i];
    assert p[..|stem|] == stem;
  }

  // ---------------------------------------------------------------------------
  // separate_audio
  // ---------------------------------------------------------------------------

  /** How `subprocess.run(cmd, check=True, ...)` goes. */
  datatype RunOutcome =
    | Finished(returnCode: int, stdout: string, stderr: string)
    | LaunchFailed(error: string)

  /**
   * The world a worker run sees: whether `os.makedirs` raises (and with what
   * text), the Demucs run, and which paths exist afterwards.
   */
  datatype WorkerEnv = WorkerEnv(makedirsError: Option<string>, run: RunOutcome, pathExists: string -> bool)

  /** The JSON line printed before Demucs starts. */
  function StartLine(cmd: seq<string>): Record
  {
    map["status" := Text("starting"), "command" := Text(Join(cmd, " "))]
  }

  /** The JSON line printed when the output directory was found. */
  function CompletedLine(out: string): Record
  {
    map["status" := Text("completed"), "path" := Text(out)]
  }

  /** The JSON line printed when the output directory is missing. */
  const MissingOutputLine: Record := map["status" := Text("failed"), "reason" := Text("missing_output")]

  /** The Demucs invocation: always the two-stem vocals split into `outputDir`, input last. */
  function WorkerCommand(inputFile: string, outputDir: string): (cmd: seq<string>)
    ensures |cmd| == 8 && cmd[0] == "demucs"
    ensures cmd[3] == "--two-stems" && cmd[4] == "vocals"
    ensures cmd[6] == outputDir && cmd[7] == inputFile
  {
    ["demucs", "-n", "htdemucs", "--two-stems", "vocals", "--out", outputDir, inputFile]
  }

  /** The track name: the input's basename without its extension. */
  function TrackName(inputFile: string): string
  {
    SplitExtRoot(Basename(inputFile))
  }

  /** Where Demucs leaves the stems of one track. */
  function ModelOutputPath(outputDir: string, track: string): string
  {
    PosixJoin(PosixJoin(outputDir, "htdemucs"), track)
  }

  /** The advertised stems, relative to the output directory. */
  function WorkerStems(track: string): (m: map<string, string>)
    ensures m.Keys == {"vocals", "no_vocals"}
    ensures m["vocals"] == "htdemucs/" + track + "/vocals.wav"
    ensures m["no_vocals"] == "htdemucs/" + track + "/no_vocals.wav"
  {
    map["vocals" := "htdemucs/" + track + "/vocals.wav", "no_vocals" := "htdemucs/" + track + "/no_vocals.wav"]
  }

  /**
   * The advertised stem paths point into the directory the worker checked:
   * joined to the output directory, each is that directory's file.
   */
  lemma StemPathsMatchOutputDir(outputDir: string, track: string, file: string)
    requires track != "" && '/' !in track && file != "" && '/' !in file
    ensures PosixJoin(outputDir, "htdemucs/" + track + "/" + file)
            == PosixJoin(ModelOutputPath(outputDir, track), file)
  {
    var d := DirPrefix(outputDir);
    var m := ModelOutputPath(outputDir, track);
    ModelDirIs(outputDir, track);
    LastCharNotSlash(m);
    assert file[0] != '/';
    JoinRelative(m, file);
    assert ("htdemucs/" + track + "/" + file)[0] == 'h';
    JoinRelative(outputDir, "htdemucs/" + track + "/" + file);
    RegroupStemPath(d, track, file);
  }

  /** The model's directory for a track, spelled out. */
  lemma ModelDirIs(outputDir: string, track: string)
    requires track != "" && '/' !in track
    ensures ModelOutputPath(outputDir, track) == DirPrefix(outputDir) + "htdemucs" + "/" + track
    ensures ModelOutputPath(outputDir, track)[|ModelOutputPath(outputDir, track)| - 1] == track[|track| - 1]
  {
    JoinRelative(outputDir, "htdemucs");
    var h := DirPrefix(outputDir) + "htdemucs";
    LastCharNotSlash(h);
    assert track[0] != '/';
    JoinRelative(h, track);
  }

  /** A directory not ending in `/` gets one before a relative part. */
  lemma LastCharNotSlash(a: string)
    requires a != "" && a[|a| - 1] != '/'
    ensures DirPrefix(a) == a + "/"
  {
    assert a[|a| - 1..] == [a[|a| - 1]];
  }

  lemma RegroupStemPath(d: string, track: string, file: string)
    ensures d + ("htdemucs/" + track + "/" + file) == d + "htdemucs" + "/" + track + "/" + file
  {
    assert "htdemucs/" == "htdemucs" + "/";
  }

  /**
   * `separate_audio`: the records written to `status.json`, in order, the
   * JSON lines printed on stdout, and the process exit code. When the
   * output directory cannot be created, the handler's own status write
   * fails on the missing directory and the exception escapes: nothing is
   * written or printed and the interpreter exits with 1.
   */
  method SeparateAudio(inputFile: string, outputDir: string, env: WorkerEnv, now: int)
    returns (writes: seq<Record>, printed: seq<Record>, cmd: seq<string>, exitCode: int)
    ensures cmd == WorkerCommand(inputFile, outputDir)
    ensures env.makedirsError.Some? ==> writes == [] && printed == [] && exitCode == 1
    ensures env.makedirsError.None? ==>
              var (last, tail, code) := AfterStart(inputFile, outputDir, env, now);
              && writes == [StatusContent("processing", 10, "Initializing Demucs engine...", map[], None, now), last]
              && printed == [StartLine(cmd)] + tail
              && exitCode == code
  {
    cmd := WorkerCommand(inputFile, outputDir);
    if env.makedirsError.Some? {
      return [], [], cmd, 1;
    }
    var first := WriteStatus("processing", 10, "Initializing Demucs engine...", now := now);
    printed := [StartLine(cmd)];
    var last: Record;
    match env.run {
    case LaunchFailed(e) =>
      last := WriteStatus("error", 0, "System error: " + e, now := now);
      exitCode := 1;
    case Finished(rc, stdout, stderr) =>
      if rc != 0 {
        last := WriteStatus("error", 0, "Demucs process failed.", map["stderr" := Text(stderr)], now := now);
        exitCode := 1;
      } else {
        var filename := Basename(inputFile);
        var track := SplitExtRoot(filename);
        var out := ModelOutputPath(outputDir, track);
        if env.pathExists(out) {
          var stems := WorkerStems(track);
          last := WriteStatus("completed", 100, "Separation complete!",
                              map["stems" := Dict(stems), "output_path" := Text(out)], now := now);
          printed := printed + [CompletedLine(out)];
        } else {
          last := WriteStatus("error", 100, "Output files not found after processing.",
                              map["raw_output" := Text(stdout)], now := now);
          printed := printed + [MissingOutputLine];
        }
        exitCode := 0;
      }
    }
    writes := [first, last];
  }

  /**
   * What `separate_audio` writes, prints and exits with once the start
   * record and line are out: the launch error, the exit-code error, or,
   * after a clean exit, the completed record or the missing-output error.
   */
  function AfterStart(inputFile: string, outputDir: string, env: WorkerEnv, now: int)
    : (r: (Record, seq<Record>, int))
    ensures env.run.LaunchFailed? ==>
              r == (StatusContent("error", 0, "System error: " + env.run.error, map[], None, now), [], 1)
    ensures env.run.Finished? && env.run.returnCode != 0 ==>
              r == (StatusContent("error", 0, "Demucs process failed.",
                                  map["stderr" := Text(env.run.stderr)], None, now), [], 1)
    ensures env.run.Finished? && env.run.returnCode == 0 ==>
              var track := TrackName(inputFile);
              var out := ModelOutputPath(outputDir, track);
              && r.2 == 0
              && (env.pathExists(out) ==>
                    && r.0 == StatusContent("completed", 100, "Separation complete!",
                                            map["stems" := Dict(WorkerStems(track)), "output_path" := Text(out)],
                                            None, now)
                    && r.1 == [CompletedLine(out)])
              && (!env.pathExists(out) ==>
                    && r.0 == StatusContent("error", 100, "Output files not found after processing.",
                                            map["raw_output" := Text(env.run.stdout)], None, now)
                    && r.1 == [MissingOutputLine])
  {
    match env.run
    case LaunchFailed(e) => (StatusContent("error", 0, "System error: " + e, map[], None, now), [], 1)
    case Finished(rc, stdout, stderr) =>
      if rc != 0 then (StatusContent("error", 0, "Demucs process failed.", map["stderr" := Text(stderr)], None, now), [], 1)
      else
        var track := SplitExtRoot(Basename(inputFile));
        var out := ModelOutputPath(outputDir, track);
        if env.pathExists(out) then
          (StatusContent("completed", 100, "Separation complete!",
                         map["stems" := Dict(WorkerStems(track)), "output_path" := Text(out)], None, now),
           [CompletedLine(out)], 0)
        else
          (StatusContent("error", 100, "Output files not found after processing.",
                         map["raw_output" := Text(stdout)], None, now),
           [MissingOutputLine], 0)
  }

  /**
   * The exit code and the status file agree with the printed lines: the
   * worker exits 0 exactly when Demucs ran and exited cleanly, and the status
   * file says "completed" exactly when the completed line is printed.
   */
  lemma ReportsAgree(inputFile: string, outputDir: string, env: WorkerEnv, now: int)
    ensures var (last, tail, code) := AfterStart(inputFile, outputDir, env, now);
      && (code == 0 <==> env.run.Finished? && env.run.returnCode == 0)
      && (code != 0 ==> tail == [])
      && ("status" in last && last["status"] == Text("completed") <==>
            |tail| == 1 && "status" in tail[0] && tail[0]["status"] == Text("completed"))
  {
  }

  /** A run that finds its output records exactly the two stems, fully done. */
  lemma CompletedRecordShape(track: string, out: string, now: int)
    ensures var c := StatusContent("completed", 100, "Separation complete!",
                                   map["stems" := Dict(WorkerStems(track)), "output_path" := Text(out)], None, now);
      && c.Keys == BaseKeys + {"stems", "output_path"}
      && c["status"] == Text("completed") && c["progress"] == Number(100)
      && c["stems"] == Dict(WorkerStems(track)) && "error" !in c
  {
  }
}
