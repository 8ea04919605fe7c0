/** `hope` standing in for a crate's build script (`hope/src/build_script.rs`).
    Cargo runs the binary in the build script's place; it finds the build
    script run's metadata hash in `OUT_DIR`, and either replays the cached
    stdout of an earlier run (deferring the real script, whose invocation it
    records in the out dir) or runs the real script and caches its
    stdout. */
module BuildScript {
  import opened Outcomes
  import opened Text
  import opened Utf8
  import opened Paths
  import opened Process
  import opened HopeCache

  const InvocationInfoFileName: string := "build-script-invocation-info.json"
  const RealBuildScriptName: string := "real-build-script"
  const RerunPrefix: string := "cargo:rerun-if-"
  const MovedSuffix: string := "-moved-by-hope"
  const InvokedTimestampName: string := "invoked.timestamp"
  const FakeNotice: string :=
    "Fake build script by Hope; real build script not run because we intend to pull the main crate output from cache."

  const OutDirVar: string := "OUT_DIR"

  // Error messages.
  const NoOutDirInInfoMsg: string := "Missing 'OUT_DIR' env var in build script invocation info"
  const NoTimestampParentMsg: string := "Out dir missing parent; can't find invoked timestamp for build script run"
  const NoOutDirParentMsg: string := "Missing parent on out dir"
  const NoBuildDirNameMsg: string := "Missing file name on build dir"
  const NoDashInBuildDirMsg: string := "Couldn't find '-' in build dir"
  const NoScriptParentMsg: string := "Build script didn't have parent dir"
  const NoOutDirInEnvMsg: string := "Missing 'OUT_DIR' env var for build script execution"
  const ScriptSpawnFailedMsg: string := "Failed to start real build script"
  const ScriptSignalledMsg: string := "Child build script process was terminated by a signal"
  const NoSymlinkMsg: string := "Failed to read symlink to real build script"
  const NoWorkDirMsg: string := "Couldn't get working dir"
  const NoScriptNameMsg: string := "Missing file name for build script"

  /** The fixed file names joined onto directories are single normal components. */
  lemma NamesAreComponents()
    ensures IsComponent(InvokedTimestampName) && IsComponent(RealBuildScriptName)
    ensures IsComponent(InvocationInfoFileName)
  {
    assert InvokedTimestampName[0] == 'i' && RealBuildScriptName[0] == 'r' && InvocationInfoFileName[0] == 'b';
  }

  // ------------------------------------------------------ invocation info

  /** `BuildScriptInvocationInfo`: how Cargo ran the build script, enough to
      run the real one later. */
  datatype InvocationInfo = InvocationInfo(realBuildScriptPath: Path, envVars: map<string, string>, workDir: Path)
  {
    /** `out_dir`: the `OUT_DIR` variable Cargo gave the build script. */
    function OutDir(): (r: Result<Path>)
      ensures r.Ok? <==> OutDirVar in envVars
      ensures r.Ok? ==> r.value == ParsePath(envVars[OutDirVar])
    {
      if OutDirVar !in envVars then Err(NoOutDirInInfoMsg)
      else Ok(ParsePath(envVars[OutDirVar]))
    }

    /** The file `get_invoked_timestamp` reads the time of: `invoked.timestamp`
        in the parent of the out dir. */
    function InvokedTimestampPath(): (r: Result<Path>)
      ensures r.Ok? <==> OutDirVar in envVars && ParsePath(envVars[OutDirVar]).comps != []
      ensures r.Ok? ==>
                r.value == Sibling(ParsePath(envVars[OutDirVar]), InvokedTimestampName)
    {
      match OutDir()
      case Err(m) => Err(m)
      case Ok(outDir) =>
        match Parent(outDir)
        case None => Err(NoTimestampParentMsg)
        case Some(buildDir) =>
          NamesAreComponents();
          ParentJoin(outDir, InvokedTimestampName);
          Ok(JoinPath(buildDir, InvokedTimestampName))
    }
  }

  /** The invocation-info files on disk, by path, as the values their JSON
      encodes. */
  class InfoFiles {
    var written: map<Path, InvocationInfo>

    constructor (paths: map<Path, InvocationInfo>)
      ensures written == paths
    {
      written := paths;
    }
  }

  // ------------------------------------------------- finding the run's key

  /** The build directory's name split at its last `-`: the crate name and
      the build script run's metadata hash. */
  function BuildDirName(outDir: Path): (r: Result<(string, string)>)
    ensures r.Ok? <==>
              |outDir.comps| >= 2 && outDir.comps[|outDir.comps| - 2] != ".."
              && '-' in outDir.comps[|outDir.comps| - 2]
    ensures r.Ok? ==>
              r.value.0 + "-" + r.value.1 == outDir.comps[|outDir.comps| - 2] && '-' !in r.value.1
  {
    match Parent(outDir)
    case None => Err(NoOutDirParentMsg)
    case Some(buildDir) =>
      match PathFileName(buildDir)
      case None => Err(NoBuildDirNameMsg)
      case Some(name) =>
        match RSplitOnce(name, '-')
        case None => Err(NoDashInBuildDirMsg)
        case Some((crateName, hash)) => Ok((crateName, hash))
  }

  /** What `run` works out before looking in the cache. */
  datatype Setup = Setup(realBuildScript: Path, outDir: Path, crateName: string, runHash: string)

  /** The start of `run`: the symlink next to the binary Cargo ran, the out
      dir from `OUT_DIR`, and the crate name and run hash from the out dir's
      parent. */
  function SetupOf(calledAs: Path, env: map<string, string>): (r: Result<Setup>)
    ensures r.Ok? <==>
              calledAs.comps != [] && OutDirVar in env && BuildDirName(ParsePath(env[OutDirVar])).Ok?
    ensures r.Ok? ==>
              r.value.realBuildScript == Sibling(calledAs, RealBuildScriptName)
              && r.value.outDir == ParsePath(env[OutDirVar])
              && BuildDirName(r.value.outDir) == Ok((r.value.crateName, r.value.runHash))
  {
    match Parent(calledAs)
    case None => Err(NoScriptParentMsg)
    case Some(buildDir) =>
      if OutDirVar !in env then Err(NoOutDirInEnvMsg)
      else
        var outDir := ParsePath(env[OutDirVar]);
        match BuildDirName(outDir)
        case Err(m) => Err(m)
        case Ok((crateName, hash)) =>
          NamesAreComponents();
          ParentJoin(calledAs, RealBuildScriptName);
          Ok(Setup(JoinPath(buildDir, RealBuildScriptName), outDir, crateName, hash))
  }

  // ----------------------------------------------------- replaying stdout

  predicate Kept(line: string) {
    !StartsWith(line, RerunPrefix)
  }

  /** The lines of a cached stdout that are replayed: all but the
      `cargo:rerun-if-` ones, in order. */
  function Replayed(text: string): seq<string> {
    Filter(Kept, Lines(text))
  }

  /** The replay loop of a cache hit: print each line of the cached stdout
      that is not a `cargo:rerun-if-` line. */
  method ReplayStdout(text: string) returns (out: string)
    ensures out == Unlines(Replayed(text))
  {
    var lines := Lines(text);
    out := [];
    var i := 0;
    while i < |lines|
      invariant 0 <= i <= |lines|
      invariant out == Unlines(Filter(Kept, lines[..i]))
    {
      var line := lines[i];
      FilterStep(Kept, lines, i);
      if !StartsWith(line, RerunPrefix) {
        UnlinesSnoc(Filter(Kept, lines[..i]), line);
        assert Kept(line);
        assert Filter(Kept, lines[..i + 1]) == Filter(Kept, lines[..i]) + [line];
        out := out + line + "\n";
        assert out == Unlines(Filter(Kept, lines[..i]) + [line]);
      } else {
        assert !Kept(line);
        assert Filter(Kept, lines[..i + 1]) == Filter(Kept, lines[..i]) + [];
        assert Filter(Kept, lines[..i + 1]) == Filter(Kept, lines[..i]);
      }
      i := i + 1;
    }
    TakeAll(lines);
  }

  /** Every replayed line is a line of the cached stdout that does not start
      with `cargo:rerun-if-`, every such line is replayed, and the order is
      kept. */
  lemma ReplayedMeaning(text: string)
    ensures forall l :: l in Replayed(text) <==> l in Lines(text) && !StartsWith(l, RerunPrefix)
    ensures IsSubsequence(Replayed(text), Lines(text))
  {
    FilterMembership(Kept, Lines(text));
    FilterIsSubsequence(Kept, Lines(text));
  }

  /** Cargo, reading the replayed stdout line by line, sees exactly the kept
      lines, provided none of them ends in a carriage return. */
  lemma ReplayReadBack(text: string)
    requires forall i :: 0 <= i < |Lines(text)| ==> Lines(text)[i] == [] || Lines(text)[i][|Lines(text)[i]| - 1] != '\r'
    ensures Lines(Unlines(Replayed(text))) == Replayed(text)
  {
    var ls := Lines(text);
    var r := Replayed(text);
    FilterMembership(Kept, ls);
    forall i | 0 <= i < |r| ensures '\n' !in r[i] && (r[i] == [] || r[i][|r[i]| - 1] != '\r') {
      assert r[i] in ls;
      var j :| 0 <= j < |ls| && ls[j] == r[i];
    }
    LinesOfUnlines(r);
  }

  // ------------------------------------------------------- the wrapper run

  /** The real build script run with captured output: it did not start, or
      it ended with a status and wrote these bytes. */
  datatype ScriptRun = NotStarted | Ran(status: ExitStatus, stdout: Bytes, stderr: Bytes)

  function SpawnOf(s: ScriptRun): Spawn {
    if s.NotStarted? then FailedToStart else Spawn.Ran(s.status)
  }

  /** `get_build_script_stdout` then `str::from_utf8`: the cached stdout as
      text, or nothing when there is no such file or it is not UTF-8 (both
      count as a miss). */
  function CachedText(files: map<string, Bytes>, hash: string): (r: Option<string>)
    ensures r.Some? <==> StdoutFileName(hash) in files && IsValid(files[StdoutFileName(hash)])
    ensures r.Some? ==> Encode(r.value) == files[StdoutFileName(hash)]
  {
    match ReadText(files, StdoutFileName(hash), "stdout")
    case Err(_) => None
    case Ok(bytes) =>
      EncodeDecode(bytes);
      Decode(bytes)
  }

  /** What a hit does: replay the kept lines, print the notice to stderr, and
      record the invocation in the out dir, unless the symlink or the
      working directory cannot be read. */
  predicate HitEffect(s: Setup, env: map<string, string>, text: string, linkTarget: Option<Path>, workDir: Option<Path>,
                      t: Termination, stdout: Bytes, stderr: string,
                      before: map<Path, InvocationInfo>, after: map<Path, InvocationInfo>)
  {
    stdout == Encode(Unlines(Replayed(text))) && stderr == FakeNotice + "\n"
    && if linkTarget.Some? && workDir.Some? then
         t == Completed
         && after == before[Path(s.outDir.absolute, s.outDir.comps + [InvocationInfoFileName])
                              := InvocationInfo(linkTarget.value, env, workDir.value)]
       else
         t.Failed? && after == before
  }

  /** What a miss does: run the real script; if it fails, exit as it did and
      store nothing; otherwise forward its stdout and then its stderr, both
      to stdout, and cache its stdout. */
  predicate MissEffect(s: Setup, script: ScriptRun, t: Termination, stdout: Bytes, stderr: string,
                       before: map<string, Bytes>, after: map<string, Bytes>)
  {
    t == ChildResult(SpawnOf(script), ScriptSpawnFailedMsg, ScriptSignalledMsg)
    && stderr == []
    && if t.Completed? then
         stdout == script.stdout + script.stderr && after == before[StdoutFileName(s.runHash) := script.stdout]
       else
         stdout == [] && after == before
  }

  /** `build_script::run`. The environment, the target of the
      `real-build-script` symlink (if it can be read), the working directory
      (if it can be found) and the outcome of running the real script are
      inputs; what goes to stdout and stderr is returned. */
  method Run(calledAs: Path, env: map<string, string>, cache: LocalCache, infos: InfoFiles,
             linkTarget: Option<Path>, workDir: Option<Path>, script: ScriptRun)
    returns (t: Termination, stdout: Bytes, stderr: string)
    modifies cache, infos
    ensures cache.archives == old(cache.archives)
    ensures SetupOf(calledAs, env).Err? ==>
              t == Failed(SetupOf(calledAs, env).msg) && stdout == [] && stderr == []
              && cache.files == old(cache.files) && infos.written == old(infos.written)
    ensures SetupOf(calledAs, env).Ok? ==>
              var s := SetupOf(calledAs, env).value;
              var cached := CachedText(old(cache.files), s.runHash);
              (cached.Some? ==>
                 HitEffect(s, env, cached.value, linkTarget, workDir, t, stdout, stderr, old(infos.written), infos.written)
                 && cache.files == old(cache.files))
              && (cached.None? ==>
                    MissEffect(s, script, t, stdout, stderr, old(cache.files), cache.files)
                    && infos.written == old(infos.written))
  {
    assert cache as object != infos as object;
    var setup := SetupOf(calledAs, env);
    if setup.Err? {
      return Failed(setup.msg), [], [];
    }
    var s := setup.value;
    var cached := CachedText(cache.files, s.runHash);
    if cached.Some? {
      t, stdout, stderr := Hit(s, env, cached.value, infos, linkTarget, workDir);
    } else {
      t, stdout, stderr := Miss(s, cache, script);
    }
  }

  /** The hit branch of `run`. */
  method Hit(s: Setup, env: map<string, string>, text: string, infos: InfoFiles,
             linkTarget: Option<Path>, workDir: Option<Path>)
    returns (t: Termination, stdout: Bytes, stderr: string)
    modifies infos
    ensures HitEffect(s, env, text, linkTarget, workDir, t, stdout, stderr, old(infos.written), infos.written)
  {
    var replay := ReplayStdout(text);
    stdout := Encode(replay);
    stderr := FakeNotice + "\n";
    if linkTarget.None? {
      return Failed(NoSymlinkMsg), stdout, stderr;
    }
    if workDir.None? {
      return Failed(NoWorkDirMsg), stdout, stderr;
    }
    var info := InvocationInfo(linkTarget.value, env, workDir.value);
    NamesAreComponents();
    var infoPath := JoinOne(s.outDir, InvocationInfoFileName);
    infos.written := infos.written[infoPath := info];
    t := Completed;
  }

  /** The miss branch of `run`. */
  method Miss(s: Setup, cache: LocalCache, script: ScriptRun) returns (t: Termination, stdout: Bytes, stderr: string)
    modifies cache
    ensures cache.archives == old(cache.archives)
    ensures MissEffect(s, script, t, stdout, stderr, old(cache.files), cache.files)
  {
    stderr := [];
    t := ChildResult(SpawnOf(script), ScriptSpawnFailedMsg, ScriptSignalledMsg);
    if !t.Completed? {
      return t, [], stderr;
    }
    stdout := script.stdout + script.stderr;
    cache.PushBuildScriptStdout(s.runHash, script.stdout);
  }

  /** A miss that completes stores the script's stdout where the next run
      with the same metadata hash looks: that run replays exactly this text
      when it is UTF-8, and misses again when it is not. */
  lemma MissThenHit(s: Setup, script: ScriptRun, t: Termination, stdout: Bytes, stderr: string,
                    before: map<string, Bytes>, after: map<string, Bytes>)
    requires MissEffect(s, script, t, stdout, stderr, before, after) && t.Completed?
    ensures CachedText(after, s.runHash) == Decode(script.stdout)
  {
    var r := CachedText(after, s.runHash);
    if r.Some? {
      DecodeEncode(r.value);
    }
  }

  // ------------------------------------------------ moving the real script

  /** `append_moved_build_script_suffix`: the same directory, the file name
      with `-moved-by-hope` appended. */
  function AppendMovedSuffix(p: Path): (r: Result<Path>)
    ensures r.Ok? <==> PathFileName(p).Some?
    ensures r.Ok? && WellFormed(p) ==>
              r.value == Sibling(p, p.comps[|p.comps| - 1] + MovedSuffix)
  {
    match PathFileName(p)
    case None => Err(NoScriptNameMsg)
    case Some(name) =>
      MovedIsJoin(p, name);
      Ok(WithFileName(p, name + MovedSuffix))
  }

  lemma MovedIsJoin(p: Path, name: string)
    requires PathFileName(p) == Some(name)
    ensures WellFormed(p) ==>
              WithFileName(p, name + MovedSuffix) == Sibling(p, name + MovedSuffix)
  {
    var moved := name + MovedSuffix;
    if WellFormed(p) {
      assert IsComponent(p.comps[|p.comps| - 1]);
      assert '/' !in moved by {
        forall i | 0 <= i < |moved| ensures moved[i] != '/' {
          if i < |name| { assert moved[i] == name[i]; } else { assert moved[i] == MovedSuffix[i - |name|]; }
        }
      }
      JoinComponent(Path(p.absolute, p.comps[..|p.comps| - 1]), moved);
    }
  }
}
