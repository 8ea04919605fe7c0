/** `main` of the prototype `wrapper` binary (`wrapper/src/main.rs`), the
    forerunner of `hope`: the same command-line parsers and output files
    (with fewer file names defined), a cache key without the `metadata`
    option, a cache directory taken from `WRAPPER_HAX_CACHE_DIR`, and
    pull-else-`rustc`-then-push. The wrapper's cache itself is a stub, so
    how a pull or a push ends is part of the world. */
module WrapperMain {
  import opened Outcomes
  import opened Paths
  import opened Process
  import opened Rustc
  import HopeMain

  const CacheDirVar: string := "WRAPPER_HAX_CACHE_DIR"

  // Error messages.
  const NoCacheDirMsg: string := "Missing 'WRAPPER_HAX_CACHE_DIR' env var"
  const CreateCacheDirMsg: string := "Failed to create cargo-cache-hacks dir"
  const NoRustcStartMsg: string := "Failed to start real `rustc`"
  const RustcSignalledMsg: string := "Child `rustc` process was terminated by a signal"
  const PushFailedMsg: string := "Failed to push to cache"

  // ------------------------------------------------------------ file names

  /** The wrapper's `file_name` is defined (no `todo!()`) for this output:
      as in `hope`, and not for a proc-macro link either. */
  predicate WrapperHasFileName(d: OutputDefn) {
    HasFileName(d) && d != OutputDefn.Link(ProcMacro)
  }

  /** `OutputDefn::file_name` of the wrapper: wherever it is defined it
      names the file `hope` names. */
  function WrapperFileName(d: OutputDefn, unit: string): (r: string)
    requires WrapperHasFileName(d)
    ensures r == FileName(d, unit)
  {
    match d
    case Asm => unit + ".s"
    case LlvmBc => unit + ".bc"
    case LlvmIr => unit + ".ll"
    case Obj => unit + ".o"
    case Metadata => "lib" + unit + ".rmeta"
    case Link(ct) => if ct == Bin then unit else "lib" + unit + ".rlib"
    case DepInfo => unit + ".d"
    case Mir => unit + ".mir"
  }

  // ------------------------------------------------------------ the world

  /** What the wrapper reads from outside the model: the environment, the
      paths that exist, how the real `rustc` ends, and how the cache's pull
      and push end. */
  datatype World = World(env: map<string, string>, rustc: Spawn, pullOk: bool, pushOk: bool)

  /** What the cache is asked for: the out dir, the crate unit name, and the
      crate and output types. */
  datatype Key = Key(outDir: Path, unit: string, crateTypes: set<CrateType>, outputTypes: set<OutputType>)

  /** What the wrapper does, in order. */
  datatype Step = CreatedDir(dir: Path) | Pulled(key: Key) | RanRustc(args: seq<string>) | Pushed(key: Key)

  /** How the wrapper ends, and what it did. */
  datatype Outcome = Outcome(t: Termination, steps: seq<Step>)

  /** The directories `steps` created. */
  ghost function Created(steps: seq<Step>): set<Path> {
    set i | 0 <= i < |steps| && steps[i].CreatedDir? :: steps[i].dir
  }

  /** `run_real_rustc`: its termination. */
  function RustcResult(w: World): Termination {
    ChildResult(w.rustc, NoRustcStartMsg, RustcSignalledMsg)
  }

  // ------------------------------------------------------ the cache dir

  /** `std::fs::create_dir`: only the last component is created, so the
      parent must already exist. */
  predicate CanCreate(dir: Path, existing: set<Path>) {
    Parent(dir).Some? && Parent(dir).value in existing
  }

  /** The cache dir named by `WRAPPER_HAX_CACHE_DIR`, created if it does not
      exist; an unset variable is an error, and so is an empty one, since the
      empty path never exists and cannot be created. */
  function CacheDir(env: map<string, string>, existing: set<Path>): (Result<Path>, seq<Step>) {
    if CacheDirVar !in env then (Err(NoCacheDirMsg), [])
    else if env[CacheDirVar] == "" then (Err(CreateCacheDirMsg), [])
    else
      var dir := ParsePath(env[CacheDirVar]);
      if dir in existing then (Ok(dir), [])
      else if !CanCreate(dir, existing) then (Err(CreateCacheDirMsg), [])
      else (Ok(dir), [CreatedDir(dir)])
  }

  /** The cache dir is the variable's path; it is created only when it
      does not exist, only it and none of its ancestors, and only when its
      parent exists. */
  lemma CacheDirMeaning(env: map<string, string>, existing: set<Path>)
    ensures var r := CacheDir(env, existing);
            (r.0.Ok? <==> CacheDirVar in env && env[CacheDirVar] != ""
                          && (ParsePath(env[CacheDirVar]) in existing
                              || CanCreate(ParsePath(env[CacheDirVar]), existing)))
            && (r.0.Ok? ==> r.0.value == ParsePath(env[CacheDirVar]))
            && (CacheDirVar !in env ==> r.0 == Err(NoCacheDirMsg))
            && (CacheDirVar in env && env[CacheDirVar] == "" ==> r.0 == Err(CreateCacheDirMsg))
    ensures var r := CacheDir(env, existing);
            Created(r.1) == (if r.0.Ok? && r.0.value !in existing then {r.0.value} else {})
  {
    var r := CacheDir(env, existing);
    if r.1 != [] {
      assert r.1[0].CreatedDir?;
    }
  }

  method MakeCacheDir(env: map<string, string>, fs: Dirs) returns (r: Result<Path>, steps: seq<Step>)
    modifies fs
    ensures (r, steps) == CacheDir(env, old(fs.existing))
    ensures fs.existing == old(fs.existing) + Created(steps)
  {
    if CacheDirVar !in env {
      return Err(NoCacheDirMsg), [];
    }
    if env[CacheDirVar] == "" {
      return Err(CreateCacheDirMsg), [];
    }
    var dir := ParsePath(env[CacheDirVar]);
    if dir in fs.existing {
      return Ok(dir), [];
    }
    var parent := Parent(dir);
    if parent.None? || parent.value !in fs.existing {
      return Err(CreateCacheDirMsg), [];
    }
    fs.existing := fs.existing + {dir};
    steps := [CreatedDir(dir)];
    assert steps[0].CreatedDir?;
    return Ok(dir), steps;
  }

  /** The paths that exist on disk. */
  class Dirs {
    var existing: set<Path>

    constructor (paths: set<Path>)
      ensures existing == paths
    {
      existing := paths;
    }
  }

  // ------------------------------------------------------------ the key

  /** The crate name, the `extra-filename` value, the parsed `--crate-type`
      and `--emit` values and the out dir, in the order `main` looks them
      up, failing at the first that cannot be had. */
  function KeyOf(args: Args): Result<Key> {
    if args.crateName.None? then Err(HopeMain.NoCrateNameMsg)
    else
      match FirstKvValue(args.codegenOptions, HopeMain.ExtraFilenameKey)
      case None => Err(HopeMain.NoExtraFilenameMsg)
      case Some(extra) =>
        match ParsedSet(args.crateTypes, ParseCrateType, HopeMain.CrateTypeContext)
        case Err(m) => Err(m)
        case Ok(cts) =>
          match ParsedSet(args.emit, ParseOutputType, HopeMain.EmitContext)
          case Err(m) => Err(m)
          case Ok(ots) =>
            if args.outDir.None? then Err(HopeMain.NoOutDirMsg)
            else Ok(Key(ParsePath(args.outDir.value), CrateUnitName(args.crateName.value, extra), cts, ots))
  }

  /** The key exists exactly when the crate name, an `extra-filename`
      option and the out dir are given and every crate and output type
      parses; it then holds the crate name followed by the first
      `extra-filename` value, and the named crate and output types. */
  lemma KeyMeaning(args: Args)
    ensures KeyOf(args).Ok? <==>
              args.crateName.Some? && FirstKvValue(args.codegenOptions, HopeMain.ExtraFilenameKey).Some?
              && (forall i :: 0 <= i < |args.crateTypes| ==> ParseCrateType(args.crateTypes[i]).Ok?)
              && (forall i :: 0 <= i < |args.emit| ==> ParseOutputType(args.emit[i]).Ok?)
              && args.outDir.Some?
    ensures KeyOf(args).Ok? ==>
              var k := KeyOf(args).value;
              k.unit == args.crateName.value + FirstKvValue(args.codegenOptions, HopeMain.ExtraFilenameKey).value
              && k.outDir == ParsePath(args.outDir.value)
              && (forall c :: c in k.crateTypes <==> CrateTypeName(c) in args.crateTypes)
              && (forall t :: t in k.outputTypes <==> OutputTypeName(t) in args.emit)
  {
    ParsedSetMeaning(args.crateTypes, ParseCrateType, HopeMain.CrateTypeContext);
    ParsedSetMeaning(args.emit, ParseOutputType, HopeMain.EmitContext);
    if KeyOf(args).Ok? {
      ParsedCrateTypes(args.crateTypes, HopeMain.CrateTypeContext);
      ParsedOutputTypes(args.emit, HopeMain.EmitContext);
    }
  }

  /** Unlike `hope`'s, the wrapper's key needs no `metadata` option: two
      command lines with the same crate name, crate types, output types and
      out dir and the same first `extra-filename` value have the same key,
      whatever their other codegen options. */
  lemma KeyIgnoresMetadata(args: Args, other: Args)
    requires args.crateName == other.crateName && args.crateTypes == other.crateTypes
    requires args.emit == other.emit && args.outDir == other.outDir
    requires FirstKvValue(args.codegenOptions, HopeMain.ExtraFilenameKey)
             == FirstKvValue(other.codegenOptions, HopeMain.ExtraFilenameKey)
    ensures KeyOf(args) == KeyOf(other)
  {
  }

  /** Where both exist, the wrapper's key names the unit `hope` names, in
      the same out dir. */
  lemma KeyAgreesWithHope(args: Args, env: map<string, string>)
    requires KeyOf(args).Ok? && HopeMain.UnitOf(args, env).Ok?
    ensures KeyOf(args).value.unit == HopeMain.UnitOf(args, env).value.Name()
    ensures KeyOf(args).value.outDir == HopeMain.UnitOf(args, env).value.outDir
  {
    KeyMeaning(args);
  }

  method MakeKey(args: Args) returns (r: Result<Key>)
    ensures r == KeyOf(args)
  {
    if args.crateName.None? {
      return Err(HopeMain.NoCrateNameMsg);
    }
    var extra := FirstKvValue(args.codegenOptions, HopeMain.ExtraFilenameKey);
    if extra.None? {
      return Err(HopeMain.NoExtraFilenameMsg);
    }
    var cts := HopeMain.CollectParsed(args.crateTypes, ParseCrateType, HopeMain.CrateTypeContext);
    if cts.Err? {
      return Err(cts.msg);
    }
    var ots := HopeMain.CollectParsed(args.emit, ParseOutputType, HopeMain.EmitContext);
    if ots.Err? {
      return Err(ots.msg);
    }
    if args.outDir.None? {
      return Err(HopeMain.NoOutDirMsg);
    }
    return Ok(Key(ParsePath(args.outDir.value), CrateUnitName(args.crateName.value, extra.value), cts.value, ots.value));
  }

  // ------------------------------------------------------------ the flow

  /** Pull; on a failed pull, the real `rustc` and, if it succeeded, the
      push. */
  function PullElseBuild(key: Key, passThrough: seq<string>, w: World): Outcome {
    if w.pullOk then Outcome(Completed, [Pulled(key)])
    else
      var built := [Pulled(key), RanRustc(passThrough)];
      if !Succeeded(w.rustc) then Outcome(RustcResult(w), built)
      else Outcome(if w.pushOk then Completed else Failed(PushFailedMsg), built + [Pushed(key)])
  }

  /** `main`: the executable and `rustc` paths from `argv`, pass-through
      for crates outside the registry, the cache dir, the key, and
      pull-else-build. */
  function Invoke(argv: seq<string>, args: Args, w: World, existing: set<Path>): Outcome {
    if |argv| == 0 then Outcome(Failed(HopeMain.NoExeArgMsg), [])
    else if |argv| == 1 then Outcome(Failed(HopeMain.NoRustcArgMsg), [])
    else
      var passThrough := argv[2..];
      if !HopeMain.Cacheable(args) then Outcome(RustcResult(w), [RanRustc(passThrough)])
      else
        var dir := CacheDir(w.env, existing);
        if dir.0.Err? then Outcome(Failed(dir.0.msg), dir.1)
        else
          match KeyOf(args)
          case Err(m) => Outcome(Failed(m), dir.1)
          case Ok(key) =>
            var o := PullElseBuild(key, passThrough, w);
            Outcome(o.t, dir.1 + o.steps)
  }

  method Run(argv: seq<string>, args: Args, w: World, fs: Dirs) returns (t: Termination, steps: seq<Step>)
    modifies fs
    ensures Outcome(t, steps) == Invoke(argv, args, w, old(fs.existing))
    ensures fs.existing == old(fs.existing) + Created(steps)
  {
    if |argv| == 0 {
      return Failed(HopeMain.NoExeArgMsg), [];
    }
    if |argv| == 1 {
      return Failed(HopeMain.NoRustcArgMsg), [];
    }
    var passThrough := argv[2..];
    if !HopeMain.Cacheable(args) {
      return RustcResult(w), [RanRustc(passThrough)];
    }
    var dir;
    dir, steps := MakeCacheDir(w.env, fs);
    if dir.Err? {
      return Failed(dir.msg), steps;
    }
    var key := MakeKey(args);
    if key.Err? {
      return Failed(key.msg), steps;
    }
    var rest;
    t, rest := PullOrBuild(key.value, passThrough, w);
    NoneCreated(steps, rest);
    steps := steps + rest;
  }

  method PullOrBuild(key: Key, passThrough: seq<string>, w: World) returns (t: Termination, steps: seq<Step>)
    ensures Outcome(t, steps) == PullElseBuild(key, passThrough, w)
  {
    steps := [Pulled(key)];
    if w.pullOk {
      return Completed, steps;
    }
    steps := steps + [RanRustc(passThrough)];
    t := RustcResult(w);
    if !t.Completed? {
      return;
    }
    steps := steps + [Pushed(key)];
    t := if w.pushOk then Completed else Failed(PushFailedMsg);
  }

  lemma NoneCreated(before: seq<Step>, rest: seq<Step>)
    requires forall i :: 0 <= i < |rest| ==> !rest[i].CreatedDir?
    ensures Created(before + rest) == Created(before)
  {
    var all := before + rest;
    forall p | p in Created(all) ensures p in Created(before) {
      var i :| 0 <= i < |all| && all[i].CreatedDir? && all[i].dir == p;
      assert all[i] == before[i];
    }
    forall p | p in Created(before) ensures p in Created(all) {
      var i :| 0 <= i < |before| && before[i].CreatedDir? && before[i].dir == p;
      assert all[i] == before[i];
    }
  }

  // -------------------------------------------------- what the flow promises

  /** A crate from outside the registry (or a command line without an
      input) only runs the real `rustc`, with the arguments after the
      `rustc` path unchanged, and ends as it ends. */
  lemma PassThroughUnchanged(argv: seq<string>, args: Args, w: World, existing: set<Path>)
    requires |argv| >= 2 && !HopeMain.Cacheable(args)
    ensures var o := Invoke(argv, args, w, existing);
            o.t == RustcResult(w) && |o.steps| == 1 && o.steps[0].RanRustc?
            && argv == argv[..2] + o.steps[0].args
  {
  }

  /** A registry crate without `WRAPPER_HAX_CACHE_DIR` is an error, before
      anything is created, pulled or run. */
  lemma UnsetCacheDirFails(argv: seq<string>, args: Args, w: World, existing: set<Path>)
    requires |argv| >= 2 && HopeMain.Cacheable(args) && CacheDirVar !in w.env
    ensures Invoke(argv, args, w, existing) == Outcome(Failed(NoCacheDirMsg), [])
  {
  }

  /** A successful pull ends the invocation: once the cache dir and the
      key are had, a hit completes having pulled and nothing else. */
  lemma HitRunsNoRustc(argv: seq<string>, args: Args, w: World, existing: set<Path>)
    requires |argv| >= 2 && HopeMain.Cacheable(args) && w.pullOk
    requires CacheDir(w.env, existing).0.Ok? && KeyOf(args).Ok?
    ensures Invoke(argv, args, w, existing)
            == Outcome(Completed, CacheDir(w.env, existing).1 + [Pulled(KeyOf(args).value)])
  {
  }

  /** A `rustc` that does not succeed ends the invocation as it ends (with
      its exit code when it has one), and nothing is pushed. */
  lemma FailedRustcPushesNothing(argv: seq<string>, args: Args, w: World, existing: set<Path>)
    requires !Succeeded(w.rustc)
    ensures var o := Invoke(argv, args, w, existing);
            forall i :: 0 <= i < |o.steps| ==> !o.steps[i].Pushed?
    ensures var o := Invoke(argv, args, w, existing);
            (exists i :: 0 <= i < |o.steps| && o.steps[i].RanRustc?) ==> o.t == RustcResult(w) && !o.t.Completed?
  {
    var o := Invoke(argv, args, w, existing);
    if |argv| >= 2 && HopeMain.Cacheable(args) {
      CacheDirMeaning(w.env, existing);
      var created := CacheDir(w.env, existing).1;
      assert forall i :: 0 <= i < |created| ==> created[i].CreatedDir?;
    }
  }

  /** A push happens only after a failed pull and a successful `rustc`, as
      the last step, for the key that was pulled; the invocation completes
      exactly when the push does. */
  lemma PushFollowsRustc(argv: seq<string>, args: Args, w: World, existing: set<Path>)
    requires var o := Invoke(argv, args, w, existing);
             exists i :: 0 <= i < |o.steps| && o.steps[i].Pushed?
    ensures |argv| >= 2 && HopeMain.Cacheable(args) && KeyOf(args).Ok? && CacheDir(w.env, existing).0.Ok?
    ensures !w.pullOk && Succeeded(w.rustc)
    ensures var o, key := Invoke(argv, args, w, existing), KeyOf(args).value;
            o.steps == CacheDir(w.env, existing).1 + [Pulled(key), RanRustc(argv[2..]), Pushed(key)]
            && (o.t.Completed? <==> w.pushOk)
  {
    var o := Invoke(argv, args, w, existing);
    var i :| 0 <= i < |o.steps| && o.steps[i].Pushed?;
    CacheDirMeaning(w.env, existing);
    var created := CacheDir(w.env, existing).1;
    assert forall j :: 0 <= j < |created| ==> created[j].CreatedDir?;
  }
}
