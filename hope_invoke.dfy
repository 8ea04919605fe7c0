/** The rest of `main` of the `hope` binary (`hope/src/main.rs`): a
    cacheable `rustc` invocation pulls the unit's outputs from the cache and
    delivers them (rewriting the dep-info file), or runs a deferred build
    script and the real `rustc` and pushes what it built; an out dir of a
    build script then gets the script moved aside. The flow is a function
    of the old state (`Flow`); the method that performs it is proved equal
    to it, and the promises of the flow are lemmas about the function. */
module HopeInvoke {
  import opened Outcomes
  import opened Utf8
  import opened Paths
  import opened Process
  import opened Rustc
  import opened HopeCache
  import opened HopeMain
  import BuildScript

  // Error messages.
  const NoRustcStartMsg: string := "Failed to start real `rustc`"
  const RustcSignalledMsg: string := "Child `rustc` process was terminated by a signal"
  const NoDeferredStartMsg: string := "Failed to start (real) build script"
  const DeferredSignalledMsg: string := "Child (real) build script process was terminated by a signal"
  const ReadDepInfoMsg: string := "Failed to read received dep info file"
  const PushFailedMsg: string := "Failed to push to cache"
  const NoMoveMsg: string := "Failed to move build script out of the way"

  function MtimeMsg(name: string): string {
    "Failed to update mtime for arrival file \"" + name + "\"."
  }

  function DepartMsg(name: string): string {
    "Failed to copy file \"" + name + "\" from target directory to departure directory."
  }

  function TimestampContextMsg(unit: Unit): string {
    "Failed to get invoked timestamp for crate build unit '" + unit.Name()
    + "' (Cargo package '" + unit.packageName + "')"
  }

  /** The out dir component that marks a build script's build. */
  const BuildComponent: string := "build"

  // ------------------------------------------------------------- the world

  /** What the flow reads from outside the model: the environment, the
      paths that exist (`.fingerprint` directories, `invoked.timestamp`
      files), how the real `rustc` ends and which files it leaves in the out
      dir, how a deferred build script ends, and the bytes of the running
      `hope` executable. */
  datatype World = World(
    env: map<string, string>,
    existing: set<Path>,
    rustc: Spawn,
    built: map<string, Bytes>,
    deferred: Spawn,
    exe: Bytes)

  /** What the flow starts, in order: the real `rustc` with its arguments, a
      deferred build script, and a push of a unit's outputs to the cache. */
  datatype Step = RanRustc(args: seq<string>) | RanBuildScript(script: Path) | Pushed(unit: string)

  /** How the flow ends, what it started, and the cache and out dir after it. */
  datatype Effect = Effect(t: Termination, steps: seq<Step>, cache: map<string, Bytes>, out: map<string, Bytes>)

  /** `run_real_rustc`: its termination. */
  function RustcResult(w: World): Termination {
    ChildResult(w.rustc, NoRustcStartMsg, RustcSignalledMsg)
  }

  /** The out dir once the real `rustc` has run (if it started). */
  function AfterRustc(out: map<string, Bytes>, w: World): map<string, Bytes> {
    if w.rustc.Ran? then out + w.built else out
  }

  /** `run_real_rustc` with the arguments passed through unchanged. */
  method RunRealRustc(passThrough: seq<string>, w: World, outDir: Dir) returns (t: Termination, steps: seq<Step>)
    modifies outDir
    ensures t == RustcResult(w) && steps == [RanRustc(passThrough)]
    ensures outDir.files == AfterRustc(old(outDir.files), w)
  {
    steps := [RanRustc(passThrough)];
    if w.rustc.Ran? {
      outDir.files := outDir.files + w.built;
    }
    t := ChildResult(w.rustc, NoRustcStartMsg, RustcSignalledMsg);
  }

  // ------------------------------------------------------------- the plan

  /** What `main` works out before it touches the cache, including the
      directory a miss looks in for a deferred build script's record. */
  datatype Plan = Plan(unit: Unit, timestamp: Path, crateTypes: set<CrateType>, outputTypes: set<OutputType>,
                       infoDir: Path)

  /** The unit keys, the invoked timestamp, and the parsed `--crate-type`
      and `--emit` values, failing at the first that cannot be had. A miss
      looks for a deferred record in the crate's `--out-dir`. */
  function PlanOf(args: Args, w: World): Result<Plan> {
    match UnitOf(args, w.env)
    case Err(m) => Err(m)
    case Ok(u) =>
      match InvokedTimestampPath(u, w.existing)
      case Err(_) => Err(TimestampContextMsg(u))
      case Ok(ts) =>
        match ParsedSet(args.crateTypes, ParseCrateType, CrateTypeContext)
        case Err(m) => Err(m)
        case Ok(cts) =>
          match ParsedSet(args.emit, ParseOutputType, EmitContext)
          case Err(m) => Err(m)
          case Ok(ots) => Ok(Plan(u, ts, cts, ots, u.outDir))
  }

  method MakePlan(args: Args, w: World) returns (r: Result<Plan>)
    ensures r == PlanOf(args, w)
  {
    var unit := UnitOf(args, w.env);
    if unit.Err? {
      return Err(unit.msg);
    }
    var u := unit.value;
    var ts := GetInvokedTimestamp(u, w.existing);
    if ts.Err? {
      return Err(TimestampContextMsg(u));
    }
    var cts := CollectParsed(args.crateTypes, ParseCrateType, CrateTypeContext);
    if cts.Err? {
      return Err(cts.msg);
    }
    var ots := CollectParsed(args.emit, ParseOutputType, EmitContext);
    if ots.Err? {
      return Err(ots.msg);
    }
    return Ok(Plan(u, ts.value, cts.value, ots.value, u.outDir));
  }

  /** `file_name` is defined for every output of the plan: no `todo!()`
      crate type is linked. */
  predicate Named(p: Plan) {
    OutputType.Link in p.outputTypes ==> p.crateTypes !! {Staticlib, Dylib, Cdylib}
  }

  /** `defns` is what `output_defns` may return for the plan: each output
      once, in some order, all of them named. */
  ghost predicate ListsOutputs(p: Plan, defns: seq<OutputDefn>) {
    (forall d :: d in defns <==> Produces(p.crateTypes, p.outputTypes, d))
    && Distinct(defns)
    && (forall i :: 0 <= i < |defns| ==> HasFileName(defns[i]))
  }

  /** Every output of the plan is in the cache: the pull succeeds. */
  ghost predicate AllCached(p: Plan, cache: map<string, Bytes>)
    requires Named(p)
  {
    forall d :: Produces(p.crateTypes, p.outputTypes, d) ==> FileName(d, p.unit.Name()) in cache
  }

  // ------------------------------------------------------------ a cache hit

  /** What the hit loop makes of one pulled output: a dep-info file is read
      as UTF-8 and rewritten; any other file is delivered as it is. */
  function Arrive(d: OutputDefn, bytes: Bytes): Result<Bytes> {
    if d != OutputDefn.DepInfo then Ok(bytes)
    else
      match Decode(bytes)
      case None => Err(ReadDepInfoMsg)
      case Some(text) =>
        match RewriteText(text)
        case Err(m) => Err(m)
        case Ok(rewritten) => Ok(Encode(rewritten))
  }

  /** The hit loop over the outputs, in order: the arrival file must exist
      (its modification time is set first), is rewritten in place when it
      is the dep-info file, and is copied into the out dir. The out dir
      after the loop and the error that stopped it, if any; what was copied
      before an error stays. */
  function Deliver(defns: seq<OutputDefn>, unit: string, arrival: map<string, Bytes>, out: map<string, Bytes>)
    : (map<string, Bytes>, Option<string>)
    requires forall i :: 0 <= i < |defns| ==> HasFileName(defns[i])
  {
    if |defns| == 0 then (out, None)
    else
      var name := FileName(defns[0], unit);
      if name !in arrival then (out, Some(MtimeMsg(name)))
      else
        match Arrive(defns[0], arrival[name])
        case Err(m) => (out, Some(m))
        case Ok(b) => Deliver(defns[1..], unit, arrival[name := b], out[name := b])
  }

  /** The hit loop of `main`. */
  method DeliverAll(unit: string, defns: seq<OutputDefn>, arrival: Dir, outDir: Dir) returns (failure: Option<string>)
    requires forall i :: 0 <= i < |defns| ==> HasFileName(defns[i])
    requires arrival != outDir
    modifies arrival, outDir
    ensures (outDir.files, failure) == Deliver(defns, unit, old(arrival.files), old(outDir.files))
  {
    var i := 0;
    while i < |defns|
      invariant 0 <= i <= |defns|
      invariant Deliver(defns[i..], unit, arrival.files, outDir.files) == Deliver(defns, unit, old(arrival.files), old(outDir.files))
    {
      var name := FileName(defns[i], unit);
      assert defns[i..][0] == defns[i] && defns[i..][1..] == defns[i + 1..];
      if name !in arrival.files {
        return Some(MtimeMsg(name));
      }
      var arrived := ArriveOne(defns[i], unit, arrival);
      if arrived.Err? {
        return Some(arrived.msg);
      }
      outDir.files := outDir.files[name := arrived.value];
      i := i + 1;
    }
    return None;
  }

  /** One turn of the hit loop before the copy: a dep-info arrival file
      is read and rewritten in place; any other is left as it is. */
  method ArriveOne(d: OutputDefn, unit: string, arrival: Dir) returns (r: Result<Bytes>)
    requires HasFileName(d) && FileName(d, unit) in arrival.files
    modifies arrival
    ensures r == Arrive(d, old(arrival.files)[FileName(d, unit)])
    ensures r.Ok? ==> arrival.files == old(arrival.files)[FileName(d, unit) := r.value]
  {
    var name := FileName(d, unit);
    if d != OutputDefn.DepInfo {
      assert arrival.files == arrival.files[name := arrival.files[name]];
      return Ok(arrival.files[name]);
    }
    var text := Decode(arrival.files[name]);
    if text.None? {
      return Err(ReadDepInfoMsg);
    }
    var rewritten := RewriteDepInfo(text.value);
    if rewritten.Err? {
      return Err(rewritten.msg);
    }
    r := Ok(Encode(rewritten.value));
    arrival.files := arrival.files[name := r.value];
  }

  /** The loop writes only the files of its outputs. */
  lemma {:induction false} DeliverFrame(defns: seq<OutputDefn>, unit: string, arrival: map<string, Bytes>,
                                        out: map<string, Bytes>, k: string)
    requires forall i :: 0 <= i < |defns| ==> HasFileName(defns[i])
    requires k !in FileNames(defns, unit)
    ensures k in Deliver(defns, unit, arrival, out).0 <==> k in out
    ensures k in out ==> Deliver(defns, unit, arrival, out).0[k] == out[k]
  {
    if |defns| > 0 {
      var name := FileName(defns[0], unit);
      assert name == FileNames(defns, unit)[0];
      assert FileNames(defns[1..], unit) == FileNames(defns, unit)[1..];
      if name in arrival && Arrive(defns[0], arrival[name]).Ok? {
        var b := Arrive(defns[0], arrival[name]).value;
        DeliverFrame(defns[1..], unit, arrival[name := b], out[name := b], k);
      }
    }
  }

  /** Two different outputs that share a file name are both plain copies. */
  lemma SharedNamePlain(d1: OutputDefn, d2: OutputDefn, unit: string)
    requires HasFileName(d1) && HasFileName(d2) && d1 != d2
    requires FileName(d1, unit) == FileName(d2, unit)
    ensures d1 != OutputDefn.DepInfo && d2 != OutputDefn.DepInfo
  {
    FileNamesCollide(d1, d2, unit);
  }

  /** A loop that ran to the end delivered every output: each file in the
      out dir is what `Arrive` makes of the arrival file. */
  lemma {:induction false} DeliverMeaning(defns: seq<OutputDefn>, unit: string, arrival: map<string, Bytes>,
                                          out: map<string, Bytes>)
    requires forall i :: 0 <= i < |defns| ==> HasFileName(defns[i])
    requires Distinct(defns)
    requires Deliver(defns, unit, arrival, out).1.None?
    ensures forall i :: 0 <= i < |defns| ==> Delivered(defns[i], unit, arrival, Deliver(defns, unit, arrival, out).0)
  {
    if |defns| > 0 {
      var d0, tail := defns[0], defns[1..];
      var name := FileName(d0, unit);
      var b := Arrive(d0, arrival[name]).value;
      var arrival', out' := arrival[name := b], out[name := b];
      var result := Deliver(defns, unit, arrival, out).0;
      assert result == Deliver(tail, unit, arrival', out').0;
      DeliverMeaning(tail, unit, arrival', out');
      forall i | 0 <= i < |defns| ensures Delivered(defns[i], unit, arrival, result) {
        if i == 0 {
          if name in FileNames(tail, unit) {
            var j :| 0 <= j < |tail| && FileNames(tail, unit)[j] == name;
            SharedNamePlain(d0, tail[j], unit);
            assert Delivered(tail[j], unit, arrival', result);
          } else {
            DeliverFrame(tail, unit, arrival', out', name);
          }
        } else {
          var di := defns[i];
          assert di == tail[i - 1];
          assert Delivered(di, unit, arrival', result);
          if FileName(di, unit) == name {
            SharedNamePlain(d0, di, unit);
          }
        }
      }
    }
  }

  /** Output `d` reached the out dir: its arrival file existed and the out
      dir holds what `Arrive` makes of it. */
  ghost predicate Delivered(d: OutputDefn, unit: string, arrival: map<string, Bytes>, out: map<string, Bytes>)
    requires HasFileName(d)
  {
    var name := FileName(d, unit);
    name in arrival && Arrive(d, arrival[name]).Ok? && name in out && out[name] == Arrive(d, arrival[name]).value
  }

  /** Under the plan's outputs, the pull copies every file exactly when
      all of them are in the cache. */
  lemma PullSucceedsIffCached(p: Plan, defns: seq<OutputDefn>, cache: map<string, Bytes>, dst: map<string, Bytes>)
    requires Named(p) && ListsOutputs(p, defns)
    ensures CopyFiles(FileNames(defns, p.unit.Name()), cache, dst).1.None? <==> AllCached(p, cache)
  {
    var names := FileNames(defns, p.unit.Name());
    CopyFilesMeaning(names, cache, dst);
    var k := FirstMissing(names, cache);
    if k < |names| {
      assert defns[k] in defns;
    } else {
      forall d | Produces(p.crateTypes, p.outputTypes, d) ensures FileName(d, p.unit.Name()) in cache {
        var i :| 0 <= i < |defns| && defns[i] == d;
        assert names[i] in cache;
      }
    }
  }

  // ------------------------------------------------------------ a cache miss

  /** Where a build script that was deferred left its invocation info. */
  function InfoPath(outDir: Path): Path {
    Path(outDir.absolute, outDir.comps + [BuildScript.InvocationInfoFileName])
  }

  /** The deferred build script found under `dir`: when `dir` holds an
      invocation-info file, run the real script it names and require it to
      succeed, then find its out dir and its `invoked.timestamp` file. How
      that ends, and what it started. */
  function DeferredAt(dir: Path, w: World, infos: map<Path, BuildScript.InvocationInfo>): (Termination, seq<Step>) {
    if InfoPath(dir) !in infos then (Completed, [])
    else
      var info := infos[InfoPath(dir)];
      var steps := [RanBuildScript(info.realBuildScriptPath)];
      var t := ChildResult(w.deferred, NoDeferredStartMsg, DeferredSignalledMsg);
      if !t.Completed? then (t, steps)
      else
        match info.InvokedTimestampPath()
        case Err(m) => (Failed(m), steps)
        case Ok(ts) => (if ts in w.existing then Completed else Failed(NoTimestampMsg), steps)
  }

  /** The build script's out dir, which Cargo hands to the compilation of
      the crate it belongs to as `OUT_DIR`; none when the crate has no
      build script. */
  function InfoDir(env: map<string, string>): Option<Path> {
    if BuildScript.OutDirVar in env then Some(ParsePath(env[BuildScript.OutDirVar])) else None
  }

  method RunDeferred(dir: Path, w: World, infos: BuildScript.InfoFiles) returns (t: Termination, steps: seq<Step>)
    ensures (t, steps) == DeferredAt(dir, w, infos.written)
  {
    BuildScript.NamesAreComponents();
    var infoPath := JoinOne(dir, BuildScript.InvocationInfoFileName);
    if infoPath !in infos.written {
      return Completed, [];
    }
    var info := infos.written[infoPath];
    steps := [RanBuildScript(info.realBuildScriptPath)];
    t := ChildResult(w.deferred, NoDeferredStartMsg, DeferredSignalledMsg);
    if !t.Completed? {
      return;
    }
    var scriptOutDir := info.OutDir();
    if scriptOutDir.Err? {
      return Failed(scriptOutDir.msg), steps;
    }
    var ts := info.InvokedTimestampPath();
    if ts.Err? {
      return Failed(ts.msg), steps;
    }
    if ts.value !in w.existing {
      return Failed(NoTimestampMsg), steps;
    }
  }

  /** The miss branch: the deferred build script, then `rustc` and the push. */
  function MissFlow(p: Plan, defns: seq<OutputDefn>, passThrough: seq<string>, w: World,
                    cache: map<string, Bytes>, out: map<string, Bytes>, infos: map<Path, BuildScript.InvocationInfo>)
    : Effect
    requires forall i :: 0 <= i < |defns| ==> HasFileName(defns[i])
  {
    var deferred := DeferredAt(p.infoDir, w, infos);
    if !deferred.0.Completed? then Effect(deferred.0, deferred.1, cache, out)
    else BuildThenPush(p.unit.Name(), defns, deferred.1 + [RanRustc(passThrough)], w, cache, out)
  }

  /** The real `rustc` (already recorded in `steps`), then, if it succeeded,
      the push. */
  function BuildThenPush(unit: string, defns: seq<OutputDefn>, steps: seq<Step>, w: World,
                         cache: map<string, Bytes>, out: map<string, Bytes>)
    : Effect
    requires forall i :: 0 <= i < |defns| ==> HasFileName(defns[i])
  {
    if !Succeeded(w.rustc) then Effect(RustcResult(w), steps, cache, AfterRustc(out, w))
    else Push(unit, defns, steps, cache, AfterRustc(out, w))
  }

  /** The copy of every output into a departure directory, and the push
      from there. */
  function Push(unit: string, defns: seq<OutputDefn>, steps: seq<Step>, cache: map<string, Bytes>, out: map<string, Bytes>)
    : Effect
    requires forall i :: 0 <= i < |defns| ==> HasFileName(defns[i])
  {
    var departed := CopyFiles(FileNames(defns, unit), out, map[]);
    if departed.1.Some? then Effect(Failed(DepartMsg(departed.1.value)), steps, cache, out)
    else
      var pushed := CopyFiles(FileNames(defns, unit), departed.0, cache);
      if pushed.1.Some? then Effect(Failed(PushFailedMsg), steps, pushed.0, out)
      else Effect(Completed, steps + [Pushed(unit)], pushed.0, out)
  }

  /** The push completes exactly when every output is in the out dir; it
      then records itself last and stores each output as the out dir holds
      it, and nothing else; otherwise the cache is unchanged. */
  lemma PushMeaning(unit: string, defns: seq<OutputDefn>, steps: seq<Step>, cache: map<string, Bytes>, out: map<string, Bytes>)
    requires forall i :: 0 <= i < |defns| ==> HasFileName(defns[i])
    ensures var e, names := Push(unit, defns, steps, cache, out), FileNames(defns, unit);
            e.t.Completed? <==> forall j :: 0 <= j < |names| ==> names[j] in out
    ensures var e, names := Push(unit, defns, steps, cache, out), FileNames(defns, unit);
            e.t.Completed? ==> e.steps == steps + [Pushed(unit)] && e.cache == Overlay(cache, out, names)
    ensures var e := Push(unit, defns, steps, cache, out);
            !e.t.Completed? ==> e.steps == steps && e.cache == cache
  {
    var names := FileNames(defns, unit);
    var departed := CopyFiles(names, out, map[]);
    CopyFilesMeaning(names, out, map[]);
    if departed.1.None? {
      TakeAllNames(names, out);
      OverlayThrough(cache, out, names);
      CopyFilesMeaning(names, departed.0, cache);
      TakeAllNames(names, departed.0);
    } else {
      assert names[FirstMissing(names, out)] !in out;
    }
  }

  /** The departure loop: copy each output from the out dir into the
      departure directory, failing at the first one that is missing. */
  method Depart(unit: string, defns: seq<OutputDefn>, outDir: Dir, departure: Dir) returns (missing: Option<string>)
    requires forall i :: 0 <= i < |defns| ==> HasFileName(defns[i])
    requires outDir != departure
    modifies departure
    ensures (departure.files, missing) == CopyFiles(FileNames(defns, unit), outDir.files, old(departure.files))
  {
    ghost var names := FileNames(defns, unit);
    var i := 0;
    while i < |defns|
      invariant 0 <= i <= |defns|
      invariant CopyFiles(names[i..], outDir.files, departure.files) == CopyFiles(names, outDir.files, old(departure.files))
    {
      var name := FileName(defns[i], unit);
      assert names[i..][0] == name && names[i..][1..] == names[i + 1..];
      if name !in outDir.files {
        return Some(name);
      }
      departure.files := departure.files[name := outDir.files[name]];
      i := i + 1;
    }
    return None;
  }

  method Miss(p: Plan, defns: seq<OutputDefn>, passThrough: seq<string>, w: World,
              cache: LocalCache, outDir: Dir, infos: BuildScript.InfoFiles)
    returns (t: Termination, steps: seq<Step>)
    requires forall i :: 0 <= i < |defns| ==> HasFileName(defns[i])
    modifies cache, outDir
    ensures cache.archives == old(cache.archives)
    ensures Effect(t, steps, cache.files, outDir.files)
            == MissFlow(p, defns, passThrough, w, old(cache.files), old(outDir.files), infos.written)
  {
    t, steps := RunDeferred(p.infoDir, w, infos);
    if !t.Completed? {
      return;
    }
    t, steps := BuildPush(p.unit.Name(), defns, passThrough, steps, w, cache, outDir);
  }

  method BuildPush(unit: string, defns: seq<OutputDefn>, passThrough: seq<string>, before: seq<Step>, w: World,
                   cache: LocalCache, outDir: Dir)
    returns (t: Termination, steps: seq<Step>)
    requires forall i :: 0 <= i < |defns| ==> HasFileName(defns[i])
    modifies cache, outDir
    ensures cache.archives == old(cache.archives)
    ensures Effect(t, steps, cache.files, outDir.files)
            == BuildThenPush(unit, defns, before + [RanRustc(passThrough)], w, old(cache.files), old(outDir.files))
  {
    var rsteps;
    t, rsteps := RunRealRustc(passThrough, w, outDir);
    steps := before + rsteps;
    if !t.Completed? {
      return;
    }
    t, steps := DepartPush(unit, defns, steps, cache, outDir);
  }

  method DepartPush(unit: string, defns: seq<OutputDefn>, before: seq<Step>, cache: LocalCache, outDir: Dir)
    returns (t: Termination, steps: seq<Step>)
    requires forall i :: 0 <= i < |defns| ==> HasFileName(defns[i])
    modifies cache
    ensures cache.archives == old(cache.archives)
    ensures Effect(t, steps, cache.files, outDir.files) == Push(unit, defns, before, old(cache.files), outDir.files)
  {
    var departure := new Dir(map[]);
    var missing := Depart(unit, defns, outDir, departure);
    if missing.Some? {
      return Failed(DepartMsg(missing.value)), before;
    }
    var pushed := cache.PushDefns(unit, defns, departure);
    if pushed.Err? {
      return Failed(PushFailedMsg), before;
    }
    return Completed, before + [Pushed(unit)];
  }

  // ------------------------------------------------------- pull, else build

  /** The hit branch: deliver the pulled files. */
  function HitFlow(defns: seq<OutputDefn>, unit: string, arrival: map<string, Bytes>,
                   cache: map<string, Bytes>, out: map<string, Bytes>): Effect
    requires forall i :: 0 <= i < |defns| ==> HasFileName(defns[i])
  {
    var delivered := Deliver(defns, unit, arrival, out);
    Effect(if delivered.1.Some? then Failed(delivered.1.value) else Completed, [], cache, delivered.0)
  }

  /** Pull every output into a fresh arrival directory; on success deliver
      them, otherwise build and push. */
  function PullElseBuild(p: Plan, defns: seq<OutputDefn>, passThrough: seq<string>, w: World,
                         cache: map<string, Bytes>, out: map<string, Bytes>, infos: map<Path, BuildScript.InvocationInfo>)
    : Effect
    requires forall i :: 0 <= i < |defns| ==> HasFileName(defns[i])
  {
    var pulled := CopyFiles(FileNames(defns, p.unit.Name()), cache, map[]);
    if pulled.1.None? then HitFlow(defns, p.unit.Name(), pulled.0, cache, out)
    else MissFlow(p, defns, passThrough, w, cache, out, infos)
  }

  method PullOrBuild(p: Plan, defns: seq<OutputDefn>, passThrough: seq<string>, w: World,
                     cache: LocalCache, outDir: Dir, infos: BuildScript.InfoFiles)
    returns (t: Termination, steps: seq<Step>)
    requires forall i :: 0 <= i < |defns| ==> HasFileName(defns[i])
    modifies cache, outDir
    ensures cache.archives == old(cache.archives)
    ensures Effect(t, steps, cache.files, outDir.files)
            == PullElseBuild(p, defns, passThrough, w, old(cache.files), old(outDir.files), infos.written)
  {
    var arrival := new Dir(map[]);
    var pulled := cache.PullDefns(p.unit.Name(), defns, arrival);
    if pulled.Ok? {
      var failure := DeliverAll(p.unit.Name(), defns, arrival, outDir);
      t := if failure.Some? then Failed(failure.value) else Completed;
      steps := [];
    } else {
      t, steps := Miss(p, defns, passThrough, w, cache, outDir, infos);
    }
  }

  // ------------------------------------------------- the build script swap

  /** An out dir with a `build` component: the unit is a build script. */
  predicate IsBuildScriptDir(outDir: Path) {
    BuildComponent in outDir.comps
  }

  /** After a build script's unit is in place, the script is renamed with
      the `-moved-by-hope` suffix and a copy of `hope` takes its name. */
  function MoveScript(unit: Unit, w: World, out: map<string, Bytes>): (Termination, map<string, Bytes>) {
    var name := unit.Name();
    if !IsBuildScriptDir(unit.outDir) then (Completed, out)
    else if name !in out then (Failed(NoMoveMsg), out)
    else (Completed, out[name + BuildScript.MovedSuffix := out[name]][name := w.exe])
  }

  method MoveBuildScript(unit: Unit, w: World, outDir: Dir) returns (t: Termination)
    modifies outDir
    ensures (t, outDir.files) == MoveScript(unit, w, old(outDir.files))
  {
    if BuildComponent !in unit.outDir.comps {
      return Completed;
    }
    var name := unit.Name();
    if name !in outDir.files {
      return Failed(NoMoveMsg);
    }
    var script := outDir.files[name];
    outDir.files := outDir.files - {name};
    outDir.files := outDir.files[name + BuildScript.MovedSuffix := script];
    outDir.files := outDir.files[name := w.exe];
    assert outDir.files == old(outDir.files)[name + BuildScript.MovedSuffix := script][name := w.exe];
    return Completed;
  }

  // ---------------------------------------------------------------- the flow

  /** A `rustc` invocation: pass-through for crates outside the registry;
      otherwise the plan, pull-else-build, and the build script swap. */
  function Flow(args: Args, passThrough: seq<string>, w: World, defns: seq<OutputDefn>,
                cache: map<string, Bytes>, out: map<string, Bytes>, infos: map<Path, BuildScript.InvocationInfo>)
    : Effect
    requires forall i :: 0 <= i < |defns| ==> HasFileName(defns[i])
  {
    if !Cacheable(args) then Effect(RustcResult(w), [RanRustc(passThrough)], cache, AfterRustc(out, w))
    else
      match PlanOf(args, w)
      case Err(m) => Effect(Failed(m), [], cache, out)
      case Ok(p) => CacheableFlow(p, defns, passThrough, w, cache, out, infos)
  }

  /** A registry crate with a plan: pull-else-build, then the build script
      swap if that completed. */
  function CacheableFlow(p: Plan, defns: seq<OutputDefn>, passThrough: seq<string>, w: World,
                         cache: map<string, Bytes>, out: map<string, Bytes>, infos: map<Path, BuildScript.InvocationInfo>)
    : Effect
    requires forall i :: 0 <= i < |defns| ==> HasFileName(defns[i])
  {
    var e := PullElseBuild(p, defns, passThrough, w, cache, out, infos);
    if !e.t.Completed? then e
    else
      var moved := MoveScript(p.unit, w, e.out);
      Effect(moved.0, e.steps, e.cache, moved.1)
  }

  /** `defns` is what `output_defns` may return for this invocation. */
  ghost predicate FlowDefns(args: Args, w: World, defns: seq<OutputDefn>) {
    (forall i :: 0 <= i < |defns| ==> HasFileName(defns[i]))
    && (Cacheable(args) && PlanOf(args, w).Ok? ==> ListsOutputs(PlanOf(args, w).value, defns))
  }

  /** A plan without `todo!()` crate types names all its outputs. */
  lemma NamedOutputs(p: Plan, defns: seq<OutputDefn>)
    requires Named(p)
    requires forall d :: d in defns <==> Produces(p.crateTypes, p.outputTypes, d)
    ensures forall i :: 0 <= i < |defns| ==> HasFileName(defns[i])
  {
    forall i | 0 <= i < |defns| ensures HasFileName(defns[i]) {
      assert defns[i] in defns;
    }
  }

  /** `main` after the dispatch, for a `rustc` invocation. The order in
      which `output_defns` lists the outputs is not fixed, so the flow holds
      for some listing of them. */
  method InvokeRustc(args: Args, passThrough: seq<string>, w: World, cache: LocalCache, outDir: Dir,
                     infos: BuildScript.InfoFiles)
    returns (t: Termination, steps: seq<Step>)
    requires Cacheable(args) && PlanOf(args, w).Ok? ==> Named(PlanOf(args, w).value)
    modifies cache, outDir
    ensures cache.archives == old(cache.archives)
    ensures !Cacheable(args) ==>
              t == RustcResult(w) && steps == [RanRustc(passThrough)]
              && cache.files == old(cache.files) && outDir.files == AfterRustc(old(outDir.files), w)
    ensures Cacheable(args) && PlanOf(args, w).Err? ==>
              t == Failed(PlanOf(args, w).msg) && steps == []
              && cache.files == old(cache.files) && outDir.files == old(outDir.files)
    ensures exists defns :: FlowDefns(args, w, defns)
              && Effect(t, steps, cache.files, outDir.files)
                 == Flow(args, passThrough, w, defns, old(cache.files), old(outDir.files), infos.written)
  {
    if !Cacheable(args) {
      t, steps := RunRealRustc(passThrough, w, outDir);
      assert FlowDefns(args, w, []);
      return;
    }
    var plan := MakePlan(args, w);
    if plan.Err? {
      assert FlowDefns(args, w, []);
      return Failed(plan.msg), [];
    }
    ghost var defns;
    t, steps, defns := RunPlan(plan.value, passThrough, w, cache, outDir, infos);
    assert FlowDefns(args, w, defns);
  }

  /** A registry crate with a plan: list its outputs, pull-else-build,
      then the build script swap. */
  method RunPlan(p: Plan, passThrough: seq<string>, w: World, cache: LocalCache, outDir: Dir,
                 infos: BuildScript.InfoFiles)
    returns (t: Termination, steps: seq<Step>, ghost defns: seq<OutputDefn>)
    requires Named(p)
    modifies cache, outDir
    ensures cache.archives == old(cache.archives)
    ensures ListsOutputs(p, defns)
    ensures Effect(t, steps, cache.files, outDir.files)
            == CacheableFlow(p, defns, passThrough, w, old(cache.files), old(outDir.files), infos.written)
  {
    var listed := OutputDefns(p.crateTypes, p.outputTypes);
    NamedOutputs(p, listed);
    defns := listed;
    t, steps := PullOrBuild(p, listed, passThrough, w, cache, outDir, infos);
    if t.Completed? {
      t := MoveBuildScript(p.unit, w, outDir);
    }
  }

  // --------------------------------------------------- what the flow promises

  // Each promise is stated for any plan and any listing of its outputs;
  // `Flow` is `CacheableFlow` of the plan for a registry crate whose plan
  // can be made.

  /** A hit runs nothing and stores nothing: no deferred build script, no
      `rustc`, no push. Once it completes, every output is in the out dir as
      the cache holds it, the dep-info file rewritten (outside a build
      script's out dir, where the script itself is swapped afterwards). */
  lemma HitRunsNothing(p: Plan, defns: seq<OutputDefn>, passThrough: seq<string>, w: World,
                       cache: map<string, Bytes>, out: map<string, Bytes>, infos: map<Path, BuildScript.InvocationInfo>)
    requires Named(p) && ListsOutputs(p, defns) && AllCached(p, cache)
    ensures CacheableFlow(p, defns, passThrough, w, cache, out, infos).steps == []
    ensures CacheableFlow(p, defns, passThrough, w, cache, out, infos).cache == cache
    ensures var e := CacheableFlow(p, defns, passThrough, w, cache, out, infos);
            e.t.Completed? && !IsBuildScriptDir(p.unit.outDir) ==>
              forall d :: Produces(p.crateTypes, p.outputTypes, d) ==> Delivered(d, p.unit.Name(), cache, e.out)
  {
    var name := p.unit.Name();
    var names := FileNames(defns, name);
    PullSucceedsIffCached(p, defns, cache, map[]);
    var arrival := CopyFiles(names, cache, map[]).0;
    var e := CacheableFlow(p, defns, passThrough, w, cache, out, infos);
    assert PullElseBuild(p, defns, passThrough, w, cache, out, infos) == HitFlow(defns, name, arrival, cache, out);
    if e.t.Completed? && !IsBuildScriptDir(p.unit.outDir) {
      DeliverMeaning(defns, name, arrival, out);
      CopyFilesMeaning(names, cache, map[]);
      forall d | Produces(p.crateTypes, p.outputTypes, d) ensures Delivered(d, name, cache, e.out) {
        var i :| 0 <= i < |defns| && defns[i] == d;
        assert Delivered(defns[i], name, arrival, e.out);
        assert names[i] in names[..FirstMissing(names, cache)];
      }
    }
  }

  /** A miss whose `rustc` does not succeed ends as `rustc` did (its exit
      code when it has one) and pushes nothing: the cache is unchanged. */
  lemma FailedRustcPushesNothing(p: Plan, defns: seq<OutputDefn>, passThrough: seq<string>, w: World,
                                 cache: map<string, Bytes>, out: map<string, Bytes>,
                                 infos: map<Path, BuildScript.InvocationInfo>)
    requires Named(p) && ListsOutputs(p, defns) && !AllCached(p, cache)
    requires !Succeeded(w.rustc)
    ensures var e := CacheableFlow(p, defns, passThrough, w, cache, out, infos);
            e.cache == cache && !e.t.Completed? && forall u :: Pushed(u) !in e.steps
    ensures var deferred := DeferredAt(p.infoDir, w, infos);
            var e := CacheableFlow(p, defns, passThrough, w, cache, out, infos);
            deferred.0.Completed? ==> e.t == RustcResult(w) && e.steps == deferred.1 + [RanRustc(passThrough)]
  {
    MissOf(p, defns, passThrough, w, cache, out, infos);
    MissFlowFails(p, defns, passThrough, w, cache, out, infos);
  }

  /** The miss branch with a failing `rustc`: it ends as `rustc` did, after
      the deferred steps and `rustc`, and pushes nothing. */
  lemma MissFlowFails(p: Plan, defns: seq<OutputDefn>, passThrough: seq<string>, w: World,
                      cache: map<string, Bytes>, out: map<string, Bytes>, infos: map<Path, BuildScript.InvocationInfo>)
    requires forall i :: 0 <= i < |defns| ==> HasFileName(defns[i])
    requires !Succeeded(w.rustc)
    ensures var m := MissFlow(p, defns, passThrough, w, cache, out, infos);
            m.cache == cache && !m.t.Completed? && forall u :: Pushed(u) !in m.steps
    ensures var deferred, m := DeferredAt(p.infoDir, w, infos), MissFlow(p, defns, passThrough, w, cache, out, infos);
            deferred.0.Completed? ==> m.t == RustcResult(w) && m.steps == deferred.1 + [RanRustc(passThrough)]
  {
    var deferred := DeferredAt(p.infoDir, w, infos);
    assert forall u :: Pushed(u) !in deferred.1;
  }

  /** A miss that completes ran the deferred build script (if any) and then
      `rustc`, both successfully, and pushed last; the cache now holds every
      output as `rustc` left it in the out dir, nothing else in the cache
      changed, and the same invocation would now be a hit. */
  lemma MissPushesBuilt(p: Plan, defns: seq<OutputDefn>, passThrough: seq<string>, w: World,
                        cache: map<string, Bytes>, out: map<string, Bytes>, infos: map<Path, BuildScript.InvocationInfo>)
    requires Named(p) && ListsOutputs(p, defns) && !AllCached(p, cache)
    requires CacheableFlow(p, defns, passThrough, w, cache, out, infos).t.Completed?
    ensures Succeeded(w.rustc)
    ensures var e, deferred := CacheableFlow(p, defns, passThrough, w, cache, out, infos), DeferredAt(p.infoDir, w, infos);
            deferred.0.Completed? && e.steps == deferred.1 + [RanRustc(passThrough), Pushed(p.unit.Name())]
    ensures var names := FileNames(defns, p.unit.Name());
            forall j :: 0 <= j < |names| ==> names[j] in AfterRustc(out, w)
    ensures CacheableFlow(p, defns, passThrough, w, cache, out, infos).cache
            == Overlay(cache, AfterRustc(out, w), FileNames(defns, p.unit.Name()))
    ensures AllCached(p, CacheableFlow(p, defns, passThrough, w, cache, out, infos).cache)
  {
    var name := p.unit.Name();
    var names := FileNames(defns, name);
    MissOf(p, defns, passThrough, w, cache, out, infos);
    MissFlowPushes(p, defns, passThrough, w, cache, out, infos);
    var e := CacheableFlow(p, defns, passThrough, w, cache, out, infos);
    forall d | Produces(p.crateTypes, p.outputTypes, d) ensures FileName(d, name) in e.cache {
      var i :| 0 <= i < |defns| && defns[i] == d;
      assert names[i] in names;
    }
  }

  /** The miss branch, when it completes, ran `rustc` successfully and
      pushed every output as the out dir then held it. */
  lemma MissFlowPushes(p: Plan, defns: seq<OutputDefn>, passThrough: seq<string>, w: World,
                       cache: map<string, Bytes>, out: map<string, Bytes>, infos: map<Path, BuildScript.InvocationInfo>)
    requires forall i :: 0 <= i < |defns| ==> HasFileName(defns[i])
    requires MissFlow(p, defns, passThrough, w, cache, out, infos).t.Completed?
    ensures Succeeded(w.rustc)
    ensures var m, deferred := MissFlow(p, defns, passThrough, w, cache, out, infos), DeferredAt(p.infoDir, w, infos);
            deferred.0.Completed? && m.steps == deferred.1 + [RanRustc(passThrough), Pushed(p.unit.Name())]
    ensures var names := FileNames(defns, p.unit.Name());
            forall j :: 0 <= j < |names| ==> names[j] in AfterRustc(out, w)
    ensures MissFlow(p, defns, passThrough, w, cache, out, infos).cache
            == Overlay(cache, AfterRustc(out, w), FileNames(defns, p.unit.Name()))
  {
    var name := p.unit.Name();
    var deferred := DeferredAt(p.infoDir, w, infos);
    var before := deferred.1 + [RanRustc(passThrough)];
    assert deferred.0.Completed? && Succeeded(w.rustc);
    PushMeaning(name, defns, before, cache, AfterRustc(out, w));
    assert before + [Pushed(name)] == deferred.1 + [RanRustc(passThrough), Pushed(name)];
  }

  lemma TakeAllNames(names: seq<string>, src: map<string, Bytes>)
    requires FirstMissing(names, src) == |names|
    ensures names[..FirstMissing(names, src)] == names
  {
  }

  /** Copying through an intermediate directory that holds just the named
      files is copying directly. */
  lemma OverlayThrough(cache: map<string, Bytes>, src: map<string, Bytes>, names: seq<string>)
    requires forall j :: 0 <= j < |names| ==> names[j] in src
    ensures forall j :: 0 <= j < |names| ==> names[j] in Overlay(map[], src, names)
    ensures Overlay(cache, Overlay(map[], src, names), names) == Overlay(cache, src, names)
  {
  }

  /** Without every output in the cache the flow is the miss branch, then
      the swap: the swap changes neither the steps nor the cache. */
  lemma MissOf(p: Plan, defns: seq<OutputDefn>, passThrough: seq<string>, w: World,
               cache: map<string, Bytes>, out: map<string, Bytes>, infos: map<Path, BuildScript.InvocationInfo>)
    requires Named(p) && ListsOutputs(p, defns) && !AllCached(p, cache)
    ensures var e, m := CacheableFlow(p, defns, passThrough, w, cache, out, infos), MissFlow(p, defns, passThrough, w, cache, out, infos);
            e.steps == m.steps && e.cache == m.cache && (e.t.Completed? ==> m.t.Completed?)
            && (!m.t.Completed? ==> e.t == m.t)
  {
    PullSucceedsIffCached(p, defns, cache, map[]);
  }

  /** A deferred build script is started first, and only once. */
  lemma DeferredStarts(dir: Path, w: World, infos: map<Path, BuildScript.InvocationInfo>)
    requires InfoPath(dir) in infos
    ensures var d := DeferredAt(dir, w, infos);
            d.1 == [RanBuildScript(infos[InfoPath(dir)].realBuildScriptPath)]
            && (d.0.Completed? ==> Succeeded(w.deferred))
  {
  }

  /** The miss branch records the deferred steps first, then `rustc` if
      the deferred script completed. */
  lemma MissSteps(p: Plan, defns: seq<OutputDefn>, passThrough: seq<string>, w: World,
                  cache: map<string, Bytes>, out: map<string, Bytes>, infos: map<Path, BuildScript.InvocationInfo>)
    requires forall i :: 0 <= i < |defns| ==> HasFileName(defns[i])
    ensures var m, d := MissFlow(p, defns, passThrough, w, cache, out, infos), DeferredAt(p.infoDir, w, infos);
            |m.steps| >= |d.1| && (forall k :: 0 <= k < |d.1| ==> m.steps[k] == d.1[k])
            && (|m.steps| > |d.1| ==> d.0.Completed? && m.steps[|d.1|] == RanRustc(passThrough))
  {
    var d := DeferredAt(p.infoDir, w, infos);
    if d.0.Completed? {
      var before := d.1 + [RanRustc(passThrough)];
      BuildKeepsSteps(p.unit.Name(), defns, before, w, cache, out);
      assert before[|d.1|] == RanRustc(passThrough);
    }
  }

  /** The build and push only ever add to the steps before it. */
  lemma BuildKeepsSteps(unit: string, defns: seq<OutputDefn>, before: seq<Step>, w: World,
                        cache: map<string, Bytes>, out: map<string, Bytes>)
    requires forall i :: 0 <= i < |defns| ==> HasFileName(defns[i])
    ensures var steps := BuildThenPush(unit, defns, before, w, cache, out).steps;
            |steps| >= |before| && forall k :: 0 <= k < |before| ==> steps[k] == before[k]
  {
    if Succeeded(w.rustc) {
      PushMeaning(unit, defns, before, cache, AfterRustc(out, w));
    }
  }

  /** On a miss, a deferred build script is the first thing started, and
      `rustc` is started after it only when it succeeded. */
  lemma DeferredRunsFirst(p: Plan, defns: seq<OutputDefn>, passThrough: seq<string>, w: World,
                          cache: map<string, Bytes>, out: map<string, Bytes>, infos: map<Path, BuildScript.InvocationInfo>)
    requires Named(p) && ListsOutputs(p, defns) && !AllCached(p, cache)
    requires InfoPath(p.infoDir) in infos
    ensures var e, info := CacheableFlow(p, defns, passThrough, w, cache, out, infos), infos[InfoPath(p.infoDir)];
            |e.steps| >= 1 && e.steps[0] == RanBuildScript(info.realBuildScriptPath)
            && (|e.steps| >= 2 ==> Succeeded(w.deferred) && e.steps[1] == RanRustc(passThrough))
  {
    MissOf(p, defns, passThrough, w, cache, out, infos);
    MissSteps(p, defns, passThrough, w, cache, out, infos);
    DeferredStarts(p.infoDir, w, infos);
  }

  // ------------------------------------------- where the deferred record lives

  /** A record is found under the directory it was written to, and only there. */
  lemma InfoPathInjective(a: Path, b: Path)
    ensures InfoPath(a) == InfoPath(b) <==> a == b
  {
    if InfoPath(a) == InfoPath(b) {
      assert a.comps == InfoPath(a).comps[..|a.comps|];
      assert b.comps == InfoPath(b).comps[..|b.comps|];
    }
  }

  /** `main` looks for a deferred record in the crate's `--out-dir`. */
  lemma PlanLooksInOutDir(args: Args, w: World)
    ensures PlanOf(args, w).Ok? ==> PlanOf(args, w).value.infoDir == PlanOf(args, w).value.unit.outDir
  {
  }

  /** As written, a miss looks for the record in the crate's own
      `--out-dir`, while a hit in build-script mode writes it in the
      script's `OUT_DIR`. When the two differ, as in Cargo's layout
      (`target/debug/deps` against `target/debug/build/<pkg>-<hash>/out`),
      the record a hit has just written is not found: the miss starts
      `rustc` first and never runs the real build script. */
  lemma LookupUnderOutDirMisses(env: map<string, string>, s: BuildScript.Setup, text: string,
                                linkTarget: Option<Path>, workDir: Option<Path>, t: Termination, stdout: Bytes,
                                stderr: string, before: map<Path, BuildScript.InvocationInfo>,
                                after: map<Path, BuildScript.InvocationInfo>,
                                p: Plan, defns: seq<OutputDefn>, passThrough: seq<string>, w: World,
                                cache: map<string, Bytes>, out: map<string, Bytes>)
    requires BuildScript.HitEffect(s, env, text, linkTarget, workDir, t, stdout, stderr, before, after)
    requires t == Completed
    requires p.infoDir == p.unit.outDir
    requires InfoPath(p.unit.outDir) !in before && p.unit.outDir != s.outDir
    requires Named(p) && ListsOutputs(p, defns) && !AllCached(p, cache)
    ensures InfoPath(s.outDir) in after
    ensures DeferredAt(p.infoDir, w, after) == (Completed, [])
    ensures var e := CacheableFlow(p, defns, passThrough, w, cache, out, after);
            |e.steps| >= 1 && e.steps[0] == RanRustc(passThrough)
            && forall k :: 0 <= k < |e.steps| ==> !e.steps[k].RanBuildScript?
  {
    InfoPathInjective(p.unit.outDir, s.outDir);
    assert InfoPath(p.infoDir) !in after;
    MissWithoutRecord(p, defns, passThrough, w, cache, out, after);
  }

  /** A miss with no record in the directory it looks in runs `rustc`,
      and then at most the push. */
  lemma MissWithoutRecord(p: Plan, defns: seq<OutputDefn>, passThrough: seq<string>, w: World,
                          cache: map<string, Bytes>, out: map<string, Bytes>, infos: map<Path, BuildScript.InvocationInfo>)
    requires Named(p) && ListsOutputs(p, defns) && !AllCached(p, cache)
    requires InfoPath(p.infoDir) !in infos
    ensures var e := CacheableFlow(p, defns, passThrough, w, cache, out, infos);
            e.steps == [RanRustc(passThrough)] || e.steps == [RanRustc(passThrough), Pushed(p.unit.Name())]
  {
    MissOf(p, defns, passThrough, w, cache, out, infos);
    BuildOnlyPushes(p.unit.Name(), defns, [RanRustc(passThrough)], w, cache, out);
  }

  /** The build and push add at most the push to the steps before it. */
  lemma BuildOnlyPushes(unit: string, defns: seq<OutputDefn>, before: seq<Step>, w: World,
                        cache: map<string, Bytes>, out: map<string, Bytes>)
    requires forall i :: 0 <= i < |defns| ==> HasFileName(defns[i])
    ensures var steps := BuildThenPush(unit, defns, before, w, cache, out).steps;
            steps == before || steps == before + [Pushed(unit)]
  {
    if Succeeded(w.rustc) {
      PushMeaning(unit, defns, before, cache, AfterRustc(out, w));
    }
  }

  /** With the lookup in the `OUT_DIR` Cargo passes to the crate's
      compilation, the record a hit wrote is found whatever the crate's
      `--out-dir`: a miss starts the real build script it names first, and
      `rustc` only after that script succeeded. */
  lemma LookupUnderInfoDirFinds(env: map<string, string>, s: BuildScript.Setup, text: string,
                                linkTarget: Option<Path>, workDir: Option<Path>, t: Termination, stdout: Bytes,
                                stderr: string, before: map<Path, BuildScript.InvocationInfo>,
                                after: map<Path, BuildScript.InvocationInfo>,
                                p: Plan, defns: seq<OutputDefn>, passThrough: seq<string>, w: World,
                                cache: map<string, Bytes>, out: map<string, Bytes>)
    requires BuildScript.HitEffect(s, env, text, linkTarget, workDir, t, stdout, stderr, before, after)
    requires t == Completed
    requires InfoDir(w.env) == Some(s.outDir)
    requires Named(p) && ListsOutputs(p, defns) && !AllCached(p, cache)
    ensures linkTarget.Some?
    ensures var e := CacheableFlow(p.(infoDir := InfoDir(w.env).value), defns, passThrough, w, cache, out, after);
            |e.steps| >= 1 && e.steps[0] == RanBuildScript(linkTarget.value)
            && (|e.steps| >= 2 ==> Succeeded(w.deferred) && e.steps[1] == RanRustc(passThrough))
  {
    var q := p.(infoDir := s.outDir);
    assert Named(q) && ListsOutputs(q, defns) && !AllCached(q, cache);
    DeferredRunsFirst(q, defns, passThrough, w, cache, out, after);
  }
}
