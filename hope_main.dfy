/** `main` of the `hope` binary (`hope/src/main.rs`): how an invocation is
    told apart (build script, pass-through, cacheable crate), the keys of a
    crate build unit, the `.fingerprint` walk-up, the rewrite of pulled
    dep-info files, and the pull-else-build-then-push flow. */
module HopeMain {
  import opened Outcomes
  import opened Text
  import opened Utf8
  import opened Paths
  import opened Process
  import opened Rustc
  import opened HopeCache
  import DepInfo
  import BuildScript

  /** The marker of Cargo's build directory the core looks for in paths. */
  const BuildMarker: string := "/build/"

  const ExtraFilenameKey: string := "extra-filename"
  const MetadataKey: string := "metadata"
  const PkgNameVar: string := "CARGO_PKG_NAME"

  // Error messages.
  const NoExeArgMsg: string := "Missing argument for path to this executable"
  const NoRustcArgMsg: string := "Missing argument for real `rustc` path"
  const NoOutDirMsg: string := "Missing out-dir; don't know where build artifacts are supposed to be"
  const NoCrateNameMsg: string := "Missing crate name argument"
  const NoExtraFilenameMsg: string := "Missing extra-filename codegen option"
  const NoMetadataMsg: string := "Missing metadata codegen option"
  const NoPkgNameMsg: string := "Missing 'CARGO_PKG_NAME' env var"
  const NoFingerprintMsg: string := "Reached root dir without finding \".fingerprint\" directory"
  const NoTimestampMsg: string := "Failed to get metadata for \"invoked.timestamp\" file; maybe it doesn't exist?"
  const NoColonInLineMsg: string := "Couldn't find ':' in line: "

  // ------------------------------------------------------------ dispatch

  /** How the executable was asked to run. */
  datatype Invocation =
    | AsBuildScript(calledAs: Path)
    | AsRustc(rustcPath: Path, passThrough: seq<string>)

  /** The start of `main`: a program name containing `/build/` with nothing
      after it means Cargo is running a build script that was replaced by
      this executable; otherwise the next argument is the real `rustc` and
      everything after it is passed through. */
  function Dispatch(argv: seq<string>): (r: Result<Invocation>)
    ensures argv == [] ==> r.Err?
    ensures r.Ok? && r.value.AsBuildScript? <==> |argv| == 1 && Contains(argv[0], BuildMarker)
    ensures r.Ok? && r.value.AsBuildScript? ==> r.value.calledAs == ParsePath(argv[0])
    ensures r.Ok? && r.value.AsRustc? <==> |argv| >= 2
    ensures r.Ok? && r.value.AsRustc? ==>
              argv == [argv[0], argv[1]] + r.value.passThrough && r.value.rustcPath == ParsePath(argv[1])
  {
    if |argv| == 0 then Err(NoExeArgMsg)
    else if Contains(argv[0], BuildMarker) && |argv| == 1 then Ok(AsBuildScript(ParsePath(argv[0])))
    else if |argv| == 1 then Err(NoRustcArgMsg)
    else
      assert argv == [argv[0], argv[1]] + argv[2..];
      Ok(AsRustc(ParsePath(argv[1]), argv[2..]))
  }

  /** Whether the crate goes through the cache: only a crate whose input
      file lies in a crates.io registry checkout does. */
  function Cacheable(args: Args): (b: bool)
    ensures b <==> args.input.Some? &&
                   exists i :: 0 <= i < |ParsePath(args.input.value).comps|
                               && StartsWith(ParsePath(args.input.value).comps[i], RegistryPrefix)
  {
    args.input.Some? && IsRegistryInput(args.input.value)
  }

  // ------------------------------------------------------- unit keys

  /** What `main` reads from the arguments and the environment before it
      touches the cache. */
  datatype Unit = Unit(outDir: Path, crateName: string, extraFilename: string, metadata: string, packageName: string)
  {
    /** `crate_unit_name`, the cache key. */
    function Name(): string {
      CrateUnitName(crateName, extraFilename)
    }
  }

  /** The unit keys, in the order `main` looks them up, failing at the first
      one that is missing. */
  function UnitOf(args: Args, env: map<string, string>): (r: Result<Unit>)
    ensures r.Ok? <==> args.outDir.Some? && args.crateName.Some?
                       && FirstKvValue(args.codegenOptions, ExtraFilenameKey).Some?
                       && FirstKvValue(args.codegenOptions, MetadataKey).Some?
                       && PkgNameVar in env
    ensures r.Ok? ==> r.value.outDir == ParsePath(args.outDir.value) && r.value.crateName == args.crateName.value
                      && Some(r.value.extraFilename) == FirstKvValue(args.codegenOptions, ExtraFilenameKey)
                      && Some(r.value.metadata) == FirstKvValue(args.codegenOptions, MetadataKey)
                      && r.value.packageName == env[PkgNameVar]
    ensures args.outDir.None? ==> r == Err(NoOutDirMsg)
    ensures args.outDir.Some? && args.crateName.None? ==> r == Err(NoCrateNameMsg)
  {
    if args.outDir.None? then Err(NoOutDirMsg)
    else if args.crateName.None? then Err(NoCrateNameMsg)
    else
      match FirstKvValue(args.codegenOptions, ExtraFilenameKey)
      case None => Err(NoExtraFilenameMsg)
      case Some(extra) =>
        match FirstKvValue(args.codegenOptions, MetadataKey)
        case None => Err(NoMetadataMsg)
        case Some(meta) =>
          if PkgNameVar !in env then Err(NoPkgNameMsg)
          else Ok(Unit(ParsePath(args.outDir.value), args.crateName.value, extra, meta, env[PkgNameVar]))
  }

  /** The cache key is the crate name followed by the `extra-filename`
      value: the `metadata` option, the out dir and the package name do not
      enter it. */
  lemma UnitKeyIgnoresMetadata(args: Args, other: Args, env: map<string, string>, env': map<string, string>)
    requires UnitOf(args, env).Ok? && UnitOf(other, env').Ok?
    requires args.crateName == other.crateName
    requires FirstKvValue(args.codegenOptions, ExtraFilenameKey) == FirstKvValue(other.codegenOptions, ExtraFilenameKey)
    ensures UnitOf(args, env).value.Name() == UnitOf(other, env').value.Name()
  {
  }

  // ------------------------------------------- the `.fingerprint` walk-up

  const FingerprintDirName: string := ".fingerprint"

  /** The `.fingerprint` directory inside the `k`-th ancestor of `p`
      (what `join(".fingerprint")` gives, by `JoinComponent`). */
  function FingerprintAt(p: Path, k: nat): Path
    requires k <= |p.comps|
  {
    Path(p.absolute, p.comps[..k] + [FingerprintDirName])
  }

  /** `path.join(".fingerprint")`. */
  method FingerprintIn(path: Path) returns (candidate: Path)
    ensures candidate == Path(path.absolute, path.comps + [FingerprintDirName])
  {
    assert IsComponent(FingerprintDirName) by {
      assert FingerprintDirName[0] == '.' && |FingerprintDirName| == 12;
    }
    candidate := JoinOne(path, FingerprintDirName);
  }

  /** The search of `get_invoked_timestamp_for_crate_build_unit`, from the
      `k`-th ancestor upwards: the first `.fingerprint` directory that
      exists, or an error once the root has been tried. */
  function FingerprintSearch(p: Path, existing: set<Path>, k: nat): Result<Path>
    requires k <= |p.comps|
  {
    if FingerprintAt(p, k) in existing then Ok(FingerprintAt(p, k))
    else if k == 0 then Err(NoFingerprintMsg)
    else FingerprintSearch(p, existing, k - 1)
  }

  /** The search finds a `.fingerprint` directory exactly when one of the
      ancestors has one, and then it finds the one of the deepest such
      ancestor. */
  lemma {:induction false} FingerprintSearchMeaning(p: Path, existing: set<Path>, k: nat)
    requires k <= |p.comps|
    ensures FingerprintSearch(p, existing, k).Ok? <==> exists j :: 0 <= j <= k && FingerprintAt(p, j) in existing
    ensures FingerprintSearch(p, existing, k).Ok? ==>
              exists j :: 0 <= j <= k && FingerprintSearch(p, existing, k).value == FingerprintAt(p, j)
                          && FingerprintAt(p, j) in existing
                          && forall i :: j < i <= k ==> FingerprintAt(p, i) !in existing
  {
    if FingerprintAt(p, k) !in existing && k > 0 {
      FingerprintSearchMeaning(p, existing, k - 1);
    }
  }

  /** The walk-up loop: starting at the out dir, move to the parent until
      a `.fingerprint` directory exists next to the current path. */
  method FindFingerprintDir(outDir: Path, existing: set<Path>) returns (r: Result<Path>)
    ensures r == FingerprintSearch(outDir, existing, |outDir.comps|)
  {
    var path := outDir;
    ghost var k: nat := |outDir.comps|;
    while true
      invariant k <= |outDir.comps| && path == Ancestor(outDir, k)
      invariant FingerprintSearch(outDir, existing, k) == FingerprintSearch(outDir, existing, |outDir.comps|)
      decreases k
    {
      var candidate := FingerprintIn(path);
      if candidate in existing {
        return Ok(candidate);
      }
      var parent := Parent(path);
      if parent.None? {
        return Err(NoFingerprintMsg);
      }
      assert outDir.comps[..k][..k - 1] == outDir.comps[..k - 1];
      path := parent.value;
      k := k - 1;
    }
  }

  /** `<fingerprint dir>/<package>-<metadata>/invoked.timestamp`. */
  function InvokedTimestampFile(fingerprintDir: Path, unit: Unit): Path {
    JoinPath(JoinPath(fingerprintDir, unit.packageName + "-" + unit.metadata), BuildScript.InvokedTimestampName)
  }

  /** The file whose modification time `main` gives to every file it
      writes: found through the walk-up; it must exist. */
  function InvokedTimestampPath(unit: Unit, existing: set<Path>): (r: Result<Path>)
    ensures r.Ok? ==> r.value in existing
    ensures r.Ok? <==> FingerprintSearch(unit.outDir, existing, |unit.outDir.comps|).Ok?
                       && InvokedTimestampFile(FingerprintSearch(unit.outDir, existing, |unit.outDir.comps|).value, unit) in existing
  {
    match FingerprintSearch(unit.outDir, existing, |unit.outDir.comps|)
    case Err(m) => Err(m)
    case Ok(dir) =>
      var file := InvokedTimestampFile(dir, unit);
      if file in existing then Ok(file)
      else Err(NoTimestampMsg)
  }

  /** `get_invoked_timestamp_for_crate_build_unit`, up to reading the
      modification time. */
  method GetInvokedTimestamp(unit: Unit, existing: set<Path>) returns (r: Result<Path>)
    ensures r == InvokedTimestampPath(unit, existing)
  {
    var dir := FindFingerprintDir(unit.outDir, existing);
    if dir.Err? {
      return Err(dir.msg);
    }
    var file := InvokedTimestampFile(dir.value, unit);
    if file !in existing {
      return Err(NoTimestampMsg);
    }
    return Ok(file);
  }

  // ------------------------------------------------------- parse loops

  const CrateTypeContext: string := "Found unexpected output type in '--crate-type' argument"
  const EmitContext: string := "Found unexpected output type in '--emit' argument"

  /** The `for` loops that parse each `--crate-type` and `--emit` value and
      insert it into a set, returning at the first value that does not parse. */
  method CollectParsed<T>(strs: seq<string>, parse: string -> Result<T>, context: string) returns (r: Result<set<T>>)
    ensures r == ParsedSet(strs, parse, context)
  {
    var acc: set<T> := {};
    var i := 0;
    while i < |strs|
      invariant 0 <= i <= |strs|
      invariant ParsedSet(strs[..i], parse, context) == Ok(acc)
    {
      assert strs[..i + 1][..i] == strs[..i];
      var v := parse(strs[i]);
      if v.Err? {
        ParsedSetPrefixErr(strs, parse, context, i + 1);
        return Err(context);
      }
      acc := acc + {v.value};
      i := i + 1;
    }
    TakeAll(strs);
    return Ok(acc);
  }

  /** Once a prefix fails to parse, so does the whole list. */
  lemma {:induction false} ParsedSetPrefixErr<T>(strs: seq<string>, parse: string -> Result<T>, context: string, k: nat)
    requires k <= |strs|
    requires ParsedSet(strs[..k], parse, context) == Err(context)
    ensures ParsedSet(strs, parse, context) == Err(context)
    decreases |strs| - k
  {
    if k < |strs| {
      assert strs[..k + 1][..k] == strs[..k];
      ParsedSetPrefixErr(strs, parse, context, k + 1);
    } else {
      TakeAll(strs);
    }
  }

  // ------------------------------------------------------ dep-info rewrite

  /** A path inside Cargo's build directory, by the `contains("/build/")` test. */
  predicate InBuildDir(s: string) {
    Contains(s, BuildMarker)
  }

  predicate OutsideBuildDir(s: string) {
    !InBuildDir(s)
  }

  /** The dependencies as written after the `:`, each preceded by a space. */
  function DepsText(deps: seq<string>): string {
    if |deps| == 0 then [] else DepsText(deps[..|deps| - 1]) + " " + deps[|deps| - 1]
  }

  /** What the rewrite writes for one line of a pulled dep-info file (no
      line when the target is in the build directory), or its error. A line
      is read exactly as `DepInfo::parse` reads it. */
  function RewriteLine(line: string): Result<Option<string>> {
    match DepInfo.ClassifyLine(line)
    case Skip => Ok(Some(Trim(line)))
    case NoColon => Err(NoColonInLineMsg + Trim(line))
    case Rule(target, deps) =>
      if InBuildDir(target) then Ok(None)
      else Ok(Some(target + ":" + DepsText(Filter(OutsideBuildDir, deps))))
  }

  /** The lines written so far, then what one more line adds. */
  function Then(acc: Result<seq<string>>, one: Result<Option<string>>): Result<seq<string>> {
    match acc
    case Err(m) => Err(m)
    case Ok(outs) =>
      match one
      case Err(m) => Err(m)
      case Ok(None) => Ok(outs)
      case Ok(Some(o)) => Ok(outs + [o])
  }

  /** The lines the rewrite writes, failing at the first line without `:`. */
  function Rewrite(ls: seq<string>): Result<seq<string>> {
    if |ls| == 0 then Ok([]) else Then(Rewrite(ls[..|ls| - 1]), RewriteLine(ls[|ls| - 1]))
  }

  lemma RewriteSnoc(ls: seq<string>, i: nat)
    requires i < |ls|
    ensures Rewrite(ls[..i + 1]) == Then(Rewrite(ls[..i]), RewriteLine(ls[i]))
  {
    assert ls[..i + 1][..i] == ls[..i];
  }

  /** The new contents of the dep-info file. */
  function RewriteText(text: string): Result<string> {
    match Rewrite(Lines(text))
    case Err(m) => Err(m)
    case Ok(outs) => Ok(Unlines(outs))
  }

  /** The rewrite of a cache hit: the pulled `.d` file read line by line,
      each line written back trimmed, without the targets and dependencies
      that lie in Cargo's build directory. */
  method RewriteDepInfo(text: string) returns (r: Result<string>)
    ensures r == RewriteText(text)
  {
    var lines := Lines(text);
    r := RewriteLines(lines);
  }

  /** The loop over the lines. */
  method RewriteLines(lines: seq<string>) returns (r: Result<string>)
    ensures Rewrite(lines).Err? ==> r == Err(Rewrite(lines).msg)
    ensures Rewrite(lines).Ok? ==> r == Ok(Unlines(Rewrite(lines).value))
  {
    var out: string := [];
    ghost var written: seq<string> := [];
    var i := 0;
    while i < |lines|
      invariant 0 <= i <= |lines|
      invariant Rewrite(lines[..i]) == Ok(written) && out == Unlines(written)
    {
      var one := RewriteOne(lines[i], out);
      RewriteSnoc(lines, i);
      if one.Err? {
        RewritePrefixErr(lines, i + 1);
        return Err(one.msg);
      }
      if one.value.0.Some? {
        UnlinesSnoc(written, one.value.0.value);
        written := written + [one.value.0.value];
      }
      out := one.value.1;
      i := i + 1;
    }
    TakeAll(lines);
    return Ok(out);
  }

  /** One turn of the loop: what the line becomes, and the file written so
      far with it. */
  method RewriteOne(line: string, out: string) returns (r: Result<(Option<string>, string)>)
    ensures RewriteLine(line).Err? ==> r == Err(RewriteLine(line).msg)
    ensures RewriteLine(line) == Ok(None) ==> r == Ok((None, out))
    ensures RewriteLine(line).Ok? && RewriteLine(line).value.Some? ==>
              r == Ok((RewriteLine(line).value, out + RewriteLine(line).value.value + "\n"))
  {
    var t := Trim(line);
    if t == [] || t[0] == '#' {
      assert RewriteLine(line) == Ok(Some(t));
      return Ok((Some(t), out + t + "\n"));
    }
    var split := SplitOnce(t, ':');
    if split.None? {
      return Err(NoColonInLineMsg + t);
    }
    var (left, rest) := split.value;
    if Contains(left, BuildMarker) {
      return Ok((None, out));
    }
    var deps := DepInfo.Deps(rest);
    assert DepInfo.ClassifyLine(line) == DepInfo.Rule(left, deps);
    var o := WriteDeps(left + ":", deps);
    assert RewriteLine(line) == Ok(Some(o));
    return Ok((Some(o), out + o + "\n"));
  }

  /** The inner loop: write ` dep` for each dependency outside the build
      directory. */
  method WriteDeps(out: string, deps: seq<string>) returns (out': string)
    ensures out' == out + DepsText(Filter(OutsideBuildDir, deps))
  {
    out' := out;
    var j := 0;
    while j < |deps|
      invariant 0 <= j <= |deps|
      invariant out' == out + DepsText(Filter(OutsideBuildDir, deps[..j]))
    {
      if OutsideBuildDir(deps[j]) {
        out' := out' + " " + deps[j];
      }
      assert out' == out + DepsText(Filter(OutsideBuildDir, deps[..j + 1])) by {
        WriteDepsStep(deps, j);
      }
      j := j + 1;
    }
    TakeAll(deps);
  }

  lemma WriteDepsStep(deps: seq<string>, j: nat)
    requires j < |deps|
    ensures DepsText(Filter(OutsideBuildDir, deps[..j + 1])) ==
              DepsText(Filter(OutsideBuildDir, deps[..j])) + (if OutsideBuildDir(deps[j]) then " " + deps[j] else [])
  {
    var kept := Filter(OutsideBuildDir, deps[..j]);
    FilterStep(OutsideBuildDir, deps, j);
    if OutsideBuildDir(deps[j]) {
      assert (kept + [deps[j]])[..|kept|] == kept;
    } else {
      assert kept + [] == kept;
    }
  }

  /** A failure on a prefix of the lines is the failure of the whole file. */
  lemma {:induction false} RewritePrefixErr(ls: seq<string>, k: nat)
    requires k <= |ls|
    requires Rewrite(ls[..k]).Err?
    ensures Rewrite(ls) == Rewrite(ls[..k])
    decreases |ls| - k
  {
    if k < |ls| {
      assert ls[..k + 1][..k] == ls[..k];
      RewritePrefixErr(ls, k + 1);
    } else {
      TakeAll(ls);
    }
  }

  // ----------------------------- what the wrapper's parser reads back

  /** A dependency name with no whitespace in it. */
  predicate Spaceless(d: string) {
    forall k :: 0 <= k < |d| ==> !IsWhitespace(d[k])
  }

  /** The dependencies of a rule line hold no whitespace: spaces only
      separate them. */
  predicate TidyDeps(line: string) {
    match DepInfo.ClassifyLine(line)
    case Rule(_, deps) => forall j :: 0 <= j < |deps| ==> Spaceless(deps[j])
    case _ => true
  }

  /** A parsed dep-info file without the targets in Cargo's build
      directory, and without the dependencies there. */
  function Project(files: map<string, seq<string>>): map<string, seq<string>> {
    map t | t in files && OutsideBuildDir(t) :: Filter(OutsideBuildDir, files[t])
  }

  lemma ProjectUpdate(files: map<string, seq<string>>, t: string, ds: seq<string>)
    ensures InBuildDir(t) ==> Project(files[t := ds]) == Project(files)
    ensures OutsideBuildDir(t) ==> Project(files[t := ds]) == Project(files)[t := Filter(OutsideBuildDir, ds)]
  {
    var m := files[t := ds];
    forall u | u != t ensures (u in Project(m) <==> u in Project(files)) && (u in Project(m) ==> Project(m)[u] == Project(files)[u]) {
      assert u in m <==> u in files;
    }
  }

  lemma {:induction false} DepsTextIsJoin(ds: seq<string>)
    requires |ds| >= 1
    ensures DepsText(ds) == " " + Join(ds, ' ')
  {
    var init := ds[..|ds| - 1];
    if |init| == 0 {
      assert DepsText(init) == [];
      assert Join(ds, ' ') == ds[0];
    } else {
      DepsTextIsJoin(init);
      JoinSnoc(init, ds[|ds| - 1], ' ');
      assert init + [ds[|ds| - 1]] == ds;
    }
  }

  lemma JoinEdges(ds: seq<string>)
    requires |ds| >= 1 && ds[0] != [] && ds[|ds| - 1] != []
    ensures var j := Join(ds, ' ');
            |j| > 0 && j[0] == ds[0][0] && j[|j| - 1] == ds[|ds| - 1][|ds[|ds| - 1]| - 1]
  {
    if |ds| > 1 {
      var init := ds[..|ds| - 1];
      JoinSnoc(init, ds[|ds| - 1], ' ');
      assert init + [ds[|ds| - 1]] == ds;
      assert Join(ds, ' ') == ds[0] + [' '] + Join(ds[1..], ' ');
    }
  }

  lemma {:induction false} DepsTextNoNewline(ds: seq<string>)
    requires forall i :: 0 <= i < |ds| ==> '\n' !in ds[i]
    ensures '\n' !in DepsText(ds)
  {
    if |ds| > 0 {
      DepsTextNoNewline(ds[..|ds| - 1]);
    }
  }

  /** The dependencies as written are read back as they were. */
  lemma DepsOfDepsText(ds: seq<string>)
    requires forall i :: 0 <= i < |ds| ==> ds[i] != [] && Spaceless(ds[i])
    ensures DepInfo.Deps(DepsText(ds)) == ds
  {
    if |ds| == 0 {
      NoDeps();
    } else {
      DepsOfSome(ds);
    }
  }

  lemma DepsOfSome(ds: seq<string>)
    requires |ds| >= 1
    requires forall i :: 0 <= i < |ds| ==> ds[i] != [] && Spaceless(ds[i])
    ensures DepInfo.Deps(DepsText(ds)) == ds
  {
    TrimDepsText(ds);
    SpacelessNoSpace(ds);
    DepsOfJoined(DepsText(ds), ds);
  }

  lemma SpacelessNoSpace(ds: seq<string>)
    requires forall i :: 0 <= i < |ds| ==> Spaceless(ds[i])
    ensures forall i :: 0 <= i < |ds| ==> ' ' !in ds[i]
  {
    forall i | 0 <= i < |ds| ensures ' ' !in ds[i] {
      assert IsWhitespace(' ');
    }
  }

  lemma DepsOfJoined(x: string, ds: seq<string>)
    requires |ds| >= 1 && Trim(x) == Join(ds, ' ')
    requires forall i :: 0 <= i < |ds| ==> ds[i] != [] && ' ' !in ds[i]
    ensures DepInfo.Deps(x) == ds
  {
    JoinThenSplit(ds, ' ');
    FilterAll(DepInfo.NonEmpty, ds);
  }

  lemma NoDeps()
    ensures DepInfo.Deps([]) == []
  {
    assert Trim([]) == [];
    assert SplitOn([], ' ') == [[]];
    assert Filter(DepInfo.NonEmpty, [[]]) == Filter(DepInfo.NonEmpty, []) + [];
  }

  lemma TrimDepsText(ds: seq<string>)
    requires |ds| >= 1
    requires forall i :: 0 <= i < |ds| ==> ds[i] != [] && Spaceless(ds[i])
    ensures Trim(DepsText(ds)) == Join(ds, ' ')
  {
    var j := Join(ds, ' ');
    DepsTextIsJoin(ds);
    JoinEdges(ds);
    assert !IsWhitespace(ds[0][0]);
    assert !IsWhitespace(ds[|ds| - 1][|ds[|ds| - 1]| - 1]);
    TrimAround(" ", j, []);
    assert " " + j + [] == " " + j;
  }

  /** A dependency as the rewrite writes it: non-empty, with no whitespace
      and so no newline. */
  predicate TidyDep(d: string) {
    d != [] && Spaceless(d) && '\n' !in d
  }

  predicate TidyList(ds: seq<string>) {
    forall i :: 0 <= i < |ds| ==> TidyDep(ds[i])
  }

  /** The dependencies kept on a rewritten line: non-empty, no whitespace. */
  lemma KeptDepsTidy(ds: seq<string>)
    requires forall i :: 0 <= i < |ds| ==> ds[i] != [] && Spaceless(ds[i])
    ensures TidyList(Filter(OutsideBuildDir, ds))
  {
    forall i | 0 <= i < |ds| ensures TidyDep(ds[i]) {
      assert IsWhitespace('\n');
    }
    FilterPreserves(OutsideBuildDir, TidyDep, ds);
  }

  /** The target of a rule line: no newline, no `:`, and it starts the
      trimmed line. */
  lemma RuleTargetFacts(line: string, target: string, rest: string)
    requires '\n' !in line
    requires Trim(line) != [] && Trim(line)[0] != '#' && SplitOnce(Trim(line), ':') == Some((target, rest))
    ensures '\n' !in target && ':' !in target
    ensures target != [] ==> !IsWhitespace(target[0]) && target[0] != '#'
  {
    var t := Trim(line);
    TrimEdges(line);
    assert t == target + [':'] + rest;
    assert forall c :: c in target ==> c in t;
    assert target != [] ==> target[0] == t[0];
  }

  /** A target and tidy dependencies, written as a rule line, read back as
      that rule. */
  lemma RuleLineOf(target: string, kept: seq<string>)
    requires '\n' !in target && ':' !in target
    requires target != [] ==> !IsWhitespace(target[0]) && target[0] != '#'
    requires TidyList(kept)
    ensures var o := target + ":" + DepsText(kept);
            WrittenLine(o) && DepInfo.ClassifyLine(o) == DepInfo.Rule(target, kept)
  {
    var dt := DepsText(kept);
    var o := target + ":" + dt;
    DepsTextNoNewline(kept);
    RuleLineEdges(target, kept);
    assert o == target + [':'] + dt;
    ClassifyWritten(o, target, dt);
    DepsOfDepsText(kept);
  }

  /** A line with no whitespace or `#` at its edges and a first `:` is read
      as the rule it spells. */
  lemma ClassifyWritten(o: string, target: string, dt: string)
    requires o == target + [':'] + dt && ':' !in target
    requires !IsWhitespace(o[0]) && o[0] != '#' && !IsWhitespace(o[|o| - 1])
    ensures DepInfo.ClassifyLine(o) == DepInfo.Rule(target, DepInfo.Deps(dt))
  {
    TrimOfTrimmed(o);
    SplitOnceUnique(target, dt, ':');
  }

  /** A rule line as written starts and ends with no whitespace and no `#`. */
  lemma RuleLineEdges(target: string, kept: seq<string>)
    requires target != [] ==> !IsWhitespace(target[0]) && target[0] != '#'
    requires forall i :: 0 <= i < |kept| ==> kept[i] != [] && Spaceless(kept[i])
    ensures var o := target + ":" + DepsText(kept);
            !IsWhitespace(o[0]) && o[0] != '#' && !IsWhitespace(o[|o| - 1])
  {
    var dt := DepsText(kept);
    var o := target + ":" + dt;
    if kept != [] {
      DepsTextIsJoin(kept);
      JoinEdges(kept);
      assert dt[|dt| - 1] == kept[|kept| - 1][|kept[|kept| - 1]| - 1];
      assert o[|o| - 1] == dt[|dt| - 1];
    }
    assert target != [] ==> o[0] == target[0];
  }

  /** A rewritten blank line or comment reads back as one. */
  lemma SkipReparse(line: string)
    requires '\n' !in line
    requires Trim(line) == [] || Trim(line)[0] == '#'
    ensures WrittenLine(Trim(line)) && DepInfo.ClassifyLine(Trim(line)).Skip?
  {
    TrimEdges(line);
    TrimOfTrimmed(Trim(line));
  }

  /** A line as the rewrite writes it: one line, not ending in whitespace
      (so in particular not in `\r`). */
  predicate WrittenLine(o: string) {
    '\n' !in o && (o == [] || !IsWhitespace(o[|o| - 1]))
  }

  predicate AllWritten(outs: seq<string>) {
    forall i :: 0 <= i < |outs| ==> WrittenLine(outs[i])
  }

  /** Lines fit for the wrapper's parser to read back: one line each, and
      rule dependencies free of whitespace. */
  predicate ReadyLines(ls: seq<string>) {
    forall i :: 0 <= i < |ls| ==> '\n' !in ls[i] && TidyDeps(ls[i])
  }

  lemma ParseLinesSnoc(ls: seq<string>, l: string)
    ensures DepInfo.ParseLines(ls + [l]) == DepInfo.Step(DepInfo.ParseLines(ls), DepInfo.ClassifyLine(l))
  {
    DepInfo.ClassifyAppend(ls, l);
    assert (DepInfo.Classify(ls) + [DepInfo.ClassifyLine(l)])[..|ls|] == DepInfo.Classify(ls);
  }

  /** One line more: the rewrite's output, parsed, still holds the projection
      of what the input parses to. */
  lemma ReparseStep(outs: seq<string>, files: map<string, seq<string>>, l: string)
    requires '\n' !in l && TidyDeps(l)
    requires DepInfo.ParseLines(outs) == Ok(Project(files)) && AllWritten(outs)
    requires RewriteLine(l).Ok?
    ensures DepInfo.Step(Ok(files), DepInfo.ClassifyLine(l)).Ok?
    ensures AllWritten(Then(Ok(outs), RewriteLine(l)).value)
    ensures DepInfo.ParseLines(Then(Ok(outs), RewriteLine(l)).value) ==
              Ok(Project(DepInfo.Step(Ok(files), DepInfo.ClassifyLine(l)).value))
  {
    var t := Trim(l);
    if t == [] || t[0] == '#' {
      SkipStep(outs, files, l);
    } else {
      var (target, rest) := SplitOnce(t, ':').value;
      RuleStep(outs, files, l, target, rest);
    }
  }

  lemma SkipStep(outs: seq<string>, files: map<string, seq<string>>, l: string)
    requires '\n' !in l && (Trim(l) == [] || Trim(l)[0] == '#')
    requires DepInfo.ParseLines(outs) == Ok(Project(files)) && AllWritten(outs)
    ensures RewriteLine(l) == Ok(Some(Trim(l))) && DepInfo.ClassifyLine(l) == DepInfo.Skip
    ensures AllWritten(outs + [Trim(l)])
    ensures DepInfo.ParseLines(outs + [Trim(l)]) == Ok(Project(files))
  {
    SkipReparse(l);
    ParseLinesSnoc(outs, Trim(l));
    AllWrittenSnoc(outs, Trim(l));
  }

  lemma RuleStep(outs: seq<string>, files: map<string, seq<string>>, l: string, target: string, rest: string)
    requires '\n' !in l && TidyDeps(l)
    requires Trim(l) != [] && Trim(l)[0] != '#' && SplitOnce(Trim(l), ':') == Some((target, rest))
    requires DepInfo.ParseLines(outs) == Ok(Project(files)) && AllWritten(outs)
    ensures DepInfo.ClassifyLine(l) == DepInfo.Rule(target, DepInfo.Deps(rest))
    ensures var outs' := if InBuildDir(target) then outs
                         else outs + [target + ":" + DepsText(Filter(OutsideBuildDir, DepInfo.Deps(rest)))];
            Then(Ok(outs), RewriteLine(l)) == Ok(outs') && AllWritten(outs') &&
            DepInfo.ParseLines(outs') == Ok(Project(files[target := DepInfo.Deps(rest)]))
  {
    var ds := DepInfo.Deps(rest);
    DepInfo.ClassifyRule(l, target, rest);
    assert forall j :: 0 <= j < |ds| ==> ds[j] != [] && Spaceless(ds[j]);
    KeptDepsTidy(ds);
    RuleTargetFacts(l, target, rest);
    RuleOut(outs, files, target, ds);
  }

  /** A rule, written or dropped, read back. */
  lemma RuleOut(outs: seq<string>, files: map<string, seq<string>>, target: string, ds: seq<string>)
    requires '\n' !in target && ':' !in target
    requires target != [] ==> !IsWhitespace(target[0]) && target[0] != '#'
    requires TidyList(Filter(OutsideBuildDir, ds))
    requires DepInfo.ParseLines(outs) == Ok(Project(files)) && AllWritten(outs)
    ensures var outs' := if InBuildDir(target) then outs
                         else outs + [target + ":" + DepsText(Filter(OutsideBuildDir, ds))];
            AllWritten(outs') && DepInfo.ParseLines(outs') == Ok(Project(files[target := ds]))
  {
    ProjectUpdate(files, target, ds);
    if OutsideBuildDir(target) {
      RuleKept(outs, Project(files), target, Filter(OutsideBuildDir, ds));
    }
  }

  lemma RuleKept(outs: seq<string>, projected: map<string, seq<string>>, target: string, kept: seq<string>)
    requires '\n' !in target && ':' !in target
    requires target != [] ==> !IsWhitespace(target[0]) && target[0] != '#'
    requires TidyList(kept)
    requires DepInfo.ParseLines(outs) == Ok(projected) && AllWritten(outs)
    ensures var o := target + ":" + DepsText(kept);
            AllWritten(outs + [o]) && DepInfo.ParseLines(outs + [o]) == Ok(projected[target := kept])
  {
    var o := target + ":" + DepsText(kept);
    RuleLineOf(target, kept);
    ParseLinesSnoc(outs, o);
    AllWrittenSnoc(outs, o);
  }

  lemma AllWrittenSnoc(outs: seq<string>, o: string)
    requires AllWritten(outs) && WrittenLine(o)
    ensures AllWritten(outs + [o])
  {
    assert forall i :: 0 <= i < |outs| ==> (outs + [o])[i] == outs[i];
  }

  /** The wrapper's parser reads the rewritten lines back as the pulled
      file's rules without those in Cargo's build directory, and without the
      dependencies there. */
  lemma {:induction false} RewriteReparse(ls: seq<string>)
    requires ReadyLines(ls) && Rewrite(ls).Ok?
    ensures DepInfo.ParseLines(ls).Ok?
    ensures AllWritten(Rewrite(ls).value)
    ensures DepInfo.ParseLines(Rewrite(ls).value) == Ok(Project(DepInfo.ParseLines(ls).value))
  {
    if |ls| == 0 {
      assert DepInfo.Classify([]) == [];
      assert Project(map[]) == map[];
    } else {
      var init := ls[..|ls| - 1];
      assert Rewrite(init).Ok?;
      assert ReadyLines(init);
      RewriteReparse(init);
      ReparseSnoc(ls);
    }
  }

  /** The inductive step of `RewriteReparse`, from all lines but the last to
      all lines. */
  lemma ReparseSnoc(ls: seq<string>)
    requires |ls| > 0 && ReadyLines(ls) && Rewrite(ls).Ok?
    requires var init := ls[..|ls| - 1];
             Rewrite(init).Ok? && DepInfo.ParseLines(init).Ok? && AllWritten(Rewrite(init).value)
             && DepInfo.ParseLines(Rewrite(init).value) == Ok(Project(DepInfo.ParseLines(init).value))
    ensures DepInfo.ParseLines(ls).Ok?
    ensures AllWritten(Rewrite(ls).value)
    ensures DepInfo.ParseLines(Rewrite(ls).value) == Ok(Project(DepInfo.ParseLines(ls).value))
  {
    var init := ls[..|ls| - 1];
    var l := ls[|ls| - 1];
    DepInfo.FoldSnoc(ls, |ls| - 1);
    assert ls[..|ls|] == ls;
    ReparseStep(Rewrite(init).value, DepInfo.ParseLines(init).value, l);
  }

  /** The rewrite, from a pulled file's text to the text written back: the
      wrapper's parser reads the new text as it read the old one, without
      the targets and dependencies in Cargo's build directory. */
  lemma RewriteTextReparse(text: string)
    requires forall i :: 0 <= i < |Lines(text)| ==> TidyDeps(Lines(text)[i])
    requires RewriteText(text).Ok?
    ensures DepInfo.ParseLines(Lines(text)).Ok?
    ensures DepInfo.ParseLines(Lines(RewriteText(text).value)) == Ok(Project(DepInfo.ParseLines(Lines(text)).value))
  {
    var ls := Lines(text);
    assert ReadyLines(ls);
    RewriteReparse(ls);
    var outs := Rewrite(ls).value;
    forall i | 0 <= i < |outs| ensures '\n' !in outs[i] && (outs[i] == [] || outs[i][|outs[i]| - 1] != '\r') {
      assert WrittenLine(outs[i]);
      assert IsWhitespace('\r');
    }
    LinesOfUnlines(outs);
  }

  /** The rewrite fails exactly where the wrapper's parser fails: on a line
      that is neither blank, nor a comment, nor holds a `:`. */
  lemma {:induction false} RewriteFailsLikeParse(ls: seq<string>)
    ensures Rewrite(ls).Err? <==> DepInfo.ParseLines(ls).Err?
  {
    if |ls| > 0 {
      var init, l := ls[..|ls| - 1], ls[|ls| - 1];
      RewriteFailsLikeParse(init);
      ParseLinesSnoc(init, l);
      assert init + [l] == ls;
      FailStep(Rewrite(init), DepInfo.ParseLines(init), l);
    }
  }

  lemma FailStep(acc: Result<seq<string>>, parsed: Result<map<string, seq<string>>>, l: string)
    requires acc.Err? <==> parsed.Err?
    ensures Then(acc, RewriteLine(l)).Err? <==> DepInfo.Step(parsed, DepInfo.ClassifyLine(l)).Err?
  {
  }
}
