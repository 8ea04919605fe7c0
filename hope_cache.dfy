/** The local cache of `hope` (`LocalCache` in `hope/src/cache.rs`): a root
    directory holding crate outputs under their own file names, build-script
    stdout and stderr under `<unit>-output.txt` and `<unit>-stderr.txt`, and
    build-script `out/` directories as `<unit>-out.tar`. Pushing and pulling
    copy files by name; a copy stops at the first missing file and keeps
    what it already copied. */
module HopeCache {
  import opened Outcomes
  import opened Utf8
  import opened Paths
  import opened Rustc

  /** A directory, as the regular files directly inside it, by name. */
  class Dir {
    var files: map<string, Bytes>

    constructor (contents: map<string, Bytes>)
      ensures files == contents
    {
      files := contents;
    }
  }

  const DepsDirName: string := "deps"

  // Error messages.
  const NoTarballMsg: string := "Failed to open \"out/\" dir tarball"
  const NoOutDirParentMsg: string := "Missing parent of crate build/out dir"
  const NoBuildUnitParentMsg: string := "Missing parent of crate build dir"
  const NoBuildDirParentMsg: string := "Missing parent of build dir"

  function CopyFromCacheMsg(name: string): string {
    "Failed to copy file \"" + name + "\" from cache."
  }

  function CopyToCacheMsg(name: string): string {
    "Failed to copy file \"" + name + "\" to cache."
  }

  /** The error of reading back a build script's `stdout` or `stderr` file. */
  function ReadFailedMsg(stream: string, name: string): string {
    "Failed to read " + stream + " data file \"" + name + "\"."
  }

  // ------------------------------------------------------------- file names

  function StdoutFileName(unit: string): string {
    unit + "-output.txt"
  }

  function StderrFileName(unit: string): string {
    unit + "-stderr.txt"
  }

  function OutTarFileName(unit: string): string {
    unit + "-out.tar"
  }

  lemma SameSuffixInjective(a: string, b: string, suffix: string)
    requires a + suffix == b + suffix
    ensures a == b
  {
    assert a == (a + suffix)[..|a|];
    assert b == (b + suffix)[..|b|];
  }

  /** Each kind of cache file has its own name per unit, and no stdout,
      stderr or tarball file name belongs to another kind. */
  lemma CacheFileNamesDistinct(a: string, b: string)
    ensures StdoutFileName(a) == StdoutFileName(b) <==> a == b
    ensures StderrFileName(a) == StderrFileName(b) <==> a == b
    ensures OutTarFileName(a) == OutTarFileName(b) <==> a == b
    ensures StdoutFileName(a) != StderrFileName(b)
    ensures StdoutFileName(a) != OutTarFileName(b)
    ensures StderrFileName(a) != OutTarFileName(b)
  {
    if StdoutFileName(a) == StdoutFileName(b) { SameSuffixInjective(a, b, "-output.txt"); }
    if StderrFileName(a) == StderrFileName(b) { SameSuffixInjective(a, b, "-stderr.txt"); }
    if OutTarFileName(a) == OutTarFileName(b) { SameSuffixInjective(a, b, "-out.tar"); }
    var o, e, t := StdoutFileName(a), StderrFileName(b), OutTarFileName(b);
    if |a| == |b| {
      assert o[|a| + 1] == 'o' && e[|a| + 1] == 's';
    }
    if |o| == |t| {
      assert o[|o| - 2] == 'x' && t[|t| - 2] == 'a';
    }
    var t2 := OutTarFileName(b);
    if |StderrFileName(a)| == |t2| {
      assert StderrFileName(a)[|t2| - 2] == 'x' && t2[|t2| - 2] == 'a';
    }
  }

  /** The file names of a list of outputs of one unit, in order. */
  function FileNames(defns: seq<OutputDefn>, unit: string): (names: seq<string>)
    requires forall i :: 0 <= i < |defns| ==> HasFileName(defns[i])
    ensures |names| == |defns|
    ensures forall i :: 0 <= i < |defns| ==> names[i] == FileName(defns[i], unit)
  {
    seq(|defns|, i requires 0 <= i < |defns| => FileName(defns[i], unit))
  }

  /** The outputs of one unit land on distinct files exactly when they do
      not hold both the `lib` and the `rlib` link, which share a file. */
  lemma FileNamesDistinct(defns: seq<OutputDefn>, unit: string)
    requires forall i :: 0 <= i < |defns| ==> HasFileName(defns[i])
    requires Distinct(defns)
    ensures Distinct(FileNames(defns, unit)) <==>
              !(OutputDefn.Link(Lib) in defns && OutputDefn.Link(Rlib) in defns)
  {
    var names := FileNames(defns, unit);
    if OutputDefn.Link(Lib) in defns && OutputDefn.Link(Rlib) in defns {
      var i :| 0 <= i < |defns| && defns[i] == OutputDefn.Link(Lib);
      var j :| 0 <= j < |defns| && defns[j] == OutputDefn.Link(Rlib);
      assert names[i] == names[j];
      if j < i {
        assert !Distinct(names);
      }
    } else {
      forall i, j | 0 <= i < j < |names| ensures names[i] != names[j] {
        FileNamesCollide(defns[i], defns[j], unit);
      }
    }
  }

  // ------------------------------------------------------- copying by name

  /** Copy the named files from `src` into `dst`, one by one, stopping at the
      first name `src` lacks: the resulting `dst` and the missing name. */
  function CopyFiles(names: seq<string>, src: map<string, Bytes>, dst: map<string, Bytes>)
    : (map<string, Bytes>, Option<string>)
  {
    if |names| == 0 then (dst, None)
    else if names[0] !in src then (dst, Some(names[0]))
    else CopyFiles(names[1..], src, dst[names[0] := src[names[0]]])
  }

  /** The index of the first name `src` lacks, or the number of names. */
  function FirstMissing(names: seq<string>, src: map<string, Bytes>): (i: nat)
    ensures i <= |names|
    ensures forall j :: 0 <= j < i ==> names[j] in src
    ensures i < |names| ==> names[i] !in src
  {
    if |names| == 0 || names[0] !in src then 0
    else 1 + FirstMissing(names[1..], src)
  }

  /** `dst` with every one of `names` replaced by its file in `src`. */
  ghost function Overlay(dst: map<string, Bytes>, src: map<string, Bytes>, names: seq<string>): map<string, Bytes>
    requires forall j :: 0 <= j < |names| ==> names[j] in src
  {
    map k | k in dst.Keys + (set n | n in names) :: if k in names then src[k] else dst[k]
  }

  lemma OverlayStep(dst: map<string, Bytes>, src: map<string, Bytes>, names: seq<string>)
    requires |names| > 0
    requires forall j :: 0 <= j < |names| ==> names[j] in src
    ensures Overlay(dst[names[0] := src[names[0]]], src, names[1..]) == Overlay(dst, src, names)
  {
    assert names == [names[0]] + names[1..];
    assert forall k :: k in names <==> k == names[0] || k in names[1..];
  }

  /** What a copy leaves behind: every file before the first missing one is
      copied, the rest of `dst` is untouched, nothing is rolled back, and the
      missing file is reported. */
  lemma {:induction false} CopyFilesMeaning(names: seq<string>, src: map<string, Bytes>, dst: map<string, Bytes>)
    ensures CopyFiles(names, src, dst).1.None? <==> FirstMissing(names, src) == |names|
    ensures CopyFiles(names, src, dst).1.Some? ==>
              CopyFiles(names, src, dst).1.value == names[FirstMissing(names, src)]
    ensures CopyFiles(names, src, dst).0 == Overlay(dst, src, names[..FirstMissing(names, src)])
  {
    if |names| > 0 && names[0] in src {
      var dst' := dst[names[0] := src[names[0]]];
      CopyFilesMeaning(names[1..], src, dst');
      var i := FirstMissing(names, src);
      assert names[1..][..i - 1] == names[..i][1..];
      OverlayStep(dst, src, names[..i]);
    } else {
      assert names[..0] == [];
      assert Overlay(dst, src, []) == dst;
    }
  }

  // ------------------------------------------------------- the cache itself

  /** `LocalCache`: the files in the cache root, and the unpacked contents of
      each `<unit>-out.tar` it holds. */
  class LocalCache {
    var files: map<string, Bytes>
    var archives: map<string, map<string, Bytes>>

    /** `LocalCache::new`, over a root directory with these contents. */
    constructor (contents: map<string, Bytes>, tarballs: map<string, map<string, Bytes>>)
      ensures files == contents && archives == tarballs
    {
      files := contents;
      archives := tarballs;
    }

    /** The copy loop of `pull_crate_outputs`: copy each output's file from
        the cache into `dir`, failing at the first one the cache lacks. */
    method PullDefns(unit: string, defns: seq<OutputDefn>, dir: Dir) returns (r: Result<()>)
      requires forall i :: 0 <= i < |defns| ==> HasFileName(defns[i])
      modifies dir
      ensures dir.files == CopyFiles(FileNames(defns, unit), files, old(dir.files)).0
      ensures r.Ok? <==> CopyFiles(FileNames(defns, unit), files, old(dir.files)).1.None?
    {
      ghost var names := FileNames(defns, unit);
      var i := 0;
      while i < |defns|
        invariant 0 <= i <= |defns|
        invariant CopyFiles(names[i..], files, dir.files) == CopyFiles(names, files, old(dir.files))
      {
        var name := FileName(defns[i], unit);
        assert names[i..][0] == name && names[i..][1..] == names[i + 1..];
        if name !in files {
          return Err(CopyFromCacheMsg(name));
        }
        dir.files := dir.files[name := files[name]];
        i := i + 1;
      }
      return Ok(());
    }

    /** The copy loop of `push_crate_outputs`: copy each output's file from
        `dir` into the cache, overwriting, failing at the first one `dir`
        lacks. */
    method PushDefns(unit: string, defns: seq<OutputDefn>, dir: Dir) returns (r: Result<()>)
      requires forall i :: 0 <= i < |defns| ==> HasFileName(defns[i])
      modifies this
      ensures files == CopyFiles(FileNames(defns, unit), dir.files, old(files)).0
      ensures archives == old(archives)
      ensures r.Ok? <==> CopyFiles(FileNames(defns, unit), dir.files, old(files)).1.None?
    {
      ghost var names := FileNames(defns, unit);
      var i := 0;
      while i < |defns|
        invariant 0 <= i <= |defns|
        invariant archives == old(archives)
        invariant CopyFiles(names[i..], dir.files, files) == CopyFiles(names, dir.files, old(files))
      {
        var name := FileName(defns[i], unit);
        assert names[i..][0] == name && names[i..][1..] == names[i + 1..];
        if name !in dir.files {
          return Err(CopyToCacheMsg(name));
        }
        files := files[name := dir.files[name]];
        i := i + 1;
      }
      return Ok(());
    }

    /** `pull_crate_outputs`: the outputs of `output_defns`, pulled into the
        out dir. */
    method PullCrateOutputs(outDir: Dir, unit: string, crateTypes: set<CrateType>, outputTypes: set<OutputType>)
      returns (r: Result<()>)
      requires OutputType.Link in outputTypes ==> crateTypes !! {Staticlib, Dylib, Cdylib}
      modifies outDir
      ensures exists defns ::
                (forall d :: d in defns <==> Produces(crateTypes, outputTypes, d))
                && (forall i :: 0 <= i < |defns| ==> HasFileName(defns[i]))
                && outDir.files == CopyFiles(FileNames(defns, unit), files, old(outDir.files)).0
                && (r.Ok? <==> CopyFiles(FileNames(defns, unit), files, old(outDir.files)).1.None?)
    {
      var defns := OutputDefns(crateTypes, outputTypes);
      forall i | 0 <= i < |defns| ensures HasFileName(defns[i]) {
        assert Produces(crateTypes, outputTypes, defns[i]);
      }
      r := PullDefns(unit, defns, outDir);
    }

    /** `push_crate_outputs`: the outputs of `output_defns`, pushed from the
        out dir. */
    method PushCrateOutputs(outDir: Dir, unit: string, crateTypes: set<CrateType>, outputTypes: set<OutputType>)
      returns (r: Result<()>)
      requires OutputType.Link in outputTypes ==> crateTypes !! {Staticlib, Dylib, Cdylib}
      modifies this
      ensures archives == old(archives)
      ensures exists defns ::
                (forall d :: d in defns <==> Produces(crateTypes, outputTypes, d))
                && (forall i :: 0 <= i < |defns| ==> HasFileName(defns[i]))
                && files == CopyFiles(FileNames(defns, unit), outDir.files, old(files)).0
                && (r.Ok? <==> CopyFiles(FileNames(defns, unit), outDir.files, old(files)).1.None?)
    {
      var defns := OutputDefns(crateTypes, outputTypes);
      forall i | 0 <= i < |defns| ensures HasFileName(defns[i]) {
        assert Produces(crateTypes, outputTypes, defns[i]);
      }
      r := PushDefns(unit, defns, outDir);
    }

    /** `push_build_script_stdout`: create or truncate the stdout file and
        write the bytes. */
    method PushBuildScriptStdout(unit: string, content: Bytes)
      modifies this
      ensures files == old(files)[StdoutFileName(unit) := content]
      ensures archives == old(archives)
    {
      files := files[StdoutFileName(unit) := content];
    }

    /** `push_build_script_stderr`: the same for the stderr file. */
    method PushBuildScriptStderr(unit: string, content: Bytes)
      modifies this
      ensures files == old(files)[StderrFileName(unit) := content]
      ensures archives == old(archives)
    {
      files := files[StderrFileName(unit) := content];
    }

    /** `pull_build_script_stdout`. */
    function PullBuildScriptStdout(unit: string): Result<Bytes>
      reads this
    {
      ReadText(files, StdoutFileName(unit), "stdout")
    }

    /** `pull_build_script_stderr`. */
    function PullBuildScriptStderr(unit: string): Result<Bytes>
      reads this
    {
      ReadText(files, StderrFileName(unit), "stderr")
    }

    /** `push_build_script_out_dir`: write the out dir into `<unit>-out.tar`,
        then fail unless the out dir has a third ancestor for the log. */
    method PushBuildScriptOutDir(outDir: Path, out: Dir, unit: string) returns (r: Result<()>)
      modifies this
      ensures archives == old(archives)[OutTarFileName(unit) := out.files]
      ensures files == old(files)
      ensures r.Ok? <==> LogDir(outDir).Ok?
    {
      archives := archives[OutTarFileName(unit) := out.files];
      var logDir := LogDir(outDir);
      if logDir.Err? {
        return Err(logDir.msg);
      }
      return Ok(());
    }

    /** `pull_build_script_out_dir`: unpack `<unit>-out.tar` over the out
        dir, then fail unless the out dir has a third ancestor for the log. */
    method PullBuildScriptOutDir(outDir: Path, out: Dir, unit: string) returns (r: Result<()>)
      modifies out
      ensures OutTarFileName(unit) !in archives ==> r.Err? && out.files == old(out.files)
      ensures OutTarFileName(unit) in archives ==>
                out.files == old(out.files) + archives[OutTarFileName(unit)]
                && (r.Ok? <==> LogDir(outDir).Ok?)
    {
      var tar := OutTarFileName(unit);
      if tar !in archives {
        return Err(NoTarballMsg);
      }
      out.files := out.files + archives[tar];
      var logDir := LogDir(outDir);
      if logDir.Err? {
        return Err(logDir.msg);
      }
      return Ok(());
    }
  }

  /** `read_to_string` then `into_bytes`: the stored bytes, when the file
      exists and holds UTF-8 text. */
  function ReadText(files: map<string, Bytes>, name: string, stream: string): (r: Result<Bytes>)
    ensures r.Ok? <==> name in files && IsValid(files[name])
    ensures r.Ok? ==> r.value == files[name]
  {
    if name !in files then Err(ReadFailedMsg(stream, name))
    else
      match Decode(files[name])
      case None => Err(ReadFailedMsg(stream, name))
      case Some(text) =>
        EncodeDecode(files[name]);
        Ok(Encode(text))
  }

  /** A pushed stdout is pulled back byte for byte exactly when it is UTF-8;
      pushing a stderr, or another unit's stdout, leaves it alone. */
  lemma StdoutRoundTrip(files: map<string, Bytes>, unit: string, content: Bytes, other: string, more: Bytes)
    ensures var pushed := files[StdoutFileName(unit) := content];
            ReadText(pushed, StdoutFileName(unit), "stdout").Ok? <==> IsValid(content)
    ensures IsValid(content) ==> ReadText(files[StdoutFileName(unit) := content], StdoutFileName(unit), "stdout") == Ok(content)
    ensures ReadText(files[StderrFileName(other) := more], StdoutFileName(unit), "stdout") == ReadText(files, StdoutFileName(unit), "stdout")
    ensures other != unit ==>
              ReadText(files[StdoutFileName(other) := more], StdoutFileName(unit), "stdout") == ReadText(files, StdoutFileName(unit), "stdout")
  {
    CacheFileNamesDistinct(unit, other);
    CacheFileNamesDistinct(other, unit);
  }

  /** The log directory of a build-script out dir: `deps` next to `build`,
      three levels up. */
  function LogDir(outDir: Path): (r: Result<Path>)
    ensures r.Ok? <==> |outDir.comps| >= 3
    ensures r.Ok? ==> r.value == Path(outDir.absolute, outDir.comps[..|outDir.comps| - 3] + [DepsDirName])
  {
    match Parent(outDir)
    case None => Err(NoOutDirParentMsg)
    case Some(buildUnitDir) =>
      match Parent(buildUnitDir)
      case None => Err(NoBuildUnitParentMsg)
      case Some(buildDir) =>
        match Parent(buildDir)
        case None => Err(NoBuildDirParentMsg)
        case Some(profileDir) =>
          assert profileDir == Ancestor(outDir, |outDir.comps| - 3);
          assert IsComponent(DepsDirName) by { assert DepsDirName[0] == 'd'; }
          JoinComponent(profileDir, DepsDirName);
          Ok(JoinPath(profileDir, DepsDirName))
  }

  /** Pushing the crate outputs of one unit and then pulling them into
      another directory brings back every pushed file as it was. */
  lemma {:induction false} PushThenPull(names: seq<string>, dir: map<string, Bytes>, cache: map<string, Bytes>,
                                        target: map<string, Bytes>)
    requires CopyFiles(names, dir, cache).1.None?
    ensures CopyFiles(names, CopyFiles(names, dir, cache).0, target).1.None?
    ensures forall k :: k in names ==>
              var pulled := CopyFiles(names, CopyFiles(names, dir, cache).0, target).0;
              k in pulled && k in dir && pulled[k] == dir[k]
  {
    CopyFilesMeaning(names, dir, cache);
    var pushed := CopyFiles(names, dir, cache).0;
    assert names[..|names|] == names;
    forall j | 0 <= j < |names| ensures names[j] in pushed && pushed[names[j]] == dir[names[j]] {
      assert names[j] in names;
    }
    CopyFilesMeaning(names, pushed, target);
    var i := FirstMissing(names, pushed);
    assert i == |names|;
  }
}
