# hope: a Dafny model of a `rustc` wrapper that caches registry crates

`hope` is installed as Cargo's `RUSTC_WRAPPER`. Cargo runs it as
`hope <rustc> <args…>` for every compilation. Two kinds of crates are handled differently:

- A crate whose input path lies under a crates.io registry checkout (a path component starting
  with `index.crates.io-`) is looked up in a local cache. The cache is keyed by the crate unit
  name: the crate name followed by the `extra-filename` codegen option.
- Every other crate is passed straight through to the real compiler.

On a hit, `hope` does three things:

1. It copies every expected output from the cache into a temporary arrival directory.
2. It rewrites the dep-info (`.d`) file so that it no longer mentions files under Cargo's `build/`
   directory.
3. It copies the outputs into the out dir.

On a miss, `hope` first looks in the crate's `--out-dir` for a record of a build script it deferred
earlier, and runs that script if it finds one. It then runs the real `rustc`, copies the outputs
into a departure directory and pushes them into the cache. The deferred record is written in the
build script's `OUT_DIR`, which in Cargo's layout is not the crate's `--out-dir` (see
"## Findings").

After either branch, when the crate is a build script, `hope` moves the compiled script aside and
takes its place.

When Cargo later runs a build script that `hope` replaced, the same binary runs in
build-script mode. Either it replays the cached stdout of an earlier run and records how it was
invoked, so that the real script can be run later if needed, or it runs the real script and caches
that stdout.

A second, older binary, `wrapper`, does the same pull-else-build-then-push without the
build-script and dep-info handling. It has its own `WRAPPER_HAX_CACHE_DIR` cache directory, which
it creates if needed.

The model is one Dafny module per concern:

| module | file | models |
|---|---|---|
| `Outcomes` | outcomes.dfy | `Option`, and `Result` carrying an error message (`anyhow::Result`) |
| `Text` | text.dfy | the `str` operations the code relies on: `split`, `split_once`, `rsplit_once`, `trim`, `lines`, `starts_with`, `contains`, `filter` |
| `Utf8` | utf8.dfy | strict UTF-8 encoding and decoding (`str::from_utf8`, `read_to_string`), with both round trips |
| `Paths` | paths.dfy | paths as a list of normal components: `PathBuf::from_str`, `parent`, `join`, `file_name` |
| `Process` | process.dfy | a child process's outcome, and how `run_real_rustc` turns it into an exit |
| `Rustc` | rustc.dfy | the command-line model shared by both binaries: codegen options, crate and output types, `output_defns`, `OutputDefn::file_name`, the registry test |
| `HopeCache` | hope_cache.dfy | `LocalCache` (a directory of files plus `.tar` archives of build-script out dirs), and a scratch `Dir` |
| `DepInfo` | dep_info.dfy | `DepInfo::parse` and `load`, with the unit test |
| `BuildScript` | build_script.dfy | `build_script::run`, `BuildScriptInvocationInfo`, and the suffix added to a moved build script |
| `HopeMain` | hope_main.dfy | `hope`'s argument dispatch, crate classification, unit key, `invoked.timestamp` lookup and dep-info rewrite |
| `HopeInvoke` | hope_invoke.dfy | `hope`'s whole `rustc` invocation: the plan, pull-else-build, delivery, the deferred build script, the push and the build-script swap |
| `WrapperMain` | wrapper_main.dfy | `wrapper`'s `main` and `file_name`; its `output_defns` (wrapper/src/main.rs:463-497) is the same code as hope's (hope/src/main.rs:610-644), so `Rustc.OutputDefns` models both |

## How the model is shaped

Operations that update objects in place are methods on classes, and each method is proved against
a function of the old state:

- `LocalCache`'s methods are proved against `CopyFiles`.
- `InvokeRustc` is proved against `Flow`.
- `build_script::run` is proved against `HitEffect` and `MissEffect`.
- The `wrapper`'s `Run` is proved against `Invoke`.

The following are Dafny classes whose fields the methods reassign: the cache (`LocalCache`), the
out, arrival and departure directories (`Dir`), the invocation-info files next to build-script out
dirs (`InfoFiles`), and the `wrapper`'s set of existing directories (`Dirs`).

The loops of the source are kept as `while` loops with invariants:

- copying outputs to and from the cache;
- delivery;
- parsing and rewriting dep-info lines;
- replaying build-script stdout;
- the walk up to Cargo's `.fingerprint` directory;
- `output_defns`.

The following are inputs to the model rather than effects:

- whatever a child process does (it starts or not, ends with a status, and changes the out dir);
- the environment;
- which paths exist.

## What the cache does not do

A cache keyed on a content fingerprint of every compilation input would notice a change of compiler,
flags or dependencies. A lock per key would let only one process build a unit at a time. Publishing
an entry by a single rename would mean no reader ever sees half an entry. Storing stdout, stderr
and the exit code would let a hit replay them. The code does none of this, and the model follows
the code:

- The key is `crate_name` followed by `extra-filename` (`HopeMain.UnitKeyIgnoresMetadata`,
  `WrapperMain.KeyIgnoresMetadata`). `hope` computes no hash of its own.
- There is no lock. Two processes that miss on the same unit both build it and both push it.
- A push copies the outputs one file at a time into the cache directory. There is no staging
  area and no rename. In the model, a push that does not complete leaves the cache unchanged
  (`HopeInvoke.PushMeaning`). That is because the copy into the departure directory has already
  checked that every file is there. A part-written entry could only come from an I/O failure in
  the middle of the copy, and those failures are left out.
- Only the output files are stored for a crate, and only stdout for a build script.

A failed compilation is never cached
(`HopeInvoke.FailedRustcPushesNothing`, `WrapperMain.FailedRustcPushesNothing`).

`hope/src/main.rs` calls `pull_crate` and `push_crate`, and `hope/src/build_script.rs` calls
`get_build_script_stdout` and `put_build_script_stdout`. `hope/src/cache.rs` does not define any of
these four. They are modelled by the loops of `pull_crate_outputs` and `push_crate_outputs` over the
given output list, and by `pull_build_script_stdout` and `push_build_script_stdout`.

`wrapper/src/main.rs` calls a four-argument `pull` and a `push`, which its own `wrapper/src/cache.rs`
does not match. The outcome of each is therefore an input of the `wrapper` model.

## Model

| member | source | states |
|---|---|---|
| Text.SplitOnce | hope/src/main.rs:34 | `split_once`: none exactly when the separator is absent; otherwise the text is the left part, the separator and the right part, and the left part holds no separator |
| Text.RSplitOnce | hope/src/build_script.rs:41-49 | `rsplit_once`: the same, splitting at the last separator, so the right part holds none |
| Text.SplitThenJoin | wrapper/src/dep_info.rs:22-26 | joining the pieces of `split` with the separator gives back the text |
| Text.JoinThenSplit | wrapper/src/dep_info.rs:22-26 | splitting separator-free pieces after joining them gives back the pieces |
| Text.FilterMembership | wrapper/src/dep_info.rs:25 | `filter` keeps exactly the elements that satisfy the predicate |
| Text.FilterIsSubsequence | hope/src/build_script.rs:70-83 | `filter` keeps the kept elements in their original order |
| Text.TrimStart | wrapper/src/dep_info.rs:14 | `trim_start` removes exactly the leading white space |
| Text.TrimEnd | wrapper/src/dep_info.rs:14 | `trim_end` removes exactly the trailing white space |
| Text.TrimAround | wrapper/src/dep_info.rs:14 | trimming white space wrapped around an already trimmed text gives that text |
| Text.Lines | wrapper/src/dep_info.rs:11 | no line from `lines` holds a newline |
| Text.LinesOfUnlines | hope/src/build_script.rs:70-83 | lines written one `println!` each are read back by `lines` as the same lines |
| Utf8.DecodeEncode | hope/src/build_script.rs:64-65 | decoding the UTF-8 encoding of a text gives the text |
| Utf8.EncodeDecode | hope/src/cache.rs:297-304 | encoding the text decoded from valid UTF-8 gives back the bytes |
| Paths.ParsePath | hope/src/build_script.rs:39-40 | a parsed path has no empty, `.` or separator-holding components, and is absolute exactly when the text starts with `/` |
| Paths.JoinOne | hope/src/build_script.rs:31 | joining a single component appends it |
| Paths.ParentJoin | hope/src/build_script.rs:27-31 | joining a name onto the parent names a sibling |
| Process.ChildResult | hope/src/main.rs:465-490 | the invocation completes exactly when the child succeeded; it exits with the child's code exactly when the child exited non-zero; it fails otherwise |
| Rustc.ParseCodegenOption | hope/src/main.rs:30-43 | a `-C` option without `=` is a flag; otherwise it is a key/value pair split at the first `=` |
| Rustc.ParseRenderCodegenOption | hope/src/main.rs:30-43 | parsing a rendered option gives the option back |
| Rustc.FirstKvValue | hope/src/main.rs:183-196 | the value of the first key/value option with the key, or none exactly when no option has the key |
| Rustc.ParseCrateType | hope/src/main.rs:507-522 | a crate-type name parses to the type with that name; any other text is an error |
| Rustc.ParseCrateTypeName | hope/src/main.rs:507-522 | every crate type's name parses back to it |
| Rustc.ParseOutputType | hope/src/main.rs:539-555 | an `--emit` name parses to the type with that name; any other text is an error |
| Rustc.ParseOutputTypeName | hope/src/main.rs:539-555 | every output type's name parses back to it |
| Rustc.ParsedSetMeaning | hope/src/main.rs:227-239 | the parse loop succeeds exactly when every argument parses, fails with the loop's message otherwise, and collects exactly the parsed values |
| Rustc.ParsedCrateTypes | hope/src/main.rs:227-232 | the parsed crate types are exactly those whose names were given |
| Rustc.ParsedOutputTypes | hope/src/main.rs:234-239 | the parsed output types are exactly those whose names were given |
| Rustc.AppendLinks | hope/src/main.rs:622-638 | the `link` branch adds exactly one `Link` output per crate type, and no duplicates |
| Rustc.AppendKind | hope/src/main.rs:614-641 | one turn of the loop adds the outputs of one output type and keeps each expected output listed once |
| Rustc.OutputDefns | hope/src/main.rs:610-644 | the list holds exactly the outputs the crate and output types produce, each once |
| Rustc.FileNameShape | hope/src/main.rs:574-605 | a file name is the unit name with the kind's suffix, preceded by `lib` for libraries and metadata |
| Rustc.FileNamesCollide | hope/src/main.rs:574-605 | two outputs share a file name exactly when they are the same output, or are the `lib` and `rlib` links |
| Rustc.AnyRegistryComponent | hope/src/main.rs:162-168 | true exactly when some path component starts with `index.crates.io-` |
| Rustc.CrateUnitNameInjective | hope/src/main.rs:215 | a unit name splits back into its crate name and its `extra-filename` (crate names hold no `-`, the suffix starts with one), so two units share a cache key only when both parts agree |
| HopeCache.CacheFileNamesDistinct | hope/src/cache.rs:316-324 | the stdout, stderr and out-dir tarball names are injective in the unit name and never equal one another |
| HopeCache.FileNamesDistinct | hope/src/cache.rs:96-104 | the outputs of one unit are copied to and from distinct files exactly when they do not hold both the `lib` and the `rlib` link |
| HopeCache.FirstMissing | hope/src/cache.rs:97-116 | the index of the first name missing from the source, after which the copy loop stops |
| HopeCache.CopyFilesMeaning | hope/src/cache.rs:97-116 | the copy succeeds exactly when every name is present; it overwrites exactly the names before the first missing one, with the source's bytes, and reports that name |
| HopeCache.PushThenPull | hope/src/cache.rs:81-177 | after a successful push, a pull of the same names succeeds and yields each output byte for byte |
| HopeCache.LocalCache.constructor | hope/src/cache.rs:75-77 | the cache starts with the given files and archives |
| HopeCache.LocalCache.PullDefns | hope/src/cache.rs:97-116 | the copy loop of a pull: the directory becomes the copy from the cache, and the pull succeeds exactly when nothing was missing |
| HopeCache.LocalCache.PushDefns | hope/src/cache.rs:149-162 | the copy loop of a push: the cache becomes the copy from the directory, the archives are untouched, and the push succeeds exactly when nothing was missing |
| HopeCache.LocalCache.PullCrateOutputs | hope/src/cache.rs:81-137 | `pull_crate_outputs`: some listing of exactly the expected outputs is copied out of the cache |
| HopeCache.LocalCache.PushCrateOutputs | hope/src/cache.rs:139-177 | `push_crate_outputs`: some listing of exactly the expected outputs is copied into the cache |
| HopeCache.LocalCache.PushBuildScriptStdout | hope/src/cache.rs:263-278 | stores the bytes under `<unit>-output.txt` and changes nothing else |
| HopeCache.LocalCache.PushBuildScriptStderr | hope/src/cache.rs:280-295 | stores the bytes under `<unit>-stderr.txt` and changes nothing else |
| HopeCache.LocalCache.PushBuildScriptOutDir | hope/src/cache.rs:220-261 | archives the out dir under `<unit>-out.tar`, then fails exactly when the out dir has no third ancestor |
| HopeCache.LocalCache.PullBuildScriptOutDir | hope/src/cache.rs:179-218 | without the archive it fails and writes nothing; otherwise it unpacks the archive over the out dir, then fails exactly when the out dir has no third ancestor |
| HopeCache.ReadText | hope/src/cache.rs:297-304 | reading succeeds exactly when the file exists and holds UTF-8, and yields its bytes |
| HopeCache.StdoutRoundTrip | hope/src/cache.rs:263-304 | a pushed stdout is pulled back unchanged exactly when it is UTF-8; pushing a stderr or another unit's stdout does not disturb it |
| HopeCache.LogDir | hope/src/cache.rs:196-205 | the log directory is `deps` beside the out dir's third ancestor, and exists exactly when the out dir has three ancestors |
| DepInfo.Deps | wrapper/src/dep_info.rs:22-26 | the dependencies are non-empty and hold no space |
| DepInfo.ClassifyRule | wrapper/src/dep_info.rs:14-28 | a non-blank, non-comment line with a colon is a rule for the text before the first colon |
| DepInfo.ParseLine | wrapper/src/dep_info.rs:14-28 | the loop body classifies one line as skipped, a rule, or missing its colon |
| DepInfo.LastRule | wrapper/src/dep_info.rs:28 | the dependencies of a target's last rule, or none exactly when there is no rule for it |
| DepInfo.FoldMeaning | wrapper/src/dep_info.rs:13-31 | the loop fails exactly when some line lacks a colon; otherwise it maps exactly the targets with a rule to the dependencies of their last rule |
| DepInfo.ParseLinesMeaning | wrapper/src/dep_info.rs:10-32 | the same, for the lines of a file |
| DepInfo.FoldPrefixErr | wrapper/src/dep_info.rs:20 | a failure on a prefix of the lines fails the whole parse |
| DepInfo.Parse | wrapper/src/dep_info.rs:10-32 | `parse` succeeds exactly as the line-by-line reading does, with the same map |
| DepInfo.Load | wrapper/src/dep_info.rs:34-37 | an unreadable or non-UTF-8 file is an error; otherwise it is parsed |
| DepInfo.TestParse | wrapper/src/dep_info.rs:45-63 | for any space-free target and source, the unit test's text maps the target and its `.d` file to the source, and the source to no dependencies |
| DepInfo.ParseExample | wrapper/src/dep_info.rs:45-63 | the unit test's own assertions |
| BuildScript.NamesAreComponents | hope/src/build_script.rs:23-31 | the fixed file names are single path components |
| BuildScript.InvocationInfo.InvokedTimestampPath | hope/src/build_script.rs:176-189 | `invoked.timestamp` beside the recorded out dir, or an error when there is no out dir or it has no parent |
| BuildScript.BuildDirName | hope/src/build_script.rs:41-49 | the build dir name splits at its last `-` into crate name and metadata hash, or fails when there is no parent, no name or no `-` |
| BuildScript.SetupOf | hope/src/build_script.rs:27-49 | the real script beside the called path, the out dir from `OUT_DIR`, and the crate name and hash, or the first error |
| BuildScript.ReplayStdout | hope/src/build_script.rs:70-83 | the replayed stdout is the kept lines, each ended by a newline |
| BuildScript.ReplayedMeaning | hope/src/build_script.rs:70-83 | exactly the lines not starting with `cargo:rerun-if-` are replayed, in order |
| BuildScript.ReplayReadBack | hope/src/build_script.rs:70-83 | Cargo reads the replayed stdout back as exactly the kept lines |
| BuildScript.CachedText | hope/src/build_script.rs:63-65 | a hit exactly when the stdout file exists and is UTF-8, and its text encodes to the stored bytes |
| BuildScript.Run | hope/src/build_script.rs:25-147 | a setup error changes nothing; otherwise a cached stdout is a hit and any other case a miss, with the effects below, and the archives are untouched |
| BuildScript.Hit | hope/src/build_script.rs:63-105 | replays the kept lines, prints the notice to stderr, and records the invocation in its out dir unless the symlink or working directory cannot be read |
| BuildScript.Miss | hope/src/build_script.rs:106-144 | runs the real script and ends as it did; on success it forwards the script's stdout and stderr, both to stdout, and caches the stdout |
| BuildScript.MissThenHit | hope/src/build_script.rs:137-143 | after a miss completes, the next run with the same hash replays exactly that stdout when it is UTF-8, and misses again otherwise |
| BuildScript.AppendMovedSuffix | hope/src/build_script.rs:149-156 | the same directory, with `-moved-by-hope` appended to the file name; an error exactly when there is no file name |
| BuildScript.MovedIsJoin | hope/src/build_script.rs:149-156 | replacing the file name is the same as joining the new name onto the parent |
| HopeMain.Dispatch | hope/src/main.rs:122-153 | no arguments is an error; a single argument containing `/build/` runs as a build script; otherwise the second argument is `rustc`, and the rest pass through unchanged |
| HopeMain.Cacheable | hope/src/main.rs:155-171 | cacheable exactly when there is an input path with a registry component |
| HopeMain.UnitOf | hope/src/main.rs:173-215 | the unit exists exactly when the out dir, crate name, `extra-filename`, `metadata` and `CARGO_PKG_NAME` are all given, and is built from them; a missing out dir or crate name gives its own message |
| HopeMain.UnitKeyIgnoresMetadata | hope/src/main.rs:183-215 | two invocations with the same crate name and extra file name share a cache key, whatever their metadata or environment |
| HopeMain.FingerprintIn | hope/src/main.rs:672-673 | the candidate is `.fingerprint` inside the directory |
| HopeMain.FingerprintSearchMeaning | hope/src/main.rs:665-691 | the walk up from the out dir finds a `.fingerprint` exactly when some ancestor has one, and returns the nearest |
| HopeMain.FindFingerprintDir | hope/src/main.rs:665-691 | the loop returns what the walk specifies |
| HopeMain.InvokedTimestampPath | hope/src/main.rs:665-691 | the unit's `invoked.timestamp` is found exactly when the nearest `.fingerprint` holds the package's directory with that file |
| HopeMain.GetInvokedTimestamp | hope/src/main.rs:665-691 | the method returns the path the lookup specifies |
| HopeMain.CollectParsed | hope/src/main.rs:227-239 | the parse loop returns the parsed set, or the loop's error |
| HopeMain.ParsedSetPrefixErr | hope/src/main.rs:227-239 | an unparsable argument fails the whole loop |
| HopeMain.RewriteDepInfo | hope/src/main.rs:267-329 | the rewrite of a dep-info text, or the first error |
| HopeMain.RewriteLines | hope/src/main.rs:273-325 | the loop writes the rewritten lines, each ended by a newline, or stops at the first line without a colon |
| HopeMain.RewriteOne | hope/src/main.rs:274-324 | one line: a blank or comment line is written trimmed; a rule whose target is under `/build/` is dropped; any other rule is written with only its dependencies outside `/build/`; a line without a colon is an error |
| HopeMain.WriteDeps | hope/src/main.rs:306-321 | writes ` dep` for exactly the dependencies outside `/build/`, in order |
| HopeMain.RewritePrefixErr | hope/src/main.rs:282-284 | once a line fails, the whole rewrite fails with that error |
| HopeMain.ProjectUpdate | hope/src/main.rs:290-321 | a rule under `/build/` leaves the kept view unchanged; any other rule sets its target to its dependencies outside `/build/` |
| HopeMain.DepsOfDepsText | hope/src/main.rs:300-321 | the written dependency list reads back as the same dependencies |
| HopeMain.RuleLineOf | hope/src/main.rs:294-324 | a written rule line reads back as a rule for the same target and kept dependencies |
| HopeMain.RewriteTextReparse | hope/src/main.rs:267-329 | a rewritten file parses exactly as the original file, with targets under `/build/` removed and every dependency under `/build/` removed |
| HopeMain.RewriteFailsLikeParse | hope/src/main.rs:282-284 | the rewrite fails exactly when parsing the same lines fails |
| HopeInvoke.RunRealRustc | hope/src/main.rs:465-490 | runs `rustc` with the pass-through arguments, ends as it did, and leaves its outputs in the out dir |
| HopeInvoke.MakePlan | hope/src/main.rs:173-239 | the unit, then the `invoked.timestamp` path, then the parsed crate and output types, or the first error |
| HopeInvoke.ArriveOne | hope/src/main.rs:263-329 | an arrived file is kept as is, except a dep-info file, which is decoded, rewritten and stored |
| HopeInvoke.DeliverAll | hope/src/main.rs:257-335 | the hit loop: each output is prepared in the arrival directory and copied into the out dir, stopping at the first failure |
| HopeInvoke.DeliverFrame | hope/src/main.rs:331-334 | delivery touches no out-dir file other than the outputs' |
| HopeInvoke.DeliverMeaning | hope/src/main.rs:257-335 | after a delivery without failure, every output is in the out dir as cached, with the dep-info file rewritten |
| HopeInvoke.PullSucceedsIffCached | hope/src/main.rs:249-251 | the pull succeeds exactly when every expected output is in the cache |
| HopeInvoke.RunDeferred | hope/src/main.rs:341-381 | when the directory looked in holds an invocation record, runs the recorded build script and then looks up its `invoked.timestamp`, as `DeferredAt` specifies; `main` looks in the crate's `--out-dir` (`PlanLooksInOutDir`) |
| HopeInvoke.DeferredStarts | hope/src/main.rs:344-364 | a build script recorded in the directory looked in is started once, and must succeed before anything else runs |
| HopeInvoke.PushMeaning | hope/src/main.rs:386-406 | the push completes exactly when every output is in the out dir; it then records itself and stores exactly those outputs; otherwise the cache is unchanged |
| HopeInvoke.Depart | hope/src/main.rs:387-402 | copies every output from the out dir into the departure directory, stopping at the first one missing |
| HopeInvoke.DepartPush | hope/src/main.rs:386-406 | the departure then the push, as `Push` specifies |
| HopeInvoke.Miss | hope/src/main.rs:337-407 | the miss branch, as `MissFlow` specifies |
| HopeInvoke.BuildPush | hope/src/main.rs:384-406 | `rustc` then the push, as `BuildThenPush` specifies |
| HopeInvoke.PullOrBuild | hope/src/main.rs:249-407 | the pull, then delivery on a hit or the miss branch, as `PullElseBuild` specifies |
| HopeInvoke.MoveBuildScript | hope/src/main.rs:410-460 | in an out dir under `build`, the compiled script is renamed with the `-moved-by-hope` suffix and the `hope` executable takes its name; a missing script is an error; other out dirs are untouched |
| HopeInvoke.NamedOutputs | hope/src/main.rs:574-605 | a plan without the unsupported crate types gives every expected output a file name |
| HopeInvoke.RunPlan | hope/src/main.rs:241-460 | for a plan: pull-else-build, then the build-script swap, as `CacheableFlow` specifies |
| HopeInvoke.InvokeRustc | hope/src/main.rs:141-460 | a crate outside the registry only runs `rustc`; a plan error changes nothing; otherwise the invocation is `Flow`, and the archives are untouched |
| HopeInvoke.HitRunsNothing | hope/src/main.rs:249-336 | with every output cached, nothing is run or pushed, the cache is unchanged, and on success every output is delivered as cached |
| HopeInvoke.FailedRustcPushesNothing | hope/src/main.rs:337-407 | when `rustc` fails on a miss, the invocation ends as `rustc` did, the cache is unchanged and nothing is pushed |
| HopeInvoke.MissFlowFails | hope/src/main.rs:337-407 | the miss branch with a failing `rustc` ends as `rustc` did and pushes nothing |
| HopeInvoke.MissPushesBuilt | hope/src/main.rs:337-407 | a completed miss ran the deferred script and `rustc` successfully and pushed last; the cache now holds every output as `rustc` left it and nothing else changed |
| HopeInvoke.MissFlowPushes | hope/src/main.rs:337-407 | the same, for the miss branch alone |
| HopeInvoke.MissOf | hope/src/main.rs:249-407 | without every output cached, the invocation runs, records and pushes exactly what the miss branch does |
| HopeInvoke.MissSteps | hope/src/main.rs:341-384 | the miss branch records the deferred steps first, and then `rustc` only when the deferred script completed |
| HopeInvoke.BuildKeepsSteps | hope/src/main.rs:384-406 | building and pushing only appends to what was already recorded |
| HopeInvoke.DeferredRunsFirst | hope/src/main.rs:341-384 | on a miss, a build script recorded in the plan's lookup directory is run first, and `rustc` only after it succeeded |
| HopeInvoke.PlanLooksInOutDir | hope/src/main.rs:173-176 | the plan of `main` looks for a deferred record in the crate's `--out-dir` |
| HopeInvoke.MissWithoutRecord | hope/src/main.rs:341-407 | a miss with no record in its lookup directory runs `rustc` and then at most the push |
| HopeInvoke.LookupUnderOutDirMisses | hope/src/main.rs:342-344 | as written, a record a build-script hit has just written in its `OUT_DIR` is not found in any other `--out-dir`: the miss starts `rustc` first and never runs the real build script |
| HopeInvoke.LookupUnderInfoDirFinds | hope/src/build_script.rs:100-105 | with the lookup in the `OUT_DIR` Cargo passes to the crate, the record a hit wrote is found whatever the `--out-dir`: the miss starts its script first, and `rustc` only after it succeeded |
| WrapperMain.WrapperFileName | wrapper/src/main.rs:429-459 | the `wrapper`'s file names agree with `hope`'s wherever both are defined, and proc macros have none |
| WrapperMain.CacheDirMeaning | wrapper/src/main.rs:155-163 | the cache dir is `WRAPPER_HAX_CACHE_DIR` when set, non-empty and existing or creatable; an unset variable is its own error, an empty one fails to be created; a directory is created only when it did not exist |
| WrapperMain.MakeCacheDir | wrapper/src/main.rs:155-163 | creates the directory as `CacheDir` specifies, and no other |
| WrapperMain.Dirs.constructor | wrapper/src/main.rs:159 | the existing directories are the given ones |
| WrapperMain.KeyMeaning | wrapper/src/main.rs:165-203 | the key exists exactly when the crate name and `extra-filename` are given, every type parses and the out dir is given; it holds the unit name, the out dir and exactly the named types |
| WrapperMain.KeyIgnoresMetadata | wrapper/src/main.rs:165-184 | the key depends on the crate name and the first `extra-filename` only |
| WrapperMain.KeyAgreesWithHope | wrapper/src/main.rs:184 | the `wrapper`'s unit name and out dir are `hope`'s |
| WrapperMain.MakeKey | wrapper/src/main.rs:165-203 | the loops compute the key `KeyOf` specifies |
| WrapperMain.PullOrBuild | wrapper/src/main.rs:205-328 | a hit ends there; otherwise `rustc` runs, and only its success leads to a push |
| WrapperMain.Run | wrapper/src/main.rs:114-331 | `main`, as `Invoke` specifies, creating only the cache dir it reports |
| WrapperMain.NoneCreated | wrapper/src/main.rs:205-328 | steps after the cache dir create no directory |
| WrapperMain.PassThroughUnchanged | wrapper/src/main.rs:137-153 | a non-registry crate runs only `rustc`, with every argument after the `rustc` path |
| WrapperMain.UnsetCacheDirFails | wrapper/src/main.rs:155-156 | a registry crate without `WRAPPER_HAX_CACHE_DIR` fails and does nothing |
| WrapperMain.HitRunsNoRustc | wrapper/src/main.rs:205-213 | a hit completes after the pull without running `rustc` |
| WrapperMain.FailedRustcPushesNothing | wrapper/src/main.rs:322-346 | when `rustc` fails nothing is pushed, and the invocation ends as `rustc` did |
| WrapperMain.PushFollowsRustc | wrapper/src/main.rs:205-331 | a push happens only for a cacheable crate with a key and a cache dir, after a missed pull and a successful `rustc`; the invocation completes exactly when the push succeeds |

## Findings

| source | as written | input that shows it | evidently intended | confidence | as-written member | corrected member |
|---|---|---|---|---|---|---|
| hope/src/main.rs:342-344 | a miss looks for the deferred build script's record under the crate's `--out-dir`, but build-script mode writes it under the script's `OUT_DIR` (hope/src/build_script.rs:100-105) | Cargo's layout: the crate is compiled with `--out-dir target/debug/deps`, and its build script ran with `OUT_DIR=target/debug/build/<pkg>-<hash>/out` | look in the `OUT_DIR` Cargo passes to the crate's compilation, which is the build script's out dir. The flow takes the lookup directory from the plan: `main`'s plan uses `--out-dir` as written, and the corrected instance uses `HopeInvoke.InfoDir` | medium, not executed | HopeInvoke.LookupUnderOutDirMisses | HopeInvoke.LookupUnderInfoDirFinds |

## Left out

- Child processes, the clock, file modification times and standard output and error are values: a
  child's outcome is an input, and what is printed is returned. The `invoked.timestamp` mtimes
  themselves are not modelled, only the lookup of the files.
- Argument parsing by `clap` is not modelled: the parsed `Args` record is an input, next to the raw
  argument list used for dispatch.
- `tar` archives are maps from relative names to bytes. Unpacking one is a map union.
- Invocation-info JSON (`serde_json`) is not modelled: the invocation-info files hold decoded
  records. A file that cannot be read or decoded is not modelled.
- `walkdir` over the deferred script's out dir only sets mtimes, so it is left out with the mtimes.
- The `real-build-script` symlink, copying the `hope` executable over the moved build script, and
  resolving `current_exe` are not modelled. The swap is modelled as the rename plus the copy over the
  script's path in the out dir. Reading the symlink in build-script mode is an input.
- The cache log (`cache-log`, `write_log_line`) and `LocalCache::from_env` / `dir_from_env` are
  left out. The cache is given to every operation, and `cache-log/src/lib.rs` is not part of this
  model.
- Failures to create a temporary directory, to create or write a file, and other I/O errors not
  named above are left out.
- Error messages keep only the outermost `anyhow` context; the underlying error's text is
  dropped. A name printed with `{:?}` is put between double quotes without Rust's escaping
  (`HopeInvoke.MtimeMsg`, `HopeInvoke.DepartMsg`, `HopeCache.CopyFromCacheMsg`,
  `HopeCache.CopyToCacheMsg`). `BuildScript.ScriptSpawnFailedMsg` leaves out the ` at {:?}`
  suffix that names the script's path (hope/src/build_script.rs:113-115).
- HopeCache.LocalCache.PullCrateOutputs: the order of the output list is not fixed, because it
  iterates a `HashSet`. The contract therefore says "some listing of exactly the expected outputs".
- HopeInvoke.InvokeRustc: the `todo!()` panics in `OutputDefn::file_name` (staticlib, dylib and
  cdylib links) are a precondition (`Named`) rather than a modelled abort.
- WrapperMain.WrapperFileName: the `wrapper`'s extra proc-macro `todo!()` is a precondition.
- HopeInvoke.DeliverAll: the arrival file that the dep-info rewrite is writing when it fails is
  not modelled. The error is returned, and the out dir keeps the files copied before it.
- HopeMain.RewriteTextReparse: proved only for files whose dependencies hold no white space;
  spaces between them are allowed (`TidyDeps`). Other files are not covered by the statement.
- WrapperMain.CacheDirMeaning: `create_dir` is modelled as failing only when the variable is empty
  or the parent does not exist.
- Rustc.FileNameShape: file names are those of a Linux build. On macOS a `proc-macro` link is
  `lib<unit>.dylib` (hope/src/main.rs:594-595), which the model does not choose; the same holds for
  Rustc.FileNamesCollide and HopeCache.FileNamesDistinct, whose statements hold with either name.
- Paths.ParsePath: a `..` is kept as an ordinary component, and a leading `.` is dropped like any
  other `.`. `Path::components` distinguishes both (`ParentDir`, `CurDir`), and the model does not.
- The `wrapper`'s cache (`wrapper/src/cache.rs`) is not part of this model. Its stub does not match
  the calls in `wrapper/src/main.rs`, so whether its pull and push succeed are inputs.
- The integration tests under `hope/tests` and `wrapper/tests` are not modelled.
- Content fingerprints, build locks and atomic publication are not modelled, because the code has
  none of them.
