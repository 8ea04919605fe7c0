/** What both wrappers understand of a `rustc` command line: `-C` codegen
    options, `--crate-type` and `--emit` values, the output files they imply,
    and whether the input comes from the crates.io registry. */
module Rustc {
  import opened Outcomes
  import opened Text
  import opened Paths

  // ---------------------------------------------------------------- -C options

  /** A `-C` codegen option: a bare flag or a `key=value` pair. */
  datatype FlagOrKvPair = Flag(flag: string) | KvPair(key: string, value: string)

  /** `FlagOrKvPair::from_str`: split at the first `=`; never fails. */
  function ParseCodegenOption(s: string): (r: FlagOrKvPair)
    ensures r.Flag? <==> '=' !in s
    ensures r.Flag? ==> r.flag == s
    ensures r.KvPair? ==> '=' !in r.key && r.key + "=" + r.value == s
  {
    match SplitOnce(s, '=')
    case None => Flag(s)
    case Some((key, value)) => KvPair(key, value)
  }

  /** The text an option is written as on the command line. */
  function RenderCodegenOption(o: FlagOrKvPair): string {
    match o
    case Flag(f) => f
    case KvPair(k, v) => k + "=" + v
  }

  /** Every option whose text parses back to it (a flag without `=`, a key
      without `=`) survives rendering and parsing. */
  lemma ParseRenderCodegenOption(o: FlagOrKvPair)
    requires o.Flag? ==> '=' !in o.flag
    requires o.KvPair? ==> '=' !in o.key
    ensures ParseCodegenOption(RenderCodegenOption(o)) == o
  {
    if o.KvPair? {
      SplitOnceUnique(o.key, o.value, '=');
      assert o.key + "=" + o.value == o.key + ['='] + o.value;
    }
  }

  predicate HasKey(o: FlagOrKvPair, key: string) {
    o.KvPair? && o.key == key
  }

  /** The value of the first `key=value` option with this key, as the
      `filter_map(..).find(..)` chains for `extra-filename` and `metadata` do. */
  function FirstKvValue(opts: seq<FlagOrKvPair>, key: string): (r: Option<string>)
    ensures r.None? <==> forall i :: 0 <= i < |opts| ==> !HasKey(opts[i], key)
    ensures r.Some? ==> exists i :: 0 <= i < |opts| && opts[i] == KvPair(key, r.value)
                                    && forall j :: 0 <= j < i ==> !HasKey(opts[j], key)
  {
    if |opts| == 0 then None
    else if HasKey(opts[0], key) then Some(opts[0].value)
    else
      var r := FirstKvValue(opts[1..], key);
      if r.Some? then
        ghost var i :| 0 <= i < |opts| - 1 && opts[1..][i] == KvPair(key, r.value)
                       && forall j :: 0 <= j < i ==> !HasKey(opts[1..][j], key);
        assert opts[i + 1] == KvPair(key, r.value);
        assert forall j :: 0 <= j < i + 1 ==> !HasKey(opts[j], key) by {
          forall j | 0 <= j < i + 1 ensures !HasKey(opts[j], key) {
            if j > 0 { assert opts[j] == opts[1..][j - 1]; }
          }
        }
        r
      else
        assert forall j :: 1 <= j < |opts| ==> opts[j] == opts[1..][j - 1];
        r
  }

  // ------------------------------------------------------ crate and output types

  /** The `--crate-type` values `rustc` accepts. */
  datatype CrateType = Lib | Rlib | Staticlib | Dylib | Cdylib | Bin | ProcMacro

  function CrateTypeName(c: CrateType): string {
    match c
    case Lib => "lib"
    case Rlib => "rlib"
    case Staticlib => "staticlib"
    case Dylib => "dylib"
    case Cdylib => "cdylib"
    case Bin => "bin"
    case ProcMacro => "proc-macro"
  }

  /** `CrateType::from_str`: exactly the seven spellings are accepted. */
  function ParseCrateType(s: string): (r: Result<CrateType>)
    ensures r.Ok? ==> CrateTypeName(r.value) == s
    ensures r.Err? ==> forall c: CrateType :: CrateTypeName(c) != s
  {
    if s == "lib" then Ok(Lib)
    else if s == "rlib" then Ok(Rlib)
    else if s == "staticlib" then Ok(Staticlib)
    else if s == "dylib" then Ok(Dylib)
    else if s == "cdylib" then Ok(Cdylib)
    else if s == "bin" then Ok(Bin)
    else if s == "proc-macro" then Ok(ProcMacro)
    else Err("Unrecognised crate type \"" + s + "\"")
  }

  lemma ParseCrateTypeName(c: CrateType)
    ensures ParseCrateType(CrateTypeName(c)) == Ok(c)
  {
  }

  /** The `--emit` values `rustc` accepts. */
  datatype OutputType = Asm | LlvmBc | LlvmIr | Obj | Metadata | Link | DepInfo | Mir

  function OutputTypeName(t: OutputType): string {
    match t
    case Asm => "asm"
    case LlvmBc => "llvm-bc"
    case LlvmIr => "llvm-ir"
    case Obj => "obj"
    case Metadata => "metadata"
    case Link => "link"
    case DepInfo => "dep-info"
    case Mir => "mir"
  }

  /** `OutputType::from_str`: exactly the eight spellings are accepted. */
  function ParseOutputType(s: string): (r: Result<OutputType>)
    ensures r.Ok? ==> OutputTypeName(r.value) == s
    ensures r.Err? ==> forall t: OutputType :: OutputTypeName(t) != s
  {
    if s == "asm" then Ok(OutputType.Asm)
    else if s == "llvm-bc" then Ok(OutputType.LlvmBc)
    else if s == "llvm-ir" then Ok(OutputType.LlvmIr)
    else if s == "obj" then Ok(OutputType.Obj)
    else if s == "metadata" then Ok(OutputType.Metadata)
    else if s == "link" then Ok(OutputType.Link)
    else if s == "dep-info" then Ok(OutputType.DepInfo)
    else if s == "mir" then Ok(OutputType.Mir)
    else Err("Unrecognised output type \"" + s + "\"")
  }

  lemma ParseOutputTypeName(t: OutputType)
    ensures ParseOutputType(OutputTypeName(t)) == Ok(t)
  {
  }

  /** The parse loops over `--crate-type` and `--emit` values: the set of
      parsed values, or the loop's error when any value does not parse. */
  function ParsedSet<T>(strs: seq<string>, parse: string -> Result<T>, context: string): Result<set<T>> {
    if |strs| == 0 then Ok({})
    else
      match ParsedSet(strs[..|strs| - 1], parse, context)
      case Err(m) => Err(m)
      case Ok(acc) =>
        match parse(strs[|strs| - 1])
        case Err(_) => Err(context)
        case Ok(v) => Ok(acc + {v})
  }

  /** The set is built exactly when every value parses, and then it holds
      exactly the parsed values. */
  lemma {:induction false} ParsedSetMeaning<T>(strs: seq<string>, parse: string -> Result<T>, context: string)
    ensures ParsedSet(strs, parse, context).Ok? <==> forall i :: 0 <= i < |strs| ==> parse(strs[i]).Ok?
    ensures ParsedSet(strs, parse, context).Err? ==> ParsedSet(strs, parse, context).msg == context
    ensures ParsedSet(strs, parse, context).Ok? ==>
              forall x :: x in ParsedSet(strs, parse, context).value <==>
                            exists i :: 0 <= i < |strs| && parse(strs[i]) == Ok(x)
  {
    if |strs| > 0 {
      var init := strs[..|strs| - 1];
      ParsedSetMeaning(init, parse, context);
      assert forall i :: 0 <= i < |init| ==> init[i] == strs[i];
      var r := ParsedSet(strs, parse, context);
      if r.Ok? {
        var acc := ParsedSet(init, parse, context).value;
        forall x ensures x in r.value <==> exists i :: 0 <= i < |strs| && parse(strs[i]) == Ok(x) {
          if x in acc {
            var i :| 0 <= i < |init| && parse(init[i]) == Ok(x);
            assert parse(strs[i]) == Ok(x);
          }
          if exists i :: 0 <= i < |strs| && parse(strs[i]) == Ok(x) {
            var i :| 0 <= i < |strs| && parse(strs[i]) == Ok(x);
            if i < |init| { assert parse(init[i]) == Ok(x); }
          }
        }
      }
    }
  }

  /** With the real parser: the crate types named on the command line, and no others. */
  lemma ParsedCrateTypes(strs: seq<string>, context: string)
    requires ParsedSet(strs, ParseCrateType, context).Ok?
    ensures forall c :: c in ParsedSet(strs, ParseCrateType, context).value <==> CrateTypeName(c) in strs
  {
    ParsedSetMeaning(strs, ParseCrateType, context);
    forall c ensures c in ParsedSet(strs, ParseCrateType, context).value <==> CrateTypeName(c) in strs {
      if CrateTypeName(c) in strs {
        var i :| 0 <= i < |strs| && strs[i] == CrateTypeName(c);
        ParseCrateTypeName(c);
      }
    }
  }

  /** With the real parser: the output types named on the command line, and no others. */
  lemma ParsedOutputTypes(strs: seq<string>, context: string)
    requires ParsedSet(strs, ParseOutputType, context).Ok?
    ensures forall t :: t in ParsedSet(strs, ParseOutputType, context).value <==> OutputTypeName(t) in strs
  {
    ParsedSetMeaning(strs, ParseOutputType, context);
    forall t ensures t in ParsedSet(strs, ParseOutputType, context).value <==> OutputTypeName(t) in strs {
      if OutputTypeName(t) in strs {
        var i :| 0 <= i < |strs| && strs[i] == OutputTypeName(t);
        ParseOutputTypeName(t);
      }
    }
  }

  // ------------------------------------------------------------- output files

  /** An output `rustc` will write: one per emitted kind, and for `link` one
      per crate type. */
  datatype OutputDefn = Asm | LlvmBc | LlvmIr | Obj | Metadata | Link(crateType: CrateType) | DepInfo | Mir

  /** The definition one emitted kind other than `link` stands for. */
  function DefnOf(t: OutputType): OutputDefn
    requires t != OutputType.Link
  {
    match t
    case Asm => OutputDefn.Asm
    case LlvmBc => OutputDefn.LlvmBc
    case LlvmIr => OutputDefn.LlvmIr
    case Obj => OutputDefn.Obj
    case Metadata => OutputDefn.Metadata
    case DepInfo => OutputDefn.DepInfo
    case Mir => OutputDefn.Mir
  }

  /** The emitted kind an output belongs to. */
  function KindOf(d: OutputDefn): (t: OutputType)
    ensures t != OutputType.Link ==> DefnOf(t) == d
  {
    match d
    case Asm => OutputType.Asm
    case LlvmBc => OutputType.LlvmBc
    case LlvmIr => OutputType.LlvmIr
    case Obj => OutputType.Obj
    case Metadata => OutputType.Metadata
    case Link(_) => OutputType.Link
    case DepInfo => OutputType.DepInfo
    case Mir => OutputType.Mir
  }

  /** An invocation with these crate and output types creates output `d`:
      its kind is emitted, and a link output's crate type is requested. */
  predicate Produces(crateTypes: set<CrateType>, outputTypes: set<OutputType>, d: OutputDefn) {
    KindOf(d) in outputTypes && (d.Link? ==> d.crateType in crateTypes)
  }

  predicate Distinct<T(==)>(s: seq<T>) {
    forall i, j :: 0 <= i < j < |s| ==> s[i] != s[j]
  }

  lemma DistinctAppend<T>(s: seq<T>, x: T)
    requires Distinct(s) && x !in s
    ensures Distinct(s + [x])
  {
  }

  /** `r` holds the outputs of `defns` and the link outputs of the crate types `cs`, and nothing else. */
  ghost predicate WithLinks(r: seq<OutputDefn>, defns: seq<OutputDefn>, cs: set<CrateType>) {
    forall d :: d in r <==> d in defns || (d.Link? && d.crateType in cs)
  }

  lemma LinkStep(r: seq<OutputDefn>, defns: seq<OutputDefn>, cs: set<CrateType>, c: CrateType)
    requires WithLinks(r, defns, cs)
    ensures WithLinks(r + [OutputDefn.Link(c)], defns, cs + {c})
  {
  }

  /** The inner loop of `output_defns`: push one link output per crate type. */
  method AppendLinks(defns: seq<OutputDefn>, crateTypes: set<CrateType>) returns (r: seq<OutputDefn>)
    requires Distinct(defns)
    requires forall i :: 0 <= i < |defns| ==> !defns[i].Link?
    ensures forall d :: d in r <==> d in defns || (d.Link? && d.crateType in crateTypes)
    ensures Distinct(r)
    ensures |r| == |defns| + |crateTypes|
  {
    r := defns;
    var remaining := crateTypes;
    while remaining != {}
      invariant remaining <= crateTypes
      invariant WithLinks(r, defns, crateTypes - remaining)
      invariant Distinct(r)
      invariant |r| == |defns| + |crateTypes - remaining|
      decreases |remaining|
    {
      var c :| c in remaining;
      assert crateTypes - (remaining - {c}) == (crateTypes - remaining) + {c};
      assert OutputDefn.Link(c) !in r;
      DistinctAppend(r, OutputDefn.Link(c));
      LinkStep(r, defns, crateTypes - remaining, c);
      r := r + [OutputDefn.Link(c)];
      remaining := remaining - {c};
    }
    assert crateTypes - remaining == crateTypes;
  }

  /** How many outputs an invocation with these crate and output types creates. */
  function DefnCount(crateTypes: set<CrateType>, outputTypes: set<OutputType>): nat {
    |outputTypes - {OutputType.Link}| + (if OutputType.Link in outputTypes then |crateTypes| else 0)
  }

  lemma DefnCountStep(crateTypes: set<CrateType>, done: set<OutputType>, t: OutputType)
    requires t !in done
    ensures DefnCount(crateTypes, done + {t})
            == DefnCount(crateTypes, done) + (if t == OutputType.Link then |crateTypes| else 1)
  {
    if t == OutputType.Link {
      assert (done + {t}) - {OutputType.Link} == done - {OutputType.Link};
    } else {
      assert (done + {t}) - {OutputType.Link} == (done - {OutputType.Link}) + {t};
    }
  }

  /** `defns` lists each output of these crate and output types once, and nothing else. */
  ghost predicate ProducedOnce(defns: seq<OutputDefn>, crateTypes: set<CrateType>, outputTypes: set<OutputType>) {
    (forall d :: d in defns <==> Produces(crateTypes, outputTypes, d))
    && Distinct(defns) && |defns| == DefnCount(crateTypes, outputTypes)
  }

  /** One turn of the outer loop of `output_defns`: push the outputs of
      emitted kind `t`. */
  method AppendKind(defns: seq<OutputDefn>, crateTypes: set<CrateType>, ghost done: set<OutputType>, t: OutputType)
    returns (r: seq<OutputDefn>)
    requires t !in done
    requires ProducedOnce(defns, crateTypes, done)
    ensures ProducedOnce(r, crateTypes, done + {t})
  {
    DefnCountStep(crateTypes, done, t);
    if t == OutputType.Link {
      forall i | 0 <= i < |defns| ensures !defns[i].Link? {
        assert defns[i] in defns;
      }
      r := AppendLinks(defns, crateTypes);
    } else {
      assert KindOf(DefnOf(t)) == t;
      DistinctAppend(defns, DefnOf(t));
      r := defns + [DefnOf(t)];
    }
  }

  /** `output_defns`: every output the invocation produces, once; one per
      emitted kind, with `link` expanded to one per crate type. The order is
      the hash sets' iteration order, left unspecified. */
  method OutputDefns(crateTypes: set<CrateType>, outputTypes: set<OutputType>) returns (defns: seq<OutputDefn>)
    ensures forall d :: d in defns <==> Produces(crateTypes, outputTypes, d)
    ensures Distinct(defns)
    ensures |defns| == DefnCount(crateTypes, outputTypes)
  {
    defns := [];
    var todo := outputTypes;
    while todo != {}
      invariant todo <= outputTypes
      invariant ProducedOnce(defns, crateTypes, outputTypes - todo)
      decreases |todo|
    {
      var t :| t in todo;
      defns := AppendKind(defns, crateTypes, outputTypes - todo, t);
      assert (outputTypes - todo) + {t} == outputTypes - (todo - {t});
      todo := todo - {t};
    }
    assert outputTypes - todo == outputTypes;
  }

  /** `file_name` is defined (no `todo!()`) for this output. */
  predicate HasFileName(d: OutputDefn) {
    !(d.Link? && d.crateType in {Staticlib, Dylib, Cdylib})
  }

  /** `OutputDefn::file_name` of `hope`, on Linux. */
  function FileName(d: OutputDefn, unit: string): string
    requires HasFileName(d)
  {
    match d
    case Asm => unit + ".s"
    case LlvmBc => unit + ".bc"
    case LlvmIr => unit + ".ll"
    case Obj => unit + ".o"
    case Metadata => "lib" + unit + ".rmeta"
    case Link(ct) =>
      (match ct
       case Bin => unit
       case ProcMacro => "lib" + unit + ".so"
       case _ => "lib" + unit + ".rlib")
    case DepInfo => unit + ".d"
    case Mir => unit + ".mir"
  }

  /** The part of a file name that follows the unit name (`lib` prefixes
      aside), which tells the outputs apart. */
  function Suffix(d: OutputDefn): string
    requires HasFileName(d)
  {
    match d
    case Asm => ".s"
    case LlvmBc => ".bc"
    case LlvmIr => ".ll"
    case Obj => ".o"
    case Metadata => ".rmeta"
    case Link(ct) => (match ct case Bin => "" case ProcMacro => ".so" case _ => ".rlib")
    case DepInfo => ".d"
    case Mir => ".mir"
  }

  predicate HasLibPrefix(d: OutputDefn) {
    d.Metadata? || (d.Link? && d.crateType != Bin)
  }

  lemma FileNameShape(d: OutputDefn, unit: string)
    requires HasFileName(d)
    ensures FileName(d, unit) == (if HasLibPrefix(d) then "lib" else "") + unit + Suffix(d)
  {
  }

  /** Two outputs of one unit land on the same file only when they are `lib`
      and `rlib` links, which share `lib<unit>.rlib`. */
  lemma FileNamesCollide(d1: OutputDefn, d2: OutputDefn, unit: string)
    requires HasFileName(d1) && HasFileName(d2)
    ensures FileName(d1, unit) == FileName(d2, unit) <==>
              d1 == d2 || (d1.Link? && d2.Link? && d1.crateType in {Lib, Rlib} && d2.crateType in {Lib, Rlib})
  {
    FileNameShape(d1, unit);
    FileNameShape(d2, unit);
    var n := FileName(d1, unit);
    if n == FileName(d2, unit) && HasLibPrefix(d1) == HasLibPrefix(d2) {
      var k := if HasLibPrefix(d1) then 3 else 0;
      assert n[k + |unit|..] == Suffix(d1);
      assert n[k + |unit|..] == Suffix(d2);
      SuffixDistinct(d1, d2);
    }
  }

  /** Outputs with the same prefix and suffix are the same output, or the
      `lib`/`rlib` pair. */
  lemma SuffixDistinct(d1: OutputDefn, d2: OutputDefn)
    requires HasFileName(d1) && HasFileName(d2)
    requires HasLibPrefix(d1) == HasLibPrefix(d2) && Suffix(d1) == Suffix(d2)
    ensures d1 == d2 || (d1.Link? && d2.Link? && d1.crateType in {Lib, Rlib} && d2.crateType in {Lib, Rlib})
  {
    var s := Suffix(d1);
    if |s| >= 2 {
      assert s[1] == Suffix(d2)[1];
    }
    if |s| >= 3 {
      assert s[2] == Suffix(d2)[2];
    }
  }

  // ------------------------------------------------------------ classification

  /** The registry marker a path component must start with. */
  const RegistryPrefix: string := "index.crates.io-"

  /** Some component of the path starts with the registry marker. */
  function AnyRegistryComponent(comps: seq<string>): (r: bool)
    ensures r <==> exists i :: 0 <= i < |comps| && StartsWith(comps[i], RegistryPrefix)
  {
    if |comps| == 0 then false
    else if StartsWith(comps[0], RegistryPrefix) then true
    else
      assert forall i :: 1 <= i < |comps| ==> comps[i] == comps[1..][i - 1];
      AnyRegistryComponent(comps[1..])
  }

  /** The input file of the invocation lies in a crates.io registry checkout;
      only such crates go through the cache. */
  predicate IsRegistryInput(input: string) {
    AnyRegistryComponent(ParsePath(input).comps)
  }

  /** The cache key of a crate build unit: the crate name with Cargo's
      `extra-filename` suffix. */
  function CrateUnitName(crateName: string, extraFilename: string): (n: string)
    ensures |n| == |crateName| + |extraFilename|
    ensures n[..|crateName|] == crateName && n[|crateName|..] == extraFilename
  {
    crateName + extraFilename
  }

  /** Cargo's crate names hold no `-` and its `extra-filename` starts with
      one, so a unit name splits back into its crate name and suffix: two
      units share a cache key only when both parts agree. */
  lemma CrateUnitNameInjective(c1: string, e1: string, c2: string, e2: string)
    requires '-' !in c1 && '-' !in c2
    requires |e1| > 0 && e1[0] == '-' && |e2| > 0 && e2[0] == '-'
    requires CrateUnitName(c1, e1) == CrateUnitName(c2, e2)
    ensures c1 == c2 && e1 == e2
  {
  }

  /** The arguments the wrappers read from a `rustc` command line. */
  datatype Args = Args(
    input: Option<string>,
    crateTypes: seq<string>,
    crateName: Option<string>,
    emit: seq<string>,
    outDir: Option<string>,
    codegenOptions: seq<FlagOrKvPair>)
}
