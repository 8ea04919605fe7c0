/** `DepInfo` of the `wrapper` binary (`wrapper/src/dep_info.rs`): a Makefile
    style dependency file read line by line into a map from each target to
    the files it depends on. */
module DepInfo {
  import opened Outcomes
  import opened Text
  import Utf8

  // Error messages.
  const NoColonMsg: string := "Couldn't find ':'"
  const UnreadableMsg: string := "could not read the dep-info file"
  const NotUtf8Msg: string := "stream did not contain valid UTF-8"

  /** `DepInfo`: each target and the files it depends on. */
  datatype DepInfo = DepInfo(files: map<string, seq<string>>)

  /** What one line of a dep-info file says. */
  datatype Line = Skip | Rule(target: string, deps: seq<string>) | NoColon

  predicate NonEmpty(s: string) {
    s != []
  }

  /** The dependencies after the colon: the trimmed rest split at single
      spaces, with the empty pieces dropped. */
  function Deps(rest: string): (ds: seq<string>)
    ensures forall i :: 0 <= i < |ds| ==> ds[i] != [] && ' ' !in ds[i]
  {
    var pieces := SplitOn(Trim(rest), ' ');
    FilterMembership(NonEmpty, pieces);
    Filter(NonEmpty, pieces)
  }

  /** One line: blank lines and `#` comments are skipped; any other line
      must hold a `:`, which splits the target (before the first `:`) from
      its dependencies. */
  function ClassifyLine(line: string): Line {
    var t := Trim(line);
    if t == [] || t[0] == '#' then Skip
    else
      match SplitOnce(t, ':')
      case None => NoColon
      case Some((target, rest)) => Rule(target, Deps(rest))
  }

  /** A line whose trimmed text is neither blank nor a comment, and holds a
      `:`, is the rule it spells. */
  lemma ClassifyRule(line: string, target: string, rest: string)
    requires Trim(line) != [] && Trim(line)[0] != '#' && SplitOnce(Trim(line), ':') == Some((target, rest))
    ensures ClassifyLine(line) == Rule(target, Deps(rest))
  {
  }

  /** Every line, classified. */
  function Classify(ls: seq<string>): (r: seq<Line>)
    ensures |r| == |ls|
  {
    if |ls| == 0 then [] else Classify(ls[..|ls| - 1]) + [ClassifyLine(ls[|ls| - 1])]
  }

  lemma ClassifyAppend(ls: seq<string>, l: string)
    ensures Classify(ls + [l]) == Classify(ls) + [ClassifyLine(l)]
  {
    assert (ls + [l])[..|ls|] == ls;
  }

  lemma {:induction false} ClassifyIndex(ls: seq<string>, i: int)
    requires 0 <= i < |ls|
    ensures Classify(ls)[i] == ClassifyLine(ls[i])
  {
    if i < |ls| - 1 {
      ClassifyIndex(ls[..|ls| - 1], i);
    }
  }

  /** One turn of the loop of `DepInfo::parse`: a skipped line changes
      nothing, a rule inserts its target (replacing an earlier rule for it),
      and a line without a colon fails. */
  function Step(acc: Result<map<string, seq<string>>>, l: Line): Result<map<string, seq<string>>> {
    match acc
    case Err(m) => Err(m)
    case Ok(files) =>
      match l
      case Skip => Ok(files)
      case NoColon => Err(NoColonMsg)
      case Rule(target, deps) => Ok(files[target := deps])
  }

  /** The loop of `DepInfo::parse` over classified lines. */
  function Fold(entries: seq<Line>): Result<map<string, seq<string>>> {
    if |entries| == 0 then Ok(map[]) else Step(Fold(entries[..|entries| - 1]), entries[|entries| - 1])
  }

  function ParseLines(ls: seq<string>): Result<map<string, seq<string>>> {
    Fold(Classify(ls))
  }

  lemma FoldSnoc(ls: seq<string>, k: int)
    requires 0 <= k < |ls|
    ensures Fold(Classify(ls[..k + 1])) == Step(Fold(Classify(ls[..k])), ClassifyLine(ls[k]))
  {
    assert ls[..k + 1] == ls[..k] + [ls[k]];
    ClassifyAppend(ls[..k], ls[k]);
    assert Classify(ls[..k + 1])[..k] == Classify(ls[..k]);
  }

  /** `DepInfo::parse`. */
  method Parse(s: string) returns (r: Result<DepInfo>)
    ensures r.Ok? <==> ParseLines(Lines(s)).Ok?
    ensures r.Ok? ==> r.value.files == ParseLines(Lines(s)).value
  {
    var lines := Lines(s);
    var files: map<string, seq<string>> := map[];
    var i := 0;
    while i < |lines|
      invariant 0 <= i <= |lines|
      invariant Fold(Classify(lines[..i])) == Ok(files)
    {
      FoldSnoc(lines, i);
      var l := ParseLine(lines[i]);
      match l {
        case Skip =>
        case NoColon =>
          FoldPrefixErr(lines, i + 1);
          return Err(NoColonMsg);
        case Rule(fileName, deps) =>
          files := files[fileName := deps];
      }
      i := i + 1;
    }
    TakeAll(lines);
    return Ok(DepInfo(files));
  }

  /** The body of the loop of `DepInfo::parse`: trim the line, skip it when
      blank or a comment, else split it at its first `:`. */
  method ParseLine(line: string) returns (l: Line)
    ensures l == ClassifyLine(line)
  {
    var t := Trim(line);
    if t == [] || t[0] == '#' {
      return Skip;
    }
    var split := SplitOnce(t, ':');
    if split.None? {
      return NoColon;
    }
    var (fileName, rest) := split.value;
    return Rule(fileName, Deps(rest));
  }

  /** A failure on a prefix of the lines is a failure of the whole file. */
  lemma {:induction false} FoldPrefixErr(ls: seq<string>, k: nat)
    requires k <= |ls| && Fold(Classify(ls[..k])).Err?
    ensures ParseLines(ls).Err?
    decreases |ls| - k
  {
    if k < |ls| {
      FoldSnoc(ls, k);
      FoldPrefixErr(ls, k + 1);
    } else {
      TakeAll(ls);
    }
  }

  /** `DepInfo::load`: the file's bytes (`None` when it cannot be read)
      must be UTF-8 text, which is then parsed. */
  method Load(content: Option<Utf8.Bytes>) returns (r: Result<DepInfo>)
    ensures content.None? ==> r.Err?
    ensures content.Some? && !Utf8.IsValid(content.value) ==> r.Err?
    ensures content.Some? && Utf8.IsValid(content.value) ==>
              var text := Utf8.Decode(content.value).value;
              (r.Ok? <==> ParseLines(Lines(text)).Ok?) && (r.Ok? ==> r.value.files == ParseLines(Lines(text)).value)
  {
    if content.None? {
      return Err(UnreadableMsg);
    }
    var text := Utf8.Decode(content.value);
    if text.None? {
      return Err(NotUtf8Msg);
    }
    r := Parse(text.value);
  }

  // ---------------------------------------------------------------- meaning

  predicate IsRuleFor(l: Line, target: string) {
    l.Rule? && l.target == target
  }

  /** A reference reading of the same lines: the dependencies a target gets
      are those of the last rule line for it. */
  function LastRule(entries: seq<Line>, target: string): (r: Option<seq<string>>)
    ensures r.None? <==> forall i :: 0 <= i < |entries| ==> !IsRuleFor(entries[i], target)
    ensures r.Some? ==> exists i :: 0 <= i < |entries| && entries[i] == Rule(target, r.value)
                                    && forall j :: i < j < |entries| ==> !IsRuleFor(entries[j], target)
  {
    if |entries| == 0 then None
    else
      var last := |entries| - 1;
      var l := entries[last];
      if IsRuleFor(l, target) then
        assert entries[last] == Rule(target, l.deps);
        Some(l.deps)
      else
        var init := entries[..last];
        var r := LastRule(init, target);
        assert forall i :: 0 <= i < last ==> init[i] == entries[i];
        if r.Some? then
          ghost var i :| 0 <= i < last && init[i] == Rule(target, r.value)
                         && forall j :: i < j < last ==> !IsRuleFor(init[j], target);
          assert entries[i] == Rule(target, r.value);
          assert forall j :: i < j < |entries| ==> !IsRuleFor(entries[j], target);
          r
        else
          r
  }

  /** Parsing fails exactly when some line lacks a colon; otherwise each
      target maps to the dependencies of its last rule, and nothing else is
      in the map. */
  lemma {:induction false} FoldMeaning(entries: seq<Line>)
    ensures Fold(entries).Err? <==> exists i :: 0 <= i < |entries| && entries[i].NoColon?
    ensures Fold(entries).Ok? ==>
              forall t :: (t in Fold(entries).value <==> LastRule(entries, t).Some?)
                          && (t in Fold(entries).value ==> Fold(entries).value[t] == LastRule(entries, t).value)
  {
    if |entries| > 0 {
      var init := entries[..|entries| - 1];
      FoldMeaning(init);
      assert forall i :: 0 <= i < |init| ==> init[i] == entries[i];
      if exists i :: 0 <= i < |entries| && entries[i].NoColon? {
        var i :| 0 <= i < |entries| && entries[i].NoColon?;
        if i < |init| { assert init[i].NoColon?; }
  }
    }
  }

  /** The same, for the lines of a file. */
  lemma ParseLinesMeaning(ls: seq<string>)
    ensures ParseLines(ls).Err? <==> exists i :: 0 <= i < |ls| && ClassifyLine(ls[i]).NoColon?
    ensures ParseLines(ls).Ok? ==>
              forall t :: (t in ParseLines(ls).value <==> LastRule(Classify(ls), t).Some?)
                          && (t in ParseLines(ls).value ==> ParseLines(ls).value[t] == LastRule(Classify(ls), t).value)
  {
    FoldMeaning(Classify(ls));
    forall i | 0 <= i < |ls|
      ensures Classify(ls)[i] == ClassifyLine(ls[i])
    {
      ClassifyIndex(ls, i);
    }
  }

  // ----------------------------------------------------- the unit test's file

  /** A printable ASCII character other than `:`: never whitespace. */
  predicate WordChar(c: char) {
    '!' <= c <= '~' && c != ':'
  }

  /** A path as the unit test writes one: no blanks, no colon, not a comment. */
  predicate Word(w: string) {
    w != [] && w[0] != '#' && forall i :: 0 <= i < |w| ==> WordChar(w[i])
  }

  const Indent: string := "            "

  /** The unit test's lines, for a target and a source file. */
  function TestLines(target: string, src: string): seq<string> {
    ["", Indent + "# Some comments", Indent + target + ": " + src, "",
     Indent + target + ".d: " + src, "", Indent + src + ":", "        "]
  }

  /** The unit test's dep-info text, for a target and a source file. */
  function TestText(target: string, src: string): string {
    "" + "\n"
    + (Indent + "# Some comments") + "\n"
    + (Indent + target + ": " + src) + "\n"
    + "" + "\n"
    + (Indent + target + ".d: " + src) + "\n"
    + "" + "\n"
    + (Indent + src + ":") + "\n"
    + "        "
  }

  lemma TrimIndented(indent: string, core: string)
    requires forall i :: 0 <= i < |indent| ==> indent[i] == ' '
    requires core != [] && !IsWhitespace(core[0]) && !IsWhitespace(core[|core| - 1])
    ensures Trim(indent + core) == core
  {
    TrimAround(indent, core, []);
    AppendEmpty(indent + core);
  }

  lemma DepsOfWord(w: string)
    requires Word(w)
    ensures Deps(" " + w) == [w]
  {
    assert WordChar(w[0]) && WordChar(w[|w| - 1]);
    TrimIndented(" ", w);
    assert ' ' !in w by {
      forall i | 0 <= i < |w| ensures w[i] != ' ' { assert WordChar(w[i]); }
    }
    DepsOfOne(" " + w, w);
  }

  /** Text that trims to one space-free word holds just that dependency. */
  lemma DepsOfOne(x: string, w: string)
    requires Trim(x) == w && w != [] && ' ' !in w
    ensures Deps(x) == [w]
  {
    assert Text.Join([w], ' ') == w;
    JoinThenSplit([w], ' ');
    FilterAll(NonEmpty, [w]);
  }

  lemma RuleLine(line: string, target: string, rest: string)
    requires line == Indent + target + ":" + rest
    requires Word(target)
    requires rest == [] || !IsWhitespace(rest[|rest| - 1])
    ensures ClassifyLine(line) == Rule(target, Deps(rest))
  {
    var core := target + ":" + rest;
    RuleLineTrim(line, target, rest);
    WordSplit(target, rest);
    assert core[0] == target[0];
    ClassifyRule(line, target, rest);
  }

  lemma RuleLineTrim(line: string, target: string, rest: string)
    requires line == Indent + target + ":" + rest
    requires Word(target)
    requires rest == [] || !IsWhitespace(rest[|rest| - 1])
    ensures Trim(line) == target + ":" + rest
  {
    var core := target + ":" + rest;
    AppendAssoc(Indent, target + ":", rest);
    AppendAssoc(Indent, target, ":");
    assert WordChar(target[0]) && core[0] == target[0];
    TrimIndented(Indent, core);
  }

  /** A word holds no `:`, so the first `:` after it is the one that follows. */
  lemma WordSplit(target: string, rest: string)
    requires Word(target)
    ensures SplitOnce(target + ":" + rest, ':') == Some((target, rest))
  {
    assert ':' !in target by {
      forall i | 0 <= i < |target| ensures target[i] != ':' { assert WordChar(target[i]); }
    }
    SplitOnceUnique(target, rest, ':');
  }

  lemma TestLinesFree(target: string, src: string)
    requires Word(target) && Word(src)
    ensures forall i :: 0 <= i < |TestLines(target, src)| ==> '\n' !in TestLines(target, src)[i]
    ensures forall i :: 0 <= i < |TestLines(target, src)| ==>
              TestLines(target, src)[i] == [] || TestLines(target, src)[i][|TestLines(target, src)[i]| - 1] != '\r'
  {
    assert '\n' !in target by {
      forall i | 0 <= i < |target| ensures target[i] != '\n' { assert WordChar(target[i]); }
    }
    assert '\n' !in src by {
      forall i | 0 <= i < |src| ensures src[i] != '\n' { assert WordChar(src[i]); }
    }
    assert WordChar(src[|src| - 1]);
  }

  lemma TestTextLines(target: string, src: string)
    requires Word(target) && Word(src)
    ensures Lines(TestText(target, src)) == TestLines(target, src)
  {
    var ls := TestLines(target, src);
    TestLinesFree(target, src);
    var w := ls[..7];
    assert w[..1][..0] == w[..0] && w[..2][..1] == w[..1] && w[..3][..2] == w[..2];
    assert w[..4][..3] == w[..3] && w[..5][..4] == w[..4] && w[..6][..5] == w[..5];
    assert w[..7][..6] == w[..6] && w[..7] == w;
    assert Unlines(w[..1]) == "" + "\n";
    assert Unlines(w[..2]) == "" + "\n" + w[1] + "\n";
    assert Unlines(w[..3]) == "" + "\n" + w[1] + "\n" + w[2] + "\n";
    assert Unlines(w[..4]) == "" + "\n" + w[1] + "\n" + w[2] + "\n" + "" + "\n";
    assert Unlines(w[..5]) == "" + "\n" + w[1] + "\n" + w[2] + "\n" + "" + "\n" + w[4] + "\n";
    assert Unlines(w[..6]) == "" + "\n" + w[1] + "\n" + w[2] + "\n" + "" + "\n" + w[4] + "\n" + "" + "\n";
    assert Unlines(w) == "" + "\n" + w[1] + "\n" + w[2] + "\n" + "" + "\n" + w[4] + "\n" + "" + "\n" + w[6] + "\n";
    assert Unlines(w) + ls[7] == TestText(target, src);
    LinesOfUnlinesThen(w, ls[7]);
    assert w + [ls[7]] == ls;
  }

  lemma SkipBlank(line: string)
    requires forall i :: 0 <= i < |line| ==> line[i] == ' '
    ensures ClassifyLine(line) == Skip
  {
    TrimAround(line, [], []);
    assert line + [] + [] == line;
  }

  /** The unit test's last line: eight spaces. */
  lemma SkipPadding()
    ensures ClassifyLine("        ") == Skip
  {
    SkipBlank("        ");
  }

  lemma SkipComment(line: string)
    requires line == Indent + "# Some comments"
    ensures ClassifyLine(line) == Skip
  {
    TrimIndented(Indent, "# Some comments");
  }

  lemma RuleWithDep(line: string, target: string, src: string)
    requires line == Indent + target + ": " + src
    requires Word(target) && Word(src)
    ensures ClassifyLine(line) == Rule(target, [src])
  {
    assert ClassifyLine(line) == Rule(target, Deps(" " + src)) by {
      assert WordChar(src[|src| - 1]);
      ColonSpace(Indent + target, src);
      RuleLine(line, target, " " + src);
    }
    DepsOfWord(src);
  }

  lemma ColonSpace(a: string, b: string)
    ensures a + ": " + b == a + ":" + (" " + b)
  {
    assert ": " == ":" + " ";
  }

  lemma RuleNoDeps(line: string, src: string)
    requires line == Indent + src + ":"
    requires Word(src)
    ensures ClassifyLine(line) == Rule(src, [])
  {
    assert line == Indent + src + ":" + "";
    RuleLine(line, src, "");
    assert Deps("") == [];
  }

  lemma WordDotD(w: string)
    requires Word(w)
    ensures Word(w + ".d")
  {
    forall i | 0 <= i < |w + ".d"| ensures WordChar((w + ".d")[i]) {
      if i < |w| { assert (w + ".d")[i] == w[i]; }
    }
  }

  /** The unit test's file, parsed line by line: the map after each prefix. */
  lemma TestPrefix2(target: string, src: string)
    ensures Fold(Classify(TestLines(target, src)[..2])) == Ok(map[])
  {
    var ls := TestLines(target, src);
    assert ls[..0] == [];
    assert ClassifyLine(ls[0]) == Skip by {
      SkipBlank(ls[0]);
    }
    FoldSnoc(ls, 0);
    assert ClassifyLine(ls[1]) == Skip by {
      SkipComment(ls[1]);
    }
    FoldSnoc(ls, 1);
  }

  lemma TestPrefix3(target: string, src: string)
    requires Word(target) && Word(src)
    ensures Fold(Classify(TestLines(target, src)[..3])) == Ok(map[target := [src]])
  {
    var ls := TestLines(target, src);
    TestPrefix2(target, src);
    assert ClassifyLine(ls[2]) == Rule(target, [src]) by {
      RuleWithDep(ls[2], target, src);
    }
    FoldSnoc(ls, 2);
  }

  lemma TestPrefix4(target: string, src: string)
    requires Word(target) && Word(src)
    ensures Fold(Classify(TestLines(target, src)[..4])) == Ok(map[target := [src]])
  {
    var ls := TestLines(target, src);
    TestPrefix3(target, src);
    assert ClassifyLine(ls[3]) == Skip by {
      SkipBlank(ls[3]);
    }
    FoldSnoc(ls, 3);
  }

  lemma TestPrefix5(target: string, src: string)
    requires Word(target) && Word(src)
    ensures Fold(Classify(TestLines(target, src)[..5])) == Ok(map[target := [src], target + ".d" := [src]])
  {
    var ls := TestLines(target, src);
    TestPrefix4(target, src);
    assert ClassifyLine(ls[4]) == Rule(target + ".d", [src]) by {
      WordDotD(target);
      assert ls[4] == Indent + (target + ".d") + ": " + src;
      RuleWithDep(ls[4], target + ".d", src);
    }
    FoldSnoc(ls, 4);
  }

  lemma TestPrefix6(target: string, src: string)
    requires Word(target) && Word(src)
    ensures Fold(Classify(TestLines(target, src)[..6])) == Ok(map[target := [src], target + ".d" := [src]])
  {
    var ls := TestLines(target, src);
    TestPrefix5(target, src);
    assert ClassifyLine(ls[5]) == Skip by {
      SkipBlank(ls[5]);
    }
    FoldSnoc(ls, 5);
  }

  lemma TestPrefix7(target: string, src: string)
    requires Word(target) && Word(src)
    ensures Fold(Classify(TestLines(target, src)[..7]))
         == Ok(map[target := [src], target + ".d" := [src], src := []])
  {
    var ls := TestLines(target, src);
    TestPrefix6(target, src);
    assert ClassifyLine(ls[6]) == Rule(src, []) by {
      RuleNoDeps(ls[6], src);
    }
    FoldSnoc(ls, 6);
  }

  lemma TestPrefix8(target: string, src: string)
    requires Word(target) && Word(src)
    ensures Fold(Classify(TestLines(target, src)[..8]))
         == Ok(map[target := [src], target + ".d" := [src], src := []])
  {
    var ls := TestLines(target, src);
    TestPrefix7(target, src);
    assert ClassifyLine(ls[7]) == Skip by {
      SkipPadding();
    }
    FoldSnoc(ls, 7);
  }

  lemma TestParseLines(target: string, src: string)
    requires Word(target) && Word(src)
    ensures ParseLines(TestLines(target, src)) == Ok(map[target := [src], target + ".d" := [src], src := []])
  {
    var ls := TestLines(target, src);
    TestPrefix8(target, src);
    TakeAll(ls);
  }

  /** The unit test of `DepInfo::parse`, for any target and source file: the
      target gets the source file, and the source file is itself a target
      with no dependencies. */
  lemma TestParse(target: string, src: string)
    requires Word(target) && Word(src) && target != src
    ensures ParseLines(Lines(TestText(target, src))).Ok?
    ensures ParseLines(Lines(TestText(target, src))).value.Keys == {target, target + ".d", src}
    ensures ParseLines(Lines(TestText(target, src))).value[target] == [src]
    ensures ParseLines(Lines(TestText(target, src))).value[src] == []
  {
    TestTextLines(target, src);
    TestParseLines(target, src);
    TestMap(target, src);
  }

  lemma TestMap(target: string, src: string)
    requires target != src
    ensures var m := map[target := [src], target + ".d" := [src], src := []];
            m.Keys == {target, target + ".d", src} && m[target] == [src] && m[src] == []
  {
    assert |target + ".d"| != |target|;
  }

  /** The target of the unit test, assembled from pieces that are each
      easy to check character by character. */
  const Target: string := "/something/" + "target/debug/" + "deps/" + "something-" + "152c1f4ab9b42169"

  predicate WordChars(s: string) {
    forall i :: 0 <= i < |s| ==> WordChar(s[i])
  }

  lemma TargetIsWord()
    ensures Word(Target)
  {
    assert Word("/something/");
    assert WordChars("target/debug/");
    WordAppend("/something/", "target/debug/");
    assert WordChars("deps/");
    WordAppend("/something/" + "target/debug/", "deps/");
    assert WordChars("something-");
    WordAppend("/something/" + "target/debug/" + "deps/", "something-");
    assert WordChars("152c1f4ab9b42169");
    WordAppend("/something/" + "target/debug/" + "deps/" + "something-", "152c1f4ab9b42169");
  }

  /** The unit test itself. */
  lemma ParseExample()
    ensures ParseLines(Lines(TestText(Target, "src/main.rs"))).Ok?
    ensures ParseLines(Lines(TestText(Target, "src/main.rs"))).value.Keys == {Target, Target + ".d", "src/main.rs"}
    ensures ParseLines(Lines(TestText(Target, "src/main.rs"))).value[Target] == ["src/main.rs"]
    ensures ParseLines(Lines(TestText(Target, "src/main.rs"))).value["src/main.rs"] == []
  {
    TargetIsWord();
    assert Word("src/main.rs");
    assert |Target| != |"src/main.rs"|;
    TestParse(Target, "src/main.rs");
  }

  lemma WordAppend(a: string, b: string)
    requires Word(a) && WordChars(b)
    ensures Word(a + b)
  {
    forall i | 0 <= i < |a + b| ensures WordChar((a + b)[i]) {
      if i < |a| { assert (a + b)[i] == a[i]; } else { assert (a + b)[i] == b[i - |a|]; }
    }
  }
}
