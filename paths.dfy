/** File-system paths as `std::path::Path` treats them in the core: a root
    marker and a list of normal components; `parent`, `join`, `file_name`
    and `with_file_name`. */
module Paths {
  import opened Outcomes
  import opened Text

  /** Whether the path starts at the root, then its normal components. */
  datatype Path = Path(absolute: bool, comps: seq<string>)

  /** A normal component: non-empty, not `.`, no separator. */
  predicate IsComponent(c: string) {
    c != [] && c != "." && '/' !in c
  }

  predicate WellFormed(p: Path) {
    forall i :: 0 <= i < |p.comps| ==> IsComponent(p.comps[i])
  }

  /** `Path::new(s)`, seen through `components()`: a leading `/` is the root,
      empty and `.` segments are not components. */
  function ParsePath(s: string): (p: Path)
    ensures WellFormed(p)
    ensures p.absolute <==> |s| > 0 && s[0] == '/'
  {
    Path(|s| > 0 && s[0] == '/', Filter(IsComponent, SplitOn(s, '/')))
  }

  /** `Path::parent`: nothing for the root and for the empty path. */
  function Parent(p: Path): (r: Option<Path>)
    ensures r.None? <==> p.comps == []
    ensures r.Some? ==> r.value.absolute == p.absolute && r.value.comps + [p.comps[|p.comps| - 1]] == p.comps
  {
    if p.comps == [] then None else Some(Path(p.absolute, p.comps[..|p.comps| - 1]))
  }

  /** `Path::join` (`push`): an absolute argument replaces the path, a relative
      one appends its components. */
  function JoinPath(p: Path, s: string): Path {
    var q := ParsePath(s);
    if q.absolute then q else Path(p.absolute, p.comps + q.comps)
  }

  /** Joining a single normal component appends exactly that component. */
  lemma JoinComponent(p: Path, c: string)
    requires IsComponent(c)
    ensures JoinPath(p, c) == Path(p.absolute, p.comps + [c])
  {
    assert Text.Join([c], '/') == c;
    JoinThenSplit([c], '/');
    FilterAll(IsComponent, [c]);
  }

  /** `path.join(c)` for one normal component `c`. */
  method JoinOne(path: Path, c: string) returns (joined: Path)
    requires IsComponent(c)
    ensures joined == Path(path.absolute, path.comps + [c])
  {
    joined := JoinPath(path, c);
    JoinComponent(path, c);
  }

  /** The path with its last component replaced by `name`. */
  function Sibling(p: Path, name: string): Path
    requires p.comps != []
  {
    Path(p.absolute, p.comps[..|p.comps| - 1] + [name])
  }

  /** Joining a normal component onto the parent gives the sibling. */
  lemma ParentJoin(p: Path, c: string)
    requires p.comps != [] && IsComponent(c)
    ensures JoinPath(Parent(p).value, c) == Sibling(p, c)
  {
    JoinComponent(Parent(p).value, c);
  }

  /** `Path::file_name`: the last component, unless there is none or it is `..`. */
  function PathFileName(p: Path): Option<string> {
    if p.comps == [] || p.comps[|p.comps| - 1] == ".." then None
    else Some(p.comps[|p.comps| - 1])
  }

  /** `Path::with_file_name`: the parent joined with the new name. */
  function WithFileName(p: Path, name: string): Path
    requires PathFileName(p).Some?
  {
    JoinPath(Path(p.absolute, p.comps[..|p.comps| - 1]), name)
  }

  /** The first `k` components: the ancestor reached after `|comps| - k` calls to `parent`. */
  function Ancestor(p: Path, k: nat): Path
    requires k <= |p.comps|
  {
    Path(p.absolute, p.comps[..k])
  }
}
