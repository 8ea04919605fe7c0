/** The `str` and slice operations the core relies on, stated once:
    `split`, `split_once`, `rsplit_once`, `starts_with`, `contains`,
    `trim`, `lines`, and iterator `filter`. */
module Text {
  import opened Outcomes

  // ---------------------------------------------------------------------------
  // split / join
  // ---------------------------------------------------------------------------

  /** `s.split(sep)`: the pieces between occurrences of `sep`, empty pieces
      included; there is always at least one piece. */
  function SplitOn<T(==)>(s: seq<T>, sep: T): (parts: seq<seq<T>>)
    ensures |parts| >= 1
    ensures forall i :: 0 <= i < |parts| ==> sep !in parts[i]
  {
    if |s| == 0 then [[]]
    else
      var rest := SplitOn(s[1..], sep);
      if s[0] == sep then [[]] + rest
      else [[s[0]] + rest[0]] + rest[1..]
  }

  /** The pieces glued back together with one `sep` between neighbours. */
  function Join<T>(parts: seq<seq<T>>, sep: T): seq<T>
    requires |parts| >= 1
  {
    if |parts| == 1 then parts[0] else parts[0] + [sep] + Join(parts[1..], sep)
  }

  /** Splitting loses nothing: joining the pieces gives back the input. */
  lemma {:induction false} SplitThenJoin<T>(s: seq<T>, sep: T)
    ensures Join(SplitOn(s, sep), sep) == s
  {
    if |s| > 0 {
      var rest := SplitOn(s[1..], sep);
      SplitThenJoin(s[1..], sep);
      if s[0] == sep {
        assert SplitOn(s, sep) == [[]] + rest;
        assert ([[]] + rest)[1..] == rest;
      } else {
        var parts := [[s[0]] + rest[0]] + rest[1..];
        assert SplitOn(s, sep) == parts;
        if |rest| == 1 {
          assert Join(parts, sep) == [s[0]] + rest[0];
        } else {
          assert parts[1..] == rest[1..];
          assert Join(rest, sep) == rest[0] + [sep] + Join(rest[1..], sep);
        }
        assert s == [s[0]] + s[1..];
      }
    }
  }

  lemma {:induction false} SplitPrefix<T>(p: seq<T>, t: seq<T>, sep: T)
    requires sep !in p
    ensures SplitOn(p + t, sep) == [p + SplitOn(t, sep)[0]] + SplitOn(t, sep)[1..]
  {
    if |p| > 0 {
      SplitPrefix(p[1..], t, sep);
      assert (p + t)[1..] == p[1..] + t;
      assert (p + t)[0] == p[0];
      assert [p[0]] + (p[1..] + SplitOn(t, sep)[0]) == p + SplitOn(t, sep)[0];
    } else {
      var st := SplitOn(t, sep);
      assert p + t == t;
      assert p + st[0] == st[0];
      assert [st[0]] + st[1..] == st;
    }
  }

  /** Joining one more piece adds a separator and the piece at the end. */
  lemma {:induction false} JoinSnoc<T>(parts: seq<seq<T>>, x: seq<T>, sep: T)
    requires |parts| >= 1
    ensures Join(parts + [x], sep) == Join(parts, sep) + [sep] + x
  {
    if |parts| > 1 {
      JoinSnoc(parts[1..], x, sep);
      assert (parts + [x])[1..] == parts[1..] + [x];
    } else {
      assert (parts + [x])[1..] == [x];
    }
  }

  /** Pieces free of `sep` are exactly what splitting their join gives. */
  lemma {:induction false} JoinThenSplit<T>(parts: seq<seq<T>>, sep: T)
    requires |parts| >= 1
    requires forall i :: 0 <= i < |parts| ==> sep !in parts[i]
    ensures SplitOn(Join(parts, sep), sep) == parts
  {
    if |parts| == 1 {
      SplitPrefix(parts[0], [], sep);
      assert parts[0] + [] == parts[0];
    } else {
      var tail := Join(parts[1..], sep);
      JoinThenSplit(parts[1..], sep);
      SplitPrefix(parts[0], [sep] + tail, sep);
      assert ([sep] + tail)[1..] == tail;
      var st := SplitOn([sep] + tail, sep);
      assert st == [[]] + parts[1..];
      assert st[0] == [] && st[1..] == parts[1..];
      assert parts[0] + st[0] == parts[0];
      assert Join(parts, sep) == parts[0] + ([sep] + tail);
      assert parts == [parts[0]] + parts[1..];
    }
  }

  // Sequence identities, each stated once so that proofs can cite them
  // instead of asking the solver for extensional equality.

  lemma AppendAssoc<T>(a: seq<T>, b: seq<T>, c: seq<T>)
    ensures a + b + c == a + (b + c)
  {
  }

  lemma AppendEmpty<T>(a: seq<T>)
    ensures a + [] == a && [] + a == a
  {
  }

  lemma TakeAll<T>(s: seq<T>)
    ensures s[..|s|] == s
  {
  }

  lemma TakeDrop<T>(s: seq<T>, k: nat)
    requires k <= |s|
    ensures s[..k] + s[k..] == s
  {
  }

  // ---------------------------------------------------------------------------
  // split_once / rsplit_once
  // ---------------------------------------------------------------------------

  /** Position of the first `x` in `s`. */
  function IndexOf<T(==)>(s: seq<T>, x: T): (i: nat)
    requires x in s
    ensures i < |s| && s[i] == x && x !in s[..i]
  {
    if s[0] == x then 0
    else
      var j := IndexOf(s[1..], x);
      assert s[..j + 1] == [s[0]] + s[1..][..j];
      1 + j
  }

  /** Position of the last `x` in `s`. */
  function LastIndexOf<T(==)>(s: seq<T>, x: T): (i: nat)
    requires x in s
    ensures i < |s| && s[i] == x && x !in s[i + 1..]
  {
    if s[|s| - 1] == x then |s| - 1
    else
      var init := s[..|s| - 1];
      assert x in init by {
        var k :| 0 <= k < |s| && s[k] == x;
        assert k < |s| - 1 && init[k] == x;
      }
      var j := LastIndexOf(init, x);
      assert s[j + 1..] == init[j + 1..] + [s[|s| - 1]];
      j
  }

  /** `s.split_once(sep)`: split at the FIRST `sep`, or nothing when there is none. */
  function SplitOnce<T(==)>(s: seq<T>, sep: T): (r: Option<(seq<T>, seq<T>)>)
    ensures r.None? <==> sep !in s
    ensures r.Some? ==> r.value.0 + [sep] + r.value.1 == s && sep !in r.value.0
  {
    if sep in s then
      var i := IndexOf(s, sep);
      assert s == s[..i] + [sep] + s[i + 1..];
      Some((s[..i], s[i + 1..]))
    else None
  }

  /** The split at the first `sep` is the only split whose left part lacks `sep`. */
  lemma SplitOnceUnique<T>(l: seq<T>, r: seq<T>, sep: T)
    requires sep !in l
    ensures SplitOnce(l + [sep] + r, sep) == Some((l, r))
  {
    var s := l + [sep] + r;
    var i := IndexOf(s, sep);
    assert s[..|l|] == l;
    assert s[|l|] == sep;
    assert i == |l|;
    assert s[i + 1..] == r;
  }

  /** `s.rsplit_once(sep)`: split at the LAST `sep`, or nothing when there is none. */
  function RSplitOnce<T(==)>(s: seq<T>, sep: T): (r: Option<(seq<T>, seq<T>)>)
    ensures r.None? <==> sep !in s
    ensures r.Some? ==> r.value.0 + [sep] + r.value.1 == s && sep !in r.value.1
  {
    if sep in s then
      var i := LastIndexOf(s, sep);
      assert s == s[..i] + [sep] + s[i + 1..];
      Some((s[..i], s[i + 1..]))
    else None
  }

  // ---------------------------------------------------------------------------
  // starts_with / contains / filter
  // ---------------------------------------------------------------------------

  predicate StartsWith<T(==)>(s: seq<T>, prefix: seq<T>) {
    |prefix| <= |s| && s[..|prefix|] == prefix
  }

  /** `s.contains(sub)`: `sub` occurs somewhere in `s`. */
  predicate Contains<T(==)>(s: seq<T>, sub: seq<T>)
    decreases |s|
  {
    StartsWith(s, sub) || (|s| > 0 && Contains(s[1..], sub))
  }

  /** Iterator `filter`: the elements that satisfy `p`, in their original order. */
  function Filter<T>(p: T -> bool, s: seq<T>): (r: seq<T>)
    ensures |r| <= |s|
    ensures forall i :: 0 <= i < |r| ==> p(r[i])
  {
    if |s| == 0 then []
    else
      var init := Filter(p, s[..|s| - 1]);
      assert s == s[..|s| - 1] + [s[|s| - 1]];
      init + (if p(s[|s| - 1]) then [s[|s| - 1]] else [])
  }

  /** One more element of a prefix, filtered. */
  lemma FilterStep<T>(p: T -> bool, s: seq<T>, j: nat)
    requires j < |s|
    ensures Filter(p, s[..j + 1]) == Filter(p, s[..j]) + (if p(s[j]) then [s[j]] else [])
  {
    assert s[..j + 1][..j] == s[..j];
  }

  /** Filtering keeps exactly the elements that satisfy `p`. */
  lemma {:induction false} FilterMembership<T>(p: T -> bool, s: seq<T>)
    ensures forall x :: x in Filter(p, s) <==> x in s && p(x)
  {
    if |s| > 0 {
      var init := s[..|s| - 1];
      FilterMembership(p, init);
      assert s == init + [s[|s| - 1]];
      forall x ensures x in s <==> x in init || x == s[|s| - 1] {
      }
    }
  }

  /** What holds of every element holds of every element kept. */
  lemma {:induction false} FilterPreserves<T>(p: T -> bool, q: T -> bool, s: seq<T>)
    requires forall i :: 0 <= i < |s| ==> q(s[i])
    ensures forall i :: 0 <= i < |Filter(p, s)| ==> q(Filter(p, s)[i])
  {
    if |s| > 0 {
      FilterPreserves(p, q, s[..|s| - 1]);
    }
  }

  lemma {:induction false} FilterAll<T>(p: T -> bool, s: seq<T>)
    requires forall i :: 0 <= i < |s| ==> p(s[i])
    ensures Filter(p, s) == s
  {
    if |s| > 0 {
      FilterAll(p, s[..|s| - 1]);
      assert s == s[..|s| - 1] + [s[|s| - 1]];
    }
  }

  lemma {:induction false} FilterAppend<T>(p: T -> bool, s: seq<T>, t: seq<T>)
    ensures Filter(p, s + t) == Filter(p, s) + Filter(p, t)
    decreases |t|
  {
    if |t| == 0 {
      assert s + t == s;
    } else {
      var t' := t[..|t| - 1];
      var last := if p(t[|t| - 1]) then [t[|t| - 1]] else [];
      FilterAppend(p, s, t');
      assert (s + t)[..|s + t| - 1] == s + t';
      assert Filter(p, s + t) == Filter(p, s + t') + last;
      assert Filter(p, t) == Filter(p, t') + last;
      assert Filter(p, s) + Filter(p, t') + last == Filter(p, s) + (Filter(p, t') + last);
    }
  }

  /** `x` is `s` with some elements removed, the rest in order. */
  predicate IsSubsequence<T(==)>(x: seq<T>, s: seq<T>)
    decreases |s|
  {
    |x| == 0 || (|s| > 0 &&
      if x[|x| - 1] == s[|s| - 1] then IsSubsequence(x[..|x| - 1], s[..|s| - 1])
      else IsSubsequence(x, s[..|s| - 1]))
  }

  /** Filtering keeps order: its result is a subsequence of its input. */
  lemma {:induction false} FilterIsSubsequence<T>(p: T -> bool, s: seq<T>)
    ensures IsSubsequence(Filter(p, s), s)
  {
    if |s| > 0 {
      var init := s[..|s| - 1];
      FilterIsSubsequence(p, init);
      SubsequenceExtend(Filter(p, init), init, s[|s| - 1]);
      assert s == init + [s[|s| - 1]];
      if p(s[|s| - 1]) {
        var r := Filter(p, s);
        assert r[..|r| - 1] == Filter(p, init);
      } else {
        assert Filter(p, s) == Filter(p, init);
      }
    }
  }

  lemma {:induction false} SubsequenceExtend<T>(x: seq<T>, s: seq<T>, e: T)
    requires IsSubsequence(x, s)
    ensures IsSubsequence(x, s + [e])
    decreases |s|, 1
  {
    var s' := s + [e];
    assert s'[..|s'| - 1] == s;
    if |x| > 0 && x[|x| - 1] == e {
      // Either branch of the definition applies; show the matching one holds.
      SubsequenceInit(x, s);
    }
  }

  lemma {:induction false} SubsequenceInit<T>(x: seq<T>, s: seq<T>)
    requires |x| > 0 && IsSubsequence(x, s)
    ensures IsSubsequence(x[..|x| - 1], s)
    decreases |s|, 0
  {
    var x' := x[..|x| - 1];
    if |x'| > 0 {
      if x[|x| - 1] == s[|s| - 1] {
        SubsequenceExtend(x', s[..|s| - 1], s[|s| - 1]);
        assert s[..|s| - 1] + [s[|s| - 1]] == s;
      } else {
        SubsequenceInit(x, s[..|s| - 1]);
        SubsequenceExtend(x', s[..|s| - 1], s[|s| - 1]);
        assert s[..|s| - 1] + [s[|s| - 1]] == s;
      }
    }
  }

  // ---------------------------------------------------------------------------
  // trim
  // ---------------------------------------------------------------------------

  /** Rust's `char::is_whitespace`: the Unicode White_Space property. */
  predicate IsWhitespace(c: char) {
    || ('\t' <= c <= '\r')
    || c == ' '
    || c == '\U{0085}'
    || c == '\U{00A0}'
    || c == '\U{1680}'
    || ('\U{2000}' <= c <= '\U{200A}')
    || c == '\U{2028}'
    || c == '\U{2029}'
    || c == '\U{202F}'
    || c == '\U{205F}'
    || c == '\U{3000}'
  }

  function TrimStart(s: string): (r: string)
    ensures |r| <= |s| && r == s[|s| - |r|..]
    ensures r == [] || !IsWhitespace(r[0])
    ensures forall j :: 0 <= j < |s| - |r| ==> IsWhitespace(s[j])
  {
    if |s| > 0 && IsWhitespace(s[0]) then TrimStart(s[1..]) else s
  }

  function TrimEnd(s: string): (r: string)
    ensures |r| <= |s| && r == s[..|r|]
    ensures r == [] || !IsWhitespace(r[|r| - 1])
    ensures forall j :: |r| <= j < |s| ==> IsWhitespace(s[j])
  {
    if |s| > 0 && IsWhitespace(s[|s| - 1]) then TrimEnd(s[..|s| - 1]) else s
  }

  /** `s.trim()`: `s` without its leading and trailing whitespace. */
  function Trim(s: string): string {
    TrimEnd(TrimStart(s))
  }

  /** What `trim` leaves neither starts nor ends with whitespace, and holds
      only characters of its input. */
  lemma TrimEdges(s: string)
    ensures Trim(s) == [] || (!IsWhitespace(Trim(s)[0]) && !IsWhitespace(Trim(s)[|Trim(s)| - 1]))
    ensures forall c :: c in Trim(s) ==> c in s
  {
    TrimEnds(s);
    TrimWithin(s);
  }

  lemma TrimEnds(s: string)
    ensures Trim(s) == [] || (!IsWhitespace(Trim(s)[0]) && !IsWhitespace(Trim(s)[|Trim(s)| - 1]))
  {
    var t := TrimStart(s);
    assert Trim(s) == t[..|Trim(s)|];
  }

  lemma TrimWithin(s: string)
    ensures forall c :: c in Trim(s) ==> c in s
  {
    var t := TrimStart(s);
    var r := Trim(s);
    assert r == s[|s| - |t|..][..|r|];
    forall c | c in r ensures c in s {
      var k :| 0 <= k < |r| && r[k] == c;
      assert s[|s| - |t| + k] == c;
    }
  }

  /** A string that neither starts nor ends with whitespace is its own trim. */
  lemma TrimOfTrimmed(s: string)
    requires s == [] || (!IsWhitespace(s[0]) && !IsWhitespace(s[|s| - 1]))
    ensures Trim(s) == s
  {
  }

  /** Trimming removes exactly the whitespace around a non-whitespace core. */
  lemma {:induction false} TrimAround(pre: string, core: string, post: string)
    requires forall i :: 0 <= i < |pre| ==> IsWhitespace(pre[i])
    requires forall i :: 0 <= i < |post| ==> IsWhitespace(post[i])
    requires core == [] || (!IsWhitespace(core[0]) && !IsWhitespace(core[|core| - 1]))
    requires core == [] ==> post == []
    ensures Trim(pre + core + post) == core
  {
    var rest := core + post;
    assert rest == [] || !IsWhitespace(rest[0]) by {
      assert rest == [] || rest[0] == core[0];
    }
    assert pre + core + post == pre + rest;
    assert TrimStart(pre + rest) == rest by {
      TrimStartDrops(pre, rest);
    }
    TrimEndDrops(core, post);
  }

  lemma {:induction false} TrimStartDrops(pre: string, rest: string)
    requires forall i :: 0 <= i < |pre| ==> IsWhitespace(pre[i])
    requires rest == [] || !IsWhitespace(rest[0])
    ensures TrimStart(pre + rest) == rest
  {
    if |pre| > 0 {
      var s := pre + rest;
      assert s[0] == pre[0] && s[1..] == pre[1..] + rest;
      TrimStartDrops(pre[1..], rest);
    } else {
      assert pre + rest == rest;
    }
  }

  lemma {:induction false} TrimEndDrops(core: string, post: string)
    requires forall i :: 0 <= i < |post| ==> IsWhitespace(post[i])
    requires core == [] || !IsWhitespace(core[|core| - 1])
    ensures TrimEnd(core + post) == core
    decreases |post|
  {
    if |post| > 0 {
      var post' := post[..|post| - 1];
      TrimEndDrops(core, post');
      assert (core + post)[..|core + post| - 1] == core + post';
    } else {
      assert core + post == core;
    }
  }

  // ---------------------------------------------------------------------------
  // lines
  // ---------------------------------------------------------------------------

  /** Drop one trailing carriage return. */
  function StripCr(l: string): string {
    if |l| > 0 && l[|l| - 1] == '\r' then l[..|l| - 1] else l
  }

  /** `s.lines()`: split at each `\n`; a piece that was followed by `\n` loses
      one trailing `\r`; a final empty piece (input ending in `\n`, or empty
      input) is not a line. */
  function Lines(s: string): (ls: seq<string>)
    ensures forall i :: 0 <= i < |ls| ==> '\n' !in ls[i]
  {
    var parts := SplitOn(s, '\n');
    var n := |parts|;
    var ended := seq(n - 1, i requires 0 <= i < n - 1 => StripCr(parts[i]));
    if parts[n - 1] == [] then ended else ended + [parts[n - 1]]
  }

  /** Each line followed by a newline: what a loop of `writeln!` produces. */
  function Unlines(ls: seq<string>): string {
    if |ls| == 0 then [] else Unlines(ls[..|ls| - 1]) + ls[|ls| - 1] + "\n"
  }

  /** One more `writeln!`. */
  lemma UnlinesSnoc(ls: seq<string>, l: string)
    ensures Unlines(ls + [l]) == Unlines(ls) + l + "\n"
  {
    assert (ls + [l])[..|ls|] == ls;
  }

  lemma {:induction false} UnlinesIsJoin(ls: seq<string>)
    ensures Unlines(ls) == Join(ls + [[]], '\n')
  {
    if |ls| > 0 {
      var init := ls[..|ls| - 1];
      UnlinesIsJoin(init);
      JoinAppend(init, ls[|ls| - 1], '\n');
      assert init + [ls[|ls| - 1]] == ls;
    }
  }

  lemma {:induction false} JoinAppend<T>(parts: seq<seq<T>>, last: seq<T>, sep: T)
    ensures Join(parts + [last] + [[]], sep) == Join(parts + [[]], sep) + last + [sep]
  {
    if |parts| == 0 {
      assert parts + [last] + [[]] == [last, []];
      assert Join([last, []], sep) == last + [sep] + Join([[]], sep);
      assert parts + [[]] == [[]];
    } else {
      JoinAppend(parts[1..], last, sep);
      assert (parts + [last] + [[]])[1..] == parts[1..] + [last] + [[]];
      assert (parts + [[]])[1..] == parts[1..] + [[]];
    }
  }

  /** `lines` undoes `writeln!` for lines free of `\n` that do not end in `\r`. */
  lemma LinesOfUnlines(ls: seq<string>)
    requires forall i :: 0 <= i < |ls| ==> '\n' !in ls[i]
    requires forall i :: 0 <= i < |ls| ==> ls[i] == [] || ls[i][|ls[i]| - 1] != '\r'
    ensures Lines(Unlines(ls)) == ls
  {
    var parts := ls + [[]];
    UnlinesIsJoin(ls);
    JoinThenSplit(parts, '\n');
    assert SplitOn(Unlines(ls), '\n') == parts;
    var ended := seq(|parts| - 1, i requires 0 <= i < |parts| - 1 => StripCr(parts[i]));
    assert ended == ls;
  }

  lemma {:induction false} JoinExtendLast<T>(parts: seq<seq<T>>, x: seq<T>, y: seq<T>, sep: T)
    ensures Join(parts + [x], sep) + y == Join(parts + [x + y], sep)
  {
    var a, b := parts + [x], parts + [x + y];
    if |parts| > 0 {
      assert a[1..] == parts[1..] + [x] && b[1..] == parts[1..] + [x + y];
      JoinExtendLast(parts[1..], x, y, sep);
      var ja := Join(a[1..], sep);
      assert Join(a, sep) == parts[0] + [sep] + ja;
      assert Join(b, sep) == parts[0] + [sep] + (ja + y);
      assert parts[0] + [sep] + ja + y == parts[0] + [sep] + (ja + y);
    } else {
      assert a == [x] && b == [x + y];
    }
  }

  /** `lines` of whole lines followed by an unterminated last line. */
  lemma LinesOfUnlinesThen(ls: seq<string>, last: string)
    requires last != [] && '\n' !in last
    requires forall i :: 0 <= i < |ls| ==> '\n' !in ls[i]
    requires forall i :: 0 <= i < |ls| ==> ls[i] == [] || ls[i][|ls[i]| - 1] != '\r'
    ensures Lines(Unlines(ls) + last) == ls + [last]
  {
    UnlinesIsJoin(ls);
    JoinExtendLast(ls, [], last, '\n');
    assert [] + last == last;
    var all := ls + [last];
    JoinThenSplit(all, '\n');
    var ended := seq(|all| - 1, i requires 0 <= i < |all| - 1 => StripCr(all[i]));
    assert ended == ls;
  }
}
