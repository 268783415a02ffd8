/**
  Decides whether a remote path is excluded by a list of exclusion patterns.
  A pattern holding `*` is a whole-path glob; any other pattern excludes the
  path it names and every path beneath it.
*/
module ExclusionMatcher {
  import opened Seqs

  /** True when some pattern of the list matches `path`; the list is searched in order. */
  function ShouldExclude(path: string, patterns: seq<string>): (r: bool)
    ensures patterns == [] ==> !r
    ensures r <==> exists k :: 0 <= k < |patterns| && MatchesPattern(path, patterns[k])
  {
    if patterns == [] then false
    else if MatchesPattern(path, patterns[0]) then true
    else
      var rest := ShouldExclude(path, patterns[1..]);
      assert forall k :: 1 <= k < |patterns| ==> patterns[k] == patterns[1..][k - 1];
      rest
  }

  /** Which of the two matchers a pattern selects. */
  function MatchesPattern(path: string, pattern: string): bool {
    if '*' in pattern then MatchesWildcard(path, pattern) else MatchesExactOrPrefix(path, pattern)
  }

  /**
    The regular expression `^` + escaped pattern (with every escaped `*` turned
    into `.*`) + `$`: every character but `*` stands for itself, and the whole
    path must be consumed.
  */
  function MatchesWildcard(path: string, pattern: string): bool {
    Glob(pattern, path)
  }

  /** The path is the pattern itself, or lies beneath it: the pattern is followed by a `/`. */
  function MatchesExactOrPrefix(path: string, pattern: string): (r: bool)
    ensures r <==> pattern <= path && (|path| == |pattern| || path[|pattern|] == '/')
  {
    assert pattern + "/" <= path ==> path[..|pattern|] == pattern;
    assert pattern <= path && |path| > |pattern| && path[|pattern|] == '/' ==> path[..|pattern| + 1] == pattern + "/";
    path == pattern || pattern + "/" <= path
  }

  /** Anchored glob: `*` consumes any, possibly empty, run of characters, `/` included. */
  function Glob(pattern: string, path: string): bool
    decreases |pattern| + |path|
  {
    if pattern == [] then path == []
    else if pattern[0] == '*' then Glob(pattern[1..], path) || (path != [] && Glob(pattern, path[1..]))
    else path != [] && path[0] == pattern[0] && Glob(pattern[1..], path[1..])
  }

  // A reference meaning for globs: a path matches iff it is the pattern with each `*`
  // replaced by some string.

  function StarCount(pattern: string): nat {
    if pattern == [] then 0 else (if pattern[0] == '*' then 1 else 0) + StarCount(pattern[1..])
  }

  /** The pattern with its i-th `*` replaced by `fills[i]`. */
  function Expand(pattern: string, fills: seq<string>): string
    requires |fills| == StarCount(pattern)
  {
    if pattern == [] then []
    else if pattern[0] == '*' then fills[0] + Expand(pattern[1..], fills[1..])
    else [pattern[0]] + Expand(pattern[1..], fills)
  }

  /** The strings that the stars of `pattern` consume when it matches `path`. */
  function Fills(pattern: string, path: string): (fills: seq<string>)
    requires Glob(pattern, path)
    ensures |fills| == StarCount(pattern) && Expand(pattern, fills) == path
    decreases |pattern| + |path|
  {
    if pattern == [] then []
    else if pattern[0] == '*' then
      if Glob(pattern[1..], path) then [""] + Fills(pattern[1..], path)
      else
        var f := Fills(pattern, path[1..]);
        ExpandGrowFirst(pattern, path[0], f);
        assert path == [path[0]] + path[1..];
        [[path[0]] + f[0]] + f[1..]
    else
      assert path == [path[0]] + path[1..];
      Fills(pattern[1..], path[1..])
  }

  /** Giving the leading `*` one more character puts that character in front of the expansion. */
  lemma ExpandGrowFirst(pattern: string, c: char, fills: seq<string>)
    requires pattern != [] && pattern[0] == '*' && |fills| == StarCount(pattern)
    ensures |[[c] + fills[0]] + fills[1..]| == StarCount(pattern)
    ensures Expand(pattern, [[c] + fills[0]] + fills[1..]) == [c] + Expand(pattern, fills)
  {
    var g := [[c] + fills[0]] + fills[1..];
    assert g[0] == [c] + fills[0] && g[1..] == fills[1..];
    AppendAssociative([c], fills[0], Expand(pattern[1..], fills[1..]));
  }

  lemma {:induction false} StarAbsorbs(pattern: string, prefix: string, rest: string)
    requires pattern != [] && pattern[0] == '*'
    requires Glob(pattern[1..], rest)
    ensures Glob(pattern, prefix + rest)
    decreases |prefix|
  {
    var s := prefix + rest;
    if prefix != [] {
      assert s != [] && s[1..] == prefix[1..] + rest;
      StarAbsorbs(pattern, prefix[1..], rest);
      assert Glob(pattern, s[1..]);
    } else {
      assert s == rest;
    }
  }

  lemma {:induction false} GlobComplete(pattern: string, fills: seq<string>)
    requires |fills| == StarCount(pattern)
    ensures Glob(pattern, Expand(pattern, fills))
    decreases |pattern|
  {
    if pattern != [] {
      if pattern[0] == '*' {
        GlobComplete(pattern[1..], fills[1..]);
        StarAbsorbs(pattern, fills[0], Expand(pattern[1..], fills[1..]));
      } else {
        GlobComplete(pattern[1..], fills);
        var p := Expand(pattern, fills);
        assert p[1..] == Expand(pattern[1..], fills);
      }
    }
  }

  /** A path matches a glob exactly when it is one of the glob's expansions. */
  lemma GlobMeaning(pattern: string, path: string)
    ensures Glob(pattern, path) <==>
      exists fills :: |fills| == StarCount(pattern) && Expand(pattern, fills) == path
  {
    if Glob(pattern, path) {
      var f := Fills(pattern, path);
    }
    forall fills | |fills| == StarCount(pattern) && Expand(pattern, fills) == path
      ensures Glob(pattern, path)
    {
      GlobComplete(pattern, fills);
    }
  }

  /** Without a `*`, a glob matches only the pattern text itself. */
  lemma {:induction false} GlobLiteral(pattern: string, path: string)
    requires '*' !in pattern
    ensures Glob(pattern, path) <==> path == pattern
    decreases |pattern|
  {
    if pattern != [] {
      assert '*' !in pattern[1..];
      if path != [] {
        GlobLiteral(pattern[1..], path[1..]);
        assert path == [path[0]] + path[1..];
        assert pattern == [pattern[0]] + pattern[1..];
      }
    }
  }

  /** A star-free head must be a prefix of the path; the rest of the pattern matches the rest. */
  lemma {:induction false} GlobLiteralHead(head: string, tail: string, path: string)
    requires '*' !in head
    ensures Glob(head + tail, path) <==> head <= path && Glob(tail, path[|head|..])
    decreases |head|
  {
    if head != [] {
      var pattern := head + tail;
      assert pattern[0] == head[0] && pattern[1..] == head[1..] + tail;
      assert '*' !in head[1..];
      if path != [] {
        GlobLiteralHead(head[1..], tail, path[1..]);
        if |head| <= |path| {
          assert path[1..][|head| - 1..] == path[|head|..];
        }
        assert head <= path <==> path[0] == head[0] && head[1..] <= path[1..];
      }
    } else {
      assert head + tail == tail;
    }
  }

  /** A leading `*` may skip any number of leading characters. */
  lemma {:induction false} GlobLeadingStar(tail: string, path: string)
    ensures Glob("*" + tail, path) <==> exists j :: 0 <= j <= |path| && Glob(tail, path[j..])
    decreases |path|
  {
    var pattern := "*" + tail;
    assert pattern[1..] == tail;
    assert path[0..] == path;
    if path != [] {
      GlobLeadingStar(tail, path[1..]);
      if Glob(pattern, path[1..]) {
        var j :| 0 <= j <= |path[1..]| && Glob(tail, path[1..][j..]);
        assert path[1..][j..] == path[j + 1..];
      }
      forall j | 0 < j <= |path| && Glob(tail, path[j..]) ensures Glob(pattern, path[1..]) {
        assert path[1..][j - 1..] == path[j..];
      }
    }
  }

  /**
    For star-free `a` and `b`, the glob `a*b` matches exactly the paths that
    start with `a`, end with `b`, and are long enough for both.
  */
  lemma WildcardBetween(a: string, b: string, path: string)
    requires '*' !in a && '*' !in b
    ensures MatchesPattern(path, a + "*" + b) <==>
      |path| >= |a| + |b| && a <= path && path[|path| - |b|..] == b
  {
    var pattern := a + "*" + b;
    assert '*' in pattern by { assert pattern[|a|] == '*'; }
    assert pattern == a + ("*" + b);
    GlobLiteralHead(a, "*" + b, path);
    if a <= path {
      var rest := path[|a|..];
      GlobLeadingStar(b, rest);
      forall j | 0 <= j <= |rest| ensures Glob(b, rest[j..]) <==> rest[j..] == b {
        GlobLiteral(b, rest[j..]);
      }
      if |path| >= |a| + |b| && path[|path| - |b|..] == b {
        assert rest[|rest| - |b|..] == path[|path| - |b|..];
      }
      if Glob("*" + b, rest) {
        var j :| 0 <= j <= |rest| && rest[j..] == b;
        assert rest[j..] == path[|a| + j..];
      }
    }
  }

  /** A trailing `*` turns a star-free prefix into an anchored prefix test. */
  lemma WildcardAtEnd(a: string, path: string)
    requires '*' !in a
    ensures MatchesPattern(path, a + "*") <==> a <= path
  {
    WildcardBetween(a, "", path);
    assert a + "*" + "" == a + "*";
  }

  /** `middle` occurs in `path` starting at position `j`. */
  predicate OccursAt(path: string, middle: string, j: int) {
    0 <= j && j + |middle| <= |path| && path[j..j + |middle|] == middle
  }

  /** `*m*` with a star-free middle asks for `m` somewhere in the path. */
  lemma WildcardAround(middle: string, path: string)
    requires '*' !in middle
    ensures MatchesPattern(path, "*" + middle + "*") <==> exists j :: OccursAt(path, middle, j)
  {
    var pattern := "*" + middle + "*";
    assert '*' in pattern by { assert pattern[0] == '*'; }
    assert pattern == "*" + (middle + "*");
    GlobLeadingStar(middle + "*", path);
    forall j | 0 <= j <= |path|
      ensures Glob(middle + "*", path[j..]) <==> OccursAt(path, middle, j)
    {
      WildcardAtEnd(middle, path[j..]);
      assert '*' in middle + "*" by { assert (middle + "*")[|middle|] == '*'; }
      if j + |middle| <= |path| {
        assert path[j..][..|middle|] == path[j..j + |middle|];
      }
    }
    if exists j :: OccursAt(path, middle, j) {
      var j :| OccursAt(path, middle, j);
      assert Glob(middle + "*", path[j..]);
    }
  }

  /** A pattern without `*` matches the path itself and the paths beneath it. */
  lemma LiteralPattern(path: string, pattern: string)
    requires '*' !in pattern
    ensures ShouldExclude(path, [pattern]) <==> path == pattern || pattern + "/" <= path
  {
    assert [pattern][0] == pattern;
  }

  /** Whatever a literal pattern excludes, it excludes together with all descendants. */
  lemma LiteralDescendant(path: string, pattern: string, child: string)
    requires '*' !in pattern
    requires MatchesPattern(path, pattern)
    ensures MatchesPattern(path + "/" + child, pattern)
  {
    var p := path + "/" + child;
    assert p[..|path|] == path;
    if |path| == |pattern| {
      assert p[|pattern|] == '/';
    } else {
      assert p[|pattern|] == path[|pattern|];
    }
  }

  /** The verdict depends only on which patterns are present, not on their order or repetition. */
  lemma PatternOrderIrrelevant(path: string, patterns: seq<string>, reordered: seq<string>)
    requires forall q :: q in patterns <==> q in reordered
    ensures ShouldExclude(path, patterns) == ShouldExclude(path, reordered)
  {
    if ShouldExclude(path, patterns) {
      var k :| 0 <= k < |patterns| && MatchesPattern(path, patterns[k]);
      assert patterns[k] in reordered;
      var j :| 0 <= j < |reordered| && reordered[j] == patterns[k];
    }
    if ShouldExclude(path, reordered) {
      var k :| 0 <= k < |reordered| && MatchesPattern(path, reordered[k]);
      assert reordered[k] in patterns;
      var j :| 0 <= j < |patterns| && patterns[j] == reordered[k];
    }
  }

  // The source's own examples.

  // The pattern `*/logs/*` excludes exactly the paths in which `/logs/` occurs.
  lemma LogsPattern(path: string)
    ensures ShouldExclude(path, ["*/logs/*"]) <==> exists j :: OccursAt(path, "/logs/", j)
  {
    assert "*/logs/*" == "*" + "/logs/" + "*";
    assert ["*/logs/*"][0] == "*/logs/*";
    WildcardAround("/logs/", path);
  }

  lemma LogsPatternMatches(path: string)
    requires path == "/app/logs/debug" || path == "/system/logs/error.log"
    ensures ShouldExclude(path, ["*/logs/*"])
  {
    LogsPattern(path);
    var j := if path == "/app/logs/debug" then 4 else 7;
    assert |"/logs/"| == 6 && j + 6 <= |path|;
    assert path[j..j + 6] == "/logs/";
    assert OccursAt(path, "/logs/", j);
  }

  lemma LogsPatternRejects(path: string)
    requires path == "/app/data/logs" || path == "/logs"
    ensures !ShouldExclude(path, ["*/logs/*"])
  {
    LogsPattern(path);
    if path == "/app/data/logs" {
      forall j | 0 <= j && j + 6 <= |path| ensures !OccursAt(path, "/logs/", j) {
        assert path[1..10] == "app/data/";
        assert path[j + 1] == path[1..10][j];
        assert path[j..j + 6][1] == path[j + 1];
      }
    }
  }

  /** A literal pattern excludes a folder below it. */
  lemma LiteralPatternBelow(path: string)
    requires path == "/temp/subfolder"
    ensures ShouldExclude(path, ["/temp"])
  {
    LiteralPattern(path, "/temp");
    assert path[..6] == "/temp" + "/";
  }

  /** A literal pattern does not exclude a sibling that merely starts with the same letters. */
  lemma LiteralPatternSibling(path: string)
    requires path == "/temporary"
    ensures !ShouldExclude(path, ["/temp"])
  {
    LiteralPattern(path, "/temp");
    assert |path| > 6 && path[5] != '/';
  }

  /** A trailing `*` turns the pattern into a plain prefix, anchored at the start of the path. */
  lemma PrefixWildcard(path: string)
    requires path == "/temporary" || path == "/data/temp"
    ensures ShouldExclude(path, ["/temp*"]) <==> path == "/temporary"
  {
    assert "/temp" + "*" == "/temp*";
    assert ["/temp*"][0] == "/temp*";
    WildcardAtEnd("/temp", path);
    if path == "/temporary" {
      assert path[..5] == "/temp";
    } else {
      assert path[1] != 't';
    }
  }
}
