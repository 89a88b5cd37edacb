/**
 * Path handling shared by the fetcher and the video builder: POSIX `os.path.join`, the
 * `strftime` fields of a date, `os.makedirs` guarded by `os.path.exists` on a file system
 * modelled as the set of existing directory paths, and the shell-style pattern matching
 * that ffmpeg's `-pattern_type glob` applies to file names.
 */
module Paths {
  import opened Text
  import opened Calendar

  // ---------------------------------------------------------------------------------------
  // os.path.join

  /** POSIX `os.path.join(a, b)`: an absolute `b` replaces `a`; a separator is added only when needed. */
  function PathJoin(a: string, b: string): string
  {
    if |b| > 0 && b[0] == '/' then b
    else if a == [] || a[|a| - 1] == '/' then a + b
    else a + "/" + b
  }

  /** `os.path.join(a, parts[0], parts[1], ...)`. */
  function PathJoinAll(a: string, parts: seq<string>): string
    decreases |parts|
  {
    if parts == [] then a else PathJoinAll(PathJoin(a, parts[0]), parts[1..])
  }

  /** A path that can be followed by a separator and a component: non-empty, no trailing `/`. */
  predicate Base(s: string)
  {
    s != [] && s[|s| - 1] != '/'
  }

  /** One path component: non-empty and free of separators. */
  predicate Component(s: string)
  {
    s != [] && '/' !in s
  }

  /** Joining a component onto a base puts exactly one separator between them, and adds one segment. */
  lemma JoinComponent(a: string, b: string)
    requires Base(a) && Component(b)
    ensures PathJoin(a, b) == a + "/" + b && Base(PathJoin(a, b))
    ensures Split(PathJoin(a, b), '/') == Split(a, '/') + [b]
  {
    assert b[0] in b;
    SplitConcat(a, b, '/');
    SplitFree(b, '/');
  }

  /** An absolute component discards everything joined before it. */
  lemma JoinAbsolute(a: string, b: string)
    requires |b| > 0 && b[0] == '/'
    ensures PathJoin(a, b) == b
  {
  }

  /** Joining components one by one onto a base separates them by single slashes. */
  lemma {:induction false} PathJoinAllComponents(a: string, parts: seq<string>)
    requires Base(a)
    requires forall i :: 0 <= i < |parts| ==> Component(parts[i])
    ensures Base(PathJoinAll(a, parts))
    ensures Split(PathJoinAll(a, parts), '/') == Split(a, '/') + parts
    decreases |parts|
  {
    if parts != [] {
      var b := PathJoin(a, parts[0]);
      var tail := parts[1..];
      JoinComponent(a, parts[0]);
      assert forall i :: 0 <= i < |tail| ==> Component(tail[i]) by {
        forall i | 0 <= i < |tail| ensures Component(tail[i]) {
          assert tail[i] == parts[i + 1];
        }
      }
      PathJoinAllComponents(b, tail);
      ConsSplit(Split(a, '/'), parts);
    }
  }

  lemma ConsSplit(front: seq<string>, parts: seq<string>)
    requires parts != []
    ensures front + [parts[0]] + parts[1..] == front + parts
  {
    assert parts == [parts[0]] + parts[1..];
  }

  // ---------------------------------------------------------------------------------------
  // strftime

  /** `d.strftime("%Y")`, `d.strftime("%m")` and `d.strftime("%d")`. */
  function Year(d: ValidDate): string { ZeroPad(d.year, 4) }
  function Month(d: ValidDate): string { ZeroPad(d.month, 2) }
  function Day(d: ValidDate): string { ZeroPad(d.day, 2) }

  /** The date fields are decimal numerals of four, two and two digits that denote the date. */
  lemma DateFieldsDenote(d: ValidDate)
    requires d.year >= 1000
    ensures |Year(d)| == 4 && AllDigits(Year(d)) && DigitsValue(Year(d)) == d.year
    ensures |Month(d)| == 2 && AllDigits(Month(d)) && DigitsValue(Month(d)) == d.month
    ensures |Day(d)| == 2 && AllDigits(Day(d)) && DigitsValue(Day(d)) == d.day
  {
    assert Pow10(4) == 10000 && Pow10(2) == 100;
    ZeroPadDenotes(d.year, 4);
    ZeroPadDenotes(d.month, 2);
    ZeroPadDenotes(d.day, 2);
  }

  /** The date fields are single path components. */
  lemma DateFieldsAreComponents(d: ValidDate)
    ensures Component(Year(d)) && Component(Month(d)) && Component(Day(d))
  {
    ZeroPadDenotes(d.year, 4);
    ZeroPadDenotes(d.month, 2);
    ZeroPadDenotes(d.day, 2);
    DigitsAreComponent(Year(d));
    DigitsAreComponent(Month(d));
    DigitsAreComponent(Day(d));
  }

  lemma DigitsAreComponent(s: string)
    requires AllDigits(s) && DigitsValue(s) >= 1
    ensures Component(s)
  {
    forall i | 0 <= i < |s| ensures s[i] != '/' {
      assert IsDigit(s[i]);
    }
  }

  // ---------------------------------------------------------------------------------------
  // os.makedirs

  /** The directories `os.makedirs(path)` creates besides `path` itself: its parents. */
  function Parents(path: string): set<string>
  {
    set i | 0 < i < |path| && path[i] == '/' :: path[..i]
  }

  /** `if not os.path.exists(path): os.makedirs(path)` on the set of existing directories. */
  function EnsureDir(dirs: set<string>, path: string): (r: set<string>)
    ensures path in r && dirs <= r
    ensures path in dirs ==> r == dirs
    ensures r - dirs <= Parents(path) + {path}
  {
    if path in dirs then dirs else dirs + Parents(path) + {path}
  }

  /** Ensuring a directory a second time changes nothing. */
  lemma EnsureDirIdempotent(dirs: set<string>, path: string)
    ensures EnsureDir(EnsureDir(dirs, path), path) == EnsureDir(dirs, path)
  {
  }

  /** Ensuring a directory creates every parent of it that was missing. */
  lemma EnsureDirCreatesParents(dirs: set<string>, path: string, i: int)
    requires path !in dirs && 0 < i < |path| && path[i] == '/'
    ensures path[..i] in EnsureDir(dirs, path)
  {
  }

  // ---------------------------------------------------------------------------------------
  // glob

  /**
   * Whether file name `s` matches glob pattern `p`, where `*` stands for any run of
   * characters without `/` and every other character stands for itself.
   */
  function GlobMatch(p: string, s: string): bool
    decreases |p| + |s|
  {
    if p == [] then s == []
    else if p[0] == '*' then GlobMatch(p[1..], s) || (s != [] && s[0] != '/' && GlobMatch(p, s[1..]))
    else s != [] && s[0] == p[0] && GlobMatch(p[1..], s[1..])
  }

  predicate NoStar(s: string)
  {
    '*' !in s
  }

  /** A literal prefix of a pattern must be matched by the same prefix of the name. */
  lemma {:induction false} GlobLiteralPrefix(lit: string, p: string, t: string)
    requires NoStar(lit)
    ensures GlobMatch(lit + p, t) <==> |lit| <= |t| && t[..|lit|] == lit && GlobMatch(p, t[|lit|..])
    decreases |lit|
  {
    if lit != [] {
      assert lit[0] in lit;
      var q := lit + p;
      assert q[0] == lit[0] && q[1..] == lit[1..] + p;
      assert NoStar(lit[1..]) by {
        assert forall c :: c in lit[1..] ==> c in lit;
      }
      if t != [] {
        GlobLiteralPrefix(lit[1..], p, t[1..]);
        if |lit| <= |t| {
          assert t[..|lit|] == [t[0]] + t[1..][..|lit| - 1];
          assert lit == [lit[0]] + lit[1..];
          assert t[|lit|..] == t[1..][|lit| - 1..];
        }
      }
    } else {
      assert lit + p == p;
      assert t[..0] == lit && t[0..] == t;
    }
  }

  /** A pattern without `*` matches exactly itself. */
  lemma GlobLiteral(lit: string, t: string)
    requires NoStar(lit)
    ensures GlobMatch(lit, t) <==> t == lit
  {
    GlobLiteralPrefix(lit, [], t);
    assert lit + [] == lit;
    if |lit| <= |t| && t[..|lit|] == lit && t[|lit|..] == [] {
      assert t == t[..|lit|] + t[|lit|..];
    }
  }

  /** `*` followed by a literal matches the names that end with the literal after a run without `/`. */
  lemma {:induction false} GlobStarSuffix(suffix: string, t: string)
    requires NoStar(suffix)
    ensures GlobMatch("*" + suffix, t) <==>
      |suffix| <= |t| && t[|t| - |suffix|..] == suffix && '/' !in t[..|t| - |suffix|]
    decreases |t|
  {
    var p := "*" + suffix;
    assert p[0] == '*' && p[1..] == suffix;
    GlobLiteral(suffix, t);
    if t != [] {
      GlobStarSuffix(suffix, t[1..]);
      var n := |t| - |suffix|;
      if |suffix| < |t| {
        assert t[1..][|t| - 1 - |suffix|..] == t[n..];
        assert t[..n] == [t[0]] + t[1..][..n - 1];
        assert t != suffix;
      } else if |suffix| == |t| {
        assert t[n..] == t && t[..n] == [];
      }
    } else {
      assert t[..0] == [];
    }
  }

  /**
   * A pattern `prefix*suffix` with literal ends matches exactly the names made of the
   * prefix, a run of characters without `/`, and the suffix.
   */
  lemma GlobPrefixStarSuffix(prefix: string, suffix: string, t: string)
    requires NoStar(prefix) && NoStar(suffix)
    ensures GlobMatch(prefix + "*" + suffix, t) <==> Framed(t, prefix, suffix)
  {
    var star := "*" + suffix;
    assert prefix + "*" + suffix == prefix + star;
    var n := |prefix|;
    var m := |suffix|;
    if n + m <= |t| {
      var rest := t[n..];
      var front, mid, back := t[..n], t[n..|t| - m], t[|t| - m..];
      var starMatch := GlobMatch(star, rest);
      assert GlobMatch(prefix + star, t) <==> front == prefix && starMatch by {
        GlobLiteralPrefix(prefix, star, t);
      }
      assert starMatch <==> back == suffix && '/' !in mid by {
        GlobStarSuffix(suffix, rest);
        DropSlices(t, n, m);
      }
    } else if n <= |t| {
      assert !GlobMatch(prefix + star, t) by {
        GlobLiteralPrefix(prefix, star, t);
        GlobStarSuffix(suffix, t[n..]);
      }
    } else {
      assert !GlobMatch(prefix + star, t) by {
        GlobLiteralPrefix(prefix, star, t);
      }
    }
  }

  /** `t` is `prefix`, then a run of characters without `/`, then `suffix`. */
  predicate Framed(t: string, prefix: string, suffix: string)
  {
    |prefix| + |suffix| <= |t| && t[..|prefix|] == prefix && t[|t| - |suffix|..] == suffix
    && '/' !in t[|prefix|..|t| - |suffix|]
  }

  lemma DropSlices(t: string, n: nat, m: nat)
    requires n + m <= |t|
    ensures t[n..][|t| - n - m..] == t[|t| - m..]
    ensures t[n..][..|t| - n - m] == t[n..|t| - m]
  {
  }
}
