/** The window-title computation of UI.draw (ranger/gui/ui.py:204-217):
    the current directory with the home directory collapsed to "~",
    optionally cut down to its last N components with Python's
    str.rsplit(sep, N), wrapped in the xterm "set window title" control
    sequence (Operating System Command 2 in XTerm Control Sequences). */
module Title {
  import opened Wrappers

  /** os.sep on the POSIX systems ranger runs on. */
  const Sep: char := '/'

  /** ESC and BEL, which open and close an xterm Operating System Command. */
  const Esc: char := 27 as char
  const Bel: char := 7 as char

  /** What is written before the path: ESC ] 2 ; ranger: */
  const TitlePrefix: string := [Esc] + "]2;ranger:"

  /** TERMINALS_WITH_TITLE: the values of $TERM for which a title is drawn. */
  const TerminalsWithTitle: seq<string> :=
    ["xterm", "xterm-256color", "rxvt", "rxvt-256color", "rxvt-unicode",
     "aterm", "Eterm", "screen", "screen-256color"]

  /** Number of occurrences of c in s. */
  function Count(s: string, c: char): nat
  {
    if s == [] then 0 else Count(s[..|s| - 1], c) + (if s[|s| - 1] == c then 1 else 0)
  }

  lemma {:induction false} CountConcat(a: string, b: string, c: char)
    ensures Count(a + b, c) == Count(a, c) + Count(b, c)
    decreases |b|
  {
    if b == [] {
      assert a + b == a;
    } else {
      assert (a + b)[..|a + b| - 1] == a + b[..|b| - 1];
      CountConcat(a, b[..|b| - 1], c);
    }
  }

  lemma {:induction false} CountZero(s: string, c: char)
    ensures Count(s, c) == 0 <==> c !in s
    decreases |s|
  {
    if s != [] {
      CountZero(s[..|s| - 1], c);
      assert s == s[..|s| - 1] + [s[|s| - 1]];
    }
  }

  /** The position of the last c in s, as str.rfind finds it. */
  function LastIndex(s: string, c: char): (r: Option<nat>)
    ensures r.None? ==> c !in s
    ensures r.Some? ==> r.value < |s| && s[r.value] == c && c !in s[r.value + 1..]
    decreases |s|
  {
    if s == [] then None
    else if s[|s| - 1] == c then Some(|s| - 1)
    else LastIndex(s[..|s| - 1], c)
  }

  /** Python's s.rsplit(sep, maxsplit): split at the last maxsplit separators,
      or at every separator when maxsplit is negative. */
  function RSplit(s: string, sep: char, maxsplit: int): (parts: seq<string>)
    ensures |parts| >= 1
    decreases |s|
  {
    if maxsplit == 0 then [s]
    else match LastIndex(s, sep)
      case None => [s]
      case Some(i) => RSplit(s[..i], sep, if maxsplit > 0 then maxsplit - 1 else maxsplit) + [s[i + 1..]]
  }

  /** Python's sep.join(parts): one separator between each two parts, so
      at least |parts| - 1 characters. */
  function Join(sep: char, parts: seq<string>): (r: string)
    ensures |r| >= |parts| - 1
  {
    if parts == [] then ""
    else if |parts| == 1 then parts[0]
    else Join(sep, parts[..|parts| - 1]) + [sep] + parts[|parts| - 1]
  }

  lemma {:induction false} JoinFront(sep: char, parts: seq<string>)
    requires |parts| >= 2
    ensures Join(sep, parts) == parts[0] + [sep] + Join(sep, parts[1..])
    decreases |parts|
  {
    if |parts| > 2 {
      var init := parts[..|parts| - 1];
      JoinFront(sep, init);
      assert init[1..] == parts[1..][..|parts| - 2];
    }
  }

  lemma {:induction false} CountJoin(sep: char, parts: seq<string>)
    requires |parts| >= 1
    requires forall j :: 0 <= j < |parts| ==> sep !in parts[j]
    ensures Count(Join(sep, parts), sep) == |parts| - 1
    decreases |parts|
  {
    if |parts| == 1 {
      CountZero(parts[0], sep);
    } else {
      var init := parts[..|parts| - 1];
      CountJoin(sep, init);
      CountConcat(Join(sep, init), [sep], sep);
      CountConcat(Join(sep, init) + [sep], parts[|parts| - 1], sep);
      CountZero(parts[|parts| - 1], sep);
    }
  }

  /** Dropping the first part of a join leaves a suffix of it, a shorter
      one when there was a separator to drop. */
  lemma JoinSuffix(sep: char, parts: seq<string>)
    requires |parts| >= 1
    ensures var j := Join(sep, parts);
      var t := Join(sep, parts[1..]);
      && |t| <= |j| && t == j[|j| - |t|..]
      && (|parts| >= 2 ==> |t| < |j|)
  {
    if |parts| >= 2 {
      JoinFront(sep, parts);
    }
  }

  lemma JoinSnoc(sep: char, init: seq<string>, last: string)
    requires |init| >= 1
    ensures Join(sep, init + [last]) == Join(sep, init) + [sep] + last
  {
    assert (init + [last])[..|init|] == init;
  }

  /** rsplit loses nothing: joining the parts gives the string back. */
  lemma {:induction false} RSplitJoin(s: string, sep: char, maxsplit: int)
    ensures Join(sep, RSplit(s, sep, maxsplit)) == s
    decreases |s|
  {
    if maxsplit != 0 {
      match LastIndex(s, sep)
      case None =>
      case Some(i) =>
        var m := if maxsplit > 0 then maxsplit - 1 else maxsplit;
        var init := RSplit(s[..i], sep, m);
        RSplitJoin(s[..i], sep, m);
        assert RSplit(s, sep, maxsplit) == init + [s[i + 1..]];
        JoinSnoc(sep, init, s[i + 1..]);
        assert s == s[..i] + [sep] + s[i + 1..];
    }
  }

  /** Only the first part of rsplit can still hold a separator. */
  lemma {:induction false} RSplitTail(s: string, sep: char, maxsplit: int)
    ensures var parts := RSplit(s, sep, maxsplit);
      forall j :: 1 <= j < |parts| ==> sep !in parts[j]
    decreases |s|
  {
    if maxsplit != 0 {
      match LastIndex(s, sep)
      case None =>
      case Some(i) =>
        var m := if maxsplit > 0 then maxsplit - 1 else maxsplit;
        RSplitTail(s[..i], sep, m);
        assert RSplit(s, sep, maxsplit) == RSplit(s[..i], sep, m) + [s[i + 1..]];
    }
  }

  /** The number of splits is the number of separators, capped by maxsplit
      when that is not negative; the separators not split at stay in the
      first part. */
  lemma {:induction false} RSplitCount(s: string, sep: char, maxsplit: int)
    ensures var parts := RSplit(s, sep, maxsplit);
      && |parts| - 1 == (if maxsplit < 0 || Count(s, sep) <= maxsplit then Count(s, sep) else maxsplit)
      && Count(parts[0], sep) == Count(s, sep) - (|parts| - 1)
    decreases |s|
  {
    if maxsplit != 0 {
      match LastIndex(s, sep)
      case None =>
        CountZero(s, sep);
      case Some(i) =>
        var m := if maxsplit > 0 then maxsplit - 1 else maxsplit;
        var init := RSplit(s[..i], sep, m);
        RSplitCount(s[..i], sep, m);
        assert RSplit(s, sep, maxsplit) == init + [s[i + 1..]];
        assert s == s[..i] + [sep] + s[i + 1..];
        CountConcat(s[..i], [sep], sep);
        CountConcat(s[..i] + [sep], s[i + 1..], sep);
        CountZero(s[i + 1..], sep);
        assert Count([sep], sep) == 1 by {
          assert [sep][..0] == [];
        }
    }
  }

  /** The home-directory collapse of draw: a plain string-prefix test, so a
      directory merely starting with the same characters is collapsed too.
      The result is cwd itself, or "~" followed by what remains of cwd once
      home is taken off its front. */
  function CollapseHome(cwd: string, home: string): (r: string)
    ensures r == cwd || (r != [] && r[0] == '~' && cwd == home + r[1..])
  {
    if home <= cwd then "~" + cwd[|home|..] else cwd
  }

  /** The inverse reading of a collapsed path: "~" stands for home. */
  function ExpandHome(path: string, home: string): string
  {
    if path != [] && path[0] == '~' then home + path[1..] else path
  }

  /** Collapsing happens exactly when home is a prefix of cwd and keeps
      everything after it. */
  lemma CollapseHomeSpec(cwd: string, home: string)
    ensures home <= cwd ==> CollapseHome(cwd, home)[0] == '~' && CollapseHome(cwd, home)[1..] == cwd[|home|..]
    ensures !(home <= cwd) ==> CollapseHome(cwd, home) == cwd
  {
  }

  /** A path that does not itself begin with "~" is recovered by expanding
      "~" again. */
  lemma CollapseHomeRoundTrip(cwd: string, home: string)
    requires cwd == [] || cwd[0] != '~'
    ensures ExpandHome(CollapseHome(cwd, home), home) == cwd
  {
    if home <= cwd {
      assert cwd == home + cwd[|home|..];
    }
  }

  /** The shorten_title step of draw: rsplit(sep, n), and if the first part
      still holds a separator, the remaining parts joined by sep. A zero n
      (setting off) leaves the path alone. The result is the path or a proper
      suffix of it. */
  function ShortenTitle(path: string, n: int): (r: string)
    ensures r == path || (|r| < |path| && r == path[|path| - |r|..])
  {
    if n == 0 then path
    else
      var split := RSplit(path, Sep, n);
      if Sep in split[0] then
        RSplitJoin(path, Sep, n);
        JoinSuffix(Sep, split);
        Join(Sep, split[1..])
      else path
  }

  /** Shortening happens exactly when n > 0 and the path has at least n + 1
      separators; the result is then the part after a separator of the path
      that holds exactly n - 1 separators, i.e. the last n components. */
  lemma {:induction false} ShortenTitleSpec(path: string, n: int)
    ensures var r := ShortenTitle(path, n);
      && (n > 0 && Count(path, Sep) > n ==>
            |r| < |path| && path == path[..|path| - |r| - 1] + [Sep] + r && Count(r, Sep) == n - 1)
      && (!(n > 0 && Count(path, Sep) > n) ==> r == path)
  {
    if n != 0 {
      var parts := RSplit(path, Sep, n);
      RSplitJoin(path, Sep, n);
      RSplitTail(path, Sep, n);
      RSplitCount(path, Sep, n);
      CountZero(parts[0], Sep);
      if n > 0 && Count(path, Sep) > n {
        JoinFront(Sep, parts);
        var r := Join(Sep, parts[1..]);
        assert path == parts[0] + [Sep] + r;
        assert path[..|path| - |r| - 1] == parts[0];
        CountJoin(Sep, parts[1..]);
      }
    }
  }

  /** Shortening twice is shortening once. */
  lemma ShortenTitleIdempotent(path: string, n: int)
    ensures ShortenTitle(ShortenTitle(path, n), n) == ShortenTitle(path, n)
  {
    ShortenTitleSpec(path, n);
    ShortenTitleSpec(ShortenTitle(path, n), n);
  }

  /** The path shown in the title. */
  function TitlePath(cwd: string, home: string, shorten: int): string
  {
    ShortenTitle(CollapseHome(cwd, home), shorten)
  }

  /** The control sequence written to standard output: the path sits
      between a fixed prefix and a one-character terminator. */
  function TitleSequence(path: string): (r: string)
    ensures |r| == |TitlePrefix| + |path| + 1
    ensures r[..|TitlePrefix|] == TitlePrefix && r[|TitlePrefix|..|r| - 1] == path && r[|r| - 1] == Bel
  {
    TitlePrefix + path + [Bel]
  }

  /** Reads a title control sequence back into its path. */
  function ParseTitle(s: string): (r: Option<string>)
    ensures r.Some? ==> TitleSequence(r.value) == s
  {
    if |s| > |TitlePrefix| && s[..|TitlePrefix|] == TitlePrefix && s[|s| - 1] == Bel
    then Some(s[|TitlePrefix|..|s| - 1])
    else None
  }

  lemma TitleRoundTrip(path: string)
    ensures ParseTitle(TitleSequence(path)) == Some(path)
  {
    var s := TitleSequence(path);
    assert s[..|TitlePrefix|] == TitlePrefix;
    assert s[|TitlePrefix|..|s| - 1] == path;
  }

  /** The title draw emits, if any: only when the terminal type is one of
      TERMINALS_WITH_TITLE and the update_title setting is on. */
  function WindowTitle(drawTitle: bool, updateTitle: bool, cwd: string, home: string, shorten: int): (r: Option<string>)
    ensures r.Some? <==> drawTitle && updateTitle
    ensures r.Some? ==> ParseTitle(r.value) == Some(TitlePath(cwd, home, shorten))
  {
    if drawTitle && updateTitle then
      TitleRoundTrip(TitlePath(cwd, home, shorten));
      Some(TitleSequence(TitlePath(cwd, home, shorten)))
    else None
  }

  /** $TERM names a terminal that takes a title: every such terminal is a
      variant of xterm, rxvt, aterm, Eterm or screen. */
  predicate TitleCapable(term: string): (r: bool)
    ensures r ==> "xterm" <= term || "rxvt" <= term || "aterm" <= term || "Eterm" <= term || "screen" <= term
  {
    term in TerminalsWithTitle
  }

  /** /home/alice/a/b/c/d under home /home/alice, cut to two components,
      shows "c/d". */
  lemma ShortenExample()
    ensures TitlePath("/home/alice/a/b/c/d", "/home/alice", 2) == "c/d"
  {
    assert CollapseHome("/home/alice/a/b/c/d", "/home/alice") == "~/a/b/c/d";
    SplitExample();
    var split := RSplit("~/a/b/c/d", Sep, 2);
    assert split[0][1] == Sep;
    assert split[1..] == ["c", "d"];
    assert Join(Sep, ["c", "d"]) == Join(Sep, ["c"]) + [Sep] + "d";
  }

  /** The rsplit step of ShortenExample. */
  lemma SplitExample()
    ensures RSplit("~/a/b/c/d", Sep, 2) == ["~/a/b", "c", "d"]
  {
    var s := "~/a/b/c/d";
    assert LastIndex(s, Sep) == Some(7);
    assert s[..7] == "~/a/b/c" && s[8..] == "d";
    assert LastIndex("~/a/b/c", Sep) == Some(5);
    assert "~/a/b/c"[..5] == "~/a/b" && "~/a/b/c"[6..] == "c";
  }

  /** The prefix test is on characters, not on path components. */
  lemma CollapseIsCharacterPrefix()
    ensures CollapseHome("/home/alice2/x", "/home/alice") == "~2/x"
  {
  }
}
