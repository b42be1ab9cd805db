/**
 What a redacted text no longer shows (`internal/sanitize/sanitize.go`), in the paths themselves: without
 blocks none of the server's paths is left, a text that shows none is returned as it is, and where
 blocks are removed a path can only be put together from two sides of one.
 */
module SanitizeClean {
  import opened SanitizeText
  import opened SanitizeSplit
  import opened SanitizeBlocks

  // ----- the paths -----

  predicate Slash(c: char) {
    c == '/' || c == '\\'
  }

  /** A workspace directory with any separators and a name. */
  predicate ShowsHome(x: string) {
    && |x| >= 31
    && Slash(x[0]) && x[1..5] == "home" && Slash(x[5]) && x[6..10] == "user" && Slash(x[10])
    && x[11..19] == "projects" && Slash(x[19]) && x[20..30] == "workspace-"
    && ('a' <= x[30] <= 'z' || '0' <= x[30] <= '9')
  }

  /** A path of the server stands at the front of the text; `k` says which. */
  predicate Shows(k: nat, x: string) {
    match k
    case 0 => "/tmp/windsurf-workspace" <= x
    case 1 => ShowsHome(x)
    case 2 => "/opt/windsurf" <= x
    case 3 => "/root/WindsurfAPI" <= x
    case _ => false
  }

  predicate ShowsAny(x: string) {
    Shows(0, x) || Shows(1, x) || Shows(2, x) || Shows(3, x)
  }

  /** No path of the server stands anywhere in the text. */
  ghost predicate ShowsNoPath(s: string) {
    forall j :: 0 <= j <= |s| ==> !ShowsAny(s[j..])
  }

  /** The characters a path is recognised by. */
  function Width(k: nat): nat {
    match k
    case 0 => 23
    case 1 => 31
    case 2 => 13
    case _ => 17
  }

  /** A path is recognised by its first characters, which begin with a separator and hold no bracket. */
  lemma ShowsShape(k: nat, x: string)
    requires Shows(k, x)
    ensures k < 4 && |x| >= Width(k) && Slash(x[0]) && (Slash(x[4]) || Slash(x[5]))
    ensures x[1] == 't' || x[1] == 'h' || x[1] == 'o' || x[1] == 'r'
    ensures forall i :: 0 <= i < Width(k) ==> x[i] != '<' && x[i] != '['
  {
    match k
    case 0 => SameFront("/tmp/windsurf-workspace", x);
    case 2 => SameFront("/opt/windsurf", x);
    case 3 => SameFront("/root/WindsurfAPI", x);
    case _ =>
      forall i | 0 <= i < 31
        ensures x[i] != '<' && x[i] != '['
      {
        assert 1 <= i < 5 ==> x[i] == "home"[i - 1];
        assert 6 <= i < 10 ==> x[i] == "user"[i - 6];
        assert 11 <= i < 19 ==> x[i] == "projects"[i - 11];
        assert 20 <= i < 30 ==> x[i] == "workspace-"[i - 20];
      }
  }

  lemma SameFront(lit: string, x: string)
    requires lit <= x
    ensures forall i :: 0 <= i < |lit| ==> x[i] == lit[i]
  {
  }

  /** Only these characters matter. */
  lemma ShowsSame(k: nat, x: string, y: string)
    requires Shows(k, x) && |y| >= Width(k) && y[..Width(k)] == x[..Width(k)]
    ensures Shows(k, y)
  {
    ShowsShape(k, x);
    var w := Width(k);
    assert forall i :: 0 <= i < w ==> y[i] == y[..w][i] == x[i];
    if k == 1 {
      assert y[1..5] == x[1..5] && y[6..10] == x[6..10] && y[11..19] == x[11..19] && y[20..30] == x[20..30];
    } else {
      assert x[..w] <= y;
    }
  }

  // ----- the patterns find them -----

  lemma PatternFinds(k: nat, x: string)
    requires k < 4 && Shows(k, x)
    ensures MatchLength(k, x) > 0
  {
    if k == 1 {
      HomeIsFound(x);
    }
  }

  lemma HomeIsFound(x: string)
    requires ShowsHome(x)
    ensures HomeLength(x) > 0
  {
    HomeIs(x);
    assert x[0..] == x && !HasDrive(x);
    var y := x[30..];
    assert y[0] == x[30];
  }

  /** The directory of the second pattern, character by character. */
  lemma HomeIs(x: string)
    ensures |x| >= 31 && IsNameChar(x[30]) ==> (HomeDir(x) <==> ShowsHome(x))
  {
    if |x| >= 31 {
      WordAt(x, 0, "home");
      WordAt(x, 5, "user");
      WordAt(x, 10, "projects");
      WordAt(x, 19, "workspace-");
      assert x[0..] == x;
    }
  }

  lemma WordAt(x: string, i: nat, word: string)
    requires i + 1 + |word| <= |x|
    ensures SepWord(x[i..], word) <==> Slash(x[i]) && x[i + 1..i + 1 + |word|] == word
  {
    var y := x[i..];
    assert y[0] == x[i] && y[1..] == x[i + 1..];
    assert x[i + 1..][..|word|] == x[i + 1..i + 1 + |word|];
  }

  /** And nothing else, a drive apart. */
  lemma PatternShows(k: nat, x: string)
    requires k < 4 && MatchLength(k, x) > 0
    ensures Shows(k, x) || (k == 1 && |x| >= 2 && IsLetter(x[0]) && x[1] == ':' && Shows(1, x[2..]))
  {
    if k == 1 {
      HomeHeadShape(x);
      var d := if HasDrive(x) then 2 else 0;
      var y := x[d..];
      assert y[30..] != "" && IsNameChar(y[30..][0]) && y[30..][0] == y[30];
      HomeIs(y);
    }
  }

  // ----- what a path pass leaves -----

  /** No path of one kind stands in the text. */
  predicate Clean(k: nat, s: string) {
    s == "" || (!Shows(k, s) && Clean(k, s[1..]))
  }

  lemma {:induction false} CleanAt(k: nat, s: string, j: nat)
    requires Clean(k, s) && j <= |s|
    ensures !Shows(k, s[j..]) && Clean(k, s[j..])
  {
    if s != "" && j > 0 {
      CleanAt(k, s[1..], j - 1);
      assert s[1..][j - 1..] == s[j..];
    } else {
      assert s[j..] == s;
    }
  }

  lemma {:induction false} CleanIf(k: nat, s: string)
    requires forall j :: 0 <= j <= |s| ==> !Shows(k, s[j..])
    ensures Clean(k, s)
  {
    if s != "" {
      forall j | 0 <= j <= |s[1..]|
        ensures !Shows(k, s[1..][j..])
      {
        assert s[1..][j..] == s[j + 1..];
      }
      CleanIf(k, s[1..]);
      assert s[0..] == s;
    }
  }

  lemma {:induction false} CleanPrepend(k: nat, r: string, y: string)
    requires Clean(k, y) && forall j :: 0 <= j < |r| ==> !Shows(k, r[j..] + y)
    ensures Clean(k, r + y)
  {
    if r == "" {
      assert r + y == y;
    } else {
      forall j | 0 <= j < |r[1..]|
        ensures !Shows(k, r[1..][j..] + y)
      {
        assert r[1..][j..] == r[j + 1..];
      }
      CleanPrepend(k, r[1..], y);
      assert r[0..] == r && (r + y)[1..] == r[1..] + y;
    }
  }

  lemma ShowsFromInput(p: nat, k: nat, s: string)
    requires p < 4 && Shows(k, Replace(p, s))
    ensures Shows(k, s)
  {
    ShowsShape(k, Replace(p, s));
    hide Replace, Shows;
    Copied(p, s, Width(k));
    ShowsSame(k, Replace(p, s), s);
  }

  lemma MarkerShowsNothing(p: nat, k: nat, j: nat, rest: string)
    requires p < 4 && j < |Replacement(p)|
    ensures !Shows(k, Replacement(p)[j..] + rest)
  {
    MarkerHasNoSeparator(p);
    var x := Replacement(p)[j..] + rest;
    assert x[0] == Replacement(p)[j];
    hide Replacement;
    if Shows(k, x) {
      ShowsShape(k, x);
    }
  }

  /** A pass leaves no path of its own kind. */
  lemma {:induction false} PassClears(p: nat, s: string)
    requires p < 4
    ensures Clean(p, Replace(p, s))
    decreases |s|
  {
    hide Replace, MatchLength, Replacement, Shows;
    ReplaceStep(p, s);
    if s != "" {
      PassClears(p, s[Skip(p, s)..]);
      var rest := Replace(p, s[Skip(p, s)..]);
      forall j | 0 <= j < |Piece(p, s)|
        ensures !Shows(p, Piece(p, s)[j..] + rest)
      {
        if MatchLength(p, s) > 0 {
          MarkerShowsNothing(p, p, j, rest);
        } else {
          assert Piece(p, s)[0..] == Piece(p, s);
          if Shows(p, Replace(p, s)) {
            ShowsFromInput(p, p, s);
            PatternFinds(p, s);
          }
        }
      }
      CleanPrepend(p, Piece(p, s), rest);
    }
  }

  /** And makes none of another. */
  lemma {:induction false} PassKeepsClean(p: nat, k: nat, s: string)
    requires p < 4 && Clean(k, s)
    ensures Clean(k, Replace(p, s))
    decreases |s|
  {
    hide Replace, MatchLength, Replacement, Shows;
    ReplaceStep(p, s);
    if s != "" {
      CleanAt(k, s, Skip(p, s));
      PassKeepsClean(p, k, s[Skip(p, s)..]);
      var rest := Replace(p, s[Skip(p, s)..]);
      forall j | 0 <= j < |Piece(p, s)|
        ensures !Shows(k, Piece(p, s)[j..] + rest)
      {
        if MatchLength(p, s) > 0 {
          MarkerShowsNothing(p, k, j, rest);
        } else {
          assert Piece(p, s)[0..] == Piece(p, s);
          if Shows(k, Replace(p, s)) {
            ShowsFromInput(p, k, s);
          }
        }
      }
      CleanPrepend(k, Piece(p, s), rest);
    }
  }

  ghost predicate AllClean(s: string) {
    forall k :: 0 <= k < 4 ==> Clean(k, s)
  }

  lemma CleanShowsNoPath(s: string)
    ensures AllClean(s) <==> ShowsNoPath(s)
  {
    hide Shows, Clean;
    if AllClean(s) {
      forall j | 0 <= j <= |s|
        ensures !ShowsAny(s[j..])
      {
        CleanAt(0, s, j);
        CleanAt(1, s, j);
        CleanAt(2, s, j);
        CleanAt(3, s, j);
      }
    }
    if ShowsNoPath(s) {
      forall k | 0 <= k < 4
        ensures Clean(k, s)
      {
        assert forall j :: 0 <= j <= |s| && Shows(k, s[j..]) ==> ShowsAny(s[j..]);
        CleanIf(k, s);
      }
    }
  }

  /** Behind the path passes no path is left. */
  lemma PathsAreGone(s: string)
    ensures ShowsNoPath(Paths(s))
  {
    hide Replace, Clean, ShowsNoPath;
    var s1 := Replace(0, s);
    var s2 := Replace(1, s1);
    var s3 := Replace(2, s2);
    PassClears(0, s);
    PassClears(1, s1);
    PassClears(2, s2);
    PassClears(3, s3);
    PassKeepsClean(1, 0, s1);
    PassKeepsClean(2, 0, s2);
    PassKeepsClean(3, 0, s3);
    PassKeepsClean(2, 1, s2);
    PassKeepsClean(3, 1, s3);
    PassKeepsClean(3, 2, s3);
    CleanShowsNoPath(Paths(s));
  }

  /** Of a text without blocks the redaction shows no path of the server. */
  lemma TextIsClean(s: string)
    requires NoBlock(s)
    ensures ShowsNoPath(Text(s))
  {
    hide Text, NoBlock, Paths;
    TextOrShorter(s);
    PathsAreGone(s);
  }

  // ----- what is returned as it is -----

  /** A pattern matches nowhere in a text that shows no path of its kind. */
  lemma NoMatchIn(p: nat, s: string)
    requires p < 4 && Clean(p, s)
    ensures MatchLength(p, s) == 0
  {
    hide MatchLength, Shows;
    CleanFront(p, s);
    if MatchLength(p, s) > 0 {
      PatternShows(p, s);
    }
  }

  lemma CleanFront(p: nat, s: string)
    requires Clean(p, s)
    ensures !Shows(p, s) && (|s| >= 2 ==> !Shows(p, s[2..]))
  {
    hide Shows;
    CleanAt(p, s, 0);
    CleanAt(p, s, if |s| >= 2 then 2 else 0);
    assert s[0..] == s;
  }

  lemma {:induction false} NothingFound(p: nat, s: string)
    requires p < 4 && Clean(p, s)
    ensures Replace(p, s) == s
    decreases |s|
  {
    hide Replace, MatchLength, Shows;
    ReplaceStep(p, s);
    if s != "" {
      NoMatchIn(p, s);
      NothingFound(p, s[1..]);
    }
  }

  lemma {:induction false} PassShrinks(p: nat, s: string)
    requires p < 4
    ensures |Replace(p, s)| <= |s|
    decreases |s|
  {
    hide Replace, MatchLength;
    ReplaceStep(p, s);
    if s != "" {
      PassShrinks(p, s[Skip(p, s)..]);
      if MatchLength(p, s) > 0 {
        MatchIsLong(p, s);
      }
    }
  }

  lemma MatchIsLong(p: nat, s: string)
    requires p < 4 && MatchLength(p, s) > 0
    ensures MatchLength(p, s) >= |Replacement(p)|
  {
  }

  /** Exactly the texts that show no path and have no block come back as they are. */
  lemma UntouchedIff(s: string)
    ensures Text(s) == s <==> ShowsNoPath(s) && NoBlock(s)
  {
    hide Text, NoBlock, Replace, ShowsNoPath, Clean;
    TextOrShorter(s);
    CleanShowsNoPath(s);
    PassShrinks(0, s);
    PassShrinks(1, Replace(0, s));
    PassShrinks(2, Replace(1, Replace(0, s)));
    PassShrinks(3, Replace(2, Replace(1, Replace(0, s))));
    if NoBlock(s) {
      TextIsClean(s);
    }
    if AllClean(s) {
      NothingFound(0, s);
      NothingFound(1, s);
      NothingFound(2, s);
      NothingFound(3, s);
    }
  }

  /** Redacting again changes nothing. */
  lemma TextIsIdempotent(s: string)
    requires NoBlock(s)
    ensures Text(Text(s)) == Text(s)
  {
    hide Text, HasBlock, Paths, ShowsNoPath;
    TextOrShorter(s);
    TextIsClean(s);
    forall k | 0 <= k < TagCount
      ensures !HasBlock(k, Paths(s))
    {
      BlocksOfPaths(k, s);
    }
    UntouchedIff(Text(s));
  }

  // ----- what stands in place of a path -----

  /** Text without separators and angle brackets. */
  ghost predicate Prose(s: string) {
    forall i :: 0 <= i < |s| ==> !Slash(s[i]) && s[i] != '<'
  }

  /** A path ends in front of this text. */
  predicate Ends(b: string) {
    b == "" || !InPathClass(b[0])
  }

  lemma {:induction false} RunIs(run: string, b: string)
    requires (forall i :: 0 <= i < |run| ==> InPathClass(run[i])) && Ends(b)
    ensures RunLength(run + b) == |run|
  {
    if run == "" {
      assert run + b == b;
    } else {
      RunIs(run[1..], b);
      assert (run + b)[1..] == run[1..] + b;
    }
  }

  /** The optional path behind the name of a directory: a separator and what follows it. */
  ghost predicate IsTail(tail: string) {
    tail == "" || (Slash(tail[0]) && forall i :: 1 <= i < |tail| ==> InPathClass(tail[i]) && !Slash(tail[i]))
  }

  lemma TailIs(tail: string, b: string)
    requires IsTail(tail) && Ends(b) && Prose(b)
    ensures TailLength(tail + b) == |tail|
  {
    if tail == "" {
      assert tail + b == b;
    } else {
      RunIs(tail[1..], b);
      assert (tail + b)[1..] == tail[1..] + b;
    }
  }

  /** The three directories, by the number of their pattern. */
  function Dir(k: nat): string {
    match k case 0 => "/tmp/windsurf-workspace" case 2 => "/opt/windsurf" case _ => "/root/WindsurfAPI"
  }

  lemma DirIs(k: nat, x: string)
    requires k == 0 || k == 2 || k == 3
    ensures Shows(k, x) <==> Dir(k) <= x
    ensures MatchLength(k, x) == if Dir(k) <= x then |Dir(k)| + TailLength(x[|Dir(k)|..]) else 0
    ensures forall i :: 0 <= i < |Dir(k)| ==> Dir(k)[i] != '<'
    ensures forall i :: 1 <= i < |Dir(k)| && Slash(Dir(k)[i]) ==> i + 1 < |Dir(k)| && (Dir(k)[i + 1] == 'w' || Dir(k)[i + 1] == 'W')
  {
  }

  /** Where a pattern matches nothing the scan copies. */
  lemma {:induction false} CopiedUpTo(p: nat, a: string, y: string)
    requires p < 4 && forall j :: 0 <= j < |a| ==> MatchLength(p, a[j..] + y) == 0
    ensures Replace(p, a + y) == a + Replace(p, y)
  {
    hide Replace, MatchLength;
    if a == "" {
      assert a + y == y && "" + Replace(p, y) == Replace(p, y);
    } else {
      forall j | 0 <= j < |a[1..]|
        ensures MatchLength(p, a[1..][j..] + y) == 0
      {
        assert a[1..][j..] == a[j + 1..];
      }
      CopiedUpTo(p, a[1..], y);
      ReplaceStep(p, a + y);
      assert a[0..] + y == a + y && (a + y)[1..] == a[1..] + y && a == [a[0]] + a[1..];
    }
  }

  /** In prose no path begins. */
  lemma {:induction false} ProseShowsNothing(k: nat, a: string, y: string)
    requires Prose(a) && Clean(k, y)
    ensures Clean(k, a + y)
  {
    hide Shows;
    forall j | 0 <= j < |a|
      ensures !Shows(k, a[j..] + y)
    {
      assert (a[j..] + y)[0] == a[j];
      NeedsSlash(k, a[j..] + y);
    }
    CleanPrepend(k, a, y);
  }

  lemma NeedsSlash(k: nat, x: string)
    ensures Shows(k, x) ==> |x| >= 13 && Slash(x[0]) && (Slash(x[4]) || Slash(x[5]))
    ensures Shows(k, x) ==> x[1] == 't' || x[1] == 'h' || x[1] == 'o' || x[1] == 'r'
  {
    if Shows(k, x) {
      ShowsShape(k, x);
    }
  }

  /** Behind its first character a directory begins no path. */
  lemma DirRest(k: nat, dir: string, t: string)
    requires dir != "" && Clean(k, t)
    requires forall i :: 1 <= i < |dir| && Slash(dir[i]) ==> i + 1 < |dir| && (dir[i + 1] == 'w' || dir[i + 1] == 'W')
    ensures dir + t != "" && Clean(k, (dir + t)[1..])
  {
    hide Shows;
    var y := dir[1..];
    forall j | 0 <= j < |y|
      ensures !Shows(k, y[j..] + t)
    {
      var x := y[j..] + t;
      assert x[0] == dir[j + 1] && (Slash(x[0]) ==> x[1] == dir[j + 2]);
      NeedsSlash(k, x);
    }
    CleanPrepend(k, y, t);
    assert (dir + t)[1..] == y + t;
  }

  lemma PathIsOne(k: nat, d: nat, tail: string, b: string)
    requires (d == 0 || d == 2 || d == 3) && IsTail(tail) && Prose(b) && Ends(b)
    ensures Dir(d) != ""
    ensures var s := Dir(d) + tail + b; Clean(k, s[1..])
    ensures k != d ==> !Shows(k, Dir(d) + tail + b)
  {
    hide *;
    assert Dir(d) + tail + b == Dir(d) + (tail + b);
    DirIs(d, Dir(d) + (tail + b));
    TailShowsNothing(k, tail, b);
    DirShape(d);
    DirRest(k, Dir(d), tail + b);
    PrefixOf(Dir(d), tail + b);
    if k != d {
      OtherDir(k, d, Dir(d) + (tail + b));
    }
  }

  lemma DirShape(d: nat)
    requires d == 0 || d == 2 || d == 3
    ensures Dir(d) != ""
    ensures forall i :: 1 <= i < |Dir(d)| && Slash(Dir(d)[i]) ==> i + 1 < |Dir(d)| && (Dir(d)[i + 1] == 'w' || Dir(d)[i + 1] == 'W')
  {
  }

  lemma PrefixOf(x: string, y: string)
    ensures x <= x + y && (x + y)[|x|..] == y
  {
  }

  lemma OtherDir(k: nat, d: nat, s: string)
    requires (d == 0 || d == 2 || d == 3) && Dir(d) <= s && k != d
    ensures !Shows(k, s)
  {
    assert s[1] == Dir(d)[1];
  }

  lemma TailShowsNothing(k: nat, tail: string, b: string)
    requires IsTail(tail) && Prose(b)
    ensures Clean(k, tail + b)
  {
    hide Shows;
    var t := tail + b;
    forall j | 0 <= j < |t|
      ensures !Shows(k, t[j..] + "")
    {
      var x := t[j..] + "";
      assert forall i :: 0 <= i < |x| ==> x[i] == t[j + i];
      assert forall i :: 0 < i < |t| ==> t[i] == if i < |tail| then tail[i] else b[i - |tail|];
      NeedsSlash(k, x);
    }
    NothingIsClean(k);
    CleanPrepend(k, t, "");
    assert t + "" == t;
  }

  lemma NothingIsClean(k: nat)
    ensures Clean(k, "")
  {
  }

  /** The scan of another pass copies the path, that of its own writes the marker for it. */
  lemma OnePathPass(p: nat, d: nat, a: string, tail: string, b: string)
    requires p < 4 && (d == 0 || d == 2 || d == 3) && Prose(a) && IsTail(tail) && Prose(b) && Ends(b)
    ensures Replace(p, a + (Dir(d) + tail + b)) == if p == d then a + (Replacement(d) + b) else a + (Dir(d) + tail + b)
  {
    var m := Dir(d) + tail + b;
    PathIsOne(p, d, tail, b);
    hide Replace, MatchLength, Shows, Dir, Replacement;
    if p == d {
      assert Clean(p, "") && Prose(b);
      ProseShowsNothing(p, b, "");
      assert b + "" == b;
      NothingFound(p, b);
      PathMatch(d, tail, b);
      ReplaceStep(p, m);
      assert m[|Dir(d) + tail|..] == b;
      forall j | 0 <= j < |a|
        ensures MatchLength(p, a[j..] + m) == 0
      {
        NoMatchInProse(p, a[j..], m);
      }
      CopiedUpTo(p, a, m);
    } else {
      assert Clean(p, m);
      ProseShowsNothing(p, a, m);
      NothingFound(p, a + m);
    }
  }

  lemma PathMatch(d: nat, tail: string, b: string)
    requires (d == 0 || d == 2 || d == 3) && IsTail(tail) && Prose(b) && Ends(b)
    ensures var m := Dir(d) + tail + b; MatchLength(d, m) == |Dir(d) + tail| > 0
  {
    hide *;
    TailIs(tail, b);
    assert Dir(d) + tail + b == Dir(d) + (tail + b);
    DirIs(d, Dir(d) + (tail + b));
    DirShape(d);
    PrefixOf(Dir(d), tail + b);
  }

  /** Only the second pattern looks past a first character that is no separator, for a drive. */
  lemma NoMatchInProse(p: nat, a: string, m: string)
    requires p != 1 && p < 4 && Prose(a) && a != ""
    ensures MatchLength(p, a + m) == 0
  {
    var x := a + m;
    assert x[0] == a[0];
    NeedsSlash(p, x);
    hide MatchLength, Shows;
    if MatchLength(p, x) > 0 {
      PatternShows(p, x);
    }
  }

  /** A marker is no path, and none begins in it. */
  lemma MarkerStays(p: nat, d: nat, a: string, b: string)
    requires p < 4 && d < 4 && Prose(a) && Prose(b)
    ensures Replace(p, a + (Replacement(d) + b)) == a + (Replacement(d) + b)
  {
    hide Replace, Shows, Replacement;
    NothingIsClean(p);
    ProseShowsNothing(p, b, "");
    assert b + "" == b;
    forall j | 0 <= j < |Replacement(d)|
      ensures !Shows(p, Replacement(d)[j..] + b)
    {
      MarkerShowsNothing(d, p, j, b);
    }
    CleanPrepend(p, Replacement(d), b);
    ProseShowsNothing(p, a, Replacement(d) + b);
    NothingFound(p, a + (Replacement(d) + b));
  }

  /**
   In prose a directory of the server with the path behind it is replaced as a whole, and the prose around
   it stays.
   */
  lemma PathIsReplaced(d: nat, a: string, tail: string, b: string)
    requires d == 0 || d == 2 || d == 3
    requires Prose(a) && IsTail(tail) && Prose(b) && Ends(b)
    ensures Text(a + (Dir(d) + tail + b)) == a + ((if d == 0 then "<workspace>" else "[internal]") + b)
  {
    var s := a + (Dir(d) + tail + b);
    DirIs(d, Dir(d));
    assert '<' !in s by {
      assert forall i :: 0 < i < |tail| ==> InPathClass(tail[i]);
      assert forall i :: 0 <= i < |s| ==> s[i] in a || s[i] in Dir(d) || s[i] in tail || s[i] in b;
    }
    hide Replace, Dir, Text, NoBlock, Prose, IsTail;
    NoAngleNoBlock(s);
    TextOrShorter(s);
    OnePathPass(0, d, a, tail, b);
    OnePathPass(1, d, a, tail, b);
    OnePathPass(2, d, a, tail, b);
    OnePathPass(3, d, a, tail, b);
    MarkerStays(0, d, a, b);
    MarkerStays(1, d, a, b);
    MarkerStays(2, d, a, b);
    MarkerStays(3, d, a, b);
  }

  // ----- a workspace directory -----

  /** A drive, or none where the text in front does not end like one. */
  predicate DriveBehind(a: string, drive: string) {
    if drive == "" then a == "" || a[|a| - 1] != ':'
    else |drive| == 2 && IsLetter(drive[0]) && drive[1] == ':'
  }

  /** The directory up to the hyphen, and a name for it. */
  ghost predicate IsHome(dir: string, name: string) {
    && |dir| == 30 && name != "" && (forall i :: 0 <= i < |name| ==> IsNameChar(name[i]))
    && ShowsHome(dir + name)
  }

  lemma {:induction false} NameIs(name: string, rest: string)
    requires forall i :: 0 <= i < |name| ==> IsNameChar(name[i])
    requires rest == "" || !IsNameChar(rest[0])
    ensures NameLength(name + rest) == |name|
  {
    if name == "" {
      assert name + rest == rest;
    } else {
      NameIs(name[1..], rest);
      assert (name + rest)[1..] == name[1..] + rest;
    }
  }

  lemma HomeTailIs(name: string, tail: string, b: string)
    requires name != "" && (forall i :: 0 <= i < |name| ==> IsNameChar(name[i]))
    requires IsTail(tail) && Prose(b) && Ends(b)
    ensures HomeTail(name + (tail + b)) == |name + tail|
  {
    TailIs(tail, b);
    var rest := tail + b;
    assert rest != "" ==> rest[0] == if tail != "" then tail[0] else b[0];
    NameIs(name, rest);
    hide NameLength, TailLength;
    PrefixOf(name, rest);
  }

  lemma HomeMatch(drive: string, dir: string, name: string, tail: string, b: string)
    requires DriveBehind("", drive) && IsHome(dir, name) && IsTail(tail) && Prose(b) && Ends(b)
    ensures HomeLength(drive + (dir + (name + (tail + b)))) == |drive + dir + name + tail|
  {
    var y := name + (tail + b);
    var x := dir + y;
    HomeTailIs(name, tail, b);
    HomeDirIn(dir, name, tail + b);
    hide HomeTail, HomeDir, IsTail, Prose;
    PrefixOf(dir, y);
    if drive == "" {
      assert drive + x == x && x[0..] == x;
      assert !HasDrive(x);
    } else {
      assert (drive + x)[2..] == x && HasDrive(drive + x);
    }
  }

  lemma HomeDirIn(dir: string, name: string, rest: string)
    requires IsHome(dir, name)
    ensures var x := dir + (name + rest); HomeDir(x) && ShowsHome(x) && Slash(x[0])
  {
    var x := dir + (name + rest);
    var n := dir + name;
    assert x == n + rest;
    assert x[..31] == n[..31];
    ShowsSame(1, n, x);
    assert x[30] == n[30] == name[0];
    HomeIs(x);
  }

  /** Behind its first character a workspace directory begins no path. */
  lemma HomeRest(k: nat, dir: string, name: string, t: string)
    requires IsHome(dir, name) && Clean(k, t)
    ensures Clean(k, (dir + name + t)[1..])
  {
    var y := (dir + name)[1..];
    HomeSlashes(dir, name);
    hide Shows, IsHome;
    forall j | 0 <= j < |y|
      ensures !Shows(k, y[j..] + t)
    {
      var x := y[j..] + t;
      assert x[0] == (dir + name)[j + 1] && (Slash(x[0]) ==> x[1] == (dir + name)[j + 2]);
      NeedsSlash(k, x);
    }
    CleanPrepend(k, y, t);
    assert dir + name != "";
    assert (dir + name + t)[1..] == y + t;
  }

  lemma HomeSlashes(dir: string, name: string)
    requires IsHome(dir, name)
    ensures |dir + name| >= 31
    ensures var d := dir + name; forall i :: 1 <= i < |d| && Slash(d[i]) ==>
              i + 1 < |d| && (d[i + 1] == 'u' || d[i + 1] == 'p' || d[i + 1] == 'w')
  {
    var d := dir + name;
    NoSlashIn(d, 1, "home");
    NoSlashIn(d, 6, "user");
    NoSlashIn(d, 11, "projects");
    NoSlashIn(d, 20, "workspace-");
    assert d[6] == d[6..10][0] && d[11] == d[11..19][0] && d[20] == d[20..30][0];
    assert forall i :: 30 <= i < |d| ==> d[i] == name[i - 30];
  }

  lemma NoSlashIn(d: string, i: nat, word: string)
    requires i + |word| <= |d| && d[i..i + |word|] == word && forall j :: 0 <= j < |word| ==> !Slash(word[j])
    ensures forall j :: i <= j < i + |word| ==> !Slash(d[j])
  {
    assert forall j :: i <= j < i + |word| ==> d[j] == d[i..i + |word|][j - i];
  }

  lemma NoOtherHome(k: nat, dir: string, name: string, rest: string)
    requires IsHome(dir, name) && k != 1
    ensures !Shows(k, dir + (name + rest))
  {
    HomeDirIn(dir, name, rest);
    var x := dir + (name + rest);
    assert x[1] == x[1..5][0] == 'h';
    hide IsHome;
  }

  /** The scan of another pass copies the workspace path, the second writes the marker for it. */
  lemma OneHomePass(p: nat, a: string, drive: string, dir: string, name: string, tail: string, b: string)
    requires p < 4 && Prose(a) && DriveBehind(a, drive) && IsHome(dir, name) && IsTail(tail) && Prose(b) && Ends(b)
    ensures var m := drive + (dir + (name + (tail + b)));
            Replace(p, a + m) == if p == 1 then a + (Replacement(1) + b) else a + m
  {
    hide *;
    var y := dir + (name + (tail + b));
    var m := drive + y;
    TailShowsNothing(p, tail, b);
    HomeRest(p, dir, name, tail + b);
    assert y == dir + name + (tail + b);
    HomeIsThere(dir, name, tail + b);
    if p == 1 {
      DriveAlone(a, drive);
      HomeMatch(drive, dir, name, tail, b);
      HomeIsLong(dir, name);
      assert m == drive + dir + name + tail + b;
      OneHome(a, drive, y, drive + dir + name + tail, b);
    } else {
      NoOtherHome(p, dir, name, tail + b);
      CleanFromRest(p, y);
      DriveIsProse(a, drive);
      ProseShowsNothing(p, a + drive, y);
      NothingFound(p, a + drive + y);
      assert a + drive + y == a + m;
    }
  }

  lemma DriveAlone(a: string, drive: string)
    requires DriveBehind(a, drive)
    ensures DriveBehind("", drive)
  {
  }

  lemma HomeIsLong(dir: string, name: string)
    requires IsHome(dir, name)
    ensures |dir| == 30
  {
  }

  lemma HomeIsThere(dir: string, name: string, rest: string)
    requires IsHome(dir, name)
    ensures dir + (name + rest) != "" && Slash((dir + (name + rest))[0])
  {
    HomeDirIn(dir, name, rest);
  }

  lemma CleanFromRest(k: nat, y: string)
    requires y != "" && !Shows(k, y) && Clean(k, y[1..])
    ensures Clean(k, y)
  {
  }

  lemma DriveIsProse(a: string, drive: string)
    requires Prose(a) && DriveBehind(a, drive)
    ensures Prose(a + drive)
  {
  }

  lemma OneHome(a: string, drive: string, y: string, match': string, b: string)
    requires Prose(a) && DriveBehind(a, drive) && Prose(b) && y != "" && Slash(y[0])
    requires drive + y == match' + b && match' != "" && HomeLength(drive + y) == |match'|
    ensures Replace(1, a + (drive + y)) == a + (Replacement(1) + b)
  {
    hide Replace, HomeLength, Replacement, Shows;
    var m := drive + y;
    NothingIsClean(1);
    ProseShowsNothing(1, b, "");
    assert b + "" == b;
    NothingFound(1, b);
    ReplaceStep(1, m);
    assert m[|match'|..] == b;
    forall j | 0 <= j < |a|
      ensures MatchLength(1, a[j..] + m) == 0
    {
      NoDriveInFront(a, j, drive, y);
    }
    CopiedUpTo(1, a, m);
  }

  /** No match begins in front of the drive, or of the directory. */
  lemma NoDriveInFront(a: string, j: nat, drive: string, y: string)
    requires Prose(a) && DriveBehind(a, drive) && y != "" && Slash(y[0]) && j < |a|
    ensures MatchLength(1, a[j..] + (drive + y)) == 0
  {
    var x := a[j..] + (drive + y);
    assert x[0] == a[j];
    NeedsSlash(1, x);
    if |x| >= 2 {
      NeedsSlash(1, x[2..]);
      assert |a| - j > 2 ==> x[2] == a[j + 2];
      assert |a| - j == 2 ==> x[1] == a[|a| - 1] && x[2..] == drive + y;
      assert |a| - j == 1 ==> x[1..] == drive + y;
      assert |a| - j == 1 && drive == "" ==> x[1] == y[0];
    }
    hide MatchLength, Shows;
    if MatchLength(1, x) > 0 {
      PatternShows(1, x);
    }
  }

  /** In prose a workspace directory, its drive, name and path are replaced as a whole. */
  lemma HomeIsReplaced(a: string, drive: string, dir: string, name: string, tail: string, b: string)
    requires Prose(a) && DriveBehind(a, drive) && IsHome(dir, name) && IsTail(tail) && Prose(b) && Ends(b)
    ensures Text(a + (drive + (dir + (name + (tail + b))))) == a + ("<workspace>" + b)
  {
    NoAngleInHome(a, drive, dir, name, tail, b);
    var s := a + (drive + (dir + (name + (tail + b))));
    hide Replace, Text, NoBlock, Prose, IsTail, IsHome;
    NoAngleNoBlock(s);
    TextOrShorter(s);
    OneHomePass(0, a, drive, dir, name, tail, b);
    OneHomePass(1, a, drive, dir, name, tail, b);
    MarkerStays(2, 1, a, b);
    MarkerStays(3, 1, a, b);
  }

  lemma NoAngleInHome(a: string, drive: string, dir: string, name: string, tail: string, b: string)
    requires Prose(a) && DriveBehind(a, drive) && IsHome(dir, name) && IsTail(tail) && Prose(b)
    ensures '<' !in a + (drive + (dir + (name + (tail + b))))
  {
    ShowsShape(1, dir + name);
    hide ShowsHome;
    assert forall i :: 0 <= i < 30 ==> dir[i] == (dir + name)[i];
    assert '<' !in dir && '<' !in name && '<' !in a && '<' !in b && '<' !in drive;
    assert '<' !in tail by {
      assert forall i :: 1 <= i < |tail| ==> InPathClass(tail[i]);
    }
  }
}
