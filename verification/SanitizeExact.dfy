/**
 When streamed redaction is one-shot redaction, exactly. `SanitizeStream` proves that texts with
 literals only are redacted alike however they are cut. Here every other text is shown to come out
 differently if it is fed byte by byte: what is emitted is then longer than the redacted text.
 */
module SanitizeExact {
  import opened SanitizeText
  import opened SanitizeSplit

  // ----- where a pass cannot match -----

  /** The second character of the literals a pass looks for. */
  function Second(p: nat): char {
    if p == 0 then 't' else if p == 2 then 'o' else 'r'
  }

  predicate LiteralPass(p: nat) {
    p == 0 || p == 2 || p == 3
  }

  /** No literal of the pass begins in the word, whatever follows it. */
  predicate NoStart(p: nat, y: string) {
    forall j :: 0 <= j < |y| && IsSep(y[j]) ==> j + 1 < |y| && y[j + 1] != Second(p)
  }

  lemma LiteralNeedsSecond(p: nat, s: string)
    requires LiteralPass(p) && s != "" && MatchLength(p, s) > 0
    ensures IsSep(s[0]) && |s| > 1 && s[1] == Second(p)
  {
    var l := if p == 0 then 0 else p + 1;
    LiteralMatch(l, s);
    LiteralIsBody(l);
    SecondIs(p);
    hide Literal, MatchLength;
    assert s[0] == Literal(l)[0] && s[1] == Literal(l)[1];
  }

  lemma SecondIs(p: nat)
    requires LiteralPass(p)
    ensures var lit := Literal(if p == 0 then 0 else p + 1); |lit| > 12 && lit[1] == Second(p)
  {
  }

  lemma {:induction false} WordIsCopied(p: nat, y: string, z: string, j: nat)
    requires p < 4 && LiteralPass(p) && NoStart(p, y) && j <= |y|
    ensures Replace(p, y[j..] + z) == y[j..] + Replace(p, z)
    decreases |y| - j
  {
    hide *;
    if j == |y| {
      assert y[j..] + z == z && y[j..] + Replace(p, z) == Replace(p, z);
    } else {
      NoMatchInWord(p, y, z, j);
      ReplaceStep(p, y[j..] + z);
      assert (y[j..] + z)[1..] == y[j + 1..] + z;
      WordIsCopied(p, y, z, j + 1);
      assert y[j..] == [y[j]] + y[j + 1..];
    }
  }

  lemma NoMatchInWord(p: nat, y: string, z: string, j: nat)
    requires LiteralPass(p) && NoStart(p, y) && j < |y|
    ensures p < 4 && MatchLength(p, y[j..] + z) == 0
  {
    hide MatchLength;
    var s := y[j..] + z;
    assert s[0] == y[j] && (j + 1 < |y| ==> s[1] == y[j + 1]);
    if MatchLength(p, s) > 0 {
      LiteralNeedsSecond(p, s);
    }
  }

  lemma WordCopiedWhole(p: nat, y: string, z: string)
    requires LiteralPass(p) && NoStart(p, y)
    ensures Replace(p, y + z) == y + Replace(p, z)
  {
    hide Replace;
    assert y[0..] == y;
    WordIsCopied(p, y, z, 0);
  }

  // ----- the passes behind the first -----

  function Literals(s: string): string {
    Replace(3, Replace(2, s))
  }

  function Later(s: string): string {
    Literals(Replace(1, s))
  }

  lemma PathsAreLater(s: string)
    ensures Paths(s) == Later(Replace(0, s))
  {
  }

  lemma LiteralsCopy(y: string, z: string)
    requires NoStart(2, y) && NoStart(3, y)
    ensures Literals(y + z) == y + Literals(z)
  {
    hide Replace;
    WordCopiedWhole(2, y, z);
    WordCopiedWhole(3, y, Replace(2, z));
  }

  /** The text is empty or begins with a character that stands in no path. */
  predicate Breaks(y: string) {
    y == "" || !InPathClass(y[0])
  }

  lemma {:induction false} BreakStops(p: nat, x: string, y: string)
    requires p < 4 && Breaks(y)
    ensures Within(p, x, y)
    decreases |x|
  {
    if x != "" {
      MatchIsPath(p, x + y);
      hide MatchLength;
      var n := MatchLength(p, x + y);
      assert y != "" ==> (x + y)[|x|] == y[0];
      var k := if n > 0 then n else 1;
      BreakStops(p, x[k..], y);
    }
  }

  lemma BreakStays(p: nat, y: string)
    requires p < 4 && Breaks(y)
    ensures Breaks(Replace(p, y))
  {
    if y != "" {
      MatchIsPath(p, y);
      hide MatchLength, Replace;
      ReplaceStep(p, y);
    }
  }

  lemma LiteralsBreak(x: string, y: string)
    requires Breaks(y)
    ensures Literals(x + y) == Literals(x) + Literals(y)
  {
    hide Replace, Within;
    BreakStops(2, x, y);
    ReplaceSplit(2, x, y);
    BreakStays(2, y);
    BreakStops(3, Replace(2, x), Replace(2, y));
    ReplaceSplit(3, Replace(2, x), Replace(2, y));
  }

  lemma LaterBreaks(x: string, y: string)
    requires Breaks(y)
    ensures Later(x + y) == Later(x) + Later(y)
  {
    hide Replace, Within, Literals;
    BreakStops(1, x, y);
    ReplaceSplit(1, x, y);
    BreakStays(1, y);
    LiteralsBreak(Replace(1, x), Replace(1, y));
  }

  // ----- lengths -----

  /** A pass leaves at least ten characters, or all there are. */
  lemma {:induction false} PassLeaves(p: nat, s: string)
    requires p < 4
    ensures |Replace(p, s)| >= if |s| < 10 then |s| else 10
    decreases |s|
  {
    hide Replace, MatchLength;
    ReplaceStep(p, s);
    if s != "" {
      if MatchLength(p, s) > 0 {
        assert |Replacement(p)| >= 10;
      } else {
        PassLeaves(p, s[1..]);
      }
    }
  }

  lemma LaterLeaves(s: string)
    ensures |Later(s)| >= if |s| < 10 then |s| else 10
  {
    hide Replace;
    PassLeaves(1, s);
    PassLeaves(2, Replace(1, s));
    PassLeaves(3, Replace(2, Replace(1, s)));
  }

  lemma {:induction false} FirstPassShrinks(s: string)
    ensures |Replace(0, s)| <= |s|
    decreases |s|
  {
    LiteralMatch(0, s);
    SecondIs(0);
    hide Replace, Literal;
    ReplaceStep(0, s);
    if s != "" {
      assert MatchLength(0, s) > 0 ==> MatchLength(0, s) > 11 by { LiteralZeroIsLong(s); }
      FirstPassShrinks(s[Skip(0, s)..]);
    }
  }

  lemma LiteralZeroIsLong(s: string)
    ensures MatchLength(0, s) > 0 ==> MatchLength(0, s) > 11
  {
    SecondIs(0);
    hide Literal;
  }

  // ----- the shape of a match of the second pattern -----

  /** A word of the directory behind its separator: no separator in it, and no colon. */
  predicate DirWord(word: string, first: char) {
    word != "" && word[0] == first && forall j :: 0 <= j < |word| ==> !IsSep(word[j]) && word[j] != ':'
  }

  lemma SepWordIs(s: string, word: string, first: char)
    requires SepWord(s, word) && DirWord(word, first)
    ensures |s| >= 1 + |word| && IsSep(s[0]) && s[1] == first
    ensures forall j :: 1 <= j < 1 + |word| ==> !IsSep(s[j]) && s[j] != ':'
  {
    assert forall j :: 1 <= j < 1 + |word| ==> s[j] == s[1..][j - 1] == word[j - 1];
  }

  lemma DirWords()
    ensures DirWord("home", 'h') && DirWord("user", 'u') && DirWord("projects", 'p') && DirWord("workspace-", 'w')
  {
  }

  /** The directory has four separators, each before its word. */
  predicate DirShape(s: string) {
    && |s| >= HomeWidth && IsSep(s[0])
    && s[1] == 'h' && s[6] == 'u' && s[11] == 'p' && s[20] == 'w'
    && forall j :: 0 < j < HomeWidth ==> s[j] != ':' && (IsSep(s[j]) ==> j == 5 || j == 10 || j == 19)
  }

  lemma HomeDirShape(s: string)
    requires HomeDir(s)
    ensures DirShape(s) && s[2] == 'o'
  {
    DirWords();
    HomeStart(s);
    SepWordIs(s, "home", 'h');
    SepWordIs(s[5..], "user", 'u');
    SepWordIs(s[10..], "projects", 'p');
    SepWordIs(s[19..], "workspace-", 'w');
    hide SepWord, DirWord;
    assert forall j :: 5 <= j < 10 ==> s[j] == s[5..][j - 5];
    assert forall j :: 10 <= j < 19 ==> s[j] == s[10..][j - 10];
    assert forall j :: 19 <= j < 30 ==> s[j] == s[19..][j - 19];
  }

  lemma HomeStart(s: string)
    requires SepWord(s, "home")
    ensures |s| > 4 && s[2] == 'o'
  {
    var word := "home";
    assert s[1..][1] == word[1];
  }

  function DriveWidth(s: string): nat {
    if HasDrive(s) then 2 else 0
  }

  /**
   What a match looks like: a drive or none, the directory, one name character at least; then it
   ends where no path goes on, or there are only name characters to its end.
   */
  lemma HomeShape(s: string)
    requires HomeLength(s) > 0
    ensures var d := DriveWidth(s); var n := HomeLength(s);
            && d + 31 == HomeHead(s) <= n <= |s|
            && DirShape(s[d..]) && s[d + 2] == 'o' && IsNameChar(s[d + 30])
            && (Breaks(s[n..]) || forall j :: d + 30 <= j < n ==> IsNameChar(s[j]))
  {
    hide HomeLength, HomeDir, HomeTail, HasDrive, DriveWidth, DirShape, Breaks, IsNameChar;
    HomeParts(s);
    var d := DriveWidth(s);
    HomeDirShape(s[d..]);
    HomeTailShape(s[d..][HomeWidth..]);
    ShapeFromParts(s, d, HomeTail(s[d..][HomeWidth..]));
  }

  lemma ShapeFromParts(s: string, d: nat, t: nat)
    requires 0 < t && d + HomeWidth + t <= |s| && s[d..][2] == 'o'
    requires var y := s[d..][HomeWidth..];
             IsNameChar(y[0]) && (Breaks(y[t..]) || forall j :: 0 <= j < t ==> IsNameChar(y[j]))
    ensures var n := d + HomeWidth + t;
            s[d + 2] == 'o' && IsNameChar(s[d + 30]) && (Breaks(s[n..]) || forall j :: d + 30 <= j < n ==> IsNameChar(s[j]))
  {
    hide IsNameChar, Breaks;
    var y, n := s[d..][HomeWidth..], d + HomeWidth + t;
    assert s[n..] == y[t..];
    assert forall j :: d + 30 <= j < n ==> s[j] == y[j - d - 30];
  }

  lemma HomeParts(s: string)
    requires HomeLength(s) > 0
    ensures var d := DriveWidth(s);
            && d + 31 == HomeHead(s) <= HomeLength(s) <= |s| && HomeDir(s[d..])
            && HomeTail(s[d..][HomeWidth..]) > 0 && HomeLength(s) == d + HomeWidth + HomeTail(s[d..][HomeWidth..])
  {
    hide HomeDir, HomeTail;
    HomeHeadLength(s);
  }

  /** The name, and then a path that runs as far as it can, or nothing but the name. */
  lemma HomeTailShape(y: string)
    requires HomeTail(y) > 0
    ensures IsNameChar(y[0])
    ensures Breaks(y[HomeTail(y)..]) || forall j :: 0 <= j < HomeTail(y) ==> IsNameChar(y[j])
  {
    var m := NameLength(y);
    var t := y[m..];
    if TailLength(t) > 0 {
      var r := RunLength(t[1..]);
      assert y[HomeTail(y)..] == t[1..][r..];
    }
  }

  /** No literal begins in the part that decides a match. */
  lemma HeadIsQuiet(s: string)
    requires HomeLength(s) > 0
    ensures var w := HomeHead(s); w <= |s| && NoStart(0, s[..w]) && NoStart(2, s[..w]) && NoStart(3, s[..w])
  {
    HomeShape(s);
    hide HomeLength;
    var d := DriveWidth(s);
    var x := s[d..];
    forall j | 0 <= j < d + 31 && IsSep(s[j])
      ensures j + 1 < d + 31 && (s[j + 1] == 'h' || s[j + 1] == 'u' || s[j + 1] == 'p' || s[j + 1] == 'w')
    {
      assert j >= d;
      assert x[j - d] == s[j] && (j - d < 30 ==> x[j - d + 1] == s[j + 1]);
    }
  }

  /** The first pass leaves a match of the second pattern where it is. */
  lemma HomeSurvives(s: string)
    requires HomeLength(s) > 0
    ensures HomeLength(Replace(0, s)) > 0
  {
    HomeShape(s);
    HeadIsQuiet(s);
    var w := HomeHead(s);
    hide Replace, HomeLength, HomeHead, NoStart;
    var y, z := s[..w], s[w..];
    assert s == y + z;
    WordCopiedWhole(0, y, z);
    var t := Replace(0, s);
    assert t[..w] == y;
    HomeSame(s, t);
  }

  // ----- a cut inside a match makes the output longer -----

  lemma NoHomeHere(s: string)
    requires s != "" && HomeLength(s) > 0
    ensures |s| >= 31 && ((IsSep(s[0]) && s[1] == 'h') || (IsLetter(s[0]) && s[1] == ':'))
  {
    HomeShape(s);
    hide HomeLength;
    assert s[DriveWidth(s)..][0] == s[DriveWidth(s)];
  }

  lemma {:induction false} ShortHasNoHome(s: string)
    requires |s| <= 30
    ensures Replace(1, s) == s
  {
    hide Replace, HomeLength;
    ReplaceStep(1, s);
    if s != "" {
      if HomeLength(s) > 0 {
        NoHomeHere(s);
      }
      ShortHasNoHome(s[1..]);
      assert s == [s[0]] + s[1..];
    }
  }

  lemma LiteralsLeave(s: string)
    ensures |Literals(s)| >= if |s| < 10 then |s| else 10
  {
    hide Replace;
    PassLeaves(2, s);
    PassLeaves(3, Replace(2, s));
  }

  lemma MarkerIsQuiet()
    ensures |Replacement(1)| == 11 && NoStart(2, Replacement(1)) && NoStart(3, Replacement(1)) && Breaks(Replacement(1))
  {
  }

  /** A match at the front is replaced, and what follows is redacted by itself. */
  lemma FrontMatch(s: string)
    requires HomeLength(s) > 0
    ensures Replace(1, s) == Replacement(1) + Replace(1, s[HomeLength(s)..])
    ensures Later(s) == Replacement(1) + Later(s[HomeLength(s)..])
  {
    hide Replace, HomeLength, Literals, Replacement;
    ReplaceStep(1, s);
    MarkerIsQuiet();
    LiteralsCopy(Replacement(1), Replace(1, s[HomeLength(s)..]));
  }

  /** A quiet character at the front is copied by all later passes. */
  lemma QuietFirst(c: char, s: string)
    requires HomeLength([c] + s) == 0 && !IsSep(c)
    ensures Later([c] + s) == [c] + Later(s)
  {
    hide Replace, HomeLength, Literals;
    ReplaceStep(1, [c] + s);
    assert ([c] + s)[1..] == s;
    LiteralsCopy([c], Replace(1, s));
  }

  /** A character in front that is taken for a drive costs at most one character of the output. */
  lemma DriveLoss(c: char, s: string)
    requires !IsSep(c)
    ensures |Later([c] + s)| + 1 >= |Later(s)|
  {
    hide *;
    if HomeLength([c] + s) == 0 {
      QuietFirst(c, s);
    } else {
      DriveTaken(c, s);
      FrontMatch([c] + s);
      FrontMatch(s[1..]);
      QuietFirst(s[0], s[1..]);
      DriveParts(c, s, HomeLength(s[1..]));
    }
  }

  lemma DriveParts(c: char, s: string, n: nat)
    requires s != "" && n <= |s[1..]|
    ensures ([c] + s)[2 + n..] == s[1..][n..] && s == [s[0]] + s[1..]
  {
  }

  lemma DriveTaken(c: char, s: string)
    requires !IsSep(c) && HomeLength([c] + s) > 0
    ensures s != "" && s[0] == ':' && !IsSep(s[0])
    ensures HomeLength([c] + s) == 2 + HomeLength(s[1..]) && HomeLength(s[1..]) > 0
    ensures HomeLength(s) == 0 && HomeLength([s[0]] + s[1..]) == 0
  {
    var w, x := [c] + s, s[1..];
    assert w[0..] == w;
    assert HasDrive(w);
    assert w[2..] == x && s[0] == w[1] == ':';
    HomeDirShape(x);
    assert !HasDrive(x);
    assert x[0..] == x;
    assert [s[0]] + x == s;
    assert s[0..] == s && !HasDrive(s);
  }

  /** The beginning of a match is quiet for the later literals. */
  lemma FrontIsQuiet(s: string, w: nat)
    requires HomeLength(s) > 0 && (w == 2 || w == 4)
    ensures |s| >= 31 && (w == 4 || !HasDrive(s) ==> NoStart(2, s[..w]) && NoStart(3, s[..w]))
    ensures !IsSep(s[1])
  {
    HomeShape(s);
    hide HomeLength;
    var d := DriveWidth(s);
    var x := s[d..];
    assert x[0] == s[d] && x[1] == s[d + 1] && x[2] == s[d + 2] && x[3] == s[d + 3];
    assert !IsSep(x[1]) && !IsSep(x[2]) && !IsSep(x[3]);
  }

  /** A long beginning of a match keeps fourteen characters at least. */
  lemma LongFront(s: string, k: nat)
    requires HomeLength(s) > 0 && 14 <= k <= |s|
    ensures |Literals(s[..k])| >= 14
  {
    FrontIsQuiet(s, 4);
    hide HomeLength, Literals, NoStart;
    var y, z := s[..4], s[4..k];
    assert s[..k] == y + z;
    LiteralsCopy(y, z);
    LiteralsLeave(z);
  }

  /** A match cut in two, its path ended: the parts keep more than the marker. */
  lemma PartsOfMatch(s: string, k: nat)
    requires HomeLength(s) == |s| && 0 < k <= 30 && k < |s|
    ensures |Literals(s[..k])| + |Later(s[k..])| > 11
  {
    hide *;
    NoHomeHere(s);
    LiteralsLeave(s[..k]);
    LaterLeaves(s[k..]);
    if k >= 22 {
      LongFront(s, k);
    } else if k == 1 {
      SecondStartsNothing(s);
      QuietFirst(s[1], s[2..]);
      LaterLeaves(s[2..]);
    }
  }

  lemma SecondStartsNothing(s: string)
    requires HomeLength(s) > 0
    ensures |s| >= 31 && HomeLength(s[1..]) == 0 && !IsSep(s[1]) && [s[1]] + s[2..] == s[1..]
  {
    HomeShape(s);
    FrontIsQuiet(s, 2);
    hide HomeLength;
    var d := DriveWidth(s);
    assert s[d..][1] == s[d + 1] && s[1..][0] == s[1] && s[1..][1] == s[2];
    if HomeLength(s[1..]) > 0 {
      NoHomeHere(s[1..]);
    }
  }

  /** Within a match of directory and name no further one begins before its last character. */
  lemma NameStartsNothing(s: string, m: nat)
    requires HomeLength(s) > 0 && DriveWidth(s) < m < HomeLength(s) - 1
    requires forall j :: DriveWidth(s) + 30 <= j < HomeLength(s) ==> IsNameChar(s[j])
    ensures HomeLength(s[m..]) == 0
    ensures s[m] != ':' && (IsSep(s[m]) ==> s[m + 1] == 'u' || s[m + 1] == 'p' || s[m + 1] == 'w')
    ensures IsSep(s[m]) ==> m + 10 < HomeLength(s) - 1
  {
    hide HomeLength, DriveWidth, HomeHead, Breaks;
    HomeShape(s);
    var d := DriveWidth(s);
    var x := s[d..];
    assert s[m] == x[m - d] && s[m + 1] == x[m + 1 - d];
    assert s[m..][0] == s[m] && s[m..][1] == s[m + 1];
    if HomeLength(s[m..]) > 0 {
      NoHomeHere(s[m..]);
    }
  }

  /** Cut behind the drive, a match keeps the drive. */
  lemma DriveCut(a: string, b: string)
    requires 0 < |a| <= 2 && HomeLength(a + b) > 0 && HasDrive(a + b)
    ensures |Literals(a)| + |Later(b)| > 11 + |Later((a + b)[HomeLength(a + b)..])|
  {
    hide *;
    var w := a + b;
    var c, s := w[0], w[1..];
    assert w == [c] + s;
    DriveIsLetter(w);
    DriveTaken(c, s);
    FrontMatch(s[1..]);
    DriveParts(c, s, HomeLength(s[1..]));
    LiteralsLeave(a);
    MarkerIsQuiet();
    if |a| == 1 {
      QuietFirst(s[0], s[1..]);
      assert b == s;
    } else {
      assert b == s[1..];
    }
  }

  lemma DriveIsLetter(w: string)
    requires HasDrive(w)
    ensures !IsSep(w[0])
  {
  }

  /** Up to its last character the name part of a match is copied. */
  lemma {:induction false} NameIsCopied(w: string, m: nat)
    requires HomeLength(w) > 0 && DriveWidth(w) < m <= HomeLength(w) - 1
    requires forall j :: DriveWidth(w) + 30 <= j < HomeLength(w) ==> IsNameChar(w[j])
    ensures HomeLength(w) <= |w|
    ensures |Later(w[m..])| == HomeLength(w) - 1 - m + |Later(w[HomeLength(w) - 1..])|
    decreases HomeLength(w) - m
  {
    hide *;
    NoHomeHere(w);
    HomeFits(w);
    var n := HomeLength(w);
    NameReplaced(w, m);
    var y, v := w[m..n - 1], Replace(1, w[n - 1..]);
    NameIsQuiet(w, m);
    LiteralsCopy(y, v);
    LaterIs(w[m..]);
    LaterIs(w[n - 1..]);
  }

  lemma HomeFits(w: string)
    ensures HomeLength(w) <= |w|
  {
  }

  lemma LaterIs(s: string)
    ensures Later(s) == Literals(Replace(1, s))
  {
  }

  lemma {:induction false} NameReplaced(w: string, m: nat)
    requires HomeLength(w) > 0 && DriveWidth(w) < m <= HomeLength(w) - 1
    requires forall j :: DriveWidth(w) + 30 <= j < HomeLength(w) ==> IsNameChar(w[j])
    ensures Replace(1, w[m..]) == w[m..HomeLength(w) - 1] + Replace(1, w[HomeLength(w) - 1..])
    decreases HomeLength(w) - m
  {
    var n := HomeLength(w);
    hide HomeLength, Replace, DriveWidth;
    if m < n - 1 {
      NameStartsNothing(w, m);
      ReplaceStep(1, w[m..]);
      assert w[m..][1..] == w[m + 1..];
      NameReplaced(w, m + 1);
      assert w[m..n - 1] == [w[m]] + w[m + 1..n - 1];
    } else {
      assert w[m..n - 1] == "";
    }
  }

  lemma NameIsQuiet(w: string, m: nat)
    requires HomeLength(w) > 0 && DriveWidth(w) < m <= HomeLength(w) - 1
    requires forall j :: DriveWidth(w) + 30 <= j < HomeLength(w) ==> IsNameChar(w[j])
    ensures NoStart(2, w[m..HomeLength(w) - 1]) && NoStart(3, w[m..HomeLength(w) - 1])
  {
    hide HomeLength, DriveWidth;
    HomeFits(w);
    var n := HomeLength(w);
    var y := w[m..n - 1];
    forall j | 0 <= j < |y| && IsSep(y[j])
      ensures j + 1 < |y| && y[j + 1] != 'o' && y[j + 1] != 'r'
    {
      assert y[j] == w[m + j];
      NameStartsNothing(w, m + j);
    }
  }

  /** Cut in its directory or name, a match that ends with its name keeps what stands before the cut. */
  lemma NameCut(a: string, b: string)
    requires |a| <= 30 && HomeLength(a + b) > |a| && DriveWidth(a + b) < |a|
    requires var w := a + b; forall j :: DriveWidth(w) + 30 <= j < HomeLength(w) ==> IsNameChar(w[j])
    ensures |Literals(a)| + |Later(b)| > 11 + |Later((a + b)[HomeLength(a + b)..])|
  {
    var w := a + b;
    hide *;
    HomeFits(w);
    NoHomeHere(w);
    var n := HomeLength(w);
    LiteralsLeave(a);
    assert w[..|a|] == a && w[|a|..] == b;
    if |a| >= 14 {
      LongFront(w, |a|);
    }
    NameIsCopied(w, |a|);
    LastOfName(w);
    DriveLoss(w[n - 1], w[n..]);
    MatchIsLong(w);
  }

  lemma LastOfName(w: string)
    requires HomeLength(w) > 0 && forall j :: DriveWidth(w) + 30 <= j < HomeLength(w) ==> IsNameChar(w[j])
    ensures var n := HomeLength(w); n <= |w| && !IsSep(w[n - 1]) && w[n - 1..] == [w[n - 1]] + w[n..]
  {
    hide HomeLength, DriveWidth, DirShape, Breaks;
    HomeShape(w);
    var n := HomeLength(w);
    assert IsNameChar(w[n - 1]) && w[n - 1..][0] == w[n - 1] && w[n - 1..][1..] == w[n..];
  }

  lemma MatchIsLong(w: string)
    requires HomeLength(w) > 0
    ensures HomeLength(w) >= 31
  {
    HomeShape(w);
  }

  /** Cut where the path behind the name ends the match, the two parts are redacted by themselves. */
  lemma PathCut(a: string, b: string)
    requires 0 < |a| <= 30 && HomeLength(a + b) > |a| && Breaks((a + b)[HomeLength(a + b)..])
    ensures |Literals(a)| + |Later(b)| > 11 + |Later((a + b)[HomeLength(a + b)..])|
  {
    var w := a + b;
    hide *;
    HomeFits(w);
    var n := HomeLength(w);
    var z, rest := w[..n], w[n..];
    assert w == z + rest && z[..|a|] == a && b == z[|a|..] + rest;
    HomeTruncated(z, rest);
    PartsOfMatch(z, |a|);
    LaterBreaks(z[|a|..], rest);
  }

  /** However it is cut near its beginning, a match comes out longer than redacted whole. */
  lemma AnyCut(a: string, b: string)
    requires 0 < |a| <= 30 && HomeLength(a + b) > |a|
    ensures |Literals(a)| + |Later(b)| > |Later(a + b)|
  {
    var w := a + b;
    HomeShape(w);
    MarkerIsQuiet();
    FrontMatch(w);
    if Breaks(w[HomeLength(w)..]) {
      hide *;
      PathCut(a, b);
    } else if DriveWidth(w) >= |a| {
      hide HomeLength, Literals, Later;
      DriveCut(a, b);
    } else {
      hide *;
      NameCut(a, b);
    }
  }
}
