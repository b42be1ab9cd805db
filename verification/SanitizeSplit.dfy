/**
 Where a text may be cut so that redacting the two parts separately redacts the whole.

 `NoSpan(a, b)` says that no literal reaches from `a` into `b`; every pass of the path patterns
 keeps it, which is what makes the sequence of passes splittable and not only a single one.
 */
module SanitizeSplit {
  import opened SanitizeText

  /** A character no match can contain. */
  ghost predicate HasEnd(a: string) {
    exists e :: 0 <= e < |a| && !IsPathBody(a[e])
  }

  /** The path of any literal in front of `a + b` ends inside `a`. */
  ghost predicate Settled(a: string, b: string) {
    forall l :: 0 <= l < LiteralCount && Literal(l) <= a + b ==> HasEnd(a)
  }

  ghost predicate NoSpan(a: string, b: string) {
    a == "" || (Settled(a, b) && NoSpan(a[1..], b))
  }

  /** The same for the second pattern. */
  ghost predicate HomesEnd(a: string, b: string) {
    a == "" || ((HomeLength(a + b) > 0 ==> HasEnd(a)) && HomesEnd(a[1..], b))
  }

  /** The scan of pass `p` over `a + b` comes to a stop exactly between the two. */
  predicate Within(p: nat, a: string, b: string)
    requires p < 7
    decreases |a|
  {
    a == "" || (MatchLength(p, a + b) <= |a| && Within(p, a[if MatchLength(p, a + b) > 0 then MatchLength(p, a + b) else 1..], b))
  }

  lemma {:induction false} NoSpanDrop(a: string, b: string, k: nat)
    requires NoSpan(a, b) && k <= |a|
    ensures NoSpan(a[k..], b)
  {
    if k > 0 {
      NoSpanDrop(a[1..], b, k - 1);
      assert a[1..][k - 1..] == a[k..];
    }
  }

  lemma {:induction false} HomesEndDrop(a: string, b: string, k: nat)
    requires HomesEnd(a, b) && k <= |a|
    ensures HomesEnd(a[k..], b)
  {
    if k > 0 {
      HomesEndDrop(a[1..], b, k - 1);
      assert a[1..][k - 1..] == a[k..];
    }
  }

  // ----- what a match consists of -----

  lemma EndBehind(a: string, k: nat)
    requires HasEnd(a) && k <= |a| && forall j :: 0 <= j < k ==> IsPathBody(a[j])
    ensures HasEnd(a[k..])
  {
    var e :| 0 <= e < |a| && !IsPathBody(a[e]);
    assert a[k..][e - k] == a[e];
  }

  lemma EndBeyond(a: string, b: string, k: nat)
    requires HasEnd(a) && k <= |a + b| && forall j :: 0 <= j < k ==> IsPathBody((a + b)[j])
    ensures k < |a| && (a + b)[..k] == a[..k] && (a + b)[k..] == a[k..] + b && HasEnd(a[k..])
  {
    var e :| 0 <= e < |a| && !IsPathBody(a[e]);
    assert (a + b)[e] == a[e];
    assert forall j :: 0 <= j < k ==> a[j] == (a + b)[j];
    EndBehind(a, k);
  }

  lemma LiteralIsBody(l: nat)
    requires l < LiteralCount
    ensures forall k :: 0 <= k < |Literal(l)| ==> InPathClass(Literal(l)[k])
    ensures '<' !in Literal(l) && '[' !in Literal(l)
    ensures Literal(l) != "" && IsSep(Literal(l)[0])
    ensures l == 1 || l == 2 ==> |Literal(l)| == HomeWidth
  {
    if l == 0 { PathLiteral("/tmp/windsurf-workspace"); }
    else if l == 1 { PathLiteral("/home/user/projects/workspace-"); }
    else if l == 2 { PathLiteral("\\home\\user\\projects\\workspace-"); }
    else if l == 3 { PathLiteral("/opt/windsurf"); }
    else { PathLiteral("/root/WindsurfAPI"); }
  }

  lemma PathLiteral(lit: string)
    requires lit != "" && IsSep(lit[0])
    requires forall k :: 0 <= k < |lit| ==> IsSep(lit[k]) || IsLetter(lit[k]) || lit[k] == '-'
    ensures forall k :: 0 <= k < |lit| ==> InPathClass(lit[k])
    ensures '<' !in lit && '[' !in lit
  {
  }

  predicate PathWord(word: string) {
    forall k :: 0 <= k < |word| ==> InPathClass(word[k]) && word[k] != '['
  }

  lemma SepWordIs(s: string, word: string)
    requires SepWord(s, word) && PathWord(word)
    ensures |s| >= 1 + |word| && PathWord(s[..1 + |word|])
  {
    assert forall j :: 1 <= j < 1 + |word| ==> s[j] == s[1..][j - 1] == word[j - 1];
  }

  lemma HomeWords()
    ensures PathWord("home") && PathWord("user") && PathWord("projects") && PathWord("workspace-")
  {
  }

  lemma HomeDirIsPath(s: string)
    requires HomeDir(s)
    ensures |s| >= HomeWidth && forall j :: 0 <= j < HomeWidth ==> InPathClass(s[j]) && s[j] != '['
  {
    HomeWords();
    SepWordIs(s, "home");
    SepWordIs(s[5..], "user");
    SepWordIs(s[10..], "projects");
    SepWordIs(s[19..], "workspace-");
    assert forall j :: 0 <= j < 5 ==> s[j] == s[..5][j];
    assert forall j :: 5 <= j < 10 ==> s[j] == s[5..][..5][j - 5];
    assert forall j :: 10 <= j < 19 ==> s[j] == s[10..][..9][j - 10];
    assert forall j :: 19 <= j < 30 ==> s[j] == s[19..][..11][j - 19];
  }

  /** The directory prefix is decided by the first `HomeWidth` characters. */
  lemma HomeDirSame(s: string, t: string)
    requires |s| >= HomeWidth && |t| >= HomeWidth && s[..HomeWidth] == t[..HomeWidth]
    ensures HomeDir(s) <==> HomeDir(t)
  {
    SepWordSame(s, t, 0, "home");
    SepWordSame(s, t, 5, "user");
    SepWordSame(s, t, 10, "projects");
    SepWordSame(s, t, 19, "workspace-");
  }

  lemma SepWordSame(s: string, t: string, k: nat, word: string)
    requires k + 1 + |word| <= HomeWidth <= |s| && HomeWidth <= |t| && s[..HomeWidth] == t[..HomeWidth]
    ensures SepWord(s[k..], word) <==> SepWord(t[k..], word)
  {
    assert forall j :: 0 <= j < HomeWidth ==> s[j] == s[..HomeWidth][j] == t[..HomeWidth][j] == t[j];
    assert s[k..][0] == s[k] == t[k] == t[k..][0];
    assert s[k..][1..][..|word|] == s[k + 1..k + 1 + |word|] == t[k + 1..k + 1 + |word|] == t[k..][1..][..|word|];
  }

  /** How much of the text decides whether the second pattern matches. */
  function HomeHead(s: string): nat {
    (if HasDrive(s) then 2 else 0) + HomeWidth + 1
  }

  lemma HomeIs(s: string)
    ensures var d := if HasDrive(s) then 2 else 0;
            if HomeDir(s[d..]) then
              && |s[d..]| >= HomeWidth
              && var n := HomeTail(s[d..][HomeWidth..]); HomeLength(s) == if n == 0 then 0 else d + HomeWidth + n
            else HomeLength(s) == 0
  {
    hide HomeDir, HomeTail;
    var x := s[if HasDrive(s) then 2 else 0..];
    if HomeDir(x) {
      HomeDirIsPath(x);
    }
  }

  lemma NameIsThere(y: string)
    requires HomeTail(y) > 0
    ensures y != "" && IsNameChar(y[0]) && y[0] != '<' && y[0] != '[' && InPathClass(y[0])
  {
    hide TailLength;
  }

  lemma HomeHeadShape(s: string)
    requires HomeLength(s) > 0
    ensures HomeHead(s) <= |s| && '<' !in s[..HomeHead(s)] && '[' !in s[..HomeHead(s)]
    ensures forall k :: 0 <= k < HomeLength(s) ==> InPathClass(s[k])
  {
    hide HomeDir, NameLength, HomeTail, HomeLength, IsNameChar;
    HomeIs(s);
    var d := if HasDrive(s) then 2 else 0;
    var x := s[d..];
    HomeDirIsPath(x);
    var y := x[HomeWidth..];
    NameIsThere(y);
    assert s == s[..d] + x[..HomeWidth] + y;
    assert forall k :: d <= k < d + HomeWidth ==> s[k] == x[k - d];
    assert forall k :: d + HomeWidth <= k < |s| ==> s[k] == y[k - d - HomeWidth];
  }

  lemma HomeSame(s: string, t: string)
    requires HomeLength(s) > 0 && HomeHead(s) <= |t| && HomeHead(s) <= |s| && s[..HomeHead(s)] == t[..HomeHead(s)]
    ensures HomeLength(t) > 0
  {
    var w := HomeHead(s);
    assert forall j :: 0 <= j < w ==> s[j] == s[..w][j] == t[..w][j] == t[j];
    var d := if HasDrive(s) then 2 else 0;
    var x, x' := s[d..], t[d..];
    assert x[..HomeWidth] == s[d..d + HomeWidth] == t[d..d + HomeWidth] == x'[..HomeWidth];
    if d == 0 {
      HomeDirIsPath(x);
      assert IsSep(s[0]);
    }
    assert HasDrive(t) == HasDrive(s);
    HomeDirSame(x, x');
    var y, y' := x[HomeWidth..], x'[HomeWidth..];
    assert NameLength(y) > 0;
    assert y'[0] == t[w - 1] == s[w - 1] == y[0];
  }

  lemma LiteralMatch(l: nat, s: string)
    requires l < LiteralCount
    ensures var n := LiteralLength(Literal(l), s);
            && n <= |s| && (forall k :: 0 <= k < n ==> InPathClass(s[k]))
            && (n > 0 ==> n >= |Literal(l)| && Literal(l) <= s) && (Literal(l) <= s ==> n > 0)
  {
    LiteralIsBody(l);
    var lit := Literal(l);
    hide Literal;
    if lit <= s {
      var t := s[|lit|..];
      assert forall k :: |lit| <= k < |lit| + TailLength(t) ==> s[k] == t[k - |lit|];
      assert forall k :: 0 <= k < |lit| ==> s[k] == lit[k];
    }
  }

  /** A match of a path pattern has path characters only. */
  lemma MatchIsPath(p: nat, s: string)
    requires p < 4
    ensures forall k :: 0 <= k < MatchLength(p, s) ==> InPathClass(s[k])
  {
    if p == 1 {
      if HomeLength(s) > 0 {
        HomeHeadShape(s);
      }
    } else {
      LiteralMatch(if p == 0 then 0 else p + 1, s);
    }
  }

  // ----- a match that stays in front is found without what follows -----

  lemma {:induction false} RunTruncated(a: string, b: string)
    requires RunLength(a + b) <= |a|
    ensures RunLength(a) == RunLength(a + b)
  {
    if a != "" {
      assert (a + b)[0] == a[0] && (a + b)[1..] == a[1..] + b;
      if InPathClass(a[0]) {
        RunTruncated(a[1..], b);
      }
    }
  }

  lemma {:induction false} NameTruncated(a: string, b: string)
    requires NameLength(a + b) <= |a|
    ensures NameLength(a) == NameLength(a + b)
  {
    if a != "" {
      assert (a + b)[0] == a[0] && (a + b)[1..] == a[1..] + b;
      if IsNameChar(a[0]) {
        NameTruncated(a[1..], b);
      }
    }
  }

  lemma TailTruncated(a: string, b: string)
    requires TailLength(a + b) <= |a|
    ensures TailLength(a) == TailLength(a + b)
  {
    if a != "" {
      assert (a + b)[0] == a[0] && (a + b)[1..] == a[1..] + b;
      if IsSep(a[0]) {
        RunTruncated(a[1..], b);
      }
    }
  }

  lemma LiteralTruncated(lit: string, a: string, b: string)
    requires LiteralLength(lit, a + b) <= |a|
    ensures LiteralLength(lit, a) == LiteralLength(lit, a + b)
  {
    if lit <= a + b {
      assert lit == (a + b)[..|lit|] == a[..|lit|];
      assert (a + b)[|lit|..] == a[|lit|..] + b;
      TailTruncated(a[|lit|..], b);
    } else {
      assert lit <= a ==> lit <= a + b;
    }
  }

  lemma HomeTailTruncated(y: string, b: string)
    requires HomeTail(y + b) <= |y|
    ensures HomeTail(y) == HomeTail(y + b)
  {
    NameTruncated(y, b);
    var n := NameLength(y);
    assert (y + b)[n..] == y[n..] + b;
    if n > 0 {
      TailTruncated(y[n..], b);
    }
  }

  lemma HomeTruncated(a: string, b: string)
    requires HomeLength(a + b) <= |a|
    ensures HomeLength(a) == HomeLength(a + b)
  {
    if HomeLength(a + b) > 0 {
      HomeInFront(a, b);
    } else if HomeLength(a) > 0 {
      HomeHeadShape(a);
      assert (a + b)[..HomeHead(a)] == a[..HomeHead(a)];
      HomeSame(a, a + b);
    }
  }

  lemma HomeInFront(a: string, b: string)
    requires 0 < HomeLength(a + b) <= |a|
    ensures HomeLength(a) == HomeLength(a + b)
  {
    hide HomeTail, HomeDir, HomeLength;
    var d := if HasDrive(a + b) then 2 else 0;
    HomeHeadLength(a + b);
    HomeIs(a);
    HomeIs(a + b);
    assert HasDrive(a) == HasDrive(a + b);
    hide HasDrive;
    var x := a[d..];
    assert (a + b)[d..] == x + b;
    HomeDirIsPath(x + b);
    assert (x + b)[..HomeWidth] == x[..HomeWidth];
    HomeDirSame(x + b, x);
    assert (x + b)[HomeWidth..] == x[HomeWidth..] + b;
    HomeTailTruncated(x[HomeWidth..], b);
  }

  lemma HomeHeadLength(s: string)
    ensures HomeLength(s) > 0 ==> HomeLength(s) >= HomeHead(s)
  {
  }

  lemma MatchTruncated(p: nat, a: string, b: string)
    requires p < 4 && MatchLength(p, a + b) <= |a|
    ensures MatchLength(p, a) == MatchLength(p, a + b)
  {
    if p == 1 {
      HomeTruncated(a, b);
    } else {
      LiteralTruncated(Literal(if p == 0 then 0 else p + 1), a, b);
    }
  }

  // ----- where the scan stops between the parts -----

  lemma {:induction false} LiteralsStayWithin(p: nat, a: string, b: string)
    requires p < 4 && p != 1 && NoSpan(a, b)
    ensures Within(p, a, b)
    decreases |a|
  {
    if a != "" {
      var n := MatchLength(p, a + b);
      LiteralMatch(if p == 0 then 0 else p + 1, a + b);
      hide MatchLength, Literal;
      if n > 0 {
        EndBeyond(a, b, n);
      }
      var k := if n > 0 then n else 1;
      NoSpanDrop(a, b, k);
      LiteralsStayWithin(p, a[k..], b);
    }
  }

  lemma {:induction false} HomesStayWithin(a: string, b: string)
    requires HomesEnd(a, b)
    ensures Within(1, a, b)
    decreases |a|
  {
    if a != "" {
      var n := MatchLength(1, a + b);
      MatchIsPath(1, a + b);
      hide HomeLength;
      if n > 0 {
        EndBeyond(a, b, n);
      }
      var k := if n > 0 then n else 1;
      HomesEndDrop(a, b, k);
      HomesStayWithin(a[k..], b);
    }
  }

  // ----- one pass -----

  /** A pass over a text whose scan stops at the cut is a pass over each part. */
  lemma {:induction false} ReplaceSplit(p: nat, a: string, b: string)
    requires p < 4 && Within(p, a, b)
    ensures Replace(p, a + b) == Replace(p, a) + Replace(p, b)
    decreases |a|
  {
    hide *;
    if a == "" {
      ReplaceStep(p, a);
      assert a + b == b && "" + Replace(p, b) == Replace(p, b);
    } else {
      StepInFront(p, a, b);
      var k := Skip(p, a);
      assert (a + b)[k..] == a[k..] + b;
      ReplaceSplit(p, a[k..], b);
      ReplaceJoin(p, a, b);
    }
  }

  lemma ReplaceJoin(p: nat, a: string, b: string)
    requires p < 4 && a != "" && Piece(p, a + b) == Piece(p, a) && Skip(p, a + b) == Skip(p, a)
    requires var k := Skip(p, a); Replace(p, a[k..] + b) == Replace(p, a[k..]) + Replace(p, b)
    ensures Replace(p, a + b) == Replace(p, a) + Replace(p, b)
  {
    hide Piece, Skip;
    var k := Skip(p, a);
    assert (a + b)[k..] == a[k..] + b;
    assert Piece(p, a) + (Replace(p, a[k..]) + Replace(p, b)) == (Piece(p, a) + Replace(p, a[k..])) + Replace(p, b);
  }

  lemma StepInFront(p: nat, a: string, b: string)
    requires p < 4 && a != "" && Within(p, a, b)
    ensures Piece(p, a + b) == Piece(p, a) && Skip(p, a + b) == Skip(p, a)
    ensures Within(p, a[Skip(p, a)..], b)
    ensures (Piece(p, a) == [a[0]] && Skip(p, a) == 1) || Piece(p, a) == Replacement(p)
    ensures Piece(p, a) == Replacement(p) ==> forall k :: 0 <= k < Skip(p, a) ==> IsPathBody(a[k])
  {
    MatchTruncated(p, a, b);
    MatchIsPath(p, a);
    MarkerIsNoCharacter(p);
    hide MatchLength, Replacement;
    assert (a + b)[0] == a[0];
  }

  lemma MarkerIsNoCharacter(p: nat)
    requires p < 4
    ensures |Replacement(p)| > 1
  {
  }

  /** Output without a marker character was copied from the front of the input. */
  lemma {:induction false} Copied(p: nat, s: string, k: nat)
    requires p < 4 && k <= |Replace(p, s)|
    requires '<' !in Replace(p, s)[..k] && '[' !in Replace(p, s)[..k]
    ensures k <= |s| && s[..k] == Replace(p, s)[..k]
    ensures k == |Replace(p, s)| ==> s == Replace(p, s)
    decreases |s|
  {
    hide *;
    ReplaceStep(p, s);
    if s != "" && k > 0 {
      StepShape(p, s);
      var t := Replace(p, s);
      var rest := Replace(p, s[1..]);
      assert t[0] in t[..k];
      assert t == [s[0]] + rest;
      assert t[..k] == [t[0]] + rest[..k - 1];
      Copied(p, s[1..], k - 1);
      assert s[..k] == [s[0]] + s[1..][..k - 1];
      assert s == [s[0]] + s[1..];
    } else if s != "" {
      StepShape(p, s);
    }
  }

  /** The scan either copies a character or writes a marker. */
  lemma StepShape(p: nat, s: string)
    requires p < 4 && s != ""
    ensures Piece(p, s) != ""
    ensures (Piece(p, s) == [s[0]] && Skip(p, s) == 1) || Piece(p, s)[0] == '<' || Piece(p, s)[0] == '['
  {
    hide MatchLength;
  }

  lemma ReplaceStep(p: nat, s: string)
    requires p < 7
    ensures s == "" ==> Replace(p, s) == ""
    ensures s != "" ==> Replace(p, s) == Piece(p, s) + Replace(p, s[Skip(p, s)..])
    ensures s != "" && MatchLength(p, s) == 0 ==> Replace(p, s) == [s[0]] + Replace(p, s[1..])
  {
    hide MatchLength, Replacement;
  }

  // ----- a pass keeps the cut -----

  lemma EndInTail(x: string, y: string)
    requires HasEnd(y)
    ensures HasEnd(x + y)
  {
    var e :| 0 <= e < |y| && !IsPathBody(y[e]);
    assert (x + y)[|x| + e] == y[e];
  }

  lemma EndExists(a: string)
    requires HasEnd(a)
    ensures a != ""
  {
  }

  lemma EndInFront(x: string, y: string)
    requires x != "" && !IsPathBody(x[0])
    ensures HasEnd(x + y)
  {
    assert (x + y)[0] == x[0];
  }

  /** The character that ends a path is copied, so the output has one as well. */
  lemma {:induction false} EndKept(p: nat, a: string)
    requires p < 4 && HasEnd(a)
    ensures HasEnd(Replace(p, a))
    decreases |a|
  {
    hide *;
    EndExists(a);
    StepShape(p, a);
    SkipIsBody(p, a);
    ReplaceStep(p, a);
    var k := Skip(p, a);
    if IsPathBody(a[0]) {
      EndBehind(a, k);
      EndKept(p, a[k..]);
      EndInTail(Piece(p, a), Replace(p, a[k..]));
    } else {
      EndInFront(Piece(p, a), Replace(p, a[k..]));
    }
  }

  /** The scan moves over path characters, or copies one character. */
  lemma SkipIsBody(p: nat, a: string)
    requires p < 4 && a != ""
    ensures IsPathBody(a[0]) ==> forall j :: 0 <= j < Skip(p, a) ==> IsPathBody(a[j])
    ensures !IsPathBody(a[0]) ==> Piece(p, a) == [a[0]]
  {
    MatchIsPath(p, a);
    hide MatchLength;
  }

  /** No literal begins inside replaced text. */
  lemma {:induction false} PrependMarker(r: string, a: string, b: string)
    requires NoSpan(a, b) && forall k :: 0 <= k < |r| ==> !IsSep(r[k])
    ensures NoSpan(r + a, b)
  {
    if r == "" {
      assert r + a == a;
    } else {
      assert (r + a)[1..] == r[1..] + a;
      PrependMarker(r[1..], a, b);
      NotAtMarker(r + a, b);
    }
  }

  lemma NotAtMarker(a: string, b: string)
    requires a != "" && !IsSep(a[0])
    ensures Settled(a, b)
  {
    forall l | 0 <= l < LiteralCount
      ensures !(Literal(l) <= a + b)
    {
      LiteralIsBody(l);
      assert (a + b)[0] == a[0];
    }
  }

  lemma SettledKept(p: nat, a: string, b: string)
    requires p < 4 && a != "" && NoSpan(a, b) && Within(p, a, b)
    ensures Settled(Replace(p, a), Replace(p, b))
  {
    assert Settled(a, b);
    ReplaceSplit(p, a, b);
    hide NoSpan, Within, Replace, HasEnd;
    forall l | 0 <= l < LiteralCount && Literal(l) <= Replace(p, a + b)
      ensures HasEnd(Replace(p, a))
    {
      LiteralFromInput(p, a + b, l);
      EndKept(p, a);
    }
  }

  /** A literal in front of the output was there in the input. */
  lemma LiteralFromInput(p: nat, s: string, l: nat)
    requires p < 4 && l < LiteralCount && Literal(l) <= Replace(p, s)
    ensures Literal(l) <= s
  {
    hide *;
    LiteralIsBody(l);
    var t := Replace(p, s);
    var lit := Literal(l);
    assert t[..|lit|] == lit;
    Copied(p, s, |lit|);
  }

  lemma NoSpanNil(b: string)
    ensures NoSpan("", b)
  {
  }

  lemma NoSpanCons(c: char, a: string, b: string)
    requires Settled([c] + a, b) && NoSpan(a, b)
    ensures NoSpan([c] + a, b)
  {
    assert ([c] + a)[1..] == a;
  }

  lemma {:induction false} SpanKept(p: nat, a: string, b: string)
    requires p < 4 && NoSpan(a, b) && Within(p, a, b)
    ensures NoSpan(Replace(p, a), Replace(p, b))
    decreases |a|
  {
    hide *;
    ReplaceStep(p, a);
    NoSpanNil(Replace(p, b));
    if a != "" {
      StepInFront(p, a, b);
      SettledKept(p, a, b);
      var k := Skip(p, a);
      var rest := Replace(p, a[k..]);
      NoSpanDrop(a, b, k);
      SpanKept(p, a[k..], b);
      if Piece(p, a) == Replacement(p) {
        MarkerHasNoSeparator(p);
        PrependMarker(Replacement(p), rest, Replace(p, b));
      } else {
        NoSpanCons(a[0], rest, Replace(p, b));
      }
    }
  }

  lemma MarkerHasNoSeparator(p: nat)
    requires p < 4
    ensures forall k :: 0 <= k < |Replacement(p)| ==> !IsSep(Replacement(p)[k])
  {
  }


  // ----- the second pattern sees what the first pass left -----

  /** A match of the second pattern in front of the output was there in the input. */
  lemma HomeFromInput(p: nat, s: string)
    requires p < 4 && HomeLength(Replace(p, s)) > 0
    ensures HomeLength(s) > 0
  {
    hide Replace, HomeLength;
    var t := Replace(p, s);
    HomeHeadShape(t);
    Copied(p, s, HomeHead(t));
    HomeSame(t, s);
  }

  lemma NoHomeAtMarker(p: nat, j: nat, rest: string)
    requires p < 4 && j < |Replacement(p)|
    ensures HomeLength(Replacement(p)[j..] + rest) == 0
  {
    var r := Replacement(p);
    var t := r[j..] + rest;
    assert t[0] == r[j] && !IsSep(r[j]);
    assert !HasDrive(t) by {
      if j + 1 < |r| { assert t[1] == r[j + 1] != ':'; } else { assert !IsLetter(r[j]); }
    }
  }

  lemma {:induction false} HomesPrepend(r: string, a: string, b: string)
    requires HomesEnd(a, b) && forall j :: 0 <= j < |r| ==> HomeLength(r[j..] + (a + b)) == 0
    ensures HomesEnd(r + a, b)
  {
    hide HomeLength, HasEnd;
    if r == "" {
      assert r + a == a;
    } else {
      var t := r[1..];
      forall j | 0 <= j < |t|
        ensures HomeLength(t[j..] + (a + b)) == 0
      {
        assert t[j..] == r[j + 1..];
      }
      HomesPrepend(t, a, b);
      assert r[0..] == r && (r + a) + b == r + (a + b) && (r + a)[1..] == t + a;
    }
  }

  lemma HomesNil(b: string)
    ensures HomesEnd("", b)
  {
  }

  lemma HomesCons(c: char, a: string, b: string)
    requires HomesEnd(a, b) && (HomeLength([c] + a + b) > 0 ==> HasEnd([c] + a))
    ensures HomesEnd([c] + a, b)
  {
    assert ([c] + a)[1..] == a;
  }

  lemma HomeAtFront(p: nat, a: string, b: string)
    requires p < 4 && a != "" && HomesEnd(a, b) && Within(p, a, b)
    ensures HomeLength(Replace(p, a) + Replace(p, b)) > 0 ==> HasEnd(Replace(p, a))
  {
    hide Within, Replace, HomeLength, HasEnd;
    ReplaceSplit(p, a, b);
    if HomeLength(Replace(p, a) + Replace(p, b)) > 0 {
      HomeFromInput(p, a + b);
      EndKept(p, a);
    }
  }

  lemma {:induction false} HomesKept(p: nat, a: string, b: string)
    requires p < 4 && HomesEnd(a, b) && Within(p, a, b)
    ensures HomesEnd(Replace(p, a), Replace(p, b))
    decreases |a|
  {
    hide *;
    ReplaceStep(p, a);
    HomesNil(Replace(p, b));
    if a != "" {
      StepInFront(p, a, b);
      HomeAtFront(p, a, b);
      var k := Skip(p, a);
      var rest := Replace(p, a[k..]);
      HomesEndDrop(a, b, k);
      HomesKept(p, a[k..], b);
      if Piece(p, a) == Replacement(p) {
        forall j | 0 <= j < |Replacement(p)|
          ensures HomeLength(Replacement(p)[j..] + (rest + Replace(p, b))) == 0
        {
          NoHomeAtMarker(p, j, rest + Replace(p, b));
        }
        HomesPrepend(Replacement(p), rest, Replace(p, b));
      } else {
        HomesCons(a[0], rest, Replace(p, b));
      }
    }
  }

  // ----- the path passes together -----

  /** The first four passes: the paths. */
  function Paths(s: string): string {
    Replace(3, Replace(2, Replace(1, Replace(0, s))))
  }

  lemma TextIsBlocksOfPaths(s: string)
    ensures Text(s) == Passes(4, Paths(s))
  {
    hide Replace;
    var s1 := Replace(0, s);
    var s2 := Replace(1, s1);
    var s3 := Replace(2, s2);
    assert Passes(3, s3) == Passes(4, Replace(3, s3));
    assert Passes(1, s1) == Passes(2, s2);
  }

  /** Where no literal and no match of the second pattern spans the cut, the paths of the parts are the paths of the whole. */
  lemma PathsSplit(a: string, b: string)
    requires NoSpan(a, b) && HomesEnd(a, b)
    ensures Paths(a + b) == Paths(a) + Paths(b)
  {
    hide NoSpan, HomesEnd, Replace, Within;
    LiteralsStayWithin(0, a, b);
    ReplaceSplit(0, a, b);
    SpanKept(0, a, b);
    HomesKept(0, a, b);
    var a1, b1 := Replace(0, a), Replace(0, b);
    HomesStayWithin(a1, b1);
    ReplaceSplit(1, a1, b1);
    SpanKept(1, a1, b1);
    LaterPathsSplit(Replace(1, a1), Replace(1, b1));
  }

  /** The passes behind the second have literal patterns only. */
  lemma LaterPathsSplit(a: string, b: string)
    requires NoSpan(a, b)
    ensures Replace(3, Replace(2, a + b)) == Replace(3, Replace(2, a)) + Replace(3, Replace(2, b))
  {
    hide NoSpan, Replace, Within;
    LiteralsStayWithin(2, a, b);
    ReplaceSplit(2, a, b);
    SpanKept(2, a, b);
    LiteralsStayWithin(3, Replace(2, a), Replace(2, b));
    ReplaceSplit(3, Replace(2, a), Replace(2, b));
  }
}
