/**
 The block patterns behind the path patterns: a text has a block to remove after the path passes
 exactly if it had one before, and removing one makes the text shorter.
 */
module SanitizeBlocks {
  import opened GoStrings
  import opened SanitizeText
  import opened SanitizeSplit

  /** The closing tag stands somewhere in the text. */
  predicate HasClose(k: nat, s: string)
    requires k < TagCount
  {
    s != "" && (CloseTag(k) <= s || HasClose(k, s[1..]))
  }

  /** An opening tag stands somewhere, and its closing tag behind it. */
  predicate HasBlock(k: nat, s: string)
    requires k < TagCount
  {
    s != "" && ((OpenTag(k) <= s && HasClose(k, s[1..])) || HasBlock(k, s[1..]))
  }

  predicate NoBlock(s: string) {
    forall k :: 0 <= k < TagCount ==> !HasBlock(k, s)
  }

  // ----- tags -----

  /** Behind its first character a tag gives no pattern a place to begin, wherever it stands. */
  predicate QuietWord(y: string) {
    && y != "" && y[|y| - 1] == '>' && '<' !in y && '[' !in y && ':' !in y
    && forall j :: 0 <= j < |y| && IsSep(y[j]) ==> j + 1 < |y| && (y[j + 1] == 'w' || y[j + 1] == 'u')
  }

  predicate IsTagChar(c: char) {
    c != '<' && c != '>' && c != '[' && c != ':' && !IsSep(c)
  }

  lemma TagNameShape(k: nat)
    requires k < TagCount
    ensures |TagName(k)| >= 16 && (TagName(k)[0] == 'w' || TagName(k)[0] == 'u')
    ensures forall j :: 0 <= j < |TagName(k)| ==> IsTagChar(TagName(k)[j])
  {
  }

  lemma OpenTagShape(k: nat)
    requires k < TagCount
    ensures |OpenTag(k)| > 12 && OpenTag(k)[0] == '<' && OpenTag(k)[10] != '>' && QuietWord(OpenTag(k)[1..])
  {
    TagNameShape(k);
    hide TagName;
    var y := OpenTag(k)[1..];
    assert y == TagName(k) + ">";
    assert forall j :: 0 <= j < |y| - 1 ==> IsTagChar(y[j]);
  }

  lemma CloseTagShape(k: nat)
    requires k < TagCount
    ensures |CloseTag(k)| > 12 && CloseTag(k)[0] == '<' && CloseTag(k)[10] != '>' && QuietWord(CloseTag(k)[1..])
  {
    TagNameShape(k);
    hide TagName;
    var y := CloseTag(k)[1..];
    assert y == "/" + TagName(k) + ">";
    assert forall j :: 1 <= j < |y| - 1 ==> IsTagChar(y[j]);
    assert CloseTag(k)[10] == y[9];
  }

  // ----- a pass leaves the tags where they are -----

  lemma PathNeedsWord(p: nat, s: string)
    requires p < 4 && s != ""
    ensures MatchLength(p, s) > 0 ==> |s| > 1 && ((IsSep(s[0]) && s[1] != 'w' && s[1] != 'u') || (IsLetter(s[0]) && s[1] == ':'))
  {
    if p == 1 {
      if HomeLength(s) > 0 {
        var d := if HasDrive(s) then 2 else 0;
        assert SepWord(s[d..], "home");
        assert s[d..][1..][0] == s[d + 1];
      }
    } else {
      var l := if p == 0 then 0 else p + 1;
      LiteralMatch(l, s);
      LiteralIsBody(l);
      SecondOfLiteral(l);
      hide Literal, MatchLength;
      if Literal(l) <= s {
        assert s[0] == Literal(l)[0] && s[1] == Literal(l)[1];
      }
    }
  }

  lemma SecondOfLiteral(l: nat)
    requires l < LiteralCount
    ensures |Literal(l)| > 1 && Literal(l)[1] != 'w' && Literal(l)[1] != 'u'
  {
  }

  /** A tag's word is copied by every path pass. */
  lemma {:induction false} WordCopied(p: nat, y: string, z: string, j: nat)
    requires p < 4 && QuietWord(y) && j <= |y|
    ensures Replace(p, y[j..] + z) == y[j..] + Replace(p, z)
    decreases |y| - j
  {
    hide Replace, MatchLength;
    if j == |y| {
      assert y[j..] + z == z && y[j..] + Replace(p, z) == Replace(p, z);
    } else {
      var s := y[j..] + z;
      assert s[0] == y[j] && (j + 1 < |y| ==> s[1] == y[j + 1]) && s[1..] == y[j + 1..] + z;
      PathNeedsWord(p, s);
      ReplaceStep(p, s);
      WordCopied(p, y, z, j + 1);
      assert y[j..] == [y[j]] + y[j + 1..];
    }
  }

  lemma TagCopied(p: nat, tag: string, s: string)
    requires p < 4 && s != "" && MatchLength(p, s) == 0
    requires tag != "" && QuietWord(tag[1..])
    ensures tag <= Replace(p, s) <==> tag <= s
  {
    hide Replace, MatchLength;
    ReplaceStep(p, s);
    var y, rest := tag[1..], Replace(p, s[1..]);
    var t := Replace(p, s);
    assert t == [s[0]] + rest && tag == [tag[0]] + y;
    if tag <= s {
      var z := s[|tag|..];
      assert s[1..] == y + z by { assert s == tag + z; }
      assert y[0..] == y;
      WordCopied(p, y, z, 0);
      assert t == tag + Replace(p, z);
    }
    if tag <= t {
      assert rest[..|y|] == t[1..|tag|] == y;
      Copied(p, s[1..], |y|);
      assert s[..|tag|] == [s[0]] + s[1..][..|y|];
    }
  }

  /** No tag stands in the front part, whatever follows it. */
  lemma {:induction false} QuietFront(k: nat, r: string, s: string)
    requires k < TagCount
    requires forall j :: 0 <= j < |r| ==> !(OpenTag(k) <= r[j..] + s) && !(CloseTag(k) <= r[j..] + s)
    ensures HasClose(k, r + s) == HasClose(k, s) && HasBlock(k, r + s) == HasBlock(k, s)
  {
    hide OpenTag, CloseTag;
    if r == "" {
      assert r + s == s;
    } else {
      var t := r[1..];
      forall j | 0 <= j < |t|
        ensures !(OpenTag(k) <= t[j..] + s) && !(CloseTag(k) <= t[j..] + s)
      {
        assert t[j..] == r[j + 1..];
      }
      QuietFront(k, t, s);
      assert r[0..] == r && (r + s)[1..] == t + s;
    }
  }

  /** Text without an opening angle holds no tag. */
  lemma NoAngleNoTag(k: nat, r: string, j: nat, s: string)
    requires k < TagCount && j < |r| && r[j] != '<'
    ensures !(OpenTag(k) <= r[j..] + s) && !(CloseTag(k) <= r[j..] + s)
  {
    OpenTagShape(k);
    CloseTagShape(k);
    hide OpenTag, CloseTag;
    assert (r[j..] + s)[0] == r[j];
    CharacterOfPrefix(OpenTag(k), r[j..] + s, 0);
    CharacterOfPrefix(CloseTag(k), r[j..] + s, 0);
  }

  lemma CharacterOfPrefix(x: string, y: string, i: nat)
    ensures x <= y && i < |x| ==> y[i] == x[i]
  {
  }

  lemma MarkerIsNoTag(k: nat, p: nat, j: nat, s: string)
    requires k < TagCount && p < 4 && j < |Replacement(p)|
    ensures var r := Replacement(p); !(OpenTag(k) <= r[j..] + s) && !(CloseTag(k) <= r[j..] + s)
  {
    MarkerShape(p);
    OpenTagShape(k);
    CloseTagShape(k);
    hide OpenTag, CloseTag, Replacement, QuietWord;
    var r := Replacement(p);
    if r[j] == '<' {
      assert (r[j..] + s)[10] == r[10];
      CharacterOfPrefix(OpenTag(k), r[j..] + s, 10);
      CharacterOfPrefix(CloseTag(k), r[j..] + s, 10);
    } else {
      NoAngleNoTag(k, r, j, s);
    }
  }

  lemma MarkerShape(p: nat)
    requires p < 4
    ensures var r := Replacement(p); forall j :: 0 <= j < |r| && r[j] == '<' ==> j == 0 && |r| > 10 && r[10] == '>'
  {
  }

  /** A path pass neither makes nor breaks a block. */
  lemma {:induction false} BlocksKept(k: nat, p: nat, s: string)
    requires k < TagCount && p < 4
    ensures HasClose(k, Replace(p, s)) == HasClose(k, s) && HasBlock(k, Replace(p, s)) == HasBlock(k, s)
    decreases |s|
  {
    hide Replace, MatchLength, OpenTag, CloseTag, Replacement;
    ReplaceStep(p, s);
    if s != "" {
      if MatchLength(p, s) > 0 {
        MatchReplaced(k, p, s);
      } else {
        BlocksKept(k, p, s[1..]);
        OpenTagShape(k);
        CloseTagShape(k);
        TagCopied(p, OpenTag(k), s);
        TagCopied(p, CloseTag(k), s);
        assert Replace(p, s)[1..] == Replace(p, s[1..]);
      }
    }
  }

  lemma {:induction false} MatchReplaced(k: nat, p: nat, s: string)
    requires k < TagCount && p < 4 && MatchLength(p, s) > 0
    ensures HasClose(k, Replace(p, s)) == HasClose(k, s) && HasBlock(k, Replace(p, s)) == HasBlock(k, s)
    decreases |s|, 0
  {
    var n := MatchLength(p, s);
    MatchIsPath(p, s);
    hide MatchLength, OpenTag, CloseTag, HasClose, HasBlock;
    var m, rest := s[..n], s[n..];
    assert s == m + rest;
    assert Replace(p, s) == Replacement(p) + Replace(p, rest);
    hide Replace;
    forall j | 0 <= j < |m|
      ensures !(OpenTag(k) <= m[j..] + rest) && !(CloseTag(k) <= m[j..] + rest)
    {
      assert m[j] == s[j];
      NoAngleNoTag(k, m, j, rest);
    }
    QuietFront(k, m, rest);
    BlocksKept(k, p, rest);
    forall j | 0 <= j < |Replacement(p)|
      ensures !(OpenTag(k) <= Replacement(p)[j..] + Replace(p, rest))
      ensures !(CloseTag(k) <= Replacement(p)[j..] + Replace(p, rest))
    {
      MarkerIsNoTag(k, p, j, Replace(p, rest));
    }
    QuietFront(k, Replacement(p), Replace(p, rest));
  }

  /** Whether a text has a block is decided before the paths are redacted. */
  lemma BlocksOfPaths(k: nat, s: string)
    requires k < TagCount
    ensures HasBlock(k, Paths(s)) == HasBlock(k, s)
  {
    hide Replace, HasBlock, HasClose;
    BlocksKept(k, 0, s);
    var s1 := Replace(0, s);
    BlocksKept(k, 1, s1);
    var s2 := Replace(1, s1);
    BlocksKept(k, 2, s2);
    BlocksKept(k, 3, Replace(2, s2));
  }

  // ----- removing blocks -----

  lemma {:induction false} CloseIsFound(k: nat, s: string, j: nat)
    requires k < TagCount
    ensures At(s, CloseTag(k), j) ==> HasClose(k, s)
    decreases |s|
  {
    hide CloseTag;
    if At(s, CloseTag(k), j) {
      CloseTagShape(k);
      if j == 0 {
        assert s[..|CloseTag(k)|] == CloseTag(k);
      } else {
        AtDrop(s, 1, CloseTag(k), j - 1);
        CloseIsFound(k, s[1..], j - 1);
      }
    }
  }

  lemma {:induction false} CloseIsSomewhere(k: nat, s: string)
    requires k < TagCount && HasClose(k, s)
    ensures exists j :: At(s, CloseTag(k), j)
  {
    hide CloseTag;
    if CloseTag(k) <= s {
      assert At(s, CloseTag(k), 0);
    } else {
      CloseIsSomewhere(k, s[1..]);
      var j :| At(s[1..], CloseTag(k), j);
      AtDrop(s, 1, CloseTag(k), j);
      assert At(s, CloseTag(k), j + 1);
    }
  }

  /** A block pattern matches in front of the text exactly if its tags stand in order. */
  lemma BlockMatchIs(k: nat, s: string)
    requires k < TagCount
    ensures MatchLength(k + 4, s) > 0 <==> OpenTag(k) <= s && HasClose(k, s[1..])
    ensures MatchLength(k + 4, s) == 0 || MatchLength(k + 4, s) > |OpenTag(k)|
  {
    OpenTagShape(k);
    hide OpenTag, CloseTag, Index;
    if OpenTag(k) <= s {
      var open := OpenTag(k);
      var rest := s[|open|..];
      var word := open[1..];
      assert s == open + rest && s[1..] == open[1..] + rest;
      forall j | 0 <= j < |word|
        ensures !(OpenTag(k) <= word[j..] + rest) && !(CloseTag(k) <= word[j..] + rest)
      {
        NoAngleNoTag(k, word, j, rest);
      }
      QuietFront(k, word, rest);
      var i := Index(rest, CloseTag(k));
      if i == -1 {
        if HasClose(k, rest) {
          CloseIsSomewhere(k, rest);
        }
      } else {
        CloseIsFound(k, rest, i);
        CloseTagShape(k);
      }
    }
  }

  /** A block pass shortens the text exactly if there is a block to remove. */
  lemma {:induction false} BlockPass(k: nat, s: string)
    requires k < TagCount
    ensures |Replace(k + 4, s)| <= |s|
    ensures HasBlock(k, s) ==> |Replace(k + 4, s)| < |s|
    ensures !HasBlock(k, s) ==> Replace(k + 4, s) == s
    decreases |s|
  {
    hide Replace, MatchLength, OpenTag, CloseTag, HasClose;
    ReplaceStep(k + 4, s);
    if s != "" {
      BlockMatchIs(k, s);
      var n := MatchLength(k + 4, s);
      if n > 0 {
        BlockPass(k, s[n..]);
        assert Piece(k + 4, s) == "";
      } else {
        BlockPass(k, s[1..]);
        assert s == [s[0]] + s[1..];
      }
    }
  }

  /** Of a text without blocks only the paths are redacted; any block makes the result shorter than that. */
  lemma TextOrShorter(s: string)
    ensures NoBlock(s) ==> Text(s) == Paths(s)
    ensures !NoBlock(s) ==> |Text(s)| < |Paths(s)|
  {
    hide Paths, HasBlock, Replace, Text;
    TextIsBlocksOfPaths(s);
    var t := Paths(s);
    forall k | 0 <= k < TagCount
      ensures HasBlock(k, t) == HasBlock(k, s)
    {
      BlocksOfPaths(k, s);
    }
    BlockPass(0, t);
    var t1 := Replace(4, t);
    BlockPass(1, t1);
    var t2 := Replace(5, t1);
    BlockPass(2, t2);
    assert Passes(6, t2) == Passes(7, Replace(6, t2)) == Replace(6, t2);
    assert Passes(4, t) == Passes(5, t1) == Passes(6, t2);
  }

  // ----- blocks in parts of a text -----

  lemma {:induction false} CloseInFront(k: nat, a: string, b: string)
    requires k < TagCount && HasClose(k, a)
    ensures HasClose(k, a + b)
  {
    hide CloseTag;
    assert (a + b)[1..] == a[1..] + b;
    if CloseTag(k) <= a {
      assert CloseTag(k) <= a + b;
    } else {
      CloseInFront(k, a[1..], b);
    }
  }

  lemma {:induction false} BlockInFront(k: nat, a: string, b: string)
    requires k < TagCount && HasBlock(k, a)
    ensures HasBlock(k, a + b)
  {
    hide OpenTag, HasClose;
    assert (a + b)[1..] == a[1..] + b;
    if OpenTag(k) <= a && HasClose(k, a[1..]) {
      assert OpenTag(k) <= a + b;
      CloseInFront(k, a[1..], b);
    } else {
      BlockInFront(k, a[1..], b);
    }
  }

  lemma {:induction false} BlockBehind(k: nat, a: string, b: string)
    requires k < TagCount && HasBlock(k, b)
    ensures HasBlock(k, a + b)
  {
    if a == "" {
      assert a + b == b;
    } else {
      hide OpenTag, HasClose;
      assert (a + b)[1..] == a[1..] + b;
      BlockBehind(k, a[1..], b);
    }
  }

  lemma NoBlockInParts(a: string, b: string)
    requires NoBlock(a + b)
    ensures NoBlock(a) && NoBlock(b)
  {
    hide HasBlock;
    forall k | 0 <= k < TagCount
      ensures !HasBlock(k, a) && !HasBlock(k, b)
    {
      if HasBlock(k, a) {
        BlockInFront(k, a, b);
      } else if HasBlock(k, b) {
        BlockBehind(k, a, b);
      }
    }
  }

  lemma NoAngleNoBlock(s: string)
    requires '<' !in s
    ensures NoBlock(s)
  {
    hide OpenTag, CloseTag, HasBlock, HasClose;
    forall k | 0 <= k < TagCount
      ensures !HasBlock(k, s)
    {
      forall j | 0 <= j < |s|
        ensures !(OpenTag(k) <= s[j..] + "") && !(CloseTag(k) <= s[j..] + "")
      {
        NoAngleNoTag(k, s, j, "");
      }
      QuietFront(k, s, "");
      NoBlockInNothing(k);
      assert s + "" == s;
    }
  }

  lemma NoBlockInNothing(k: nat)
    requires k < TagCount
    ensures !HasBlock(k, "")
  {
  }
}
