/**
 Texts on which streamed redaction depends on the chunking: drive letters, mixed separators and
 blocks, which `safeCutPoint` does not hold back (`internal/sanitize/sanitize.go`). They are
 instances of `SanitizeBytes.StreamingIsExact`.
 */
module SanitizeLimits {
  import opened GoStrings
  import opened SanitizeText
  import opened SanitizeSplit
  import opened SanitizeBlocks
  import opened SanitizeStream
  import opened SanitizeExact
  import opened SanitizeBytes

  /** A workspace directory in front of a name; a drive may stand before it, separators may be mixed. */
  ghost predicate IsWorkspacePath(s: string, name: string) {
    && name != "" && (forall i :: 0 <= i < |name| ==> IsNameChar(name[i]))
    && var d := DriveWidth(s); |s| == d + HomeWidth + |name| && HomeDir(s[d..]) && s[d + HomeWidth..] == name
  }

  lemma {:induction false} NameIsWhole(name: string)
    requires forall i :: 0 <= i < |name| ==> IsNameChar(name[i])
    ensures NameLength(name) == |name|
  {
    if name != "" {
      NameIsWhole(name[1..]);
    }
  }

  lemma PathIsOneMatch(s: string, name: string)
    requires IsWorkspacePath(s, name)
    ensures HomeLength(s) == |s| > 0
  {
    hide HomeDir, HasDrive;
    NameIsWhole(name);
    var d := DriveWidth(s);
    assert s[d..][HomeWidth..] == name && name[|name|..] == "";
  }

  /** The whole path is redacted to one marker. */
  lemma PathText(s: string, name: string)
    requires IsWorkspacePath(s, name)
    ensures Text(s) == "<workspace>"
  {
    PathIsOneMatch(s, name);
    PathIsQuiet(s, name);
    hide *;
    TextOrShorter(s);
    PathsAreLater(s);
    assert s == s + "";
    WordCopiedWhole(0, s, "");
    ReplaceStep(0, "");
    assert Replace(0, s) == s;
    FrontMatch(s);
    assert s[|s|..] == "";
    LaterNothing();
    MarkerText();
    assert Later(s) == Replacement(1) + "";
  }

  lemma MarkerText()
    ensures Replacement(1) + "" == Replacement(1) == "<workspace>"
  {
  }

  lemma LaterNothing()
    ensures Later("") == ""
  {
  }

  lemma PathIsQuiet(s: string, name: string)
    requires IsWorkspacePath(s, name)
    ensures NoStart(0, s) && LiteralPass(0) && NoBlock(s)
  {
    PathIsOneMatch(s, name);
    PathSeparators(s, name);
    MatchIsPath(1, s);
    hide HomeLength, IsWorkspacePath, NoStart;
    NoAngleNoBlock(s);
  }

  lemma PathSeparators(s: string, name: string)
    requires IsWorkspacePath(s, name)
    ensures NoStart(0, s)
  {
    PathIsOneMatch(s, name);
    HeadIsQuiet(s);
    var d, w := DriveWidth(s), HomeHead(s);
    NameHasNoSep(name);
    hide HomeLength, HomeDir, IsNameChar, DriveWidth;
    forall j | w <= j < |s|
      ensures !IsSep(s[j])
    {
      assert s[j] == s[d + HomeWidth..][j - d - HomeWidth];
    }
    forall j | 0 <= j < |s| && IsSep(s[j])
      ensures j + 1 < |s| && s[j + 1] != 't'
    {
      assert s[..w][j] == s[j] && s[..w][j + 1] == s[j + 1];
    }
  }

  lemma NameHasNoSep(name: string)
    requires forall i :: 0 <= i < |name| ==> IsNameChar(name[i])
    ensures forall i :: 0 <= i < |name| ==> !IsSep(name[i])
  {
  }

  /** Neither a drive nor mixed separators are held back: fed byte by byte such a path comes out longer. */
  lemma UnheldPathIsCutOff(s: string, name: string)
    requires IsWorkspacePath(s, name) && forall l :: 0 <= l < LiteralCount ==> !(Literal(l) <= s)
    ensures Text(s) == "<workspace>"
    ensures Concat(Bytes(s)) == s && Streamed("", Bytes(s)) != Text(s)
  {
    PathText(s, name);
    PathIsOneMatch(s, name);
    hide Text, HomeLength, Literal, IsWorkspacePath;
    assert s[0..] == s && !Guarded(s, 0);
    OthersDisagree(s);
  }

  // ----- the families -----

  /** A Windows path: drive, directory, name. */
  function DrivePath(drive: char, name: string): string {
    [drive, ':'] + "/home/user/projects/workspace-" + name
  }

  /** A path whose first separator is not like the others. */
  function MixedPath(name: string): string {
    "\\home/user/projects/workspace-" + name
  }

  /** The directory with slashes, word by word. */
  function SlashPath(a: string, b: string, c: string, d: string): string {
    "/" + a + "/" + b + "/" + c + "/" + d
  }

  lemma SlashPathWords(a: string, b: string, c: string, d: string)
    requires |a| == 4 && |b| == 4 && |c| == 8
    ensures var s := SlashPath(a, b, c, d);
            SepWord(s, a) && SepWord(s[5..], b) && SepWord(s[10..], c) && SepWord(s[19..], d) && |s| == 20 + |d|
  {
    var s := SlashPath(a, b, c, d);
    assert s == "/" + (a + ("/" + (b + ("/" + (c + ("/" + d))))));
    assert s[1..] == a + ("/" + (b + ("/" + (c + ("/" + d)))));
    assert s[5..] == "/" + (b + ("/" + (c + ("/" + d)))) && s[5..][1..] == b + ("/" + (c + ("/" + d)));
    assert s[10..] == "/" + (c + ("/" + d)) && s[10..][1..] == c + ("/" + d);
    assert s[19..] == "/" + d && s[19..][1..] == d;
  }

  lemma SlashDir()
    ensures var dir := "/home/user/projects/workspace-"; |dir| == HomeWidth && HomeDir(dir)
  {
    SlashPathWords("home", "user", "projects", "workspace-");
    hide SepWord;
    var one := "/" + "home";
    var two := one + "/" + "user";
    var three := two + "/" + "projects";
    assert one == "/home" && two == "/home/user" && three == "/home/user/projects";
    assert three + "/" + "workspace-" == "/home/user/projects/workspace-";
    assert SlashPath("home", "user", "projects", "workspace-") == three + "/" + "workspace-";
  }

  /** Which separator stands first does not matter. */
  lemma FirstSeparatorIsFree(s: string, t: string)
    requires HomeDir(s) && t != "" && IsSep(t[0]) && |t| == |s| && t[1..] == s[1..]
    ensures HomeDir(t)
  {
    assert s[5..] == s[1..][4..] == t[5..];
    assert s[10..] == s[1..][9..] == t[10..];
    assert s[19..] == s[1..][18..] == t[19..];
    hide HomeDir;
  }

  /**
   A drive letter is not held back: cut behind the colon it stays in the stream, although the whole
   text is redacted completely.
   */
  lemma DriveLetterIsCutOff(drive: char, name: string)
    requires IsLetter(drive) && name != "" && forall i :: 0 <= i < |name| ==> IsNameChar(name[i])
    ensures var head, whole := [drive, ':'], DrivePath(drive, name);
            && Text(whole) == "<workspace>"
            && IsCut(head, 2) && Streamed("", [head, whole[2..]]) != Text(whole)
  {
    var head, whole := [drive, ':'], DrivePath(drive, name);
    DriveIsPath(drive, name);
    hide *;
    PathText(whole, name);
    LetterColonIsCut(drive);
    OneCut("" + head, 2, FirstOpen("" + head));
    HeadText(drive);
    HeadGoesFirst(drive, whole[2..]);
  }

  lemma HeadGoesFirst(drive: char, rest: string)
    requires IsLetter(drive) && Text([drive, ':']) == [drive, ':'] && FirstOpen("" + [drive, ':']) == 2
    ensures Streamed("", [[drive, ':'], rest]) != "<workspace>"
  {
    hide Text, FirstOpen;
    var head := [drive, ':'];
    assert "" + head == head && head[..2] == head;
    assert Streamed("", [head, rest])[1] == ':';
  }

  lemma HeadText(drive: char)
    requires IsLetter(drive)
    ensures Text([drive, ':']) == [drive, ':']
  {
    var head := [drive, ':'];
    NoAngleNoBlock(head);
    assert LiteralPass(0);
    assert NoStart(0, head) && NoStart(2, head) && NoStart(3, head);
    hide *;
    TextOrShorter(head);
    PathsAreLater(head);
    assert head + "" == head;
    WordCopiedWhole(0, head, "");
    ReplaceStep(0, "");
    ShortHasNoHome(head);
    LaterIs(head);
    LiteralsCopy(head, "");
    LiteralsNothing();
  }

  lemma LiteralsNothing()
    ensures Literals("") == ""
  {
  }

  lemma DriveIsPath(drive: char, name: string)
    requires IsLetter(drive) && name != "" && forall i :: 0 <= i < |name| ==> IsNameChar(name[i])
    ensures IsWorkspacePath(DrivePath(drive, name), name) && |DrivePath(drive, name)| > 2
  {
    SlashDir();
    DriveInFront(drive, "/home/user/projects/workspace-", name);
  }

  lemma DriveInFront(drive: char, dir: string, name: string)
    requires IsLetter(drive) && name != "" && forall i :: 0 <= i < |name| ==> IsNameChar(name[i])
    requires |dir| == HomeWidth && HomeDir(dir)
    ensures IsWorkspacePath([drive, ':'] + dir + name, name)
  {
    var s := [drive, ':'] + dir + name;
    hide HomeDir;
    assert s[2..] == dir + name && (dir + name)[..HomeWidth] == dir[..HomeWidth];
    HomeDirSame(dir, dir + name);
    assert s[2 + HomeWidth..] == name;
  }

  lemma LetterColonIsCut(c: char)
    requires IsLetter(c)
    ensures IsCut([c, ':'], 2) && IsCut("" + [c, ':'], 2)
  {
    var head := [c, ':'];
    assert "" + head == head;
    forall i | 0 <= i < 2
      ensures !Open(head[i..])
    {
      assert head[i..][0] == head[i];
      NotOpen(head[i..]);
    }
  }

  lemma NotOpen(t: string)
    requires t != "" && !IsSep(t[0])
    ensures !Open(t)
  {
    forall l | 0 <= l < LiteralCount
      ensures !Running(t, l) && !Starting(t, l)
    {
      LiteralIsBody(l);
      hide Literal;
      CharacterOfPrefix(Literal(l), t, 0);
      CharacterOfPrefix(t, Literal(l), 0);
    }
  }

  /** Mixed separators are not held back either. */
  lemma MixedSeparatorsAreCutOff(name: string)
    requires name != "" && forall i :: 0 <= i < |name| ==> IsNameChar(name[i])
    ensures var s := MixedPath(name);
            Text(s) == "<workspace>" && Concat(Bytes(s)) == s && Streamed("", Bytes(s)) != Text(s)
  {
    MixedIsPath(name);
    MixedIsNoLiteral(name);
    hide *;
    UnheldPathIsCutOff(MixedPath(name), name);
  }

  lemma MixedIsPath(name: string)
    requires name != "" && forall i :: 0 <= i < |name| ==> IsNameChar(name[i])
    ensures IsWorkspacePath(MixedPath(name), name)
  {
    var dir, s := "/home/user/projects/workspace-", MixedPath(name);
    var mixed := "\\home/user/projects/workspace-";
    SlashDir();
    assert mixed[1..] == dir[1..];
    FirstSeparatorIsFree(dir, mixed);
    assert s == mixed + name && s[..HomeWidth] == mixed[..HomeWidth] && s[0..] == s;
    hide HomeDir;
    HomeDirSame(mixed, s);
    assert s[HomeWidth..] == name && s[0] == mixed[0];
  }

  lemma MixedIsNoLiteral(name: string)
    ensures forall l :: 0 <= l < LiteralCount ==> !(Literal(l) <= MixedPath(name))
  {
    var s := MixedPath(name);
    assert s[0] == '\\' && s[5] == '/';
    forall l | 0 <= l < LiteralCount
      ensures !(Literal(l) <= s)
    {
      FifthOfLiteral(l);
      hide Literal, MixedPath;
      CharacterOfPrefix(Literal(l), s, 0);
      CharacterOfPrefix(Literal(l), s, 5);
    }
  }

  lemma FifthOfLiteral(l: nat)
    requires l < LiteralCount
    ensures |Literal(l)| > 5 && (Literal(l)[0] != '\\' || Literal(l)[5] != '/')
  {
  }

  /** Nor is a block: wherever it stands and whatever is in it, fed byte by byte it stays. */
  lemma BlockIsCutOff(k: nat, before: string, inner: string, after: string)
    requires k < TagCount
    ensures var s := before + (OpenTag(k) + (inner + (CloseTag(k) + after)));
            Concat(Bytes(s)) == s && Streamed("", Bytes(s)) != Text(s)
  {
    OpenTagShape(k);
    CloseTagShape(k);
    hide *;
    var back := CloseTag(k) + after;
    var rest := inner + back;
    ClosesAtFront(k, after);
    CloseBehind(k, inner, back);
    CloseBehind(k, OpenTag(k)[1..], rest);
    OpensAtFront(k, rest);
    BlockBehind(k, before, OpenTag(k) + rest);
    BlockIsNotSafe(k, before + (OpenTag(k) + rest));
    OthersDisagree(before + (OpenTag(k) + rest));
  }

  lemma ClosesAtFront(k: nat, after: string)
    requires k < TagCount && CloseTag(k) != ""
    ensures HasClose(k, CloseTag(k) + after)
  {
    hide CloseTag;
  }

  lemma {:induction false} CloseBehind(k: nat, a: string, b: string)
    requires k < TagCount && HasClose(k, b)
    ensures HasClose(k, a + b)
  {
    hide CloseTag;
    if a == "" {
      assert a + b == b;
    } else {
      assert (a + b)[1..] == a[1..] + b;
      CloseBehind(k, a[1..], b);
    }
  }

  lemma OpensAtFront(k: nat, rest: string)
    requires k < TagCount && OpenTag(k) != "" && HasClose(k, OpenTag(k)[1..] + rest)
    ensures HasBlock(k, OpenTag(k) + rest)
  {
    hide OpenTag, HasClose;
    assert (OpenTag(k) + rest)[1..] == OpenTag(k)[1..] + rest;
  }

  lemma BlockIsNotSafe(k: nat, s: string)
    requires k < TagCount && HasBlock(k, s)
    ensures !OnlyLiterals(s)
  {
    hide HasBlock, HomesGuarded;
  }
}
