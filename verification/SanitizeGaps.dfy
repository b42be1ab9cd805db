/**
 Blocks and what their removal leaves (`internal/sanitize/sanitize.go`). A closed block goes as a whole.
 Its removal can put the halves of a path together, and this is the only way in which a redacted
 text shows a path of the server.
 */
module SanitizeGaps {
  import opened GoStrings
  import opened SanitizeText
  import opened SanitizeSplit
  import opened SanitizeBlocks
  import opened SanitizeClean

  // ----- a closed block -----

  /** The tags, by the number of their pattern. */
  function Tag(k: nat): string {
    match k case 0 => "workspace_information" case 1 => "workspace_layout" case _ => "user_information"
  }

  lemma TagsAre(k: nat)
    requires k < TagCount
    ensures OpenTag(k) == "<" + Tag(k) + ">" && CloseTag(k) == "</" + Tag(k) + ">"
    ensures |Tag(k)| >= 16 && forall i :: 0 <= i < |Tag(k)| ==> !Slash(Tag(k)[i]) && Tag(k)[i] != '<' && Tag(k)[i] != '>'
    ensures Tag(k)[0] == 'w' || Tag(k)[0] == 'u'
  {
  }

  lemma TagsDiffer(k: nat, m: nat, rest: string)
    requires k < TagCount && m < TagCount && k != m
    ensures !(OpenTag(k) <= OpenTag(m) + rest)
  {
    var x := OpenTag(m) + rest;
    assert OpenTag(k)[11] != OpenTag(m)[11] || OpenTag(k)[1] != OpenTag(m)[1];
    hide OpenTag;
    OpenTagShape(k);
    OpenTagShape(m);
    CharacterOfPrefix(OpenTag(k), x, 11);
    CharacterOfPrefix(OpenTag(k), x, 1);
  }

  lemma CloseIsNoOpen(k: nat, m: nat, rest: string)
    requires k < TagCount && m < TagCount
    ensures !(OpenTag(k) <= CloseTag(m) + rest)
  {
    var x := CloseTag(m) + rest;
    assert OpenTag(k)[1] != '/' && CloseTag(m)[1] == '/';
    hide OpenTag, CloseTag;
    OpenTagShape(k);
    CharacterOfPrefix(OpenTag(k), x, 1);
  }

  /** A scan copies text in which its pattern matches nowhere. */
  lemma {:induction false} BlockScanCopies(k: nat, a: string, y: string)
    requires k < TagCount && forall j :: 0 <= j < |a| ==> !(OpenTag(k) <= a[j..] + y)
    ensures Replace(k + 4, a + y) == a + Replace(k + 4, y)
  {
    hide Replace, OpenTag, CloseTag, MatchLength;
    if a == "" {
      assert a + y == y && "" + Replace(k + 4, y) == Replace(k + 4, y);
    } else {
      forall j | 0 <= j < |a[1..]|
        ensures !(OpenTag(k) <= a[1..][j..] + y)
      {
        assert a[1..][j..] == a[j + 1..];
      }
      BlockScanCopies(k, a[1..], y);
      BlockMatchIs(k, a + y);
      assert a[0..] == a;
      ReplaceStep(k + 4, a + y);
      assert (a + y)[1..] == a[1..] + y && a == [a[0]] + a[1..];
    }
  }

  lemma NoAngleCopies(k: nat, a: string, y: string)
    requires k < TagCount && '<' !in a
    ensures Replace(k + 4, a + y) == a + Replace(k + 4, y)
  {
    forall j | 0 <= j < |a|
      ensures !(OpenTag(k) <= a[j..] + y)
    {
      assert a[j] in a;
      NoAngleNoTag(k, a, j, y);
    }
    hide Replace, OpenTag;
    BlockScanCopies(k, a, y);
  }

  lemma {:induction false} NothingToRemove(k: nat, y: string)
    requires k < TagCount && '<' !in y
    ensures Replace(k + 4, y) == y
  {
    NoAngleCopies(k, y, "");
    hide Replace;
    ReplaceStep(k + 4, "");
    assert y + "" == y;
  }

  /** A closed block with nothing but prose in it. */
  function BlockOf(k: nat, inner: string): string {
    "<" + Tag(k) + ">" + inner + "</" + Tag(k) + ">"
  }

  lemma BlockIs(k: nat, inner: string, rest: string)
    requires k < TagCount
    ensures BlockOf(k, inner) + rest == OpenTag(k) + (inner + (CloseTag(k) + rest))
  {
    TagsAre(k);
    hide OpenTag, CloseTag, Tag;
    Grouped("<", Tag(k), ">", inner, "</", rest);
  }

  lemma Grouped(a: string, tag: string, b: string, inner: string, c: string, rest: string)
    ensures a + tag + b + inner + c + tag + b + rest == (a + tag + b) + (inner + ((c + tag + b) + rest))
  {
    var x, y := a + tag + b, c + tag + b;
    assert x + inner + c + tag + b == x + inner + y;
    assert x + inner + y + rest == x + (inner + (y + rest));
  }

  /** The scan of its own pattern passes over it. */
  lemma BlockScanned(k: nat, inner: string, b: string)
    requires k < TagCount && '<' !in inner && '<' !in b
    ensures Replace(k + 4, BlockOf(k, inner) + b) == b
  {
    BlockIs(k, inner, b);
    CloseTagShape(k);
    OpenTagShape(k);
    FirstClose(k, inner, b);
    hide OpenTag, CloseTag, Replace, Index, BlockOf;
    var s := OpenTag(k) + (inner + (CloseTag(k) + b));
    PrefixOf(OpenTag(k), inner + (CloseTag(k) + b));
    assert MatchLength(k + 4, s) == |OpenTag(k)| + |inner| + |CloseTag(k)|;
    ReplaceStep(k + 4, s);
    assert s[|OpenTag(k)| + |inner| + |CloseTag(k)|..] == b;
    NothingToRemove(k, b);
    assert Piece(k + 4, s) == "" && "" + b == b;
  }

  lemma FirstClose(k: nat, inner: string, b: string)
    requires k < TagCount && '<' !in inner
    ensures Index(inner + (CloseTag(k) + b), CloseTag(k)) == |inner|
  {
    CloseTagShape(k);
    hide CloseTag, Index;
    FirstAngle(inner, CloseTag(k), b);
  }

  lemma FirstOfPattern(s: string, pat: string, j: nat)
    requires pat != "" && j < |s|
    ensures At(s, pat, j) ==> s[j] == pat[0]
  {
    if At(s, pat, j) {
      assert s[j..j + |pat|][0] == s[j];
    }
  }

  lemma FirstAngle(inner: string, close: string, b: string)
    requires close != "" && close[0] == '<' && '<' !in inner
    ensures Index(inner + (close + b), close) == |inner|
  {
    var s := inner + (close + b);
    assert s[|inner|..|inner| + |close|] == close;
    forall j | 0 <= j < |inner|
      ensures !At(s, close, j)
    {
      assert inner[j] in inner;
      FirstOfPattern(s, close, j);
    }
    IndexIs(s, close, |inner|);
  }

  /** The scan of another block pattern copies it. */
  lemma BlockCopied(m: nat, k: nat, inner: string, b: string)
    requires k < TagCount && m < TagCount && k != m && '<' !in inner && '<' !in b
    ensures Replace(m + 4, BlockOf(k, inner) + b) == BlockOf(k, inner) + b
  {
    BlockIs(k, inner, b);
    hide BlockOf, Replace;
    TagCopiedByOther(m, OpenTag(k), inner + (CloseTag(k) + b), k, true);
    NoAngleCopies(m, inner, CloseTag(k) + b);
    TagCopiedByOther(m, CloseTag(k), b, k, false);
    NothingToRemove(m, b);
  }

  lemma TagCopiedByOther(m: nat, tag: string, rest: string, k: nat, isOpen: bool)
    requires k < TagCount && m < TagCount && tag == (if isOpen then OpenTag(k) else CloseTag(k)) && (isOpen ==> k != m)
    ensures Replace(m + 4, tag + rest) == tag + Replace(m + 4, rest)
  {
    OpenTagShape(k);
    CloseTagShape(k);
    if isOpen {
      TagsDiffer(m, k, rest);
    } else {
      CloseIsNoOpen(m, k, rest);
    }
    hide OpenTag, CloseTag, Replace;
    forall j | 0 <= j < |tag|
      ensures !(OpenTag(m) <= tag[j..] + rest)
    {
      assert tag[0..] == tag;
      if j > 0 {
        assert tag[j] == tag[1..][j - 1];
        NoAngleNoTag(m, tag, j, rest);
      }
    }
    BlockScanCopies(m, tag, rest);
  }

  /** The path passes copy prose with a block in it. */
  lemma NoPathInBlock(p: nat, k: nat, a: string, inner: string, b: string)
    requires p < 4 && k < TagCount && Prose(a) && Prose(inner) && Prose(b)
    ensures Clean(p, a + (BlockOf(k, inner) + b))
  {
    BlockIs(k, inner, b);
    TagsAre(k);
    hide Shows, OpenTag, CloseTag, BlockOf;
    NothingIsClean(p);
    ProseShowsNothing(p, b, "");
    assert b + "" == b;
    var close := CloseTag(k);
    forall j | 0 <= j < |close|
      ensures !Shows(p, close[j..] + b)
    {
      var x := close[j..] + b;
      assert close[1] == '/' && close[2] == Tag(k)[0];
      assert x[0] == close[j] && (j == 1 ==> x[1] == close[2]);
      assert j > 1 && j < |close| - 1 ==> close[j] == Tag(k)[j - 2];
      NeedsSlash(p, x);
    }
    CleanPrepend(p, close, b);
    ProseShowsNothing(p, inner, close + b);
    var open := OpenTag(k);
    forall j | 0 <= j < |open|
      ensures !Shows(p, open[j..] + (inner + (close + b)))
    {
      var x := open[j..] + (inner + (close + b));
      assert x[0] == open[j];
      assert 0 < j < |open| - 1 ==> open[j] == Tag(k)[j - 1];
      NeedsSlash(p, x);
    }
    CleanPrepend(p, open, inner + (close + b));
    ProseShowsNothing(p, a, open + (inner + (close + b)));
  }

  /** In a text that shows no path a closed block goes with what is in it. */
  lemma BlockIsRemoved(k: nat, a: string, inner: string, b: string)
    requires k < TagCount && '<' !in a && '<' !in inner && '<' !in b && ShowsNoPath(a + (BlockOf(k, inner) + b))
    ensures Text(a + (BlockOf(k, inner) + b)) == a + b
  {
    hide *;
    var s := a + (BlockOf(k, inner) + b);
    PathsCopy(s);
    BlockPassIs(0, k, a, inner, b);
    BlockPassIs(1, k, a, inner, b);
    BlockPassIs(2, k, a, inner, b);
    TextIsBlocksOfPaths(s);
    LastPasses(s);
    ThreeTags(k);
  }

  lemma ThreeTags(k: nat)
    requires k < TagCount
    ensures k == 0 || k == 1 || k == 2
  {
  }

  lemma PathsCopy(s: string)
    requires ShowsNoPath(s)
    ensures Paths(s) == s
  {
    CleanShowsNoPath(s);
    hide Replace, Clean, ShowsNoPath;
    NothingFound(0, s);
    NothingFound(1, s);
    NothingFound(2, s);
    NothingFound(3, s);
  }

  /** One block pass over a text with a block in it, and over one without. */
  lemma BlockPassIs(m: nat, k: nat, a: string, inner: string, b: string)
    requires k < TagCount && m < 3 && '<' !in a && '<' !in inner && '<' !in b
    ensures Replace(m + 4, a + (BlockOf(k, inner) + b)) == if m == k then a + b else a + (BlockOf(k, inner) + b)
    ensures Replace(m + 4, a + b) == a + b
  {
    hide *;
    TagNumbers(m);
    NoAngleCopies(m, a, BlockOf(k, inner) + b);
    NoAngleCopies(m, a, b);
    NothingToRemove(m, b);
    if m == k {
      BlockScanned(k, inner, b);
    } else {
      BlockCopied(m, k, inner, b);
    }
  }

  lemma TagNumbers(m: nat)
    ensures m < 3 <==> m < TagCount
  {
  }

  lemma ProseHasNoAngle(a: string)
    requires Prose(a)
    ensures '<' !in a
  {
  }

  lemma LastPasses(t: string)
    ensures Passes(4, t) == Replace(6, Replace(5, Replace(4, t)))
  {
    hide Replace;
    var t1 := Replace(4, t);
    var t2 := Replace(5, t1);
    assert Passes(6, t2) == Passes(7, Replace(6, t2));
    assert Passes(5, t1) == Passes(6, t2);
  }

  // ----- what removal puts together -----

  /** The positions that a block pass keeps, `base` being that of the first character. */
  function Kept(k: nat, t: string, base: nat): seq<nat>
    requires k < TagCount
    decreases |t|
  {
    if t == "" then []
    else if MatchLength(k + 4, t) > 0 then Kept(k, t[MatchLength(k + 4, t)..], base + MatchLength(k + 4, t))
    else [base] + Kept(k, t[1..], base + 1)
  }

  /** Positions in a text that go up, and the text they pick. */
  ghost predicate Picks(at: seq<nat>, t: string, r: string) {
    && |at| == |r|
    && (forall m :: 0 <= m < |at| ==> at[m] < |t| && t[at[m]] == r[m])
    && (forall m, n :: 0 <= m < n < |at| ==> at[m] < at[n])
  }

  lemma {:induction false} KeptPicks(k: nat, t: string, u: string, base: nat)
    requires k < TagCount && base <= |u| && u[base..] == t
    ensures Picks(Kept(k, t, base), u, Replace(k + 4, t))
    ensures forall m :: 0 <= m < |Kept(k, t, base)| ==> Kept(k, t, base)[m] >= base
    decreases |t|
  {
    hide Replace, MatchLength, Picks;
    ReplaceStep(k + 4, t);
    if t == "" {
      NothingPicked(u);
    } else {
      var n := MatchLength(k + 4, t);
      if n > 0 {
        assert u[base + n..] == t[n..];
        KeptPicks(k, t[n..], u, base + n);
        assert Piece(k + 4, t) == "" && "" + Replace(k + 4, t[n..]) == Replace(k + 4, t[n..]);
      } else {
        assert u[base + 1..] == t[1..] && u[base] == t[0];
        KeptPicks(k, t[1..], u, base + 1);
        PicksCons(base, Kept(k, t[1..], base + 1), u, t[0], Replace(k + 4, t[1..]));
      }
    }
  }

  lemma NothingPicked(u: string)
    ensures Picks([], u, "")
  {
  }

  lemma PicksCons(base: nat, at: seq<nat>, u: string, c: char, r: string)
    requires base < |u| && u[base] == c && Picks(at, u, r) && forall m :: 0 <= m < |at| ==> at[m] > base
    ensures Picks([base] + at, u, [c] + r)
  {
  }

  /** Picking from what was picked. */
  function Through(outer: seq<nat>, inner: seq<nat>): seq<nat>
    requires forall m :: 0 <= m < |inner| ==> inner[m] < |outer|
  {
    seq(|inner|, m requires 0 <= m < |inner| => outer[inner[m]])
  }

  lemma PicksThrough(outer: seq<nat>, inner: seq<nat>, t: string, r: string, q: string)
    requires Picks(outer, t, r) && Picks(inner, r, q)
    ensures forall m :: 0 <= m < |inner| ==> inner[m] < |outer|
    ensures Picks(Through(outer, inner), t, q)
  {
  }

  /** Where in the text without its paths the characters of the redaction come from. */
  ghost function Origin(s: string): (at: seq<nat>)
    ensures Picks(at, Paths(s), Text(s))
  {
    hide Paths, Text, Replace, Kept, Picks;
    var t := Paths(s);
    var t1 := Replace(4, t);
    var t2 := Replace(5, t1);
    TextIsBlocksOfPaths(s);
    LastPasses(t);
    assert t[0..] == t && t1[0..] == t1 && t2[0..] == t2;
    KeptPicks(0, t, t, 0);
    KeptPicks(1, t1, t1, 0);
    KeptPicks(2, t2, t2, 0);
    PicksThrough(Kept(0, t, 0), Kept(1, t1, 0), t, t1, t2);
    var two := Through(Kept(0, t, 0), Kept(1, t1, 0));
    PicksThrough(two, Kept(2, t2, 0), t, t2, Replace(6, t2));
    Through(two, Kept(2, t2, 0))
  }

  /** Between two positions picked one after the other something was left out. */
  predicate GapAt(at: seq<nat>, m: nat) {
    0 < m < |at| && at[m] != at[m - 1] + 1
  }

  /** In front of position `m` of the redaction something was removed. */
  ghost predicate Gap(s: string, m: nat) {
    GapAt(Origin(s), m)
  }

  /** A path begins in one text and is completed by the other. */
  ghost predicate Halves(front: string, back: string) {
    exists q :: 0 <= q < |front| && ShowsAny(front[q..] + back) && !ShowsAny(front[q..])
  }

  ghost predicate HalvesAt(r: string, m: nat) {
    m <= |r| && Halves(r[..m], r[m..])
  }

  /** The redaction shows a path of the server if and only if a gap stands between two halves of one. */
  lemma PathsComeFromHalves(s: string)
    ensures ShowsNoPath(Text(s)) <==> forall m: nat :: Gap(s, m) ==> !HalvesAt(Text(s), m)
  {
    hide Text, Paths, Picks, ShowsNoPath, HalvesAt, GapAt;
    PathsAreGone(s);
    PathsComeFromGaps(Origin(s), Paths(s), Text(s));
  }

  lemma PathsComeFromGaps(at: seq<nat>, t: string, r: string)
    requires Picks(at, t, r) && ShowsNoPath(t)
    ensures ShowsNoPath(r) <==> forall m: nat :: GapAt(at, m) ==> !HalvesAt(r, m)
  {
    hide ShowsAny, Picks, GapAt;
    forall m: nat | HalvesAt(r, m)
      ensures !ShowsNoPath(r)
    {
      var q :| 0 <= q < |r[..m]| && ShowsAny(r[..m][q..] + r[m..]) && !ShowsAny(r[..m][q..]);
      assert r[..m][q..] + r[m..] == r[q..];
    }
    if forall m: nat :: GapAt(at, m) ==> !HalvesAt(r, m) {
      hide HalvesAt;
      forall j | 0 <= j <= |r|
        ensures !ShowsAny(r[j..])
      {
        NoHalvesNoPath(at, t, r, j);
      }
    }
  }

  lemma NoHalvesNoPath(at: seq<nat>, t: string, r: string, j: nat)
    requires Picks(at, t, r) && ShowsNoPath(t) && j <= |r| && forall m: nat :: GapAt(at, m) ==> !HalvesAt(r, m)
    ensures !ShowsAny(r[j..])
  {
    hide Picks, ShowsNoPath, Shows, HalvesAt, GapAt;
    forall k: nat | k < 4
      ensures !Shows(k, r[j..])
    {
      if Shows(k, r[j..]) {
        PathHasGap(at, t, r, j, k);
      }
    }
  }

  /** A path among the characters picked has a gap in it: without one it would have stood in the text. */
  lemma PathHasGap(at: seq<nat>, t: string, r: string, j: nat, k: nat)
    requires Picks(at, t, r) && ShowsNoPath(t) && j <= |r| && k < 4 && Shows(k, r[j..])
    ensures exists m: nat :: GapAt(at, m) && HalvesAt(r, m)
  {
    ShowsShape(k, r[j..]);
    hide Shows, HalvesAt, GapAt;
    var m := FirstGap(at, t, r, j, k);
    SplitIsHalves(r, j, m, k);
  }

  lemma FirstGap(at: seq<nat>, t: string, r: string, j: nat, k: nat) returns (m: nat)
    requires Picks(at, t, r) && ShowsNoPath(t) && j + Width(k) <= |r| && k < 4 && Shows(k, r[j..])
    ensures j < m < j + Width(k) && GapAt(at, m)
  {
    hide Shows, ShowsNoPath;
    if forall i :: j < i < j + Width(k) ==> !GapAt(at, i) {
      Contiguous(at, t, r, j, Width(k));
      ShowsSame(k, r[j..], t[at[j]..]);
      NoneShown(k, t, at[j]);
    }
    m :| j < m < j + Width(k) && GapAt(at, m);
  }

  lemma NoneShown(k: nat, t: string, j: nat)
    requires ShowsNoPath(t) && j <= |t| && k < 4
    ensures !Shows(k, t[j..])
  {
    hide Shows;
    assert !ShowsAny(t[j..]);
  }

  lemma Contiguous(at: seq<nat>, t: string, r: string, j: nat, w: nat)
    requires Picks(at, t, r) && w > 0 && j + w <= |r| && forall i :: j < i < j + w ==> !GapAt(at, i)
    ensures at[j] + w <= |t| && t[at[j]..][..w] == r[j..][..w]
  {
    StepByStep(at, j, w);
    assert at[j + w - 1] == at[j] + (w - 1);
    forall i | 0 <= i < w
      ensures t[at[j]..][..w][i] == r[j..][..w][i]
    {
      assert at[j + i] == at[j] + i;
    }
  }

  lemma {:induction false} StepByStep(at: seq<nat>, j: nat, w: nat)
    requires w > 0 && j + w <= |at| && forall i :: j < i < j + w ==> !GapAt(at, i)
    ensures forall n :: j <= n < j + w ==> at[n] == at[j] + (n - j)
  {
    if w > 1 {
      StepByStep(at, j, w - 1);
      assert !GapAt(at, j + w - 1);
      assert at[j + w - 2] == at[j] + (w - 2);
    }
  }

  /** Inside a path its first half shows none. */
  lemma SplitIsHalves(r: string, j: nat, m: nat, k: nat)
    requires k < 4 && j < m < j + Width(k) <= |r| && Shows(k, r[j..])
    ensures HalvesAt(r, m)
  {
    var front, back := r[..m], r[m..];
    assert front[j..] + back == r[j..];
    forall n: nat | n < 4
      ensures !Shows(n, front[j..])
    {
      OneKind(n, k, front[j..], back);
    }
    hide Shows;
    assert ShowsAny(front[j..] + back) && !ShowsAny(front[j..]);
  }

  lemma OneKind(n: nat, k: nat, x: string, y: string)
    requires n < 4 && k < 4 && Shows(k, x + y) && |x| < Width(k)
    ensures !Shows(n, x)
  {
    SecondOf(k, x + y);
    SecondOf(n, x);
    assert |x| > 1 ==> (x + y)[1] == x[1];
    hide Shows;
    if Shows(n, x) {
      ShowsShape(n, x);
    }
  }

  lemma SecondOf(k: nat, x: string)
    ensures Shows(k, x) ==> |x| > 1 && x[1] == (match k case 0 => 't' case 1 => 'h' case 2 => 'o' case _ => 'r')
  {
    if Shows(k, x) && k == 1 {
      assert x[1] == x[1..5][0];
    }
  }

  /** A block between two halves of a path: its removal puts the path together. */
  lemma HalvesAreJoined(k: nat, inner: string)
    requires k < TagCount && Prose(inner)
    ensures Text("/opt/wind" + (BlockOf(k, inner) + "surf")) == "/opt/windsurf"
    ensures !ShowsNoPath("/opt/windsurf")
  {
    var a, y, b := "/opt/wind", BlockOf(k, inner) + "surf", "surf";
    assert Prose(b) && Prose("") && '<' !in a && '<' !in b && a + b == "/opt/windsurf";
    BlockBegins(k, inner, b);
    forall p: nat | p < 4
      ensures Clean(p, a + y)
    {
      NoPathInBlock(p, k, "", inner, b);
      assert "" + y == y;
      hide Shows, BlockOf;
      forall j | 0 <= j < |a|
        ensures !Shows(p, a[j..] + y)
      {
        FrontOfPath(p, j, y);
      }
      CleanPrepend(p, a, y);
    }
    ProseHasNoAngle(inner);
    CleanShowsNoPath(a + y);
    hide Text, ShowsNoPath, BlockOf, Clean;
    BlockIsRemoved(k, a, inner, b);
    PathShows();
  }

  lemma BlockBegins(k: nat, inner: string, b: string)
    ensures (BlockOf(k, inner) + b)[0] == '<'
  {
  }

  lemma FrontOfPath(p: nat, j: nat, y: string)
    requires y != "" && y[0] == '<' && j < 9
    ensures !Shows(p, "/opt/wind"[j..] + y)
  {
    var a := "/opt/wind";
    var x := a[j..] + y;
    assert forall i :: 0 <= i < 9 - j ==> x[i] == a[j + i];
    NeedsSlash(p, x);
    SecondOf(p, x);
    assert j == 0 ==> x[9] == '<' && "/opt/windsurf"[9] == 's';
    if j == 0 && "/opt/windsurf" <= x {
      SameFront("/opt/windsurf", x);
    }
  }

  lemma PathShows()
    ensures !ShowsNoPath("/opt/windsurf")
  {
    var s := "/opt/windsurf";
    assert s[0..] == s && Shows(2, s[0..]);
    assert ShowsAny(s[0..]);
  }
}
