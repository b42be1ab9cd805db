/**
 Feeding a text byte by byte, and with it the exact condition under which streamed redaction does
 not depend on the chunking (`internal/sanitize/sanitize.go`).
 */
module SanitizeBytes {
  import opened GoStrings
  import opened SanitizeText
  import opened SanitizeSplit
  import opened SanitizeBlocks
  import opened SanitizeStream
  import opened SanitizeExact

  // ----- a cut in front of which a match begins -----

  /** The first match of the second pattern that reaches over the cut. */
  lemma {:induction false} FirstCrossing(a: string, b: string) returns (k: nat)
    requires !Within(1, a, b)
    ensures k < |a| && Within(1, a[..k], a[k..] + b) && HomeLength(a[k..] + b) > |a| - k
    decreases |a|
  {
    var n := HomeLength(a + b);
    hide HomeLength;
    if n > |a| {
      assert a[..0] == "" && a[0..] == a;
      return 0;
    }
    var s := if n > 0 then n else 1;
    var m := FirstCrossing(a[s..], b);
    k := s + m;
    assert a[k..] == a[s..][m..] && a[..k][s..] == a[s..][..m];
    assert a[..k] + (a[k..] + b) == a + b;
  }

  lemma {:induction false} NoSpanInside(a: string, b: string, c: string)
    requires NoSpan(a + b, c) && forall j :: 0 <= j < |b| ==> IsPathBody(b[j])
    ensures NoSpan(a, b)
    decreases |a|
  {
    hide Literal;
    if a != "" {
      assert (a + b)[1..] == a[1..] + b;
      NoSpanInside(a[1..], b, c);
      forall l | 0 <= l < LiteralCount && Literal(l) <= a + b
        ensures HasEnd(a)
      {
        assert Literal(l) <= a + b + c;
        assert HasEnd(a + b);
        var e :| 0 <= e < |a + b| && !IsPathBody((a + b)[e]);
        assert e < |a| && a[e] == (a + b)[e];
      }
    }
  }

  /** A match that reaches over the cut is redacted shorter than its parts. */
  lemma CutMakesLonger(a: string, b: string)
    requires |a| <= 30 && NoSpan(a, b) && !Within(1, a, b)
    ensures |Later(a + b)| < |Later(a)| + |Later(b)|
  {
    hide *;
    var k := FirstCrossing(a, b);
    var a1, a2 := a[..k], a[k..];
    assert a == a1 + a2 && a + b == a1 + (a2 + b);
    MatchedIsBody(a2, b);
    NoSpanInside(a1, a2, b);
    ShortHasNoHome(a);
    ShortHasNoHome(a1);
    AnyCut(a2, b);
    WholeAround(a1, a2 + b);
    PartsAround(a1, a2);
  }

  lemma MatchedIsBody(a: string, b: string)
    requires HomeLength(a + b) >= |a|
    ensures forall j :: 0 <= j < |a| ==> IsPathBody(a[j])
  {
    MatchIsPath(1, a + b);
    hide HomeLength;
    forall j | 0 <= j < |a|
      ensures IsPathBody(a[j])
    {
      assert (a + b)[j] == a[j];
    }
  }

  /** In front of a match that is replaced, the later passes see a text of its own. */
  lemma WholeAround(a: string, w: string)
    requires Within(1, a, w) && HomeLength(w) > 0 && Replace(1, a) == a
    ensures Later(a + w) == Literals(a) + Later(w)
  {
    ReplaceSplit(1, a, w);
    FrontMatch(w);
    MarkerIsQuiet();
    hide Within, Replace, HomeLength, Literals, Replacement;
    LiteralsBreak(a, Replace(1, w));
  }

  lemma PartsAround(a1: string, a2: string)
    requires NoSpan(a1, a2) && Replace(1, a1 + a2) == a1 + a2
    ensures Later(a1 + a2) == Literals(a1) + Literals(a2)
  {
    hide NoSpan, Replace;
    LaterPathsSplit(a1, a2);
  }

  // ----- unguarded positions -----

  /** The first pass comes to a halt at every position no literal guards. */
  lemma {:induction false} UnguardedIsReached(s: string, k: nat, i: nat)
    requires i <= k <= |s| && !Guarded(s, k)
    ensures Within(0, s[i..k], s[k..])
    decreases k - i
  {
    hide Literal, Guarded, MatchLength;
    if i < k {
      var a := s[i..k];
      assert a + s[k..] == s[i..];
      LiteralMatch(0, s[i..]);
      var n := MatchLength(0, s[i..]);
      if n > |a| {
        GuardHere(s, k, i);
      }
      var m := if n > 0 then n else 1;
      UnguardedIsReached(s, k, i + m);
      assert a[m..] == s[i + m..k];
    }
  }

  lemma GuardHere(s: string, k: nat, i: nat)
    requires i <= k <= |s| && MatchLength(0, s[i..]) >= k - i && MatchLength(0, s[i..]) > 0
    ensures Guarded(s, k)
  {
    LiteralMatch(0, s[i..]);
    hide Literal, MatchLength;
    var t := s[i..];
    forall j | 0 <= j < |s[i..k]|
      ensures IsPathBody(s[i..k][j])
    {
      assert s[i..k][j] == t[j];
    }
    assert GuardedBy(s, k, i, 0);
  }

  /** The scan of the second pass over a short front visits every position of it. */
  lemma {:induction false} ShortScan(a: string, b: string, i: nat)
    requires |a| <= 30 && Within(1, a, b) && i < |a|
    ensures HomeLength((a + b)[i..]) == 0
  {
    var n := HomeLength(a + b);
    if n > 0 {
      NoHomeHere(a + b);
      HomeShape(a + b);
    }
    hide HomeLength;
    if i > 0 {
      assert (a + b)[1..] == a[1..] + b && (a + b)[i..] == (a[1..] + b)[i - 1..];
      ShortScan(a[1..], b, i - 1);
    } else {
      assert (a + b)[0..] == a + b;
    }
  }

  lemma {:induction false} WithinTruncated(p: nat, a: string, b: string, c: string)
    requires p < 4 && Within(p, a, b + c)
    ensures Within(p, a, b)
    decreases |a|
  {
    if a != "" {
      assert a + (b + c) == (a + b) + c;
      MatchTruncated(p, a + b, c);
      hide MatchLength;
      var n := MatchLength(p, a + b);
      var k := if n > 0 then n else 1;
      WithinTruncated(p, a[k..], b, c);
    }
  }

  /** An unguarded match that begins in a short front reaches over the cut. */
  lemma UnguardedCrosses(a: string, b: string, k: nat)
    requires |a| <= 30 && NoSpan(a, b) && k < |a| && HomeLength((a + b)[k..]) > 0 && !Guarded(a + b, k)
    ensures !Within(1, Replace(0, a), Replace(0, b))
  {
    hide *;
    var s := a + b;
    assert s[0..k] == a[..k] && s[k..] == a[k..] + b && a == a[..k] + a[k..];
    UnguardedIsReached(s, k, 0);
    ReplaceSplit(0, a[..k], s[k..]);
    WithinTruncated(0, a[..k], a[k..], b);
    ReplaceSplit(0, a[..k], a[k..]);
    PassLeaves(0, a[k..]);
    FirstPassShrinks(a);
    HomeSurvives(s[k..]);
    LiteralsStayWithin(0, a, b);
    ReplaceSplit(0, a, b);
    assert s == a[..k] + s[k..];
    var i := |Replace(0, a[..k])|;
    assert (Replace(0, a) + Replace(0, b))[i..] == Replace(0, s[k..]);
    if Within(1, Replace(0, a), Replace(0, b)) {
      ShortScan(Replace(0, a), Replace(0, b), i);
    }
  }

  lemma UnguardedIsLonger(a: string, b: string, k: nat)
    requires |a| <= 30 && NoSpan(a, b) && k < |a| && HomeLength((a + b)[k..]) > 0 && !Guarded(a + b, k)
    ensures |Paths(a + b)| < |Paths(a)| + |Paths(b)|
  {
    hide *;
    UnguardedCrosses(a, b, k);
    LiteralsStayWithin(0, a, b);
    ReplaceSplit(0, a, b);
    SpanKept(0, a, b);
    FirstPassShrinks(a);
    CutMakesLonger(Replace(0, a), Replace(0, b));
    PathsAreLater(a);
    PathsAreLater(b);
    PathsAreLater(a + b);
  }

  // ----- byte by byte -----

  function Bytes(s: string): (r: seq<string>)
    ensures |r| == |s|
  {
    seq(|s|, i requires 0 <= i < |s| => [s[i]])
  }

  lemma BytesStep(x: string)
    requires x != ""
    ensures Bytes(x)[0] == [x[0]] && Bytes(x)[1..] == Bytes(x[1..])
  {
  }

  lemma {:induction false} BytesJoin(x: string)
    ensures Concat(Bytes(x)) == x
  {
    if x != "" {
      BytesStep(x);
      hide Bytes;
      BytesJoin(x[1..]);
      assert x == [x[0]] + x[1..];
    }
  }

  /** What the stream may hold back. */
  ghost predicate Held(h: string) {
    h == "" || Open(h)
  }

  lemma HeldShape(h: string)
    requires Held(h)
    ensures AllBody(h)
    ensures |h| < 30 || exists l: nat :: l < LiteralCount && Literal(l) <= h
  {
    if h != "" {
      OpenIsBody(h);
      LiteralsAreShort();
      hide Literal;
      var l :| 0 <= l < LiteralCount && (Running(h, l) || Starting(h, l));
    }
  }

  lemma LiteralsAreShort()
    ensures forall l :: 0 <= l < LiteralCount ==> |Literal(l)| <= 30
  {
  }

  /** Held text with one more character: short, or guarded at every position. */
  lemma PieceIsGuarded(h: string, c: char, x: string, k: nat)
    requires Held(h) && k <= |h|
    ensures |h| < 30 || Guarded(h + [c] + x, k)
  {
    HeldShape(h);
    hide Literal, Guarded;
    if |h| >= 30 {
      var l: nat :| l < LiteralCount && Literal(l) <= h;
      var s := h + [c] + x;
      assert Literal(l) <= s && s[0..] == s && s[0..k] == h[..k];
      GuardFromFront(s, k, l);
    }
  }

  lemma GuardFromFront(s: string, k: nat, l: nat)
    requires k <= |s| && l < LiteralCount && Literal(l) <= s && AllBody(s[..k])
    ensures Guarded(s, k)
  {
    hide Literal;
    assert s[0..] == s && s[0..k] == s[..k];
    assert GuardedBy(s, k, 0, l);
  }

  /** Held text has nothing but literals. */
  lemma HeldIsSafe(h: string)
    requires Held(h)
    ensures HomesGuarded(h) && NoBlock(h)
  {
    HeldShape(h);
    forall k | 0 <= k < |h| && HomeLength(h[k..]) > 0
      ensures Guarded(h, k)
    {
      NoHomeHere(h[k..]);
      hide Literal, Guarded;
      var l: nat :| l < LiteralCount && Literal(l) <= h;
      GuardFromFront(h, k, l);
    }
    assert h == "" || h == h[..|h| - 1] + [h[|h| - 1]];
    if h != "" {
      OneAngleNoBlock(h[..|h| - 1], h[|h| - 1]);
    } else {
      EmptyNoBlock();
    }
  }

  /** Held text is not redacted to nothing. */
  lemma HeldIsSeen(h: string)
    requires Held(h)
    ensures Text(h) == "" <==> h == ""
  {
    hide *;
    HeldIsSafe(h);
    TextOrShorter(h);
    PathsAreLater(h);
    PassLeaves(0, h);
    LaterLeaves(Replace(0, h));
    TextNothing();
  }

  lemma EmptyNoBlock()
    ensures NoBlock("")
  {
  }

  /** A single angle at the end makes no block. */
  lemma OneAngleNoBlock(h: string, c: char)
    requires AllBody(h)
    ensures NoBlock(h + [c])
  {
    forall k | 0 <= k < TagCount
      ensures !HasBlock(k, h + [c])
    {
      forall j | 0 <= j < |h|
        ensures !(OpenTag(k) <= h[j..] + [c]) && !(CloseTag(k) <= h[j..] + [c])
      {
        NoAngleNoTag(k, h, j, [c]);
      }
      QuietFront(k, h, [c]);
      LoneCharacter(k, c);
    }
  }

  lemma LoneCharacter(k: nat, c: char)
    requires k < TagCount
    ensures !HasBlock(k, [c])
  {
    OpenTagShape(k);
    hide OpenTag, CloseTag;
    assert [c][1..] == "";
  }

  lemma RestUnguarded(a: string, b: string)
    requires FrontGuarded(a, b) && !HomesGuarded(a + b)
    ensures !HomesGuarded(b)
  {
    hide HomeLength, Guarded;
    var k :| 0 <= k < |a + b| && HomeLength((a + b)[k..]) > 0 && !Guarded(a + b, k);
    assert k >= |a| && (a + b)[k..] == b[k - |a|..];
    if Guarded(b, k - |a|) {
      GuardBehind(a, b, k - |a|);
    }
  }

  lemma GuardBehind(a: string, b: string, k: nat)
    requires k <= |b| && Guarded(b, k)
    ensures Guarded(a + b, |a| + k)
  {
    var j: nat, l: nat :| GuardedBy(b, k, j, l);
    hide Literal, AllBody;
    assert (a + b)[|a| + j..] == b[j..] && (a + b)[|a| + j..|a| + k] == b[j..k];
    assert GuardedBy(a + b, |a| + k, |a| + j, l);
  }

  /** How the paths of a text relate to those of its parts at a cut of the byte-by-byte stream. */
  lemma PathsAtCut(a: string, b: string)
    requires NoSpan(a, b) && (|a| <= 30 || FrontGuarded(a, b))
    ensures HomesGuarded(a + b) ==> Paths(a + b) == Paths(a) + Paths(b) && HomesGuarded(b)
    ensures !HomesGuarded(a + b) ==>
              |Paths(a + b)| < |Paths(a)| + |Paths(b)| || (|Paths(a + b)| == |Paths(a)| + |Paths(b)| && !HomesGuarded(b))
  {
    hide NoSpan, HomeLength, Guarded, Paths;
    if FrontGuarded(a, b) {
      hide FrontGuarded;
      GuardedHomesEnd(a, b, 0);
      assert a[0..] == a;
      PathsSplit(a, b);
      if HomesGuarded(a + b) {
        RestIsGuarded(a, b);
      } else {
        RestUnguarded(a, b);
      }
    } else {
      var k :| 0 <= k < |a| && HomeLength((a + b)[k..]) > 0 && !Guarded(a + b, k);
      UnguardedIsLonger(a, b, k);
    }
  }

  /** One byte more: what is emitted of it, and what is held. */
  lemma NextByte(h: string, x: string)
    requires Held(h) && x != ""
    ensures var full := h + [x[0]];
            var c := FirstOpen(full);
            && c <= |full| && Held(full[c..])
            && Streamed(h, Bytes(x)) == Paths(full[..c]) + Streamed(full[c..], Bytes(x[1..]))
            && h + x == full[..c] + (full[c..] + x[1..])
            && NoSpan(full[..c], full[c..] + x[1..])
            && (c <= 30 || FrontGuarded(full[..c], full[c..] + x[1..]))
  {
    hide *;
    var full := h + [x[0]];
    var c := FirstOpen(full);
    CutFits(full, c);
    StreamStep(h, x);
    PieceHasNoBlock(h, x[0], c);
    CutDoesNotSpan(full, c, x[1..]);
    RestIsHeld(full, c);
    assert h + x == full[..c] + (full[c..] + x[1..]);
    if c > 30 {
      LongPieceIsGuarded(h, x, c);
    }
  }

  lemma StreamStep(h: string, x: string)
    requires x != ""
    ensures var full := h + [x[0]];
            var c := FirstOpen(full);
            c <= |full| && Streamed(h, Bytes(x)) == Text(full[..c]) + Streamed(full[c..], Bytes(x[1..]))
  {
    BytesStep(x);
    hide Text, Bytes, FirstOpen;
  }

  lemma PieceHasNoBlock(h: string, x: char, c: nat)
    requires Held(h) && c <= |h| + 1
    ensures var piece := (h + [x])[..c]; Text(piece) == Paths(piece)
  {
    hide *;
    var full := h + [x];
    HeldShape(h);
    OneAngleNoBlock(h, x);
    assert full == full[..c] + full[c..];
    NoBlockInParts(full[..c], full[c..]);
    TextOrShorter(full[..c]);
  }

  lemma RestIsHeld(full: string, c: nat)
    requires IsCut(full, c)
    ensures c <= |full| && Held(full[c..])
  {
    hide Open;
  }

  lemma LongPieceIsGuarded(h: string, x: string, c: nat)
    requires Held(h) && x != "" && 30 < c <= |h| + 1
    ensures var full := h + [x[0]]; FrontGuarded(full[..c], full[c..] + x[1..])
  {
    var full := h + [x[0]];
    assert full[..c] + (full[c..] + x[1..]) == h + [x[0]] + x[1..];
    hide HomeLength, Guarded, Held;
    forall k | 0 <= k < c
      ensures Guarded(h + [x[0]] + x[1..], k)
    {
      PieceIsGuarded(h, x[0], x[1..], k);
    }
  }

  /** Fed byte by byte a text comes out with its paths redacted, or longer than that. */
  lemma {:induction false} ByteByByte(h: string, x: string)
    requires Held(h)
    ensures HomesGuarded(h + x) ==> Streamed(h, Bytes(x)) == Paths(h + x)
    ensures !HomesGuarded(h + x) ==> |Streamed(h, Bytes(x))| > |Paths(h + x)|
    decreases |x|
  {
    hide *;
    if x == "" {
      HeldIsSafe(h);
      TextOrShorter(h);
      NothingStreamed(h, x);
    } else {
      NextByte(h, x);
      var full := h + [x[0]];
      var c := FirstOpen(full);
      PathsAtCut(full[..c], full[c..] + x[1..]);
      ByteByByte(full[c..], x[1..]);
    }
  }

  lemma NothingStreamed(h: string, x: string)
    requires x == ""
    ensures Streamed(h, Bytes(x)) == Text(h) && h + x == h
  {
  }

  // ----- the exact condition -----

  /** All chunkings of the text are redacted to the same. */
  ghost predicate EveryChunkingAgrees(s: string) {
    forall deltas: seq<string> :: Concat(deltas) == s ==> Streamed("", deltas) == Text(s)
  }

  /** A text with anything but literals comes out differently when it is fed byte by byte. */
  lemma OthersDisagree(s: string)
    requires !OnlyLiterals(s)
    ensures Concat(Bytes(s)) == s && Streamed("", Bytes(s)) != Text(s)
  {
    hide Text, HomesGuarded, NoBlock, Paths, Bytes;
    BytesJoin(s);
    assert "" + s == s;
    ByteByByte("", s);
    TextOrShorter(s);
  }

  /**
   Streamed redaction agrees with one-shot redaction for every chunking of a text if and only if the
   second pattern matches only under the guard of a literal and the text has no block.
   */
  lemma StreamingIsExact(s: string)
    ensures EveryChunkingAgrees(s) <==> OnlyLiterals(s)
  {
    hide Text, OnlyLiterals, Bytes;
    if OnlyLiterals(s) {
      forall deltas: seq<string> | Concat(deltas) == s
        ensures Streamed("", deltas) == Text(s)
      {
        assert "" + Concat(deltas) == s;
        StreamIsText("", deltas);
      }
    } else {
      OthersDisagree(s);
    }
  }
}
