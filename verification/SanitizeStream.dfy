/**
 Redacting streamed text (`Stream` and `safeCutPoint` in `internal/sanitize/sanitize.go`).
 */
module SanitizeStream {
  import opened GoStrings
  import opened SanitizeText
  import opened SanitizeSplit
  import opened SanitizeBlocks
  import opened SanitizeClean

  ghost predicate AllBody(t: string) {
    forall k :: 0 <= k < |t| ==> IsPathBody(t[k])
  }

  /** Literal `l` stands in front of `t` and its path runs to the end. */
  ghost predicate Running(t: string, l: nat)
    requires l < LiteralCount
  {
    Literal(l) <= t && AllBody(t)
  }

  /** `t` is the beginning of literal `l`. */
  ghost predicate Starting(t: string, l: nat)
    requires l < LiteralCount
  {
    t != "" && t < Literal(l)
  }

  /** More text behind `t` could still change what is redacted at its front. */
  ghost predicate Open(t: string) {
    exists l :: 0 <= l < LiteralCount && (Running(t, l) || Starting(t, l))
  }

  /** The earliest point at which the buffer is open. */
  ghost predicate IsCut(buf: string, cut: nat) {
    && cut <= |buf|
    && (cut < |buf| ==> Open(buf[cut..]))
    && (forall i :: 0 <= i < cut ==> !Open(buf[i..]))
  }

  method SafeCutPoint(buf: string) returns (cut: nat)
    ensures IsCut(buf, cut)
  {
    hide Literal;
    cut := |buf|;
    for l := 0 to LiteralCount
      invariant cut <= |buf|
      invariant cut < |buf| ==> exists l :: 0 <= l < LiteralCount && Running(buf[cut..], l)
      invariant forall i, k :: 0 <= i < cut && 0 <= k < l ==> !Running(buf[i..], k)
    {
      var c := FirstRunning(buf, l);
      if c < cut {
        cut := c;
      }
    }
    for l := 0 to LiteralCount
      invariant cut <= |buf|
      invariant cut < |buf| ==> Open(buf[cut..])
      invariant forall i, k :: 0 <= i < cut && 0 <= k < LiteralCount ==> !Running(buf[i..], k)
      invariant forall i, k :: 0 <= i < cut && 0 <= k < l ==> !Starting(buf[i..], k)
    {
      var c := FirstStarting(buf, l);
      if c < cut {
        cut := c;
      }
    }
  }

  /** The first place where literal `l` runs to the end of the buffer. */
  method FirstRunning(buf: string, l: nat) returns (cut: nat)
    requires l < LiteralCount
    ensures cut <= |buf|
    ensures cut < |buf| ==> Running(buf[cut..], l)
    ensures forall i :: 0 <= i < cut ==> !Running(buf[i..], l)
  {
    LiteralIsBody(l);
    hide Literal, Index, At, IsPathBody, Running;
    var lit := Literal(l);
    var searchFrom := 0;
    while searchFrom < |buf|
      invariant searchFrom <= |buf| + 1
      invariant forall i :: 0 <= i < searchFrom && i < |buf| ==> !Running(buf[i..], l)
      decreases |buf| + 1 - searchFrom
    {
      var idx := Index(buf[searchFrom..], lit);
      forall i | searchFrom <= i < |buf| && (idx < 0 || i < searchFrom + idx)
        ensures !Running(buf[i..], l)
      {
        NoneAhead(buf, searchFrom, l, i);
      }
      if idx < 0 {
        return |buf|;
      }
      FoundAt(buf, searchFrom, lit, idx);
      idx := idx + searchFrom;
      var end := RunEnd(buf, idx + |lit|);
      if end == |buf| {
        RunsToEnd(buf, idx, l);
        return idx;
      }
      forall i | idx <= i <= end
        ensures !Running(buf[i..], l)
      {
        RunStopsAt(buf, i, end, l);
      }
      searchFrom := end + 1;
    }
    return |buf|;
  }

  /** The end of the run of path characters that begins at `from`. */
  method RunEnd(buf: string, from: nat) returns (end: nat)
    requires from <= |buf|
    ensures from <= end <= |buf| && (end < |buf| ==> !IsPathBody(buf[end]))
    ensures forall k :: from <= k < end ==> IsPathBody(buf[k])
  {
    end := from;
    while end < |buf| && IsPathBody(buf[end])
      invariant from <= end <= |buf|
      invariant forall k :: from <= k < end ==> IsPathBody(buf[k])
    {
      end := end + 1;
    }
  }

  lemma FoundAt(buf: string, from: nat, lit: string, idx: nat)
    requires from <= |buf| && At(buf[from..], lit, idx)
    ensures from + idx + |lit| <= |buf| && lit <= buf[from + idx..]
  {
    AtDrop(buf, from, lit, idx);
    PrefixIsAt(buf, from + idx, lit);
  }

  lemma RunsToEnd(buf: string, idx: nat, l: nat)
    requires l < LiteralCount && idx <= |buf| && Literal(l) <= buf[idx..]
    requires forall k :: idx + |Literal(l)| <= k < |buf| ==> IsPathBody(buf[k])
    ensures Running(buf[idx..], l)
  {
    LiteralIsBody(l);
    hide Literal;
    var t := buf[idx..];
    assert forall k :: 0 <= k < |Literal(l)| ==> t[k] == Literal(l)[k];
    assert forall k :: 0 <= k < |t| ==> t[k] == buf[idx + k];
  }

  lemma RunStopsAt(buf: string, i: nat, end: nat, l: nat)
    requires l < LiteralCount && i <= end < |buf| && !IsPathBody(buf[end])
    ensures !Running(buf[i..], l)
  {
    hide Literal;
    assert buf[i..][end - i] == buf[end];
  }

  lemma PrefixIsAt(s: string, i: nat, pat: string)
    requires i <= |s|
    ensures pat <= s[i..] <==> At(s, pat, i)
  {
    if i + |pat| <= |s| {
      assert s[i..i + |pat|] == s[i..][..|pat|];
    }
  }

  lemma NoneAhead(buf: string, from: nat, l: nat, i: nat)
    requires l < LiteralCount && from <= i < |buf| && !At(buf[from..], Literal(l), i - from)
    ensures !Running(buf[i..], l)
  {
    hide Literal;
    AtDrop(buf, from, Literal(l), i - from);
    PrefixIsAt(buf, i, Literal(l));
  }

  lemma StartingIs(buf: string, n: nat, l: nat)
    requires l < LiteralCount && n <= |buf| && n < |Literal(l)|
    ensures Starting(buf[|buf| - n..], l) <==> n > 0 && buf[|buf| - n..] == Literal(l)[..n]
  {
    hide Literal;
  }

  lemma LongIsNotStarting(buf: string, n: nat, l: nat)
    requires l < LiteralCount && n <= |buf| && (n == |buf| || n + 1 == |Literal(l)|)
    ensures forall i :: 0 <= i < |buf| - n ==> !Starting(buf[i..], l)
  {
    hide Literal;
  }

  /** The longest tail of the buffer that is a beginning of literal `l`. */
  method FirstStarting(buf: string, l: nat) returns (cut: nat)
    requires l < LiteralCount
    ensures cut <= |buf|
    ensures cut < |buf| ==> Starting(buf[cut..], l)
    ensures forall i :: 0 <= i < cut ==> !Starting(buf[i..], l)
  {
    hide Literal, InPathClass, Starting;
    LiteralIsBody(l);
    var lit := Literal(l);
    var plen := if |lit| - 1 > |buf| then |buf| else |lit| - 1;
    LongIsNotStarting(buf, plen, l);
    while plen > 0 && buf[|buf| - plen..] != lit[..plen]
      invariant 0 <= plen <= |buf| && plen < |lit|
      invariant forall i :: 0 <= i < |buf| - plen ==> !Starting(buf[i..], l)
    {
      StartingIs(buf, plen, l);
      plen := plen - 1;
    }
    StartingIs(buf, plen, l);
    return |buf| - plen;
  }

  // ----- the cut is a place to cut -----

  /** Nothing spans the earliest open point, whatever text follows. */
  lemma CutDoesNotSpan(buf: string, cut: nat, x: string)
    requires IsCut(buf, cut)
    ensures NoSpan(buf[..cut], buf[cut..] + x)
  {
    assert buf[..cut][0..] == buf[..cut];
    CutFrom(buf, cut, x, 0);
  }

  lemma {:induction false} CutFrom(buf: string, cut: nat, x: string, i: nat)
    requires IsCut(buf, cut) && i <= cut
    ensures NoSpan(buf[i..cut], buf[cut..] + x)
    decreases cut - i
  {
    if i < cut {
      CutFrom(buf, cut, x, i + 1);
      assert buf[i..cut][1..] == buf[i + 1..cut];
      SettledBeforeCut(buf, cut, x, i);
    }
  }

  lemma SettledBeforeCut(buf: string, cut: nat, x: string, i: nat)
    requires IsCut(buf, cut) && i < cut
    ensures Settled(buf[i..cut], buf[cut..] + x)
  {
    hide Literal;
    var t := buf[i..];
    assert !Open(t);
    assert buf[i..cut] + (buf[cut..] + x) == t + x;
    BodyBehindCut(buf, cut);
    forall l | 0 <= l < LiteralCount && Literal(l) <= t + x
      ensures HasEnd(buf[i..cut])
    {
      assert !Running(t, l) && !Starting(t, l);
      PrefixCases(t, x, Literal(l));
      var e :| 0 <= e < |t| && !IsPathBody(t[e]);
      assert t[e] == buf[i + e] && i + e < cut;
      assert buf[i..cut][e] == t[e];
    }
  }

  /** A prefix of `t + x` is a prefix of `t` or extends it. */
  lemma PrefixCases(t: string, x: string, lit: string)
    requires t != ""
    ensures lit <= t + x ==> t < lit || lit <= t
  {
    if lit <= t + x && |t| >= |lit| {
      assert lit == (t + x)[..|lit|] == t[..|lit|];
    } else if lit <= t + x {
      assert t == (t + x)[..|t|] == lit[..|t|];
    }
  }

  lemma BodyBehindCut(buf: string, cut: nat)
    requires IsCut(buf, cut)
    ensures forall k :: cut <= k < |buf| ==> IsPathBody(buf[k])
  {
    if cut < |buf| {
      OpenIsBody(buf[cut..]);
      assert forall k :: cut <= k < |buf| ==> buf[k] == buf[cut..][k - cut];
    }
  }

  lemma OpenIsBody(t: string)
    requires Open(t)
    ensures AllBody(t)
  {
    var l :| 0 <= l < LiteralCount && (Running(t, l) || Starting(t, l));
    LiteralIsBody(l);
    hide Literal;
    if Starting(t, l) {
      assert forall k :: 0 <= k < |t| ==> t[k] == Literal(l)[k];
    }
  }

  // ----- texts on which streaming is safe -----

  /** At position `k` a literal begins, or the path of an earlier one is still running. */
  ghost predicate Guarded(s: string, k: nat)
    requires k <= |s|
  {
    exists j: nat, l: nat :: GuardedBy(s, k, j, l)
  }

  ghost predicate GuardedBy(s: string, k: nat, j: nat, l: nat)
    requires k <= |s|
  {
    j <= k && l < LiteralCount && Literal(l) <= s[j..] && AllBody(s[j..k])
  }

  ghost predicate HomesGuarded(s: string) {
    forall k :: 0 <= k < |s| && HomeLength(s[k..]) > 0 ==> Guarded(s, k)
  }

  /**
   The second pattern matches only where a literal is held back, and there is no block: drive
   letters and mixed separators stand inside a path that a literal began, or nowhere.
   */
  ghost predicate OnlyLiterals(s: string) {
    HomesGuarded(s) && NoBlock(s)
  }

  lemma GuardEnds(a: string, b: string, k: nat)
    requires NoSpan(a, b) && k <= |a + b| && Guarded(a + b, k)
    ensures k < |a| ==> HasEnd(a[k..])
    ensures k >= |a| ==> Guarded(b, k - |a|)
  {
    var s := a + b;
    var j: nat, l: nat :| GuardedBy(s, k, j, l);
    hide Literal, HasEnd;
    hide AllBody, NoSpan;
    if j < |a| {
      LiteralHasEnd(a, b, j, l);
      EndIsNotBody(a, b, j, k);
    } else {
      assert s[j..] == b[j - |a|..] && s[j..k] == b[j - |a|..k - |a|];
      assert GuardedBy(b, k - |a|, j - |a|, l);
    }
  }

  lemma LiteralHasEnd(a: string, b: string, j: nat, l: nat)
    requires NoSpan(a, b) && j < |a| && l < LiteralCount && Literal(l) <= (a + b)[j..]
    ensures HasEnd(a[j..])
  {
    hide *;
    NoSpanDrop(a, b, j);
    assert (a + b)[j..] == a[j..] + b && a[j..] != "";
    FirstIsSettled(a[j..], b, l);
  }

  lemma FirstIsSettled(a: string, b: string, l: nat)
    requires NoSpan(a, b) && a != "" && l < LiteralCount && Literal(l) <= a + b
    ensures HasEnd(a)
  {
    hide Literal, HasEnd;
    assert Settled(a, b);
  }

  lemma EndIsNotBody(a: string, b: string, j: nat, k: nat)
    requires j < |a| && j <= k <= |a + b| && HasEnd(a[j..]) && AllBody((a + b)[j..k])
    ensures k < |a| && HasEnd(a[k..])
  {
    var e :| 0 <= e < |a[j..]| && !IsPathBody(a[j..][e]);
    forall m | j <= m < k
      ensures IsPathBody((a + b)[m])
    {
      assert (a + b)[j..k][m - j] == (a + b)[m];
    }
    assert (a + b)[j + e] == a[j + e];
    assert a[k..][j + e - k] == a[j + e];
  }

  /** Every match of the second pattern that begins in front of the cut is guarded. */
  ghost predicate FrontGuarded(a: string, b: string) {
    forall k :: 0 <= k < |a| && HomeLength((a + b)[k..]) > 0 ==> Guarded(a + b, k)
  }

  lemma {:induction false} GuardedHomesEnd(a: string, b: string, k: nat)
    requires NoSpan(a, b) && FrontGuarded(a, b) && k <= |a|
    ensures HomesEnd(a[k..], b)
    decreases |a| - k
  {
    hide HomeLength, NoSpan, HasEnd, Guarded;
    if k < |a| {
      GuardedHomesEnd(a, b, k + 1);
      assert a[k..][1..] == a[k + 1..] && (a + b)[k..] == a[k..] + b;
      if HomeLength(a[k..] + b) > 0 {
        GuardEnds(a, b, k);
      }
    }
  }

  lemma RestIsGuarded(a: string, b: string)
    requires NoSpan(a, b) && HomesGuarded(a + b)
    ensures HomesGuarded(b)
  {
    hide HomeLength, NoSpan, Guarded;
    forall k | 0 <= k < |b| && HomeLength(b[k..]) > 0
      ensures Guarded(b, k)
    {
      assert (a + b)[|a| + k..] == b[k..];
      GuardEnds(a, b, |a| + k);
    }
  }

  /** A cut that no literal spans splits the redaction of such a text, and leaves such a text. */
  lemma TextSplit(a: string, b: string)
    requires NoSpan(a, b) && OnlyLiterals(a + b)
    ensures Text(a + b) == Text(a) + Text(b) && OnlyLiterals(b)
  {
    assert FrontGuarded(a, b);
    hide NoSpan, HomesGuarded, FrontGuarded, Text, Paths, HomesEnd;
    GuardedHomesEnd(a, b, 0);
    assert a[0..] == a;
    RestIsGuarded(a, b);
    PathsSplit(a, b);
    NoBlockInParts(a, b);
    TextOrShorter(a + b);
    TextOrShorter(a);
    TextOrShorter(b);
  }

  // ----- the streaming redactor -----

  /** The cut `SafeCutPoint` finds: there is only one. */
  ghost function FirstOpen(buf: string): (cut: nat)
    ensures IsCut(buf, cut)
  {
    if buf == "" || Open(buf) then
      assert buf[0..] == buf;
      0
    else
      var cut := FirstOpen(buf[1..]);
      assert IsCut(buf, cut + 1) by {
        assert buf[1..][cut..] == buf[cut + 1..] && buf[0..] == buf;
        assert forall i :: 1 <= i <= cut ==> buf[i..] == buf[1..][i - 1..];
      }
      cut + 1
  }

  lemma OneCut(buf: string, c: nat, d: nat)
    requires IsCut(buf, c) && IsCut(buf, d)
    ensures c == d
  {
    hide Open;
  }

  /** What the stream holds of a text it was fed. */
  ghost function HeldOf(text: string): string {
    text[FirstOpen(text)..]
  }

  /** Nothing is held exactly if no literal begins or still runs at the end of the text. */
  lemma NothingHeldIff(text: string)
    ensures HeldOf(text) == "" <==> forall i :: 0 <= i < |text| ==> !Open(text[i..])
  {
    hide Open;
    var cut := FirstOpen(text);
  }

  /** A separator at the end is enough. */
  lemma SlashIsHeld(text: string)
    requires text != "" && text[|text| - 1] == '/'
    ensures HeldOf(text) != ""
  {
    NothingHeldIff(text);
    var tail := text[|text| - 1..];
    assert tail == "/" && Literal(0)[..1] == "/";
    assert Starting(tail, 0);
    assert Open(text[|text| - 1..]);
  }

  /** An open text was open before it was continued. */
  lemma OpenBefore(t: string, x: string)
    requires t != "" && Open(t + x)
    ensures Open(t)
  {
    hide Literal;
    var l :| 0 <= l < LiteralCount && (Running(t + x, l) || Starting(t + x, l));
    assert forall k :: 0 <= k < |t| ==> t[k] == (t + x)[k];
    if Starting(t + x, l) {
      assert t == Literal(l)[..|t|] && Starting(t, l);
    } else {
      PrefixCases(t, x, Literal(l));
      assert Running(t, l) || Starting(t, l);
    }
  }

  /** What is held after a delta depends on the whole text only, not on how it was cut. */
  lemma HeldNext(text: string, delta: string)
    ensures HeldOf(text + delta) == (HeldOf(text) + delta)[FirstOpen(HeldOf(text) + delta)..]
  {
    hide Open, FirstOpen;
    var cut := FirstOpen(text);
    CutFits(text, cut);
    var full, rest := text + delta, text[cut..] + delta;
    var c := FirstOpen(rest);
    CutFits(rest, c);
    assert text == text[..cut] + text[cut..] && full == text[..cut] + rest;
    assert IsCut(full, cut + c) by {
      forall i | 0 <= i < cut
        ensures !Open(full[i..])
      {
        assert full[i..] == text[i..] + delta;
        if Open(full[i..]) {
          OpenBefore(text[i..], delta);
        }
      }
      assert forall i :: cut <= i <= |full| ==> full[i..] == rest[i - cut..];
    }
    OneCut(full, cut + c, FirstOpen(full));
  }

  /** What the deltas make the stream emit, with `buf` held back before them. */
  ghost function Streamed(buf: string, deltas: seq<string>): string
    decreases |deltas|
  {
    if deltas == [] then Text(buf)
    else if deltas[0] == "" then Streamed(buf, deltas[1..])
    else
      var full := buf + deltas[0];
      var cut := FirstOpen(full);
      Text(full[..cut]) + Streamed(full[cut..], deltas[1..])
  }

  /** On such a text what is emitted and what is held redact together as the whole. */
  lemma CutIsSafe(full: string, x: string)
    ensures var cut := FirstOpen(full);
            OnlyLiterals(full + x) ==>
              Text(full + x) == Text(full[..cut]) + Text(full[cut..] + x) && OnlyLiterals(full[cut..] + x)
  {
    hide Text, OnlyLiterals, NoSpan, FirstOpen, IsCut;
    var cut := FirstOpen(full);
    assert cut <= |full| by { CutFits(full, cut); }
    if OnlyLiterals(full + x) {
      CutDoesNotSpan(full, cut, x);
      assert full + x == full[..cut] + (full[cut..] + x);
      TextSplit(full[..cut], full[cut..] + x);
    }
  }

  lemma CutFits(buf: string, cut: nat)
    requires IsCut(buf, cut)
    ensures cut <= |buf|
  {
  }

  class Stream {
    var buf: string

    constructor ()
      ensures buf == ""
    {
      buf := "";
    }

    method Feed(delta: string) returns (out: string)
      modifies this
      ensures delta == "" ==> out == "" && buf == old(buf)
      ensures delta != "" ==>
                var full := old(buf) + delta;
                var cut := FirstOpen(full);
                out == Text(full[..cut]) && buf == full[cut..]
      ensures NoBlock(old(buf) + delta) ==> ShowsNoPath(out)
    {
      NothingShows();
      if delta == "" {
        return "";
      }
      buf := buf + delta;
      var full := buf;
      var cut := SafeCutPoint(full);
      OneCut(full, cut, FirstOpen(full));
      hide Text, FirstOpen, ShowsNoPath, NoBlock;
      if cut == 0 {
        assert full[..cut] == "" && full[cut..] == full;
        TextNothing();
        return "";
      }
      FrontIsClean(full, cut);
      var safe, rest := full[..cut], full[cut..];
      buf := rest;
      out := Text(safe);
    }

    method Flush() returns (out: string)
      modifies this
      ensures out == Text(old(buf)) && buf == ""
      ensures NoBlock(old(buf)) ==> ShowsNoPath(out)
    {
      FrontIsClean(buf, |buf|);
      assert buf[..|buf|] == buf;
      hide Text, ShowsNoPath, NoBlock;
      out := Text(buf);
      buf := "";
    }
  }

  lemma NothingShows()
    ensures ShowsNoPath("")
  {
  }

  /** Without blocks the redaction of a front shows no path. */
  lemma FrontIsClean(full: string, cut: nat)
    requires cut <= |full|
    ensures NoBlock(full) ==> ShowsNoPath(Text(full[..cut]))
  {
    hide Text, ShowsNoPath, NoBlock;
    if NoBlock(full) {
      assert full == full[..cut] + full[cut..];
      NoBlockInParts(full[..cut], full[cut..]);
      TextIsClean(full[..cut]);
    }
  }

  /** What `Feed` emits and what it then holds redact together as the text they came from. */
  lemma FedIsSafe(before: string, delta: string, x: string, out: string, after: string)
    requires delta == "" ==> out == "" && after == before
    requires delta != "" ==>
               var full := before + delta;
               var cut := FirstOpen(full);
               out == Text(full[..cut]) && after == full[cut..]
    ensures OnlyLiterals(before + (delta + x)) ==>
              Text(before + (delta + x)) == out + Text(after + x) && OnlyLiterals(after + x)
  {
    hide *;
    if delta == "" {
      assert delta + x == x && "" + Text(after + x) == Text(after + x);
    } else {
      assert before + (delta + x) == (before + delta) + x;
      CutIsSafe(before + delta, x);
    }
  }

  lemma TextNothing()
    ensures Text("") == ""
  {
    PassesNothing(0);
  }

  lemma {:induction false} PassesNothing(p: nat)
    requires p <= 7
    ensures Passes(p, "") == ""
    decreases 7 - p
  {
    if p < 7 {
      PassesNothing(p + 1);
    }
  }

  /** However such a text is cut into deltas, redacting the stream redacts the text. */
  lemma {:induction false} StreamIsText(buf: string, deltas: seq<string>)
    requires OnlyLiterals(buf + Concat(deltas))
    ensures Streamed(buf, deltas) == Text(buf + Concat(deltas))
    decreases |deltas|
  {
    hide Text, OnlyLiterals, FirstOpen;
    if deltas == [] {
      assert buf + Concat(deltas) == buf;
    } else {
      var x := Concat(deltas[1..]);
      var full := buf + deltas[0];
      assert buf + Concat(deltas) == full + x;
      if deltas[0] == "" {
        assert full == buf;
        StreamIsText(buf, deltas[1..]);
      } else {
        CutIsSafe(full, x);
        StreamIsText(full[FirstOpen(full)..], deltas[1..]);
      }
    }
  }

  lemma SafeIsClean(s: string)
    ensures OnlyLiterals(s) ==> ShowsNoPath(Text(s))
  {
    hide Text, ShowsNoPath, HomesGuarded, NoBlock;
    if OnlyLiterals(s) {
      TextIsClean(s);
    }
  }

  method FeedAll(deltas: seq<string>) returns (out: string)
    ensures out == Streamed("", deltas)
    ensures OnlyLiterals(Concat(deltas)) ==> out == Text(Concat(deltas)) && ShowsNoPath(out)
  {
    SafeIsClean(Concat(deltas));
    hide Text, OnlyLiterals, FirstOpen, ShowsNoPath;
    var s := new Stream();
    out := "";
    assert deltas[0..] == deltas;
    for i := 0 to |deltas|
      invariant Streamed("", deltas) == out + Streamed(s.buf, deltas[i..])
    {
      assert deltas[i..][1..] == deltas[i + 1..];
      var piece := s.Feed(deltas[i]);
      out := out + piece;
    }
    var tail := s.Flush();
    out := out + tail;
    assert "" + Concat(deltas) == Concat(deltas);
    if OnlyLiterals(Concat(deltas)) {
      StreamIsText("", deltas);
    }
  }
}
