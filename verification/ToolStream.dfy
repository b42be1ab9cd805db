/**
 The tool-call text protocol (`StreamParser` in `internal/toolemu/toolemu.go`).

 `Parse` says what a whole text means, with no buffering. `StreamParser` sees the text in
 arbitrary pieces and holds back what it cannot decide yet; its contract is that the
 parser's state stands for the meaning of whatever text may still follow.
 */
module ToolStream {
  import opened Options
  import opened GoStrings
  import opened ToolBody

  const CallOpen := "<tool_call>"
  const CallClose := "</tool_call>"
  const ResultPrefix := "<tool_result"
  const ResultClose := "</tool_result>"

  /** How the body of a block is decoded; `ToolBody.ParseBody` for a given codec. */
  type BodyParser = (string, nat) -> Option<ToolCall>

  datatype FeedResult = FeedResult(text: string, toolCalls: seq<ToolCall>)

  const NoResult := FeedResult("", [])

  function Cat(a: FeedResult, b: FeedResult): FeedResult {
    FeedResult(a.text + b.text, a.toolCalls + b.toolCalls)
  }

  function Text(s: string): FeedResult {
    FeedResult(s, [])
  }

  lemma CatAssoc(a: FeedResult, b: FeedResult, c: FeedResult)
    ensures Cat(Cat(a, b), c) == Cat(a, Cat(b, c))
  {
    assert (a.text + b.text) + c.text == a.text + (b.text + c.text);
    assert (a.toolCalls + b.toolCalls) + c.toolCalls == a.toolCalls + (b.toolCalls + c.toolCalls);
  }

  // ----- the meaning of a whole text -----

  datatype Mode = Outside | InCall | InResult

  /** Where the next opening tag is, and whether it opens a tool result; -1 if there is none. */
  function NextTag(s: string): (r: (int, bool))
    ensures r.0 == -1 || 0 <= r.0 <= |s|
  {
    var tc := Index(s, CallOpen);
    var tr := Index(s, ResultPrefix);
    if tc != -1 && (tr == -1 || tc <= tr) then (tc, false)
    else if tr != -1 then (tr, true)
    else (-1, false)
  }

  /** What a finished block contributes. */
  function Block(p: BodyParser, body: string, n: nat): FeedResult {
    match p(body, n)
    case Some(tc) => FeedResult("", [tc])
    case None => Text(CallOpen + body + CallClose)
  }

  /** What follows the '>' that ends the opening tag of a tool result. */
  function AfterAngle(t: string): (r: Option<string>)
    ensures r.Some? ==> |r.value| < |t|
  {
    var close := Index(t, ">");
    if close == -1 then None else Some(t[close + 1..])
  }

  /** Reading up to the next tag boundary: either there is none, or reading goes on behind it. */
  datatype Move = Stop(prose: string) | Go(out: FeedResult, mode: Mode, rest: string)

  function Step(p: BodyParser, mode: Mode, s: string, n: nat): (m: Move)
    ensures m.Go? ==> |m.rest| < |s|
  {
    match mode
    case InResult =>
      var i := Index(s, ResultClose);
      if i == -1 then Stop("") else Go(NoResult, Outside, s[i + |ResultClose|..])
    case InCall =>
      var i := Index(s, CallClose);
      if i == -1 then Stop(CallOpen + s)
      else Go(Block(p, TrimSpace(s[..i]), n), Outside, s[i + |CallClose|..])
    case Outside =>
      var (i, isResult) := NextTag(s);
      if i == -1 then Stop(s)
      else if !isResult then Go(Text(s[..i]), InCall, s[i + |CallOpen|..])
      else
        (match AfterAngle(s[i..])
         case None => Stop(s)
         case Some(rest) => Go(Text(s[..i]), InResult, rest))
  }

  /**
   What the text `s` amounts to when read in mode `mode` with `n` calls already made: the
   prose left after removing the blocks, and the calls.
   */
  function Parse(p: BodyParser, mode: Mode, s: string, n: nat): FeedResult
    decreases |s|
  {
    match Step(p, mode, s, n)
    case Stop(prose) => Text(prose)
    case Go(out, mode', rest) => Cat(out, Parse(p, mode', rest, n + |out.toolCalls|))
  }

  // ----- what may be decided before the rest of the text is known -----

  predicate TagAt(s: string, j: int) {
    At(s, CallOpen, j) || At(s, ResultPrefix, j)
  }

  lemma NextTagFirst(s: string)
    ensures var (i, isResult) := NextTag(s);
            && (i == -1 ==> !isResult && forall j :: !TagAt(s, j))
            && (i != -1 ==> 0 <= i && At(s, if isResult then ResultPrefix else CallOpen, i))
            && (forall j :: j < i ==> !TagAt(s, j))
  {
  }

  lemma NextTagIs(s: string, i: int, isResult: bool)
    requires if i == -1 then !isResult && forall j :: !TagAt(s, j)
             else At(s, if isResult then ResultPrefix else CallOpen, i) && forall j :: j < i ==> !TagAt(s, j)
    ensures NextTag(s) == (i, isResult)
  {
    NextTagFirst(s);
    var (i', isResult') := NextTag(s);
    if i' != -1 {
      assert TagAt(s, i');
    }
    if i != -1 {
      assert TagAt(s, i);
      NotBothTags(s, i);
    }
  }

  lemma NotBothTags(s: string, i: int)
    ensures !(At(s, CallOpen, i) && At(s, ResultPrefix, i))
  {
    var k := |"<tool_"|;
    assert CallOpen[k] != ResultPrefix[k];
    if At(s, CallOpen, i) && At(s, ResultPrefix, i) {
      AtCharacter(s, CallOpen, i, k);
      AtCharacter(s, ResultPrefix, i, k);
    }
  }

  lemma AtCharacter(s: string, pat: string, j: int, k: nat)
    requires At(s, pat, j) && k < |pat|
    ensures s[j + k] == pat[k]
  {
    assert s[j..j + |pat|][k] == s[j + k];
  }

  /** Only the first character of an opening tag is '<'. */
  lemma TagsDoNotOverlap(s: string, tag: string, i: int, j: int)
    requires tag == CallOpen || tag == ResultPrefix
    requires j < i && At(s, tag, j) && TagAt(s, i)
    ensures j + |tag| <= i
  {
    assert s[i] == '<' by {
      if At(s, CallOpen, i) { AtCharacter(s, CallOpen, i, 0); } else { AtCharacter(s, ResultPrefix, i, 0); }
    }
    assert forall k :: 0 < k < |CallOpen| ==> CallOpen[k] != '<';
    assert forall k :: 0 < k < |ResultPrefix| ==> ResultPrefix[k] != '<';
    if i < j + |tag| {
      AtCharacter(s, tag, j, i - j);
    }
  }

  lemma NextTagShift(s: string, e: nat)
    requires e <= |s| && forall j :: j < e ==> !TagAt(s, j)
    ensures var (i, isResult) := NextTag(s[e..]);
            NextTag(s) == (if i == -1 then -1 else e + i, isResult)
  {
    hide NextTag, CallOpen, ResultPrefix;
    var t := s[e..];
    var (i, isResult) := NextTag(t);
    NextTagFirst(t);
    forall j | e <= j
      ensures At(s, CallOpen, j) <==> At(t, CallOpen, j - e)
      ensures At(s, ResultPrefix, j) <==> At(t, ResultPrefix, j - e)
    {
      AtDrop(s, e, CallOpen, j - e);
      AtDrop(s, e, ResultPrefix, j - e);
    }
    forall j | i == -1 || j < e + i
      ensures !TagAt(s, j)
    {
      assert j >= e ==> !TagAt(t, j - e);
    }
    NextTagIs(s, if i == -1 then -1 else e + i, isResult);
  }

  /** Text in front of the first tag is prose. */
  lemma ProsePrefix(p: BodyParser, s: string, e: nat, n: nat)
    requires e <= |s| && forall j :: j < e ==> !TagAt(s, j)
    ensures Parse(p, Outside, s, n) == Cat(Text(s[..e]), Parse(p, Outside, s[e..], n))
  {
    hide Step;
    var m := Step(p, Outside, s[e..], n);
    StepShift(p, s, e, n);
    if m.Go? {
      CatAssoc(Text(s[..e]), m.out, Parse(p, m.mode, m.rest, n + |m.out.toolCalls|));
    }
  }

  lemma StepShift(p: BodyParser, s: string, e: nat, n: nat)
    requires e <= |s| && forall j :: j < e ==> !TagAt(s, j)
    ensures Step(p, Outside, s, n)
         == match Step(p, Outside, s[e..], n)
            case Stop(prose) => Stop(s[..e] + prose)
            case Go(out, mode, rest) => Go(Cat(Text(s[..e]), out), mode, rest)
  {
    hide NextTag, AfterAngle;
    var t := s[e..];
    var (i, isResult) := NextTag(t);
    assert NextTag(s) == (if i == -1 then -1 else e + i, isResult) by {
      NextTagShift(s, e);
    }
    assert s == s[..e] + t;
    if i != -1 {
      assert 0 <= i <= |t| && (!isResult ==> i + |CallOpen| <= |t|) by {
        NextTagFirst(t);
      }
      assert s[..e + i] == s[..e] + t[..i];
      assert s[e + i..] == t[i..];
      if !isResult {
        var k := |CallOpen|;
        assert s[e + i + k..] == t[i + k..];
      }
    }
  }

  /** The last `l` characters of `b` are a proper prefix of `tag`. */
  predicate Partial(b: string, l: nat, tag: string) {
    l <= |b| && l < |tag| && b[|b| - l..] == tag[..l]
  }

  /** No tail of `b` longer than `h` could be the start of an opening tag. */
  ghost predicate IsHold(b: string, h: nat) {
    && h <= |b|
    && (forall l :: h < l ==> !Partial(b, l, CallOpen))
    && (forall l :: h < l ==> !Partial(b, l, ResultPrefix))
  }

  /** An occurrence that starts in `b` and is not inside `b` has its beginning as a tail of `b`. */
  lemma StraddlingTag(b: string, x: string, tag: string, j: nat)
    requires j < |b| && At(b + x, tag, j)
    ensures At(b, tag, j) || Partial(b, |b| - j, tag)
  {
    AtAppend(b, x, tag, j);
    if |b| < j + |tag| {
      assert tag[..|b| - j] == (b + x)[j..j + |tag|][..|b| - j] == b[j..];
    }
  }

  /** No tag can begin in front of the held tail, whatever text follows. */
  lemma HoldBack(b: string, h: nat, x: string)
    requires IsHold(b, h) && NextTag(b).0 == -1
    ensures forall j :: j < |b| - h ==> !TagAt(b + x, j)
  {
    NextTagFirst(b);
    forall j | j < |b| - h
      ensures !TagAt(b + x, j)
    {
      assert !TagAt(b, j);
      if At(b + x, CallOpen, j) { StraddlingTag(b, x, CallOpen, j); }
      if At(b + x, ResultPrefix, j) { StraddlingTag(b, x, ResultPrefix, j); }
    }
  }

  /** The held tail itself is prose if nothing follows. */
  lemma HeldTail(p: BodyParser, b: string, h: nat, n: nat)
    requires h <= |b| && NextTag(b).0 == -1
    ensures Parse(p, Outside, b[|b| - h..], n) == Text(b[|b| - h..])
  {
    NextTagFirst(b);
    NextTagShift(b, |b| - h);
  }

  /** A result tag whose '>' has not arrived is prose if nothing follows. */
  lemma UnclosedResult(p: BodyParser, b: string, n: nat)
    requires NextTag(b).0 != -1 && NextTag(b).1
    requires AfterAngle(b[NextTag(b).0..]).None?
    ensures var t := b[NextTag(b).0..]; Parse(p, Outside, t, n) == Text(t)
  {
    NextTagFirst(b);
    var e := NextTag(b).0;
    var t := b[e..];
    assert t[0..] == t;
    NextTagShift(b, e);
  }

  /** A tag found in the buffer stays the first tag, whatever text follows. */
  lemma NextTagStable(b: string, x: string)
    requires NextTag(b).0 != -1
    ensures NextTag(b + x) == NextTag(b)
    ensures forall j :: j < NextTag(b).0 ==> !TagAt(b + x, j)
  {
    var (i, isResult) := NextTag(b);
    NextTagFirst(b);
    var found := if isResult then ResultPrefix else CallOpen;
    AtAppend(b, x, found, i);
    assert At(b + x, found, i);
    forall j | j < i
      ensures !TagAt(b + x, j)
    {
      assert !TagAt(b, j);
      assert TagAt(b + x, i);
      if At(b + x, CallOpen, j) {
        TagsDoNotOverlap(b + x, CallOpen, i, j);
        AtAppend(b, x, CallOpen, j);
      }
      if At(b + x, ResultPrefix, j) {
        TagsDoNotOverlap(b + x, ResultPrefix, i, j);
        AtAppend(b, x, ResultPrefix, j);
      }
    }
    NextTagIs(b + x, i, isResult);
  }

  /** The next move survives the arrival of more text. */
  ghost predicate Stable(p: BodyParser, mode: Mode, b: string, x: string, n: nat)
    requires Step(p, mode, b, n).Go?
  {
    var m := Step(p, mode, b, n);
    Step(p, mode, b + x, n) == Go(m.out, m.mode, m.rest + x)
  }

  /** A boundary found in the buffer stays the next boundary, whatever text follows. */
  lemma StepStable(p: BodyParser, mode: Mode, b: string, x: string, n: nat)
    requires Step(p, mode, b, n).Go?
    ensures Stable(p, mode, b, x, n)
  {
    hide Step;
    match mode
    case InResult => ResultCloses(p, b, x, n);
    case InCall => CallCloses(p, b, x, n);
    case Outside => if NextTag(b).1 { ResultOpens(p, b, x, n); } else { CallOpens(p, b, x, n); }
  }

  lemma ResultCloses(p: BodyParser, b: string, x: string, n: nat)
    requires Step(p, InResult, b, n).Go?
    ensures Stable(p, InResult, b, x, n)
  {
    IndexAppend(b, ResultClose, x);
  }

  lemma CallCloses(p: BodyParser, b: string, x: string, n: nat)
    requires Step(p, InCall, b, n).Go?
    ensures Stable(p, InCall, b, x, n)
  {
    IndexAppend(b, CallClose, x);
  }

  lemma CallOpens(p: BodyParser, b: string, x: string, n: nat)
    requires Step(p, Outside, b, n).Go? && !NextTag(b).1
    ensures Stable(p, Outside, b, x, n)
  {
    var (i, _) := NextTag(b);
    NextTagStable(b, x);
    assert (b + x)[..i] == b[..i];
    assert (b + x)[i + |CallOpen|..] == b[i + |CallOpen|..] + x;
  }

  lemma ResultOpens(p: BodyParser, b: string, x: string, n: nat)
    requires Step(p, Outside, b, n).Go? && NextTag(b).1
    ensures Stable(p, Outside, b, x, n)
  {
    hide NextTag, AfterAngle;
    var i := NextTag(b).0;
    assert NextTag(b + x) == (i, true) && (b + x)[i..] == b[i..] + x && (b + x)[..i] == b[..i] by {
      NextTagStable(b, x);
    }
    AfterAngleAppend(b[i..], x);
  }

  lemma AfterAngleAppend(t: string, x: string)
    requires AfterAngle(t).Some?
    ensures AfterAngle(t + x) == Some(AfterAngle(t).value + x)
  {
    IndexAppend(t, ">", x);
  }

  /** Taking the next move in the buffer accounts for its output and leaves the rest of the meaning. */
  lemma Advance(p: BodyParser, mode: Mode, b: string, x: string, n: nat)
    requires Step(p, mode, b, n).Go?
    ensures var m := Step(p, mode, b, n);
            Parse(p, mode, b + x, n) == Cat(m.out, Parse(p, m.mode, m.rest + x, n + |m.out.toolCalls|))
  {
    hide Step;
    StepStable(p, mode, b, x, n);
  }

  /** The cases in which the front of the buffer is prose although reading cannot go on. */
  ghost predicate CutsAt(b: string, e: nat) {
    && e <= |b|
    && ((NextTag(b).0 == -1 && IsHold(b, |b| - e)) || (NextTag(b).0 == e && NextTag(b).1))
  }

  lemma HeldIsProse(p: BodyParser, b: string, e: nat, x: string, n: nat)
    requires CutsAt(b, e)
    ensures Parse(p, Outside, b + x, n) == Cat(Text(b[..e]), Parse(p, Outside, b[e..] + x, n))
  {
    if NextTag(b).0 == -1 {
      HoldBack(b, |b| - e, x);
    } else {
      NextTagStable(b, x);
    }
    assert (b + x)[e..] == b[e..] + x;
    assert (b + x)[..e] == b[..e];
    ProsePrefix(p, b + x, e, n);
  }

  // ----- the streaming parser -----

  class StreamParser {
    const parseBody: BodyParser
    var buf: string
    var inCall: bool
    var inResult: bool
    var totalCalls: nat

    ghost function ModeNow(): Mode
      reads this
    {
      if inResult then InResult else if inCall then InCall else Outside
    }

    /** Between calls the buffer holds nothing `Drain` could still decide. */
    ghost predicate Valid()
      reads this
    {
      && !(inCall && inResult)
      && match ModeNow()
         case InResult => Index(buf, ResultClose) == -1
         case InCall => Index(buf, CallClose) == -1
         case Outside => Parse(parseBody, Outside, buf, totalCalls) == Text(buf)
    }

    /** All the parser will still produce once `future` has arrived and it is flushed. */
    ghost function Denotes(future: string): FeedResult
      reads this
    {
      Parse(parseBody, ModeNow(), buf + future, totalCalls)
    }

    constructor (parseBody: BodyParser)
      ensures Valid() && this.parseBody == parseBody
      ensures forall x {:trigger Denotes(x)} :: Denotes(x) == Parse(parseBody, Outside, x, 0)
    {
      this.parseBody := parseBody;
      buf := "";
      inCall, inResult, totalCalls := false, false, 0;
      new;
      assert forall x: string :: "" + x == x;
    }

    /** Emits a part of the meaning and leaves the state standing for exactly the rest. */
    method Feed(delta: string) returns (r: FeedResult)
      requires Valid()
      modifies this
      ensures Valid()
      ensures forall x {:trigger Denotes(x)} :: old(Denotes(delta + x)) == Cat(r, Denotes(x))
    {
      if delta == "" {
        assert forall x: string :: delta + x == x;
        return NoResult;
      }
      ghost var before := buf;
      buf := buf + delta;
      assert forall x: string :: before + (delta + x) == buf + x;
      r := Drain();
    }

    /** With nothing left to come, what is held back is emitted as the text it turned out to be. */
    method Flush() returns (r: FeedResult)
      requires Valid()
      modifies this
      ensures Valid() && buf == "" && ModeNow() == Outside && totalCalls == old(totalCalls)
      ensures r == old(Denotes("")) && r.toolCalls == []
    {
      var remaining := buf;
      assert buf + "" == buf;
      buf := "";
      if inCall {
        inCall := false;
        return Text(CallOpen + remaining);
      }
      if inResult {
        inResult := false;
        return NoResult;
      }
      return Text(remaining);
    }

    method Drain() returns (r: FeedResult)
      requires !(inCall && inResult)
      modifies this
      ensures Valid()
      ensures forall x {:trigger Denotes(x)} :: old(Denotes(x)) == Cat(r, Denotes(x))
    {
      hide Step, NextTag, Index, Parse;
      r := NoResult;
      var more := true;
      while more
        invariant !(inCall && inResult) && (!more ==> Valid())
        invariant forall x {:trigger Denotes(x)} :: old(Denotes(x)) == Cat(r, Denotes(x))
        decreases |buf|, more
      {
        label top:
        var out: FeedResult;
        out, more := DrainOnce();
        forall x {:trigger Denotes(x)}
          ensures old(Denotes(x)) == Cat(Cat(r, out), Denotes(x))
        {
          assert old@top(Denotes(x)) == Cat(out, Denotes(x));
          CatAssoc(r, out, Denotes(x));
        }
        r := Cat(r, out);
      }
    }

    /** One round of the loop: close or open a block, or keep what cannot be decided yet. */
    method DrainOnce() returns (out: FeedResult, more: bool)
      requires !(inCall && inResult)
      modifies this
      ensures !(inCall && inResult)
      ensures if more then |buf| < old(|buf|) else Valid() && |buf| <= old(|buf|)
      ensures forall x {:trigger Denotes(x)} :: old(Denotes(x)) == Cat(out, Denotes(x))
    {
      hide Step, NextTag, Index, Parse, CutsAt;
      ghost var b, mode, n := buf, ModeNow(), totalCalls;
      if inResult || inCall {
        out, more := DrainBlock();
      } else {
        out, more := DrainProse();
      }
      forall x {:trigger Denotes(x)}
        ensures old(Denotes(x)) == Cat(out, Denotes(x))
      {
        if more {
          Advance(parseBody, mode, b, x, n);
        } else if mode == Outside {
          HeldIsProse(parseBody, b, |b| - |buf|, x, n);
        }
      }
    }

    /** Inside a block: look for its closing tag. */
    method DrainBlock() returns (out: FeedResult, more: bool)
      requires inCall != inResult
      modifies this
      ensures !(inCall && inResult)
      ensures more ==> old(Step(parseBody, ModeNow(), buf, totalCalls)) == Go(out, ModeNow(), buf)
      ensures more ==> totalCalls == old(totalCalls) + |out.toolCalls|
      ensures !more ==> Valid() && unchanged(this) && out == NoResult
    {
      hide Index, NextTag, CallOpen, CallClose, ResultClose, TrimSpace;
      out, more := NoResult, true;
      if inResult {
        var idx := Index(buf, ResultClose);
        if idx < 0 {
          return NoResult, false;
        }
        buf := buf[idx + |ResultClose|..];
        inResult := false;
      } else {
        var idx := Index(buf, CallClose);
        if idx < 0 {
          return NoResult, false;
        }
        var body := TrimSpace(buf[..idx]);
        buf := buf[idx + |CallClose|..];
        inCall := false;
        match parseBody(body, totalCalls) {
          case Some(tc) =>
            out := FeedResult("", [tc]);
            totalCalls := totalCalls + 1;
          case None =>
            out := Text(CallOpen + body + CallClose);
        }
      }
    }

    /** Outside the blocks: emit prose up to the next tag, or up to what could become one. */
    method DrainProse() returns (out: FeedResult, more: bool)
      requires !inCall && !inResult
      modifies this
      ensures !(inCall && inResult) && totalCalls == old(totalCalls) && out.toolCalls == []
      ensures more ==> old(Step(parseBody, Outside, buf, totalCalls)) == Go(out, ModeNow(), buf)
      ensures !more ==> Valid() && ModeNow() == Outside
      ensures !more ==> var e := |old(buf)| - |buf|;
                        0 <= e && CutsAt(old(buf), e) && out == Text(old(buf)[..e]) && buf == old(buf)[e..]
    {
      ghost var b := buf;
      var (nextIdx, isResult) := NextTag(buf);
      if nextIdx == -1 {
        var holdLen := HoldLen(buf);
        var emit := |buf| - holdLen;
        out, more := Text(buf[..emit]), false;
        buf := buf[emit..];
        HeldTail(parseBody, b, holdLen, totalCalls);
        return;
      }
      out, more := Text(buf[..nextIdx]), true;
      if !isResult {
        buf := buf[nextIdx + |CallOpen|..];
        inCall := true;
      } else {
        var rest := buf[nextIdx..];
        match AfterAngle(rest) {
          case None =>
            more := false;
            buf := rest;
            UnclosedResult(parseBody, b, totalCalls);
          case Some(after) =>
            buf := after;
            inResult := true;
        }
      }
    }
  }

  /** The longest tail of `b` that is a proper prefix of an opening tag. */
  method HoldLen(b: string) returns (h: nat)
    ensures IsHold(b, h)
    ensures Partial(b, h, CallOpen) || Partial(b, h, ResultPrefix)
  {
    var a := HoldFor(b, CallOpen);
    var c := HoldFor(b, ResultPrefix);
    h := if c > a then c else a;
  }

  method HoldFor(b: string, tag: string) returns (l: nat)
    requires tag != ""
    ensures Partial(b, l, tag) && forall k :: l < k ==> !Partial(b, k, tag)
  {
    l := if |tag| - 1 > |b| then |b| else |tag| - 1;
    while l > 0 && b[|b| - l..] != tag[..l]
      invariant 0 <= l <= |b| && l < |tag|
      invariant forall k :: l < k ==> !Partial(b, k, tag)
    {
      l := l - 1;
    }
  }

  // ----- whole streams -----

  /** However the text is cut into deltas, the stream amounts to what the whole text means. */
  method FeedAll(parseBody: BodyParser, deltas: seq<string>) returns (r: FeedResult)
    ensures r == Parse(parseBody, Outside, Concat(deltas), 0)
  {
    hide Parse, Step;
    var parser := new StreamParser(parseBody);
    r := NoResult;
    for i := 0 to |deltas|
      invariant parser.Valid()
      invariant Parse(parseBody, Outside, Concat(deltas), 0) == Cat(r, parser.Denotes(Concat(deltas[i..])))
    {
      ghost var rest := Concat(deltas[i + 1..]);
      assert deltas[i..][1..] == deltas[i + 1..];
      assert Concat(deltas[i..]) == deltas[i] + rest;
      label before:
      var out := parser.Feed(deltas[i]);
      assert old@before(parser.Denotes(deltas[i] + rest)) == Cat(out, parser.Denotes(rest));
      CatAssoc(r, out, parser.Denotes(rest));
      r := Cat(r, out);
    }
    assert deltas[|deltas|..] == [];
    var tail := parser.Flush();
    r := Cat(r, tail);
  }

  method ParseAll(parseBody: BodyParser, text: string) returns (r: FeedResult)
    ensures r == Parse(parseBody, Outside, text, 0)
  {
    hide Parse, Step;
    var parser := new StreamParser(parseBody);
    assert text + "" == text;
    label before:
    var a := parser.Feed(text);
    assert old@before(parser.Denotes(text + "")) == Cat(a, parser.Denotes(""));
    var b := parser.Flush();
    r := FeedResult(a.text + b.text, a.toolCalls + b.toolCalls);
  }

  /** A text without either opening tag comes out unchanged. */
  lemma TagFreeText(p: BodyParser, s: string, n: nat)
    requires forall j :: !TagAt(s, j)
    ensures Parse(p, Outside, s, n) == Text(s)
  {
    NextTagIs(s, -1, false);
  }

  lemma CallsOfOneMove(p: BodyParser, mode: Mode, s: string, n: nat)
    requires Step(p, mode, s, n).Go?
    ensures var calls := Step(p, mode, s, n).out.toolCalls;
            calls == [] || (|calls| == 1 && exists body :: p(body, n) == Some(calls[0]))
  {
    hide Index, NextTag, AfterAngle, TrimSpace;
    if mode == InCall {
      var body := TrimSpace(s[..Index(s, CallClose)]);
      assert p(body, n) == None || p(body, n) == Some(Block(p, body, n).toolCalls[0]);
    }
  }

  ghost predicate NumberedFrom(calls: seq<ToolCall>, n: nat) {
    forall i :: 0 <= i < |calls| ==> calls[i].counter == n + i
  }

  lemma NumberedConcat(a: seq<ToolCall>, b: seq<ToolCall>, n: nat)
    requires NumberedFrom(a, n) && NumberedFrom(b, n + |a|)
    ensures NumberedFrom(a + b, n)
  {
  }

  /** The calls of a text carry consecutive ids. */
  lemma {:induction false} CallIdsAreConsecutive(p: BodyParser, mode: Mode, s: string, n: nat)
    requires forall body, k :: p(body, k).Some? ==> p(body, k).value.counter == k
    ensures NumberedFrom(Parse(p, mode, s, n).toolCalls, n)
    decreases |s|
  {
    hide Step;
    var m := Step(p, mode, s, n);
    if m.Go? {
      var first := m.out.toolCalls;
      CallsOfOneMove(p, mode, s, n);
      CallIdsAreConsecutive(p, m.mode, m.rest, n + |first|);
      NumberedConcat(first, Parse(p, m.mode, m.rest, n + |first|).toolCalls, n);
    }
  }
}
