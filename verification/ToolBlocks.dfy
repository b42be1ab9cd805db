/**
 What the blocks of the tool-call text protocol come to (`internal/toolemu/toolemu.go`), tag by tag: a
 result is not shown, a call that decodes is a call, one that does not is shown, and what is never
 closed is shown or not, depending on its kind.
 */
module ToolBlocks {
  import opened Options
  import opened GoStrings
  import opened Json
  import opened ToolBody
  import opened ToolRepair
  import opened ToolStream
  import opened ToolNormalize

  ghost predicate Without(s: string, pat: string) {
    forall j :: !At(s, pat, j)
  }

  /** A pattern that begins with '<' and has no other does not reach over the end of a text into itself. */
  lemma FirstBehind(inner: string, pat: string, rest: string)
    requires TagShape(pat) && Without(inner, pat)
    ensures Index(inner + pat + rest, pat) == |inner|
    ensures (inner + pat + rest)[|inner| + |pat|..] == rest && (inner + pat + rest)[..|inner|] == inner
  {
    var s := inner + pat + rest;
    assert s[|inner|..|inner| + |pat|] == pat;
    forall j | 0 <= j < |inner|
      ensures !At(s, pat, j)
    {
      assert s == inner + (pat + rest);
      AtAppend(inner, pat + rest, pat, j);
      assert s[|inner|] == '<';
      AtCharacterOf(s, pat, j, |inner| - j);
    }
    IndexIs(s, pat, |inner|);
  }

  lemma AtCharacterOf(s: string, pat: string, j: nat, k: nat)
    ensures At(s, pat, j) && k < |pat| ==> s[j + k] == pat[k]
  {
    if At(s, pat, j) && k < |pat| {
      AtCharacter(s, pat, j, k);
    }
  }

  lemma Tags()
    ensures CallOpen == "<tool_call>" && CallClose == "</tool_call>"
    ensures ResultPrefix == "<tool_result" && ResultClose == "</tool_result>"
    ensures |ResultPrefix| == 12 && '>' !in ResultPrefix
  {
  }

  /** A closing tag has one angle bracket, in front. */
  ghost predicate TagShape(pat: string) {
    |pat| > 1 && pat[0] == '<' && forall k :: 0 < k < |pat| ==> pat[k] != '<'
  }

  lemma ClosingTags()
    ensures TagShape(CallClose) && TagShape(ResultClose)
  {
  }

  lemma AngleFirst(prefix: string, attrs: string, tail: string)
    requires '>' !in prefix && '>' !in attrs
    ensures Index(prefix + attrs + ">" + tail, ">") == |prefix| + |attrs|
    ensures (prefix + attrs + ">" + tail)[|prefix| + |attrs| + 1..] == tail
    ensures Index(prefix + attrs, ">") == -1
  {
    var head := prefix + attrs;
    var s := head + ">" + tail;
    assert At(s, ">", |head|);
    forall j | 0 <= j < |head|
      ensures !At(s, ">", j) && head[j] != '>'
    {
      assert head[j] in prefix || head[j] in attrs;
      assert s[j] == head[j];
    }
    IndexIs(s, ">", |head|);
    assert Without(head, ">");
    NotFound(head, ">");
  }

  /** Reading an opening tag of a result moves behind it, if the tag ends. */
  lemma ResultOpens(p: BodyParser, attrs: string, tail: string, n: nat)
    requires '>' !in attrs
    ensures Parse(p, Outside, ResultPrefix + attrs + ">" + tail, n) == Parse(p, InResult, tail, n)
    ensures Parse(p, Outside, ResultPrefix + attrs, n) == Text(ResultPrefix + attrs)
  {
    hide NextTag, Index, ResultPrefix, CallOpen;
    Tags();
    AngleFirst(ResultPrefix, attrs, tail);
    var s, head := ResultPrefix + attrs + ">" + tail, ResultPrefix + attrs;
    ResultTagFirst(s, attrs + ">" + tail);
    ResultTagFirst(head, attrs);
    assert s[0..] == s && head[0..] == head && s[..0] == "";
    assert AfterAngle(s) == Some(tail) && AfterAngle(head) == None;
    assert Step(p, Outside, s, n) == Go(Text(""), InResult, tail);
    assert Step(p, Outside, head, n) == Stop(head);
    NoTextBefore(Parse(p, InResult, tail, n));
  }

  lemma ResultTagFirst(s: string, tail: string)
    requires s == ResultPrefix + tail
    ensures NextTag(s) == (0, true)
  {
    assert s[0..|ResultPrefix|] == ResultPrefix;
    assert At(s, ResultPrefix, 0);
    NextTagIs(s, 0, true);
  }

  lemma NoTextBefore(r: FeedResult)
    ensures Cat(Text(""), r) == r && Cat(NoResult, r) == r
    ensures NoResult == Text("") == FeedResult("", [])
  {
    assert "" + r.text == r.text && [] + r.toolCalls == r.toolCalls;
  }

  lemma NotFound(s: string, pat: string)
    requires Without(s, pat)
    ensures Index(s, pat) == -1
  {
    assert Index(s, pat) == -1 || At(s, pat, Index(s, pat));
  }

  lemma ResultStep(p: BodyParser, s: string, n: nat)
    ensures Step(p, InResult, s, n) ==
            var i := Index(s, ResultClose);
            if i == -1 then Stop("") else Go(FeedResult("", []), Outside, s[i + |ResultClose|..])
  {
    hide Index, ResultClose;
  }

  lemma CallStep(p: BodyParser, s: string, n: nat)
    ensures Step(p, InCall, s, n) ==
            var i := Index(s, CallClose);
            if i == -1 then Stop(CallOpen + s) else Go(Block(p, TrimSpace(s[..i]), n), Outside, s[i + |CallClose|..])
  {
    hide Index, CallClose, CallOpen, TrimSpace, Block;
  }

  lemma ParseIs(p: BodyParser, mode: Mode, s: string, n: nat)
    ensures Parse(p, mode, s, n) ==
            match Step(p, mode, s, n)
            case Stop(prose) => Text(prose)
            case Go(out, next, rest) => Cat(out, Parse(p, next, rest, n + |out.toolCalls|))
  {
  }

  /** Inside a result: up to its closing tag nothing is shown, and nothing if there is none. */
  lemma InsideResult(p: BodyParser, inner: string, rest: string, n: nat)
    requires Without(inner, ResultClose)
    ensures Parse(p, InResult, inner + ResultClose + rest, n) == Parse(p, Outside, rest, n)
    ensures Parse(p, InResult, inner, n) == NoResult
  {
    hide *;
    ClosingTags();
    NotFound(inner, ResultClose);
    FirstBehind(inner, ResultClose, rest);
    var s := inner + ResultClose + rest;
    ResultStep(p, s, n);
    ResultStep(p, inner, n);
    ParseIs(p, InResult, s, n);
    ParseIs(p, InResult, inner, n);
    NoTextBefore(Parse(p, Outside, rest, n));
  }

  /** A tool result is not shown, whatever is in it, and what follows is read as if it stood alone. */
  lemma ResultIsDropped(p: BodyParser, attrs: string, inner: string, rest: string, n: nat)
    requires '>' !in attrs && Without(inner, "</tool_result>")
    ensures Parse(p, Outside, "<tool_result" + attrs + ">" + inner + "</tool_result>" + rest, n) == Parse(p, Outside, rest, n)
  {
    hide *;
    Tags();
    ResultOpens(p, attrs, inner + ResultClose + rest, n);
    InsideResult(p, inner, rest, n);
    var head := ResultPrefix + attrs + ">";
    assert head + inner + ResultClose + rest == head + (inner + ResultClose + rest);
  }

  /** One that is never closed is not shown either; one whose tag does not end is shown. */
  lemma UnclosedResult(p: BodyParser, attrs: string, inner: string, n: nat)
    requires '>' !in attrs
    ensures Without(inner, "</tool_result>") ==>
              Parse(p, Outside, "<tool_result" + attrs + ">" + inner, n) == FeedResult("", [])
    ensures Parse(p, Outside, "<tool_result" + attrs, n) == FeedResult("<tool_result" + attrs, [])
  {
    Tags();
    hide ResultPrefix, ResultClose, Parse;
    ResultOpens(p, attrs, inner, n);
    if Without(inner, ResultClose) {
      InsideResult(p, inner, "", n);
    }
  }

  lemma InsideCall(p: BodyParser, body: string, rest: string, n: nat)
    requires Without(body, CallClose)
    ensures Parse(p, InCall, body + CallClose + rest, n) ==
            Cat(Block(p, TrimSpace(body), n), Parse(p, Outside, rest, n + |Block(p, TrimSpace(body), n).toolCalls|))
    ensures Parse(p, InCall, body, n) == Text(CallOpen + body)
  {
    hide *;
    ClosingTags();
    NotFound(body, CallClose);
    FirstBehind(body, CallClose, rest);
    var s := body + CallClose + rest;
    CallStep(p, s, n);
    CallStep(p, body, n);
    ParseIs(p, InCall, s, n);
    ParseIs(p, InCall, body, n);
  }

  lemma BlockIs(p: BodyParser, body: string, n: nat)
    ensures Block(p, body, n) ==
            match p(body, n)
            case Some(tc) => FeedResult("", [tc])
            case None => FeedResult("<tool_call>" + body + "</tool_call>", [])
  {
    Tags();
  }

  /** A call is what its body decodes to; if it does not decode, its trimmed body is shown between its tags. */
  lemma CallIsRead(p: BodyParser, body: string, rest: string, n: nat)
    requires Without(body, "</tool_call>")
    ensures Parse(p, Outside, "<tool_call>" + body + "</tool_call>" + rest, n) ==
            match p(TrimSpace(body), n)
            case Some(tc) => Cat(FeedResult("", [tc]), Parse(p, Outside, rest, n + 1))
            case None => Cat(FeedResult("<tool_call>" + TrimSpace(body) + "</tool_call>", []), Parse(p, Outside, rest, n))
  {
    hide *;
    Tags();
    OpensAtFront(p, body + CallClose + rest, n);
    InsideCall(p, body, rest, n);
    BlockIs(p, TrimSpace(body), n);
    assert CallOpen + body + CallClose + rest == CallOpen + (body + CallClose + rest);
  }

  /** One that is never closed is shown. */
  lemma UnclosedCall(p: BodyParser, body: string, n: nat)
    requires Without(body, "</tool_call>")
    ensures Parse(p, Outside, "<tool_call>" + body, n) == FeedResult("<tool_call>" + body, [])
  {
    Tags();
    hide CallOpen, CallClose, Parse;
    OpensAtFront(p, body, n);
    InsideCall(p, body, "", n);
  }

  /** White space around a body does not count: blanks, tabs, and what ends a line or a page. */
  lemma TrimmedBody(before: string, core: string, after: string)
    requires forall c :: c in before + after ==> c in {' ', '\t', '\n', '\r', 11 as char, 12 as char}
    requires core != "" && core[0] !in {' ', '\t', '\n', '\r', 11 as char, 12 as char}
    requires core[|core| - 1] !in {' ', '\t', '\n', '\r', 11 as char, 12 as char}
    ensures TrimSpace(before + core + after) == core
  {
    assert forall i :: 0 <= i < |before| ==> before[i] in before + after;
    assert forall i :: 0 <= i < |after| ==> after[i] in before + after;
    SpacesAreTrimmed(before, core, after);
  }

  lemma SpacesAreTrimmed(before: string, core: string, after: string)
    requires Blank(before) && Blank(after) && Trimmed(core)
    ensures TrimSpace(before + core + after) == core
  {
    assert before + core + after == before + (core + after);
    TrimmedLeft(before, core + after);
    TrimmedRight(core, after);
  }

  lemma LeadingSpace(s: string)
    requires s != ""
    ensures TrimLeft(s) == if IsSpace(s[0]) then TrimLeft(s[1..]) else s
  {
  }

  lemma {:induction false} TrimmedLeft(before: string, s: string)
    requires forall i :: 0 <= i < |before| ==> IsSpace(before[i])
    requires s != "" && !IsSpace(s[0])
    ensures TrimLeft(before + s) == s
  {
    hide TrimLeft, IsSpace;
    LeadingSpace(before + s);
    if before == "" {
      assert before + s == s;
    } else {
      TrimmedLeft(before[1..], s);
      assert (before + s)[1..] == before[1..] + s;
    }
  }

  lemma {:induction false} TrimmedRight(s: string, after: string)
    requires forall i :: 0 <= i < |after| ==> IsSpace(after[i])
    requires s != "" && !IsSpace(s[|s| - 1])
    ensures TrimRight(s + after) == s
  {
    if after == "" {
      assert s + after == s;
    } else {
      TrimmedRight(s, after[..|after| - 1]);
      assert (s + after)[..|s + after| - 1] == s + after[..|after| - 1];
    }
  }

  /** A tool's message, rendered for Cascade, is not shown if the model repeats it. */
  lemma RenderedResultIsDropped(p: BodyParser, c: Codec, quote: string -> string, m: Message, rest: string, n: nat)
    requires m.role == "tool" && '>' !in quote(if m.toolCallId == "" then "unknown" else m.toolCallId)
    requires Without(m.content, "</tool_result>")
    ensures var r := NormalizeMessage(c, quote, m);
            r.role == "user" && Parse(p, Outside, r.content + rest, n) == Parse(p, Outside, rest, n)
  {
    var attrs := " tool_call_id=" + quote(if m.toolCallId == "" then "unknown" else m.toolCallId);
    var inner := "\n" + m.content + "\n";
    forall j
      ensures !At(inner, "</tool_result>", j)
    {
      LinesHaveNoTag(m.content, j);
    }
    ResultMessage(c, quote, m, rest);
    hide Parse, At, NormalizeMessage;
    ResultIsDropped(p, attrs, inner, rest, n);
  }

  lemma ResultMessage(c: Codec, quote: string -> string, m: Message, rest: string)
    requires m.role == "tool"
    ensures var attrs := " tool_call_id=" + quote(if m.toolCallId == "" then "unknown" else m.toolCallId);
            var r := NormalizeMessage(c, quote, m);
            && r.role == "user"
            && r.content + rest == "<tool_result" + attrs + ">" + ("\n" + m.content + "\n") + "</tool_result>" + rest
  {
    var q := quote(if m.toolCallId == "" then "unknown" else m.toolCallId);
    Regroup("<tool_result", " tool_call_id=", q, m.content, "</tool_result>");
    assert "<tool_result" + " tool_call_id=" == "<tool_result tool_call_id=" && ">" + "\n" == ">\n";
    assert "\n" + "</tool_result>" == "\n</tool_result>";
  }

  lemma Regroup(a: string, b: string, q: string, content: string, close: string)
    ensures a + (b + q) + ">" + ("\n" + content + "\n") + close == (a + b) + q + (">" + "\n") + content + ("\n" + close)
  {
  }

  lemma LinesHaveNoTag(content: string, j: int)
    requires Without(content, "</tool_result>")
    ensures !At("\n" + content + "\n", "</tool_result>", j)
  {
    var s, pat := "\n" + content + "\n", "</tool_result>";
    var tail := content + "\n";
    assert s[0] == '\n' && s[|s| - 1] == '\n' && s[1..] == tail && pat[0] != '\n' && pat[13] != '\n';
    AtEnds(s, pat, j);
    if j >= 1 {
      AtDrop(s, 1, pat, j - 1);
      AtAppend(content, "\n", pat, j - 1);
    }
  }

  lemma AtEnds(s: string, pat: string, j: int)
    ensures At(s, pat, j) && pat != "" ==> s[j] == pat[0] && s[j + |pat| - 1] == pat[|pat| - 1]
  {
    if At(s, pat, j) && pat != "" {
      assert s[j..j + |pat|][0] == pat[0] && s[j..j + |pat|][|pat| - 1] == pat[|pat| - 1];
    }
  }

  // ----- bodies that do not decode as they are -----

  /** A document in a code fence, with white space around it. */
  function Fenced(lang: string, before: string, core: string, after: string): string {
    "```" + lang + "\n" + (before + (core + after + "```"))
  }

  ghost predicate Blank(s: string) {
    forall i :: 0 <= i < |s| ==> IsSpace(s[i])
  }

  ghost predicate Trimmed(s: string) {
    s != "" && !IsSpace(s[0]) && !IsSpace(s[|s| - 1])
  }

  /** A code fence, with or without a language behind it, is taken off, and the white space with it. */
  lemma FenceIsStripped(lang: string, before: string, core: string, after: string)
    requires '\n' !in lang && Blank(before) && Blank(after) && Trimmed(core)
    ensures StripCodeFence(TrimSpace(Fenced(lang, before, core, after))) == core
  {
    hide *;
    FencedIsTrimmed(lang, before, core, after);
    FirstLineEnds(lang, before, core, after);
    BehindFence(before, core, after);
    StripAt(Fenced(lang, before, core, after), 3 + |lang|, before + (core + after + "```"));
  }

  lemma FirstLineEnds(lang: string, before: string, core: string, after: string)
    requires '\n' !in lang
    ensures var s := Fenced(lang, before, core, after);
            && Index(s, "\n") == 3 + |lang| < |s| && s[3 + |lang| + 1..] == before + (core + after + "```")
  {
    FirstNewline(lang, before + (core + after + "```"));
    hide Index;
  }

  /** The first line goes, and a closing fence. */
  lemma StripAt(s: string, nl: nat, rest: string)
    requires "```" <= s && nl < |s| && Index(s, "\n") == nl && s[nl + 1..] == rest
    ensures StripCodeFence(s) ==
            var t := TrimSpace(rest); TrimSpace(if |t| >= 3 && t[|t| - 3..] == "```" then t[..|t| - 3] else t)
  {
    hide TrimSpace, Index;
  }

  lemma FencedIsTrimmed(lang: string, before: string, core: string, after: string)
    ensures TrimSpace(Fenced(lang, before, core, after)) == Fenced(lang, before, core, after)
    ensures "```" <= Fenced(lang, before, core, after)
  {
    var s := Fenced(lang, before, core, after);
    assert s[0] == '`' && s[|s| - 1] == '`';
    hide TrimSpace;
  }

  lemma BehindFence(before: string, core: string, after: string)
    requires Blank(before) && Blank(after) && Trimmed(core)
    ensures var t := TrimSpace(before + (core + after + "```"));
            |t| >= 3 && t[|t| - 3..] == "```" && TrimSpace(t[..|t| - 3]) == core
  {
    hide *;
    var t := core + after + "```";
    FenceEnds(core, after);
    SpacesAreTrimmed(before, t, "");
    SpacesAreTrimmed("", core, after);
    assert before + t + "" == before + t && "" + core + after == core + after;
    assert t[..|t| - 3] == core + after && t[|t| - 3..] == "```";
  }

  lemma FenceEnds(core: string, after: string)
    requires Trimmed(core)
    ensures Trimmed(core + after + "```") && Blank("")
  {
    var t := core + after + "```";
    assert t[0] == core[0] && t[|t| - 1] == '`';
  }

  lemma FirstNewline(lang: string, rest: string)
    requires '\n' !in lang
    ensures Index("```" + lang + "\n" + rest, "\n") == 3 + |lang|
  {
    var s := "```" + lang + "\n" + rest;
    assert s[3 + |lang|..3 + |lang| + 1] == "\n";
    forall j | 0 <= j < 3 + |lang|
      ensures !At(s, "\n", j)
    {
      assert s[j] == if j < 3 then '`' else lang[j - 3];
      AtCharacterOf(s, "\n", j, 0);
    }
    IndexIs(s, "\n", 3 + |lang|);
  }

  /** What a decoded body makes of a call. */
  ghost predicate IsCall(c: Codec, r: Option<ToolCall>, b: CallBody, n: nat) {
    r == if b.name == "" then None else Some(ToolCall(n, b.name, NormalizeArguments(c, b.arguments)))
  }

  /** A body that decodes is not touched. */
  lemma SoundBodyIsRead(c: Codec, body: string, b: CallBody, n: nat)
    requires c.unmarshalCall(body) == Some(b) && b.name != ""
    ensures IsCall(c, ParseBody(c, body, n), b, n)
  {
    hide Repair, NormalizeArguments;
  }

  /** A call in a code fence is read as the call. */
  lemma FencedCallIsRead(c: Codec, lang: string, before: string, core: string, after: string, b: CallBody, n: nat)
    requires '\n' !in lang && Blank(before) && Blank(after) && Trimmed(core) && !HasRawControl(core, Structure)
    requires c.unmarshalCall(Fenced(lang, before, core, after)) == None && c.unmarshalCall(core) == Some(b)
    ensures IsCall(c, ParseBody(c, Fenced(lang, before, core, after), n), b, n)
  {
    FenceIsStripped(lang, before, core, after);
    EscapeIdentityIff(core, Structure);
    hide StripCodeFence, TrimSpace, NormalizeArguments, Escape, HasRawControl, Fenced, Blank, Trimmed;
    var fenced := Fenced(lang, before, core, after);
    assert Repair(fenced) == core && core != fenced;
  }

  /** A call with raw control bytes in its strings is read as the call with those bytes escaped. */
  lemma RawControlsAreRead(c: Codec, body: string, b: CallBody, n: nat)
    requires Trimmed(body) && body[0] != '`'
    requires HasRawControl(body, Structure)
    requires c.unmarshalCall(body) == None && c.unmarshalCall(Escape(body, Structure)) == Some(b)
    ensures IsCall(c, ParseBody(c, body, n), b, n)
  {
    EscapeIdentityIff(body, Structure);
    hide TrimSpace, NormalizeArguments, Escape, HasRawControl;
    assert TrimSpace(body) == body;
    assert !("```" <= body);
    assert Repair(body) == Escape(body, Structure);
  }

  /** A body that decodes neither as it is nor repaired is no call. */
  lemma BrokenBodyIsNoCall(c: Codec, body: string, n: nat)
    requires c.unmarshalCall(body) == None && c.unmarshalCall(Repair(body)) == None
    ensures ParseBody(c, body, n) == None
  {
    hide Repair;
  }

  /** Arguments that are a list, a number or a truth value are none. */
  lemma OtherArgumentsAreEmpty(c: Codec, raw: string)
    requires TrimSpace(raw) == "" || (TrimSpace(raw)[0] != '{' && TrimSpace(raw)[0] != '\"')
    ensures NormalizeArguments(c, raw) == "{}"
  {
    hide TrimSpace;
  }
}
