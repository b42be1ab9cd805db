/**
 Rewriting a conversation so that Cascade can read it (`Normalize` in
 `internal/toolemu/toolemu.go`), and reading an assistant turn back.
 */
module ToolNormalize {
  import opened Options
  import opened GoStrings
  import opened Json
  import opened ToolBody
  import opened ToolRepair
  import opened ToolStream

  /** The function part of a prior tool call; `arguments` is raw text. */
  datatype PriorCall = PriorCall(name: string, arguments: string)

  datatype Message = Message(role: string, content: string, toolCalls: seq<PriorCall>, toolCallId: string)

  datatype NormalMessage = NormalMessage(role: string, content: string)

  function NameOf(tc: PriorCall): string {
    if tc.name == "" then "unknown" else tc.name
  }

  /** The decoded arguments; text that does not decode, and `null`, become an empty object. */
  function ArgumentsOf(c: Codec, tc: PriorCall): Json {
    match c.unmarshal(tc.arguments)
    case Some(Null) => Obj(map[])
    case Some(v) => v
    case None => Obj(map[])
  }

  function RenderCall(c: Codec, tc: PriorCall): string {
    CallOpen + c.marshal(CallObject(NameOf(tc), ArgumentsOf(c, tc))) + CallClose
  }

  function RenderCalls(c: Codec, calls: seq<PriorCall>): seq<string> {
    seq(|calls|, i requires 0 <= i < |calls| => RenderCall(c, calls[i]))
  }

  /** `quote` is the `%q` formatting of the result id. */
  function NormalizeMessage(c: Codec, quote: string -> string, m: Message): NormalMessage {
    if m.role == "tool" then
      var id := if m.toolCallId == "" then "unknown" else m.toolCallId;
      NormalMessage("user", "<tool_result tool_call_id=" + quote(id) + ">\n" + m.content + "\n</tool_result>")
    else if m.role == "assistant" then
      var prose := if m.content == "" then [] else [m.content];
      NormalMessage("assistant", Join(prose + RenderCalls(c, m.toolCalls), "\n"))
    else
      NormalMessage(m.role, m.content)
  }

  method Normalize(c: Codec, quote: string -> string, msgs: seq<Message>) returns (out: seq<NormalMessage>)
    ensures |out| == |msgs|
    ensures forall i :: 0 <= i < |msgs| ==> out[i] == NormalizeMessage(c, quote, msgs[i])
    ensures forall i :: 0 <= i < |msgs| && msgs[i].role == "tool" ==>
              && out[i].role == "user"
              && out[i].content == "<tool_result tool_call_id=" +
                 quote(if msgs[i].toolCallId == "" then "unknown" else msgs[i].toolCallId) +
                 ">\n" + msgs[i].content + "\n</tool_result>"
    ensures forall i :: 0 <= i < |msgs| && msgs[i].role != "tool" ==> out[i].role == msgs[i].role
    ensures forall i :: 0 <= i < |msgs| && msgs[i].role != "tool" && msgs[i].role != "assistant" ==>
              out[i].content == msgs[i].content
  {
    hide Join, RenderCall;
    out := [];
    for i := 0 to |msgs|
      invariant |out| == i
      invariant forall j :: 0 <= j < i ==> out[j] == NormalizeMessage(c, quote, msgs[j])
    {
      var m := msgs[i];
      if m.role == "tool" {
        var id := if m.toolCallId == "" then "unknown" else m.toolCallId;
        out := out + [NormalMessage("user", "<tool_result tool_call_id=" + quote(id) + ">\n" + m.content + "\n</tool_result>")];
      } else if m.role == "assistant" {
        var parts: seq<string> := if m.content == "" then [] else [m.content];
        ghost var prose := parts;
        for k := 0 to |m.toolCalls|
          invariant parts == prose + RenderCalls(c, m.toolCalls)[..k]
        {
          parts := parts + [RenderCall(c, m.toolCalls[k])];
        }
        assert parts == prose + RenderCalls(c, m.toolCalls);
        out := out + [NormalMessage("assistant", Join(parts, "\n"))];
      } else {
        out := out + [NormalMessage(m.role, m.content)];
      }
    }
  }

  // ----- reading an assistant turn back -----

  /** How a codec decodes the body of a block. */
  function Decoder(c: Codec): BodyParser {
    (body: string, n: nat) => ParseBody(c, body, n)
  }

  /** The calls an assistant turn is read back as, numbered from `n`. */
  function ReadBack(c: Codec, calls: seq<PriorCall>, n: nat): (r: seq<ToolCall>)
    ensures |r| == |calls|
  {
    if calls == [] then []
    else
      [ToolCall(n, NameOf(calls[0]), NormalizeArguments(c, c.marshal(ArgumentsOf(c, calls[0]))))]
      + ReadBack(c, calls[1..], n + 1)
  }

  function Newlines(k: nat): string {
    if k == 0 then "" else "\n" + Newlines(k - 1)
  }

  lemma OpensAtFront(p: BodyParser, tail: string, n: nat)
    ensures Parse(p, Outside, CallOpen + tail, n) == Parse(p, InCall, tail, n)
  {
    hide NextTag, Index, CallOpen, ResultPrefix;
    var s := CallOpen + tail;
    assert At(s, CallOpen, 0) by {
      assert s[0..|CallOpen|] == CallOpen;
    }
    NextTagIs(s, 0, false);
    assert s[|CallOpen|..] == tail;
    assert Step(p, Outside, s, n) == Go(Text(""), InCall, tail);
  }

  /** The encoder writes no '<', so the closing tag is the first one after the body. */
  lemma ClosesAfter(enc: string, rest: string)
    requires '<' !in enc
    ensures Index(enc + CallClose + rest, CallClose) == |enc|
  {
    var s := enc + CallClose + rest;
    assert s[|enc|..|enc| + |CallClose|] == CallClose;
    forall j | 0 <= j < |enc|
      ensures !At(s, CallClose, j)
    {
      assert s[j] == enc[j];
      if At(s, CallClose, j) {
        AtCharacter(s, CallClose, j, 0);
      }
    }
    IndexIs(s, CallClose, |enc|);
  }

  lemma RenderedBody(c: Codec, tc: PriorCall, n: nat)
    requires Lawful(c)
    ensures var enc := c.marshal(CallObject(NameOf(tc), ArgumentsOf(c, tc)));
            '<' !in enc && ParseBody(c, TrimSpace(enc), n) == Some(ReadBack(c, [tc], n)[0])
  {
    hide TrimSpace, NormalizeArguments, Repair;
    var enc := c.marshal(CallObject(NameOf(tc), ArgumentsOf(c, tc)));
    assert enc[0] == '{' && enc[|enc| - 1] == '}';
    assert TrimSpace(enc) == enc;
    assert c.unmarshalCall(enc) == Some(CallBody(NameOf(tc), c.marshal(ArgumentsOf(c, tc))));
  }

  lemma ClosesAtOnce(p: BodyParser, enc: string, rest: string, n: nat)
    requires '<' !in enc && p(TrimSpace(enc), n).Some?
    ensures Parse(p, InCall, enc + CallClose + rest, n)
         == Cat(FeedResult("", [p(TrimSpace(enc), n).value]), Parse(p, Outside, rest, n + 1))
  {
    hide Index, TrimSpace;
    var tail := enc + CallClose + rest;
    ClosesAfter(enc, rest);
    assert tail[|enc| + |CallClose|..] == rest && tail[..|enc|] == enc;
    assert Step(p, InCall, tail, n) == Go(FeedResult("", [p(TrimSpace(enc), n).value]), Outside, rest);
  }

  /** A rendered call in front of any text is read as that call. */
  lemma OneCall(c: Codec, tc: PriorCall, rest: string, n: nat)
    requires Lawful(c)
    ensures Parse(Decoder(c), Outside, RenderCall(c, tc) + rest, n)
         == Cat(FeedResult("", ReadBack(c, [tc], n)), Parse(Decoder(c), Outside, rest, n + 1))
  {
    RenderedBody(c, tc, n);
    RenderSplits(c, tc, rest);
    hide Parse, Lawful, ParseBody, TrimSpace, NormalizeArguments, RenderCall, ArgumentsOf, NameOf;
    var enc := c.marshal(CallObject(NameOf(tc), ArgumentsOf(c, tc)));
    OpensAtFront(Decoder(c), enc + CallClose + rest, n);
    ClosesAtOnce(Decoder(c), enc, rest, n);
    var tcs := ReadBack(c, [tc], n);
    assert tcs == [tcs[0]];
  }

  lemma RenderSplits(c: Codec, tc: PriorCall, rest: string)
    ensures RenderCall(c, tc) + rest ==
            CallOpen + (c.marshal(CallObject(NameOf(tc), ArgumentsOf(c, tc))) + CallClose + rest)
  {
  }

  /** A line of prose in front of any text stays prose. */
  lemma OneLine(p: BodyParser, line: string, rest: string, n: nat)
    requires forall j :: !TagAt(line, j)
    ensures Parse(p, Outside, line + "\n" + rest, n) == Cat(Text(line + "\n"), Parse(p, Outside, rest, n))
  {
    var s := line + "\n" + rest;
    var e := |line| + 1;
    assert s == line + ("\n" + rest);
    assert forall k :: 0 <= k < |CallOpen| ==> CallOpen[k] != '\n';
    assert forall k :: 0 <= k < |ResultPrefix| ==> ResultPrefix[k] != '\n';
    forall j, tag | (tag == CallOpen || tag == ResultPrefix) && j < e
      ensures !At(s, tag, j)
    {
      AtAppend(line, "\n" + rest, tag, j);
      assert !TagAt(line, j);
      if At(s, tag, j) {
        AtCharacter(s, tag, j, |line| - j);
      }
    }
    assert s[e..] == rest && s[..e] == line + "\n";
    ProsePrefix(p, s, e, n);
  }

  lemma {:induction false} CallsRoundTrip(c: Codec, calls: seq<PriorCall>, n: nat)
    requires Lawful(c) && calls != []
    ensures Parse(Decoder(c), Outside, Join(RenderCalls(c, calls), "\n"), n)
         == FeedResult(Newlines(|calls| - 1), ReadBack(c, calls, n))
  {
    hide Parse, RenderCall, NormalizeArguments, Lawful;
    var parts := RenderCalls(c, calls);
    var first := RenderCall(c, calls[0]);
    assert ReadBack(c, calls, n) == ReadBack(c, [calls[0]], n) + ReadBack(c, calls[1..], n + 1);
    if |calls| == 1 {
      assert parts == [first];
      assert first + "" == first;
      OneCall(c, calls[0], "", n);
      NothingLeft(Decoder(c), n + 1);
    } else {
      var rest := Join(RenderCalls(c, calls[1..]), "\n");
      assert parts[1..] == RenderCalls(c, calls[1..]);
      assert Join(parts, "\n") == first + "\n" + rest == first + ("\n" + rest);
      OneCall(c, calls[0], "\n" + rest, n);
      assert "" + "\n" + rest == "\n" + rest;
      OneLine(Decoder(c), "", rest, n + 1);
      CallsRoundTrip(c, calls[1..], n + 1);
    }
  }

  lemma NothingLeft(p: BodyParser, n: nat)
    ensures Parse(p, Outside, "", n) == NoResult
  {
    TagFreeText(p, "", n);
  }

  /**
   An assistant turn rendered for Cascade is read back as it was: the same calls in order
   under consecutive ids, and the prose followed by the newlines that joined the parts.
   */
  lemma AssistantRoundTrip(c: Codec, quote: string -> string, m: Message)
    requires Lawful(c) && m.role == "assistant"
    requires forall j :: !TagAt(m.content, j)
    ensures var r := Parse(Decoder(c), Outside, NormalizeMessage(c, quote, m).content, 0);
            && r.toolCalls == ReadBack(c, m.toolCalls, 0)
            && r.text == m.content
                         + Newlines(if m.toolCalls == [] then 0
                                    else |m.toolCalls| - (if m.content == "" then 1 else 0))
  {
    hide Parse, Lawful, ReadBack;
    var calls := RenderCalls(c, m.toolCalls);
    var k := |m.toolCalls|;
    if k == 0 {
      assert Join([m.content], "\n") == m.content;
      assert [m.content] + calls == [m.content] && [] + calls == [];
      TagFreeText(Decoder(c), m.content, 0);
    } else {
      CallsRoundTrip(c, m.toolCalls, 0);
      if m.content == "" {
        assert [] + calls == calls;
      } else {
        assert ([m.content] + calls)[1..] == calls;
        OneLine(Decoder(c), m.content, Join(calls, "\n"), 0);
        assert m.content + "\n" + Newlines(k - 1) == m.content + Newlines(k);
      }
    }
  }

  /** What was sent as an object arrives as the same object, under the same name. */
  lemma ReadBackKeepsCalls(c: Codec, calls: seq<PriorCall>, n: nat, i: nat)
    requires Lawful(c) && i < |calls|
    ensures var tc := ReadBack(c, calls, n)[i];
            && tc.counter == n + i && tc.name == (if calls[i].name == "" then "unknown" else calls[i].name)
            && var sent := c.unmarshal(calls[i].arguments);
               && (sent.Some? && sent.value.Obj? ==> c.unmarshal(tc.argumentsJSON) == sent)
               && (sent == None || sent == Some(Null) ==> c.unmarshal(tc.argumentsJSON) == Some(Obj(map[])))
  {
    ReadBackIs(c, calls, n, i);
    hide ReadBack, NormalizeArguments;
  }

  lemma LawfulReads(c: Codec, v: Json)
    requires Lawful(c)
    ensures c.unmarshal(c.marshal(v)) == Some(v)
  {
  }

  lemma {:induction false} ReadBackIs(c: Codec, calls: seq<PriorCall>, n: nat, i: nat)
    requires Lawful(c) && i < |calls|
    ensures var tc := ReadBack(c, calls, n)[i];
            && tc.counter == n + i && tc.name == NameOf(calls[i])
            && (ArgumentsOf(c, calls[i]).Obj? ==> c.unmarshal(tc.argumentsJSON) == Some(ArgumentsOf(c, calls[i])))
  {
    hide NormalizeArguments, ArgumentsOf, NameOf, Lawful;
    if i == 0 {
      var v := ArgumentsOf(c, calls[0]);
      LawfulReads(c, v);
      if v.Obj? {
        ObjectArgumentsKeepTheirValue(c, c.marshal(v), v.fields);
      }
    } else {
      ReadBackIs(c, calls[1..], n + 1, i - 1);
    }
  }
}
