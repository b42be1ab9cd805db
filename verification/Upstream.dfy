/**
 What both stream translators read: upstream chunks (`internal/server/messages.go`,
 `internal/server/responses.go`, as `internal/server/chat.go` writes them) taken apart into the
 inputs a translator acts on, one after the other.
 */
module Upstream {
  import opened Options
  import opened GoStrings
  import opened SseFrames

  datatype Usage = Usage(prompt: int, completion: int, cacheCreation: int, cached: Option<int>)

  const NoUsage := Usage(0, 0, 0, None)

  /** One upstream item: the start of a chunk, a delta, a finish reason, usage, or a keep-alive. */
  datatype Input =
    | Begin
    | TextIn(text: string)
    | ThinkingIn(text: string)
    | ToolIn(idx: int, id: string, name: string, args: string)
    | FinishIn(reason: string)
    | UsageIn(usage: Usage)
    | PingIn

  // ----- decoded chunks -----

  datatype ToolDelta = ToolDelta(idx: int, id: string, name: string, args: string)
  datatype Choice = Choice(reasoning: string, content: Option<string>, tools: seq<ToolDelta>, finish: Option<string>)
  /** `usage` is None if the chunk has no such key; a null is read as `NoUsage`. */
  datatype Chunk = Chunk(choices: seq<Choice>, usage: Option<Usage>)

  /** `json.Unmarshal` of one payload; a payload it rejects is skipped. */
  type Decoder = string -> Option<Chunk>

  function ToolInput(t: ToolDelta): Input {
    ToolIn(t.idx, t.id, t.name, t.args)
  }

  function ToolInputs(tools: seq<ToolDelta>): seq<Input> {
    seq(|tools|, i requires 0 <= i < |tools| => ToolInput(tools[i]))
  }

  function TextOrNone(content: Option<string>): string {
    if content.Some? then content.value else ""
  }

  function FinishInputs(finish: Option<string>): seq<Input> {
    if finish.Some? then [FinishIn(finish.value)] else []
  }

  function ChoiceInputs(c: Choice): seq<Input> {
    [ThinkingIn(c.reasoning), TextIn(TextOrNone(c.content))] + ToolInputs(c.tools) + FinishInputs(c.finish)
  }

  function ChoicesInputs(cs: seq<Choice>): seq<Input> {
    if cs == [] then [] else ChoicesInputs(cs[..|cs| - 1]) + ChoiceInputs(cs[|cs| - 1])
  }

  function ChunkInputs(c: Chunk): seq<Input> {
    [Begin] + ChoicesInputs(c.choices) + if c.usage.Some? then [UsageIn(c.usage.value)] else []
  }

  function PayloadInputs(decode: Decoder, payload: string): seq<Input> {
    match decode(payload) case Some(c) => ChunkInputs(c) case None => []
  }

  function PayloadsInputs(decode: Decoder, ps: seq<string>): seq<Input> {
    if ps == [] then [] else PayloadsInputs(decode, ps[..|ps| - 1]) + PayloadInputs(decode, ps[|ps| - 1])
  }

  function FrameInputs(decode: Decoder, frame: string): seq<Input> {
    PayloadsInputs(decode, Payloads(Lines(frame))) + if SawPing(Lines(frame)) then [PingIn] else []
  }

  function FramesInputs(decode: Decoder, frames: seq<string>): seq<Input> {
    if frames == [] then [] else FramesInputs(decode, frames[..|frames| - 1]) + FrameInputs(decode, frames[|frames| - 1])
  }

  lemma {:induction false} FramesInputsConcat(decode: Decoder, a: seq<string>, b: seq<string>)
    ensures FramesInputs(decode, a + b) == FramesInputs(decode, a) + FramesInputs(decode, b)
  {
    hide FrameInputs;
    if b == [] {
      assert a + b == a;
    } else {
      FramesInputsConcat(decode, a, b[..|b| - 1]);
      assert (a + b)[..|a + b| - 1] == a + b[..|b| - 1];
    }
  }

  /** The inputs in all of `bytes`, cut anyhow. */
  function StreamInputs(decode: Decoder, bytes: string): seq<Input> {
    FramesInputs(decode, Frames(bytes).frames)
  }

  /** One more piece of upstream bytes, in terms of all bytes so far. */
  lemma InputsResume(decode: Decoder, s: string, d: string)
    ensures StreamInputs(decode, s + d) == StreamInputs(decode, s) + StreamInputs(decode, Frames(s).pending + d)
    ensures Frames(s + d).pending == Frames(Frames(s).pending + d).pending
  {
    FramesResume(s, d);
    hide FramesInputs, Frames;
    FramesInputsConcat(decode, Frames(s).frames, Frames(Frames(s).pending + d).frames);
  }

  /** The inputs in chunks written by `chat.go`: each chunk's, in order. */
  lemma {:induction false} WrittenChunksAreRead(decode: Decoder, payloads: seq<string>)
    requires forall p :: p in payloads ==> '\n' !in p && p != "[DONE]"
    ensures var fs := seq(|payloads|, i requires 0 <= i < |payloads| => DataFrame(payloads[i]));
            StreamInputs(decode, Wire(fs)) == PayloadsInputs(decode, payloads)
  {
    var fs := seq(|payloads|, i requires 0 <= i < |payloads| => DataFrame(payloads[i]));
    DataFramesAreRead(payloads);
    hide Frames, Wire, Lines, DataFrame;
    FramesArePayloads(decode, fs, payloads);
  }

  lemma {:induction false} FramesArePayloads(decode: Decoder, fs: seq<string>, payloads: seq<string>)
    requires |fs| == |payloads|
    requires forall i :: 0 <= i < |fs| ==> Payloads(Lines(fs[i])) == [payloads[i]] && !SawPing(Lines(fs[i]))
    ensures FramesInputs(decode, fs) == PayloadsInputs(decode, payloads)
  {
    if fs != [] {
      var n := |fs| - 1;
      FramesArePayloads(decode, fs[..n], payloads[..n]);
      OneFrame(decode, fs[n], payloads[n]);
      hide FrameInputs, PayloadInputs, Payloads, Lines;
      assert FramesInputs(decode, fs) == FramesInputs(decode, fs[..n]) + FrameInputs(decode, fs[n]);
      assert PayloadsInputs(decode, payloads) ==
              PayloadsInputs(decode, payloads[..n]) + PayloadInputs(decode, payloads[n]);
    }
  }

  lemma OneFrame(decode: Decoder, frame: string, payload: string)
    requires Payloads(Lines(frame)) == [payload] && !SawPing(Lines(frame))
    ensures FrameInputs(decode, frame) == PayloadInputs(decode, payload)
  {
    hide Payloads, Lines, SawPing, PayloadInputs;
    var one := [payload];
    assert one[..0] == [] && PayloadsInputs(decode, one) == PayloadsInputs(decode, []) + PayloadInputs(decode, one[0]);
  }

  // ----- acting on inputs -----

  function Fold<S>(st: S, inputs: seq<Input>, step: (S, Input) -> S): S {
    if inputs == [] then st else step(Fold(st, inputs[..|inputs| - 1], step), inputs[|inputs| - 1])
  }

  lemma FoldSnoc<S>(st: S, step: (S, Input) -> S, inputs: seq<Input>, inp: Input)
    ensures Fold(st, inputs + [inp], step) == step(Fold(st, inputs, step), inp)
  {
    assert (inputs + [inp])[..|inputs|] == inputs;
  }

  lemma {:induction false} FoldConcat<S>(st: S, step: (S, Input) -> S, a: seq<Input>, b: seq<Input>)
    ensures Fold(st, a + b, step) == Fold(Fold(st, a, step), b, step)
  {
    if b == [] {
      assert a + b == a;
    } else {
      var n := |b| - 1;
      FoldConcat(st, step, a, b[..n]);
      assert (a + b)[..|a + b| - 1] == a + b[..n];
    }
  }

  lemma FoldOne<S>(st: S, step: (S, Input) -> S, inp: Input)
    ensures Fold(st, [inp], step) == step(st, inp)
  {
    var one := [inp];
    assert one[..0] == [] && Fold(st, one, step) == step(Fold(st, [], step), one[0]);
  }

  lemma FoldNone<S>(st: S, step: (S, Input) -> S)
    ensures Fold(st, [], step) == st
  {
  }

  lemma ChoiceSteps<S>(st: S, step: (S, Input) -> S, c: Choice)
    ensures Fold(st, ChoiceInputs(c), step) ==
            Fold(Fold(step(step(st, ThinkingIn(c.reasoning)), TextIn(TextOrNone(c.content))), ToolInputs(c.tools), step),
                 FinishInputs(c.finish), step)
  {
    hide Fold, ToolInputs, FinishInputs;
    var first, second := ThinkingIn(c.reasoning), TextIn(TextOrNone(c.content));
    FoldOne(st, step, first);
    FoldSnoc(st, step, [first], second);
    FoldConcat(st, step, [first] + [second], ToolInputs(c.tools));
    FoldConcat(st, step, [first] + [second] + ToolInputs(c.tools), FinishInputs(c.finish));
    assert [first, second] == [first] + [second];
  }

  lemma FinishStep<S>(st: S, step: (S, Input) -> S, finish: Option<string>)
    ensures Fold(st, FinishInputs(finish), step) == if finish.Some? then step(st, FinishIn(finish.value)) else st
  {
    hide Fold;
    FoldNone(st, step);
    if finish.Some? {
      FoldOne(st, step, FinishIn(finish.value));
    }
  }

  lemma ChunkSteps<S>(st: S, step: (S, Input) -> S, c: Chunk)
    ensures Fold(st, ChunkInputs(c), step) ==
            var after := Fold(step(st, Begin), ChoicesInputs(c.choices), step);
            if c.usage.Some? then step(after, UsageIn(c.usage.value)) else after
  {
    hide Fold, ChoicesInputs;
    FoldOne(st, step, Begin);
    FoldConcat(st, step, [Begin], ChoicesInputs(c.choices));
    var ins := [Begin] + ChoicesInputs(c.choices);
    if c.usage.Some? {
      FoldSnoc(st, step, ins, UsageIn(c.usage.value));
    } else {
      assert ins + [] == ins;
    }
  }

  lemma NextTool<S>(st: S, step: (S, Input) -> S, tools: seq<ToolDelta>, n: nat)
    requires n < |tools|
    ensures Fold(st, ToolInputs(tools[..n + 1]), step) ==
            step(Fold(st, ToolInputs(tools[..n]), step), ToolInput(tools[n]))
  {
    assert ToolInputs(tools[..n + 1]) == ToolInputs(tools[..n]) + [ToolInput(tools[n])];
    hide Fold;
    FoldSnoc(st, step, ToolInputs(tools[..n]), ToolInput(tools[n]));
  }

  lemma WhenEmpty(content: Option<string>)
    ensures TextOrNone(content) == if content.Some? then content.value else ""
  {
  }

  lemma NoChoices<S>(st: S, step: (S, Input) -> S, cs: seq<Choice>)
    ensures Fold(st, ChoicesInputs(cs[..0]), step) == st
  {
  }

  lemma NextChoice<S>(st: S, step: (S, Input) -> S, cs: seq<Choice>, n: nat)
    requires n < |cs|
    ensures Fold(st, ChoicesInputs(cs[..n + 1]), step) ==
            Fold(Fold(st, ChoicesInputs(cs[..n]), step), ChoiceInputs(cs[n]), step)
  {
    assert cs[..n + 1][..n] == cs[..n];
    assert ChoicesInputs(cs[..n + 1]) == ChoicesInputs(cs[..n]) + ChoiceInputs(cs[n]);
    hide Fold, ChoicesInputs;
    FoldConcat(st, step, ChoicesInputs(cs[..n]), ChoiceInputs(cs[n]));
  }

  lemma NextPayload<S>(decode: Decoder, st: S, step: (S, Input) -> S, ps: seq<string>, p: string)
    ensures Fold(st, PayloadsInputs(decode, ps + [p]), step) ==
            match decode(p)
            case Some(c) => Fold(Fold(st, PayloadsInputs(decode, ps), step), ChunkInputs(c), step)
            case None => Fold(st, PayloadsInputs(decode, ps), step)
  {
    assert (ps + [p])[..|ps|] == ps;
    assert PayloadsInputs(decode, ps + [p]) == PayloadsInputs(decode, ps) + PayloadInputs(decode, p);
    hide Fold, PayloadsInputs, ChunkInputs;
    FoldConcat(st, step, PayloadsInputs(decode, ps), PayloadInputs(decode, p));
    assert PayloadsInputs(decode, ps) + [] == PayloadsInputs(decode, ps);
  }

  /** The state after the first `n` lines of a frame. */
  ghost function AfterLines<S>(decode: Decoder, st: S, step: (S, Input) -> S, lines: seq<string>, n: nat): S
    requires n <= |lines|
  {
    Fold(st, PayloadsInputs(decode, Payloads(lines[..n])), step)
  }

  lemma NextLine<S>(decode: Decoder, st: S, step: (S, Input) -> S, lines: seq<string>, n: nat)
    requires n < |lines|
    ensures SawPing(lines[..n + 1]) == (SawPing(lines[..n]) || IsComment(lines[n]))
    ensures AfterLines(decode, st, step, lines, n + 1) ==
            if HasPayload(lines[n]) && decode(lines[n][6..]).Some?
            then Fold(AfterLines(decode, st, step, lines, n), ChunkInputs(decode(lines[n][6..]).value), step)
            else AfterLines(decode, st, step, lines, n)
  {
    hide IsComment, Payloads, SawPing, Fold, PayloadsInputs, ChunkInputs;
    PayloadsSnoc(lines, n);
    assert Payloads(lines[..n]) + [] == Payloads(lines[..n]);
    if HasPayload(lines[n]) {
      NextPayload(decode, st, step, Payloads(lines[..n]), lines[n][6..]);
    }
  }

  lemma FirstLine<S>(decode: Decoder, st: S, step: (S, Input) -> S, lines: seq<string>)
    ensures AfterLines(decode, st, step, lines, 0) == st && !SawPing(lines[..0])
  {
  }

  lemma FrameSteps<S>(decode: Decoder, st: S, step: (S, Input) -> S, frame: string)
    ensures var lines := Lines(frame);
            Fold(st, FrameInputs(decode, frame), step) ==
            if SawPing(lines) then step(AfterLines(decode, st, step, lines, |lines|), PingIn)
            else AfterLines(decode, st, step, lines, |lines|)
  {
    hide Fold, Lines, SawPing, PayloadsInputs, Payloads;
    var lines := Lines(frame);
    assert lines[..|lines|] == lines;
    var ins := PayloadsInputs(decode, Payloads(lines));
    assert ins + [] == ins;
    FoldSnoc(st, step, ins, PingIn);
  }

  lemma NextFrame<S>(decode: Decoder, st: S, step: (S, Input) -> S, done: seq<string>, frame: string)
    ensures Fold(st, FramesInputs(decode, done + [frame]), step) ==
            Fold(Fold(st, FramesInputs(decode, done), step), FrameInputs(decode, frame), step)
  {
    assert (done + [frame])[..|done|] == done;
    assert FramesInputs(decode, done + [frame]) == FramesInputs(decode, done) + FrameInputs(decode, frame);
    hide Fold, FrameInputs, FramesInputs;
    FoldConcat(st, step, FramesInputs(decode, done), FrameInputs(decode, frame));
  }

  /** `done` are the frames read off `all` so far, and `s` is what is left of it. */
  ghost predicate Reading(all: string, done: seq<string>, s: string) {
    Frames(all) == Framing(done + Frames(s).frames, Frames(s).pending)
  }

  lemma NothingRead<S>(decode: Decoder, st: S, step: (S, Input) -> S, s: string)
    ensures Reading(s, [], s) && Fold(st, FramesInputs(decode, []), step) == st
  {
    hide Frames;
    assert [] + Frames(s).frames == Frames(s).frames;
  }

  lemma ReadsOn<S>(decode: Decoder, st: S, step: (S, Input) -> S, all: string, done: seq<string>, s: string)
    requires Reading(all, done, s)
    ensures var i := Index(s, Gap());
            if i < 0 then
              Frames(all).pending == s && StreamInputs(decode, all) == FramesInputs(decode, done)
            else
              && i + 2 <= |s|
              && Reading(all, done + [s[..i]], s[i + 2..])
              && Fold(st, FramesInputs(decode, done + [s[..i]]), step) ==
                 Fold(Fold(st, FramesInputs(decode, done), step), FrameInputs(decode, s[..i]), step)
  {
    hide Frames, FramesInputs, FrameInputs, Fold, Index, Gap, At;
    var i := Index(s, Gap());
    if i < 0 {
      FramesNone(s);
      assert done + [] == done;
    } else {
      FramesOne(s, i, "");
      NextFrame(decode, st, step, done, s[..i]);
      assert done + ([s[..i]] + Frames(s[i + 2..]).frames) == done + [s[..i]] + Frames(s[i + 2..]).frames;
    }
  }

  /** The text in the inputs, end to end. */
  function InputText(inputs: seq<Input>): string {
    if inputs == [] then ""
    else
      var n := |inputs| - 1;
      InputText(inputs[..n]) + if inputs[n].TextIn? then inputs[n].text else ""
  }

  /**
   What a chunk of one choice comes to: the start, its thinking, its text, the tool deltas in order, its
   finish reason and the usage.
   */
  lemma OneChoiceInputs(reasoning: string, content: string, tools: seq<ToolDelta>, finish: Option<string>,
                        usage: Option<Usage>)
    ensures ChunkInputs(Chunk([Choice(reasoning, Some(content), tools, finish)], usage)) ==
            [Begin, ThinkingIn(reasoning), TextIn(content)]
            + seq(|tools|, i requires 0 <= i < |tools| => ToolIn(tools[i].idx, tools[i].id, tools[i].name, tools[i].args))
            + (if finish.Some? then [FinishIn(finish.value)] else [])
            + (if usage.Some? then [UsageIn(usage.value)] else [])
  {
    var one := [Choice(reasoning, Some(content), tools, finish)];
    assert one[..0] == [] && ChoicesInputs(one) == [] + ChoiceInputs(one[0]);
  }

  // ----- bytes arriving in pieces -----

  lemma NoPieces<S>(decode: Decoder, st: S, step: (S, Input) -> S, pieces: seq<string>)
    ensures Fold(st, StreamInputs(decode, Concat(pieces[..0])), step) == st && Frames(Concat(pieces[..0])).pending == ""
  {
  }

  /** Taking in the next piece behind what was pending is taking in all the bytes so far. */
  lemma NextPiece<S>(decode: Decoder, st: S, step: (S, Input) -> S, pieces: seq<string>, n: nat)
    requires n < |pieces|
    ensures var before := Concat(pieces[..n]);
            var rest := Frames(before).pending + pieces[n];
            && Fold(st, StreamInputs(decode, Concat(pieces[..n + 1])), step) ==
               Fold(Fold(st, StreamInputs(decode, before), step), StreamInputs(decode, rest), step)
            && Frames(Concat(pieces[..n + 1])).pending == Frames(rest).pending
  {
    hide Concat, Fold, StreamInputs, Frames;
    assert pieces[..n + 1] == pieces[..n] + [pieces[n]];
    ConcatSnoc(pieces[..n], pieces[n]);
    var before := Concat(pieces[..n]);
    InputsResume(decode, before, pieces[n]);
    FoldConcat(st, step, StreamInputs(decode, before), StreamInputs(decode, Frames(before).pending + pieces[n]));
  }
}
