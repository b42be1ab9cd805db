/**
 From the chat handler's stream to an Anthropic client: what `internal/server/chat.go` writes, read
 back by the translator in `internal/server/messages.go`. Whatever is interleaved, the client receives
 the content, the thoughts and the tool calls.
 */
module ChatToClients {
  import opened Options
  import opened GoStrings
  import opened SseFrames
  import opened Upstream
  import opened ChatWrites
  import Anthropic = AnthropicEvents

  /** The JSON encoder and decoder for chunks. */
  datatype ChunkCodec = ChunkCodec(encode: Chunk -> string, decode: Decoder)

  ghost predicate Lawful(k: ChunkCodec) {
    forall c :: k.decode(k.encode(c)) == Some(c) && '\n' !in k.encode(c) && k.encode(c) != "[DONE]"
  }

  function Delta(reasoning: string, content: Option<string>, tools: seq<ToolDelta>, finish: Option<string>): Chunk {
    Chunk([Choice(reasoning, content, tools, finish)], None)
  }

  /** Usage that is not known is written as null, and null is read as zeros. */
  function Reported(usage: Option<Usage>): Usage {
    if usage.Some? then usage.value else NoUsage
  }

  function ChunkOf(e: Emission): Chunk
    requires !e.KeepAlive? && !e.DoneMark?
  {
    match e
    case Role => Delta("", Some(""), [], None)
    case Content(text) => Delta("", Some(text), [], None)
    case Thought(text) => Delta(text, None, [], None)
    case Call(idx, id, name, args) => Delta("", None, [ToolDelta(idx, id, name, args)], None)
    case Ended(reason, usage) => Delta("", None, [], Some(reason)).(usage := Some(Reported(usage)))
    case UsageOnly(usage) => Chunk([], Some(Reported(usage)))
  }

  function FrameOf(k: ChunkCodec, e: Emission): string {
    match e
    case KeepAlive => ": ping"
    case DoneMark => DataFrame("[DONE]")
    case _ => DataFrame(k.encode(ChunkOf(e)))
  }

  function FramesOf(k: ChunkCodec, es: seq<Emission>): seq<string> {
    seq(|es|, i requires 0 <= i < |es| => FrameOf(k, es[i]))
  }

  function EmissionInputs(e: Emission): seq<Input> {
    match e
    case KeepAlive => [PingIn]
    case DoneMark => []
    case _ => ChunkInputs(ChunkOf(e))
  }

  function InputsOf(es: seq<Emission>): seq<Input> {
    if es == [] then [] else InputsOf(es[..|es| - 1]) + EmissionInputs(es[|es| - 1])
  }

  // ----- the bytes are read back -----

  lemma EmissionIsRead(k: ChunkCodec, e: Emission)
    requires Lawful(k)
    ensures IsFrame(FrameOf(k, e)) && FrameInputs(k.decode, FrameOf(k, e)) == EmissionInputs(e)
  {
    PingFrameIsRead();
    DoneFrameIsRead();
    hide IsFrame, Lines, Payloads, SawPing, DataFrame, ChunkInputs;
    if !e.KeepAlive? && !e.DoneMark? {
      var p := k.encode(ChunkOf(e));
      OneDataLine(p);
      OneFrame(k.decode, FrameOf(k, e), p);
    }
  }

  lemma {:induction false} EmissionsAreRead(k: ChunkCodec, es: seq<Emission>)
    requires Lawful(k)
    ensures FramesInputs(k.decode, FramesOf(k, es)) == InputsOf(es)
  {
    hide FrameInputs, EmissionInputs, FrameOf, Lawful;
    if es != [] {
      var n := |es| - 1;
      EmissionsAreRead(k, es[..n]);
      EmissionIsRead(k, es[n]);
      assert FramesOf(k, es)[..n] == FramesOf(k, es[..n]);
    }
  }

  lemma BytesAreRead(k: ChunkCodec, es: seq<Emission>)
    requires Lawful(k)
    ensures StreamInputs(k.decode, Wire(FramesOf(k, es))) == InputsOf(es)
  {
    var fs := FramesOf(k, es);
    forall f | f in fs
      ensures IsFrame(f)
    {
      var i :| 0 <= i < |es| && f == FrameOf(k, es[i]);
      EmissionIsRead(k, es[i]);
    }
    hide IsFrame, Frames, Wire, FrameOf, FramesInputs, Index, Gap;
    NothingPending();
    FramesOfWire(fs, "");
    assert Wire(fs) + "" == Wire(fs);
    EmissionsAreRead(k, es);
  }

  lemma NothingPending()
    ensures Index("", Gap()) == -1
  {
  }

  // ----- what was meant -----

  function Indices(es: seq<Emission>): set<int> {
    set i | 0 <= i < |es| && es[i].Call? :: es[i].idx
  }

  /** What an Anthropic client should see of the calls, given the block each one got. */
  function CallPieces(es: seq<Emission>, blocks: map<int, nat>): seq<Anthropic.Piece> {
    if es == [] then []
    else
      var n := |es| - 1;
      CallPieces(es[..n], blocks) + PiecesOf(es[n], blocks)
  }

  function PiecesOf(e: Emission, blocks: map<int, nat>): seq<Anthropic.Piece> {
    match e
    case Call(idx, id, name, args) =>
      [Anthropic.Opened(Anthropic.BlockFor(blocks, idx), if id == "" then None else Some(id), name)]
      + if args == "" then [] else [Anthropic.Said(Anthropic.ToolChannel, Some(Anthropic.BlockFor(blocks, idx)), args)]
    case _ => []
  }

  predicate OfCall(p: Anthropic.Piece) {
    p.Opened? || p.channel == Anthropic.ToolChannel
  }

  function OnlyCalls(ps: seq<Anthropic.Piece>): seq<Anthropic.Piece> {
    if ps == [] then []
    else
      var n := |ps| - 1;
      OnlyCalls(ps[..n]) + if OfCall(ps[n]) then [ps[n]] else []
  }

  function OnlyText(ps: seq<Anthropic.Piece>): string {
    if ps == [] then ""
    else
      var n := |ps| - 1;
      OnlyText(ps[..n]) + if ps[n].Said? && ps[n].channel == Anthropic.TextChannel then ps[n].text else ""
  }

  function OnlyThoughts(ps: seq<Anthropic.Piece>): string {
    if ps == [] then ""
    else
      var n := |ps| - 1;
      OnlyThoughts(ps[..n]) + if ps[n].Said? && ps[n].channel == Anthropic.ThinkingChannel then ps[n].text else ""
  }

  lemma {:induction false} OnlyConcat(a: seq<Anthropic.Piece>, b: seq<Anthropic.Piece>)
    ensures OnlyCalls(a + b) == OnlyCalls(a) + OnlyCalls(b)
    ensures OnlyText(a + b) == OnlyText(a) + OnlyText(b)
    ensures OnlyThoughts(a + b) == OnlyThoughts(a) + OnlyThoughts(b)
  {
    hide OnlyCalls, OnlyText, OnlyThoughts, OfCall;
    OnlyNone();
    if b == [] {
      assert a + b == a;
    } else {
      var front, p := b[..|b| - 1], b[|b| - 1];
      OnlyConcat(a, front);
      OnlySnoc(a + front, p);
      OnlySnoc(front, p);
      assert a + b == a + front + [p] && b == front + [p];
    }
  }

  lemma OnlyNone()
    ensures OnlyCalls([]) == [] && OnlyText([]) == "" && OnlyThoughts([]) == ""
  {
  }

  lemma OnlySnoc(ps: seq<Anthropic.Piece>, p: Anthropic.Piece)
    ensures OnlyCalls(ps + [p]) == OnlyCalls(ps) + if OfCall(p) then [p] else []
    ensures OnlyText(ps + [p]) == OnlyText(ps) + if p.Said? && p.channel == Anthropic.TextChannel then p.text else ""
    ensures OnlyThoughts(ps + [p]) ==
            OnlyThoughts(ps) + if p.Said? && p.channel == Anthropic.ThinkingChannel then p.text else ""
  {
    assert (ps + [p])[..|ps|] == ps;
  }

  /** The inputs of one write, spelled out. */
  lemma InputsAre(e: Emission)
    ensures EmissionInputs(e) ==
            match e
            case Role => [Begin, ThinkingIn(""), TextIn("")]
            case Content(text) => [Begin, ThinkingIn(""), TextIn(text)]
            case Thought(text) => [Begin, ThinkingIn(text), TextIn("")]
            case Call(idx, id, name, args) => [Begin, ThinkingIn(""), TextIn(""), ToolIn(idx, id, name, args)]
            case Ended(reason, usage) =>
              [Begin, ThinkingIn(""), TextIn(""), FinishIn(reason), UsageIn(Reported(usage))]
            case UsageOnly(usage) => [Begin, UsageIn(Reported(usage))]
            case KeepAlive => [PingIn]
            case DoneMark => []
  {
    if !e.KeepAlive? && !e.DoneMark? && !e.UsageOnly? {
      var cs := ChunkOf(e).choices;
      assert cs[..0] == [] && ChoicesInputs(cs) == ChoicesInputs([]) + ChoiceInputs(cs[0]);
    }
  }

  // ----- an Anthropic client -----

  /** One input more. */
  lemma SentOneMore(inputs: seq<Input>, inp: Input, blocks: map<int, nat>)
    requires Anthropic.InOrder(inputs) && Anthropic.Contiguous(Anthropic.ContextAfter(inputs), inp)
    ensures Anthropic.InOrder(inputs + [inp])
    ensures Anthropic.ContextAfter(inputs + [inp]) == Anthropic.NextContext(Anthropic.ContextAfter(inputs), inp)
    ensures Anthropic.Sent(inputs + [inp], blocks) ==
            Anthropic.Sent(inputs, blocks) + Anthropic.Sends(Anthropic.ContextAfter(inputs), inp, blocks)
  {
    assert (inputs + [inp])[..|inputs|] == inputs;
  }

  /** The state of the upstream after some inputs, as far as it matters here. */
  ghost predicate Reached(inputs: seq<Input>, blocks: map<int, nat>, seen: set<int>, text: string, thought: string,
                          calls: seq<Anthropic.Piece>) {
    && Anthropic.InOrder(inputs) && Anthropic.ContextAfter(inputs).seen == seen
    && OnlyText(Anthropic.Sent(inputs, blocks)) == text && OnlyThoughts(Anthropic.Sent(inputs, blocks)) == thought
    && OnlyCalls(Anthropic.Sent(inputs, blocks)) == calls
  }

  lemma ReachNext(inputs: seq<Input>, blocks: map<int, nat>, seen: set<int>, text: string, thought: string,
                          calls: seq<Anthropic.Piece>, inp: Input)
    requires Reached(inputs, blocks, seen, text, thought, calls)
    requires inp.ToolIn? ==> inp.idx !in seen
    ensures Reached(inputs + [inp], blocks, if inp.ToolIn? then seen + {inp.idx} else seen,
                    text + (if inp.TextIn? then inp.text else ""),
                    thought + (if inp.ThinkingIn? then inp.text else ""),
                    calls + if inp.ToolIn? then PiecesOf(Call(inp.idx, inp.id, inp.name, inp.args), blocks) else [])
  {
    var ctx := Anthropic.ContextAfter(inputs);
    var sends := Anthropic.Sends(ctx, inp, blocks);
    SentOneMore(inputs, inp, blocks);
    OnlyConcat(Anthropic.Sent(inputs, blocks), sends);
    SendsOnly(ctx, inp, blocks);
  }

  lemma SendsOnly(ctx: Anthropic.Context, inp: Input, blocks: map<int, nat>)
    requires inp.ToolIn? ==> inp.idx !in ctx.seen
    ensures var sends := Anthropic.Sends(ctx, inp, blocks);
            && OnlyText(sends) == (if inp.TextIn? then inp.text else "")
            && OnlyThoughts(sends) == (if inp.ThinkingIn? then inp.text else "")
            && OnlyCalls(sends) == if inp.ToolIn? then PiecesOf(Call(inp.idx, inp.id, inp.name, inp.args), blocks) else []
  {
    hide OnlyCalls, OnlyText, OnlyThoughts, Anthropic.BlockFor;
    OnlyNone();
    var sends := Anthropic.Sends(ctx, inp, blocks);
    if |sends| > 0 {
      var first := [sends[0]];
      OnlySnoc([], sends[0]);
      assert [] + [sends[0]] == first;
      if |sends| == 1 {
        assert sends == first;
      } else {
        OnlySnoc(first, sends[1]);
        assert sends == first + [sends[1]];
      }
    }
  }

  lemma ReachAll(inputs: seq<Input>, blocks: map<int, nat>, seen: set<int>, text: string, thought: string,
                          calls: seq<Anthropic.Piece>, e: Emission)
    requires Reached(inputs, blocks, seen, text, thought, calls)
    requires e.Call? ==> e.idx !in seen
    ensures Reached(inputs + EmissionInputs(e), blocks, if e.Call? then seen + {e.idx} else seen,
                    text + (if e.Content? then e.text else ""), thought + (if e.Thought? then e.text else ""),
                    calls + PiecesOf(e, blocks))
  {
    InputsAre(e);
    var ins := EmissionInputs(e);
    hide Reached, EmissionInputs;
    var text' := text + if e.Content? then e.text else "";
    var thought' := thought + if e.Thought? then e.text else "";
    assert inputs + [] == inputs && text + "" == text && thought + "" == thought && calls + [] == calls;
    if |ins| > 0 {
      ReachNext(inputs, blocks, seen, text, thought, calls, ins[0]);
      assert inputs + [ins[0]] == inputs + ins[..1];
      if |ins| > 1 {
        ReachNext(inputs + ins[..1], blocks, seen, text, thought, calls, ins[1]);
        assert inputs + ins[..1] + [ins[1]] == inputs + ins[..2];
      }
      if |ins| > 2 {
        ReachNext(inputs + ins[..2], blocks, seen, text, thought', calls, ins[2]);
        assert inputs + ins[..2] + [ins[2]] == inputs + ins[..3];
      }
      assert text' + "" == text' && thought' + "" == thought';
      if |ins| > 3 {
        ReachNext(inputs + ins[..3], blocks, seen, text', thought', calls, ins[3]);
        assert inputs + ins[..3] + [ins[3]] == inputs + ins[..4];
      }
      if |ins| > 4 {
        ReachNext(inputs + ins[..4], blocks, seen, text', thought', calls, ins[4]);
        assert inputs + ins[..4] + [ins[4]] == inputs + ins[..5];
      }
      assert ins[..|ins|] == ins;
    }
  }

  lemma {:induction false} ReachEnd(es: seq<Emission>, blocks: map<int, nat>)
    requires CallsAreDistinct(es)
    ensures Reached(InputsOf(es), blocks, Indices(es), ContentOf(es), ThoughtOf(es), CallPieces(es, blocks))
  {
    hide Reached, EmissionInputs, PiecesOf;
    if es == [] {
      ReachStart(blocks);
      assert Indices(es) == {};
    } else {
      var n := |es| - 1;
      ReachEnd(es[..n], blocks);
      LastIndex(es);
      ReachAll(InputsOf(es[..n]), blocks, Indices(es[..n]), ContentOf(es[..n]), ThoughtOf(es[..n]),
               CallPieces(es[..n], blocks), es[n]);
    }
  }

  lemma ReachStart(blocks: map<int, nat>)
    ensures Reached([], blocks, {}, "", "", [])
  {
  }

  lemma LastIndex(es: seq<Emission>)
    requires es != [] && CallsAreDistinct(es)
    ensures var n := |es| - 1;
            && (es[n].Call? ==> es[n].idx !in Indices(es[..n]))
            && Indices(es) == if es[n].Call? then Indices(es[..n]) + {es[n].idx} else Indices(es[..n])
  {
    var n := |es| - 1;
    forall k | k in Indices(es[..n])
      ensures k in Indices(es)
    {
      var i :| 0 <= i < n && es[..n][i].Call? && es[..n][i].idx == k;
      assert es[i].idx == k;
    }
  }

  /**
   Whatever the chat handler writes, in whatever interleaving: an Anthropic client reads a well-formed
   stream to its end, and in it exactly the content, and the calls in order, each in a block of its own.
   */
  lemma AnthropicClientReceives(k: ChunkCodec, es: seq<Emission>)
    requires Lawful(k) && CallsAreDistinct(es)
    ensures var fin := Anthropic.Finish(Anthropic.Run(StreamInputs(k.decode, Wire(FramesOf(k, es)))));
            && Anthropic.Scan(fin.log) == Some(Anthropic.Done)
            && OnlyText(Anthropic.Carried(fin.log)) == ContentOf(es)
            && OnlyThoughts(Anthropic.Carried(fin.log)) == ThoughtOf(es)
            && OnlyCalls(Anthropic.Carried(fin.log)) == CallPieces(es, fin.tools)
            && (forall i, j :: i in fin.tools && j in fin.tools && fin.tools[i] == fin.tools[j] ==> i == j)
            && fin.tools.Keys == Indices(es)
  {
    BytesAreRead(k, es);
    var ins := InputsOf(es);
    var fin := Anthropic.Finish(Anthropic.Run(ins));
    ReachEnd(es, fin.tools);
    hide Lawful, InputsOf, ContentOf, ThoughtOf, CallPieces, OnlyText, OnlyThoughts, OnlyCalls, Indices;
    hide Anthropic.Finish, Anthropic.Scan, Anthropic.Carried, Anthropic.Run;
    Anthropic.WellFormedIffInOrder(ins);
    Anthropic.NothingLostOrReordered(ins);
  }
}
