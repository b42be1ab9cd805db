/**
 The stream translator of `internal/server/messages.go`: upstream bytes in, Anthropic events
 out. Its methods change the fields the source changes; each is proved to do what the step
 functions of `AnthropicEvents` say, so their theorems hold of every run.
 */
module AnthropicTranslator {
  import opened Options
  import opened GoStrings
  import opened SseFrames
  import opened Upstream
  import opened AnthropicEvents

  lemma EmptyProse(st: State, kind: Kind)
    ensures EmitProse(st, kind, "") == st
    ensures forall text :: Apply(st, TextIn(text)) == EmitProse(st, TextBlock, text)
    ensures forall text :: Apply(st, ThinkingIn(text)) == EmitProse(st, ThinkingBlock, text)
  {
  }

  class Translator {
    const decode: Decoder

    var started: bool
    var stopped: bool
    var curType: Option<Channel>
    var blockIdx: nat
    var toolBufs: map<int, nat>
    var minted: nat
    var finalU: Usage
    var stopReason: string
    var pendingSSE: string
    /** The response writer. */
    var sent: seq<Event>

    ghost function View(): State
      reads this
    {
      State(started, stopped, curType, blockIdx, toolBufs, minted, finalU, stopReason, sent)
    }

    constructor (decode: Decoder)
      ensures this.decode == decode && View() == Initial && pendingSSE == ""
    {
      this.decode := decode;
      started, stopped, curType, blockIdx, toolBufs, minted := false, false, None, 0, map[], 0;
      finalU, stopReason, pendingSSE, sent := NoUsage, "", "", [];
    }

    method Send(e: Event)
      modifies this`sent
      ensures View() == Emit(old(View()), e)
    {
      sent := sent + [e];
    }

    method StartMessage()
      modifies this`started, this`toolBufs, this`stopReason, this`sent
      ensures View() == Start(old(View()))
    {
      if started {
        return;
      }
      started := true;
      toolBufs := map[];
      stopReason := "end_turn";
      Send(MessageStart);
    }

    method CloseCurrentBlock()
      modifies this`curType, this`blockIdx, this`sent
      ensures View() == CloseBlock(old(View()))
    {
      if curType == None {
        return;
      }
      Send(BlockStop(blockIdx));
      blockIdx := blockIdx + 1;
      curType := None;
    }

    method StartBlock(kind: Kind)
      modifies this`curType, this`blockIdx, this`sent
      ensures View() == OpenBlock(old(View()), kind)
    {
      CloseCurrentBlock();
      curType := Some(ChannelOf(kind));
      Send(BlockStart(blockIdx, kind));
    }

    /** `emitTextDelta` and `emitThinkingDelta`. */
    method EmitProseDelta(kind: Kind, text: string)
      modifies this`started, this`toolBufs, this`stopReason, this`curType, this`blockIdx, this`sent
      ensures View() == EmitProse(old(View()), kind, text) && (old(started) ==> started)
    {
      if text == "" {
        return;
      }
      StartMessage();
      if curType != Some(ChannelOf(kind)) {
        StartBlock(kind);
      }
      Send(Delta(blockIdx, ChannelOf(kind), text));
    }

    method EmitToolCallDelta(t: ToolDelta)
      modifies this`started, this`toolBufs, this`stopReason, this`curType, this`blockIdx, this`minted, this`sent
      ensures View() == Apply(old(View()), ToolInput(t)) && (old(started) ==> started)
    {
      StartMessage();
      if t.idx !in toolBufs {
        var useId := Given(t.id);
        if t.id == "" {
          useId := Minted(minted);
          minted := minted + 1;
        }
        StartBlock(ToolBlock(useId, t.name));
        toolBufs := toolBufs[t.idx := blockIdx];
      }
      if t.args != "" {
        Send(Delta(toolBufs[t.idx], ToolChannel, t.args));
      }
    }

    method EmitToolCalls(tools: seq<ToolDelta>)
      modifies this`started, this`toolBufs, this`stopReason, this`curType, this`blockIdx, this`minted, this`sent
      ensures View() == Fold(old(View()), ToolInputs(tools), Apply) && (old(started) ==> started)
    {
      for n := 0 to |tools|
        invariant View() == Fold(old(View()), ToolInputs(tools[..n]), Apply) && (old(started) ==> started)
      {
        hide *;
        NextTool(old(View()), Apply, tools, n);
        EmitToolCallDelta(tools[n]);
      }
      assert tools[..|tools|] == tools;
    }

    /** The start is only ever cleared by a new translator. */
    method ProcessChoice(c: Choice)
      requires started
      modifies this`started, this`toolBufs, this`stopReason, this`curType, this`blockIdx, this`minted, this`sent
      ensures started && View() == Fold(old(View()), ChoiceInputs(c), Apply)
    {
      hide *;
      ChoiceSteps(View(), Apply, c);
      EmptyProse(View(), ThinkingBlock);
      if c.reasoning != "" {
        EmitProseDelta(ThinkingBlock, c.reasoning);
      }
      EmptyProse(View(), TextBlock);
      WhenEmpty(c.content);
      if c.content.Some? && c.content.value != "" {
        EmitProseDelta(TextBlock, c.content.value);
      }
      EmitToolCalls(c.tools);
      NoteFinish(c.finish);
    }

    method NoteFinish(finish: Option<string>)
      requires started
      modifies this`stopReason
      ensures View() == Fold(old(View()), FinishInputs(finish), Apply)
    {
      FinishStep(View(), Apply, finish);
      if finish.Some? && StopFor(finish.value).Some? {
        stopReason := StopFor(finish.value).value;
      }
    }

    method ProcessChunk(c: Chunk)
      modifies this`started, this`toolBufs, this`stopReason, this`curType,
               this`blockIdx, this`minted, this`sent, this`finalU
      ensures View() == Fold(old(View()), ChunkInputs(c), Apply)
    {
      ChunkSteps(View(), Apply, c);
      StartMessage();
      ghost var v := View();
      assert v.started;
      hide *;
      for n := 0 to |c.choices|
        invariant started && View() == Fold(v, ChoicesInputs(c.choices[..n]), Apply)
      {
        NextChoice(v, Apply, c.choices, n);
        ProcessChoice(c.choices[n]);
      }
      assert c.choices[..|c.choices|] == c.choices;
      if c.usage.Some? {
        finalU := c.usage.value;
      }
    }

    /** One complete frame. */
    method ProcessFrame(frame: string)
      modifies this`started, this`toolBufs, this`stopReason, this`curType,
               this`blockIdx, this`minted, this`sent, this`finalU
      ensures View() == Fold(old(View()), FrameInputs(decode, frame), Apply)
    {
      hide *;
      FrameSteps(decode, View(), Apply, frame);
      var lines := Lines(frame);
      var sawPing := false;
      FirstLine(decode, View(), Apply, lines);
      for n := 0 to |lines|
        invariant View() == AfterLines(decode, old(View()), Apply, lines, n)
        invariant sawPing == SawPing(lines[..n])
      {
        NextLine(decode, old(View()), Apply, lines, n);
        if IsComment(lines[n]) {
          sawPing := true;
        }
        ProcessLine(lines[n]);
      }
      assert lines[..|lines|] == lines;
      if sawPing {
        Keepalive();
      }
    }

    method ProcessLine(line: string)
      modifies this`started, this`toolBufs, this`stopReason, this`curType,
               this`blockIdx, this`minted, this`sent, this`finalU
      ensures View() == if HasPayload(line) && decode(line[6..]).Some? then Fold(old(View()), ChunkInputs(decode(line[6..]).value), Apply)
                        else old(View())
    {
      hide Fold, ChunkInputs;
      if HasPayload(line) {
        var m := decode(line[6..]);
        if m.Some? {
          ProcessChunk(m.value);
        }
      }
    }

    method Keepalive()
      modifies this`sent
      ensures View() == Apply(old(View()), PingIn)
    {
      if started {
        Send(Ping);
      }
    }

    /** `feed`: every complete frame is handled, the rest waits. */
    method Feed(raw: string)
      modifies this
      ensures View() == Fold(old(View()), StreamInputs(decode, old(pendingSSE) + raw), Apply)
      ensures pendingSSE == Frames(old(pendingSSE) + raw).pending
    {
      hide *;
      var s := pendingSSE + raw;
      ghost var all := s;
      ghost var done: seq<string> := [];
      NothingRead(decode, View(), Apply, s);
      while true
        invariant View() == Fold(old(View()), FramesInputs(decode, done), Apply) && Reading(all, done, s)
        decreases |s|
      {
        ReadsOn(decode, old(View()), Apply, all, done, s);
        var idx := Index(s, Gap());
        if idx < 0 {
          break;
        }
        ProcessFrame(s[..idx]);
        done := done + [s[..idx]];
        s := s[idx + 2..];
      }
      Keep(s);
    }

    method Keep(rest: string)
      modifies this`pendingSSE
      ensures pendingSSE == rest && View() == old(View())
    {
      pendingSSE := rest;
    }

    function Written(): seq<Event>
      reads this
      ensures Written() == View().log
    {
      sent
    }

    method FinishStream()
      modifies this`started, this`toolBufs, this`stopReason, this`curType, this`blockIdx, this`stopped, this`sent
      ensures View() == Finish(old(View()))
    {
      if stopped {
        return;
      }
      stopped := true;
      StartMessage();
      CloseCurrentBlock();
      var cacheRead := if finalU.cached.Some? then finalU.cached.value else 0;
      Send(MessageDelta(stopReason, finalU.prompt, finalU.completion, finalU.cacheCreation, cacheRead));
      Send(MessageStop);
    }
  }

  /**
   A whole response: the pieces the upstream wrote, then the end. The events are those of the
   bytes taken together, so they do not depend on where the bytes were cut.
   */
  method TranslateAll(decode: Decoder, pieces: seq<string>) returns (events: seq<Event>)
    ensures events == Finish(Run(StreamInputs(decode, Concat(pieces)))).log
    ensures Scan(events) == if InOrder(StreamInputs(decode, Concat(pieces))) then Some(Done) else None
  {
    var t := new Translator(decode);
    hide *;
    NoPieces(decode, Initial, Apply, pieces);
    for n := 0 to |pieces|
      invariant t.decode == decode
      invariant t.View() == Fold(Initial, StreamInputs(decode, Concat(pieces[..n])), Apply)
      invariant t.pendingSSE == Frames(Concat(pieces[..n])).pending
    {
      NextPiece(decode, Initial, Apply, pieces, n);
      t.Feed(pieces[n]);
    }
    assert pieces[..|pieces|] == pieces;
    RunIsFold(StreamInputs(decode, Concat(pieces)));
    WellFormedIffInOrder(StreamInputs(decode, Concat(pieces)));
    t.FinishStream();
    events := t.Written();
  }
}
