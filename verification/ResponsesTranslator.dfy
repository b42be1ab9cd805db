/**
 The stream translator of `internal/server/responses.go`: upstream bytes in, Responses events out.
 Its methods are proved to do what the step functions of `ResponsesEvents` say.
 */
module ResponsesTranslator {
  import opened Options
  import opened GoStrings
  import opened SseFrames
  import opened Upstream
  import opened ResponsesEvents
  import opened ResponsesGrammar

  lemma TextSteps(st: Stream)
    ensures forall text :: ApplyInput(st, TextIn(text)) == PutText(st, text)
    ensures forall text :: ApplyInput(st, ThinkingIn(text)) == st
    ensures PutText(st, "") == st
  {
  }

  class Translator {
    const decode: Decoder

    var started: bool
    var stopped: bool
    var seqNo: nat
    var outputIdx: nat
    var msgItemOpen: bool
    var msgContentOpen: bool
    var accText: string
    var toolItems: map<int, Item>
    var finalU: Usage
    var status: string
    var pendingSSE: string
    /** The response writer. */
    var sent: seq<Sent>

    ghost function View(): Stream
      reads this
    {
      Stream(started, stopped, seqNo, outputIdx, msgItemOpen, msgContentOpen, accText, toolItems, finalU, status, sent)
    }

    constructor (decode: Decoder)
      ensures this.decode == decode && View() == Fresh && pendingSSE == ""
    {
      this.decode := decode;
      started, stopped, seqNo, outputIdx, msgItemOpen, msgContentOpen := false, false, 0, 0, false, false;
      accText, toolItems, finalU, status, pendingSSE, sent := "", map[], NoUsage, "", "", [];
    }

    method Send(b: Body)
      modifies this`seqNo, this`sent
      ensures View() == Put(old(View()), b)
    {
      sent := sent + [Sent(seqNo, b)];
      seqNo := seqNo + 1;
    }

    method Start()
      modifies this`started, this`toolItems, this`status, this`seqNo, this`sent
      ensures View() == StartResponse(old(View())) && started
    {
      if started {
        return;
      }
      started := true;
      toolItems := map[];
      status := "completed";
      Send(Created);
      Send(InProgress);
    }

    method EnsureMessageOpen()
      modifies this`msgItemOpen, this`msgContentOpen, this`seqNo, this`sent
      ensures View() == EnsureOpen(old(View()))
    {
      if msgItemOpen {
        return;
      }
      msgItemOpen := true;
      Send(MessageAdded(outputIdx));
      Send(PartAdded(outputIdx));
      msgContentOpen := true;
    }

    method EmitTextDelta(text: string)
      modifies this`msgItemOpen, this`msgContentOpen, this`accText, this`seqNo, this`sent
      ensures View() == PutText(old(View()), text)
    {
      if text == "" {
        return;
      }
      EnsureMessageOpen();
      accText := accText + text;
      Send(TextDelta(outputIdx, text));
    }

    method CloseMessageItem()
      modifies this`msgItemOpen, this`msgContentOpen, this`outputIdx, this`seqNo, this`sent
      ensures View() == CloseMessage(old(View()))
    {
      if !msgItemOpen {
        return;
      }
      if msgContentOpen {
        Send(TextDone(outputIdx, accText));
        Send(PartDone(outputIdx, accText));
        msgContentOpen := false;
      }
      Send(MessageDone(outputIdx, accText));
      outputIdx := outputIdx + 1;
      msgItemOpen := false;
    }

    method EmitToolCallDelta(t: ToolDelta)
      requires started
      modifies this`toolItems, this`msgItemOpen, this`msgContentOpen, this`outputIdx, this`seqNo, this`sent
      ensures View() == ApplyInput(old(View()), ToolInput(t))
    {
      var item := Item("", "", "", 0, false, false);
      if t.idx in toolItems {
        item := toolItems[t.idx];
      }
      if t.id != "" && item.callId == "" {
        item := item.(callId := t.id);
      }
      if t.name != "" && item.name == "" {
        item := item.(name := t.name);
      }
      assert item == Noted(ItemFor(View(), t.idx), t.id, t.name);
      OpenIfKnown(t.idx, item);
      AddArguments(t.idx, t.args);
    }

    method OpenIfKnown(idx: int, item: Item)
      requires started
      modifies this`toolItems, this`msgItemOpen, this`msgContentOpen, this`outputIdx, this`seqNo, this`sent
      ensures View() == OpenCall(old(View()), idx, item) && idx in toolItems
    {
      if !item.isOpen && item.callId != "" && item.name != "" {
        CloseMessageItem();
        toolItems := toolItems[idx := item.(isOpen := true, outputIdx := outputIdx)];
        Send(CallAdded(outputIdx, idx, item.callId, item.name));
      } else {
        toolItems := toolItems[idx := item];
      }
    }

    method AddArguments(idx: int, args: string)
      requires idx in toolItems
      modifies this`toolItems, this`seqNo, this`sent
      ensures View() == PutArgs(old(View()), idx, args)
    {
      var item := toolItems[idx];
      if args != "" && item.isOpen {
        toolItems := toolItems[idx := item.(args := item.args + args)];
        Send(ArgsDelta(item.outputIdx, idx, args));
      }
    }

    /** The items in an order of the map's choosing, which is returned. */
    method CloseToolItems() returns (ghost order: seq<int>)
      modifies this`toolItems, this`outputIdx, this`seqNo, this`sent
      ensures View() == CloseItems(old(View()), order)
      ensures forall k :: k in old(toolItems) ==> k in order
    {
      hide CloseItem;
      order := [];
      var todo := toolItems.Items;
      while todo != {}
        invariant View() == CloseItems(old(View()), order)
        invariant forall k :: k in old(toolItems) ==> k in order || (k, old(toolItems[k])) in todo
        decreases |todo|
      {
        var next :| next in todo;
        var k := next.0;
        assert (order + [k])[..|order|] == order;
        CloseToolItem(k);
        order := order + [k];
        todo := todo - {next};
      }
    }

    method CloseToolItem(k: int)
      modifies this`toolItems, this`outputIdx, this`seqNo, this`sent
      ensures View() == CloseItem(old(View()), k)
    {
      if k !in toolItems || !toolItems[k].isOpen || toolItems[k].closed {
        return;
      }
      var item := toolItems[k];
      toolItems := toolItems[k := item.(closed := true)];
      Send(ArgsDone(item.outputIdx, k, item.args));
      Send(CallDone(item.outputIdx, k, item.callId, item.name, item.args));
      if item.outputIdx >= outputIdx {
        outputIdx := item.outputIdx + 1;
      }
    }

    method EmitToolCalls(tools: seq<ToolDelta>)
      requires started
      modifies this`toolItems, this`msgItemOpen, this`msgContentOpen, this`outputIdx, this`seqNo, this`sent
      ensures View() == Fold(old(View()), ToolInputs(tools), ApplyInput)
    {
      for n := 0 to |tools|
        invariant View() == Fold(old(View()), ToolInputs(tools[..n]), ApplyInput)
      {
        hide *;
        NextTool(old(View()), ApplyInput, tools, n);
        EmitToolCallDelta(tools[n]);
      }
      assert tools[..|tools|] == tools;
    }

    method ProcessChoice(c: Choice)
      requires started
      modifies this`toolItems, this`msgItemOpen, this`msgContentOpen, this`outputIdx,
               this`seqNo, this`sent, this`accText, this`status
      ensures View() == Fold(old(View()), ChoiceInputs(c), ApplyInput)
    {
      hide *;
      ChoiceSteps(View(), ApplyInput, c);
      TextSteps(View());
      WhenEmpty(c.content);
      if c.content.Some? && c.content.value != "" {
        EmitTextDelta(c.content.value);
      }
      EmitToolCalls(c.tools);
      NoteFinish(c.finish);
    }

    method NoteFinish(finish: Option<string>)
      modifies this`status
      ensures View() == Fold(old(View()), FinishInputs(finish), ApplyInput)
    {
      FinishStep(View(), ApplyInput, finish);
      if finish.Some? {
        status := StatusFor(finish.value);
      }
    }

    method ProcessChunk(c: Chunk)
      modifies this`started, this`toolItems, this`msgItemOpen,
               this`msgContentOpen, this`outputIdx, this`seqNo, this`sent,
               this`accText, this`status, this`finalU
      ensures View() == Fold(old(View()), ChunkInputs(c), ApplyInput)
    {
      hide Fold, ChoicesInputs, StartResponse;
      ChunkSteps(View(), ApplyInput, c);
      Start();
      ProcessChoices(c.choices);
      if c.usage.Some? {
        finalU := c.usage.value;
      }
    }

    method ProcessChoices(cs: seq<Choice>)
      requires started
      modifies this`toolItems, this`msgItemOpen, this`msgContentOpen, this`outputIdx,
               this`seqNo, this`sent, this`accText, this`status
      ensures View() == Fold(old(View()), ChoicesInputs(cs), ApplyInput)
    {
      hide *;
      NoChoices(View(), ApplyInput, cs);
      for n := 0 to |cs|
        invariant View() == Fold(old(View()), ChoicesInputs(cs[..n]), ApplyInput)
      {
        NextChoice(old(View()), ApplyInput, cs, n);
        ProcessChoice(cs[n]);
      }
      assert cs[..|cs|] == cs;
    }

    /** One complete frame. */
    method ProcessFrame(frame: string)
      modifies this`started, this`toolItems, this`msgItemOpen,
               this`msgContentOpen, this`outputIdx, this`seqNo, this`sent,
               this`accText, this`status, this`finalU
      ensures View() == Fold(old(View()), FrameInputs(decode, frame), ApplyInput)
    {
      hide *;
      FrameSteps(decode, View(), ApplyInput, frame);
      var lines := Lines(frame);
      var sawPing := false;
      FirstLine(decode, View(), ApplyInput, lines);
      for n := 0 to |lines|
        invariant View() == AfterLines(decode, old(View()), ApplyInput, lines, n)
        invariant sawPing == SawPing(lines[..n])
      {
        NextLine(decode, old(View()), ApplyInput, lines, n);
        if IsComment(lines[n]) {
          sawPing := true;
        }
        ProcessLine(lines[n]);
      }
      assert lines[..|lines|] == lines;
      if sawPing {
        Heartbeat();
      }
    }

    method ProcessLine(line: string)
      modifies this`started, this`toolItems, this`msgItemOpen,
               this`msgContentOpen, this`outputIdx, this`seqNo, this`sent,
               this`accText, this`status, this`finalU
      ensures View() == if HasPayload(line) && decode(line[6..]).Some?
                        then Fold(old(View()), ChunkInputs(decode(line[6..]).value), ApplyInput)
                        else old(View())
    {
      hide Fold, ChunkInputs;
      if HasPayload(line) {
        var m := decode(line[6..]);
        if m.Some? {
          ProcessChunk(m.value);
        }
      }
    }

    method Heartbeat()
      modifies this`seqNo, this`sent
      ensures View() == ApplyInput(old(View()), PingIn)
    {
      if started {
        Send(KeepAlive);
      }
    }

    /** `feed`: every complete frame is handled, the rest waits. */
    method Feed(raw: string)
      modifies this
      ensures View() == Fold(old(View()), StreamInputs(decode, old(pendingSSE) + raw), ApplyInput)
      ensures pendingSSE == Frames(old(pendingSSE) + raw).pending
    {
      hide *;
      var s := pendingSSE + raw;
      ghost var all := s;
      ghost var done: seq<string> := [];
      NothingRead(decode, View(), ApplyInput, s);
      while true
        invariant View() == Fold(old(View()), FramesInputs(decode, done), ApplyInput) && Reading(all, done, s)
        decreases |s|
      {
        ReadsOn(decode, old(View()), ApplyInput, all, done, s);
        var idx := Index(s, Gap());
        if idx < 0 {
          break;
        }
        ProcessFrame(s[..idx]);
        done := done + [s[..idx]];
        s := s[idx + 2..];
      }
      Keep(s);
    }

    method Keep(rest: string)
      modifies this`pendingSSE
      ensures pendingSSE == rest && View() == old(View())
    {
      pendingSSE := rest;
    }

    method FinishStream() returns (ghost order: seq<int>)
      requires !stopped && (!started ==> toolItems == map[])
      modifies this`stopped, this`started, this`toolItems,
               this`msgItemOpen, this`msgContentOpen, this`outputIdx, this`status,
               this`seqNo, this`sent
      ensures View() == FinishWith(old(View()), order)
      ensures forall k :: k in old(toolItems) ==> k in order
    {
      stopped := true;
      Start();
      CloseMessageItem();
      assert toolItems == old(toolItems);
      order := CloseToolItems();
      Send(Completed(status, finalU.prompt, finalU.completion));
    }

    lemma Fields()
      ensures View().stopped == stopped && View().started == started && View().items == toolItems
    {
    }

    function Written(): seq<Sent>
      reads this
      ensures Written() == View().out
    {
      sent
    }
  }

  /**
   A whole response read from bytes in pieces. Wherever they were cut, the client receives the text and
   the known calls' arguments, nothing else, and can follow to the end by the lenient rules; by the
   strict ones exactly if no text was resumed behind a call, and with an output index for each item
   exactly if moreover nothing followed an opened call.
   */
  method TranslateAll(decode: Decoder, pieces: seq<string>) returns (events: seq<Sent>)
    ensures var ins := StreamInputs(decode, Concat(pieces));
            && Reads(Lenient, events) == Some(Complete)
            && Reads(Strict, events) == (if Resumed(ins) then None else Some(Complete))
            && Reads(Unique, events) == (if Resumed(ins) || Shared(ins) then None else Some(Complete))
            && TextOf(events) == InputText(ins)
            && (forall k: int :: ArgsOf(events, k) == SentCall(ins, k).args)
            && forall k: int :: ArgsOf(events, k) == ArgsGiven(ins, k) <==> !Early(ins, k)
  {
    var t := new Translator(decode);
    hide *;
    NoPieces(decode, Fresh, ApplyInput, pieces);
    for n := 0 to |pieces|
      invariant t.decode == decode
      invariant t.View() == Fold(Fresh, StreamInputs(decode, Concat(pieces[..n])), ApplyInput)
      invariant t.pendingSSE == Frames(Concat(pieces[..n])).pending
    {
      NextPiece(decode, Fresh, ApplyInput, pieces, n);
      t.Feed(pieces[n]);
    }
    assert pieces[..|pieces|] == pieces;
    var ins := StreamInputs(decode, Concat(pieces));
    RunIsFold(ins);
    StartOfStream(decode, Concat(pieces));
    t.Fields();
    ghost var order := t.FinishStream();
    StreamEndsWell(decode, Concat(pieces), order);
    events := t.Written();
  }
}
