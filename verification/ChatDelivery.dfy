/**
 From the model to the clients: what a streamed chat comes to behind both translators, with the
 keep-alives of the handler's other goroutine anywhere among its writes.
 */
module ChatDelivery {
  import opened Options
  import opened SseFrames
  import opened Upstream
  import opened ToolBody
  import opened ChatWrites
  import opened ChatStream
  import opened ChatToClients
  import Sanitize = SanitizeText
  import Redactor = SanitizeStream
  import Anthropic = AnthropicEvents
  import Responses = ResponsesEvents
  import Grammar = ResponsesGrammar
  import ChatToResponses

  lemma ToldCalls(es: seq<Emission>, prose: string, thought: string, calls: seq<ToolCall>, id: IdText)
    requires Tells(NoPings(es), prose, thought, calls, id)
    ensures CallsOf(es) == Indexed(calls, id) && CallsAreDistinct(es)
    ensures Redactor.OnlyLiterals(prose) ==> ContentOf(es) == Sanitize.Text(prose)
    ensures Redactor.OnlyLiterals(thought) ==> ThoughtOf(es) == Sanitize.Text(thought)
  {
    hide CallsAreDistinct, Redactor.OnlyLiterals, Sanitize.Text;
    PingsSayNothing(es);
    PositionsAreDistinct(es);
  }

  /** Only the calls among the writes make pieces. */
  lemma {:induction false} PiecesOfCalls(es: seq<Emission>, blocks: map<int, nat>)
    ensures CallPieces(CallsOf(es), blocks) == CallPieces(es, blocks)
  {
    if es != [] {
      var n := |es| - 1;
      PiecesOfCalls(es[..n], blocks);
      if es[n].Call? {
        assert CallsOf(es)[..|CallsOf(es)| - 1] == CallsOf(es[..n]);
      } else {
        assert CallsOf(es) == CallsOf(es[..n]);
      }
    }
  }

  /**
   An Anthropic client reads a well-formed message to its end: the prose of the model's text and its
   thinking, redacted, and its calls in order, each in a block of its own.
   */
  lemma AnthropicClientIsTold(k: ChunkCodec, es: seq<Emission>, prose: string, thought: string, calls: seq<ToolCall>,
                              id: IdText)
    requires Lawful(k) && Tells(NoPings(es), prose, thought, calls, id)
    ensures var fin := Anthropic.Finish(Anthropic.Run(StreamInputs(k.decode, Wire(FramesOf(k, es)))));
            && Anthropic.Scan(fin.log) == Some(Anthropic.Done)
            && (Redactor.OnlyLiterals(prose) ==> OnlyText(Anthropic.Carried(fin.log)) == Sanitize.Text(prose))
            && (Redactor.OnlyLiterals(thought) ==> OnlyThoughts(Anthropic.Carried(fin.log)) == Sanitize.Text(thought))
            && OnlyCalls(Anthropic.Carried(fin.log)) == CallPieces(Indexed(calls, id), fin.tools)
            && forall i, j :: i in fin.tools && j in fin.tools && fin.tools[i] == fin.tools[j] ==> i == j
  {
    ToldCalls(es, prose, thought, calls, id);
    var fin := Anthropic.Finish(Anthropic.Run(StreamInputs(k.decode, Wire(FramesOf(k, es)))));
    PiecesOfCalls(es, fin.tools);
    hide *;
    AnthropicClientReceives(k, es);
  }

  /** A Responses client reads to the end too, and receives the prose and the arguments of every call. */
  lemma ResponsesClientIsTold(k: ChunkCodec, es: seq<Emission>, prose: string, thought: string, calls: seq<ToolCall>,
                              id: IdText,
                              order: seq<int>)
    requires Lawful(k) && Tells(NoPings(es), prose, thought, calls, id)
    requires var st := Responses.RunAll(StreamInputs(k.decode, Wire(FramesOf(k, es)))); forall i :: i in st.items ==>
            i in order
    ensures var out := Responses.FinishWith(Responses.RunAll(StreamInputs(k.decode, Wire(FramesOf(k, es)))), order).out;
            && Grammar.Reads(Grammar.Lenient, out) == Some(Grammar.Complete)
            && (Redactor.OnlyLiterals(prose) ==> Responses.TextOf(out) == Sanitize.Text(prose))
            && forall i :: 0 <= i < |calls| && id(calls[i].counter) != "" && calls[i].name != "" ==>
                 Responses.ArgsOf(out, i) == calls[i].argumentsJSON
  {
    ToldCalls(es, prose, thought, calls, id);
    ChatToResponses.ResponsesClientReceives(k, es, order);
    var out := Responses.FinishWith(Responses.RunAll(StreamInputs(k.decode, Wire(FramesOf(k, es)))), order).out;
    forall i | 0 <= i < |calls| && id(calls[i].counter) != "" && calls[i].name != ""
      ensures Responses.ArgsOf(out, i) == calls[i].argumentsJSON
    {
      var call := CallsOf(es)[i];
      CallIsAmong(es, i);
      var m :| 0 <= m < |es| && es[m] == call;
      assert ChatToResponses.CallWrite(es[m]);
    }
  }

  lemma {:induction false} CallIsAmong(es: seq<Emission>, i: nat)
    requires i < |CallsOf(es)|
    ensures CallsOf(es)[i].Call? && exists m :: 0 <= m < |es| && es[m] == CallsOf(es)[i]
  {
    var n := |es| - 1;
    if i < |CallsOf(es[..n])| {
      CallIsAmong(es[..n], i);
      var m :| 0 <= m < n && es[..n][m] == CallsOf(es[..n])[i];
      assert es[m] == CallsOf(es)[i];
    } else {
      assert es[n] == CallsOf(es)[i];
    }
  }
}
