/**
 The Anthropic event stream (`internal/server/messages.go`): what the translator emits for
 each upstream delta, the grammar a client expects of the whole stream, and why the one fits
 the other. `AnthropicTranslator` has the translator itself.
 */
module AnthropicEvents {
  import opened Options
  import opened Upstream

  datatype Channel = TextChannel | ThinkingChannel | ToolChannel
  /** The call's own id, or the n-th one made up for a call that came without. */
  datatype UseId = Given(id: string) | Minted(n: nat)
  datatype Kind = TextBlock | ThinkingBlock | ToolBlock(id: UseId, name: string)

  datatype Event =
    | MessageStart
    | BlockStart(index: nat, kind: Kind)
    | Delta(index: nat, channel: Channel, text: string)
    | BlockStop(index: nat)
    | MessageDelta(stopReason: string, input: int, output: int, cacheCreation: int, cacheRead: int)
    | MessageStop
    | Ping

  datatype State = State(started: bool, stopped: bool, cur: Option<Channel>, block: nat, tools: map<int, nat>,
                         minted: nat, usage: Usage, stopReason: string, log: seq<Event>)

  const Initial := State(false, false, None, 0, map[], 0, NoUsage, "", [])

  function ChannelOf(kind: Kind): Channel {
    match kind
    case TextBlock => TextChannel
    case ThinkingBlock => ThinkingChannel
    case ToolBlock(_, _) => ToolChannel
  }

  function StopFor(reason: string): Option<string> {
    if reason == "stop" then Some("end_turn")
    else if reason == "length" then Some("max_tokens")
    else if reason == "tool_calls" then Some("tool_use")
    else None
  }

  // ----- one step -----

  function Emit(st: State, e: Event): State {
    st.(log := st.log + [e])
  }

  function Start(st: State): State {
    if st.started then st
    else Emit(st.(started := true, tools := map[], stopReason := "end_turn"), MessageStart)
  }

  function CloseBlock(st: State): State {
    if st.cur == None then st else Emit(st, BlockStop(st.block)).(block := st.block + 1, cur := None)
  }

  function OpenBlock(st: State, kind: Kind): State {
    var closed := CloseBlock(st);
    Emit(closed.(cur := Some(ChannelOf(kind))), BlockStart(closed.block, kind))
  }

  function EmitProse(st: State, kind: Kind, text: string): State {
    if text == "" then st
    else
      var started := Start(st);
      var ready := if started.cur == Some(ChannelOf(kind)) then started else OpenBlock(started, kind);
      Emit(ready, Delta(ready.block, ChannelOf(kind), text))
  }

  function UseIdFor(id: string, minted: nat): UseId {
    if id == "" then Minted(minted) else Given(id)
  }

  function NewTool(st: State, idx: int, id: string, name: string): State {
    var ready := OpenBlock(st, ToolBlock(UseIdFor(id, st.minted), name));
    ready.(tools := st.tools[idx := ready.block], minted := st.minted + if id == "" then 1 else 0)
  }

  function EmitTool(st: State, idx: int, id: string, name: string, args: string): State {
    var started := Start(st);
    var ready := if idx in started.tools then started else NewTool(started, idx, id, name);
    if args == "" then ready else Emit(ready, Delta(ready.tools[idx], ToolChannel, args))
  }

  function SetStop(st: State, reason: string): State {
    st.(stopReason := match StopFor(reason) case Some(v) => v case None => st.stopReason)
  }

  function Apply(st: State, inp: Input): State {
    match inp
    case Begin => Start(st)
    case TextIn(text) => EmitProse(st, TextBlock, text)
    case ThinkingIn(text) => EmitProse(st, ThinkingBlock, text)
    case ToolIn(idx, id, name, args) => EmitTool(st, idx, id, name, args)
    case FinishIn(reason) => SetStop(Start(st), reason)
    case UsageIn(u) => st.(usage := u)
    case PingIn => if st.started then Emit(st, Ping) else st
  }

  function Run(inputs: seq<Input>): State {
    Fold(Initial, inputs, Apply)
  }

  lemma RunIsFold(inputs: seq<Input>)
    ensures Run(inputs) == Fold(Initial, inputs, Apply)
  {
  }

  function FinalDelta(st: State): Event {
    MessageDelta(st.stopReason, st.usage.prompt, st.usage.completion, st.usage.cacheCreation,
                 match st.usage.cached case Some(n) => n case None => 0)
  }

  function Finish(st: State): State {
    if st.stopped then st
    else
      var closed := CloseBlock(Start(st.(stopped := true)));
      Emit(Emit(closed, FinalDelta(closed)), MessageStop)
  }

  // ----- the grammar of an event stream -----

  datatype Phase = Before | Between(next: nat) | Inside(index: nat, channel: Channel) | Ending | Done

  /**
   One event read by a client: the message starts, blocks come one at a time and are numbered
   in order, a delta belongs to the block that is open, and the message ends once. Pings may
   come anywhere in between.
   */
  function Next(p: Phase, e: Event): Option<Phase> {
    match p
    case Before => if e == MessageStart then Some(Between(0)) else None
    case Between(n) =>
      (match e
       case BlockStart(i, kind) => if i == n then Some(Inside(i, ChannelOf(kind))) else None
       case MessageDelta(_, _, _, _, _) => Some(Ending)
       case Ping => Some(p)
       case _ => None)
    case Inside(n, ch) =>
      (match e
       case Delta(i, c, text) => if i == n && c == ch && text != "" then Some(p) else None
       case BlockStop(i) => if i == n then Some(Between(n + 1)) else None
       case Ping => Some(p)
       case _ => None)
    case Ending => if e == MessageStop then Some(Done) else None
    case Done => None
  }

  function Scan(log: seq<Event>): Option<Phase> {
    if log == [] then Some(Before)
    else match Scan(log[..|log| - 1]) case None => None case Some(p) => Next(p, log[|log| - 1])
  }

  lemma ScanSnoc(log: seq<Event>, e: Event)
    ensures Scan(log + [e]) == match Scan(log) case None => None case Some(p) => Next(p, e)
  {
    assert (log + [e])[..|log|] == log;
  }

  // ----- what the upstream may send -----

  /** The tool call whose block is open, and the calls seen so far. */
  datatype Context = Context(open: Option<int>, seen: set<int>)

  const NothingSent := Context(None, {})

  function NextContext(ctx: Context, inp: Input): Context {
    match inp
    case TextIn(text) => if text == "" then ctx else ctx.(open := None)
    case ThinkingIn(text) => if text == "" then ctx else ctx.(open := None)
    case ToolIn(idx, _, _, _) => if idx in ctx.seen then ctx else Context(Some(idx), ctx.seen + {idx})
    case _ => ctx
  }

  function ContextAfter(inputs: seq<Input>): Context {
    if inputs == [] then NothingSent else NextContext(ContextAfter(inputs[..|inputs| - 1]), inputs[|inputs| - 1])
  }

  /** Arguments of a call already begun come while its block is still the open one. */
  predicate Contiguous(ctx: Context, inp: Input) {
    inp.ToolIn? && inp.args != "" && inp.idx in ctx.seen ==> ctx.open == Some(inp.idx)
  }

  predicate InOrder(inputs: seq<Input>) {
    inputs != [] ==>
      && InOrder(inputs[..|inputs| - 1])
      && Contiguous(ContextAfter(inputs[..|inputs| - 1]), inputs[|inputs| - 1])
  }

  /** Calls sent whole, each under an index of its own, are in order: what `emitTool` does. */
  lemma {:induction false} WholeCallsAreInOrder(inputs: seq<Input>)
    requires forall i, j :: 0 <= i < j < |inputs| && inputs[i].ToolIn? && inputs[j].ToolIn? ==>
            inputs[i].idx != inputs[j].idx
    ensures InOrder(inputs)
    ensures forall k :: k in ContextAfter(inputs).seen ==>
            exists i :: 0 <= i < |inputs| && inputs[i].ToolIn? && inputs[i].idx == k
  {
    if inputs != [] {
      var n := |inputs| - 1;
      WholeCallsAreInOrder(inputs[..n]);
      forall k | k in ContextAfter(inputs).seen
        ensures exists i :: 0 <= i < |inputs| && inputs[i].ToolIn? && inputs[i].idx == k
      {
        if k in ContextAfter(inputs[..n]).seen {
          var i :| 0 <= i < n && inputs[..n][i].ToolIn? && inputs[..n][i].idx == k;
          assert inputs[i].idx == k;
        } else {
          assert inputs[n].idx == k;
        }
      }
    }
  }

  // ----- the emitted stream is well formed exactly when the upstream is in order -----

  function PhaseOf(st: State): Phase {
    if !st.started then Before
    else match st.cur case None => Between(st.block) case Some(ch) => Inside(st.block, ch)
  }

  /** What the translator remembers agrees with what the upstream has sent. */
  ghost predicate Linked(st: State, ctx: Context) {
    && !st.stopped
    && (!st.started ==> st.cur == None && st.block == 0 && st.tools == map[])
    && st.tools.Keys == ctx.seen
    && (forall i :: i in st.tools ==> st.tools[i] <= st.block)
    && (forall i :: i in st.tools && st.tools[i] == st.block ==> ctx.open == Some(i))
    && (ctx.open.Some? ==> ctx.open.value in st.tools && st.tools[ctx.open.value] == st.block)
    && (ctx.open.Some? <==> st.cur == Some(ToolChannel))
    && (forall i, j :: i in st.tools && j in st.tools && st.tools[i] == st.tools[j] ==> i == j)
  }

  /** The log so far is readable, and leaves a client where the translator is. */
  ghost predicate Readable(st: State) {
    Scan(st.log) == Some(PhaseOf(st))
  }

  lemma StartStep(st: State, ctx: Context)
    requires Linked(st, ctx)
    ensures Linked(Start(st), ctx) && Start(st).started
    ensures Readable(st) ==> Readable(Start(st))
    ensures Scan(st.log) == None ==> Scan(Start(st).log) == None
  {
    hide Scan;
    ScanSnoc(st.log, MessageStart);
  }

  lemma CloseStep(st: State)
    requires st.started
    ensures CloseBlock(st).started && CloseBlock(st).cur == None && CloseBlock(st).tools == st.tools
    ensures CloseBlock(st).block == if st.cur == None then st.block else st.block + 1
    ensures Readable(st) ==> Readable(CloseBlock(st))
    ensures Scan(st.log) == None ==> Scan(CloseBlock(st).log) == None
  {
    hide Scan;
    ScanSnoc(st.log, BlockStop(st.block));
  }

  lemma OpenStep(st: State, kind: Kind)
    requires st.started
    ensures OpenBlock(st, kind).started && OpenBlock(st, kind).cur == Some(ChannelOf(kind))
    ensures OpenBlock(st, kind).tools == st.tools
    ensures OpenBlock(st, kind).block == if st.cur == None then st.block else st.block + 1
    ensures Readable(st) ==> Readable(OpenBlock(st, kind))
    ensures Scan(st.log) == None ==> Scan(OpenBlock(st, kind).log) == None
  {
    CloseStep(st);
    hide Scan;
    var closed := CloseBlock(st);
    ScanSnoc(closed.log, BlockStart(closed.block, kind));
  }

  lemma DeltaStep(st: State, index: nat, ch: Channel, text: string)
    requires text != "" && st.started
    ensures Readable(st) && st.cur == Some(ch) && index == st.block ==> Readable(Emit(st, Delta(index, ch, text)))
    ensures Scan(st.log) == None || (Readable(st) && !(st.cur == Some(ch) && index == st.block)) ==>
              Scan(Emit(st, Delta(index, ch, text)).log) == None
  {
    hide Scan;
    ScanSnoc(st.log, Delta(index, ch, text));
  }

  lemma ProseStep(st: State, ctx: Context, kind: Kind, text: string)
    requires Linked(st, ctx) && !kind.ToolBlock?
    ensures Linked(EmitProse(st, kind, text), if text == "" then ctx else ctx.(open := None))
    ensures Readable(st) ==> Readable(EmitProse(st, kind, text))
    ensures Scan(st.log) == None ==> Scan(EmitProse(st, kind, text).log) == None
  {
    hide Scan;
    if text != "" {
      StartStep(st, ctx);
      var started := Start(st);
      OpenStep(started, kind);
      var ready := if started.cur == Some(ChannelOf(kind)) then started else OpenBlock(started, kind);
      DeltaStep(ready, ready.block, ChannelOf(kind), text);
    }
  }

  lemma NewToolStep(st: State, ctx: Context, idx: int, id: string, name: string)
    requires Linked(st, ctx) && st.started && idx !in st.tools
    ensures Linked(NewTool(st, idx, id, name), Context(Some(idx), ctx.seen + {idx}))
    ensures NewTool(st, idx, id, name).started
    ensures Readable(st) ==> Readable(NewTool(st, idx, id, name))
    ensures Scan(st.log) == None ==> Scan(NewTool(st, idx, id, name).log) == None
  {
    hide Scan;
    OpenStep(st, ToolBlock(UseIdFor(id, st.minted), name));
  }

  lemma ToolStep(st: State, ctx: Context, inp: Input)
    requires Linked(st, ctx) && inp.ToolIn?
    ensures Linked(Apply(st, inp), NextContext(ctx, inp))
    ensures Readable(st) && Contiguous(ctx, inp) ==> Readable(Apply(st, inp))
    ensures Scan(st.log) == None || (Readable(st) && !Contiguous(ctx, inp)) ==> Scan(Apply(st, inp).log) == None
  {
    hide Scan, Start, NewTool, Linked, Readable, Emit;
    var ToolIn(idx, id, name, args) := inp;
    StartStep(st, ctx);
    HeaderStep(Start(st), ctx, inp);
    ArgumentsStep(WithHeader(Start(st), inp), ctx, inp);
  }

  /** The call has its block. */
  function WithHeader(st: State, inp: Input): State
    requires inp.ToolIn?
  {
    if inp.idx in st.tools then st else NewTool(st, inp.idx, inp.id, inp.name)
  }

  lemma HeaderStep(st: State, ctx: Context, inp: Input)
    requires Linked(st, ctx) && st.started && inp.ToolIn?
    ensures inp.idx in WithHeader(st, inp).tools && WithHeader(st, inp).started
    ensures Linked(WithHeader(st, inp), NextContext(ctx, inp))
    ensures Readable(st) ==> Readable(WithHeader(st, inp))
    ensures Scan(st.log) == None ==> Scan(WithHeader(st, inp).log) == None
  {
    hide Scan, Readable;
    if inp.idx !in st.tools {
      NewToolStep(st, ctx, inp.idx, inp.id, inp.name);
    }
  }

  lemma ArgumentsStep(st: State, ctx: Context, inp: Input)
    requires Linked(st, NextContext(ctx, inp)) && st.started && inp.ToolIn? && inp.idx in st.tools
    ensures var after := if inp.args == "" then st else Emit(st, Delta(st.tools[inp.idx], ToolChannel, inp.args));
            && Linked(after, NextContext(ctx, inp))
            && (Readable(st) && Contiguous(ctx, inp) ==> Readable(after))
            && (Scan(st.log) == None || (Readable(st) && !Contiguous(ctx, inp)) ==> Scan(after.log) == None)
  {
    hide Scan;
    if inp.args != "" {
      DeltaStep(st, st.tools[inp.idx], ToolChannel, inp.args);
    }
  }

  lemma ApplyStep(st: State, ctx: Context, inp: Input)
    requires Linked(st, ctx)
    ensures Linked(Apply(st, inp), NextContext(ctx, inp))
    ensures Readable(st) && Contiguous(ctx, inp) ==> Readable(Apply(st, inp))
    ensures Scan(st.log) == None || (Readable(st) && !Contiguous(ctx, inp)) ==> Scan(Apply(st, inp).log) == None
  {
    hide Scan;
    match inp
    case Begin => StartStep(st, ctx);
    case TextIn(text) => ProseStep(st, ctx, TextBlock, text);
    case ThinkingIn(text) => ProseStep(st, ctx, ThinkingBlock, text);
    case ToolIn(_, _, _, _) => ToolStep(st, ctx, inp);
    case FinishIn(_) => StartStep(st, ctx);
    case UsageIn(_) =>
    case PingIn => ScanSnoc(st.log, Ping);
  }

  lemma {:induction false} RunStep(inputs: seq<Input>)
    ensures Linked(Run(inputs), ContextAfter(inputs))
    ensures if InOrder(inputs) then Readable(Run(inputs)) else Scan(Run(inputs).log) == None
  {
    if inputs != [] {
      var n := |inputs| - 1;
      RunStep(inputs[..n]);
      ApplyStep(Run(inputs[..n]), ContextAfter(inputs[..n]), inputs[n]);
    }
  }

  /** The whole stream is well formed if and only if the upstream kept each call together. */
  lemma WellFormedIffInOrder(inputs: seq<Input>)
    ensures Scan(Finish(Run(inputs)).log) == if InOrder(inputs) then Some(Done) else None
  {
    RunStep(inputs);
    var st := Run(inputs).(stopped := true);
    hide Scan, Run, InOrder;
    ScanSnoc(st.log, MessageStart);
    var started := Start(st);
    CloseStep(started);
    var closed := CloseBlock(started);
    hide CloseBlock, Start;
    ScanSnoc(closed.log, FinalDelta(closed));
    ScanSnoc(closed.log + [FinalDelta(closed)], MessageStop);
  }

  /** Every prefix is readable too: a client that follows along never meets a stray event. */
  lemma {:induction false} PrefixesScan(log: seq<Event>, n: nat)
    requires n <= |log| && Scan(log).Some?
    ensures Scan(log[..n]).Some?
  {
    if n < |log| {
      PrefixesScan(log[..|log| - 1], n);
      assert log[..|log| - 1][..n] == log[..n];
    } else {
      assert log[..n] == log;
    }
  }

  /** Two calls sent by turns, the second resuming the first, break the stream. */
  lemma InterleavedCallsBreakTheStream(id: string, name: string, args: string, tail: seq<Input>)
    requires args != ""
    ensures var inputs := [ToolIn(0, id, name, args), ToolIn(1, id, name, args), ToolIn(0, "", "", args)] + tail;
            Scan(Finish(Run(inputs)).log) == None
  {
    var a, b, c := ToolIn(0, id, name, args), ToolIn(1, id, name, args), ToolIn(0, "", "", args);
    assert [a, b, c][..2] == [a, b] && [a, b][..1] == [a] && [a][..0] == [];
    assert ContextAfter([a]) == Context(Some(0), {0});
    assert ContextAfter([a, b]) == Context(Some(1), {0, 1});
    assert !InOrder([a, b, c]);
    OutOfOrderStays([a, b, c], tail);
    WellFormedIffInOrder([a, b, c] + tail);
  }

  lemma {:induction false} OutOfOrderStays(a: seq<Input>, b: seq<Input>)
    requires !InOrder(a)
    ensures !InOrder(a + b)
  {
    if b == [] {
      assert a + b == a;
    } else {
      OutOfOrderStays(a, b[..|b| - 1]);
      assert (a + b)[..|a + b| - 1] == a + b[..|b| - 1];
    }
  }

  // ----- nothing is lost, added or reordered -----

  /** What a client collects: a call that begins, or text of a channel (for a call, of its block). */
  datatype Piece = Opened(block: nat, id: Option<string>, name: string) | Said(channel: Channel, owner: Option<nat>, text: string)

  function Carries(e: Event): seq<Piece> {
    match e
    case BlockStart(i, ToolBlock(id, name)) => [Opened(i, if id.Given? then Some(id.id) else None, name)]
    case Delta(i, ch, text) => [Said(ch, if ch == ToolChannel then Some(i) else None, text)]
    case _ => []
  }

  function Carried(log: seq<Event>): seq<Piece> {
    if log == [] then [] else Carried(log[..|log| - 1]) + Carries(log[|log| - 1])
  }

  lemma CarriedSnoc(log: seq<Event>, e: Event)
    ensures Carried(log + [e]) == Carried(log) + Carries(e)
  {
    assert (log + [e])[..|log|] == log;
  }

  function BlockFor(blocks: map<int, nat>, idx: int): nat {
    if idx in blocks then blocks[idx] else 0
  }

  /** The same pieces read off the upstream, given the block each call got. */
  function Sends(ctx: Context, inp: Input, blocks: map<int, nat>): seq<Piece> {
    match inp
    case TextIn(text) => if text == "" then [] else [Said(TextChannel, None, text)]
    case ThinkingIn(text) => if text == "" then [] else [Said(ThinkingChannel, None, text)]
    case ToolIn(idx, id, name, args) =>
      (if idx in ctx.seen then [] else [Opened(BlockFor(blocks, idx), if id == "" then None else Some(id), name)])
      + (if args == "" then [] else [Said(ToolChannel, Some(BlockFor(blocks, idx)), args)])
    case _ => []
  }

  function Sent(inputs: seq<Input>, blocks: map<int, nat>): seq<Piece> {
    if inputs == [] then []
    else
      var n := |inputs| - 1;
      Sent(inputs[..n], blocks) + Sends(ContextAfter(inputs[..n]), inputs[n], blocks)
  }

  lemma CloseCarries(st: State)
    ensures Carried(CloseBlock(st).log) == Carried(st.log)
  {
    CarriedSnoc(st.log, BlockStop(st.block));
  }

  lemma StartCarries(st: State)
    ensures Carried(Start(st).log) == Carried(st.log)
  {
    CarriedSnoc(st.log, MessageStart);
  }

  lemma OpenCarries(st: State, kind: Kind)
    ensures Carried(OpenBlock(st, kind).log) == Carried(st.log) + Carries(BlockStart(OpenBlock(st, kind).block, kind))
  {
    hide Carried;
    CloseCarries(st);
    var closed := CloseBlock(st);
    CarriedSnoc(closed.log, BlockStart(closed.block, kind));
  }

  lemma ProseCarries(st: State, kind: Kind, text: string)
    requires !kind.ToolBlock?
    ensures Carried(EmitProse(st, kind, text).log) ==
            Carried(st.log) + if text == "" then [] else [Said(ChannelOf(kind), None, text)]
    ensures EmitProse(st, kind, text).tools == if text == "" then st.tools else Start(st).tools
  {
    hide Carried;
    StartCarries(st);
    var started := Start(st);
    OpenCarries(started, kind);
    var ready := if started.cur == Some(ChannelOf(kind)) then started else OpenBlock(started, kind);
    CarriedSnoc(ready.log, Delta(ready.block, ChannelOf(kind), text));
  }

  lemma ToolCarries(st: State, ctx: Context, inp: Input)
    requires Linked(st, ctx) && inp.ToolIn?
    ensures Carried(Apply(st, inp).log) == Carried(st.log) + Sends(ctx, inp, Apply(st, inp).tools)
    ensures Apply(st, inp).tools == if inp.idx in st.tools then st.tools else st.tools[inp.idx := Apply(st, inp).block]
  {
    hide Carried;
    StartCarries(st);
    var started := Start(st);
    assert started.tools == st.tools;
    var ToolIn(idx, id, name, args) := inp;
    if idx !in st.tools {
      OpenCarries(started, ToolBlock(UseIdFor(id, started.minted), name));
    }
    var ready := if idx in started.tools then started else NewTool(started, idx, id, name);
    CarriedSnoc(ready.log, Delta(ready.tools[idx], ToolChannel, args));
  }

  lemma ApplyCarries(st: State, ctx: Context, inp: Input)
    requires Linked(st, ctx)
    ensures Carried(Apply(st, inp).log) == Carried(st.log) + Sends(ctx, inp, Apply(st, inp).tools)
    ensures forall i :: i in st.tools ==> i in Apply(st, inp).tools && Apply(st, inp).tools[i] == st.tools[i]
  {
    hide Carried;
    match inp
    case Begin => StartCarries(st);
    case TextIn(text) => ProseCarries(st, TextBlock, text);
    case ThinkingIn(text) => ProseCarries(st, ThinkingBlock, text);
    case ToolIn(_, _, _, _) => ToolCarries(st, ctx, inp);
    case FinishIn(_) => StartCarries(st);
    case UsageIn(_) =>
    case PingIn => CarriedSnoc(st.log, Ping);
  }

  /** What has been sent is not affected by blocks given to later calls. */
  lemma {:induction false} SentIsStable(inputs: seq<Input>, blocks: map<int, nat>, more: map<int, nat>)
    requires forall i :: i in ContextAfter(inputs).seen ==> i in blocks && i in more && blocks[i] == more[i]
    ensures Sent(inputs, blocks) == Sent(inputs, more)
  {
    if inputs != [] {
      SentIsStable(inputs[..|inputs| - 1], blocks, more);
    }
  }

  lemma {:induction false} RunCarries(inputs: seq<Input>)
    ensures Carried(Run(inputs).log) == Sent(inputs, Run(inputs).tools)
  {
    if inputs != [] {
      var n := |inputs| - 1;
      var before, ctx := Run(inputs[..n]), ContextAfter(inputs[..n]);
      RunCarries(inputs[..n]);
      RunStep(inputs[..n]);
      ApplyCarries(before, ctx, inputs[n]);
      SentIsStable(inputs[..n], before.tools, Run(inputs).tools);
    }
  }

  /**
   For every upstream, in order or not: the client receives exactly the non-empty texts, thoughts,
   call headers and argument fragments that were sent, in the order they were sent, each call's
   under a block number of its own.
   */
  lemma NothingLostOrReordered(inputs: seq<Input>)
    ensures var fin := Finish(Run(inputs));
            && Carried(fin.log) == Sent(inputs, fin.tools)
            && fin.tools.Keys == ContextAfter(inputs).seen
            && forall i, j :: i in fin.tools && j in fin.tools && fin.tools[i] == fin.tools[j] ==> i == j
  {
    RunCarries(inputs);
    RunStep(inputs);
    var st := Run(inputs).(stopped := true);
    hide Carried, Run, Sent;
    StartCarries(st);
    CloseCarries(Start(st));
    var closed := CloseBlock(Start(st));
    CarriedSnoc(closed.log, FinalDelta(closed));
    CarriedSnoc(closed.log + [FinalDelta(closed)], MessageStop);
  }

  // ----- keep-alives -----

  function Pings(log: seq<Event>): nat {
    if log == [] then 0 else Pings(log[..|log| - 1]) + if log[|log| - 1] == Ping then 1 else 0
  }

  lemma PingsSnoc(log: seq<Event>, e: Event)
    ensures Pings(log + [e]) == Pings(log) + if e == Ping then 1 else 0
  {
    assert (log + [e])[..|log|] == log;
  }

  lemma StartIsQuiet(st: State)
    ensures Pings(Start(st).log) == Pings(st.log)
  {
    hide Pings;
    PingsSnoc(st.log, MessageStart);
  }

  lemma OpenIsQuiet(st: State, kind: Kind)
    ensures Pings(OpenBlock(st, kind).log) == Pings(st.log)
  {
    hide Pings;
    PingsSnoc(st.log, BlockStop(st.block));
    PingsSnoc(CloseBlock(st).log, BlockStart(CloseBlock(st).block, kind));
  }

  lemma ProseIsQuiet(st: State, kind: Kind, text: string)
    ensures Pings(EmitProse(st, kind, text).log) == Pings(st.log)
  {
    hide Pings, OpenBlock;
    StartIsQuiet(st);
    OpenIsQuiet(Start(st), kind);
    var ready := if Start(st).cur == Some(ChannelOf(kind)) then Start(st) else OpenBlock(Start(st), kind);
    PingsSnoc(ready.log, Delta(ready.block, ChannelOf(kind), text));
  }

  lemma ToolIsQuiet(st: State, idx: int, id: string, name: string, args: string)
    ensures Pings(EmitTool(st, idx, id, name, args).log) == Pings(st.log)
  {
    hide Pings, OpenBlock;
    StartIsQuiet(st);
    var started := Start(st);
    OpenIsQuiet(started, ToolBlock(UseIdFor(id, started.minted), name));
    var ready := if idx in started.tools then started else NewTool(started, idx, id, name);
    PingsSnoc(ready.log, Delta(ready.tools[idx], ToolChannel, args));
  }

  lemma StepPings(st: State, inp: Input)
    ensures Pings(Apply(st, inp).log) == Pings(st.log) + if inp.PingIn? && st.started then 1 else 0
  {
    hide Pings, EmitProse, EmitTool, Start;
    match inp
    case Begin => StartIsQuiet(st);
    case TextIn(text) => ProseIsQuiet(st, TextBlock, text);
    case ThinkingIn(text) => ProseIsQuiet(st, ThinkingBlock, text);
    case ToolIn(idx, id, name, args) => ToolIsQuiet(st, idx, id, name, args);
    case FinishIn(_) => StartIsQuiet(st);
    case UsageIn(_) =>
    case PingIn => PingsSnoc(st.log, Ping);
  }

  /** The keep-alives that came once the message had started. */
  function PingsDue(inputs: seq<Input>): nat {
    if inputs == [] then 0
    else
      var n := |inputs| - 1;
      PingsDue(inputs[..n]) + if inputs[n].PingIn? && Run(inputs[..n]).started then 1 else 0
  }

  /** Every keep-alive that comes once the message has started is passed on, and no other is sent. */
  lemma {:induction false} PingsArePassedOn(inputs: seq<Input>)
    ensures Pings(Run(inputs).log) == PingsDue(inputs)
  {
    hide Apply;
    if inputs != [] {
      PingsArePassedOn(inputs[..|inputs| - 1]);
      StepPings(Run(inputs[..|inputs| - 1]), inputs[|inputs| - 1]);
    }
  }

  // ----- the end of the message -----

  /** The last finish reason the map knows, and the last usage. */
  function LastStop(inputs: seq<Input>): string {
    if inputs == [] then "end_turn"
    else
      var n := |inputs| - 1;
      if inputs[n].FinishIn? && StopFor(inputs[n].reason).Some? then StopFor(inputs[n].reason).value
      else LastStop(inputs[..n])
  }

  function LastUsage(inputs: seq<Input>): Usage {
    if inputs == [] then NoUsage
    else
      var n := |inputs| - 1;
      if inputs[n].UsageIn? then inputs[n].usage else LastUsage(inputs[..n])
  }

  lemma {:induction false} RunRemembers(inputs: seq<Input>)
    ensures var st := Run(inputs);
            !st.stopped && st.usage == LastUsage(inputs) && Start(st).stopReason == LastStop(inputs)
  {
    if inputs != [] {
      var n := |inputs| - 1;
      RunRemembers(inputs[..n]);
      StopAfterStep(Run(inputs[..n]), inputs[n]);
    }
  }

  lemma BlocksKeepTheEnd(st: State, kind: Kind)
    ensures var after := OpenBlock(st, kind);
            && after.started == st.started && after.stopped == st.stopped
            && after.usage == st.usage && after.stopReason == st.stopReason
  {
  }

  lemma ToolKeepsTheEnd(st: State, idx: int, id: string, name: string, args: string)
    ensures var after := EmitTool(st, idx, id, name, args); var s := Start(st);
            && after.started && after.stopped == st.stopped && after.usage == st.usage && after.stopReason == s.stopReason
  {
    BlocksKeepTheEnd(Start(st), ToolBlock(UseIdFor(id, Start(st).minted), name));
    hide OpenBlock;
  }

  lemma StopAfterStep(st: State, inp: Input)
    ensures var after := Apply(st, inp);
            && after.stopped == st.stopped
            && after.usage == (if inp.UsageIn? then inp.usage else st.usage)
            && Start(after).stopReason == (if inp.FinishIn? && StopFor(inp.reason).Some? then StopFor(inp.reason).value
                                           else Start(st).stopReason)
  {
    BlocksKeepTheEnd(Start(st), TextBlock);
    BlocksKeepTheEnd(Start(st), ThinkingBlock);
    hide OpenBlock, EmitTool, StopFor;
    if inp.ToolIn? {
      ToolKeepsTheEnd(st, inp.idx, inp.id, inp.name, inp.args);
    }
  }

  /** The message ends once, with the last stop reason and usage; finishing again adds nothing. */
  lemma FinishClosesTheMessage(inputs: seq<Input>)
    ensures var fin := Finish(Run(inputs)); var u := LastUsage(inputs);
            && |fin.log| >= 3 && fin.stopped && Finish(fin) == fin
            && fin.log[|fin.log| - 1] == MessageStop
            && fin.log[|fin.log| - 2] == MessageDelta(LastStop(inputs), u.prompt, u.completion, u.cacheCreation,
                                                      if u.cached.Some? then u.cached.value else 0)
  {
    RunRemembers(inputs);
    RunStep(inputs);
    StartedHasLog(inputs);
  }

  /**
   The reason the message ends with: "stop" is told as the end of the turn, "length" as the token
   limit and "tool_calls" as the use of a tool, whichever of them came last. Any other reason
   changes nothing, and without one of the three it is the end of the turn.
   */
  lemma {:induction false} StopReasonIs(inputs: seq<Input>, k: nat, reason: string, told: string)
    requires (reason, told) in {("stop", "end_turn"), ("length", "max_tokens"), ("tool_calls", "tool_use")}
    requires k < |inputs| && inputs[k] == FinishIn(reason)
    requires forall j :: k < j < |inputs| && inputs[j].FinishIn? ==>
               inputs[j].reason !in {"stop", "length", "tool_calls"}
    ensures LastStop(inputs) == told
  {
    var n := |inputs| - 1;
    if k < n {
      StopReasonIs(inputs[..n], k, reason, told);
    }
  }

  lemma {:induction false} WithoutReasonTheTurnEnds(inputs: seq<Input>)
    requires forall j :: 0 <= j < |inputs| && inputs[j].FinishIn? ==>
               inputs[j].reason !in {"stop", "length", "tool_calls"}
    ensures LastStop(inputs) == "end_turn"
  {
    if inputs != [] {
      WithoutReasonTheTurnEnds(inputs[..|inputs| - 1]);
    }
  }

  lemma {:induction false} StartedHasLog(inputs: seq<Input>)
    ensures Run(inputs).started ==> Run(inputs).log != []
  {
    if inputs != [] {
      StartedHasLog(inputs[..|inputs| - 1]);
      StartedStaysLogged(Run(inputs[..|inputs| - 1]), inputs[|inputs| - 1]);
    }
  }

  lemma StartedStaysLogged(st: State, inp: Input)
    requires st.started ==> st.log != []
    ensures Apply(st, inp).started ==> Apply(st, inp).log != []
  {
  }
}
