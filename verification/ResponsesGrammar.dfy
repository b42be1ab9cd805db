/**
 What a Responses client checks as it reads the events (`internal/server/responses.go`), and which
 upstreams lead to a stream that passes. The translator keeps one message item and one text for the
 whole response, and an opened call does not take up its output index; the rules can be set so that
 the consequences show.
 */
module ResponsesGrammar {
  import opened Options
  import opened SseFrames
  import opened Upstream
  import opened ResponsesEvents

  /** `once`: an item is added once. `ownIndex`: every item added has an output index of its own. */
  datatype Rules = Rules(once: bool, ownIndex: bool)

  datatype Part = NoPart | PartOpen | TextClosed | PartClosed

  /** The message item; `text` is what the deltas under its id have carried. */
  datatype Message = NoMessage | OpenMessage(at: nat, part: Part, text: string) | DoneMessage(text: string)

  datatype Stage = Running | ArgsClosed | Over
  datatype Call = Call(at: nat, callId: string, name: string, args: string, stage: Stage)

  datatype Phase = Nothing | Greeted | Within(message: Message, calls: map<int, Call>) | Complete

  /** The output indices of the items added so far. */
  function Places(log: seq<Sent>): set<nat> {
    if log == [] then {}
    else
      var b := log[|log| - 1].body;
      Places(log[..|log| - 1]) + if b.MessageAdded? || b.CallAdded? then {b.at} else {}
  }

  predicate MayAdd(r: Rules, before: seq<Sent>, at: nat) {
    r.ownIndex ==> at !in Places(before)
  }

  /**
   One event read by a client. Two greetings come first. The message item is added, its part opens,
   text flows, and text, part and item are done in this order, each repeating what the deltas of the
   item carried; a call is added while no message is open, and arguments and item are done likewise.
   Every event of an item names the output index at which it was added, and a call's last event its
   id and name. The response completes when all items are done.
   */
  function Follow(r: Rules, p: Phase, before: seq<Sent>, b: Body): Option<Phase> {
    match p
    case Nothing => if b == Created then Some(Greeted) else None
    case Greeted => if b == InProgress then Some(Within(NoMessage, map[])) else None
    case Complete => None
    case Within(m, calls) =>
      if b == KeepAlive then Some(p)
      else if b.Completed? then
        if !m.OpenMessage? && forall k :: k in calls ==> calls[k].stage == Over then Some(Complete) else None
      else if b.CallAdded? || b.ArgsDelta? || b.ArgsDone? || b.CallDone? then
        (match FollowCall(r, m, calls, before, b) case None => None case Some(c) => Some(Within(m, c)))
      else
        (match FollowMessage(r, m, before, b) case None => None case Some(n) => Some(Within(n, calls)))
  }

  function FollowMessage(r: Rules, m: Message, before: seq<Sent>, b: Body): Option<Message> {
    match m
    case NoMessage =>
      if b.MessageAdded? && MayAdd(r, before, b.at) then Some(OpenMessage(b.at, NoPart, "")) else None
    case DoneMessage(text) =>
      if b.MessageAdded? && !r.once && MayAdd(r, before, b.at) then Some(OpenMessage(b.at, NoPart, text)) else None
    case OpenMessage(at, part, text) =>
      match b
      case PartAdded(i) => if i == at && part == NoPart then Some(OpenMessage(at, PartOpen, text)) else None
      case TextDelta(i, t) => if i == at && part ==
              PartOpen && t != "" then Some(OpenMessage(at, PartOpen, text + t)) else None
      case TextDone(i, t) => if i == at && part == PartOpen && t ==
              text then Some(OpenMessage(at, TextClosed, text)) else None
      case PartDone(i, t) => if i == at && part == TextClosed && t ==
              text then Some(OpenMessage(at, PartClosed, text)) else None
      case MessageDone(i, t) => if i == at && part == PartClosed && t == text then Some(DoneMessage(text)) else None
      case _ => None
  }

  function FollowCall(r: Rules, m: Message, calls: map<int, Call>, before: seq<Sent>, b: Body): Option<map<int, Call>> {
    match b
    case CallAdded(at, k, id, name) =>
      if m.OpenMessage? || k in calls || id == "" || name == "" || !MayAdd(r, before, at) then None
      else Some(calls[k := Call(at, id, name, "", Running)])
    case ArgsDelta(at, k, t) =>
      if k in calls && calls[k].at == at && calls[k].stage == Running && t != ""
      then Some(calls[k := calls[k].(args := calls[k].args + t)]) else None
    case ArgsDone(at, k, t) =>
      if k in calls && calls[k].at == at && calls[k].stage == Running && t == calls[k].args
      then Some(calls[k := calls[k].(stage := ArgsClosed)]) else None
    case CallDone(at, k, id, name, t) =>
      if k in calls && calls[k] == Call(at, id, name, t, ArgsClosed)
      then Some(calls[k := calls[k].(stage := Over)]) else None
    case _ => None
  }

  /** The events are numbered 0, 1, 2, … and the client can follow each. */
  function Reads(r: Rules, log: seq<Sent>): Option<Phase> {
    if log == [] then Some(Nothing)
    else
      var n := |log| - 1;
      match Reads(r, log[..n])
      case None => None
      case Some(p) => if log[n].number != n then None else Follow(r, p, log[..n], log[n].body)
  }

  lemma ReadsSnoc(r: Rules, log: seq<Sent>, b: Body)
    ensures Reads(r, log + [Sent(|log|, b)]) ==
            match Reads(r, log) case None => None case Some(p) => Follow(r, p, log, b)
    ensures Places(log + [Sent(|log|, b)]) == Places(log) + if b.MessageAdded? || b.CallAdded? then {b.at} else {}
  {
    assert (log + [Sent(|log|, b)])[..|log|] == log;
  }

  // ----- the translator and the client -----

  function CallOf(item: Item): Call {
    Call(item.outputIdx, item.callId, item.name, item.args, if item.closed then Over else Running)
  }

  function CallsOf(items: map<int, Item>): map<int, Call> {
    map k | k in items && items[k].isOpen :: CallOf(items[k])
  }

  function MessageOf(st: Stream): Message {
    if st.itemOpen then OpenMessage(st.outputIdx, PartOpen, st.accText)
    else if st.accText != "" then DoneMessage(st.accText)
    else NoMessage
  }

  function PhaseOf(st: Stream): Phase {
    if !st.started then Nothing else Within(MessageOf(st), CallsOf(st.items))
  }

  /** A client who follows the stream stands where the translator does. */
  ghost predicate Followed(r: Rules, st: Stream) {
    && st.seqNo == |st.out| && Reads(r, st.out) == Some(PhaseOf(st))
    && (st.itemOpen <==> st.partOpen)
    && (st.itemOpen ==> st.accText != "")
    && (!st.started ==> st.items == map[] && st.accText == "" && st.out == [])
    && (forall k :: k in st.items && (st.items[k].closed || st.items[k].args != "") ==> st.items[k].isOpen)
    && (forall k :: k in st.items && st.items[k].isOpen ==> st.items[k].callId != "" && st.items[k].name != "")
  }

  lemma CallsIn(items: map<int, Item>, k: int)
    ensures k in CallsOf(items) <==> k in items && items[k].isOpen
    ensures k in CallsOf(items) ==> CallsOf(items)[k] == CallOf(items[k])
  {
  }

  lemma CallReplaced(items: map<int, Item>, k: int, item: Item)
    ensures item.isOpen ==> CallsOf(items[k := item]) == CallsOf(items)[k := CallOf(item)]
    ensures !item.isOpen && (k in items ==> !items[k].isOpen) ==> CallsOf(items[k := item]) == CallsOf(items)
  {
  }

  lemma NoCalls()
    ensures CallsOf(map[]) == map[]
  {
  }

  lemma StartFollowed(r: Rules, st: Stream)
    requires Followed(r, st)
    ensures Followed(r, StartResponse(st)) && StartResponse(st).started
  {
    hide Reads, CallsOf, Places;
    if !st.started {
      NoCalls();
      ReadsOfNothing(r, st.out);
      var s := st.(started := true, items := map[], status := "completed");
      ReadsSnoc(r, s.out, Created);
      ReadsSnoc(r, Put(s, Created).out, InProgress);
    }
  }

  lemma ReadsOfNothing(r: Rules, log: seq<Sent>)
    requires log == []
    ensures Reads(r, log) == Some(Nothing) && Places(log) == {}
  {
  }

  /** The message item can be added where the translator stands. */
  predicate MayOpen(r: Rules, st: Stream) {
    (r.once ==> st.accText == "") && MayAdd(r, st.out, st.outputIdx)
  }

  lemma TextFollowed(r: Rules, st: Stream, text: string)
    requires Followed(r, st) && st.started && text != ""
    ensures if st.itemOpen || MayOpen(r, st) then Followed(r, PutText(st, text))
            else Reads(r, PutText(st, text).out) == None
  {
    hide Reads, CallsOf, Places;
    if !st.itemOpen {
      var added := Put(st.(itemOpen := true), MessageAdded(st.outputIdx));
      ReadsSnoc(r, st.out, MessageAdded(st.outputIdx));
      ReadsSnoc(r, added.out, PartAdded(st.outputIdx));
    }
    var s := EnsureOpen(st);
    ReadsSnoc(r, s.out, TextDelta(s.outputIdx, text));
  }

  lemma CloseFollowed(r: Rules, st: Stream)
    requires Followed(r, st) && st.started
    ensures Followed(r, CloseMessage(st)) && CloseMessage(st).started && !CloseMessage(st).itemOpen
    ensures CloseMessage(st).items == st.items && CloseMessage(st).accText == st.accText
    ensures Places(CloseMessage(st).out) == Places(st.out)
    ensures CloseMessage(st).outputIdx == st.outputIdx + if st.itemOpen then 1 else 0
  {
    hide Reads, CallsOf, Places;
    if st.itemOpen {
      ReadsSnoc(r, st.out, TextDone(st.outputIdx, st.accText));
      var s := Put(st, TextDone(st.outputIdx, st.accText));
      ReadsSnoc(r, s.out, PartDone(s.outputIdx, s.accText));
      var t := ClosePart(st);
      ReadsSnoc(r, t.out, MessageDone(t.outputIdx, t.accText));
    }
  }

  /** A call that becomes known is added where the translator then stands. */
  lemma CallFollowed(r: Rules, st: Stream, k: int, o: Item)
    requires Followed(r, st) && st.started && !st.itemOpen && (k in st.items ==> !st.items[k].isOpen)
    requires o.isOpen && !o.closed && o.args == "" && o.callId != "" && o.name != ""
    ensures var after := Put(st.(items := st.items[k := o]), CallAdded(o.outputIdx, k, o.callId, o.name));
            if MayAdd(r, st.out, o.outputIdx) then Followed(r, after) else Reads(r, after.out) == None
  {
    hide Reads, CallsOf, Places;
    CallsIn(st.items, k);
    CallReplaced(st.items, k, o);
    ReadsSnoc(r, st.out, CallAdded(o.outputIdx, k, o.callId, o.name));
  }

  /** The item a tool delta is noted in opens with it. */
  predicate OpensNow(item: Item) {
    !item.isOpen && item.callId != "" && item.name != ""
  }

  lemma OpenCallFollowed(r: Rules, st: Stream, k: int, id: string, name: string)
    requires Followed(r, st) && st.started
    ensures var item := Noted(ItemFor(st, k), id, name);
            var after := OpenCall(st, k, item);
            var closed := CloseMessage(st);
            if OpensNow(item) && !MayAdd(r, closed.out, closed.outputIdx) then Reads(r, after.out) == None
            else Followed(r, after) && after.started && k in after.items
  {
    hide Reads, CallsOf, Places;
    var item := Noted(ItemFor(st, k), id, name);
    if OpensNow(item) {
      CloseFollowed(r, st);
      var closed := CloseMessage(st);
      hide Followed, CloseMessage;
      CallHasNoArgs(r, st, k);
      CallFollowed(r, closed, k, item.(isOpen := true, outputIdx := closed.outputIdx));
    } else {
      CallReplaced(st.items, k, item);
      CallsIn(st.items, k);
      assert item.isOpen ==> CallsOf(st.items)[k := CallOf(item)] == CallsOf(st.items);
    }
  }

  lemma CallHasNoArgs(r: Rules, st: Stream, k: int)
    requires Followed(r, st)
    ensures !ItemFor(st, k).isOpen ==> ItemFor(st, k).args == "" && !ItemFor(st, k).closed
  {
  }

  lemma ArgsFollowed(r: Rules, st: Stream, k: int, args: string)
    requires Followed(r, st) && st.started && k in st.items && !st.items[k].closed
    ensures Followed(r, PutArgs(st, k, args))
  {
    hide Reads, CallsOf, Places;
    var item := st.items[k];
    if args != "" && item.isOpen {
      CallsIn(st.items, k);
      CallReplaced(st.items, k, item.(args := item.args + args));
      ReadsSnoc(r, st.out, ArgsDelta(item.outputIdx, k, args));
    }
  }

  lemma CloseItemFollowed(r: Rules, st: Stream, k: int)
    requires Followed(r, st) && st.started && !st.itemOpen
    ensures Followed(r, CloseItem(st, k)) && CloseItem(st, k).started && !CloseItem(st, k).itemOpen
  {
    hide Reads, CallsOf, Places, Followed;
    if k in st.items && st.items[k].isOpen && !st.items[k].closed {
      ItemCloseFollowed(r, st, k);
    }
  }

  lemma ItemCloseFollowed(r: Rules, st: Stream, k: int)
    requires Followed(r, st) && st.started && !st.itemOpen
    requires k in st.items && st.items[k].isOpen && !st.items[k].closed
    ensures Followed(r, CloseItem(st, k)) && CloseItem(st, k).started && !CloseItem(st, k).itemOpen
  {
    hide Reads, CallsOf, Places;
    var item := st.items[k];
    CallsIn(st.items, k);
    CallReplaced(st.items, k, item.(closed := true));
    var b, d := ArgsDone(item.outputIdx, k, item.args), CallDone(item.outputIdx, k, item.callId, item.name, item.args);
    ReadsSnoc(r, st.out, b);
    ReadsSnoc(r, st.out + [Sent(|st.out|, b)], d);
    CallsClosed(CallsOf(st.items), k);
  }

  lemma CallsClosed(calls: map<int, Call>, k: int)
    requires k in calls
    ensures calls[k := calls[k].(stage := ArgsClosed)][k := calls[k].(stage := Over)] ==
            calls[k := calls[k].(stage := Over)]
  {
  }

  lemma QuietFollowed(r: Rules, st: Stream, inp: Input)
    requires Followed(r, st) && (inp.PingIn? || inp.FinishIn? || inp.UsageIn? || inp.ThinkingIn?)
    ensures Followed(r, ApplyInput(st, inp))
  {
    hide Reads, CallsOf, Places;
    ReadsSnoc(r, st.out, KeepAlive);
  }

  // ----- output indices -----

  ghost predicate AnyOpen(items: map<int, Item>) {
    exists k :: k in items && items[k].isOpen
  }

  /** The current output index is taken exactly if a message is open or a call has been opened. */
  ghost predicate Placed(st: Stream) {
    && (forall a :: a in Places(st.out) ==> a <= st.outputIdx)
    && (st.outputIdx in Places(st.out) <==> st.itemOpen || AnyOpen(st.items))
    && !(st.itemOpen && AnyOpen(st.items))
  }

  lemma PlacesSnoc(log: seq<Sent>, n: nat, b: Body)
    ensures Places(log + [Sent(n, b)]) == Places(log) + if b.MessageAdded? || b.CallAdded? then {b.at} else {}
  {
    assert (log + [Sent(n, b)])[..|log|] == log;
  }

  lemma StartPlaced(st: Stream)
    requires Placed(st) && (!st.started ==> st.items == map[])
    ensures Placed(StartResponse(st))
  {
    hide Places;
    if !st.started {
      var s := st.(started := true, items := map[], status := "completed");
      PlacesSnoc(s.out, s.seqNo, Created);
      PlacesSnoc(Put(s, Created).out, Put(s, Created).seqNo, InProgress);
    }
  }

  lemma TextPlaced(st: Stream, text: string)
    requires Placed(st) && !AnyOpen(st.items)
    ensures Placed(PutText(st, text))
  {
    hide Places, AnyOpen;
    if text != "" {
      if !st.itemOpen {
        var added := Put(st.(itemOpen := true), MessageAdded(st.outputIdx));
        PlacesSnoc(st.out, st.seqNo, MessageAdded(st.outputIdx));
        PlacesSnoc(added.out, added.seqNo, PartAdded(st.outputIdx));
      }
      var s := EnsureOpen(st);
      PlacesSnoc(s.out, s.seqNo, TextDelta(s.outputIdx, text));
    }
  }

  lemma ClosePlaces(st: Stream)
    requires st.itemOpen == st.partOpen
    ensures Places(CloseMessage(st).out) == Places(st.out) && CloseMessage(st).items == st.items
    ensures CloseMessage(st).outputIdx == st.outputIdx + if st.itemOpen then 1 else 0
    ensures !CloseMessage(st).itemOpen
  {
    hide Places;
    if st.itemOpen {
      PlacesSnoc(st.out, st.seqNo, TextDone(st.outputIdx, st.accText));
      var s := Put(st, TextDone(st.outputIdx, st.accText));
      PlacesSnoc(s.out, s.seqNo, PartDone(s.outputIdx, s.accText));
      var t := ClosePart(st);
      PlacesSnoc(t.out, t.seqNo, MessageDone(t.outputIdx, t.accText));
    }
  }

  lemma CallPlaced(st: Stream, k: int, item: Item)
    requires Placed(st) && st.itemOpen == st.partOpen && !AnyOpen(st.items) && OpensNow(item)
    ensures Placed(OpenCall(st, k, item))
  {
    hide Places;
    ClosePlaces(st);
    var closed := CloseMessage(st);
    hide CloseMessage;
    PlacesSnoc(closed.out, closed.seqNo, CallAdded(closed.outputIdx, k, item.callId, item.name));
    assert OpenCall(st, k, item).items[k].isOpen;
  }

  lemma NotedPlaced(st: Stream, k: int, item: Item)
    requires Placed(st) && !OpensNow(item) && item.isOpen == ItemFor(st, k).isOpen
    ensures Placed(OpenCall(st, k, item))
  {
    var after := st.items[k := item];
    if AnyOpen(st.items) {
      var j :| j in st.items && st.items[j].isOpen;
      assert j in after && after[j].isOpen;
    }
  }

  lemma ArgsPlaced(st: Stream, k: int, args: string)
    requires Placed(st) && k in st.items
    ensures Placed(PutArgs(st, k, args))
  {
    hide Places;
    var item := st.items[k];
    if args != "" && item.isOpen {
      PlacesSnoc(st.out, st.seqNo, ArgsDelta(item.outputIdx, k, args));
      assert PutArgs(st, k, args).items[k].isOpen;
    }
  }

  lemma QuietPlaced(st: Stream, inp: Input)
    requires Placed(st) && (inp.PingIn? || inp.FinishIn? || inp.UsageIn? || inp.ThinkingIn?)
    ensures Placed(ApplyInput(st, inp))
  {
    hide Places;
    PlacesSnoc(st.out, st.seqNo, KeepAlive);
  }

  // ----- what the upstream may send -----

  /** No text arrives outside a chunk, as it does when an error body is shown instead of a stream. */
  predicate Headed(inputs: seq<Input>) {
    inputs != [] ==>
      var n := |inputs| - 1;
      Headed(inputs[..n]) && (inputs[n].TextIn? && inputs[n].text != "" ==> Begun(inputs[..n]))
  }

  predicate Speaks(inp: Input) {
    inp.TextIn? && inp.text != ""
  }

  /** With this input the id and the name of a call are known for the first time. */
  predicate Opens(inputs: seq<Input>, inp: Input) {
    inp.ToolIn? && Begun(inputs) && OpensNow(Noted(SentCall(inputs, inp.idx), inp.id, inp.name))
  }

  /** Text came last, and no call has been opened since. */
  predicate Speaking(inputs: seq<Input>) {
    inputs != [] &&
    var n := |inputs| - 1;
    Speaks(inputs[n]) || (Speaking(inputs[..n]) && !Opens(inputs[..n], inputs[n]))
  }

  /** A call has been opened. */
  predicate Called(inputs: seq<Input>) {
    inputs != [] &&
    var n := |inputs| - 1;
    Called(inputs[..n]) || Opens(inputs[..n], inputs[n])
  }

  /** Text goes on after a call interrupted it. */
  predicate Resumed(inputs: seq<Input>) {
    inputs != [] &&
    var n := |inputs| - 1;
    Resumed(inputs[..n]) || (Speaks(inputs[n]) && !Speaking(inputs[..n]) && InputText(inputs[..n]) != "")
  }

  /** Something follows an opened call: another call, or text. */
  predicate Shared(inputs: seq<Input>) {
    inputs != [] &&
    var n := |inputs| - 1;
    Shared(inputs[..n]) || (Called(inputs[..n]) && (Opens(inputs[..n], inputs[n]) || (Speaks(inputs[n]) && !Speaking(inputs[..n]))))
  }

  predicate Allowed(r: Rules, inputs: seq<Input>) {
    (r.once ==> !Resumed(inputs)) && (r.ownIndex ==> !Shared(inputs))
  }

  // ----- every upstream of chunks is headed -----

  lemma {:induction false} BeginHeads(rest: seq<Input>)
    ensures Headed([Begin] + rest) && Begun([Begin] + rest)
  {
    var all := [Begin] + rest;
    if rest == [] {
      assert all[..0] == [];
    } else {
      BeginHeads(rest[..|rest| - 1]);
      assert all[..|all| - 1] == [Begin] + rest[..|rest| - 1];
    }
  }

  lemma {:induction false} HeadedConcat(a: seq<Input>, b: seq<Input>)
    requires Headed(a) && Headed(b)
    ensures Headed(a + b) && (Begun(a) || Begun(b) ==> Begun(a + b))
  {
    if b == [] {
      assert a + b == a;
    } else {
      HeadedConcat(a, b[..|b| - 1]);
      assert (a + b)[..|a + b| - 1] == a + b[..|b| - 1];
    }
  }

  lemma {:induction false} PayloadsAreHeaded(decode: Decoder, ps: seq<string>)
    ensures Headed(PayloadsInputs(decode, ps))
  {
    hide Headed, ChunkInputs;
    if ps == [] {
      NothingIsHeaded();
    } else {
      var n := |ps| - 1;
      PayloadsAreHeaded(decode, ps[..n]);
      PayloadIsHeaded(decode, ps[n]);
      HeadedConcat(PayloadsInputs(decode, ps[..n]), PayloadInputs(decode, ps[n]));
    }
  }

  lemma NothingIsHeaded()
    ensures Headed([]) && Headed([PingIn])
  {
    var one := [PingIn];
    assert one[..0] == [];
  }

  lemma PayloadIsHeaded(decode: Decoder, p: string)
    ensures Headed(PayloadInputs(decode, p))
  {
    hide Headed, ChoicesInputs;
    NothingIsHeaded();
    if decode(p).Some? {
      var c := decode(p).value;
      var rest := ChoicesInputs(c.choices) + if c.usage.Some? then [UsageIn(c.usage.value)] else [];
      BeginHeads(rest);
      assert ChunkInputs(c) == [Begin] + rest;
    }
  }

  lemma {:induction false} FramesAreHeaded(decode: Decoder, frames: seq<string>)
    ensures Headed(FramesInputs(decode, frames))
  {
    hide Headed, PayloadsInputs;
    NothingIsHeaded();
    if frames != [] {
      var n := |frames| - 1;
      FramesAreHeaded(decode, frames[..n]);
      FrameIsHeaded(decode, frames[n]);
      hide FrameInputs;
      HeadedConcat(FramesInputs(decode, frames[..n]), FrameInputs(decode, frames[n]));
    }
  }

  lemma FrameIsHeaded(decode: Decoder, frame: string)
    ensures Headed(FrameInputs(decode, frame))
  {
    hide Headed, PayloadsInputs, Lines, SawPing;
    NothingIsHeaded();
    var ps := Payloads(Lines(frame));
    PayloadsAreHeaded(decode, ps);
    HeadedConcat(PayloadsInputs(decode, ps), [PingIn]);
    HeadedConcat(PayloadsInputs(decode, ps), []);
  }


  // ----- the translator and the upstream -----

  /** What the translator remembers is what the upstream sent. */
  ghost predicate Tracked(st: Stream, inputs: seq<Input>) {
    && Kept(st) && NoneClosed(st.items) && !st.stopped && Remembers(st, inputs)
    && st.started == Begun(inputs) && st.itemOpen == Speaking(inputs)
    && AnyOpen(st.items) == Called(inputs)
  }

  predicate ToolOpens(st: Stream, inp: Input) {
    inp.ToolIn? && st.started && OpensNow(Noted(ItemFor(st, inp.idx), inp.id, inp.name))
  }

  lemma ToolOpensIs(st: Stream, inputs: seq<Input>, inp: Input)
    requires Remembers(st, inputs) && st.started == Begun(inputs)
    ensures ToolOpens(st, inp) == Opens(inputs, inp)
  {
    hide SentCall, InputText, Begun;
    if inp.ToolIn? {
      assert ItemFor(st, inp.idx).(outputIdx := 0) == SentCall(inputs, inp.idx);
    }
  }

  lemma OpenAfter(st: Stream, inp: Input)
    ensures ApplyInput(st, inp).itemOpen == (Speaks(inp) || (st.itemOpen && !ToolOpens(st, inp)))
  {
    match inp
    case Begin =>
    case TextIn(text) => assert EnsureOpen(st).itemOpen;
    case ToolIn(k, id, name, args) =>
      if st.started {
        var item := Noted(ItemFor(st, k), id, name);
        assert !CloseMessage(st).itemOpen;
        assert OpenCall(st, k, item).itemOpen == (st.itemOpen && !OpensNow(item));
      }
    case _ =>
  }

  lemma CalledAfter(st: Stream, inp: Input)
    requires Kept(st) && NoneClosed(st.items)
    ensures AnyOpen(ApplyInput(st, inp).items) == (AnyOpen(st.items) || ToolOpens(st, inp))
  {
    ApplyKeeps(st, inp);
    hide Kept;
    var after := ApplyInput(st, inp);
    if inp.ToolIn? && st.started {
      ToolKeeps(st, inp.idx, inp.id, inp.name, inp.args);
      hide ApplyInput;
      var told := after.items[inp.idx];
      if AnyOpen(st.items) {
        var k :| k in st.items && st.items[k].isOpen;
        assert k in after.items && after.items[k].isOpen;
      }
      if AnyOpen(after.items) {
        var k :| k in after.items && after.items[k].isOpen;
        assert k == inp.idx || (k in st.items && st.items[k].isOpen);
      }
    }
  }

  lemma TrackStep(st: Stream, inputs: seq<Input>, inp: Input)
    requires Tracked(st, inputs)
    ensures Tracked(ApplyInput(st, inp), inputs + [inp])
  {
    hide Kept, NoneClosed, Remembers, ApplyInput, AnyOpen;
    ApplyKeeps(st, inp);
    ApplyRemembers(st, inputs, inp);
    ToolOpensIs(st, inputs, inp);
    OpenAfter(st, inp);
    CalledAfter(st, inp);
    assert (inputs + [inp])[..|inputs|] == inputs;
  }

  // ----- one input more -----

  predicate StepAllowed(r: Rules, inputs: seq<Input>, inp: Input) {
    && (r.once ==> !(Speaks(inp) && !Speaking(inputs) && InputText(inputs) != ""))
    && (r.ownIndex ==> !(Called(inputs) && (Opens(inputs, inp) || (Speaks(inp) && !Speaking(inputs)))))
  }

  lemma AllowedSnoc(r: Rules, inputs: seq<Input>, inp: Input)
    ensures Allowed(r, inputs + [inp]) == (Allowed(r, inputs) && StepAllowed(r, inputs, inp))
  {
    assert (inputs + [inp])[..|inputs|] == inputs;
  }

  /** The client follows, and where indices count, knows which are taken. */
  ghost predicate Good(r: Rules, st: Stream) {
    Followed(r, st) && (r.ownIndex ==> Placed(st))
  }

  lemma TextStep(r: Rules, st: Stream, inputs: seq<Input>, text: string)
    requires Tracked(st, inputs) && Good(r, st) && st.started && text != ""
    ensures if StepAllowed(r, inputs, TextIn(text)) then Good(r, PutText(st, text))
            else Reads(r, PutText(st, text).out) == None
  {
    TextFollowed(r, st, text);
    if r.ownIndex && (st.itemOpen || MayOpen(r, st)) {
      TextPlaced(st, text);
    }
    hide Reads, Followed, Kept, NoneClosed, PutText, Places, AnyOpen;
  }

  lemma ToolStep(r: Rules, st: Stream, inputs: seq<Input>, inp: Input)
    requires Tracked(st, inputs) && Good(r, st) && st.started && inp.ToolIn?
    ensures if StepAllowed(r, inputs, inp) then Good(r, ApplyInput(st, inp))
            else Reads(r, ApplyInput(st, inp).out) == None
  {
    var ToolIn(k, id, name, args) := inp;
    var item := Noted(ItemFor(st, k), id, name);
    var noted := OpenCall(st, k, item);
    ToolOpensIs(st, inputs, inp);
    assert st.itemOpen == st.partOpen;
    ClosePlaces(st);
    OpenCallFollowed(r, st, k, id, name);
    ToolKeepsShape(st, k, id, name);
    hide Reads, Followed, Kept, PutArgs, OpenCall, CloseMessage, Places, AnyOpen, NoneClosed;
    if StepAllowed(r, inputs, inp) {
      ArgsFollowed(r, noted, k, args);
      if r.ownIndex {
        ToolPlaced(st, k, id, name, args);
      }
    } else {
      ArgsStayUnread(r, noted, k, args);
    }
  }

  lemma ToolKeepsShape(st: Stream, k: int, id: string, name: string)
    requires NoneClosed(st.items)
    ensures var after := OpenCall(st, k, Noted(ItemFor(st, k), id, name)); k in after.items && !after.items[k].closed
  {
  }

  lemma ToolPlaced(st: Stream, k: int, id: string, name: string, args: string)
    requires Placed(st) && st.itemOpen == st.partOpen
    requires var item := Noted(ItemFor(st, k), id, name); OpensNow(item) ==> !AnyOpen(st.items)
    ensures Placed(PutTool(st, k, id, name, args))
  {
    var item := Noted(ItemFor(st, k), id, name);
    if OpensNow(item) {
      CallPlaced(st, k, item);
    } else {
      NotedPlaced(st, k, item);
    }
    assert k in OpenCall(st, k, item).items;
    hide OpenCall, Placed;
    ArgsPlaced(OpenCall(st, k, item), k, args);
  }

  lemma ArgsStayUnread(r: Rules, st: Stream, k: int, args: string)
    requires k in st.items && Reads(r, st.out) == None
    ensures Reads(r, PutArgs(st, k, args).out) == None
  {
    hide Reads;
    StaysUnread(r, st.out, PutArgs(st, k, args).out);
  }

  /** Once the client cannot follow, it never can again. */
  lemma {:induction false} StaysUnread(r: Rules, log: seq<Sent>, more: seq<Sent>)
    requires log <= more && Reads(r, log) == None
    ensures Reads(r, more) == None
  {
    if more != log {
      StaysUnread(r, log, more[..|more| - 1]);
    }
  }

  lemma ReadStep(r: Rules, st: Stream, inputs: seq<Input>, inp: Input)
    requires Tracked(st, inputs) && Good(r, st) && (Speaks(inp) ==> st.started)
    ensures if StepAllowed(r, inputs, inp) then Good(r, ApplyInput(st, inp))
            else Reads(r, ApplyInput(st, inp).out) == None
  {
    hide Reads, PutTool, PutText, StartResponse, Followed, Placed, Tracked;
    match inp
    case Begin => StartFollowed(r, st); StartGood(r, st);
    case TextIn(text) => if text != "" { TextStep(r, st, inputs, text); } else { EmptyText(st); }
    case ToolIn(_, _, _, _) => if st.started { ToolStep(r, st, inputs, inp); } else { NotBegun(st, inputs); }
    case _ =>
      QuietFollowed(r, st, inp);
      if r.ownIndex {
        QuietPlaced(st, inp);
      }
  }

  lemma StartGood(r: Rules, st: Stream)
    requires Good(r, st)
    ensures Good(r, StartResponse(st))
  {
    StartFollowed(r, st);
    if r.ownIndex {
      StartPlaced(st);
    }
  }

  lemma EmptyText(st: Stream)
    ensures PutText(st, "") == st
  {
  }

  lemma NotBegun(st: Stream, inputs: seq<Input>)
    requires Tracked(st, inputs) && !st.started
    ensures !Begun(inputs)
  {
  }

  // ----- whole runs -----

  lemma {:induction false} RunTracked(inputs: seq<Input>)
    ensures Tracked(RunAll(inputs), inputs)
  {
    if inputs == [] {
      NothingTracked();
    } else {
      var n := |inputs| - 1;
      RunTracked(inputs[..n]);
      hide Tracked, ApplyInput;
      TrackStep(RunAll(inputs[..n]), inputs[..n], inputs[n]);
      assert inputs == inputs[..n] + [inputs[n]];
    }
  }

  lemma NothingTracked()
    ensures Tracked(Fresh, [])
  {
    FreshIsKept();
  }

  lemma FreshIsGood(r: Rules)
    ensures Good(r, Fresh)
  {
    ReadsOfNothing(r, []);
    hide Reads, Places;
  }

  lemma {:induction false} RunReads(r: Rules, inputs: seq<Input>)
    requires Headed(inputs)
    ensures if Allowed(r, inputs) then Good(r, RunAll(inputs)) else Reads(r, RunAll(inputs).out) == None
  {
    hide Good, Tracked, ApplyInput, Reads, Allowed, StepAllowed;
    if inputs == [] {
      FreshIsGood(r);
      NothingBroken(r);
    } else {
      var n := |inputs| - 1;
      var st := RunAll(inputs[..n]);
      assert inputs == inputs[..n] + [inputs[n]];
      RunReads(r, inputs[..n]);
      RunTracked(inputs[..n]);
      TrackedStart(st, inputs[..n]);
      AllowedSnoc(r, inputs[..n], inputs[n]);
      if Allowed(r, inputs[..n]) {
        ReadStep(r, st, inputs[..n], inputs[n]);
      } else {
        OutGrows(st, inputs[n]);
        StaysUnread(r, st.out, RunAll(inputs).out);
      }
    }
  }

  lemma NothingBroken(r: Rules)
    ensures Allowed(r, [])
  {
  }

  lemma TrackedStart(st: Stream, inputs: seq<Input>)
    requires Tracked(st, inputs)
    ensures st.started == Begun(inputs) && !st.stopped
  {
  }

  lemma OutGrows(st: Stream, inp: Input)
    ensures st.out <= ApplyInput(st, inp).out
  {
    hide PutText, PutTool, StartResponse;
    match inp
    case Begin => StartGrows(st);
    case TextIn(text) => TextGrows(st, text);
    case ToolIn(idx, id, name, args) => ToolGrows(st, idx, id, name, args);
    case _ =>
  }

  lemma TextGrows(st: Stream, text: string)
    ensures st.out <= PutText(st, text).out
  {
    assert st.out <= EnsureOpen(st).out;
  }

  lemma ToolGrows(st: Stream, idx: int, id: string, name: string, args: string)
    ensures st.out <= PutTool(st, idx, id, name, args).out
  {
    CloseMessageGrows(st);
    hide CloseMessage;
    var item := Noted(ItemFor(st, idx), id, name);
    assert st.out <= OpenCall(st, idx, item).out;
    hide OpenCall;
  }

  lemma {:induction false} FinishGrows(st: Stream, order: seq<int>)
    ensures st.out <= CloseItems(st, order).out && st.out <= FinishWith(st, order).out
  {
    hide CloseMessage, StartResponse;
    CloseGrows(st, order);
    var s := StartResponse(st.(stopped := true));
    StartGrows(st.(stopped := true));
    CloseMessageGrows(s);
    CloseGrows(CloseMessage(s), order);
  }

  lemma StartGrows(st: Stream)
    ensures st.out <= StartResponse(st).out
  {
  }

  lemma CloseMessageGrows(st: Stream)
    ensures st.out <= CloseMessage(st).out
  {
  }

  lemma {:induction false} CloseGrows(st: Stream, order: seq<int>)
    ensures st.out <= CloseItems(st, order).out
  {
    if order != [] {
      CloseGrows(st, order[..|order| - 1]);
    }
  }

  /**
   What the client has noted of a call once its id and name have been given: the first id, the first
   name, and the arguments known so far.
   */
  lemma ClientKnowsTheCall(inputs: seq<Input>, k: int, i: nat, j: nat)
    requires Headed(inputs)
    requires i < |inputs| && Concerns(inputs[..i], inputs[i], k) && inputs[i].id != ""
    requires forall m | 0 <= m < i :: Concerns(inputs[..m], inputs[m], k) ==> inputs[m].id == ""
    requires j < |inputs| && Concerns(inputs[..j], inputs[j], k) && inputs[j].name != ""
    requires forall m | 0 <= m < j :: Concerns(inputs[..m], inputs[m], k) ==> inputs[m].name == ""
    ensures var p := Reads(Lenient, RunAll(inputs).out);
            && p.Some? && p.value.Within? && k in p.value.calls
            && var c := p.value.calls[k];
               c.callId == inputs[i].id && c.name == inputs[j].name && c.args == SentCall(inputs, k).args
  {
    HeaderIsTheFirst(inputs, k, i, j);
    RunReads(Lenient, inputs);
    RunKept(inputs);
    var st := RunAll(inputs);
    hide RunAll, Reads, SentCall, Headed, Concerns, Kept;
    assert ItemFor(st, k).(outputIdx := 0) == SentCall(inputs, k);
  }

  /** Text outside a chunk is an item before the greetings: no client follows. */
  lemma {:induction false} UnheadedIsUnread(r: Rules, inputs: seq<Input>)
    requires !Headed(inputs)
    ensures Reads(r, RunAll(inputs).out) == None
  {
    hide ApplyInput, Reads, Tracked, Good, Allowed, PutText;
    var n := |inputs| - 1;
    var before := RunAll(inputs[..n]);
    OutGrows(before, inputs[n]);
    RunTracked(inputs[..n]);
    TrackedStart(before, inputs[..n]);
    if !Headed(inputs[..n]) {
      UnheadedIsUnread(r, inputs[..n]);
      StaysUnread(r, before.out, RunAll(inputs).out);
    } else {
      RunReads(r, inputs[..n]);
      if Allowed(r, inputs[..n]) {
        EarlyTextIsUnread(r, before, inputs[n]);
      } else {
        StaysUnread(r, before.out, RunAll(inputs).out);
      }
    }
  }

  lemma EarlyTextIsUnread(r: Rules, st: Stream, inp: Input)
    requires Good(r, st) && !st.started && Speaks(inp)
    ensures Reads(r, ApplyInput(st, inp).out) == None
  {
    var first := [Sent(0, MessageAdded(st.outputIdx))];
    assert first[..0] == [] && Reads(r, first) == None;
    assert ApplyInput(st, inp).out[..1] == first;
    StaysUnread(r, first, ApplyInput(st, inp).out);
  }

  lemma {:induction false} CloseItemsFollowed(r: Rules, st: Stream, order: seq<int>)
    requires Followed(r, st) && st.started && !st.itemOpen
    ensures Followed(r, CloseItems(st, order)) && CloseItems(st, order).started && !CloseItems(st, order).itemOpen
  {
    hide Followed, CloseItem;
    if order != [] {
      var n := |order| - 1;
      CloseItemsFollowed(r, st, order[..n]);
      CloseItemFollowed(r, CloseItems(st, order[..n]), order[n]);
    }
  }

  lemma EndFollowed(r: Rules, st: Stream)
    requires Followed(r, st) && st.started && !st.itemOpen
    requires forall k :: k in st.items && st.items[k].isOpen ==> st.items[k].closed
    ensures Reads(r, Put(st, CompletedBy(st)).out) == Some(Complete)
  {
    assert forall k :: k in CallsOf(st.items) ==> CallsOf(st.items)[k].stage == Over;
    hide Reads, CallsOf, Places;
    ReadsSnoc(r, st.out, CompletedBy(st));
  }

  lemma StopIsUnseen(r: Rules, st: Stream)
    requires Followed(r, st)
    ensures Followed(r, st.(stopped := true))
  {
    hide Reads, CallsOf, Places;
  }

  lemma FinishFollowed(r: Rules, st: Stream, order: seq<int>)
    requires Followed(r, st) && Kept(st) && !st.stopped && forall k :: k in st.items ==> k in order
    ensures Reads(r, FinishWith(st, order).out) == Some(Complete)
  {
    hide Reads, CallsOf, Places, CloseItem, CloseMessage, StartResponse, Followed, Kept;
    StopIsUnseen(r, st);
    StopIsFree(st);
    var s := StartResponse(st.(stopped := true));
    StartFollowed(r, st.(stopped := true));
    StartKeeps(st.(stopped := true));
    CloseFollowed(r, s);
    CloseKeeps(s);
    var m := CloseMessage(s);
    CloseItemsFollowed(r, m, order);
    CloseItemsKeeps(m, order);
    EndFollowed(r, CloseItems(m, order));
  }

  /**
   Which streams a client accepts to their end. By the rules that the code keeps, all those whose
   upstream has no text outside a chunk. If an item must not be added twice, those where besides no
   text goes on after a call interrupted it. If each item must have an output index of its own, those
   where nothing follows an opened call. The order in which calls are closed does not matter.
   */
  lemma AcceptedIff(r: Rules, inputs: seq<Input>, order: seq<int>)
    requires forall k :: k in RunAll(inputs).items ==> k in order
    ensures Reads(r, FinishWith(RunAll(inputs), order).out) ==
            if Headed(inputs) && Allowed(r, inputs) then Some(Complete) else None
  {
    var st := RunAll(inputs);
    RunTracked(inputs);
    FinishGrows(st, order);
    hide RunAll, Reads, Followed, Kept, AnyOpen, Remembers, Placed, Allowed;
    if !Headed(inputs) {
      UnheadedIsUnread(r, inputs);
      StaysUnread(r, st.out, FinishWith(st, order).out);
    } else {
      RunReads(r, inputs);
      if Allowed(r, inputs) {
        FinishFollowed(r, st, order);
      } else {
        StaysUnread(r, st.out, FinishWith(st, order).out);
      }
    }
  }

  const Lenient := Rules(false, false)
  const Strict := Rules(true, false)
  const Unique := Rules(true, true)

  /**
   The failure in full: prose, a call, prose again. The message item is added a second time, under the
   output index the call holds, and its done events repeat the first prose with the second.
   */
  lemma ResumedTextIsRepeated(a: string, b: string, id: string, name: string)
    requires a != "" && b != "" && id != "" && name != ""
    ensures var inputs := [Begin, TextIn(a), ToolIn(0, id, name, ""), TextIn(b)];
            var out := FinishWith(RunAll(inputs), [0]).out;
            && Headed(inputs) && Resumed(inputs) && Shared(inputs)
            && |out| > 14
            && out[8].body == CallAdded(1, 0, id, name) && out[9].body == MessageAdded(1)
            && out[11].body == TextDelta(1, b) && out[14].body == MessageDone(1, a + b)
            && Reads(Strict, out) == None && Reads(Lenient, out) == Some(Complete)
  {
    ResumedRun(a, b, id, name);
    ResumedInputs(a, b, id, name);
    var inputs := [Begin, TextIn(a), ToolIn(0, id, name, ""), TextIn(b)];
    hide RunAll, FinishWith, Reads, Headed, Resumed, Shared;
    AcceptedIff(Strict, inputs, [0]);
    AcceptedIff(Lenient, inputs, [0]);
  }

  lemma ResumedInputs(a: string, b: string, id: string, name: string)
    requires a != "" && b != "" && id != "" && name != ""
    ensures var inputs := [Begin, TextIn(a), ToolIn(0, id, name, ""), TextIn(b)];
            Headed(inputs) && Resumed(inputs) && Shared(inputs)
  {
    var i4 := [Begin, TextIn(a), ToolIn(0, id, name, ""), TextIn(b)];
    var i3 := i4[..3];
    var i2 := i3[..2];
    var i1 := i2[..1];
    assert i3 == [Begin, TextIn(a), ToolIn(0, id, name, "")];
    assert i2 == [Begin, TextIn(a)] && i1 == [Begin] && i1[..0] == [];
    assert Begun(i1) && Begun(i2) && Begun(i3);
    assert Headed(i1[..0]);
    assert Headed(i1);
    assert Headed(i2);
    assert Headed(i3);
    assert SentCall(i1, 0) == SentCall([], 0) && SentCall(i2, 0) == SentCall(i1, 0);
    assert Opens(i2, i3[2]);
    assert Called(i3) && !Speaking(i3);
    assert InputText(i3) == a by {
      hide *;
      InterruptedText(a, id, name);
    }
  }

  lemma InterruptedText(a: string, id: string, name: string)
    ensures InputText([Begin, TextIn(a), ToolIn(0, id, name, "")]) == a
  {
    var b, t, c := Begin, TextIn(a), ToolIn(0, id, name, "");
    assert [b][..0] == [] && InputText([b]) == "" + "";
    assert [b, t][..1] == [b] && InputText([b, t]) == "" + a;
    assert [b, t, c][..2] == [b, t] && InputText([b, t, c]) == a + "";
  }

  lemma ResumedRun(a: string, b: string, id: string, name: string)
    requires a != "" && b != "" && id != "" && name != ""
    ensures var inputs := [Begin, TextIn(a), ToolIn(0, id, name, ""), TextIn(b)];
            var out := FinishWith(RunAll(inputs), [0]).out;
            && |out| > 14 && RunAll(inputs).items.Keys == {0}
            && out[8].body == CallAdded(1, 0, id, name) && out[9].body == MessageAdded(1)
            && out[11].body == TextDelta(1, b) && out[14].body == MessageDone(1, a + b)
  {
    var s1 := StartResponse(Fresh);
    var s2 := PutText(s1, a);
    var s3 := PutTool(s2, 0, id, name, "");
    var s4 := PutText(s3, b);
    RunOfFour(Begin, TextIn(a), ToolIn(0, id, name, ""), TextIn(b));
    FirstProse(s1, a);
    TheCall(s2, a, id, name);
    SecondProse(s3, a, b);
    hide PutText, PutTool, FinishWith, CloseItem, CloseMessage, RunAll;
    LastEvents(s4, a + b);
  }

  lemma FirstProse(st: Stream, a: string)
    requires st == StartResponse(Fresh) && a != ""
    ensures var s := PutText(st, a);
            && |s.out| == 5 && s.started && !s.stopped && s.itemOpen && s.partOpen
            && s.outputIdx == 0 && s.accText == a && s.items == map[]
  {
    assert "" + a == a;
  }

  lemma TheCall(st: Stream, a: string, id: string, name: string)
    requires |st.out| == 5 && st.started && !st.stopped && st.itemOpen && st.partOpen
    requires st.outputIdx == 0 && st.accText == a && st.items == map[]
    requires id != "" && name != ""
    ensures var s := PutTool(st, 0, id, name, "");
            && |s.out| == 9 && s.started && !s.stopped && !s.itemOpen && !s.partOpen
            && s.outputIdx == 1 && s.accText == a && s.items.Keys == {0}
            && s.out[8].body == CallAdded(1, 0, id, name)
  {
    var closed := CloseMessage(st);
    assert |closed.out| == 8 && closed.outputIdx == 1;
  }

  lemma SecondProse(st: Stream, a: string, b: string)
    requires |st.out| == 9 && st.started && !st.itemOpen && !st.partOpen
    requires st.outputIdx == 1 && st.accText == a && b != ""
    ensures var s := PutText(st, b);
            && |s.out| == 12 && s.started && s.stopped == st.stopped && s.itemOpen
            && s.partOpen && s.outputIdx == 1 && s.accText == a + b
            && s.items == st.items && s.out[8] == st.out[8]
            && s.out[9].body == MessageAdded(1) && s.out[11].body == TextDelta(1, b)
  {
  }

  lemma LastEvents(st: Stream, text: string)
    requires |st.out| == 12 && st.started && !st.stopped && st.itemOpen
    requires st.partOpen && st.outputIdx == 1 && st.accText == text
    ensures var out := FinishWith(st, [0]).out;
            |out| > 14 && out[14].body == MessageDone(1, text) && forall i :: 0 <= i < 12 ==> out[i] == st.out[i]
  {
    var c := CloseMessage(st.(stopped := true));
    assert |c.out| == 15 && c.out[14].body == MessageDone(1, text) && c.out[..12] == st.out;
    hide CloseItem, CloseMessage;
    CloseGrows(c, [0]);
    var d := CloseItems(c, [0]);
    assert c.out <= d.out && forall i :: 0 <= i < 15 ==> d.out[i] == c.out[i];
    assert forall i :: 0 <= i < 12 ==> c.out[i] == c.out[..12][i];
  }

  lemma RunOfFour(a: Input, b: Input, c: Input, d: Input)
    ensures RunAll([a, b, c, d]) == ApplyInput(ApplyInput(ApplyInput(ApplyInput(Fresh, a), b), c), d)
  {
    hide ApplyInput;
    FoldOne(Fresh, ApplyInput, a);
    FoldSnoc(Fresh, ApplyInput, [a], b);
    FoldSnoc(Fresh, ApplyInput, [a] + [b], c);
    FoldSnoc(Fresh, ApplyInput, [a] + [b] + [c], d);
    assert [a, b, c, d] == [a] + [b] + [c] + [d];
  }

  /** What an upstream of chunks comes to, in terms of the translator's state before the end. */
  lemma StreamEndsWell(decode: Decoder, bytes: string, order: seq<int>)
    requires forall k :: k in RunAll(StreamInputs(decode, bytes)).items ==> k in order
    ensures var ins := StreamInputs(decode, bytes);
            var out := FinishWith(RunAll(ins), order).out;
            && Reads(Lenient, out) == Some(Complete)
            && Reads(Strict, out) == (if Resumed(ins) then None else Some(Complete))
            && Reads(Unique, out) == (if Resumed(ins) || Shared(ins) then None else Some(Complete))
            && TextOf(out) == InputText(ins)
            && (forall k: int :: ArgsOf(out, k) == SentCall(ins, k).args)
            && forall k: int :: ArgsOf(out, k) == ArgsGiven(ins, k) <==> !Early(ins, k)
  {
    var ins := StreamInputs(decode, bytes);
    FramesAreHeaded(decode, Frames(bytes).frames);
    assert Headed(ins);
    hide RunAll, Headed, Reads, TextOf, ArgsOf, InputText;
    hide SentCall, ArgsGiven, Early, FinishWith, StreamInputs, Resumed, Shared;
    AcceptedIff(Lenient, ins, order);
    AcceptedIff(Strict, ins, order);
    AcceptedIff(Unique, ins, order);
    EverythingKnownArrives(ins, order, 0);
    forall k: int
      ensures var args := ArgsOf(FinishWith(RunAll(ins), order).out, k);
              args == SentCall(ins, k).args && (args == ArgsGiven(ins, k) <==> !Early(ins, k))
    {
      EverythingKnownArrives(ins, order, k);
      AllArgumentsArriveIff(ins, order, k);
    }
  }

  lemma StartOfStream(decode: Decoder, bytes: string)
    ensures var st := RunAll(StreamInputs(decode, bytes)); !st.stopped && (!st.started ==> st.items == map[])
  {
    RunTracked(StreamInputs(decode, bytes));
  }
}
