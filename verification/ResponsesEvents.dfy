/**
 The OpenAI Responses event stream (`internal/server/responses.go`): what the translator emits
 for each upstream input, and what every emitted stream satisfies. `ResponsesGrammar` has
 what a client checks, `ResponsesTranslator` the translator itself.
 */
module ResponsesEvents {
  import opened Upstream

  /** A function-call item, known by its upstream index. */
  datatype Item = Item(callId: string, name: string, args: string, outputIdx: nat, isOpen: bool, closed: bool)

  datatype Body =
    | Created
    | InProgress
    | MessageAdded(at: nat)
    | PartAdded(at: nat)
    | TextDelta(at: nat, text: string)
    | TextDone(at: nat, text: string)
    | PartDone(at: nat, text: string)
    | MessageDone(at: nat, text: string)
    | CallAdded(at: nat, idx: int, callId: string, name: string)
    | ArgsDelta(at: nat, idx: int, text: string)
    | ArgsDone(at: nat, idx: int, text: string)
    | CallDone(at: nat, idx: int, callId: string, name: string, text: string)
    | Completed(status: string, input: int, output: int)
    | KeepAlive

  datatype Sent = Sent(number: nat, body: Body)

  datatype Stream = Stream(started: bool, stopped: bool, seqNo: nat, outputIdx: nat, itemOpen: bool, partOpen: bool,
                           accText: string, items: map<int, Item>, usage: Usage, status: string, out: seq<Sent>)

  const Fresh := Stream(false, false, 0, 0, false, false, "", map[], NoUsage, "", [])

  function StatusFor(reason: string): string {
    if reason == "length" || reason == "content_filter" then "incomplete" else "completed"
  }

  // ----- one step -----

  function Put(st: Stream, b: Body): Stream {
    st.(seqNo := st.seqNo + 1, out := st.out + [Sent(st.seqNo, b)])
  }

  function StartResponse(st: Stream): Stream {
    if st.started then st
    else Put(Put(st.(started := true, items := map[], status := "completed"), Created), InProgress)
  }

  function EnsureOpen(st: Stream): Stream {
    if st.itemOpen then st
    else Put(Put(st.(itemOpen := true), MessageAdded(st.outputIdx)), PartAdded(st.outputIdx)).(partOpen := true)
  }

  function PutText(st: Stream, text: string): Stream {
    if text == "" then st
    else
      var ready := EnsureOpen(st);
      Put(ready.(accText := ready.accText + text), TextDelta(ready.outputIdx, text))
  }

  function ClosePart(st: Stream): Stream {
    if st.partOpen then
      Put(Put(st, TextDone(st.outputIdx, st.accText)), PartDone(st.outputIdx, st.accText)).(partOpen := false)
    else st
  }

  function CloseMessage(st: Stream): Stream {
    if !st.itemOpen then st
    else
      var closed := ClosePart(st);
      Put(closed, MessageDone(closed.outputIdx, closed.accText)).(outputIdx := closed.outputIdx + 1, itemOpen := false)
  }

  /** The id and the name of a call are the first non-empty ones. */
  function Noted(item: Item, id: string, name: string): Item {
    item.(callId := if item.callId == "" then id else item.callId, name := if item.name == "" then name else item.name)
  }

  function ItemFor(st: Stream, idx: int): Item {
    if idx in st.items then st.items[idx] else Item("", "", "", 0, false, false)
  }

  /** The item opens as soon as id and name are known. */
  function OpenCall(st: Stream, idx: int, item: Item): Stream {
    if !item.isOpen && item.callId != "" && item.name != "" then
      var closed := CloseMessage(st);
      var o := item.(isOpen := true, outputIdx := closed.outputIdx);
      Put(closed.(items := closed.items[idx := o]), CallAdded(o.outputIdx, idx, o.callId, o.name))
    else
      st.(items := st.items[idx := item])
  }

  /** Arguments for an item that is not open yet are dropped. */
  function PutArgs(st: Stream, idx: int, args: string): Stream
    requires idx in st.items
  {
    var item := st.items[idx];
    if args != "" && item.isOpen then
      Put(st.(items := st.items[idx := item.(args := item.args + args)]), ArgsDelta(item.outputIdx, idx, args))
    else st
  }

  function PutTool(st: Stream, idx: int, id: string, name: string, args: string): Stream {
    PutArgs(OpenCall(st, idx, Noted(ItemFor(st, idx), id, name)), idx, args)
  }

  /** Reasoning is left out; a tool call never comes before the start, which every chunk brings. */
  function ApplyInput(st: Stream, inp: Input): Stream {
    match inp
    case Begin => StartResponse(st)
    case TextIn(text) => PutText(st, text)
    case ThinkingIn(_) => st
    case ToolIn(idx, id, name, args) => if st.started then PutTool(st, idx, id, name, args) else st
    case FinishIn(reason) => st.(status := StatusFor(reason))
    case UsageIn(u) => st.(usage := u)
    case PingIn => if st.started then Put(st, KeepAlive) else st
  }

  function CloseItem(st: Stream, idx: int): Stream {
    if idx !in st.items || !st.items[idx].isOpen || st.items[idx].closed then st
    else
      var item := st.items[idx];
      var s := Put(st.(items := st.items[idx := item.(closed := true)]), ArgsDone(item.outputIdx, idx, item.args));
      var t := Put(s, CallDone(item.outputIdx, idx, item.callId, item.name, item.args));
      if item.outputIdx >= t.outputIdx then t.(outputIdx := item.outputIdx + 1) else t
  }

  /** The items are closed in the order a map iteration happens to take. */
  function CloseItems(st: Stream, order: seq<int>): Stream {
    if order == [] then st else CloseItem(CloseItems(st, order[..|order| - 1]), order[|order| - 1])
  }

  function CompletedBy(st: Stream): Body {
    Completed(st.status, st.usage.prompt, st.usage.completion)
  }

  function FinishWith(st: Stream, order: seq<int>): Stream {
    if st.stopped then st
    else
      var closed := CloseItems(CloseMessage(StartResponse(st.(stopped := true))), order);
      Put(closed, CompletedBy(closed))
  }

  // ----- what a client checks -----

  /** What has been received: the text, and the arguments of each call. */
  function TextOf(log: seq<Sent>): string {
    if log == [] then ""
    else
      var b := log[|log| - 1].body;
      TextOf(log[..|log| - 1]) + if b.TextDelta? then b.text else ""
  }

  function ArgsOf(log: seq<Sent>, idx: int): string {
    if log == [] then ""
    else
      var b := log[|log| - 1].body;
      ArgsOf(log[..|log| - 1], idx) + if b.ArgsDelta? && b.idx == idx then b.text else ""
  }

  lemma LogSnoc(log: seq<Sent>, b: Body)
    ensures TextOf(log + [Sent(|log|, b)]) == TextOf(log) + if b.TextDelta? then b.text else ""
    ensures forall idx :: ArgsOf(log + [Sent(|log|, b)], idx) == ArgsOf(log, idx) + if b.ArgsDelta? && b.idx == idx then b.text else ""
  {
    assert (log + [Sent(|log|, b)])[..|log|] == log;
  }

  // ----- what the translator remembers is what was sent -----

  function ArgsIn(items: map<int, Item>, k: int): string {
    if k in items then items[k].args else ""
  }

  ghost predicate Echoed(log: seq<Sent>, items: map<int, Item>) {
    forall k: int :: ArgsOf(log, k) == ArgsIn(items, k)
  }

  ghost predicate Sane(items: map<int, Item>) {
    forall k :: k in items && (items[k].closed || items[k].args != "") ==> items[k].isOpen
  }

  lemma EchoedSnoc(log: seq<Sent>, items: map<int, Item>, b: Body)
    requires Echoed(log, items)
    ensures !b.ArgsDelta? ==> Echoed(log + [Sent(|log|, b)], items)
  {
    hide ArgsOf;
    LogSnoc(log, b);
  }

  /** Replacing an item by one with the same arguments. */
  lemma ItemReplaced(log: seq<Sent>, items: map<int, Item>, idx: int, item: Item)
    requires Echoed(log, items) && Sane(items)
    requires item.args == ArgsIn(items, idx) && (item.closed || item.args != "" ==> item.isOpen)
    ensures Echoed(log, items[idx := item]) && Sane(items[idx := item])
  {
    hide ArgsOf;
  }

  ghost predicate Kept(st: Stream) {
    && st.seqNo == |st.out|
    && st.accText == TextOf(st.out)
    && Echoed(st.out, st.items)
    && Sane(st.items)
    && (st.itemOpen <==> st.partOpen)
    && (st.itemOpen ==> st.accText != "")
    && (!st.started ==> st.items == map[])
  }

  lemma FreshIsKept()
    ensures Kept(Fresh)
  {
  }

  lemma StartKeeps(st: Stream)
    requires Kept(st)
    ensures Kept(StartResponse(st)) && StartResponse(st).started
    ensures StartResponse(st).items == st.items && StartResponse(st).accText == st.accText
  {
    hide TextOf, Echoed, Sane;
    if !st.started {
      var s := st.(started := true, items := map[], status := "completed");
      LogSnoc(s.out, Created);
      EchoedSnoc(s.out, map[], Created);
      var t := Put(s, Created);
      LogSnoc(t.out, InProgress);
      EchoedSnoc(t.out, map[], InProgress);
    }
  }

  lemma TextKeeps(st: Stream, text: string)
    requires Kept(st)
    ensures Kept(PutText(st, text)) && PutText(st, text).started == st.started
    ensures PutText(st, text).accText == st.accText + text && PutText(st, text).items == st.items
  {
    hide TextOf, Echoed, Sane;
    if text != "" {
      if !st.itemOpen {
        var added := Put(st.(itemOpen := true), MessageAdded(st.outputIdx));
        LogSnoc(st.out, MessageAdded(st.outputIdx));
        EchoedSnoc(st.out, st.items, MessageAdded(st.outputIdx));
        LogSnoc(added.out, PartAdded(st.outputIdx));
        EchoedSnoc(added.out, st.items, PartAdded(st.outputIdx));
      }
      var s := EnsureOpen(st);
      LogSnoc(s.out, TextDelta(s.outputIdx, text));
      EchoedSnoc(s.out, s.items, TextDelta(s.outputIdx, text));
    }
  }

  lemma CloseKeeps(st: Stream)
    requires Kept(st) && st.started
    ensures Kept(CloseMessage(st)) && CloseMessage(st).started && !CloseMessage(st).itemOpen
    ensures CloseMessage(st).items == st.items && CloseMessage(st).accText == st.accText
  {
    hide TextOf, Echoed, Sane;
    if st.itemOpen {
      LogSnoc(st.out, TextDone(st.outputIdx, st.accText));
      EchoedSnoc(st.out, st.items, TextDone(st.outputIdx, st.accText));
      var s := Put(st, TextDone(st.outputIdx, st.accText));
      LogSnoc(s.out, PartDone(s.outputIdx, s.accText));
      EchoedSnoc(s.out, s.items, PartDone(s.outputIdx, s.accText));
      var t := ClosePart(st);
      LogSnoc(t.out, MessageDone(t.outputIdx, t.accText));
      EchoedSnoc(t.out, t.items, MessageDone(t.outputIdx, t.accText));
    }
  }

  lemma OpenCallKeeps(st: Stream, idx: int, item: Item)
    requires Kept(st) && st.started
    requires item.args == ItemFor(st, idx).args && item.isOpen == ItemFor(st, idx).isOpen
    requires item.closed == ItemFor(st, idx).closed
    ensures var after := OpenCall(st, idx, item);
            && Kept(after) && after.started && after.accText == st.accText
            && idx in after.items
            && after.items == st.items[idx := OpenedIfKnown(item).(outputIdx := after.items[idx].outputIdx)]
  {
    hide TextOf, Echoed, Sane;
    ItemIsSane(st.items, idx);
    if !item.isOpen && item.callId != "" && item.name != "" {
      CloseKeeps(st);
      var closed := CloseMessage(st);
      var o := item.(isOpen := true, outputIdx := closed.outputIdx);
      CallIsOpened(closed, idx, o);
    } else {
      ItemReplaced(st.out, st.items, idx, item);
    }
  }

  function OpenedIfKnown(item: Item): Item {
    item.(isOpen := item.isOpen || (item.callId != "" && item.name != ""))
  }

  lemma ItemIsSane(items: map<int, Item>, idx: int)
    requires Sane(items)
    ensures idx in items && (items[idx].closed || items[idx].args != "") ==> items[idx].isOpen
  {
  }

  lemma CallIsOpened(st: Stream, idx: int, o: Item)
    requires Kept(st) && st.started && !st.itemOpen && (idx in st.items ==> !st.items[idx].isOpen)
    requires o.isOpen && !o.closed && o.args == ArgsIn(st.items, idx)
    ensures Kept(Put(st.(items := st.items[idx := o]), CallAdded(o.outputIdx, idx, o.callId, o.name)))
  {
    hide TextOf, Echoed, Sane;
    ItemReplaced(st.out, st.items, idx, o);
    var b := CallAdded(o.outputIdx, idx, o.callId, o.name);
    LogSnoc(st.out, b);
    EchoedSnoc(st.out, st.items[idx := o], b);
  }

  lemma ArgsKeep(st: Stream, idx: int, args: string)
    requires Kept(st) && st.started && idx in st.items && !st.items[idx].closed
    ensures var after := PutArgs(st, idx, args); var item := st.items[idx];
            && Kept(after) && after.started && after.accText == st.accText
            && after.items == st.items[idx := item.(args := item.args + if item.isOpen then args else "")]
  {
    hide TextOf, Echoed, Sane;
    var item := st.items[idx];
    if args != "" && item.isOpen {
      ArgsAreEchoed(st.out, st.items, idx, item.outputIdx, args);
      LogSnoc(st.out, ArgsDelta(item.outputIdx, idx, args));
    } else {
      assert item.args + "" == item.args;
    }
  }

  lemma ArgsAreEchoed(log: seq<Sent>, items: map<int, Item>, idx: int, at: nat, args: string)
    requires Echoed(log, items) && Sane(items) && idx in items && items[idx].isOpen
    ensures var more := items[idx := items[idx].(args := items[idx].args + args)];
            Echoed(log + [Sent(|log|, ArgsDelta(at, idx, args))], more) && Sane(more)
  {
    hide ArgsOf;
    LogSnoc(log, ArgsDelta(at, idx, args));
  }

  /** No item is closed before the end. */
  ghost predicate NoneClosed(items: map<int, Item>) {
    forall k :: k in items ==> !items[k].closed
  }

  /** What a tool delta makes of its item. */
  function Told(item: Item, id: string, name: string, args: string): Item {
    var known := OpenedIfKnown(Noted(item, id, name));
    known.(args := known.args + if known.isOpen then args else "")
  }

  lemma ToolKeeps(st: Stream, idx: int, id: string, name: string, args: string)
    requires Kept(st) && st.started && NoneClosed(st.items)
    ensures var after := PutTool(st, idx, id, name, args);
            && Kept(after) && after.started && NoneClosed(after.items) && after.accText == st.accText
            && idx in after.items
            && after.items == st.items[idx := Told(ItemFor(st, idx), id, name, args).(outputIdx := after.items[idx].outputIdx)]
  {
    var item := Noted(ItemFor(st, idx), id, name);
    OpenCallKeeps(st, idx, item);
    hide Kept, OpenCall, PutArgs;
    ArgsKeep(OpenCall(st, idx, item), idx, args);
  }

  lemma PutKeeps(st: Stream, b: Body)
    requires Kept(st) && st.started && b == KeepAlive
    ensures Kept(Put(st, b))
  {
    hide TextOf, Echoed, Sane;
    LogSnoc(st.out, b);
    EchoedSnoc(st.out, st.items, b);
  }

  // ----- whole runs -----

  /** A chunk has begun. */
  predicate Begun(inputs: seq<Input>) {
    inputs != [] && (inputs[|inputs| - 1].Begin? || Begun(inputs[..|inputs| - 1]))
  }

  /** The call of index `k` after the tool deltas within chunks. */
  function SentCall(inputs: seq<Input>, k: int): Item {
    if inputs == [] then Item("", "", "", 0, false, false)
    else
      var n := |inputs| - 1;
      var before := SentCall(inputs[..n], k);
      if inputs[n].ToolIn? && inputs[n].idx == k && Begun(inputs[..n])
      then Told(before, inputs[n].id, inputs[n].name, inputs[n].args)
      else before
  }

  function RunAll(inputs: seq<Input>): Stream {
    Fold(Fresh, inputs, ApplyInput)
  }

  lemma RunIsFold(inputs: seq<Input>)
    ensures RunAll(inputs) == Fold(Fresh, inputs, ApplyInput)
  {
  }

  ghost predicate Remembers(st: Stream, inputs: seq<Input>) {
    && st.accText == InputText(inputs)
    && forall k: int :: ItemFor(st, k).(outputIdx := 0) == SentCall(inputs, k)
  }

  lemma ApplyKeeps(st: Stream, inp: Input)
    requires Kept(st) && NoneClosed(st.items)
    ensures var after := ApplyInput(st, inp);
            && Kept(after) && NoneClosed(after.items) && after.stopped == st.stopped
            && after.started == (st.started || inp.Begin?)
            && after.accText == st.accText + (if inp.TextIn? then inp.text else "")
            && (!(inp.ToolIn? && st.started) ==> after.items == st.items)
  {
    ApplyStopped(st, inp);
    hide Kept, PutText, PutTool, StartResponse, Put;
    match inp
    case Begin => StartKeeps(st);
    case TextIn(text) => TextKeeps(st, text);
    case ToolIn(idx, id, name, args) => if st.started { ToolKeeps(st, idx, id, name, args); }
    case PingIn => ApplyPing(st);
    case FinishIn(_) => StatusIsFree(st, inp);
    case UsageIn(_) => StatusIsFree(st, inp);
    case ThinkingIn(_) =>
  }

  lemma ApplyStopped(st: Stream, inp: Input)
    ensures ApplyInput(st, inp).stopped == st.stopped
  {
  }

  lemma ApplyPing(st: Stream)
    requires Kept(st)
    ensures st.started ==> Kept(Put(st, KeepAlive))
    ensures var p := Put(st, KeepAlive); p.items == st.items && p.accText == st.accText && p.started == st.started
  {
    if st.started {
      PutKeeps(st, KeepAlive);
    }
  }

  lemma StatusIsFree(st: Stream, inp: Input)
    requires Kept(st) && (inp.FinishIn? || inp.UsageIn?)
    ensures Kept(ApplyInput(st, inp))
  {
    hide TextOf, Echoed, Sane;
  }

  lemma ApplyRemembers(st: Stream, inputs: seq<Input>, inp: Input)
    requires Kept(st) && NoneClosed(st.items) && Remembers(st, inputs) && st.started == Begun(inputs)
    ensures Remembers(ApplyInput(st, inp), inputs + [inp])
  {
    hide *;
    ApplyKeeps(st, inp);
    SentSnoc(inputs, inp);
    if inp.ToolIn? && st.started {
      ToolRemembers(st, inputs, inp);
    } else {
      TextRemembered(st, inputs);
      SameItemsRemember(st, ApplyInput(st, inp), inputs, inputs + [inp]);
    }
  }

  lemma SentSnoc(inputs: seq<Input>, inp: Input)
    ensures InputText(inputs + [inp]) == InputText(inputs) + if inp.TextIn? then inp.text else ""
    ensures forall k: int :: SentCall(inputs + [inp], k) ==
              if inp.ToolIn? && inp.idx == k && Begun(inputs) then Told(SentCall(inputs, k), inp.id, inp.name, inp.args)
              else SentCall(inputs, k)
  {
    hide Told, Begun;
    assert (inputs + [inp])[..|inputs|] == inputs;
  }

  lemma TextRemembered(st: Stream, inputs: seq<Input>)
    requires Remembers(st, inputs)
    ensures st.accText == InputText(inputs)
  {
  }

  lemma SameItemsRemember(st: Stream, after: Stream, inputs: seq<Input>, more: seq<Input>)
    requires Remembers(st, inputs) && after.items == st.items && after.accText == InputText(more)
    requires forall k: int :: SentCall(more, k) == SentCall(inputs, k)
    ensures Remembers(after, more)
  {
    hide InputText, SentCall;
    forall k: int
      ensures ItemFor(after, k).(outputIdx := 0) == SentCall(more, k)
    {
      assert ItemFor(st, k).(outputIdx := 0) == SentCall(inputs, k);
    }
  }

  lemma ToolRemembers(st: Stream, inputs: seq<Input>, inp: Input)
    requires Kept(st) && NoneClosed(st.items) && Remembers(st, inputs) && st.started && Begun(inputs) && inp.ToolIn?
    requires InputText(inputs + [inp]) == InputText(inputs) + ""
    requires forall k: int :: SentCall(inputs + [inp], k) ==
              if inp.idx == k then Told(SentCall(inputs, k), inp.id, inp.name, inp.args) else SentCall(inputs, k)
    ensures Remembers(ApplyInput(st, inp), inputs + [inp])
  {
    hide Kept, PutTool, InputText, SentCall, Begun, Told, NoneClosed;
    ToolKeeps(st, inp.idx, inp.id, inp.name, inp.args);
    var after := ApplyInput(st, inp);
    forall k: int
      ensures ItemFor(after, k).(outputIdx := 0) == SentCall(inputs + [inp], k)
    {
      assert ItemFor(st, k).(outputIdx := 0) == SentCall(inputs, k);
      ToldForgetsPlace(ItemFor(st, k), inp.id, inp.name, inp.args);
    }
  }

  lemma ToldForgetsPlace(item: Item, id: string, name: string, args: string)
    ensures Told(item, id, name, args).(outputIdx := 0) == Told(item.(outputIdx := 0), id, name, args)
  {
  }

  lemma {:induction false} RunKept(inputs: seq<Input>)
    ensures var st := RunAll(inputs);
            Kept(st) && NoneClosed(st.items) && !st.stopped && st.started == Begun(inputs) && Remembers(st, inputs)
  {
    if inputs == [] {
      FreshIsKept();
    } else {
      var n := |inputs| - 1;
      RunKept(inputs[..n]);
      ApplyKeeps(RunAll(inputs[..n]), inputs[n]);
      ApplyRemembers(RunAll(inputs[..n]), inputs[..n], inputs[n]);
      assert inputs == inputs[..n] + [inputs[n]];
    }
  }

  // ----- the end of the response -----

  lemma CloseItemKeeps(st: Stream, idx: int)
    requires Kept(st) && st.started
    ensures var after := CloseItem(st, idx);
            && Kept(after) && after.started && after.itemOpen == st.itemOpen && after.accText == st.accText
            && after.items == if idx in st.items && st.items[idx].isOpen then st.items[idx := st.items[idx].(closed := true)] else st.items
  {
    hide TextOf, Echoed, Sane;
    if idx in st.items && st.items[idx].isOpen {
      var item := st.items[idx];
      if item.closed {
        assert st.items[idx := item.(closed := true)] == st.items;
      } else {
        ItemIsClosed(st, idx);
      }
    }
  }

  lemma ItemIsClosed(st: Stream, idx: int)
    requires Kept(st) && st.started && idx in st.items && st.items[idx].isOpen && !st.items[idx].closed
    ensures Kept(CloseItem(st, idx))
  {
    hide TextOf, Echoed, Sane;
    var item := st.items[idx];
    var b, d := ArgsDone(item.outputIdx, idx, item.args), CallDone(item.outputIdx, idx, item.callId, item.name, item.args);
    var more := st.items[idx := item.(closed := true)];
    ItemReplaced(st.out, st.items, idx, item.(closed := true));
    EchoedAt(st.out, st.items, idx);
    LogSnoc(st.out, b);
    EchoedSnoc(st.out, more, b);
    var out := st.out + [Sent(|st.out|, b)];
    EchoedAt(out, more, idx);
    LogSnoc(out, d);
    EchoedSnoc(out, more, d);
  }

  lemma EchoedAt(log: seq<Sent>, items: map<int, Item>, idx: int)
    requires Echoed(log, items) && idx in items
    ensures ArgsOf(log, idx) == items[idx].args
  {
    hide ArgsOf;
    assert ArgsOf(log, idx) == ArgsIn(items, idx);
  }

  lemma {:induction false} CloseItemsKeeps(st: Stream, order: seq<int>)
    requires Kept(st) && st.started
    ensures var after := CloseItems(st, order);
            && Kept(after) && after.started && after.itemOpen == st.itemOpen && after.accText == st.accText
            && after.items.Keys == st.items.Keys
            && forall k :: k in st.items ==>
                 && after.items[k].args == st.items[k].args && after.items[k].isOpen == st.items[k].isOpen
                 && (k in order && st.items[k].isOpen ==> after.items[k].closed)
  {
    hide Kept, CloseItem;
    if order != [] {
      var n := |order| - 1;
      CloseItemsKeeps(st, order[..n]);
      CloseItemKeeps(CloseItems(st, order[..n]), order[n]);
      assert order == order[..n] + [order[n]];
    }
  }

  lemma FinishKeeps(st: Stream, order: seq<int>)
    requires Kept(st) && !st.stopped && forall k :: k in st.items ==> k in order
    ensures var fin := FinishWith(st, order);
            && fin.stopped && FinishWith(fin, order) == fin
            && TextOf(fin.out) == st.accText && Echoed(fin.out, fin.items)
            && fin.items.Keys == st.items.Keys && (forall k :: k in st.items ==> fin.items[k].args == st.items[k].args)
            && fin.out != []
            && fin.out[|fin.out| - 1].body == Completed(StartResponse(st).status, st.usage.prompt, st.usage.completion)
  {
    hide TextOf, Echoed, Sane, CloseItem, CloseMessage, StartResponse, Kept;
    StopIsFree(st);
    StartKeeps(st.(stopped := true));
    var s := StartResponse(st.(stopped := true));
    CloseKeeps(s);
    CloseItemsKeeps(CloseMessage(s), order);
    var closed := CloseItems(CloseMessage(s), order);
    EndIsReached(closed);
    FinishCarries(st, order);
  }

  lemma StopIsFree(st: Stream)
    requires Kept(st)
    ensures Kept(st.(stopped := true))
    ensures StartResponse(st.(stopped := true)) == StartResponse(st).(stopped := true)
  {
    hide TextOf, Echoed, Sane;
  }

  lemma EndIsReached(st: Stream)
    requires Kept(st)
    ensures var b := CompletedBy(st); TextOf(Put(st, b).out) == st.accText && Echoed(Put(st, b).out, st.items)
  {
    hide TextOf, Echoed, Sane;
    LogSnoc(st.out, CompletedBy(st));
    EchoedSnoc(st.out, st.items, CompletedBy(st));
  }

  /** Status and usage survive to the end. */
  lemma FinishCarries(st: Stream, order: seq<int>)
    requires !st.stopped
    ensures var fin := FinishWith(st, order);
            && fin.stopped && fin.out != []
            && fin.out[|fin.out| - 1].body == Completed(StartResponse(st).status, st.usage.prompt, st.usage.completion)
  {
    var s := CloseMessage(StartResponse(st.(stopped := true)));
    assert s.stopped && s.status == StartResponse(st).status && s.usage == st.usage;
    hide StartResponse, CloseMessage;
    ClosingCarries(s, order);
  }

  lemma {:induction false} ClosingCarries(st: Stream, order: seq<int>)
    ensures var c := CloseItems(st, order); c.stopped == st.stopped && c.status == st.status && c.usage == st.usage
  {
    if order != [] {
      ClosingCarries(st, order[..|order| - 1]);
    }
  }

  /** The client receives exactly the text sent, and of each call the arguments from where id and name were known. */
  lemma EverythingKnownArrives(inputs: seq<Input>, order: seq<int>, k: int)
    requires forall i :: i in RunAll(inputs).items ==> i in order
    ensures var out := FinishWith(RunAll(inputs), order).out;
            TextOf(out) == InputText(inputs) && ArgsOf(out, k) == SentCall(inputs, k).args
  {
    var st := RunAll(inputs);
    RunKept(inputs);
    hide RunAll, Kept, TextOf, InputText, SentCall;
    FinishKeeps(st, order);
    var fin := FinishWith(st, order);
    assert ArgsOf(fin.out, k) == ArgsIn(fin.items, k);
    assert ItemFor(st, k).(outputIdx := 0) == SentCall(inputs, k);
  }

  /** A keep-alive that comes once the response has started is passed on. */
  lemma PingIsPassedOn(inputs: seq<Input>)
    requires Begun(inputs)
    ensures var st := RunAll(inputs); RunAll(inputs + [PingIn]).out == st.out + [Sent(|st.out|, KeepAlive)]
  {
    RunKept(inputs);
    FoldSnoc(Fresh, ApplyInput, inputs, PingIn);
    hide Fold, Begun, Echoed, Sane, TextOf;
  }

  // ----- how the response ends -----

  lemma CloseKeepsEnd(st: Stream)
    ensures var after := CloseMessage(st);
            after.started == st.started && after.status == st.status && after.usage == st.usage
  {
  }

  lemma ToolKeepsEnd(st: Stream, idx: int, id: string, name: string, args: string)
    ensures var after := PutTool(st, idx, id, name, args);
            after.started == st.started && after.status == st.status && after.usage == st.usage
  {
    CloseKeepsEnd(st);
    hide CloseMessage;
  }

  lemma StatusAfterStep(st: Stream, inp: Input)
    ensures var after := ApplyInput(st, inp);
            && after.started == (st.started || inp.Begin?)
            && (st.started && !inp.FinishIn? ==> after.status == st.status)
            && after.usage == if inp.UsageIn? then inp.usage else st.usage
  {
    hide PutTool;
    if inp.ToolIn? {
      ToolKeepsEnd(st, inp.idx, inp.id, inp.name, inp.args);
    }
  }

  /** The status of the last finish reason within a chunk, and the last usage. */
  lemma {:induction false} EndIsRemembered(inputs: seq<Input>, b: nat, k: nat, u: nat)
    requires b < k < |inputs| && inputs[b].Begin? && inputs[k].FinishIn?
    requires forall j :: k < j < |inputs| ==> !inputs[j].FinishIn?
    requires u < |inputs| && inputs[u].UsageIn? && forall j :: u < j < |inputs| ==> !inputs[j].UsageIn?
    ensures var st := RunAll(inputs);
            && st.started && st.usage == inputs[u].usage
            && st.status == StatusFor(inputs[k].reason)
  {
    hide ApplyInput, StatusFor;
    StartIsRemembered(inputs, b);
    StatusIsRemembered(inputs, b, k);
    UsageIsRemembered(inputs, u);
  }

  lemma {:induction false} StartIsRemembered(inputs: seq<Input>, b: nat)
    requires b < |inputs| && inputs[b].Begin?
    ensures RunAll(inputs).started
  {
    hide ApplyInput;
    var n := |inputs| - 1;
    StatusAfterStep(RunAll(inputs[..n]), inputs[n]);
    if b < n {
      StartIsRemembered(inputs[..n], b);
    }
  }

  lemma {:induction false} StatusIsRemembered(inputs: seq<Input>, b: nat, k: nat)
    requires b < k < |inputs| && inputs[b].Begin? && inputs[k].FinishIn?
    requires forall j :: k < j < |inputs| ==> !inputs[j].FinishIn?
    ensures RunAll(inputs).status == StatusFor(inputs[k].reason)
  {
    hide StatusFor;
    var n := |inputs| - 1;
    if k < n {
      StatusIsRemembered(inputs[..n], b, k);
      StartIsRemembered(inputs[..n], b);
      StatusAfterStep(RunAll(inputs[..n]), inputs[n]);
    }
  }

  lemma {:induction false} UsageIsRemembered(inputs: seq<Input>, u: nat)
    requires u < |inputs| && inputs[u].UsageIn? && forall j :: u < j < |inputs| ==> !inputs[j].UsageIn?
    ensures RunAll(inputs).usage == inputs[u].usage
  {
    hide ApplyInput;
    var n := |inputs| - 1;
    StatusAfterStep(RunAll(inputs[..n]), inputs[n]);
    if u < n {
      UsageIsRemembered(inputs[..n], u);
    }
  }

  /**
   The last event of every response: "incomplete" where the last finish reason was the length or the
   content filter and "completed" where it was any other, with the usage that came last.
   */
  lemma CompletionIs(inputs: seq<Input>, order: seq<int>, b: nat, k: nat, u: nat)
    requires b < k < |inputs| && inputs[b].Begin? && inputs[k].FinishIn?
    requires forall j :: k < j < |inputs| ==> !inputs[j].FinishIn?
    requires u < |inputs| && inputs[u].UsageIn? && forall j :: u < j < |inputs| ==> !inputs[j].UsageIn?
    ensures var out := FinishWith(RunAll(inputs), order).out;
            && out != []
            && out[|out| - 1].body ==
               Completed(if inputs[k].reason in {"length", "content_filter"} then "incomplete" else "completed",
                         inputs[u].usage.prompt, inputs[u].usage.completion)
  {
    RunKept(inputs);
    EndIsRemembered(inputs, b, k, u);
    hide RunAll, FinishWith, Kept, NoneClosed, Remembers;
    FinishCarries(RunAll(inputs), order);
  }

  // ----- when all arguments arrive -----

  /** Whether an input is a delta of call `k` that the translator sees: one inside a chunk. */
  predicate Concerns(inputs: seq<Input>, inp: Input, k: int) {
    inp.ToolIn? && inp.idx == k && Begun(inputs)
  }

  /** All arguments the upstream sends for a call. */
  function ArgsGiven(inputs: seq<Input>, k: int): string {
    if inputs == [] then ""
    else
      var n := |inputs| - 1;
      ArgsGiven(inputs[..n], k) + if Concerns(inputs[..n], inputs[n], k) then inputs[n].args else ""
  }

  /** Some delta of the call gave an id, some a name. */
  predicate IdGiven(inputs: seq<Input>, k: int) {
    inputs != [] &&
    var n := |inputs| - 1;
    IdGiven(inputs[..n], k) || (Concerns(inputs[..n], inputs[n], k) && inputs[n].id != "")
  }

  predicate NameGiven(inputs: seq<Input>, k: int) {
    inputs != [] &&
    var n := |inputs| - 1;
    NameGiven(inputs[..n], k) || (Concerns(inputs[..n], inputs[n], k) && inputs[n].name != "")
  }

  /** Arguments came while neither their own delta nor an earlier one had given both id and name. */
  predicate Early(inputs: seq<Input>, k: int) {
    inputs != [] &&
    var n := |inputs| - 1;
    || Early(inputs[..n], k)
    || (Concerns(inputs[..n], inputs[n], k) && inputs[n].args != "" && !(IdGiven(inputs, k) && NameGiven(inputs, k)))
  }

  /** What the translator keeps of a call, in terms of what was given. */
  lemma {:induction false} KeptOfGiven(inputs: seq<Input>, k: int)
    ensures var item := SentCall(inputs, k);
            && (item.callId != "" <==> IdGiven(inputs, k)) && (item.name != "" <==> NameGiven(inputs, k))
            && (item.isOpen <==> IdGiven(inputs, k) && NameGiven(inputs, k))
            && if Early(inputs, k) then |item.args| < |ArgsGiven(inputs, k)| else item.args == ArgsGiven(inputs, k)
  {
    if inputs != [] {
      KeptOfGiven(inputs[..|inputs| - 1], k);
      hide Begun;
    }
  }

  /** The id of a call is the first that is not empty, whatever comes after it, and so is its name. */
  lemma {:induction false} HeaderIsTheFirst(inputs: seq<Input>, k: int, i: nat, j: nat)
    requires i < |inputs| && Concerns(inputs[..i], inputs[i], k) && inputs[i].id != ""
    requires forall m | 0 <= m < i :: Concerns(inputs[..m], inputs[m], k) ==> inputs[m].id == ""
    requires j < |inputs| && Concerns(inputs[..j], inputs[j], k) && inputs[j].name != ""
    requires forall m | 0 <= m < j :: Concerns(inputs[..m], inputs[m], k) ==> inputs[m].name == ""
    ensures var item := SentCall(inputs, k);
            item.callId == inputs[i].id && item.name == inputs[j].name && item.isOpen
  {
    hide Begun;
    IdIsTheFirst(inputs, k, i);
    NameIsTheFirst(inputs, k, j);
    hide SentCall;
    KeptOfGiven(inputs, k);
  }

  lemma {:induction false} IdIsTheFirst(inputs: seq<Input>, k: int, i: nat)
    requires i <= |inputs|
    requires i < |inputs| ==> Concerns(inputs[..i], inputs[i], k) && inputs[i].id != ""
    requires forall m | 0 <= m < i :: Concerns(inputs[..m], inputs[m], k) ==> inputs[m].id == ""
    ensures SentCall(inputs, k).callId == if i < |inputs| then inputs[i].id else ""
  {
    hide Begun;
    if inputs != [] {
      var n := |inputs| - 1;
      var before := inputs[..n];
      assert forall m | 0 <= m < n :: before[..m] == inputs[..m];
      IdIsTheFirst(before, k, if i < n then i else n);
    }
  }

  lemma {:induction false} NameIsTheFirst(inputs: seq<Input>, k: int, i: nat)
    requires i <= |inputs|
    requires i < |inputs| ==> Concerns(inputs[..i], inputs[i], k) && inputs[i].name != ""
    requires forall m | 0 <= m < i :: Concerns(inputs[..m], inputs[m], k) ==> inputs[m].name == ""
    ensures SentCall(inputs, k).name == if i < |inputs| then inputs[i].name else ""
  {
    hide Begun;
    if inputs != [] {
      var n := |inputs| - 1;
      var before := inputs[..n];
      assert forall m | 0 <= m < n :: before[..m] == inputs[..m];
      NameIsTheFirst(before, k, if i < n then i else n);
    }
  }

  /**
   A call's arguments arrive in full if and only if none came early; otherwise some are missing.
   */
  lemma AllArgumentsArriveIff(inputs: seq<Input>, order: seq<int>, k: int)
    requires forall i :: i in RunAll(inputs).items ==> i in order
    ensures var received := ArgsOf(FinishWith(RunAll(inputs), order).out, k);
            && (received == ArgsGiven(inputs, k) <==> !Early(inputs, k))
            && (Early(inputs, k) ==> |received| < |ArgsGiven(inputs, k)|)
  {
    hide *;
    EverythingKnownArrives(inputs, order, k);
    KeptOfGiven(inputs, k);
  }

  /** Arguments ahead of id and name are lost. */
  lemma EarlyArgumentsAreLost(args: string, id: string, name: string, k: int, order: seq<int>)
    requires args != "" && k in order
    ensures var inputs := [Begin, ToolIn(k, "", "", args), ToolIn(k, id, name, "")];
            && RunAll(inputs).items.Keys == {k}
            && ArgsGiven(inputs, k) == args && ArgsOf(FinishWith(RunAll(inputs), order).out, k) == ""
  {
    EarlyInputs(args, id, name, k);
    EarlyRun(args, id, name, k);
    hide *;
    EverythingKnownArrives([Begin, ToolIn(k, "", "", args), ToolIn(k, id, name, "")], order, k);
  }

  lemma EarlyInputs(args: string, id: string, name: string, k: int)
    ensures var inputs := [Begin, ToolIn(k, "", "", args), ToolIn(k, id, name, "")];
            ArgsGiven(inputs, k) == args && SentCall(inputs, k).args == ""
  {
    hide ArgsGiven, SentCall;
    var a, b, c := Begin, ToolIn(k, "", "", args), ToolIn(k, id, name, "");
    var i1, i2 := [a], [a, b];
    assert Begun(i1) && Begun(i2) by {
      assert i2[..1] == i1;
    }
    hide Begun;
    NothingGiven(k);
    GivenSnoc([], a, k);
    GivenSnoc(i1, b, k);
    GivenSnoc(i2, c, k);
    SentSnoc([], a);
    SentSnoc(i1, b);
    SentSnoc(i2, c);
    assert [] + [a] == i1 && i1 + [b] == i2 && i2 + [c] == [a, b, c];
    assert "" + args + "" == args;
  }

  lemma NothingGiven(k: int)
    ensures ArgsGiven([], k) == "" && SentCall([], k) == Item("", "", "", 0, false, false)
  {
  }

  lemma GivenSnoc(inputs: seq<Input>, inp: Input, k: int)
    ensures ArgsGiven(inputs + [inp], k) == ArgsGiven(inputs, k) + if Concerns(inputs, inp, k) then inp.args else ""
  {
    assert (inputs + [inp])[..|inputs|] == inputs;
  }

  lemma EarlyRun(args: string, id: string, name: string, k: int)
    ensures RunAll([Begin, ToolIn(k, "", "", args), ToolIn(k, id, name, "")]).items.Keys == {k}
  {
    var a, b, c := Begin, ToolIn(k, "", "", args), ToolIn(k, id, name, "");
    FoldOne(Fresh, ApplyInput, a);
    FoldSnoc(Fresh, ApplyInput, [a], b);
    FoldSnoc(Fresh, ApplyInput, [a] + [b], c);
    assert [a, b, c] == [a] + [b] + [c];
    var s1 := ApplyInput(Fresh, a);
    var s2 := ApplyInput(s1, b);
    assert s2.started && s2.items.Keys == {k} && !s2.itemOpen;
    assert CloseMessage(s2) == s2;
    assert ApplyInput(s2, c).items.Keys == {k};
  }
}
