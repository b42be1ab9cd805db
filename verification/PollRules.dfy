/**
 What polling a growing trajectory adds up to (`internal/client/client.go`, `pollCascade`):
 the same snapshot is read again and again, and only what is new in it is passed on.
 `CascadePoll` has the loop itself.
 */
module PollRules {

  datatype Tool = Tool(id: string, name: string, args: string)

  datatype Step = Step(typ: nat, text: string, response: string, modified: string, thinking: string,
                       errorText: string, tools: seq<Tool>)

  /** A chunk handed to the caller, with the step it came from. */
  datatype Chunk = TextChunk(step: nat, text: string) | ThinkingChunk(step: nat, text: string)

  // ----- one cursor -----

  /** What has been passed on after `live` is seen: its bytes beyond the cursor are added. */
  function Grow(done: string, live: string): string {
    if |live| > |done| then done + live[|done|..] else done
  }

  /** The result is the text just seen exactly if that extends what was passed on before. */
  lemma GrowIff(done: string, live: string)
    ensures Grow(done, live) == live <==> done <= live
    ensures done <= Grow(done, live) && |Grow(done, live)| == if |live| > |done| then |live| else |done|
  {
    if |live| > |done| && Grow(done, live) == live {
      assert live[..|done|] == done;
    }
  }

  /** The live text of a step: the response, or else what the step calls its text. */
  function Live(s: Step): string {
    if s.response == "" then s.text else s.response
  }

  // ----- a step over all snapshots -----

  function LiveAt(snapshot: seq<Step>, i: nat): string {
    if i < |snapshot| then Live(snapshot[i]) else ""
  }

  function ThinkingAt(snapshot: seq<Step>, i: nat): string {
    if i < |snapshot| then snapshot[i].thinking else ""
  }

  /** The text passed on for step `i` after the snapshots. */
  function Passed(seen: seq<seq<Step>>, i: nat): string {
    if seen == [] then "" else Grow(Passed(seen[..|seen| - 1], i), LiveAt(seen[|seen| - 1], i))
  }

  function Thought(seen: seq<seq<Step>>, i: nat): string {
    if seen == [] then "" else Grow(Thought(seen[..|seen| - 1], i), ThinkingAt(seen[|seen| - 1], i))
  }

  /** The non-empty texts among some. */
  function NonEmpty(texts: seq<string>): seq<string> {
    if texts == [] then []
    else
      var t := texts[|texts| - 1];
      NonEmpty(texts[..|texts| - 1]) + if t == "" then [] else [t]
  }

  /** The live texts of step `i` and its thinking, in the order they were seen. */
  function Observed(seen: seq<seq<Step>>, i: nat): seq<string> {
    NonEmpty(seq(|seen|, k requires 0 <= k < |seen| => LiveAt(seen[k], i)))
  }

  function ObservedThinking(seen: seq<seq<Step>>, i: nat): seq<string> {
    NonEmpty(seq(|seen|, k requires 0 <= k < |seen| => ThinkingAt(seen[k], i)))
  }

  ghost predicate Growing(texts: seq<string>) {
    forall k :: 0 <= k < |texts| - 1 ==> texts[k] <= texts[k + 1]
  }

  function LastOf(texts: seq<string>): string {
    if texts == [] then "" else texts[|texts| - 1]
  }

  function Joined(texts: seq<string>): string {
    if texts == [] then "" else Grow(Joined(texts[..|texts| - 1]), texts[|texts| - 1])
  }

  lemma {:induction false} JoinedIsLast(texts: seq<string>)
    requires Growing(texts)
    ensures Joined(texts) == LastOf(texts)
  {
    if texts != [] {
      var n := |texts| - 1;
      assert Growing(texts[..n]) by {
        forall k | 0 <= k < n - 1
          ensures texts[..n][k] <= texts[..n][k + 1]
        {
          assert texts[k] <= texts[k + 1];
        }
      }
      JoinedIsLast(texts[..n]);
      GrowIff(Joined(texts[..n]), texts[n]);
      assert n > 0 ==> texts[n - 1] <= texts[n - 1 + 1];
    }
  }

  lemma {:induction false} JoinedSkipsEmpty(texts: seq<string>)
    ensures Joined(NonEmpty(texts)) == Joined(texts)
  {
    if texts != [] {
      var n := |texts| - 1;
      JoinedSkipsEmpty(texts[..n]);
      var front := NonEmpty(texts[..n]);
      if texts[n] == "" {
        assert NonEmpty(texts) == front;
      } else {
        assert NonEmpty(texts)[..|front|] == front;
      }
    }
  }

  lemma {:induction false} PassedIsJoined(seen: seq<seq<Step>>, i: nat)
    ensures Passed(seen, i) == Joined(seq(|seen|, k requires 0 <= k < |seen| => LiveAt(seen[k], i)))
    ensures Thought(seen, i) == Joined(seq(|seen|, k requires 0 <= k < |seen| => ThinkingAt(seen[k], i)))
  {
    hide Grow, LiveAt, ThinkingAt;
    if seen != [] {
      var n := |seen| - 1;
      PassedIsJoined(seen[..n], i);
      var live := seq(|seen|, k requires 0 <= k < |seen| => LiveAt(seen[k], i));
      var thinking := seq(|seen|, k requires 0 <= k < |seen| => ThinkingAt(seen[k], i));
      assert live[..n] == seq(n, k requires 0 <= k < n => LiveAt(seen[..n][k], i));
      assert thinking[..n] == seq(n, k requires 0 <= k < n => ThinkingAt(seen[..n][k], i));
    }
  }

  /** If a step's text, or its thinking, only ever grows, exactly the last of it has been passed on. */
  lemma NothingLostOrRepeated(seen: seq<seq<Step>>, i: nat)
    ensures Growing(Observed(seen, i)) ==> Passed(seen, i) == LastOf(Observed(seen, i))
    ensures Growing(ObservedThinking(seen, i)) ==> Thought(seen, i) == LastOf(ObservedThinking(seen, i))
  {
    PassedIsJoined(seen, i);
    JoinedSkipsEmpty(seq(|seen|, k requires 0 <= k < |seen| => LiveAt(seen[k], i)));
    JoinedSkipsEmpty(seq(|seen|, k requires 0 <= k < |seen| => ThinkingAt(seen[k], i)));
    if Growing(Observed(seen, i)) {
      JoinedIsLast(Observed(seen, i));
    }
    if Growing(ObservedThinking(seen, i)) {
      JoinedIsLast(ObservedThinking(seen, i));
    }
  }

  // ----- the final sweep -----

  /** The response is completed, and topped up from the modified response where that extends it. */
  function Swept(done: string, s: Step): string {
    var a := Grow(done, s.response);
    if s.response <= s.modified then Grow(a, s.modified) else a
  }

  /** In any case a sweep only adds. */
  lemma SweptExtends(done: string, s: Step)
    ensures done <= Swept(done, s)
  {
    GrowIff(done, s.response);
    var a := Grow(done, s.response);
    GrowIff(a, s.modified);
    assert a[..|done|] == done;
    assert Swept(done, s)[..|done|] == done;
  }

  /** The text a sweep is after: the modified response if that extends the response, else the response. */
  function Best(s: Step): string {
    if s.response <= s.modified then s.modified else s.response
  }

  /** It is reached exactly if it extends what was passed on before. */
  lemma SweptIs(done: string, s: Step)
    ensures Swept(done, s) == Best(s) <==> done <= Best(s)
  {
    SweptExtends(done, s);
    GrowIff(done, s.response);
    if done <= Best(s) && s.response <= s.modified {
      var longer := if |s.response| > |done| then s.response else done;
      assert longer <= s.modified;
      assert Grow(done, s.response) == longer by {
        assert |done| < |s.response| ==> s.response[..|done|] == s.modified[..|done|] == done;
      }
      GrowIff(longer, s.modified);
    }
  }

  /** The final text of step `i`: the sweep, where one was read, on top of the snapshots. */
  function Final(seen: seq<seq<Step>>, sweep: seq<Step>, i: nat): string {
    if i < |sweep| then Swept(Passed(seen, i), sweep[i]) else Passed(seen, i)
  }

  /**
   What a step has passed on at the end, given that what was seen of it only grew: its last text, or
   the sweep's where one was read and extends it; and its last thinking.
   */
  lemma FinalIs(seen: seq<seq<Step>>, sweep: seq<Step>, i: nat)
    ensures Growing(ObservedThinking(seen, i)) ==> Thought(seen, i) == LastOf(ObservedThinking(seen, i))
    ensures Growing(Observed(seen, i)) ==>
              var last := LastOf(Observed(seen, i));
              && last <= Final(seen, sweep, i)
              && (i >= |sweep| ==> Final(seen, sweep, i) == last)
              && (i < |sweep| ==> (Final(seen, sweep, i) == Best(sweep[i]) <==> last <= Best(sweep[i])))
  {
    hide Swept, Observed, ObservedThinking, Growing, Best;
    NothingLostOrRepeated(seen, i);
    if i < |sweep| {
      SweptIs(Passed(seen, i), sweep[i]);
      SweptExtends(Passed(seen, i), sweep[i]);
    }
  }

  // ----- the same, in the fields of the steps -----

  /** What was shown of step `i`: its response, or its text while there is no response. */
  function Shown(seen: seq<seq<Step>>, i: nat): seq<string> {
    if seen == [] then []
    else
      var last := seen[|seen| - 1];
      Shown(seen[..|seen| - 1], i) +
      if i >= |last| then []
      else if last[i].response != "" then [last[i].response]
      else if last[i].text != "" then [last[i].text]
      else []
  }

  function ShownThinking(seen: seq<seq<Step>>, i: nat): seq<string> {
    if seen == [] then []
    else
      var last := seen[|seen| - 1];
      ShownThinking(seen[..|seen| - 1], i) + if i < |last| && last[i].thinking != "" then [last[i].thinking] else []
  }

  lemma {:induction false} ShownIsObserved(seen: seq<seq<Step>>, i: nat)
    ensures Shown(seen, i) == Observed(seen, i) && ShownThinking(seen, i) == ObservedThinking(seen, i)
  {
    if seen != [] {
      var n := |seen| - 1;
      ShownIsObserved(seen[..n], i);
      var live := seq(|seen|, k requires 0 <= k < |seen| => LiveAt(seen[k], i));
      var thinking := seq(|seen|, k requires 0 <= k < |seen| => ThinkingAt(seen[k], i));
      assert live[..n] == seq(n, k requires 0 <= k < n => LiveAt(seen[..n][k], i));
      assert thinking[..n] == seq(n, k requires 0 <= k < n => ThinkingAt(seen[..n][k], i));
    }
  }

  /** The responses of step `i` in the snapshots that have it. */
  function Responses(seen: seq<seq<Step>>, i: nat): seq<string> {
    if seen == [] then []
    else
      var last := seen[|seen| - 1];
      Responses(seen[..|seen| - 1], i) + if i < |last| then [last[i].response] else []
  }

  /** Where every snapshot gives a response, texts and modified responses are not shown. */
  lemma {:induction false} ResponsesAreShown(seen: seq<seq<Step>>, i: nat)
    requires "" !in Responses(seen, i)
    ensures Shown(seen, i) == Responses(seen, i)
  {
    if seen != [] {
      var n := |seen| - 1;
      var front := Responses(seen[..n], i);
      assert front <= Responses(seen, i);
      assert forall t :: t in front ==> t in Responses(seen, i);
      ResponsesAreShown(seen[..n], i);
      if i < |seen[n]| {
        assert Responses(seen, i)[|front|] == seen[n][i].response;
      }
    }
  }

  /**
   Of a step whose shown texts only grow: the last of them was passed on, and with a sweep that reads the
   step again the modified response where that extends the response, else the response, exactly if this
   extends the last; and the last thinking.
   */
  ghost predicate Delivers(text: string, thinking: string, seen: seq<seq<Step>>, sweep: seq<Step>, i: nat) {
    && (Growing(ShownThinking(seen, i)) ==> thinking == LastOf(ShownThinking(seen, i)))
    && (Growing(Shown(seen, i)) ==>
          var last := LastOf(Shown(seen, i));
          && last <= text
          && (i >= |sweep| ==> text == last)
          && (i < |sweep| ==>
                var best := if sweep[i].response <= sweep[i].modified then sweep[i].modified else sweep[i].response;
                text == best <==> last <= best))
    && (Growing(Responses(seen, i)) && "" !in Responses(seen, i) && i >= |sweep| ==> text == LastOf(Responses(seen, i)))
  }

  lemma FinalDelivers(seen: seq<seq<Step>>, sweep: seq<Step>, i: nat)
    ensures Delivers(Final(seen, sweep, i), Thought(seen, i), seen, sweep, i)
  {
    FinalIs(seen, sweep, i);
    ShownIsObserved(seen, i);
    hide Observed, ObservedThinking, Shown, ShownThinking, Responses, Growing, Final, Thought;
    if "" !in Responses(seen, i) {
      ResponsesAreShown(seen, i);
    }
  }

  // ----- chunks -----

  function Texts(log: seq<Chunk>): string {
    if log == [] then ""
    else
      var c := log[|log| - 1];
      Texts(log[..|log| - 1]) + if c.TextChunk? then c.text else ""
  }

  function Thoughts(log: seq<Chunk>): string {
    if log == [] then ""
    else
      var c := log[|log| - 1];
      Thoughts(log[..|log| - 1]) + if c.ThinkingChunk? then c.text else ""
  }

  function TextOf(log: seq<Chunk>, i: nat): string {
    if log == [] then ""
    else
      var c := log[|log| - 1];
      TextOf(log[..|log| - 1], i) + if c.TextChunk? && c.step == i then c.text else ""
  }

  function ThoughtOf(log: seq<Chunk>, i: nat): string {
    if log == [] then ""
    else
      var c := log[|log| - 1];
      ThoughtOf(log[..|log| - 1], i) + if c.ThinkingChunk? && c.step == i then c.text else ""
  }

  lemma LogSnoc(log: seq<Chunk>, c: Chunk)
    ensures Texts(log + [c]) == Texts(log) + if c.TextChunk? then c.text else ""
    ensures Thoughts(log + [c]) == Thoughts(log) + if c.ThinkingChunk? then c.text else ""
    ensures forall i: nat :: TextOf(log + [c], i) == TextOf(log, i) + if c.TextChunk? && c.step == i then c.text else ""
    ensures forall i: nat :: ThoughtOf(log + [c], i) == ThoughtOf(log, i) + if c.ThinkingChunk? && c.step == i then c.text else ""
  {
    assert (log + [c])[..|log|] == log;
  }

  // ----- tool calls -----

  function KeyOf(t: Tool): string {
    if t.id == "" then t.name + ":" + t.args else t.id
  }

  function StepTools(steps: seq<Step>): seq<Tool> {
    if steps == [] then [] else StepTools(steps[..|steps| - 1]) + steps[|steps| - 1].tools
  }

  function AllTools(seen: seq<seq<Step>>): seq<Tool> {
    if seen == [] then [] else AllTools(seen[..|seen| - 1]) + StepTools(seen[|seen| - 1])
  }

  function Keys(tools: seq<Tool>): set<string> {
    set t | t in tools :: KeyOf(t)
  }

  /** The first tool call of every key, in order. */
  function Dedup(tools: seq<Tool>): seq<Tool> {
    if tools == [] then []
    else
      var rest, t := Dedup(tools[..|tools| - 1]), tools[|tools| - 1];
      if KeyOf(t) in Keys(rest) then rest else rest + [t]
  }

  lemma DedupSnoc(tools: seq<Tool>, t: Tool)
    ensures Dedup(tools + [t]) == if KeyOf(t) in Keys(Dedup(tools)) then Dedup(tools) else Dedup(tools) + [t]
  {
    assert (tools + [t])[..|tools|] == tools;
  }

  /** Every key seen is there, and once. */
  lemma {:induction false} DedupKeepsEachKeyOnce(tools: seq<Tool>)
    ensures Keys(Dedup(tools)) == Keys(tools)
    ensures forall i, j :: 0 <= i < j < |Dedup(tools)| ==> KeyOf(Dedup(tools)[i]) != KeyOf(Dedup(tools)[j])
  {
    if tools != [] {
      var front, t := tools[..|tools| - 1], tools[|tools| - 1];
      DedupKeepsEachKeyOnce(front);
      KeysSnoc(front, t);
      KeysSnoc(Dedup(front), t);
      assert tools == front + [t];
      assert forall i :: 0 <= i < |Dedup(front)| ==> KeyOf(Dedup(front)[i]) in Keys(Dedup(front));
    }
  }

  lemma KeysSnoc(tools: seq<Tool>, t: Tool)
    ensures Keys(tools + [t]) == Keys(tools) + {KeyOf(t)}
  {
    forall k | k in Keys(tools) + {KeyOf(t)}
      ensures k in Keys(tools + [t])
    {
      if k in Keys(tools) {
        var x :| x in tools && KeyOf(x) == k;
        assert x in tools + [t];
      } else {
        assert t in tools + [t];
      }
    }
  }

  /** Two tools are one call: the same id, or without ids the same name and arguments; an id may spell these out. */
  predicate SameCall(t: Tool, u: Tool) {
    if t.id != "" && u.id != "" then t.id == u.id
    else if t.id != "" then t.id == u.name + ":" + u.args
    else if u.id != "" then t.name + ":" + t.args == u.id
    else t.name + ":" + t.args == u.name + ":" + u.args
  }

  /** Of the calls seen one of each is kept, in the order they were first seen. */
  ghost predicate OneOfEach(kept: seq<Tool>, all: seq<Tool>) {
    && (forall t :: t in kept ==> t in all)
    && (forall t :: t in all ==> exists u :: u in kept && SameCall(t, u))
    && (forall i, j :: 0 <= i < j < |kept| ==> !SameCall(kept[i], kept[j]))
  }

  lemma DedupIsOneOfEach(tools: seq<Tool>)
    ensures OneOfEach(Dedup(tools), tools)
  {
    hide Dedup, Keys, KeyOf, SameCall;
    DedupKeepsEachKeyOnce(tools);
    DedupIsAmong(tools);
    var kept := Dedup(tools);
    forall t | t in tools
      ensures exists u :: u in kept && SameCall(t, u)
    {
      KeyIsHad(tools, t);
      KeyIsHad(kept, t);
      var u :| u in kept && KeyOf(u) == KeyOf(t);
      SameCallIff(t, u);
    }
    forall i, j | 0 <= i < j < |kept|
      ensures !SameCall(kept[i], kept[j])
    {
      SameCallIff(kept[i], kept[j]);
    }
  }

  lemma KeyIsHad(tools: seq<Tool>, t: Tool)
    ensures KeyOf(t) in Keys(tools) <==> exists u :: u in tools && KeyOf(u) == KeyOf(t)
  {
    hide KeyOf;
  }

  lemma SameCallIff(t: Tool, u: Tool)
    ensures SameCall(t, u) <==> KeyOf(u) == KeyOf(t)
  {
  }

  lemma {:induction false} DedupIsAmong(tools: seq<Tool>)
    ensures forall t :: t in Dedup(tools) ==> t in tools
  {
    if tools != [] {
      DedupIsAmong(tools[..|tools| - 1]);
      assert tools == tools[..|tools| - 1] + [tools[|tools| - 1]];
    }
  }

  // ----- how long it can take -----

  const MaxWait := 180_000
  const PollInterval := 250

  /** With a quarter of a second between readings the loop test fails by reading 720. */
  lemma {:induction false} AtLeast(clock: nat -> int, n: nat)
    requires clock(0) >= 0 && forall k: nat :: clock(k + 1) >= clock(k) + PollInterval
    ensures clock(n) >= n * PollInterval
  {
    if n > 0 {
      AtLeast(clock, n - 1);
      assert clock(n - 1 + 1) >= clock(n - 1) + PollInterval;
    }
  }
}
