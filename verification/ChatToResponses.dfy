/**
 From the chat handler's stream to a Responses client: what `internal/server/chat.go` writes, read
 back by the translator in `internal/server/responses.go`.
 */
module ChatToResponses {
  import opened Options
  import opened SseFrames
  import opened Upstream
  import opened ChatWrites
  import opened ChatToClients
  import Responses = ResponsesEvents
  import Grammar = ResponsesGrammar

  // ----- one write -----

  predicate TextWrite(e: Emission) {
    e.Content? && e.text != ""
  }

  /** A call with an id and a name. */
  predicate CallWrite(e: Emission) {
    e.Call? && e.id != "" && e.name != ""
  }

  predicate Quiet(inp: Input) {
    !inp.ToolIn? && !Grammar.Speaks(inp)
  }

  /** The inputs of a write in front of the one that counts, and that one. */
  function Front(e: Emission): seq<Input> {
    if e.Call? then [Begin, ThinkingIn(""), TextIn("")]
    else if TextWrite(e) then [Begin, ThinkingIn("")]
    else EmissionInputs(e)
  }

  function Counts(e: Emission): seq<Input> {
    if e.Call? then [ToolIn(e.idx, e.id, e.name, e.args)] else if TextWrite(e) then [TextIn(e.text)] else []
  }

  lemma FrontAndCounts(e: Emission)
    ensures EmissionInputs(e) == Front(e) + Counts(e)
    ensures forall i :: 0 <= i < |Front(e)| ==> Quiet(Front(e)[i])
  {
    InputsAre(e);
    hide EmissionInputs;
  }

  lemma FrontBegins(ins: seq<Input>, e: Emission)
    requires e.Call?
    ensures Responses.Begun(ins + Front(e))
  {
    var a, b := ins + [Begin], ins + [Begin, ThinkingIn("")];
    var c := ins + Front(e);
    assert a[..|ins|] == ins && b[..|a|] == a && c[..|b|] == b;
    assert Responses.Begun(a);
    assert Responses.Begun(b);
  }

  // ----- what the upstream amounts to, input by input -----

  lemma InputsSnoc(ins: seq<Input>, inp: Input)
    ensures InputText(ins + [inp]) == InputText(ins) + if inp.TextIn? then inp.text else ""
    ensures Grammar.Speaking(ins + [inp]) ==
            (Grammar.Speaks(inp) || (Grammar.Speaking(ins) && !Grammar.Opens(ins, inp)))
    ensures Grammar.Called(ins + [inp]) == (Grammar.Called(ins) || Grammar.Opens(ins, inp))
    ensures Grammar.Resumed(ins + [inp]) ==
            (Grammar.Resumed(ins) || (Grammar.Speaks(inp) && !Grammar.Speaking(ins) && InputText(ins) != ""))
    ensures Grammar.Shared(ins + [inp]) ==
            (Grammar.Shared(ins)
             || (Grammar.Called(ins) && (Grammar.Opens(ins, inp) || (Grammar.Speaks(inp) && !Grammar.Speaking(ins)))))
  {
    hide Grammar.Opens;
    assert (ins + [inp])[..|ins|] == ins;
  }

  /** What both say of the upstream is the same. */
  ghost predicate Alike(a: seq<Input>, b: seq<Input>) {
    && InputText(a) == InputText(b) && Grammar.Speaking(a) == Grammar.Speaking(b)
    && Grammar.Called(a) == Grammar.Called(b) && Grammar.Resumed(a) == Grammar.Resumed(b)
    && Grammar.Shared(a) == Grammar.Shared(b)
    && forall k: int :: Responses.SentCall(a, k) == Responses.SentCall(b, k)
  }

  lemma {:induction false} QuietInputs(ins: seq<Input>, more: seq<Input>)
    requires forall i :: 0 <= i < |more| ==> Quiet(more[i])
    ensures Alike(ins + more, ins)
  {
    if more == [] {
      assert ins + more == ins;
    } else {
      var n := |more| - 1;
      QuietInputs(ins, more[..n]);
      hide InputText, Grammar.Speaking, Grammar.Called, Grammar.Resumed, Grammar.Shared, Responses.SentCall;
      InputsSnoc(ins + more[..n], more[n]);
      Responses.SentSnoc(ins + more[..n], more[n]);
      assert ins + more == ins + more[..n] + [more[n]];
    }
  }

  // ----- the calls -----

  const Blank := Responses.Item("", "", "", 0, false, false)

  /** What is known of a call after the writes. */
  function Known(es: seq<Emission>, k: int): Responses.Item {
    if es == [] then Blank
    else
      var e := es[|es| - 1];
      if e.Call? && e.idx == k then Responses.Told(Blank, e.id, e.name, e.args) else Known(es[..|es| - 1], k)
  }

  lemma {:induction false} KnownAt(es: seq<Emission>, k: int)
    requires CallsAreDistinct(es)
    ensures k !in Indices(es) ==> Known(es, k) == Blank
    ensures forall i :: 0 <= i < |es| && es[i].Call? && es[i].idx == k ==>
              Known(es, k) == Responses.Told(Blank, es[i].id, es[i].name, es[i].args)
  {
    if es != [] {
      var n := |es| - 1;
      LastIndex(es);
      KnownAt(es[..n], k);
      assert forall i :: 0 <= i < n ==> es[i] == es[..n][i];
      hide Responses.Told;
    }
  }

  lemma {:induction false} CallsAreSent(es: seq<Emission>)
    requires CallsAreDistinct(es)
    ensures forall k: int :: Responses.SentCall(InputsOf(es), k) == Known(es, k)
  {
    if es != [] {
      hide Responses.Told, Front, Responses.SentCall;
      var n := |es| - 1;
      var e := es[n];
      var ins := InputsOf(es[..n]);
      CallsAreSent(es[..n]);
      FrontAndCounts(e);
      QuietInputs(ins, Front(e));
      LastIndex(es);
      if e.Call? {
        FrontBegins(ins, e);
        KnownAt(es[..n], e.idx);
        Responses.SentSnoc(ins + Front(e), Counts(e)[0]);
      }
      assert InputsOf(es) == if Counts(e) == [] then ins + Front(e) else ins + Front(e) + [Counts(e)[0]];
    }
  }

  // ----- prose and calls in the order they were written -----

  ghost predicate Prose(es: seq<Emission>) {
    exists i :: 0 <= i < |es| && TextWrite(es[i])
  }

  ghost predicate SomeCall(es: seq<Emission>) {
    exists i :: 0 <= i < |es| && CallWrite(es[i])
  }

  /** Prose came after the last call. */
  ghost predicate ProseLast(es: seq<Emission>) {
    exists i :: 0 <= i < |es| && TextWrite(es[i]) && forall j :: i < j < |es| ==> !CallWrite(es[j])
  }

  ghost predicate Between(es: seq<Emission>, i: int, j: int, k: int) {
    0 <= i < j < k < |es| && TextWrite(es[i]) && CallWrite(es[j]) && TextWrite(es[k])
  }

  /** Prose, a call, prose again. */
  ghost predicate Interrupted(es: seq<Emission>) {
    exists i, j, k :: Between(es, i, j, k)
  }

  ghost predicate Behind(es: seq<Emission>, i: int, j: int) {
    0 <= i < j < |es| && CallWrite(es[i]) && (CallWrite(es[j]) || TextWrite(es[j]))
  }

  /** Prose or a call behind a call. */
  ghost predicate GoesOn(es: seq<Emission>) {
    exists i, j :: Behind(es, i, j)
  }

  /** One write more, for each of these. */
  lemma OrderSnoc(es: seq<Emission>, e: Emission)
    ensures Prose(es + [e]) == (Prose(es) || TextWrite(e))
    ensures SomeCall(es + [e]) == (SomeCall(es) || CallWrite(e))
    ensures ProseLast(es + [e]) == (TextWrite(e) || (ProseLast(es) && !CallWrite(e)))
  {
    var more, n := es + [e], |es|;
    assert forall i :: 0 <= i < n ==> more[i] == es[i];
    assert more[n] == e;
    if TextWrite(e) {
      assert TextWrite(more[n]);
    }
  }

  lemma InterruptedSnoc(es: seq<Emission>, e: Emission)
    ensures Interrupted(es + [e]) == (Interrupted(es) || (TextWrite(e) && Prose(es) && !ProseLast(es)))
  {
    var more, n := es + [e], |es|;
    assert forall i :: 0 <= i < n ==> more[i] == es[i];
    if Interrupted(es) {
      var i, j, k :| Between(es, i, j, k);
      assert Between(more, i, j, k);
    } else if TextWrite(e) && Prose(es) && !ProseLast(es) {
      var i :| 0 <= i < n && TextWrite(es[i]);
      var j :| i < j < n && CallWrite(es[j]);
      assert Between(more, i, j, n);
    }
    if Interrupted(more) {
      var i, j, k :| Between(more, i, j, k);
      if k < n {
        assert Between(es, i, j, k);
      } else if ProseLast(es) {
        var m :| 0 <= m < n && TextWrite(es[m]) && forall j :: m < j < n ==> !CallWrite(es[j]);
        assert Between(es, i, j, m);
      }
    }
  }

  lemma GoesOnSnoc(es: seq<Emission>, e: Emission)
    ensures GoesOn(es + [e]) == (GoesOn(es) || (SomeCall(es) && (CallWrite(e) || (TextWrite(e) && !ProseLast(es)))))
  {
    var more, n := es + [e], |es|;
    assert forall i :: 0 <= i < n ==> more[i] == es[i];
    if GoesOn(es) {
      var i, j :| Behind(es, i, j);
      assert Behind(more, i, j);
    } else if SomeCall(es) && (CallWrite(e) || TextWrite(e)) {
      var i :| 0 <= i < n && CallWrite(es[i]);
      assert Behind(more, i, n);
    }
    if GoesOn(more) {
      var i, j :| Behind(more, i, j);
      if j < n {
        assert Behind(es, i, j);
      } else if ProseLast(es) {
        var m :| 0 <= m < n && TextWrite(es[m]) && forall j :: m < j < n ==> !CallWrite(es[j]);
        assert Behind(es, i, m);
      }
    }
  }

  ghost predicate Seen(ins: seq<Input>, es: seq<Emission>) {
    && InputText(ins) == ContentOf(es) && (InputText(ins) != "" <==> Prose(es))
    && Grammar.Speaking(ins) == ProseLast(es) && Grammar.Called(ins) == SomeCall(es)
    && Grammar.Resumed(ins) == Interrupted(es) && Grammar.Shared(ins) == GoesOn(es)
  }

  lemma QuietIsSeen(ins: seq<Input>, es: seq<Emission>, e: Emission)
    requires Seen(ins, es)
    ensures Seen(ins + Front(e), es)
  {
    FrontAndCounts(e);
    hide Front;
    QuietInputs(ins, Front(e));
  }

  /** One write more. */
  lemma WriteIsSeen(ins: seq<Input>, es: seq<Emission>, e: Emission)
    requires Seen(ins, es)
    requires Counts(e) != [] ==> Grammar.Opens(ins, Counts(e)[0]) == CallWrite(e)
    ensures Seen(ins + Counts(e), es + [e])
  {
    OrderSnoc(es, e);
    InterruptedSnoc(es, e);
    GoesOnSnoc(es, e);
    WritesSnoc(es, e);
    hide Grammar.Opens, InputText, Grammar.Speaking, Grammar.Called, Grammar.Resumed, Grammar.Shared, ContentOf;
    hide Prose, SomeCall, ProseLast, Interrupted, GoesOn;
    if Counts(e) == [] {
      assert ins + Counts(e) == ins;
    } else {
      InputsSnoc(ins, Counts(e)[0]);
      assert Counts(e) == [Counts(e)[0]];
    }
  }

  /** What the translator sees of that order is that order. */
  lemma {:induction false} OrderIsSeen(es: seq<Emission>)
    requires CallsAreDistinct(es)
    ensures Seen(InputsOf(es), es)
  {
    hide CallsAreDistinct, Seen;
    if es == [] {
      NothingIsSeen();
    } else {
      var n := |es| - 1;
      FewerAreDistinct(es);
      OrderIsSeen(es[..n]);
      QuietIsSeen(InputsOf(es[..n]), es[..n], es[n]);
      if Counts(es[n]) != [] {
        OpensHere(es);
      }
      hide Counts, Front, Grammar.Opens;
      WriteIsSeen(InputsOf(es[..n]) + Front(es[n]), es[..n], es[n]);
      FrontAndCounts(es[n]);
      assert es == es[..n] + [es[n]];
      assert InputsOf(es) == InputsOf(es[..n]) + Front(es[n]) + Counts(es[n]);
    }
  }

  lemma FewerAreDistinct(es: seq<Emission>)
    requires es != [] && CallsAreDistinct(es)
    ensures CallsAreDistinct(es[..|es| - 1])
  {
  }

  lemma NothingIsSeen()
    ensures Seen([], [])
  {
  }

  /** A call with an id and a name opens with its write, no other write opens one. */
  lemma OpensHere(es: seq<Emission>)
    requires es != [] && CallsAreDistinct(es) && Counts(es[|es| - 1]) != []
    ensures var n := |es| - 1;
            Grammar.Opens(InputsOf(es[..n]) + Front(es[n]), Counts(es[n])[0]) == CallWrite(es[n])
  {
    var n := |es| - 1;
    var e := es[n];
    if e.Call? {
      FewerAreDistinct(es);
      LastIndex(es);
      CallsAreSent(es[..n]);
      KnownAt(es[..n], e.idx);
      FrontAndCounts(e);
      QuietInputs(InputsOf(es[..n]), Front(e));
      FrontBegins(InputsOf(es[..n]), e);
      assert Responses.SentCall(InputsOf(es[..n]) + Front(e), e.idx) == Blank;
    }
  }

  /**
   Whatever the chat handler writes, with every call under an index of its own: a Responses client
   reads the stream to its end, and in it exactly the content, and of each call that has an id and a
   name all its arguments. The message item is added once unless prose resumes behind a call, and the
   items have output indices of their own unless anything comes behind a call.
   */
  lemma ResponsesClientReceives(k: ChunkCodec, es: seq<Emission>, order: seq<int>)
    requires Lawful(k) && CallsAreDistinct(es)
    requires var st := Responses.RunAll(StreamInputs(k.decode, Wire(FramesOf(k, es)))); forall i :: i in st.items ==>
            i in order
    ensures var out := Responses.FinishWith(Responses.RunAll(StreamInputs(k.decode, Wire(FramesOf(k, es)))), order).out;
            && Grammar.Reads(Grammar.Lenient, out) == Some(Grammar.Complete)
            && Grammar.Reads(Grammar.Strict, out) == (if Interrupted(es) then None else Some(Grammar.Complete))
            && Grammar.Reads(Grammar.Unique, out) ==
                    (if Interrupted(es) || GoesOn(es) then None else Some(Grammar.Complete))
            && Responses.TextOf(out) == ContentOf(es)
            && (forall i :: 0 <= i < |es| && es[i].Call? ==>
                  Responses.ArgsOf(out, es[i].idx) == if CallWrite(es[i]) then es[i].args else "")
            && forall idx: int :: idx !in Indices(es) ==> Responses.ArgsOf(out, idx) == ""
  {
    BytesAreRead(k, es);
    OrderIsSeen(es);
    CallsAreSent(es);
    forall idx: int
      ensures idx !in Indices(es) ==> Responses.SentCall(InputsOf(es), idx).args == ""
      ensures forall i :: 0 <= i < |es| && es[i].Call? && es[i].idx == idx ==>
                Responses.SentCall(InputsOf(es), idx).args == if CallWrite(es[i]) then es[i].args else ""
    {
      KnownAt(es, idx);
    }
    hide Lawful, InputsOf, ContentOf, StreamInputs, Indices, CallsAreDistinct, Interrupted, GoesOn;
    hide Responses.RunAll, Responses.FinishWith, Responses.TextOf, Responses.ArgsOf, Responses.SentCall, Grammar.Reads;
    Grammar.StreamEndsWell(k.decode, Wire(FramesOf(k, es)), order);
  }
}
