/**
 The content pipeline of a streamed chat (`onChunk` and the tail flush in
 `internal/server/chat.go`): deltas go through the tool-call parser, its prose goes through
 the redactor, and each finished call is sent at once under the next index. Thinking has a redactor
 of its own.
 */
module ChatStream {
  import opened Options
  import opened GoStrings
  import opened Upstream
  import opened ToolBody
  import opened ToolStream
  import opened ChatWrites
  import Sanitize = SanitizeText
  import Redactor = SanitizeStream
  import SanitizeBytes

  /** The id a call is given when it is parsed. */
  type IdText = nat -> string

  /** The calls as they are written: each under its position. */
  function Indexed(calls: seq<ToolCall>, id: IdText): (r: seq<Emission>)
    ensures |r| == |calls|
  {
    seq(|calls|, i requires 0 <= i < |calls| => Call(i, id(calls[i].counter), calls[i].name, calls[i].argumentsJSON))
  }

  /** A point in a response: the model's text up to there, and the prose the parser has let go of it. */
  datatype Point = Point(text: string, prose: string)

  /** With the prose that the redactor holds, the content is the redaction of all prose so far. */
  ghost predicate StandsAt(content: string, p: Point) {
    Redactor.OnlyLiterals(p.prose) ==> content + Sanitize.Text(Redactor.HeldOf(p.prose)) == Sanitize.Text(p.prose)
  }

  /** Every call among the writes stands behind the content of its point. */
  ghost predicate Standing(es: seq<Emission>, points: seq<Point>) {
    forall w :: 0 <= w < |es| && es[w].Call? ==>
      0 <= es[w].idx < |points| && StandsAt(ContentOf(es[..w]), points[es[w].idx])
  }

  lemma StandingSnoc(es: seq<Emission>, points: seq<Point>, e: Emission)
    requires Standing(es, points) && !e.Call?
    ensures Standing(es + [e], points)
  {
    hide StandsAt, ContentOf;
    assert forall w :: 0 <= w < |es| ==> (es + [e])[..w] == es[..w];
  }

  lemma StandingCall(es: seq<Emission>, points: seq<Point>, e: Emission, p: Point)
    requires Standing(es, points) && e.Call? && e.idx == |points| && StandsAt(ContentOf(es), p)
    ensures Standing(es + [e], points + [p])
  {
    hide StandsAt, ContentOf;
    assert forall w :: 0 <= w <= |es| ==> (es + [e])[..w] == es[..w];
    assert es[..|es|] == es;
  }

  /** Sent content and held text will be redacted as the whole prose, whatever follows. */
  ghost predicate Given(content: string, held: string, prose: string) {
    forall x {:trigger held + x} :: Redactor.OnlyLiterals(prose + x) ==>
      content + Sanitize.Text(held + x) == Sanitize.Text(prose + x) && Redactor.OnlyLiterals(held + x)
  }

  /** A further text leaves the redaction of everything unchanged. */
  ghost predicate Passes(content: string, held: string, text: string, content': string, held': string) {
    forall x {:trigger held' + x} :: Redactor.OnlyLiterals(held + (text + x)) ==>
      && content + Sanitize.Text(held + (text + x)) == content' + Sanitize.Text(held' + x)
      && Redactor.OnlyLiterals(held' + x)
  }

  lemma NothingGiven()
    ensures Given("", "", "")
  {
    hide Sanitize.Text, Redactor.OnlyLiterals;
    assert forall y: string :: "" + y == y;
  }

  lemma GivenNext(content: string, held: string, prose: string, text: string, content': string, held': string)
    requires Given(content, held, prose) && Passes(content, held, text, content', held')
    ensures Given(content', held', prose + text)
  {
    hide Sanitize.Text, Redactor.OnlyLiterals;
    forall x {:trigger held' + x} | Redactor.OnlyLiterals(prose + text + x)
      ensures content' + Sanitize.Text(held' + x) == Sanitize.Text(prose + text + x) && Redactor.OnlyLiterals(held' + x)
    {
      assert prose + text + x == prose + (text + x);
      assert held + (text + x) == held + (text + x);
    }
  }

  lemma GivenNow(content: string, held: string, p: Point)
    requires Given(content, held, p.prose) && held == Redactor.HeldOf(p.prose)
    ensures StandsAt(content, p)
  {
    hide Sanitize.Text, Redactor.OnlyLiterals, Redactor.HeldOf;
    assert held + "" == held && p.prose + "" == p.prose;
  }

  lemma NothingRedacted()
    ensures Sanitize.Text("") == ""
  {
  }

  lemma PieceIsHeld(prose: string, held: string, text: string, held': string)
    requires held == Redactor.HeldOf(prose)
    requires if text == "" then held' == held else held' == (held + text)[Redactor.FirstOpen(held + text)..]
    ensures held' == Redactor.HeldOf(prose + text)
  {
    Redactor.HeldNext(prose, text);
    assert prose + "" == prose;
    hide Redactor.HeldOf, Redactor.FirstOpen;
  }

  lemma PiecePasses(content: string, held: string, text: string, piece: string, held': string)
    requires text == "" ==> piece == "" && held' == held
    requires text != "" ==>
               var full := held + text;
               var cut := Redactor.FirstOpen(full);
               piece == Sanitize.Text(full[..cut]) && held' == full[cut..]
    ensures Passes(content, held, text, content + piece, held')
  {
    hide Sanitize.Text, Redactor.OnlyLiterals, Redactor.FirstOpen;
    forall x {:trigger held' + x} | Redactor.OnlyLiterals(held + (text + x))
      ensures content + Sanitize.Text(held + (text + x)) == content + piece + Sanitize.Text(held' + x)
      ensures Redactor.OnlyLiterals(held' + x)
    {
      Redactor.FedIsSafe(held, text, x, piece, held');
      assert content + (piece + Sanitize.Text(held' + x)) == content + piece + Sanitize.Text(held' + x);
    }
  }

  /** More calls were written at a point. */
  ghost predicate Extended(before: seq<Point>, after: seq<Point>, p: Point) {
    before <= after && forall i :: |before| <= i < |after| ==> after[i] == p
  }

  lemma CatNothing(r: FeedResult)
    ensures Cat(FeedResult("", []), r) == r
  {
    assert "" + r.text == r.text && [] + r.toolCalls == r.toolCalls;
  }

  lemma NothingStands()
    ensures Standing([], []) && Redactor.HeldOf("") == ""
    ensures ContentOf([]) == "" && ThoughtOf([]) == "" && CallsOf([]) == []
  {
  }

  lemma IndexedSnoc(calls: seq<ToolCall>, tc: ToolCall, id: IdText)
    ensures Indexed(calls + [tc], id) == Indexed(calls, id) + [Call(|calls|, id(tc.counter), tc.name, tc.argumentsJSON)]
  {
  }

  /** Whatever follows the text of the point, its prose comes first and the call is among the calls. */
  ghost predicate Settled(parseBody: BodyParser, p: Point, call: nat) {
    forall x {:trigger p.text + x} ::
      var r := Parse(parseBody, Outside, p.text + x, 0); p.prose <= r.text && call < |r.toolCalls|
  }

  class Pipeline {
    const cascade: bool
    const emulateTools: bool
    const id: IdText
    const parser: StreamParser
    const pathT: Redactor.Stream
    const pathK: Redactor.Stream
    var rolePrinted: bool
    var accText: string
    var accThink: string
    var collected: seq<ToolCall>
    var writes: seq<Emission>

    /** The text taken in, what the parser has made of it, and the point at which each call was written. */
    ghost var taken: string
    ghost var prose: string
    ghost var made: seq<ToolCall>
    ghost var points: seq<Point>

    /** The accumulators tell what was written. */
    ghost predicate Recorded()
      reads this
    {
      && accText == ContentOf(writes) && accThink == ThoughtOf(writes)
      && CallsOf(writes) == Indexed(collected, id)
      && |points| == |collected| && Standing(writes, points)
      && (if rolePrinted then RoleComesFirst(writes) else writes == [])
    }

    /** The redactor has been given the prose so far. */
    ghost predicate Sent()
      reads this, pathT
    {
      pathT.buf == Redactor.HeldOf(prose) && Given(accText, pathT.buf, prose)
    }

    /** The prose and the calls come first in whatever the text will mean, and the parser stands for the rest. */
    ghost predicate Ahead(prose: string)
      reads this, parser
    {
      if cascade then
        forall x {:trigger parser.Denotes(x)} ::
          Parse(parser.parseBody, Outside, taken + x, 0) == Cat(FeedResult(prose, made), parser.Denotes(x))
      else
        made == [] && parser.Denotes("") == NoResult
    }

    ghost predicate AllSettled()
      reads this
    {
      && collected == (if emulateTools then made else [])
      && |points| == |collected|
      && forall i :: 0 <= i < |points| ==> Settled(parser.parseBody, points[i], i)
    }

    ghost predicate Valid()
      reads this, parser, pathT, pathK
    {
      && Recorded() && Sent() && Ahead(prose) && AllSettled() && parser.Valid() && pathT != pathK
      && (!rolePrinted ==> Quiet())
    }

    /** Nothing has come in yet that could be written. */
    ghost predicate Quiet()
      reads this, parser, pathT, pathK
    {
      parser.Denotes("") == NoResult && pathT.buf == "" && pathK.buf == ""
    }

    /** The meaning of everything still to come, if `future` is what follows. */
    ghost function Rest(future: string): FeedResult
      reads this, parser
    {
      if cascade then parser.Denotes(future) else Text(future)
    }

    /** The content that will have been sent once `future` has arrived and the tail is flushed. */
    ghost function Outcome(future: string): string
      reads this, parser, pathT
    {
      accText + Sanitize.Text(pathT.buf + Rest(future).text)
    }

    /** And the calls. */
    ghost function Calls(future: string): seq<ToolCall>
      reads this, parser
    {
      collected + if emulateTools then Rest(future).toolCalls else []
    }

    ghost function ThoughtOutcome(future: string): string
      reads this, pathK
    {
      accThink + Sanitize.Text(pathK.buf + future)
    }

    /** The prose on its way to the redactor has only literals to redact. */
    ghost predicate SafeAhead(future: string)
      reads this, parser, pathT
    {
      Redactor.OnlyLiterals(pathT.buf + Rest(future).text)
    }

    ghost predicate SafeThought(future: string)
      reads this, pathK
    {
      Redactor.OnlyLiterals(pathK.buf + future)
    }

    /** With this text and thinking still to come, all of it will amount to `whole` and `thought`. */
    ghost predicate Heading(textLeft: string, thoughtLeft: string, whole: FeedResult, thought: string)
      reads this, parser, pathT, pathK
    {
      && Calls(textLeft) == (if emulateTools then whole.toolCalls else [])
      && (Redactor.OnlyLiterals(whole.text) ==> SafeAhead(textLeft) && Outcome(textLeft) == Sanitize.Text(whole.text))
      && (Redactor.OnlyLiterals(thought) ==>
            SafeThought(thoughtLeft) && ThoughtOutcome(thoughtLeft) == Sanitize.Text(thought))
    }

    /** What has been written is the redaction of `whole` and `thought`, and the calls. */
    ghost predicate Said(whole: FeedResult, thought: string)
      reads this
    {
      && Recorded()
      && collected == (if emulateTools then whole.toolCalls else [])
      && (Redactor.OnlyLiterals(whole.text) ==> accText == Sanitize.Text(whole.text))
      && (Redactor.OnlyLiterals(thought) ==> accThink == Sanitize.Text(thought))
    }

    constructor (parseBody: BodyParser, cascade: bool, emulateTools: bool, id: IdText)
      ensures Valid() && fresh(parser) && fresh(pathT) && fresh(pathK)
      ensures this.cascade == cascade && this.emulateTools == emulateTools && this.id == id
      ensures forall x {:trigger parser.Denotes(x)} :: parser.Denotes(x) == Parse(parseBody, Outside, x, 0)
      ensures accText == "" && accThink == "" && collected == [] && writes == [] && pathT.buf == "" && pathK.buf == ""
      ensures parser.parseBody == parseBody && taken == "" && points == []
    {
      this.cascade, this.emulateTools, this.id := cascade, emulateTools, id;
      parser := new StreamParser(parseBody);
      pathT := new Redactor.Stream();
      pathK := new Redactor.Stream();
      rolePrinted, accText, accThink, collected, writes := false, "", "", [], [];
      taken, prose, made, points := "", "", [], [];
      new;
      hide *;
      TagFreeText(parseBody, "", 0);
      StartIsValid();
    }

    lemma StartIsValid()
      requires accText == "" && accThink == "" && collected == [] && writes == [] && !rolePrinted
      requires pathT.buf == "" && pathK.buf == "" && pathT != pathK
      requires taken == "" && prose == "" && made == [] && points == [] && parser.Valid()
      requires forall x {:trigger parser.Denotes(x)} :: parser.Denotes(x) == Parse(parser.parseBody, Outside, x, 0)
      requires Parse(parser.parseBody, Outside, "", 0) == Text("")
      ensures Valid()
    {
      hide Sanitize.Text, Redactor.OnlyLiterals, Redactor.HeldOf, Parse, Standing, Settled, StreamParser.Valid, Given;
      NothingStands();
      NothingGiven();
      forall x {:trigger parser.Denotes(x)}
        ensures Parse(parser.parseBody, Outside, taken + x, 0) == Cat(FeedResult(prose, made), parser.Denotes(x))
      {
        assert "" + x == x;
        CatNothing(parser.Denotes(x));
      }
    }

    method EmitContent(s: string)
      requires Recorded() && (rolePrinted || s == "")
      modifies this`accText, this`writes
      ensures Recorded() && accText == old(accText) + s
    {
      if s == "" {
        return;
      }
      hide Standing, RoleComesFirst;
      RoleSnoc(writes, Content(s));
      WritesSnoc(writes, Content(s));
      StandingSnoc(writes, points, Content(s));
      accText := accText + s;
      writes := writes + [Content(s)];
    }

    method EmitThink(s: string)
      requires Recorded() && (rolePrinted || s == "")
      modifies this`accThink, this`writes
      ensures Recorded() && accThink == old(accThink) + s
    {
      if s == "" {
        return;
      }
      hide Standing, RoleComesFirst;
      RoleSnoc(writes, Thought(s));
      WritesSnoc(writes, Thought(s));
      StandingSnoc(writes, points, Thought(s));
      accThink := accThink + s;
      writes := writes + [Thought(s)];
    }

    method PrintRole()
      requires Recorded()
      modifies this`rolePrinted, this`writes
      ensures Recorded() && rolePrinted
      ensures writes == if old(rolePrinted) then old(writes) else old(writes) + [Role]
    {
      if !rolePrinted {
        hide Standing, RoleComesFirst;
        RoleSnoc(writes, Role);
        WritesSnoc(writes, Role);
        StandingSnoc(writes, points, Role);
        rolePrinted := true;
        writes := writes + [Role];
      }
    }

    method EmitTools(calls: seq<ToolCall>)
      requires Recorded() && StandsAt(accText, Point(taken, prose)) && (rolePrinted || calls == [])
      modifies this`collected, this`writes, this`points
      ensures Recorded() && collected == old(collected) + (if emulateTools then calls else [])
      ensures Extended(old(points), points, Point(taken, prose))
    {
      hide Standing, StandsAt, RoleComesFirst, ContentOf, ThoughtOf, CallsOf;
      if emulateTools {
        for i := 0 to |calls|
          invariant Recorded() && collected == old(collected) + calls[..i]
          invariant Extended(old(points), points, Point(taken, prose))
        {
          EmitTool(calls[i]);
        }
      }
    }

    method EmitTool(tc: ToolCall)
      requires Recorded() && StandsAt(accText, Point(taken, prose)) && rolePrinted
      modifies this`collected, this`writes, this`points
      ensures Recorded() && collected == old(collected) + [tc] && points == old(points) + [Point(taken, prose)]
    {
      hide Standing, StandsAt, RoleComesFirst;
      var idx := |collected|;
      var call := Call(idx, id(tc.counter), tc.name, tc.argumentsJSON);
      RoleSnoc(writes, call);
      WritesSnoc(writes, call);
      StandingCall(writes, points, call, Point(taken, prose));
      IndexedSnoc(collected, tc, id);
      collected := collected + [tc];
      points := points + [Point(taken, prose)];
      writes := writes + [call];
    }

    /** Prose through the redactor. */
    method SendProse(text: string)
      requires Recorded() && Sent() && (rolePrinted || text == "")
      modifies this`accText, this`writes, this`prose, pathT
      ensures Recorded() && Sent() && prose == old(prose) + text && StandsAt(accText, Point(taken, prose))
      ensures Passes(old(accText), old(pathT.buf), text, accText, pathT.buf)
    {
      hide Sanitize.Text, Redactor.OnlyLiterals, Redactor.HeldOf, Standing, Given, Passes, StandsAt, RoleComesFirst;
      ghost var before, held := accText, pathT.buf;
      var piece := pathT.Feed(text);
      PieceIsHeld(prose, held, text, pathT.buf);
      EmitContent(piece);
      PiecePasses(before, held, text, piece, pathT.buf);
      GivenNext(before, held, prose, text, accText, pathT.buf);
      prose := prose + text;
      GivenNow(accText, pathT.buf, Point(taken, prose));
    }

    /** Thinking through its redactor. */
    method SendThinking(text: string)
      requires Recorded() && rolePrinted
      modifies this`accThink, this`writes, pathK
      ensures Recorded()
      ensures forall x {:trigger ThoughtOutcome(x)} :: old(SafeThought(text + x)) ==>
                ThoughtOutcome(x) == old(ThoughtOutcome(text + x)) && SafeThought(x)
    {
      hide Sanitize.Text, Redactor.OnlyLiterals, RoleComesFirst, Standing, ContentOf, CallsOf;
      ghost var before, held := accThink, pathK.buf;
      var piece := pathK.Feed(text);
      EmitThink(piece);
      PiecePasses(before, held, text, piece, pathK.buf);
    }

    /** A text through the parser. */
    method FeedParser(text: string) returns (out: FeedResult)
      requires cascade && parser.Valid() && Ahead(prose)
      modifies this`taken, this`made, parser
      ensures parser.Valid() && taken == old(taken) + text && made == old(made) + out.toolCalls
      ensures Ahead(old(prose) + out.text)
      ensures forall x {:trigger parser.Denotes(x)} :: old(parser.Denotes(text + x)) == Cat(out, parser.Denotes(x))
    {
      hide StreamParser.Valid, StreamParser.Denotes, Parse;
      out := parser.Feed(text);
      forall x {:trigger parser.Denotes(x)}
        ensures Parse(parser.parseBody, Outside, taken + text + x, 0) ==
                Cat(FeedResult(prose + out.text, made + out.toolCalls), parser.Denotes(x))
      {
        assert taken + text + x == taken + (text + x);
        assert old(parser.Denotes(text + x)) == Cat(out, parser.Denotes(x));
        CatAssoc(FeedResult(prose, made), out, parser.Denotes(x));
      }
      taken, made := taken + text, made + out.toolCalls;
    }

    /** A text on the cascade path: parsed, redacted, and its calls sent. */
    method ParseText(text: string) returns (ghost out: FeedResult)
      requires Valid() && cascade && rolePrinted
      modifies this`accText, this`writes, this`collected, this`taken, this`prose, this`made, this`points, parser, pathT
      ensures Valid() && taken == old(taken) + text && Extended(old(points), points, Point(taken, prose))
      ensures collected == old(collected) + (if emulateTools then out.toolCalls else [])
      ensures Passes(old(accText), old(pathT.buf), out.text, accText, pathT.buf)
      ensures forall x {:trigger parser.Denotes(x)} :: old(parser.Denotes(text + x)) == Cat(out, parser.Denotes(x))
    {
      hide Sanitize.Text, Redactor.OnlyLiterals, Redactor.HeldOf, StreamParser.Valid, StreamParser.Denotes;
      hide Standing, Given, Settled, StandsAt, ContentOf, ThoughtOf, CallsOf, Passes, RoleComesFirst;
      var fed := FeedParser(text);
      SendProse(fed.text);
      EmitTools(fed.toolCalls);
      AllAreSettled(old(points));
      out := fed;
    }

    method CascadeText(text: string)
      requires Valid() && cascade && rolePrinted
      modifies this`accText, this`writes, this`collected, this`taken, this`prose, this`made, this`points, parser, pathT
      ensures Valid() && taken == old(taken) + text && Extended(old(points), points, Point(taken, prose))
      ensures forall x {:trigger Outcome(x)} :: old(SafeAhead(text + x)) ==>
                Outcome(x) == old(Outcome(text + x)) && SafeAhead(x)
      ensures forall x {:trigger Calls(x)} :: Calls(x) == old(Calls(text + x))
    {
      hide Sanitize.Text, Redactor.OnlyLiterals, Redactor.HeldOf;
      hide StreamParser.Valid, StreamParser.Denotes, Valid, StandsAt;
      ghost var out := ParseText(text);
      forall x {:trigger Outcome(x)} | old(SafeAhead(text + x))
        ensures Outcome(x) == old(Outcome(text + x)) && SafeAhead(x)
      {
        var rest := parser.Denotes(x);
        assert old(parser.Denotes(text + x)) == Cat(out, rest);
        assert Redactor.OnlyLiterals(old(pathT.buf) + (out.text + rest.text));
        assert pathT.buf + rest.text == pathT.buf + Rest(x).text;
      }
      forall x {:trigger Calls(x)}
        ensures Calls(x) == old(Calls(text + x))
      {
        var rest := parser.Denotes(x);
        assert old(parser.Denotes(text + x)) == Cat(out, rest);
        assert (old(collected) + out.toolCalls) + rest.toolCalls == old(collected) + (out.toolCalls + rest.toolCalls);
      }
    }

    /** The text of a chunk. */
    method OnText(text: string)
      requires Valid() && rolePrinted
      modifies this`accText, this`writes, this`collected, this`taken, this`prose, this`made, this`points, parser, pathT
      ensures Valid() && taken == old(taken) + text && Extended(old(points), points, Point(taken, prose))
      ensures forall x {:trigger Outcome(x)} :: old(SafeAhead(text + x)) ==>
                Outcome(x) == old(Outcome(text + x)) && SafeAhead(x)
      ensures forall x {:trigger Calls(x)} :: Calls(x) == old(Calls(text + x))
    {
      hide Sanitize.Text, Redactor.OnlyLiterals, Redactor.HeldOf, StreamParser.Valid, StreamParser.Denotes;
      hide Standing, Given, Settled, StandsAt, ContentOf, ThoughtOf, CallsOf, RoleComesFirst;
      if cascade {
        CascadeText(text);
      } else {
        SendProse(text);
        taken := taken + text;
      }
    }

    lemma AllAreSettled(before: seq<Point>)
      requires cascade && Ahead(prose) && |points| == |collected| && collected == (if emulateTools then made else [])
      requires Extended(before, points, Point(taken, prose))
      requires forall i :: 0 <= i < |before| ==> Settled(parser.parseBody, before[i], i)
      ensures AllSettled()
    {
      hide Parse, StreamParser.Denotes;
      forall i | |before| <= i < |points|
        ensures Settled(parser.parseBody, points[i], i)
      {
        forall x
          ensures var r := Parse(parser.parseBody, Outside, taken + x, 0); prose <= r.text && i < |r.toolCalls|
        {
          assert parser.Denotes(x) == parser.Denotes(x);
        }
      }
    }

    /** The thinking of a chunk. */
    method OnThinking(thinking: string)
      requires Valid() && rolePrinted
      modifies this`accThink, this`writes, pathK
      ensures Valid()
      ensures forall x {:trigger Outcome(x)} :: Outcome(x) == old(Outcome(x)) && SafeAhead(x) == old(SafeAhead(x))
      ensures forall x {:trigger Calls(x)} :: Calls(x) == old(Calls(x))
      ensures forall x {:trigger ThoughtOutcome(x)} :: old(SafeThought(thinking + x)) ==>
                ThoughtOutcome(x) == old(ThoughtOutcome(thinking + x)) && SafeThought(x)
    {
      hide Sanitize.Text, Redactor.OnlyLiterals, Redactor.HeldOf, StreamParser.Valid, StreamParser.Denotes;
      hide Standing, Given, Settled, StandsAt, ContentOf, ThoughtOf, CallsOf, RoleComesFirst;
      SendThinking(thinking);
    }

    method OnChunk(text: string, thinking: string)
      requires Valid()
      modifies this`rolePrinted, this`accText, this`accThink, this`writes, this`collected,
               this`taken, this`prose, this`made, this`points, parser, pathT, pathK
      ensures Valid() && taken == old(taken) + text && Extended(old(points), points, Point(taken, prose))
      ensures forall x {:trigger Outcome(x)} :: old(SafeAhead(text + x)) ==>
                Outcome(x) == old(Outcome(text + x)) && SafeAhead(x)
      ensures forall x {:trigger Calls(x)} :: Calls(x) == old(Calls(text + x))
      ensures forall x {:trigger ThoughtOutcome(x)} :: old(SafeThought(thinking + x)) ==>
                ThoughtOutcome(x) == old(ThoughtOutcome(thinking + x)) && SafeThought(x)
    {
      hide Sanitize.Text, Redactor.OnlyLiterals, Redactor.HeldOf, StreamParser.Valid, StreamParser.Denotes;
      hide Standing, Given, Settled, StandsAt, ContentOf, ThoughtOf, CallsOf, RoleComesFirst;
      PrintRole();
      if text != "" {
        OnText(text);
      } else {
        assert forall x: string :: text + x == x;
      }
      if thinking != "" {
        OnThinking(thinking);
      } else {
        assert forall x: string :: thinking + x == x;
      }
    }

    /** `OnChunk`, seen from the whole text. */
    method TakeChunk(text: string, thinking: string, ghost textLeft: string, ghost thoughtLeft: string,
                     ghost whole: FeedResult, ghost thought: string)
      requires Valid() && Heading(text + textLeft, thinking + thoughtLeft, whole, thought)
      modifies this`rolePrinted, this`accText, this`accThink, this`writes, this`collected,
               this`taken, this`prose, this`made, this`points, parser, pathT, pathK
      ensures Valid() && Heading(textLeft, thoughtLeft, whole, thought)
      ensures taken == old(taken) + text && Extended(old(points), points, Point(taken, prose))
    {
      hide Valid, Outcome, Calls, ThoughtOutcome, SafeAhead, SafeThought, Redactor.OnlyLiterals, Sanitize.Text;
      OnChunk(text, thinking);
      assert Calls(textLeft) == old(Calls(text + textLeft));
      assert Redactor.OnlyLiterals(whole.text) ==> Outcome(textLeft) == old(Outcome(text + textLeft));
      assert Redactor.OnlyLiterals(thought) ==>
              ThoughtOutcome(thoughtLeft) == old(ThoughtOutcome(thinking + thoughtLeft));
    }

    /** What is still held back is sent. */
    method TailFlush()
      requires Valid()
      modifies this`accText, this`accThink, this`writes, this`collected, this`prose, this`points, parser, pathT, pathK
      ensures Recorded() && points == old(points)
      ensures old(SafeAhead("")) ==> accText == old(Outcome(""))
      ensures collected == old(Calls("")) && accThink == old(ThoughtOutcome(""))
    {
      hide Sanitize.Text, Redactor.OnlyLiterals, Redactor.HeldOf, StreamParser.Valid, StreamParser.Denotes;
      hide Standing, Given, Settled, StandsAt, ContentOf, ThoughtOf, CallsOf, RoleComesFirst;
      ghost var held, thought := pathT.buf, pathK.buf;
      assert thought + "" == thought;
      var flush := parser.Flush();
      assert flush.text + "" == flush.text && collected + [] == collected;
      assert flush.text == "" + flush.text && old(prose) + "" == old(prose);
      SendProse(flush.text);
      EmitTools(flush.toolCalls);
      assert pathT.buf + "" == pathT.buf;
      assert !rolePrinted ==> pathT.buf == held;
      NothingRedacted();
      var tail := pathT.Flush();
      EmitContent(tail);
      var thinking := pathK.Flush();
      EmitThink(thinking);
    }

    method WriteLast(e: Emission)
      requires Recorded() && rolePrinted && !e.Call? && !e.Content? && !e.Thought? && !e.Role?
      modifies this`writes
      ensures Recorded() && writes == old(writes) + [e]
    {
      hide Standing, RoleComesFirst;
      RoleSnoc(writes, e);
      WritesSnoc(writes, e);
      StandingSnoc(writes, points, e);
      writes := writes + [e];
    }

    /** The end of an attempt. */
    method Finish(usage: Option<Usage>, ghost whole: FeedResult, ghost thought: string)
      requires Valid() && Heading("", "", whole, thought)
      modifies this`rolePrinted, this`accText, this`accThink, this`writes, this`collected,
               this`taken, this`prose, this`made, this`points, parser, pathT, pathK
      ensures Said(whole, thought) && points == old(points)
      ensures |writes| >= 3 && RoleComesFirst(writes)
              && writes[|writes| - 3..] ==
                 [Ended(if collected == [] then "stop" else "tool_calls", usage), UsageOnly(usage), DoneMark]
    {
      hide Sanitize.Text, Redactor.OnlyLiterals, Valid, Recorded, RoleComesFirst;
      TailFlush();
      Close(usage);
    }

    lemma RoleIsWritten()
      requires Recorded() && rolePrinted
      ensures RoleComesFirst(writes)
    {
    }

    method Close(usage: Option<Usage>)
      requires Recorded()
      modifies this`rolePrinted, this`writes
      ensures Recorded() && |writes| >= 3 && RoleComesFirst(writes)
      ensures writes[|writes| - 3..] ==
              [Ended(if collected == [] then "stop" else "tool_calls", usage), UsageOnly(usage), DoneMark]
    {
      hide Recorded, RoleComesFirst;
      PrintRole();
      ghost var before, end := writes, Ended(if collected == [] then "stop" else "tool_calls", usage);
      WriteLast(Ended(if collected == [] then "stop" else "tool_calls", usage));
      WriteLast(UsageOnly(usage));
      WriteLast(DoneMark);
      assert writes == before + [end, UsageOnly(usage), DoneMark];
      RoleIsWritten();
    }
  }

  /** The deltas of the text, and of the thinking. */
  function TextsOf(chunks: seq<(string, string)>): seq<string> {
    seq(|chunks|, i requires 0 <= i < |chunks| => chunks[i].0)
  }

  function ThinkingOf(chunks: seq<(string, string)>): seq<string> {
    seq(|chunks|, i requires 0 <= i < |chunks| => chunks[i].1)
  }

  /** The legacy path has no tool-call protocol: its text is all prose. */
  function Meaning(parseBody: BodyParser, cascade: bool, text: string): FeedResult {
    if cascade then Parse(parseBody, Outside, text, 0) else Text(text)
  }

  lemma FirstDelta(chunks: seq<(string, string)>, i: nat)
    requires i < |chunks|
    ensures Concat(TextsOf(chunks[i..])) == chunks[i].0 + Concat(TextsOf(chunks[i + 1..]))
    ensures Concat(ThinkingOf(chunks[i..])) == chunks[i].1 + Concat(ThinkingOf(chunks[i + 1..]))
  {
    assert TextsOf(chunks[i..])[1..] == TextsOf(chunks[i + 1..]);
    assert ThinkingOf(chunks[i..])[1..] == ThinkingOf(chunks[i + 1..]);
  }

  /**
   What the writes tell: prose and thinking redacted, wherever streamed redaction is exact
   (`SanitizeBytes.StreamingIsExact`), and the calls whole, in order, under consecutive indices.
   */
  ghost predicate Tells(writes: seq<Emission>, prose: string, thought: string, calls: seq<ToolCall>, id: IdText) {
    && (Redactor.OnlyLiterals(prose) ==> ContentOf(writes) == Sanitize.Text(prose))
    && (Redactor.OnlyLiterals(thought) ==> ThoughtOf(writes) == Sanitize.Text(thought))
    && CallsOf(writes) == Indexed(calls, id)
  }

  /** The text of the first `k` chunks. */
  function Fed(chunks: seq<(string, string)>, k: nat): string
    requires k <= |chunks|
  {
    Concat(TextsOf(chunks[..k]))
  }

  /** The points lie at the ends of chunks. */
  ghost predicate AtChunks(points: seq<Point>, chunks: seq<(string, string)>, n: nat)
    requires n <= |chunks|
  {
    forall i :: 0 <= i < |points| ==> exists k :: 0 <= k <= n && points[i].text == Fed(chunks, k)
  }

  /**
   Where the calls stand. When a call is written the content is the redaction of the prose so far if and only
   if the redactor holds nothing of it: no literal begins or still runs at its end. That prose is what
   the parser has let go of the chunks up to the one that completed the call.
   */
  ghost predicate InPlace(writes: seq<Emission>, points: seq<Point>) {
    forall w :: 0 <= w < |writes| && writes[w].Call? ==>
      && 0 <= writes[w].idx < |points|
      && var prose := points[writes[w].idx].prose;
         Redactor.OnlyLiterals(prose) ==>
           (ContentOf(writes[..w]) == Sanitize.Text(prose) <==> Redactor.HeldOf(prose) == "")
  }

  lemma StandingIsInPlace(writes: seq<Emission>, points: seq<Point>)
    requires Standing(writes, points)
    ensures InPlace(writes, points)
  {
    hide ContentOf, StandsAt, Sanitize.Text, Redactor.OnlyLiterals, Redactor.HeldOf;
    forall w | 0 <= w < |writes| && writes[w].Call?
      ensures var p := points[writes[w].idx];
              Redactor.OnlyLiterals(p.prose) ==>
                (ContentOf(writes[..w]) == Sanitize.Text(p.prose) <==> Redactor.HeldOf(p.prose) == "")
    {
      HeldIsMissing(ContentOf(writes[..w]), points[writes[w].idx]);
    }
  }

  lemma HeldIsMissing(content: string, p: Point)
    requires StandsAt(content, p)
    ensures Redactor.OnlyLiterals(p.prose) ==> (content == Sanitize.Text(p.prose) <==> Redactor.HeldOf(p.prose) == "")
  {
    HeldIsHeld(p.prose);
    hide Sanitize.Text, Redactor.OnlyLiterals, Redactor.HeldOf;
    SanitizeBytes.HeldIsSeen(Redactor.HeldOf(p.prose));
  }

  lemma HeldIsHeld(prose: string)
    ensures SanitizeBytes.Held(Redactor.HeldOf(prose))
  {
    hide Redactor.Open, Redactor.FirstOpen;
    var cut := Redactor.FirstOpen(prose);
    assert Redactor.IsCut(prose, cut);
  }

  /** A whole attempt, on either path: however the deltas were cut, the writes tell what the whole text means. */
  method StreamChat(parseBody: BodyParser, cascade: bool, emulateTools: bool, id: IdText,
                    chunks: seq<(string, string)>, usage: Option<Usage>)
    returns (writes: seq<Emission>, ghost points: seq<Point>)
    ensures var whole := Meaning(parseBody, cascade, Concat(TextsOf(chunks)));
            Tells(writes, whole.text, Concat(ThinkingOf(chunks)), if emulateTools then whole.toolCalls else [], id)
    ensures CallsAreDistinct(writes)
    ensures InPlace(writes, points) && |points| == |CallsOf(writes)| && AtChunks(points, chunks, |chunks|)
    ensures forall i :: 0 <= i < |points| ==> Settled(parseBody, points[i], i)
    ensures writes != [] && writes[0] == Role && forall i :: 0 < i < |writes| ==> writes[i] != Role
    ensures |writes| >= 3
            && writes[|writes| - 3..] ==
               [Ended(if CallsOf(writes) == [] then "stop" else "tool_calls", usage), UsageOnly(usage), DoneMark]
  {
    hide Sanitize.Text, Redactor.OnlyLiterals, StreamParser.Valid, Parse;
    hide ContentOf, ThoughtOf, CallsOf, CallsAreDistinct, RoleComesFirst;
    hide Pipeline.Valid, Settled, Standing, Concat, Pipeline.Heading;
    var p := new Pipeline(parseBody, cascade, emulateTools, id);
    ghost var whole, thought := Meaning(parseBody, cascade, Concat(TextsOf(chunks))), Concat(ThinkingOf(chunks));
    HeadingAtStart(p, parseBody, Concat(TextsOf(chunks)), thought);
    assert chunks[0..] == chunks;
    NothingFed(chunks);
    for i := 0 to |chunks|
      invariant p.Valid() && fresh(p) && fresh(p.parser) && fresh(p.pathT) && fresh(p.pathK)
      invariant p.Heading(Concat(TextsOf(chunks[i..])), Concat(ThinkingOf(chunks[i..])), whole, thought)
      invariant p.taken == Fed(chunks, i) && AtChunks(p.points, chunks, i)
    {
      FirstDelta(chunks, i);
      OneChunkMore(chunks, i);
      ghost var before := p.points;
      p.TakeChunk(chunks[i].0, chunks[i].1, Concat(TextsOf(chunks[i + 1..])), Concat(ThinkingOf(chunks[i + 1..])),
                  whole, thought);
      PointsAtChunk(before, p.points, Point(p.taken, p.prose), chunks, i);
    }
    NothingLeft(chunks);
    PointsOf(p);
    p.Finish(usage, whole, thought);
    writes, points := p.writes, p.points;
    StandingIsInPlace(writes, points);
    PositionsAreDistinct(writes);
    RoleIsLeading(writes);
  }

  lemma HeadingAtStart(p: Pipeline, parseBody: BodyParser, text: string, thought: string)
    requires forall x {:trigger p.parser.Denotes(x)} :: p.parser.Denotes(x) == Parse(parseBody, Outside, x, 0)
    requires p.accText == "" && p.accThink == "" && p.collected == [] && p.pathT.buf == "" && p.pathK.buf == ""
    ensures p.Heading(text, thought, Meaning(parseBody, p.cascade, text), thought)
  {
    hide Sanitize.Text, Redactor.OnlyLiterals, Parse, StreamParser.Denotes;
    var whole := Meaning(parseBody, p.cascade, text);
    assert p.Rest(text) == whole;
    assert "" + whole.text == whole.text && "" + Sanitize.Text(whole.text) == Sanitize.Text(whole.text);
    assert "" + thought == thought && "" + Sanitize.Text(thought) == Sanitize.Text(thought);
  }

  lemma PointsOf(p: Pipeline)
    requires p.Valid()
    ensures forall i :: 0 <= i < |p.points| ==> Settled(p.parser.parseBody, p.points[i], i)
  {
  }

  lemma NothingFed(chunks: seq<(string, string)>)
    ensures Fed(chunks, 0) == "" && AtChunks([], chunks, 0)
  {
    assert TextsOf(chunks[..0]) == [];
  }

  lemma OneChunkMore(chunks: seq<(string, string)>, i: nat)
    requires i < |chunks|
    ensures Fed(chunks, i + 1) == Fed(chunks, i) + chunks[i].0
  {
    ConcatSnoc(TextsOf(chunks[..i]), chunks[i].0);
    assert TextsOf(chunks[..i + 1]) == TextsOf(chunks[..i]) + [chunks[i].0];
  }

  lemma PointsAtChunk(before: seq<Point>, after: seq<Point>, p: Point, chunks: seq<(string, string)>, i: nat)
    requires i < |chunks| && AtChunks(before, chunks, i) && Extended(before, after, p) && p.text == Fed(chunks, i + 1)
    ensures AtChunks(after, chunks, i + 1)
  {
    hide Fed;
    forall j | 0 <= j < |after|
      ensures exists k :: 0 <= k <= i + 1 && after[j].text == Fed(chunks, k)
    {
      if j < |before| {
        assert after[j] == before[j];
      }
    }
  }

  lemma NothingLeft(chunks: seq<(string, string)>)
    ensures Concat(TextsOf(chunks[|chunks|..])) == "" && Concat(ThinkingOf(chunks[|chunks|..])) == ""
  {
  }
}
