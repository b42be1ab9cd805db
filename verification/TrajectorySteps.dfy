/**
 Reading the steps of a trajectory (`ParseTrajectorySteps` in `internal/windsurf/windsurf.go`): the texts,
 the tool calls in their four shapes, the error line. A choice among proposed calls with a number
 that is negative as an `int` is out of bounds.
 */
module TrajectorySteps {
  import opened Options
  import opened Varint
  import opened ProtoFields
  import opened Trajectory

  datatype ToolCall = ToolCall(id: Bytes, name: Bytes, args: Bytes, result: Bytes, server: Bytes)

  datatype Step = Step(typ: nat, status: nat, text: Bytes, response: Bytes, modified: Bytes, thinking: Bytes,
                       errorText: Bytes, tools: seq<ToolCall>, usage: Option<Usage>)

  /** What reading a trajectory comes to. */
  datatype Reading = AreRead(steps: seq<Step>) | BadBuffer | OutOfBounds

  // ----- the fields of a message -----

  /** The bytes of the first length-delimited field with the number. */
  function Part(fields: seq<Field>, num: nat): Option<Bytes> {
    match FirstMatch(fields, num, 2)
    case Some(LenField(_, v)) => Some(v)
    case _ => None
  }

  function Bytes0(fields: seq<Field>, num: nat): Bytes {
    match Part(fields, num) case Some(v) => v case None => []
  }

  /** The message in that field, if it parses. */
  function Sub(fields: seq<Field>, num: nat): Option<seq<Field>> {
    ParseLen(FirstMatch(fields, num, 2))
  }

  // ----- tool calls -----

  const NoCall := ToolCall([], [], [], [], [])

  function CallOf(b: Bytes): ToolCall {
    match ParseAll(b)
    case Fields(fs) => ToolCall(Bytes0(fs, 1), Bytes0(fs, 2), Bytes0(fs, 3), [], [])
    case Malformed(_) => NoCall
  }

  /** A custom tool's call: its name defaults to its id. */
  function CustomCalls(inner: seq<Field>): seq<ToolCall> {
    match Sub(inner, 45)
    case None => []
    case Some(cf) =>
      var id := Bytes0(cf, 1);
      [ToolCall(id, match Part(cf, 4) case Some(name) => name case None => id, Bytes0(cf, 2), Bytes0(cf, 3), [])]
  }

  function ServerCalls(inner: seq<Field>): seq<ToolCall> {
    match Sub(inner, 47)
    case None => []
    case Some(mf) =>
      match Part(mf, 2)
      case None => []
      case Some(b) => [CallOf(b).(server := Bytes0(mf, 1), result := Bytes0(mf, 3))]
  }

  function ProposedCalls(inner: seq<Field>): seq<ToolCall> {
    match Sub(inner, 49)
    case None => []
    case Some(pf) => match Part(pf, 1) case Some(b) => [CallOf(b)] case None => []
  }

  /** `int` of a uint64. */
  function AsInt(v: nat): int {
    if v < 0x8000_0000_0000_0000 then v else v - TwoTo64
  }

  function CallsIn(fields: seq<Field>): seq<ToolCall> {
    if fields == [] then []
    else
      var n := |fields| - 1;
      CallsIn(fields[..n]) + if fields[n].LenField? then [CallOf(fields[n].value)] else []
  }

  /** The choice among several proposed calls: the calls, and the number of the one chosen. */
  function Choice(inner: seq<Field>): (seq<ToolCall>, int) {
    match Sub(inner, 50)
    case None => ([], 0)
    case Some(cf) =>
      var calls, idx := CallsIn(Having(cf, 1)), AsInt(GetVarint(cf, 2));
      (calls, if idx >= |calls| then 0 else idx)
  }

  predicate ChoiceIsOutOfBounds(inner: seq<Field>) {
    Choice(inner).0 != [] && Choice(inner).1 < 0
  }

  function ChosenCalls(inner: seq<Field>): seq<ToolCall>
    requires !ChoiceIsOutOfBounds(inner)
  {
    var (calls, idx) := Choice(inner);
    if calls == [] then [] else [calls[idx]]
  }

  function StepCalls(inner: seq<Field>): seq<ToolCall>
    requires !ChoiceIsOutOfBounds(inner)
  {
    CustomCalls(inner) + ServerCalls(inner) + ProposedCalls(inner) + ChosenCalls(inner)
  }

  // ----- errors -----

  /** The first line, cut at 300 bytes. */
  function FirstLine(s: Bytes): (r: Bytes)
    ensures |r| <= 300 && r <= s && 10 !in r
    ensures |r| < |s| ==> |r| == 300 || s[|r|] == 10
  {
    var line := UpToNewline(s);
    if |line| > 300 then line[..300] else line
  }

  function UpToNewline(s: Bytes): (r: Bytes)
    ensures r <= s && 10 !in r && (|r| < |s| ==> s[|r|] == 10)
  {
    if s == [] || s[0] == 10 then [] else [s[0]] + UpToNewline(s[1..])
  }

  function ErrorLine(b: Bytes): Bytes {
    match ParseAll(b)
    case Malformed(_) => []
    case Fields(fs) =>
      if Bytes0(fs, 1) != [] then FirstLine(Bytes0(fs, 1))
      else if Bytes0(fs, 2) != [] then FirstLine(Bytes0(fs, 2))
      else FirstLine(Bytes0(fs, 3))
  }

  function ErrorOf(inner: seq<Field>): Bytes {
    var specific := match Sub(inner, 24)
                    case None => []
                    case Some(mf) => match Part(mf, 3) case Some(b) => ErrorLine(b) case None => [];
    if specific != [] then specific
    else match Part(inner, 31) case Some(b) => ErrorLine(b) case None => []
  }

  // ----- a step -----

  function StepOf(inner: seq<Field>): Option<Step> {
    if ChoiceIsOutOfBounds(inner) then None
    else
      var (response, modified, thinking) :=
        match Sub(inner, 20) case Some(pf) => (Bytes0(pf, 1), Bytes0(pf, 8), Bytes0(pf, 3)) case None => ([], [], []);
      Some(Step(GetVarint(inner, 1), GetVarint(inner, 4), if modified != [] then modified else response, response, modified,
                thinking, ErrorOf(inner), StepCalls(inner), NestedUsage(inner, 5, 9)))
  }

  const EmptyStep := Step(0, 0, [], [], [], [], [], [], None)

  method ReadChoice(cf: seq<Field>) returns (calls: seq<ToolCall>, idx: int)
    ensures calls == CallsIn(Having(cf, 1))
    ensures idx == (var n := AsInt(GetVarint(cf, 2)); if n >= |calls| then 0 else n)
  {
    hide FirstMatch, Having, ParseAll;
    idx := AsInt(GetVarint(cf, 2));
    calls := [];
    var found := All(cf, 1);
    for n := 0 to |found|
      invariant calls == CallsIn(found[..n])
    {
      assert found[..n + 1][..n] == found[..n];
      if found[n].LenField? {
        calls := calls + [CallOf(found[n].value)];
      }
    }
    assert found[..|found|] == found;
    if idx >= |calls| {
      idx := 0;
    }
  }

  /** The tool-call fields one after the other; None if the choice is out of bounds. */
  method ReadCalls(inner: seq<Field>) returns (r: Option<seq<ToolCall>>)
    ensures r == if ChoiceIsOutOfBounds(inner) then None else Some(StepCalls(inner))
  {
    hide FirstMatch, ParseAll, CallsIn, CallOf, CustomCalls;
    hide ServerCalls, ProposedCalls, GetVarint, AsInt, Having, ParseLen;
    var out: seq<ToolCall> := [];
    out := out + CustomCalls(inner);
    assert out == CustomCalls(inner);
    out := out + ServerCalls(inner);
    out := out + ProposedCalls(inner);
    var choice := Sub(inner, 50);
    if choice.Some? {
      var calls, idx := ReadChoice(choice.value);
      if |calls| > 0 {
        if idx < 0 {
          return None;
        }
        out := out + [calls[idx]];
      }
    }
    assert out + [] == out;
    r := Some(out);
  }

  /** `entry` is filled in field by field. */
  method ReadStep(inner: seq<Field>) returns (r: Option<Step>)
    ensures r == StepOf(inner)
  {
    hide FirstMatch, ParseAll, StepCalls, ChoiceIsOutOfBounds;
    var entry := EmptyStep;
    entry := entry.(typ := GetVarint(inner, 1), status := GetVarint(inner, 4));
    entry := entry.(usage := NestedUsage(inner, 5, 9));
    var calls := ReadCalls(inner);
    if calls.None? {
      return None;
    }
    entry := entry.(tools := calls.value);
    var planner := Sub(inner, 20);
    if planner.Some? {
      var pf := planner.value;
      entry := entry.(response := Bytes0(pf, 1), modified := Bytes0(pf, 8), thinking := Bytes0(pf, 3));
      entry := entry.(text := if entry.modified != [] then entry.modified else entry.response);
    }
    entry := entry.(errorText := ErrorOf(inner));
    r := Some(entry);
  }

  // ----- all steps -----

  /** The steps of the fields that hold one; None from the first that is out of bounds. */
  function StepsOf(fields: seq<Field>): Option<seq<Step>> {
    if fields == [] then Some([])
    else
      var n := |fields| - 1;
      match (StepsOf(fields[..n]), ParseLen(Some(fields[n])))
      case (None, _) => None
      case (Some(out), None) => Some(out)
      case (Some(out), Some(inner)) => match StepOf(inner) case Some(s) => Some(out + [s]) case None => None
  }

  function Steps(buf: Bytes): Reading {
    match ParseAll(buf)
    case Malformed(_) => BadBuffer
    case Fields(fs) => match StepsOf(Having(fs, 1)) case Some(out) => AreRead(out) case None => OutOfBounds
  }

  method ParseTrajectorySteps(buf: Bytes) returns (r: Reading)
    ensures r == Steps(buf)
  {
    hide ParseAll, Having, StepOf;
    var parsed := Parse(buf);
    if parsed.Malformed? {
      return BadBuffer;
    }
    var out: seq<Step> := [];
    var found := All(parsed.fields, 1);
    for n := 0 to |found|
      invariant StepsOf(found[..n]) == Some(out)
    {
      assert found[..n + 1][..n] == found[..n];
      var inner := ParseLen(Some(found[n]));
      if inner.Some? {
        var s := ReadStep(inner.value);
        if s.None? {
          BoundsStay(found, n + 1);
          return OutOfBounds;
        }
        out := out + [s.value];
      }
    }
    assert found[..|found|] == found;
    r := AreRead(out);
  }

  lemma {:induction false} BoundsStay(fields: seq<Field>, n: nat)
    requires n <= |fields| && StepsOf(fields[..n]).None?
    ensures StepsOf(fields).None?
    decreases |fields|
  {
    hide StepOf, ParseLen;
    if n < |fields| {
      var m := |fields| - 1;
      assert fields[..m][..n] == fields[..n];
      BoundsStay(fields[..m], n);
    } else {
      assert fields[..n] == fields;
    }
  }

  // ----- parts, and bounds -----

  /** A field of the trajectory holds a step whose choice has calls and a number of 2^63 or more. */
  ghost predicate BadStep(f: Field) {
    ParseLen(Some(f)).Some? && ChoiceIsOutOfBounds(ParseLen(Some(f)).value)
  }

  lemma {:induction false} OutOfBoundsIff(fields: seq<Field>)
    ensures StepsOf(fields).None? <==> exists f :: f in fields && BadStep(f)
  {
    hide BadStep, StepsOf;
    NoSteps();
    if fields != [] {
      var n := |fields| - 1;
      OutOfBoundsIff(fields[..n]);
      assert fields == fields[..n] + [fields[n]];
      StepsNext(fields);
    }
  }

  lemma NoSteps()
    ensures StepsOf([]) == Some([])
  {
  }

  lemma StepsNext(fields: seq<Field>)
    requires fields != []
    ensures var n := |fields| - 1;
            StepsOf(fields).None? <==> StepsOf(fields[..n]).None? || BadStep(fields[n])
  {
    hide ParseLen, ChoiceIsOutOfBounds, StepCalls, ErrorOf;
  }

  lemma {:induction false} StepsConcat(a: seq<Field>, b: seq<Field>)
    requires StepsOf(a).Some? && StepsOf(b).Some?
    ensures StepsOf(a + b) == Some(StepsOf(a).value + StepsOf(b).value)
  {
    hide ParseLen, StepOf;
    if b == [] {
      assert a + b == a && StepsOf(a).value + [] == StepsOf(a).value;
    } else {
      var n := |b| - 1;
      StepsConcat(a, b[..n]);
      assert (a + b)[..|a + b| - 1] == a + b[..n];
      var front := StepsOf(b[..n]).value;
      var last := StepsOf(b).value[|front|..];
      assert StepsOf(b).value == front + last;
      assert StepsOf(a).value + front + last == StepsOf(a).value + (front + last);
    }
  }

  /** The steps of two parts together are those of the first, then those of the second; bounds are kept by both or not. */
  lemma StepsConcatenate(a: Bytes, b: Bytes)
    requires ParseAll(a).Fields? && ParseAll(b).Fields?
    ensures Steps(a + b) == if Steps(a).AreRead? && Steps(b).AreRead? then AreRead(Steps(a).steps + Steps(b).steps) else OutOfBounds
  {
    ParseConcat(a, b);
    hide ParseAll, StepsOf, Having, BadStep;
    var fa, fb := Having(ParseAll(a).fields, 1), Having(ParseAll(b).fields, 1);
    HavingConcat(ParseAll(a).fields, ParseAll(b).fields, 1);
    OutOfBoundsIff(fa);
    OutOfBoundsIff(fb);
    OutOfBoundsIff(fa + fb);
    if StepsOf(fa).Some? && StepsOf(fb).Some? {
      StepsConcat(fa, fb);
    } else {
      var f :| f in (if StepsOf(fa).None? then fa else fb) && BadStep(f);
      assert f in fa + fb;
    }
  }

  /** Reading a trajectory stops out of bounds exactly if one of its steps makes such a choice. */
  lemma TrajectoryOutOfBoundsIff(buf: Bytes)
    ensures Steps(buf) == OutOfBounds <==>
            ParseAll(buf).Fields? && exists f :: f in ParseAll(buf).fields && f.num == 1 && BadStep(f)
  {
    hide ParseAll, StepsOf, Having, BadStep;
    if ParseAll(buf).Fields? {
      var fs := ParseAll(buf).fields;
      OutOfBoundsIff(Having(fs, 1));
      forall f
        ensures f in Having(fs, 1) <==> f in fs && f.num == 1
      {
        HavingIs(fs, 1, f);
      }
    }
  }
}
