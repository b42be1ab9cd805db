/**
 A step as the language server writes it, with every part that `ParseTrajectorySteps` in
 `internal/windsurf/windsurf.go` looks for, and what is read back of it.
 */
module StepWire {
  import opened Options
  import opened Varint
  import opened ProtoFields
  import opened Trajectory
  import opened TrajectorySteps

  // ----- messages of parts under different numbers -----

  /** Varints and length-delimited parts under numbers that fit a tag. */
  predicate Plain(ws: seq<Write>) {
    forall i :: 0 <= i < |ws| ==> 0 < ws[i].num < 100 && (ws[i].PutLen? || (ws[i].PutVarint? && IsUint64(ws[i].v)))
  }

  /** No other write has the number of the `i`-th. */
  predicate Sole(ws: seq<Write>, i: nat) {
    i < |ws| && forall j :: 0 <= j < |ws| && j != i ==> ws[j].num != ws[i].num
  }

  lemma {:induction false} PartIsShorter(ws: seq<Write>, i: nat)
    requires i < |ws|
    ensures |Encoded(ws[i])| <= |EncodedAll(ws)|
    ensures ws[i].PutLen? ==> |ws[i].bytes| <= |Encoded(ws[i])|
  {
    hide Tag, Varint.Encode;
    if i > 0 {
      PartIsShorter(ws[1..], i - 1);
    }
  }

  /** A message that is short enough is read back as its parts. */
  lemma MessageIsRead(ws: seq<Write>)
    requires Plain(ws) && |EncodedAll(ws)| <= MaxFieldBytes
    ensures forall i :: 0 <= i < |ws| ==> Fits(ws[i])
    ensures forall i :: 0 <= i < |ws| && ws[i].PutLen? ==> |ws[i].bytes| <= MaxFieldBytes
    ensures ParseAll(EncodedAll(ws)) == Fields(KeptAll(ws))
  {
    hide EncodedAll, Encoded, ParseAll, KeptAll;
    forall i | 0 <= i < |ws|
      ensures Fits(ws[i]) && (ws[i].PutLen? ==> |ws[i].bytes| <= MaxFieldBytes)
    {
      PartIsShorter(ws, i);
    }
    ParseInvertsWriting(ws);
  }

  lemma {:induction false} Absent(ws: seq<Write>, num: nat, wire: nat)
    requires forall i :: 0 <= i < |ws| ==> InRange(ws[i]) && ws[i].num != num
    ensures forall f :: f in KeptAll(ws) ==> f.num != num
    ensures FirstMatch(KeptAll(ws), num, wire) == None
  {
    hide InRange;
    if ws != [] {
      assert forall f :: f in Kept(ws[0]) ==> f.num == ws[0].num by {
        assert InRange(ws[0]);
        NumberKept(ws[0]);
      }
      Absent(ws[1..], num, wire);
    }
  }

  lemma NumberKept(w: Write)
    requires InRange(w)
    ensures forall f :: f in Kept(w) ==> f.num == w.num
  {
  }

  lemma MatchNext(fields: seq<Field>, f: Field, num: nat, wire: nat)
    ensures FirstMatch([], num, wire) == None
    ensures FirstMatch(fields + [f], num, wire) ==
            if FirstMatch(fields, num, wire).None? && Matches(f, num, wire) then Some(f)
                    else FirstMatch(fields, num, wire)
  {
    assert (fields + [f])[..|fields|] == fields;
  }

  /** Looking through `a + b` is looking through `a`, then through `b`. */
  lemma {:induction false} MatchConcat(a: seq<Field>, b: seq<Field>, num: nat, wire: nat)
    ensures FirstMatch(a + b, num, wire) ==
            if FirstMatch(a, num, wire).Some? then FirstMatch(a, num, wire) else FirstMatch(b, num, wire)
  {
    hide FirstMatch;
    if b == [] {
      assert a + b == a;
      MatchNext([], VarintField(0, 0), num, wire);
    } else {
      var n := |b| - 1;
      MatchConcat(a, b[..n], num, wire);
      MatchNext(a + b[..n], b[n], num, wire);
      MatchNext(b[..n], b[n], num, wire);
      assert a + b == a + b[..n] + [b[n]] && b == b[..n] + [b[n]];
    }
  }

  /** The one write with its number is what a look-up finds. */
  lemma {:induction false} SoleIsFound(ws: seq<Write>, i: nat, wire: nat)
    requires (forall j :: 0 <= j < |ws| ==> InRange(ws[j])) && Sole(ws, i)
    ensures FirstMatch(KeptAll(ws), ws[i].num, wire) == FirstMatch(Kept(ws[i]), ws[i].num, wire)
  {
    hide FirstMatch, InRange;
    var num := ws[i].num;
    assert InRange(ws[i]) && num >= 0 by {
      assert InRange(ws[i]);
      NumberIsNat(ws[i]);
    }
    var rest := ws[1..];
    MatchConcat(Kept(ws[0]), KeptAll(rest), num, wire);
    if i == 0 {
      Absent(rest, num, wire);
    } else {
      NumberKept(ws[0]);
      NoMatch(Kept(ws[0]), num, wire);
      assert forall j :: 0 <= j < |rest| ==> rest[j] == ws[j + 1];
      SoleIsFound(rest, i - 1, wire);
    }
  }

  lemma NumberIsNat(w: Write)
    requires InRange(w)
    ensures w.num >= 0
  {
  }

  lemma NoMatch(a: seq<Field>, num: nat, wire: nat)
    requires forall f :: f in a ==> f.num != num
    ensures FirstMatch(a, num, wire) == None
  {
  }

  /** Under this number the message holds these bytes, or nothing if there are none. */
  predicate Holds(fields: seq<Field>, num: nat, b: Bytes) {
    FirstMatch(fields, num, 2) == if b == [] then None else Some(LenField(num, b))
  }

  lemma PartIsHeld(ws: seq<Write>, i: nat)
    requires Plain(ws) && (forall j :: 0 <= j < |ws| ==> InRange(ws[j])) && Sole(ws, i) && ws[i].PutLen?
    ensures Holds(KeptAll(ws), ws[i].num, ws[i].bytes)
    ensures Bytes0(KeptAll(ws), ws[i].num) == ws[i].bytes
  {
    SoleIsFound(ws, i, 2);
    if ws[i].bytes != [] {
      OneIsFound(LenField(ws[i].num, ws[i].bytes), 2);
    }
    hide KeptAll;
  }

  lemma VarintIsHeld(ws: seq<Write>, i: nat)
    requires Plain(ws) && (forall j :: 0 <= j < |ws| ==> InRange(ws[j])) && Sole(ws, i) && ws[i].PutVarint?
    ensures GetVarint(KeptAll(ws), ws[i].num) == ws[i].v
  {
    SoleIsFound(ws, i, 0);
    OneIsFound(VarintField(ws[i].num, ws[i].v), 0);
    hide KeptAll, FirstMatch;
  }

  lemma OneIsFound(f: Field, wire: nat)
    ensures FirstMatch([f], f.num, wire) == if WireType(f) == wire then Some(f) else None
  {
    MatchNext([], f, f.num, wire);
    hide FirstMatch;
    assert [] + [f] == [f];
  }

  /** A message is empty exactly if all its parts are. */
  lemma {:induction false} EmptyIff(ws: seq<Write>)
    requires forall i :: 0 <= i < |ws| ==> ws[i].PutLen?
    ensures EncodedAll(ws) == [] <==> forall i :: 0 <= i < |ws| ==> ws[i].bytes == []
  {
    if forall i :: 0 <= i < |ws| ==> ws[i].bytes == [] {
      NothingEncoded(ws);
    } else {
      var i :| 0 <= i < |ws| && ws[i].bytes != [];
      PartIsShorter(ws, i);
    }
  }

  lemma {:induction false} NothingEncoded(ws: seq<Write>)
    requires forall i :: 0 <= i < |ws| ==> ws[i].PutLen? && ws[i].bytes == []
    ensures EncodedAll(ws) == []
  {
    if ws != [] {
      NothingEncoded(ws[1..]);
    }
  }

  /** What a look-up of an embedded message gives. */
  lemma EmbeddedIsRead(fields: seq<Field>, num: nat, ws: seq<Write>)
    requires Holds(fields, num, EncodedAll(ws)) && Plain(ws) && |EncodedAll(ws)| <= MaxFieldBytes
    ensures forall i :: 0 <= i < |ws| ==> InRange(ws[i])
    ensures Part(fields, num) == if EncodedAll(ws) == [] then None else Some(EncodedAll(ws))
    ensures Sub(fields, num) == if EncodedAll(ws) == [] then None else Some(KeptAll(ws))
  {
    hide ParseAll, EncodedAll, KeptAll, FirstMatch, Plain;
    MessageIsRead(ws);
  }

  lemma WrappedIsPlain(num: nat, b: Bytes)
    requires 0 < num < 100 && |Wrapped(num, b)| <= MaxFieldBytes
    ensures var ws := [PutLen(num, b)];
            && Plain(ws) && Sole(ws, 0) && EncodedAll(ws) == Wrapped(num, b) && |b| <= MaxFieldBytes
            && (EncodedAll(ws) == [] ==> b == [])
  {
    hide EncodedAll;
    var ws := [PutLen(num, b)];
    EmptyIff(ws);
    MessageIsRead(ws);
    assert ws[0] == PutLen(num, b);
  }

  // ----- calls -----

  function CallWrites(c: ToolCall): seq<Write> {
    [PutLen(1, c.id), PutLen(2, c.name), PutLen(3, c.args)]
  }

  function CallBytes(c: ToolCall): Bytes {
    EncodedAll(CallWrites(c))
  }

  /** The parts of a call that its message holds. */
  function Bare(c: ToolCall): ToolCall {
    ToolCall(c.id, c.name, c.args, [], [])
  }

  lemma CallPartsAre(c: ToolCall)
    ensures var ws := CallWrites(c);
            && Plain(ws) && Sole(ws, 0) && Sole(ws, 1) && Sole(ws, 2)
            && (EncodedAll(ws) == [] <==> Bare(c) == NoCall)
  {
    hide EncodedAll;
    var ws := CallWrites(c);
    EmptyIff(ws);
    assert ws[0].bytes == c.id && ws[1].bytes == c.name && ws[2].bytes == c.args;
  }

  lemma CallIsRead(c: ToolCall)
    requires |CallBytes(c)| <= MaxFieldBytes
    ensures CallOf(CallBytes(c)) == Bare(c)
    ensures CallBytes(c) == [] <==> Bare(c) == NoCall
  {
    hide ParseAll, EncodedAll, KeptAll, FirstMatch, Bytes0, Plain, Sole;
    var ws := CallWrites(c);
    CallPartsAre(c);
    MessageIsRead(ws);
    PartIsHeld(ws, 0);
    PartIsHeld(ws, 1);
    PartIsHeld(ws, 2);
  }

  function CustomWrites(c: ToolCall): seq<Write> {
    [PutLen(1, c.id), PutLen(2, c.args), PutLen(3, c.result), PutLen(4, c.name)]
  }

  /** A custom call has no server, and its id for a name if it has none. */
  function CustomTold(c: ToolCall): seq<ToolCall> {
    if c.id == [] && c.name == [] && c.args == [] && c.result == [] then []
    else [ToolCall(c.id, if c.name == [] then c.id else c.name, c.args, c.result, [])]
  }

  lemma CustomPartsAre(c: ToolCall)
    ensures var ws := CustomWrites(c);
            && Plain(ws) && Sole(ws, 0) && Sole(ws, 1) && Sole(ws, 2) && Sole(ws, 3)
            && (EncodedAll(ws) == [] <==> CustomTold(c) == [])
  {
    hide EncodedAll;
    var ws := CustomWrites(c);
    EmptyIff(ws);
    assert ws[0].bytes == c.id && ws[1].bytes == c.args && ws[2].bytes == c.result && ws[3].bytes == c.name;
  }

  lemma CustomIsRead(inner: seq<Field>, c: ToolCall)
    requires Holds(inner, 45, EncodedAll(CustomWrites(c))) && |EncodedAll(CustomWrites(c))| <= MaxFieldBytes
    ensures CustomCalls(inner) == CustomTold(c)
  {
    hide ParseAll, EncodedAll, KeptAll, FirstMatch, Plain, Sole, Sub, Holds;
    var ws := CustomWrites(c);
    CustomPartsAre(c);
    EmbeddedIsRead(inner, 45, ws);
    PartIsHeld(ws, 0);
    PartIsHeld(ws, 1);
    PartIsHeld(ws, 2);
    PartIsHeld(ws, 3);
    NameIsHeld(ws, 3);
  }

  lemma NameIsHeld(ws: seq<Write>, i: nat)
    requires Plain(ws) && (forall j :: 0 <= j < |ws| ==> InRange(ws[j])) && Sole(ws, i) && ws[i].PutLen?
    ensures Part(KeptAll(ws), ws[i].num) == if ws[i].bytes == [] then None else Some(ws[i].bytes)
  {
    hide KeptAll, FirstMatch;
    PartIsHeld(ws, i);
  }

  function ServerWrites(c: ToolCall): seq<Write> {
    [PutLen(1, c.server), PutLen(2, CallBytes(c)), PutLen(3, c.result)]
  }

  /** A server's call is the embedded one, with the server's name and the result beside it. */
  function ServerTold(c: ToolCall): seq<ToolCall> {
    if Bare(c) == NoCall then [] else [c]
  }

  lemma ServerPartsAre(c: ToolCall)
    requires |EncodedAll(ServerWrites(c))| <= MaxFieldBytes
    ensures var ws := ServerWrites(c);
            && Plain(ws) && Sole(ws, 0) && Sole(ws, 1) && Sole(ws, 2) && |CallBytes(c)| <= MaxFieldBytes
            && (EncodedAll(ws) == [] ==> CallBytes(c) == [])
  {
    hide EncodedAll, CallBytes;
    var ws := ServerWrites(c);
    EmptyIff(ws);
    MessageIsRead(ws);
    assert ws[1] == PutLen(2, CallBytes(c));
  }

  lemma ServerIsRead(inner: seq<Field>, c: ToolCall)
    requires Holds(inner, 47, EncodedAll(ServerWrites(c))) && |EncodedAll(ServerWrites(c))| <= MaxFieldBytes
    ensures ServerCalls(inner) == ServerTold(c)
  {
    hide ParseAll, EncodedAll, KeptAll, FirstMatch, CallBytes, CallOf, Plain, Sole, Sub, Holds;
    var ws := ServerWrites(c);
    ServerPartsAre(c);
    CallIsRead(c);
    EmbeddedIsRead(inner, 47, ws);
    PartIsHeld(ws, 0);
    NameIsHeld(ws, 1);
    PartIsHeld(ws, 2);
  }

  function ProposedTold(c: ToolCall): seq<ToolCall> {
    if Bare(c) == NoCall then [] else [Bare(c)]
  }

  lemma ProposedIsRead(inner: seq<Field>, c: ToolCall)
    requires Holds(inner, 49, Wrapped(1, CallBytes(c))) && |Wrapped(1, CallBytes(c))| <= MaxFieldBytes
    ensures ProposedCalls(inner) == ProposedTold(c)
  {
    hide ParseAll, EncodedAll, KeptAll, FirstMatch, CallBytes, CallOf, Wrapped, Plain, Sole, Sub, Holds;
    var ws := [PutLen(1, CallBytes(c))];
    WrappedIsPlain(1, CallBytes(c));
    CallIsRead(c);
    EmbeddedIsRead(inner, 49, ws);
    NameIsHeld(ws, 0);
  }

  // ----- a choice among calls -----

  function CallParts(calls: seq<ToolCall>): seq<Write> {
    if calls == [] then [] else [PutLen(1, CallBytes(calls[0]))] + CallParts(calls[1..])
  }

  function ChoiceWrites(calls: seq<ToolCall>, chosen: nat): seq<Write> {
    CallParts(calls) + [PutVarint(2, chosen)]
  }

  function ChoiceBytes(calls: seq<ToolCall>, chosen: nat): Bytes {
    if calls == [] then [] else EncodedAll(ChoiceWrites(calls, chosen))
  }

  predicate CallsSaySomething(calls: seq<ToolCall>) {
    forall i :: 0 <= i < |calls| ==> Bare(calls[i]) != NoCall
  }

  /** The call with the number, or the first if there is no such call. */
  function ChosenTold(calls: seq<ToolCall>, chosen: nat): seq<ToolCall> {
    if calls == [] then [] else [Bare(calls[if chosen < |calls| then chosen else 0])]
  }

  lemma {:induction false} CallPartsArePlain(calls: seq<ToolCall>)
    ensures var ws := CallParts(calls);
            |ws| == |calls| && forall i :: 0 <= i < |ws| ==> ws[i] == PutLen(1, CallBytes(calls[i]))
  {
    hide CallBytes;
    if calls != [] {
      CallPartsArePlain(calls[1..]);
    }
  }

  lemma {:induction false} KeptConcat(a: seq<Write>, b: seq<Write>)
    requires forall i :: 0 <= i < |a| ==> InRange(a[i])
    requires forall i :: 0 <= i < |b| ==> InRange(b[i])
    ensures KeptAll(a + b) == KeptAll(a) + KeptAll(b)
  {
    hide InRange, Kept;
    if a == [] {
      assert a + b == b;
    } else {
      assert (a + b)[1..] == a[1..] + b;
      KeptConcat(a[1..], b);
    }
  }

  lemma {:induction false} CallsConcat(a: seq<Field>, b: seq<Field>)
    ensures CallsIn(a + b) == CallsIn(a) + CallsIn(b)
  {
    hide CallOf;
    if b == [] {
      assert a + b == a;
    } else {
      var n := |b| - 1;
      CallsConcat(a, b[..n]);
      assert (a + b)[..|a + b| - 1] == a + b[..n];
    }
  }

  lemma OneOf(f: Field)
    ensures Having([f], f.num) == [f] && forall n: nat :: n != f.num ==> Having([f], n) == []
    ensures CallsIn([f]) == if f.LenField? then [CallOf(f.value)] else []
  {
    hide CallOf;
    assert [f][..0] == [];
  }

  lemma FirstIsKept(c: ToolCall, rest: seq<Write>)
    requires |CallBytes(c)| <= MaxFieldBytes && Bare(c) != NoCall && forall i :: 0 <= i < |rest| ==> InRange(rest[i])
    ensures var ws := [PutLen(1, CallBytes(c))] + rest;
            && (forall i :: 0 <= i < |ws| ==> InRange(ws[i]))
            && KeptAll(ws) == [LenField(1, CallBytes(c))] + KeptAll(rest)
  {
    CallIsRead(c);
    hide CallBytes;
    assert ([PutLen(1, CallBytes(c))] + rest)[1..] == rest;
  }

  /** The calls of a choice are read back in order. */
  lemma {:induction false} CallPartsAreRead(calls: seq<ToolCall>)
    requires CallsSaySomething(calls)
    requires forall i :: 0 <= i < |calls| ==> |CallBytes(calls[i])| <= MaxFieldBytes
    ensures forall i :: 0 <= i < |CallParts(calls)| ==> InRange(CallParts(calls)[i])
    ensures var found := CallsIn(Having(KeptAll(CallParts(calls)), 1));
            |found| == |calls| && forall i :: 0 <= i < |calls| ==> found[i] == Bare(calls[i])
  {
    if calls == [] {
      NothingHad();
    } else {
      assert CallParts(calls) == [PutLen(1, CallBytes(calls[0]))] + CallParts(calls[1..]);
      assert Bare(calls[0]) != NoCall && CallsSaySomething(calls[1..]);
      hide *;
      var c, rest := calls[0], CallParts(calls[1..]);
      var f := LenField(1, CallBytes(c));
      CallPartsAreRead(calls[1..]);
      CallIsRead(c);
      FirstIsKept(c, rest);
      HavingConcat([f], KeptAll(rest), 1);
      CallsConcat([f], Having(KeptAll(rest), 1));
      OneOf(f);
    }
  }

  lemma NothingHad()
    ensures CallsIn(Having([], 1)) == []
  {
  }

  lemma ChoiceIsPlain(calls: seq<ToolCall>, chosen: nat)
    requires IsUint64(chosen) && |EncodedAll(ChoiceWrites(calls, chosen))| <= MaxFieldBytes
    ensures var ws := ChoiceWrites(calls, chosen);
            && Plain(ws) && Sole(ws, |calls|) && |ws| == |calls| + 1 && ws[|calls|] == PutVarint(2, chosen)
            && EncodedAll(ws) != []
    ensures forall i :: 0 <= i < |calls| ==> |CallBytes(calls[i])| <= MaxFieldBytes
  {
    hide EncodedAll, CallBytes, Encoded;
    var ws, n := ChoiceWrites(calls, chosen), |calls|;
    CallPartsArePlain(calls);
    assert ws[n] == PutVarint(2, chosen);
    PartIsShorter(ws, n);
    VarintIsWritten(2, chosen);
    MessageIsRead(ws);
    forall i | 0 <= i < n
      ensures |CallBytes(calls[i])| <= MaxFieldBytes
    {
      assert ws[i] == CallParts(calls)[i] == PutLen(1, CallBytes(calls[i]));
    }
  }

  /** The fields of a choice: the calls in order, and the number. */
  lemma ChoiceFields(calls: seq<ToolCall>, chosen: nat)
    requires IsUint64(chosen) && |EncodedAll(ChoiceWrites(calls, chosen))| <= MaxFieldBytes && CallsSaySomething(calls)
    ensures var ws := ChoiceWrites(calls, chosen);
            && (forall i :: 0 <= i < |ws| ==> InRange(ws[i]))
            && GetVarint(KeptAll(ws), 2) == chosen
            && var found := CallsIn(Having(KeptAll(ws), 1));
               |found| == |calls| && forall i :: 0 <= i < |calls| ==> found[i] == Bare(calls[i])
  {
    hide ParseAll, EncodedAll, FirstMatch, CallBytes, CallOf, Having, CallsIn, GetVarint, KeptAll, CallParts;
    var ws, parts, last := ChoiceWrites(calls, chosen), CallParts(calls), [PutVarint(2, chosen)];
    ChoiceIsPlain(calls, chosen);
    CallPartsArePlain(calls);
    MessageIsRead(ws);
    VarintIsHeld(ws, |calls|);
    CallPartsAreRead(calls);
    KeptConcat(parts, last);
    LastIsKept(chosen);
    HavingConcat(KeptAll(parts), [VarintField(2, chosen)], 1);
    OneOf(VarintField(2, chosen));
    assert Having(KeptAll(parts), 1) + [] == Having(KeptAll(parts), 1);
  }

  /** A number of 2^63 or more is negative as an `int`. */
  lemma ChoiceIsRead(inner: seq<Field>, calls: seq<ToolCall>, chosen: nat)
    requires Holds(inner, 50, ChoiceBytes(calls, chosen)) && |ChoiceBytes(calls, chosen)| <= MaxFieldBytes
    requires IsUint64(chosen) && CallsSaySomething(calls)
    ensures ChoiceIsOutOfBounds(inner) <==> calls != [] && chosen >= 0x8000_0000_0000_0000
    ensures !ChoiceIsOutOfBounds(inner) ==> ChosenCalls(inner) == ChosenTold(calls, chosen)
  {
    hide ParseAll, EncodedAll, FirstMatch, CallBytes, CallOf, Having, CallsIn, GetVarint, KeptAll, CallParts;
    if calls != [] {
      ChoiceIsPlain(calls, chosen);
      ChoiceFields(calls, chosen);
      EmbeddedIsRead(inner, 50, ChoiceWrites(calls, chosen));
    }
  }

  lemma VarintIsWritten(num: nat, v: nat)
    requires IsUint64(v)
    ensures |Encoded(PutVarint(num, v))| > 0
  {
    VarintIsShort(num, v);
  }

  lemma LastIsKept(chosen: nat)
    requires IsUint64(chosen)
    ensures KeptAll([PutVarint(2, chosen)]) == [VarintField(2, chosen)]
  {
    var ws := [PutVarint(2, chosen)];
    assert ws[1..] == [] && KeptAll(ws[1..]) == [];
  }

  // ----- errors -----

  /** The three texts of an error: the one for users, the short one, the full one. */
  datatype Failure = Failure(first: Bytes, second: Bytes, third: Bytes)

  function FailureWrites(e: Failure): seq<Write> {
    [PutLen(1, e.first), PutLen(2, e.second), PutLen(3, e.third)]
  }

  /** The first line of the first text that is not empty. */
  function LineTold(e: Failure): Bytes {
    FirstLine(if e.first != [] then e.first else if e.second != [] then e.second else e.third)
  }

  lemma FailureIsRead(e: Failure)
    requires |EncodedAll(FailureWrites(e))| <= MaxFieldBytes
    ensures ErrorLine(EncodedAll(FailureWrites(e))) == LineTold(e)
    ensures EncodedAll(FailureWrites(e)) == [] ==> LineTold(e) == []
  {
    var ws := FailureWrites(e);
    EmptyIff(ws);
    assert Plain(ws) && Sole(ws, 0) && Sole(ws, 1) && Sole(ws, 2);
    assert EncodedAll(ws) == [] ==> ws[0].bytes == [] && ws[1].bytes == [] && ws[2].bytes == [];
    hide ParseAll, EncodedAll, KeptAll, FirstMatch, Bytes0, UpToNewline;
    MessageIsRead(ws);
    PartIsHeld(ws, 0);
    PartIsHeld(ws, 1);
    PartIsHeld(ws, 2);
  }

  /** The error of the step itself, or the general one if it has no line to show. */
  lemma ErrorIsRead(inner: seq<Field>, own: Failure, general: Failure)
    requires Holds(inner, 24, Wrapped(3, EncodedAll(FailureWrites(own))))
    requires |Wrapped(3, EncodedAll(FailureWrites(own)))| <= MaxFieldBytes
    requires Holds(inner, 31, EncodedAll(FailureWrites(general)))
    requires |EncodedAll(FailureWrites(general))| <= MaxFieldBytes
    ensures ErrorOf(inner) == if LineTold(own) != [] then LineTold(own) else LineTold(general)
  {
    hide ParseAll, EncodedAll, KeptAll, FirstMatch, FailureWrites, LineTold, ErrorLine, Wrapped, Plain, Sole, Sub, Holds;
    var ws := [PutLen(3, EncodedAll(FailureWrites(own)))];
    WrappedIsPlain(3, EncodedAll(FailureWrites(own)));
    FailureIsRead(own);
    FailureIsRead(general);
    EmbeddedIsRead(inner, 24, ws);
    GeneralIsRead(inner, EncodedAll(FailureWrites(general)));
    NameIsHeld(ws, 0);
  }

  lemma GeneralIsRead(inner: seq<Field>, b: Bytes)
    requires Holds(inner, 31, b)
    ensures Part(inner, 31) == if b == [] then None else Some(b)
  {
  }

  // ----- usage and the planner -----

  function UsageBytes(u: Option<Usage>): Bytes {
    match u case None => [] case Some(v) => Wrapped(9, EncodedAll(StatsWrites(v)))
  }

  /** A report of zeros says nothing. */
  function UsageTold(u: Option<Usage>): Option<Usage> {
    if u == Some(NoUsage) then None else u
  }

  lemma UsageIsRead(inner: seq<Field>, u: Option<Usage>)
    requires Holds(inner, 5, UsageBytes(u)) && |UsageBytes(u)| <= MaxFieldBytes && (u.Some? ==> IsUsage(u.value))
    ensures NestedUsage(inner, 5, 9) == UsageTold(u)
  {
    hide ParseAll, EncodedAll, KeptAll, FirstMatch, StatsWrites, StatsUsage, Holds, Wrapped, Plain;
    match u
    case None => NoUsageIsRead(inner);
    case Some(v) =>
      StatsAreShort(v);
      StatsAreRead(v);
      StatsUsageIs(v);
      StatsAreFound(inner, EncodedAll(StatsWrites(v)));
  }

  lemma NoUsageIsRead(inner: seq<Field>)
    requires Holds(inner, 5, [])
    ensures NestedUsage(inner, 5, 9) == None
  {
    hide FirstMatch;
  }

  lemma StatsAreFound(inner: seq<Field>, stats: Bytes)
    requires 0 < |stats| && Holds(inner, 5, Wrapped(9, stats)) && |Wrapped(9, stats)| <= MaxFieldBytes
    requires ParseAll(stats).Fields?
    ensures NestedUsage(inner, 5, 9) == StatsUsage(ParseAll(stats).fields)
  {
    var ws := [PutLen(9, stats)];
    EmptyIff(ws);
    assert Plain(ws) && Sole(ws, 0) && EncodedAll(ws) == Wrapped(9, stats) && ws[0].bytes != [];
    hide ParseAll, EncodedAll, KeptAll, FirstMatch, StatsUsage, Wrapped;
    EmbeddedIsRead(inner, 5, ws);
    PartIsHeld(ws, 0);
  }

  function PlannerWrites(response: Bytes, thinking: Bytes, modified: Bytes): seq<Write> {
    [PutLen(1, response), PutLen(3, thinking), PutLen(8, modified)]
  }

  lemma PlannerIsRead(inner: seq<Field>, response: Bytes, thinking: Bytes, modified: Bytes)
    requires Holds(inner, 20, EncodedAll(PlannerWrites(response, thinking, modified)))
    requires |EncodedAll(PlannerWrites(response, thinking, modified))| <= MaxFieldBytes
    ensures match Sub(inner, 20)
            case Some(pf) => Bytes0(pf, 1) == response && Bytes0(pf, 3) == thinking && Bytes0(pf, 8) == modified
            case None => response == [] && thinking == [] && modified == []
  {
    var ws := PlannerWrites(response, thinking, modified);
    EmptyIff(ws);
    assert Plain(ws) && Sole(ws, 0) && Sole(ws, 1) && Sole(ws, 2);
    assert EncodedAll(ws) == [] ==> ws[0].bytes == [] && ws[1].bytes == [] && ws[2].bytes == [];
    hide ParseAll, EncodedAll, KeptAll, FirstMatch, Bytes0;
    EmbeddedIsRead(inner, 20, ws);
    hide Sub, Holds;
    PartIsHeld(ws, 0);
    PartIsHeld(ws, 1);
    PartIsHeld(ws, 2);
  }

  // ----- a whole step -----

  /** What a step says; a part that is empty is not written. */
  datatype Said = Said(typ: nat, status: nat, usage: Option<Usage>, response: Bytes, thinking: Bytes, modified: Bytes,
                       own: Failure, general: Failure, custom: ToolCall, server: ToolCall, proposed: ToolCall,
                       calls: seq<ToolCall>, chosen: nat)

  predicate CanBeSaid(s: Said) {
    && IsUint64(s.typ) && IsUint64(s.status) && IsUint64(s.chosen)
    && (s.usage.Some? ==> IsUsage(s.usage.value)) && CallsSaySomething(s.calls)
  }

  function StepWrites(s: Said): seq<Write> {
    [PutVarint(1, s.typ), PutVarint(4, s.status), PutLen(5, UsageBytes(s.usage)),
     PutLen(20, EncodedAll(PlannerWrites(s.response, s.thinking, s.modified))),
     PutLen(24, Wrapped(3, EncodedAll(FailureWrites(s.own)))), PutLen(31, EncodedAll(FailureWrites(s.general))),
     PutLen(45, EncodedAll(CustomWrites(s.custom))), PutLen(47, EncodedAll(ServerWrites(s.server))),
     PutLen(49, Wrapped(1, CallBytes(s.proposed))), PutLen(50, ChoiceBytes(s.calls, s.chosen))]
  }

  function StepBytes(s: Said): Bytes {
    EncodedAll(StepWrites(s))
  }

  /** The step that should be read: every part where it belongs, the calls in the order of their numbers. */
  function StepTold(s: Said): Step {
    Step(s.typ, s.status, if s.modified != [] then s.modified else s.response, s.response, s.modified, s.thinking,
         if LineTold(s.own) != [] then LineTold(s.own) else LineTold(s.general),
         CustomTold(s.custom) + ServerTold(s.server) + ProposedTold(s.proposed) + ChosenTold(s.calls, s.chosen),
         UsageTold(s.usage))
  }

  lemma StepIsPlain(s: Said)
    requires CanBeSaid(s)
    ensures Plain(StepWrites(s)) && forall i :: 0 <= i < 10 ==> Sole(StepWrites(s), i)
  {
    hide EncodedAll, Wrapped, CallBytes, ChoiceBytes, UsageBytes;
  }

  predicate IsShort(fields: seq<Field>, num: nat, b: Bytes) {
    Holds(fields, num, b) && |b| <= MaxFieldBytes
  }

  /** What a message of ten such parts holds. */
  lemma PartsAreHeld(ws: seq<Write>)
    requires Plain(ws) && |EncodedAll(ws)| <= MaxFieldBytes && forall i :: 0 <= i < |ws| ==> Sole(ws, i)
    ensures forall i :: 0 <= i < |ws| ==> InRange(ws[i])
    ensures ParseAll(EncodedAll(ws)) == Fields(KeptAll(ws))
    ensures forall i :: 0 <= i < |ws| && ws[i].PutVarint? ==> GetVarint(KeptAll(ws), ws[i].num) == ws[i].v
    ensures forall i :: 0 <= i < |ws| && ws[i].PutLen? ==> IsShort(KeptAll(ws), ws[i].num, ws[i].bytes)
  {
    hide EncodedAll, KeptAll, ParseAll, Holds, GetVarint;
    MessageIsRead(ws);
    forall i | 0 <= i < |ws| && ws[i].PutVarint?
      ensures GetVarint(KeptAll(ws), ws[i].num) == ws[i].v
    {
      VarintIsHeld(ws, i);
    }
    forall i | 0 <= i < |ws| && ws[i].PutLen?
      ensures IsShort(KeptAll(ws), ws[i].num, ws[i].bytes)
    {
      PartIsHeld(ws, i);
    }
  }

  /** Every part of the step stands in its field. */
  ghost predicate InItsField(inner: seq<Field>, s: Said) {
    && GetVarint(inner, 1) == s.typ && GetVarint(inner, 4) == s.status
    && IsShort(inner, 5, UsageBytes(s.usage))
    && IsShort(inner, 20, EncodedAll(PlannerWrites(s.response, s.thinking, s.modified)))
    && IsShort(inner, 24, Wrapped(3, EncodedAll(FailureWrites(s.own))))
    && IsShort(inner, 31, EncodedAll(FailureWrites(s.general)))
    && IsShort(inner, 45, EncodedAll(CustomWrites(s.custom)))
    && IsShort(inner, 47, EncodedAll(ServerWrites(s.server)))
    && IsShort(inner, 49, Wrapped(1, CallBytes(s.proposed)))
    && IsShort(inner, 50, ChoiceBytes(s.calls, s.chosen))
  }

  lemma StepFields(s: Said)
    requires CanBeSaid(s) && |StepBytes(s)| <= MaxFieldBytes
    ensures forall i :: 0 <= i < 10 ==> InRange(StepWrites(s)[i])
    ensures ParseAll(StepBytes(s)) == Fields(KeptAll(StepWrites(s)))
    ensures InItsField(KeptAll(StepWrites(s)), s)
  {
    hide EncodedAll, Wrapped, CallBytes, ChoiceBytes, UsageBytes;
    hide KeptAll, ParseAll, IsShort, GetVarint, Plain, Sole, InRange;
    hide FailureWrites, CustomWrites, ServerWrites, PlannerWrites;
    var ws := StepWrites(s);
    StepIsPlain(s);
    PartsAreHeld(ws);
    assert ws[0].PutVarint? && ws[1].PutVarint? && ws[2].PutLen? && ws[3].PutLen? && ws[4].PutLen? && ws[5].PutLen?;
    assert ws[6].PutLen? && ws[7].PutLen? && ws[8].PutLen? && ws[9].PutLen?;
  }

  lemma CallsAreTold(inner: seq<Field>, s: Said)
    requires CanBeSaid(s) && InItsField(inner, s)
    ensures ChoiceIsOutOfBounds(inner) <==> s.calls != [] && s.chosen >= 0x8000_0000_0000_0000
    ensures !ChoiceIsOutOfBounds(inner) ==>
              StepCalls(inner) ==
              CustomTold(s.custom) + ServerTold(s.server) + ProposedTold(s.proposed) + ChosenTold(s.calls, s.chosen)
  {
    hide EncodedAll, Wrapped, CallBytes, ChoiceBytes, UsageBytes, Holds, GetVarint;
    hide FailureWrites, CustomWrites, ServerWrites, PlannerWrites, IsUsage;
    hide CustomCalls, ServerCalls, ProposedCalls, ChosenCalls, ChoiceIsOutOfBounds;
    hide CustomTold, ServerTold, ProposedTold, ChosenTold, CallsSaySomething;
    CustomIsRead(inner, s.custom);
    ServerIsRead(inner, s.server);
    ProposedIsRead(inner, s.proposed);
    ChoiceIsRead(inner, s.calls, s.chosen);
  }

  lemma TextsAreTold(inner: seq<Field>, s: Said)
    requires CanBeSaid(s) && InItsField(inner, s)
    ensures NestedUsage(inner, 5, 9) == UsageTold(s.usage)
    ensures ErrorOf(inner) == if LineTold(s.own) != [] then LineTold(s.own) else LineTold(s.general)
    ensures match Sub(inner, 20)
            case Some(pf) => Bytes0(pf, 1) == s.response && Bytes0(pf, 3) == s.thinking && Bytes0(pf, 8) == s.modified
            case None => s.response == [] && s.thinking == [] && s.modified == []
  {
    hide EncodedAll, Wrapped, CallBytes, ChoiceBytes, UsageBytes, Holds, GetVarint;
    hide FailureWrites, CustomWrites, ServerWrites, PlannerWrites, IsUsage;
    hide LineTold, ErrorOf, NestedUsage, Sub, Bytes0, UsageTold, CallsSaySomething;
    UsageIsRead(inner, s.usage);
    ErrorIsRead(inner, s.own, s.general);
    PlannerIsRead(inner, s.response, s.thinking, s.modified);
  }

  /** Such fields are the step that was said, unless the choice is out of bounds. */
  lemma FieldsAreRead(inner: seq<Field>, s: Said)
    requires CanBeSaid(s) && InItsField(inner, s)
    ensures StepOf(inner) == if s.calls != [] && s.chosen >= 0x8000_0000_0000_0000 then None else Some(StepTold(s))
  {
    hide FirstMatch, ParseAll, StepCalls, ChoiceIsOutOfBounds, ErrorOf, NestedUsage, Sub, Bytes0, GetVarint;
    hide CustomTold, ServerTold, ProposedTold, ChosenTold, UsageTold, LineTold, IsShort, CanBeSaid;
    hide EncodedAll, Wrapped, CallBytes, ChoiceBytes, UsageBytes;
    CallsAreTold(inner, s);
    TextsAreTold(inner, s);
  }

  lemma OneField(f: Field)
    requires f.num == 1 && ParseLen(Some(f)).Some?
    ensures StepsOf(Having([f], 1)) ==
            match StepOf(ParseLen(Some(f)).value) case Some(s) => Some([s]) case None => None
  {
    hide StepOf, ParseLen, CallsIn;
    OneOf(f);
    var one := [f];
    assert one[..0] == [] && StepsOf(one[..0]) == Some([]);
    assert forall s: Step :: [] + [s] == [s];
  }

  lemma StepIsAlone(b: Bytes)
    requires 0 < |b| <= MaxFieldBytes
    ensures ParseAll(Wrapped(1, b)) == Fields([LenField(1, b)])
  {
    var ws := [PutLen(1, b)];
    assert Fits(ws[0]) && ws[1..] == [];
    assert KeptAll(ws) == [LenField(1, b)] + [];
    hide ParseAll, EncodedAll, KeptAll;
    ParseInvertsWriting(ws);
  }

  /** A trajectory of one step whose message parses. */
  lemma OneStep(b: Bytes, inner: seq<Field>)
    requires 0 < |b| <= MaxFieldBytes && ParseAll(b) == Fields(inner)
    ensures Steps(Wrapped(1, b)) == match StepOf(inner) case Some(s) => AreRead([s]) case None => OutOfBounds
  {
    hide ParseAll, StepOf, Wrapped, StepsOf, Having;
    StepIsAlone(b);
    OneField(LenField(1, b));
  }

  /**
   A step, written and read: every field comes back, every call in the order of the field numbers, the
   error as one line. Only a choice among calls whose number is 2^63 or more ends out of bounds.
   */
  lemma StepRoundTrip(s: Said)
    requires CanBeSaid(s) && |StepBytes(s)| <= MaxFieldBytes
    ensures Steps(Wrapped(1, StepBytes(s))) ==
            if s.calls != [] && s.chosen >= 0x8000_0000_0000_0000 then OutOfBounds else AreRead([StepTold(s)])
  {
    StepIsWritten(s);
    hide *;
    StepFields(s);
    FieldsAreRead(KeptAll(StepWrites(s)), s);
    OneStep(StepBytes(s), KeptAll(StepWrites(s)));
  }

  lemma StepIsWritten(s: Said)
    requires CanBeSaid(s)
    ensures |StepBytes(s)| > 0
  {
    var ws := StepWrites(s);
    hide EncodedAll, Encoded;
    VarintIsWritten(1, s.typ);
    PartIsShorter(ws, 0);
  }

  // ----- a choice that is out of bounds -----

  lemma {:induction false} SizeIsBounded(ws: seq<Write>, m: nat)
    requires Plain(ws) && m <= 100_000 && forall i :: 0 <= i < |ws| && ws[i].PutLen? ==> |ws[i].bytes| <= m
    ensures |EncodedAll(ws)| <= |ws| * (20 + m)
  {
    hide Encoded;
    if ws != [] {
      assert Plain(ws[1..]) && |Encoded(ws[0])| <= 20 + m by {
        WriteIsBounded(ws[0], m);
      }
      SizeIsBounded(ws[1..], m);
      assert |ws| * (20 + m) == (20 + m) + |ws[1..]| * (20 + m);
    }
  }

  lemma WriteIsBounded(w: Write, m: nat)
    requires 0 < w.num < 100 && m <= 100_000
    requires (w.PutLen? && |w.bytes| <= m) || (w.PutVarint? && IsUint64(w.v))
    ensures |Encoded(w)| <= 20 + m
  {
    TenBytesSuffice(Tag(w.num, 0));
    TenBytesSuffice(Tag(w.num, 2));
    if w.PutLen? {
      TenBytesSuffice(|w.bytes|);
    } else {
      TenBytesSuffice(w.v);
    }
    hide Tag, Varint.Encode;
  }

  const NoFailure := Failure([], [], [])

  /** A choice numbered 2^63 among one call, and nothing else. */
  function OneChoice(name: Bytes): Said {
    Said(0, 0, None, [], [], [], NoFailure, NoFailure, NoCall, NoCall, NoCall,
         [ToolCall([], name, [], [], [])], 0x8000_0000_0000_0000)
  }

  lemma OneChoiceIsShort(name: Bytes)
    requires |name| <= 1000
    ensures |ChoiceBytes(OneChoice(name).calls, OneChoice(name).chosen)| <= 6160
  {
    var calls := [ToolCall([], name, [], [], [])];
    SizeIsBounded(CallWrites(calls[0]), 1000);
    var ws := ChoiceWrites(calls, OneChoice(name).chosen);
    CallPartsArePlain(calls);
    assert ws[1] == PutVarint(2, 0x8000_0000_0000_0000);
    SizeIsBounded(ws, 3060);
  }

  lemma NothingIsWritten()
    ensures EncodedAll(PlannerWrites([], [], [])) == [] && EncodedAll(FailureWrites(NoFailure)) == []
    ensures EncodedAll(CustomWrites(NoCall)) == [] && CallBytes(NoCall) == [] && EncodedAll(ServerWrites(NoCall)) == []
    ensures forall num: nat :: Wrapped(num, []) == []
  {
    hide EncodedAll;
    NothingEncoded(PlannerWrites([], [], []));
    NothingEncoded(FailureWrites(NoFailure));
    NothingEncoded(CustomWrites(NoCall));
    NothingEncoded(CallWrites(NoCall));
    NothingEncoded(ServerWrites(NoCall));
    forall num: nat
      ensures Wrapped(num, []) == []
    {
      NothingEncoded([PutLen(num, [])]);
    }
  }

  lemma OneStepParts(name: Bytes)
    requires 0 < |name| <= 1000
    ensures var s, ws := OneChoice(name), StepWrites(OneChoice(name));
            CanBeSaid(s) && forall i :: 2 <= i < 9 ==> ws[i].PutLen? && ws[i].bytes == []
  {
    assert Bare(OneChoice(name).calls[0]).name == name;
    NothingIsWritten();
    hide EncodedAll, PlannerWrites, FailureWrites, CustomWrites, ServerWrites, CallBytes, Wrapped, ChoiceBytes;
  }

  lemma OneStepIsShort(name: Bytes)
    requires 0 < |name| <= 1000
    ensures CanBeSaid(OneChoice(name)) && |StepBytes(OneChoice(name))| <= 61_800
  {
    hide EncodedAll, PlannerWrites, FailureWrites, CustomWrites, ServerWrites, CallBytes, Wrapped, ChoiceBytes, Sole;
    hide CanBeSaid, Plain, UsageBytes;
    var ws := StepWrites(OneChoice(name));
    OneStepParts(name);
    StepIsPlain(OneChoice(name));
    OneChoiceIsShort(name);
    forall i | 0 <= i < |ws| && ws[i].PutLen?
      ensures |ws[i].bytes| <= 6160
    {
      assert 2 <= i < 9 || i == 9;
    }
    SizeIsBounded(ws, 6160);
  }

  /** A choice numbered 2^63 makes the whole reading stop. */
  lemma ChoiceCanBeOutOfBounds(name: Bytes)
    requires 0 < |name| <= 1000
    ensures Steps(Wrapped(1, StepBytes(OneChoice(name)))) == OutOfBounds
  {
    hide Steps, StepBytes, Wrapped, StepTold;
    OneStepIsShort(name);
    StepRoundTrip(OneChoice(name));
  }
}
