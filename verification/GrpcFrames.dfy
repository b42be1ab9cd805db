/**
 gRPC length-prefixed messages (`internal/grpcx/grpcx.go`; gRPC over HTTP/2,
 "Length-Prefixed-Message"): one flag byte, four bytes of big-endian length, the payload.
 */
module GrpcFrames {
  import opened Options
  import opened Varint

  const TwoTo32 := 0x1_0000_0000

  datatype Message = Message(flag: Byte, payload: Bytes)

  /** What a call returns; slicing past the end of a buffer is a panic. */
  datatype Outcome = Got(bytes: Bytes) | Crashed

  function BigEndian(n: nat): (r: Bytes)
    ensures |r| == 4
  {
    var n1 := n / 256;
    var n2 := n1 / 256;
    [(n2 / 256 % 256) as Byte, (n2 % 256) as Byte, (n1 % 256) as Byte, (n % 256) as Byte]
  }

  function Uint32At(b: Bytes, i: nat): (n: nat)
    requires i + 4 <= |b|
    ensures n < TwoTo32
  {
    256 * (256 * (256 * b[i] as nat + b[i + 1] as nat) + b[i + 2] as nat) + b[i + 3] as nat
  }

  lemma BigEndianIsRead(n: nat)
    requires n < TwoTo32
    ensures Uint32At(BigEndian(n), 0) == n
  {
  }

  function Wire(m: Message): Bytes {
    [m.flag] + BigEndian(|m.payload|) + m.payload
  }

  /** The bytes of a message: its flag, four bytes of length from the high one on, its payload. */
  lemma FrameOnTheWire(m: Message)
    requires |m.payload| < TwoTo32
    ensures var b := Wire(m);
            && |b| == 5 + |m.payload| && b[0] == m.flag && b[5..] == m.payload
            && 0x100_0000 * b[1] as nat + 0x1_0000 * b[2] as nat + 0x100 * b[3] as nat + b[4] as nat == |m.payload|
  {
    BigEndianIsRead(|m.payload|);
  }

  function WireAll(ms: seq<Message>): Bytes {
    if ms == [] then [] else Wire(ms[0]) + WireAll(ms[1..])
  }

  /** The payloads of the uncompressed messages, end to end. */
  function Plain(ms: seq<Message>): Bytes {
    if ms == [] then [] else (if ms[0].flag == 0 then ms[0].payload else []) + Plain(ms[1..])
  }

  /** `Frame` fills a buffer of its own. */
  method Frame(payload: Bytes) returns (r: Bytes)
    ensures r == Wire(Message(0, payload))
  {
    var buf := new Byte[5 + |payload|](_ => 0);
    var head := BigEndian(|payload|);
    forall i | 0 <= i < 4 {
      buf[i + 1] := head[i];
    }
    forall i | 0 <= i < |payload| {
      buf[i + 5] := payload[i];
    }
    assert forall i :: 5 <= i < |payload| + 5 ==> buf[i] == payload[i - 5];
    r := buf[..];
    assert r == [0] + head + payload;
  }

  /** `StripFrame`, with the 32-bit wrap-around of `5+n`. */
  function Strip(b: Bytes): Outcome
    requires |b| < TwoTo32
  {
    if |b| >= 5 && b[0] == 0 && |b| >= (5 + Uint32At(b, 1)) % TwoTo32 then
      var end := (5 + Uint32At(b, 1)) % TwoTo32;
      if end < 5 then Crashed else Got(b[5..end])
    else
      Got(b)
  }

  /** How the walk over the frames ends: at the end of the buffer, inside a frame, or never. */
  datatype Walked = Ended(out: Bytes) | Cut(out: Bytes) | Lost

  function Prepend(bytes: Bytes, w: Walked): Walked {
    match w
    case Ended(out) => Ended(bytes + out)
    case Cut(out) => Cut(bytes + out)
    case Lost => Lost
  }

  function Walk(b: Bytes, i: nat): Walked
    requires |b| < TwoTo32
    decreases |b| - i
  {
    if i + 5 > |b| then Ended([])
    else
      var n := Uint32At(b, i + 1);
      if (i + 5 + n) % TwoTo32 > |b| then Cut([])
      else if b[i] == 0 then
        if i + 5 + n > |b| then Lost else Prepend(b[i + 5..i + 5 + n], Walk(b, i + 5 + n))
      else
        Walk(b, i + 5 + n)
  }

  function Extract(b: Bytes): Outcome
    requires |b| < TwoTo32
  {
    match Walk(b, 0)
    case Ended(out) => if out == [] then Strip(b) else Got(out)
    case Cut(out) => Got(out)
    case Lost => Crashed
  }

  method ExtractFrames(b: Bytes) returns (r: Outcome)
    requires |b| < TwoTo32
    ensures r == Extract(b)
  {
    var out: Bytes := [];
    var i: nat := 0;
    PrependNothing(Walk(b, 0));
    while i + 5 <= |b|
      invariant Walk(b, 0) == Prepend(out, Walk(b, i))
      decreases |b| - i
    {
      hide BigEndian;
      var n := Uint32At(b, i + 1);
      if (i + 5 + n) % TwoTo32 > |b| {
        return Got(out);
      }
      if b[i] == 0 {
        if i + 5 + n > |b| {
          return Crashed;
        }
        PrependPrepend(out, b[i + 5..i + 5 + n], Walk(b, i + 5 + n));
        out := out + b[i + 5..i + 5 + n];
      }
      i := i + 5 + n;
    }
    if |out| == 0 {
      r := Strip(b);
    } else {
      r := Got(out);
    }
  }

  lemma PrependNothing(w: Walked)
    ensures Prepend([], w) == w
  {
  }

  lemma PrependPrepend(a: Bytes, b: Bytes, w: Walked)
    ensures Prepend(a, Prepend(b, w)) == Prepend(a + b, w)
  {
    if !w.Lost? {
      assert a + (b + w.out) == a + b + w.out;
    }
  }

  // ----- whole frames -----

  lemma WireIsRead(pre: Bytes, m: Message, post: Bytes)
    requires |m.payload| < TwoTo32
    ensures var b := pre + Wire(m) + post; var i := |pre|;
            && i + 5 <= |b| && b[i] == m.flag && Uint32At(b, i + 1) == |m.payload|
            && i + 5 + |m.payload| <= |b| && b[i + 5..i + 5 + |m.payload|] == m.payload
  {
    BigEndianIsRead(|m.payload|);
    hide BigEndian;
    var b, head := pre + Wire(m) + post, BigEndian(|m.payload|);
    assert b[|pre| + 1..|pre| + 5] == head;
    SameWord(b, |pre| + 1, head);
  }

  lemma SameWord(b: Bytes, i: nat, head: Bytes)
    requires i + 4 <= |b| && |head| == 4 && b[i..i + 4] == head
    ensures Uint32At(b, i) == Uint32At(head, 0)
  {
    var word := b[i..i + 4];
    assert word[0] == b[i] && word[1] == b[i + 1] && word[2] == b[i + 2] && word[3] == b[i + 3];
  }

  /** Over whole messages the walk collects what the uncompressed ones carry. */
  lemma {:induction false} WalkMessages(pre: Bytes, ms: seq<Message>, rest: Bytes)
    requires |pre + WireAll(ms) + rest| < TwoTo32
    ensures Walk(pre + WireAll(ms) + rest, |pre|) ==
            Prepend(Plain(ms), Walk(pre + WireAll(ms) + rest, |pre + WireAll(ms)|))
    decreases |ms|
  {
    var b := pre + WireAll(ms) + rest;
    if ms == [] {
      assert pre + WireAll(ms) == pre;
      PrependNothing(Walk(b, |pre|));
    } else {
      hide Wire, Walk, Prepend, Uint32At;
      var m, pre' := ms[0], pre + Wire(ms[0]);
      Regroup(pre, ms, rest);
      WalkOne(pre, m, WireAll(ms[1..]) + rest);
      WalkMessages(pre', ms[1..], rest);
      PrependPrepend(if m.flag == 0 then m.payload else [], Plain(ms[1..]), Walk(b, |pre + WireAll(ms)|));
    }
  }

  lemma Regroup(pre: Bytes, ms: seq<Message>, rest: Bytes)
    requires ms != []
    ensures pre + WireAll(ms) + rest == pre + Wire(ms[0]) + (WireAll(ms[1..]) + rest)
    ensures pre + WireAll(ms) + rest == (pre + Wire(ms[0])) + WireAll(ms[1..]) + rest
    ensures pre + WireAll(ms) == (pre + Wire(ms[0])) + WireAll(ms[1..])
  {
    hide Wire;
    var w, r := Wire(ms[0]), WireAll(ms[1..]);
    assert WireAll(ms) == w + r;
    Associate(pre, w, r, rest);
  }

  lemma Associate(a: Bytes, b: Bytes, c: Bytes, d: Bytes)
    ensures a + (b + c) == (a + b) + c
    ensures a + (b + c) + d == a + b + (c + d)
  {
  }

  lemma WalkOne(pre: Bytes, m: Message, post: Bytes)
    requires |pre + Wire(m) + post| < TwoTo32
    ensures var b := pre + Wire(m) + post;
            Walk(b, |pre|) == Prepend(if m.flag == 0 then m.payload else [], Walk(b, |pre + Wire(m)|))
  {
    assert |Wire(m)| == 5 + |m.payload|;
    WireIsRead(pre, m, post);
    hide Wire, Uint32At;
    var b := pre + Wire(m) + post;
    PrependNothing(Walk(b, |pre + Wire(m)|));
  }

  /**
   Extracting concatenated messages gives the concatenated uncompressed payloads, if and only if
   one of those payloads is not empty or the first message, if any, is uncompressed: a response of
   compressed messages alone comes back as its raw bytes.
   */
  lemma ExtractOfMessages(ms: seq<Message>)
    requires |WireAll(ms)| < TwoTo32
    ensures Extract(WireAll(ms)) == Got(Plain(ms)) <==> ms == [] || Plain(ms) != [] || ms[0].flag == 0
  {
    hide Wire, Uint32At, Plain, WireAll;
    WalkToTheEnd(ms);
    if Plain(ms) == [] && ms != [] {
      StripOfMessages(ms);
    }
  }

  lemma WalkToTheEnd(ms: seq<Message>)
    requires |WireAll(ms)| < TwoTo32
    ensures Walk(WireAll(ms), 0) == Ended(Plain(ms)) && (ms == [] ==> Plain(ms) == [] && WireAll(ms) == [])
  {
    hide Wire, Uint32At;
    var b := WireAll(ms);
    assert [] + b + [] == b && |[] + b| == |b|;
    WalkMessages([], ms, []);
    assert Walk(b, |b|) == Ended([]) && Plain(ms) + [] == Plain(ms);
  }

  /** Where nothing was extracted, `StripFrame` sees the first message. */
  lemma StripOfMessages(ms: seq<Message>)
    requires |WireAll(ms)| < TwoTo32 && ms != [] && Plain(ms) == []
    ensures WireAll(ms) != [] && Strip(WireAll(ms)) == if ms[0].flag == 0 then Got([]) else Got(WireAll(ms))
  {
    var m, post := ms[0], WireAll(ms[1..]);
    assert m.flag == 0 ==> m.payload == [];
    hide Wire, Uint32At, Plain;
    StripOfMessage(m, post);
  }

  lemma StripOfMessage(m: Message, post: Bytes)
    requires |Wire(m) + post| < TwoTo32 && (m.flag == 0 ==> m.payload == [])
    ensures Wire(m) + post != []
    ensures Strip(Wire(m) + post) == if m.flag == 0 then Got([]) else Got(Wire(m) + post)
  {
    assert |Wire(m)| == 5 + |m.payload|;
    var b := Wire(m) + post;
    assert [] + Wire(m) + post == b;
    WireIsRead([], m, post);
    hide Wire, Uint32At;
    assert |b| >= 5 + |m.payload| && b[0] == m.flag && Uint32At(b, 1) == |m.payload|;
    assert b[5..5] == [];
  }

  /** `Frame`'s own output is always extracted whole, whatever the payloads. */
  lemma ExtractOfFrames(payloads: seq<Bytes>)
    requires |WireAll(Framed(payloads))| < TwoTo32
    ensures Extract(WireAll(Framed(payloads))) == Got(Joined(payloads))
  {
    var ms := Framed(payloads);
    ExtractOfMessages(ms);
    PlainOfFramed(payloads);
    assert ms != [] ==> ms[0].flag == 0;
  }

  function Framed(payloads: seq<Bytes>): seq<Message> {
    if payloads == [] then [] else [Message(0, payloads[0])] + Framed(payloads[1..])
  }

  function Joined(payloads: seq<Bytes>): Bytes {
    if payloads == [] then [] else payloads[0] + Joined(payloads[1..])
  }

  lemma {:induction false} PlainOfFramed(payloads: seq<Bytes>)
    ensures Plain(Framed(payloads)) == Joined(payloads)
  {
    if payloads != [] {
      PlainOfFramed(payloads[1..]);
      var ms := Framed(payloads);
      assert ms[1..] == Framed(payloads[1..]);
    }
  }

  /** A response that stops inside a frame yields what the frames before it carry. */
  lemma TruncatedTailIsDropped(ms: seq<Message>, tail: Bytes)
    requires |WireAll(ms) + tail| < TwoTo32 && |tail| >= 5
    requires |tail| < 5 + Uint32At(tail, 1) && |WireAll(ms)| + 5 + Uint32At(tail, 1) < TwoTo32
    ensures Extract(WireAll(ms) + tail) == Got(Plain(ms))
  {
    hide Uint32At, WireAll, Plain;
    var b, at := WireAll(ms) + tail, |WireAll(ms)|;
    assert [] + WireAll(ms) + tail == b && |[] + WireAll(ms)| == at;
    WalkMessages([], ms, tail);
    assert b[at..] == tail;
    WordOfTail(b, at);
    assert Walk(b, at) == Cut([]);
    assert Plain(ms) + [] == Plain(ms);
  }

  // ----- declared lengths that wrap -----

  /**
   Behind whole messages stands an uncompressed frame whose declared end does not fit 32 bits: the
   length check sees it wrapped around, small.
   */
  ghost predicate Overlong(b: Bytes, ms: seq<Message>, tail: Bytes) {
    && b == WireAll(ms) + tail && |tail| >= 5 && tail[0] == 0
    && |WireAll(ms)| + 5 + Uint32At(tail, 1) >= TwoTo32
  }

  /** Extraction crashes on exactly those buffers; the fallback to `StripFrame` never does. */
  lemma CrashIff(b: Bytes)
    requires |b| < TwoTo32
    ensures Extract(b) == Crashed <==> exists ms, tail :: Overlong(b, ms, tail)
    ensures Walk(b, 0).Ended? ==> Strip(b) != Crashed
  {
    FallbackIsSafe(b);
    hide Overlong, Walk, Strip, Uint32At;
    if Walk(b, 0).Lost? {
      NothingBefore(b);
      LostIsOverlong(b, []);
    }
    forall ms, tail | Overlong(b, ms, tail)
      ensures Walk(b, 0).Lost?
    {
      OverlongIsLost(b, ms, tail);
    }
  }

  lemma NothingBefore(b: Bytes)
    ensures WireAll([]) == [] && b == WireAll([]) + b[0..]
  {
  }

  lemma FallbackIsSafe(b: Bytes)
    requires |b| < TwoTo32
    ensures Walk(b, 0).Ended? ==> Strip(b) != Crashed
  {
    hide Uint32At;
  }

  /** The walk stands behind the messages `ms`. */
  lemma {:induction false} LostIsOverlong(b: Bytes, ms: seq<Message>)
    requires |b| < TwoTo32 && |WireAll(ms)| <= |b| && b == WireAll(ms) + b[|WireAll(ms)|..]
    requires Walk(b, |WireAll(ms)|).Lost?
    ensures exists more, tail :: Overlong(b, more, tail)
    decreases |b| - |WireAll(ms)|
  {
    hide Wire, WireAll, Uint32At;
    var i := |WireAll(ms)|;
    var n := Uint32At(b, i + 1);
    WordOfTail(b, i);
    if i + 5 + n > |b| {
      assert Overlong(b, ms, b[i..]);
    } else {
      var m := Message(b[i], b[i + 5..i + 5 + n]);
      MessageIsThere(b, i);
      OneMessageMore(ms, m);
      hide Walk;
      WalkPast(b, i);
      assert b == WireAll(ms) + Wire(m) + b[i + 5 + n..];
      LostIsOverlong(b, ms + [m]);
    }
  }

  lemma WordOfTail(b: Bytes, i: nat)
    requires i + 5 <= |b|
    ensures Uint32At(b[i..], 1) == Uint32At(b, i + 1)
  {
  }

  lemma WalkPast(b: Bytes, i: nat)
    requires |b| < TwoTo32 && i + 5 <= |b| && i + 5 + Uint32At(b, i + 1) <= |b| && Walk(b, i).Lost?
    ensures Walk(b, i + 5 + Uint32At(b, i + 1)).Lost?
  {
    hide Uint32At;
  }

  lemma MessageIsThere(b: Bytes, i: nat)
    requires i + 5 <= |b| && i + 5 + Uint32At(b, i + 1) <= |b|
    ensures var n := Uint32At(b, i + 1); Wire(Message(b[i], b[i + 5..i + 5 + n])) == b[i..i + 5 + n]
  {
    var n := Uint32At(b, i + 1);
    BigEndianOfWord(b, i + 1);
    hide BigEndian, Uint32At;
    assert [b[i]] + b[i + 1..i + 5] + b[i + 5..i + 5 + n] == b[i..i + 5 + n];
  }

  lemma BigEndianOfWord(b: Bytes, i: nat)
    requires i + 4 <= |b|
    ensures BigEndian(Uint32At(b, i)) == b[i..i + 4]
  {
    var b0, b1, b2, b3 := b[i] as nat, b[i + 1] as nat, b[i + 2] as nat, b[i + 3] as nat;
    var n2 := 256 * b0 + b1;
    var n1 := 256 * n2 + b2;
    LastByte(n2, b2);
    LastByte(n1, b3);
    LastByte(b0, b1);
    assert Uint32At(b, i) == 256 * n1 + b3;
    hide Uint32At;
    assert b[i..i + 4] == [b[i], b[i + 1], b[i + 2], b[i + 3]];
  }

  lemma LastByte(high: nat, low: nat)
    requires low < 256
    ensures (256 * high + low) / 256 == high && (256 * high + low) % 256 == low
  {
  }

  lemma {:induction false} OneMessageMore(ms: seq<Message>, m: Message)
    ensures WireAll(ms + [m]) == WireAll(ms) + Wire(m)
  {
    hide Wire;
    if ms == [] {
      assert ms + [m] == [m] && WireAll([m]) == Wire(m) + [];
    } else {
      OneMessageMore(ms[1..], m);
      assert (ms + [m])[1..] == ms[1..] + [m];
    }
  }

  lemma OverlongIsLost(b: Bytes, ms: seq<Message>, tail: Bytes)
    requires |b| < TwoTo32 && Overlong(b, ms, tail)
    ensures Walk(b, 0).Lost?
  {
    hide Uint32At, WireAll;
    var i := |WireAll(ms)|;
    assert [] + WireAll(ms) + tail == b && |[] + WireAll(ms)| == i;
    WalkMessages([], ms, tail);
    assert b[i..] == tail;
    WordOfTail(b, i);
    assert Walk(b, i).Lost?;
  }

  /** Five bytes are enough, and they may stand in front of anything. */
  lemma HugeLengthCrashes(rest: Bytes)
    requires 5 + |rest| < TwoTo32
    ensures Extract([0, 255, 255, 255, 255] + rest) == Crashed
  {
    var b := [0, 255, 255, 255, 255] + rest;
    assert Overlong(b, [], b);
    OverlongIsLost(b, [], b);
  }

  // ----- the streaming reader -----

  datatype StreamError = TooLarge(n: nat) | ShortPayload

  const MaxFrameBytes := 0x400_0000

  datatype Streamed = Streamed(frames: seq<Bytes>, error: Option<StreamError>)

  function Deliver(first: seq<Bytes>, rest: Streamed): Streamed {
    rest.(frames := first + rest.frames)
  }

  /** The frames handed to `onFrame` and the error, if any, while reading `body`. */
  function StreamOf(body: Bytes): Streamed
    decreases |body|
  {
    if |body| < 5 then Streamed([], None)
    else
      var n := Uint32At(body, 1);
      if n > MaxFrameBytes then Streamed([], Some(TooLarge(n)))
      else if 5 + n > |body| then Streamed([], Some(ShortPayload))
      else Deliver(if body[0] == 0 then [body[5..5 + n]] else [], StreamOf(body[5 + n..]))
  }

  /** The frame loop of `Stream`; `body` is what the reader still holds. */
  method Stream(body: Bytes) returns (frames: seq<Bytes>, error: Option<StreamError>)
    ensures Streamed(frames, error) == StreamOf(body)
  {
    frames, error := [], None;
    var r := body;
    assert Deliver(frames, StreamOf(r)) == StreamOf(r);
    while |r| >= 5
      invariant Deliver(frames, StreamOf(r)) == StreamOf(body)
      decreases |r|
    {
      hide Uint32At;
      var n := Uint32At(r, 1);
      if n > MaxFrameBytes {
        return frames, Some(TooLarge(n));
      }
      if 5 + n > |r| {
        return frames, Some(ShortPayload);
      }
      ghost var rest := StreamOf(r[5 + n..]);
      if r[0] == 0 {
        assert frames + ([r[5..5 + n]] + rest.frames) == frames + [r[5..5 + n]] + rest.frames;
        frames := frames + [r[5..5 + n]];
      } else {
        assert [] + rest.frames == rest.frames;
      }
      r := r[5 + n..];
    }
  }

  function Uncompressed(ms: seq<Message>): seq<Bytes> {
    if ms == [] then [] else (if ms[0].flag == 0 then [ms[0].payload] else []) + Uncompressed(ms[1..])
  }

  /** Streaming hands on every uncompressed message, one by one. */
  lemma {:induction false} StreamOfMessages(ms: seq<Message>)
    requires forall i :: 0 <= i < |ms| ==> |ms[i].payload| <= MaxFrameBytes
    ensures StreamOf(WireAll(ms)) == Streamed(Uncompressed(ms), None)
  {
    if ms != [] {
      var b, m := WireAll(ms), ms[0];
      StreamOfMessages(ms[1..]);
      assert b == [] + Wire(m) + WireAll(ms[1..]) && |Wire(m)| == 5 + |m.payload|;
      WireIsRead([], m, WireAll(ms[1..]));
      hide Wire, Uint32At;
      assert b[5 + |m.payload|..] == WireAll(ms[1..]);
    }
  }

  /** The two readers agree: what is streamed, joined, is what is extracted. */
  lemma {:induction false} StreamJoinsToPlain(ms: seq<Message>)
    ensures Joined(Uncompressed(ms)) == Plain(ms)
  {
    if ms != [] {
      StreamJoinsToPlain(ms[1..]);
      var rest := Uncompressed(ms[1..]);
      if ms[0].flag == 0 {
        assert Uncompressed(ms)[1..] == rest;
      } else {
        assert Uncompressed(ms) == rest;
      }
    }
  }
}
