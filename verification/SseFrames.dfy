/**
 Server-sent-event framing as both translators read it (`internal/server/messages.go`,
 `internal/server/responses.go`): frames end at a blank line, and what follows the last blank
 line waits for more bytes.
 */
module SseFrames {
  import opened GoStrings

  /** A blank line. */
  function Gap(): (r: string)
    ensures |r| == 2
  {
    "\n\n"
  }

  datatype Framing = Framing(frames: seq<string>, pending: string)

  /** The complete frames of `s` and the unfinished rest. */
  function Frames(s: string): (r: Framing)
    decreases |s|
  {
    var i := Index(s, Gap());
    if i == -1 then
      Framing([], s)
    else
      var rest := Frames(s[i + 2..]);
      Framing([s[..i]] + rest.frames, rest.pending)
  }

  /** Reading can stop anywhere and resume with the pending text. */
  lemma {:induction false} FramesResume(s: string, d: string)
    ensures var first := Frames(s); var second := Frames(first.pending + d);
            Frames(s + d) == Framing(first.frames + second.frames, second.pending)
    decreases |s|
  {
    hide *;
    var i := Index(s, Gap());
    if i == -1 {
      FramesNone(s);
    } else {
      FramesOne(s, i, d);
      FramesResume(s[i + 2..], d);
    }
  }

  lemma FramesNone(s: string)
    requires Index(s, Gap()) == -1
    ensures Frames(s) == Framing([], s)
  {
  }

  lemma FramesOne(s: string, i: nat, d: string)
    requires Index(s, Gap()) == i
    ensures i + 2 <= |s| && s == s[..i] + Gap() + s[i + 2..]
    ensures Frames(s) == Framing([s[..i]] + Frames(s[i + 2..]).frames, Frames(s[i + 2..]).pending)
    ensures Frames(s + d) == Framing([s[..i]] + Frames(s[i + 2..] + d).frames, Frames(s[i + 2..] + d).pending)
  {
    hide Gap, Index, At;
    GapAt(s, i);
    IndexAppend(s, Gap(), d);
  }

  lemma GapAt(s: string, i: nat)
    requires At(s, Gap(), i)
    ensures i + 2 <= |s| && s == s[..i] + Gap() + s[i + 2..]
  {
    hide Gap;
    assert s[i..i + 2] == Gap();
  }

  /** The bytes of the frames, each with its blank line. */
  function Wire(frames: seq<string>): string {
    if frames == [] then "" else frames[0] + Gap() + Wire(frames[1..])
  }

  /** A frame ends where the first blank line of its wire form begins. */
  ghost predicate IsFrame(f: string) {
    Index(f + Gap(), Gap()) == |f|
  }

  lemma {:induction false} NothingIsLost(s: string)
    ensures Wire(Frames(s).frames) + Frames(s).pending == s
    ensures Index(Frames(s).pending, Gap()) == -1
    ensures forall f :: f in Frames(s).frames ==> IsFrame(f)
    decreases |s|
  {
    hide Gap, Index, IsFrame, At, Frames;
    var i := Index(s, Gap());
    if i == -1 {
      FramesNone(s);
    } else {
      FramesOne(s, i, "");
      NothingIsLost(s[i + 2..]);
      FirstFrame(s, i);
      WireCons(s[..i], Frames(s[i + 2..]).frames);
    }
  }

  lemma WireCons(f: string, rest: seq<string>)
    ensures Wire([f] + rest) == f + Gap() + Wire(rest)
  {
    assert ([f] + rest)[1..] == rest;
  }

  lemma FirstFrame(s: string, i: nat)
    requires Index(s, Gap()) == i
    ensures i <= |s| && IsFrame(s[..i])
  {
    hide Gap, Index, At;
    GapAt(s, i);
    var f := s[..i] + Gap();
    assert s == f + s[i + 2..];
    forall j: int
      ensures j + 2 <= |f| ==> (At(f, Gap(), j) <==> At(s, Gap(), j))
    {
      AtAppend(f, s[i + 2..], Gap(), j);
    }
    forall j | 0 <= j < i
      ensures !At(f, Gap(), j)
    {
      assert !At(s, Gap(), j);
    }
    IndexIs(f, Gap(), i);
  }

  /** Conversely every list of frames and unfinished rest is read back from its bytes. */
  lemma {:induction false} FramesOfWire(frames: seq<string>, rest: string)
    requires forall f :: f in frames ==> IsFrame(f)
    requires Index(rest, Gap()) == -1
    ensures Frames(Wire(frames) + rest) == Framing(frames, rest)
  {
    hide Gap, Index, At, Frames;
    if frames == [] {
      assert Wire(frames) + rest == rest;
      FramesNone(rest);
    } else {
      var head := frames[0] + Gap();
      var tail := Wire(frames[1..]) + rest;
      assert Wire(frames) + rest == head + tail;
      assert frames[0] in frames && IsFrame(frames[0]);
      FramesOne(head, |frames[0]|, tail);
      assert head[|frames[0]| + 2..] + tail == tail && head[..|frames[0]|] == frames[0];
      FramesOfWire(frames[1..], rest);
    }
  }

  /** Text without a line feed is a frame. */
  lemma OneLineIsFrame(line: string)
    requires '\n' !in line
    ensures IsFrame(line)
  {
    var f := line + Gap();
    forall j | 0 <= j < |line|
      ensures !At(f, Gap(), j)
    {
      assert f[j] == line[j] && line[j] != '\n';
      GapStartsWithLineFeed(f, j);
    }
    assert f[|line|..|line| + 2] == Gap();
    IndexIs(f, Gap(), |line|);
  }

  lemma GapStartsWithLineFeed(f: string, j: nat)
    ensures At(f, Gap(), j) ==> f[j] == '\n'
  {
    if At(f, Gap(), j) {
      assert f[j..j + 2][0] == Gap()[0];
    }
  }

  // ----- the lines of one frame -----

  /** `strings.Split(s, "\n")`. */
  function Lines(s: string): (r: seq<string>)
    ensures '\n' !in s ==> r == [s]
    decreases |s|
  {
    var i := Index(s, "\n");
    if i == -1 then [s]
    else
      assert At(s, "\n", i) && s[i..i + 1][0] == '\n';
      [s[..i]] + Lines(s[i + 1..])
  }

  predicate IsComment(line: string) {
    ": " <= line
  }

  /** A line carries a payload: it is data, and not the end marker. */
  predicate HasPayload(line: string) {
    !IsComment(line) && "data: " <= line && line[6..] != "[DONE]"
  }

  /** The payloads of the lines, in order. */
  function Payloads(lines: seq<string>): seq<string> {
    if lines == [] then []
    else (if HasPayload(lines[0]) then [lines[0][6..]] else []) + Payloads(lines[1..])
  }

  predicate SawPing(lines: seq<string>) {
    lines != [] && (IsComment(lines[0]) || SawPing(lines[1..]))
  }

  lemma {:induction false} PayloadsSnoc(lines: seq<string>, n: nat)
    requires n < |lines|
    ensures Payloads(lines[..n + 1]) == Payloads(lines[..n]) + if HasPayload(lines[n]) then [lines[n][6..]] else []
    ensures SawPing(lines[..n + 1]) == (SawPing(lines[..n]) || IsComment(lines[n]))
  {
    if n == 0 {
      assert lines[..1] == [lines[0]] && lines[..0] == [];
    } else {
      PayloadsSnoc(lines[1..], n - 1);
      assert lines[..n + 1][1..] == lines[1..][..n] && lines[..n][1..] == lines[1..][..n - 1];
    }
  }

  /** What `chat.go` writes for one chunk. */
  function DataFrame(payload: string): string {
    "data: " + payload
  }

  /** Every data frame written is read back as its payload, however the bytes are cut. */
  lemma DataFramesAreRead(payloads: seq<string>)
    requires forall p :: p in payloads ==> '\n' !in p && p != "[DONE]"
    ensures var fs := seq(|payloads|, i requires 0 <= i < |payloads| => DataFrame(payloads[i]));
            && Frames(Wire(fs)) == Framing(fs, "")
            && forall i :: 0 <= i < |fs| ==> Payloads(Lines(fs[i])) == [payloads[i]] && !SawPing(Lines(fs[i]))
  {
    var fs := seq(|payloads|, i requires 0 <= i < |payloads| => DataFrame(payloads[i]));
    forall i | 0 <= i < |fs|
      ensures IsFrame(fs[i]) && Payloads(Lines(fs[i])) == [payloads[i]] && !SawPing(Lines(fs[i]))
    {
      assert payloads[i] in payloads;
      OneDataLine(payloads[i]);
    }
    FramesOfWire(fs, "");
    assert Wire(fs) + "" == Wire(fs);
  }

  lemma OneDataLine(p: string)
    requires '\n' !in p && p != "[DONE]"
    ensures var f := DataFrame(p); IsFrame(f) && Payloads(Lines(f)) == [p] && !SawPing(Lines(f))
  {
    var f := DataFrame(p);
    assert '\n' !in f;
    OneLineIsFrame(f);
    var lines := [f];
    assert Lines(f) == lines && lines[1..] == [];
    assert f[0] == 'd' && f[6..] == p;
    assert Payloads(lines) == [p] + Payloads([]);
  }

  lemma PingFrameIsRead()
    ensures var f := ": ping"; IsFrame(f) && Payloads(Lines(f)) == [] && SawPing(Lines(f))
  {
    var f := ": ping";
    OneLineIsFrame(f);
    var lines := [f];
    assert Lines(f) == lines && lines[1..] == [] && ": " <= f;
    assert Payloads(lines) == [] + Payloads([]);
  }

  lemma DoneFrameIsRead()
    ensures var f := DataFrame("[DONE]"); IsFrame(f) && Payloads(Lines(f)) == [] && !SawPing(Lines(f))
  {
    var f := DataFrame("[DONE]");
    OneLineIsFrame(f);
    var lines := [f];
    assert Lines(f) == lines && lines[1..] == [] && f[0] == 'd' && f[6..] == "[DONE]";
    assert !HasPayload(f);
    assert Payloads(lines) == [] + Payloads([]);
  }

  /** A frame in front of other bytes. */
  lemma FrameInFront(f: string, rest: string)
    requires IsFrame(f)
    ensures var r := Frames(f + Gap() + rest); r == Framing([f] + Frames(rest).frames, Frames(rest).pending)
  {
    hide Gap, Index, At, Frames;
    var head := f + Gap();
    FramesOne(head, |f|, rest);
    assert head[|f| + 2..] + rest == rest && head[..|f|] == f;
  }

  lemma GapIs()
    ensures Gap() == "\n\n"
  {
  }

  lemma EventIs(p: string)
    ensures DataFrame(p) == "data: " + p
  {
  }

  lemma EventInFront(p: string, rest: string)
    requires '\n' !in p && p != "[DONE]"
    ensures Frames(DataFrame(p) + Gap() + rest) == Framing([DataFrame(p)] + Frames(rest).frames, Frames(rest).pending)
    ensures Payloads(Lines(DataFrame(p))) == [p] && !SawPing(Lines(DataFrame(p)))
  {
    OneDataLine(p);
    hide *;
    FrameInFront(DataFrame(p), rest);
  }

  /** An event on the wire, whatever bytes come behind it. */
  lemma EventOnTheWire(p: string, rest: string)
    requires '\n' !in p && p != "[DONE]"
    ensures Frames("data: " + p + "\n\n" + rest) == Framing(["data: " + p] + Frames(rest).frames, Frames(rest).pending)
    ensures Payloads(Lines("data: " + p)) == [p] && !SawPing(Lines("data: " + p))
  {
    hide *;
    GapIs();
    EventIs(p);
    EventInFront(p, rest);
  }
}
