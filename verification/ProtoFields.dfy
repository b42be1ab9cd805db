/**
 Protobuf fields on the wire (`internal/pbenc/pbenc.go`; Protocol Buffers Encoding
 specification, "Message Structure"): the field writers, the parser, and the look-ups.
 */
module ProtoFields {
  import opened Options
  import opened Varint

  /** `Num` and the value the wire type selects. */
  datatype Field =
    | VarintField(num: nat, varint: nat)
    | Fixed64Field(num: nat, fixed: nat)
    | LenField(num: nat, value: Bytes)
    | Fixed32Field(num: nat, fixed: nat)

  datatype Error =
    | BadTag(why: Failure)
    | BadVarint(num: nat, why: Failure)
    | BadLength(num: nat, why: Failure)
    | TruncatedFixed64
    | TruncatedLen
    | TruncatedFixed32
    | UnknownWire(wire: nat, num: nat)

  datatype Parsed = Fields(fields: seq<Field>) | Malformed(error: Error)
  datatype ParsedOne = One(field: Field, used: nat) | NotOne(error: Error)

  const MaxFieldBytes := 0x8000_0000

  // ----- little-endian words -----

  function LittleEndian(v: nat, n: nat): (r: Bytes)
    ensures |r| == n
  {
    if n == 0 then [] else [(v % 256) as Byte] + LittleEndian(v / 256, n - 1)
  }

  function Word(bs: Bytes): nat {
    if bs == [] then 0 else bs[0] as nat + 256 * Word(bs[1..])
  }

  lemma {:induction false} WordOfLittleEndian(v: nat, n: nat)
    requires v < Power(256, n)
    ensures Word(LittleEndian(v, n)) == v
  {
    if n > 0 {
      WordOfLittleEndian(v / 256, n - 1);
    }
  }

  lemma Uint64Fits(v: nat)
    requires IsUint64(v)
    ensures v < Power(256, 8)
  {
    assert Power(256, 0) == 1 && Power(256, 1) == 256 && Power(256, 2) == 65536 && Power(256, 3) == 16777216;
    assert Power(256, 4) == 4294967296 && Power(256, 5) == 1099511627776 && Power(256, 6) == 281474976710656;
    assert Power(256, 7) == 72057594037927936;
  }

  // ----- writers -----

  /** One call of a writer; `Str` stands for strings, bytes and embedded messages alike. */
  datatype Write =
    | PutVarint(num: int, v: nat)
    | PutBool(num: int, on: bool)
    | PutFixed64(num: int, v: nat)
    | PutLen(num: int, bytes: Bytes)

  /** `uint64(field)<<3 | uint64(wire)`, with the wrap-around. */
  function Tag(field: int, wire: nat): (t: nat)
    requires wire < 8
    ensures IsUint64(t) && t % 8 == wire
  {
    8 * (field % 0x2000_0000_0000_0000) + wire
  }

  function Encoded(w: Write): Bytes {
    match w
    case PutVarint(num, v) => Varint.Encode(Tag(num, 0)) + Varint.Encode(v)
    case PutBool(num, on) => if on then Varint.Encode(Tag(num, 0)) + Varint.Encode(1) else []
    case PutFixed64(num, v) => Varint.Encode(Tag(num, 1)) + LittleEndian(v, 8)
    case PutLen(num, bytes) =>
      if bytes == [] then [] else Varint.Encode(Tag(num, 2)) + Varint.Encode(|bytes|) + bytes
  }

  function EncodedAll(ws: seq<Write>): Bytes {
    if ws == [] then [] else Encoded(ws[0]) + EncodedAll(ws[1..])
  }

  method AppendVarintField(dst: Bytes, field: int, v: nat) returns (r: Bytes)
    requires IsUint64(v)
    ensures r == dst + Encoded(PutVarint(field, v))
  {
    hide Varint.Encode, Tag;
    r := AppendVarint(dst, Tag(field, 0));
    r := AppendVarint(r, v);
  }

  lemma Associate(a: Bytes, b: Bytes, c: Bytes, d: Bytes)
    ensures a + b + c + d == a + (b + c + d)
  {
  }

  /** `AppendStringField`, `AppendBytesField` and `AppendMessageField`. */
  method AppendLenField(dst: Bytes, field: int, bytes: Bytes) returns (r: Bytes)
    requires IsUint64(|bytes|)
    ensures r == dst + Encoded(PutLen(field, bytes))
  {
    hide Varint.Encode, Tag;
    if |bytes| == 0 {
      return dst;
    }
    r := AppendVarint(dst, Tag(field, 2));
    r := AppendVarint(r, |bytes|);
    Associate(dst, Varint.Encode(Tag(field, 2)), Varint.Encode(|bytes|), bytes);
    r := r + bytes;
  }

  method AppendBoolField(dst: Bytes, field: int, v: bool) returns (r: Bytes)
    ensures r == dst + Encoded(PutBool(field, v))
  {
    if !v {
      return dst;
    }
    r := AppendVarintField(dst, field, 1);
  }

  method AppendFixed64Field(dst: Bytes, field: int, v: nat) returns (r: Bytes)
    requires IsUint64(v)
    ensures r == dst + Encoded(PutFixed64(field, v))
  {
    hide Varint.Encode, Tag, LittleEndian;
    r := AppendVarint(dst, Tag(field, 1));
    r := r + LittleEndian(v, 8);
  }

  // ----- the parser -----

  /** The field at the front of a non-empty buffer. */
  function ParseOne(buf: Bytes): (r: ParsedOne)
    ensures r.One? ==> 0 < r.used <= |buf|
  {
    match Decode(buf)
    case Failed(why) => NotOne(BadTag(why))
    case Varint(t, n) => ParseBody(buf, t, n)
  }

  /** What follows the tag `t`, from position `pos` on. */
  function ParseBody(buf: Bytes, t: nat, pos: nat): (r: ParsedOne)
    requires 0 < pos <= |buf|
    ensures r.One? ==> pos <= r.used <= |buf|
  {
    var num := t / 8;
    var rest := buf[pos..];
    match t % 8
    case 0 =>
      (match Decode(rest)
       case Failed(why) => NotOne(BadVarint(num, why))
       case Varint(v, n) => One(VarintField(num, v), pos + n))
    case 1 =>
      if pos + 8 > |buf| then NotOne(TruncatedFixed64)
      else One(Fixed64Field(num, Word(buf[pos..pos + 8])), pos + 8)
    case 2 =>
      (match Decode(rest)
       case Failed(why) => NotOne(BadLength(num, why))
       case Varint(l, n) =>
         if l > MaxFieldBytes || pos + n + l > |buf| then NotOne(TruncatedLen)
         else One(LenField(num, buf[pos + n..pos + n + l]), pos + n + l))
    case 5 =>
      if pos + 4 > |buf| then NotOne(TruncatedFixed32)
      else One(Fixed32Field(num, Word(buf[pos..pos + 4])), pos + 4)
    case wire => NotOne(UnknownWire(wire, num))
  }

  function ParseAll(buf: Bytes): Parsed
    decreases |buf|
  {
    if buf == [] then Fields([])
    else
      match ParseOne(buf)
      case NotOne(e) => Malformed(e)
      case One(f, n) =>
        match ParseAll(buf[n..])
        case Malformed(e) => Malformed(e)
        case Fields(fs) => Fields([f] + fs)
  }

  /** `Parse`, with the position and the output the source keeps. */
  method Parse(buf: Bytes) returns (r: Parsed)
    ensures r == ParseAll(buf)
  {
    hide *;
    var out: seq<Field> := [];
    var pos := 0;
    NothingParsed(buf);
    while pos < |buf|
      invariant 0 <= pos <= |buf|
      invariant ParseAll(buf) == After(out, ParseAll(buf[pos..]))
    {
      NextField(out, buf, pos);
      var one := ParseField(buf[pos..]);
      if one.NotOne? {
        return Malformed(one.error);
      }
      out := out + [one.field];
      pos := pos + one.used;
    }
    AllParsed(out, buf[pos..]);
    r := Fields(out);
  }

  lemma NothingParsed(buf: Bytes)
    ensures ParseAll(buf) == After([], ParseAll(buf[0..]))
  {
    hide ParseAll;
    assert buf[0..] == buf;
    EmptyAfter(ParseAll(buf));
  }

  lemma AllParsed(out: seq<Field>, rest: Bytes)
    requires rest == []
    ensures After(out, ParseAll(rest)) == Fields(out)
  {
  }

  ghost function After(out: seq<Field>, rest: Parsed): Parsed {
    if rest.Fields? then Fields(out + rest.fields) else rest
  }

  lemma NextField(out: seq<Field>, buf: Bytes, pos: nat)
    requires pos < |buf|
    ensures var one := ParseOne(buf[pos..]);
            if one.NotOne? then After(out, ParseAll(buf[pos..])) == Malformed(one.error)
            else
              && pos + one.used <= |buf|
              && After(out, ParseAll(buf[pos..])) == After(out + [one.field], ParseAll(buf[pos + one.used..]))
  {
    hide ParseOne;
    var one := ParseOne(buf[pos..]);
    if one.One? {
      assert buf[pos..][one.used..] == buf[pos + one.used..];
      var rest := ParseAll(buf[pos + one.used..]);
      if rest.Fields? {
        assert out + ([one.field] + rest.fields) == out + [one.field] + rest.fields;
      }
    }
  }

  /** The body of the loop: one tag and what its wire type announces. */
  method ParseField(buf: Bytes) returns (r: ParsedOne)
    ensures r == ParseOne(buf)
  {
    var tag := DecodeVarint(buf);
    if tag.Failed? {
      return NotOne(BadTag(tag.why));
    }
    var pos, num, wire := tag.used, tag.value / 8, tag.value % 8;
    if wire == 0 {
      var v := DecodeVarint(buf[pos..]);
      if v.Failed? {
        return NotOne(BadVarint(num, v.why));
      }
      r := One(VarintField(num, v.value), pos + v.used);
    } else if wire == 1 {
      if pos + 8 > |buf| {
        return NotOne(TruncatedFixed64);
      }
      r := One(Fixed64Field(num, Word(buf[pos..pos + 8])), pos + 8);
    } else if wire == 2 {
      var l := DecodeVarint(buf[pos..]);
      if l.Failed? {
        return NotOne(BadLength(num, l.why));
      }
      pos := pos + l.used;
      if l.value > MaxFieldBytes || pos + l.value > |buf| {
        return NotOne(TruncatedLen);
      }
      r := One(LenField(num, buf[pos..pos + l.value]), pos + l.value);
    } else if wire == 5 {
      if pos + 4 > |buf| {
        return NotOne(TruncatedFixed32);
      }
      r := One(Fixed32Field(num, Word(buf[pos..pos + 4])), pos + 4);
    } else {
      r := NotOne(UnknownWire(wire, num));
    }
  }

  // ----- parsing is a homomorphism -----

  /** A field is decided by its own bytes. */
  lemma OneAppend(buf: Bytes, more: Bytes)
    requires ParseOne(buf).One?
    ensures ParseOne(buf + more) == ParseOne(buf)
  {
    DecodeAppend(buf, more);
    var Varint(t, pos) := Decode(buf);
    BodyAppend(buf, t, pos, more);
  }

  lemma BodyAppend(buf: Bytes, t: nat, pos: nat, more: Bytes)
    requires 0 < pos <= |buf| && ParseBody(buf, t, pos).One?
    ensures ParseBody(buf + more, t, pos) == ParseBody(buf, t, pos)
  {
    hide Decode, Word;
    var all := buf + more;
    assert all[pos..] == buf[pos..] + more;
    var used := ParseBody(buf, t, pos).used;
    assert all[..used] == buf[..used];
    SliceAppend(buf, more, pos, pos + 8);
    SliceAppend(buf, more, pos, pos + 4);
    if t % 8 == 0 || t % 8 == 2 {
      DecodeAppend(buf[pos..], more);
      var Varint(l, n) := Decode(buf[pos..]);
      SliceAppend(buf, more, pos + n, pos + n + l);
    }
  }

  lemma DropAppend(buf: Bytes, more: Bytes, n: nat)
    requires n <= |buf|
    ensures (buf + more)[n..] == buf[n..] + more
  {
  }

  lemma SliceAppend(buf: Bytes, more: Bytes, i: nat, j: nat)
    ensures i <= j <= |buf| ==> (buf + more)[i..j] == buf[i..j]
  {
  }

  /** Behind a buffer that parses, parsing goes on as if it started there. */
  lemma {:induction false} ParseConcat(a: Bytes, b: Bytes)
    requires ParseAll(a).Fields?
    ensures ParseAll(a + b) == After(ParseAll(a).fields, ParseAll(b))
    decreases |a|
  {
    if a == [] {
      assert a + b == b;
      EmptyAfter(ParseAll(b));
    } else {
      hide ParseOne, After, ParseAll;
      ParseHead(a);
      OneAppend(a, b);
      ParseHead(a + b);
      var one := ParseOne(a);
      var rest := a[one.used..];
      DropAppend(a, b, one.used);
      AfterAfter(one.field, ParseAll(rest), ParseAll(b));
      ParseConcat(rest, b);
    }
  }

  lemma ParseHead(buf: Bytes)
    requires buf != []
    ensures ParseAll(buf).Fields? ==> ParseOne(buf).One?
    ensures ParseOne(buf).One? ==> ParseAll(buf) == After([ParseOne(buf).field], ParseAll(buf[ParseOne(buf).used..]))
  {
    hide ParseOne;
  }

  lemma AfterAfter(f: Field, rest: Parsed, more: Parsed)
    ensures After([f], rest).Fields? ==> rest.Fields?
    ensures rest.Fields? ==> After([f], After(rest.fields, more)) == After(After([f], rest).fields, more)
  {
    if rest.Fields? && more.Fields? {
      assert [f] + (rest.fields + more.fields) == [f] + rest.fields + more.fields;
    }
  }

  lemma EmptyAfter(p: Parsed)
    ensures After([], p) == p
  {
    if p.Fields? {
      assert [] + p.fields == p.fields;
    }
  }

  // ----- what was written is read -----

  /** The number fits a tag, the value or length a varint. */
  predicate InRange(w: Write) {
    && 0 <= w.num < 0x2000_0000_0000_0000
    && match w
       case PutVarint(_, v) => IsUint64(v)
       case PutFixed64(_, v) => IsUint64(v)
       case PutLen(_, bytes) => IsUint64(|bytes|)
       case PutBool(_, _) => true
  }

  /** The length is one the parser takes. */
  predicate Short(w: Write) {
    w.PutLen? ==> |w.bytes| <= MaxFieldBytes
  }

  predicate Fits(w: Write) {
    InRange(w) && Short(w)
  }

  /** The field a write leaves on the wire; false and the empty string leave none. */
  function Kept(w: Write): seq<Field>
    requires InRange(w)
  {
    match w
    case PutVarint(num, v) => [VarintField(num, v)]
    case PutBool(num, on) => if on then [VarintField(num, 1)] else []
    case PutFixed64(num, v) => [Fixed64Field(num, v)]
    case PutLen(num, bytes) => if bytes == [] then [] else [LenField(num, bytes)]
  }

  function KeptAll(ws: seq<Write>): seq<Field>
    requires forall i :: 0 <= i < |ws| ==> InRange(ws[i])
  {
    if ws == [] then [] else Kept(ws[0]) + KeptAll(ws[1..])
  }

  lemma SmallTag(num: nat, wire: nat)
    requires 0 < num < 16 && wire < 8
    ensures Varint.Encode(Tag(num, wire)) == [(8 * num + wire) as Byte]
  {
  }

  lemma SmallNumber(v: nat)
    requires v < 128
    ensures Varint.Encode(v) == [v as Byte]
  {
  }

  /** The bytes of a write under a small number: one byte of number and wire type, and what it announces. */
  lemma SmallFieldsOnTheWire(num: nat, v: nat, b: Bytes)
    requires 0 < num < 16 && |b| < 128
    ensures Encoded(PutVarint(num, v)) == [(8 * num) as Byte] + Varint.Encode(v)
    ensures Encoded(PutBool(num, true)) == [(8 * num) as Byte, 1] && Encoded(PutBool(num, false)) == []
    ensures Encoded(PutLen(num, b)) == if b == [] then [] else [(8 * num + 2) as Byte, |b| as Byte] + b
  {
    hide Tag, Varint.Encode;
    SmallTag(num, 0);
    SmallTag(num, 2);
    SmallNumber(1);
    SmallNumber(|b|);
  }

  /** A word of eight bytes, the low one first. */
  lemma Fixed64OnTheWire(num: nat, v: nat)
    requires 0 < num < 16 && v < 0x1_0000
    ensures Encoded(PutFixed64(num, v)) ==
            [(8 * num + 1) as Byte, (v % 256) as Byte, (v / 256) as Byte, 0, 0, 0, 0, 0, 0]
  {
    SmallTag(num, 1);
    SmallWord(v);
    hide Tag, Varint.Encode, LittleEndian;
  }

  lemma SmallWord(v: nat)
    requires v < 0x1_0000
    ensures LittleEndian(v, 8) == [(v % 256) as Byte, (v / 256) as Byte, 0, 0, 0, 0, 0, 0]
  {
    assert LittleEndian(0, 0) == [] && LittleEndian(0, 1) == [0] + [];
    assert LittleEndian(0, 2) == [0, 0] && LittleEndian(0, 3) == [0, 0, 0];
    assert LittleEndian(0, 4) == [0, 0, 0, 0] && LittleEndian(0, 5) == [0, 0, 0, 0, 0];
    assert LittleEndian(0, 6) == [0, 0, 0, 0, 0, 0];
    var high := v / 256;
    assert high / 256 == 0 && LittleEndian(high, 7) == [(high % 256) as Byte] + LittleEndian(0, 6);
  }

  /** A field of four bytes, which no writer makes. */
  lemma Fixed32OnTheWire(num: nat, a: Byte, b: Byte, c: Byte, d: Byte)
    requires 0 < num < 16
    ensures ParseAll([(8 * num + 5) as Byte, a, b, c, d]) ==
            Fields([Fixed32Field(num, a as nat + 256 * (b as nat + 256 * (c as nat + 256 * d as nat)))])
  {
    var tag, rest := 8 * num + 5, [a, b, c, d];
    var buf := [tag as Byte] + rest;
    assert Varint.Encode(tag) == [tag as Byte] && IsUint64(tag);
    DecodeEncode(tag, rest);
    assert rest[1..] == [b, c, d] && rest[2..] == [c, d] && rest[3..] == [d] && rest[4..] == [];
    assert Word([d]) == d as nat && Word([c, d]) == c as nat + 256 * Word([c, d][1..]);
    assert Word([b, c, d]) == b as nat + 256 * Word([b, c, d][1..]) && Word(rest) == a as nat + 256 * Word(rest[1..]);
    hide Decode, Word;
    assert buf[1..5] == rest && buf == [tag as Byte, a, b, c, d];
    OneFieldIsAll(buf);
  }

  lemma TagSplits(num: nat, wire: nat)
    requires num < 0x2000_0000_0000_0000 && wire < 8
    ensures Tag(num, wire) / 8 == num && Tag(num, wire) % 8 == wire
  {
  }

  /** The tag at the front, and the buffer behind it. */
  lemma TagIsRead(num: nat, wire: nat, rest: Bytes)
    requires num < 0x2000_0000_0000_0000 && wire < 8
    ensures var tag := Varint.Encode(Tag(num, wire));
            && ParseOne(tag + rest) == ParseBody(tag + rest, Tag(num, wire), |tag|)
            && (tag + rest)[|tag|..] == rest
  {
    hide Varint.Encode, Decode, ParseBody;
    DecodeEncode(Tag(num, wire), rest);
  }

  lemma VarintIsRead(num: nat, v: nat)
    requires num < 0x2000_0000_0000_0000 && IsUint64(v)
    ensures var e := Varint.Encode(Tag(num, 0)) + Varint.Encode(v); ParseOne(e) == One(VarintField(num, v), |e|)
  {
    hide Varint.Encode, Decode, Tag, ParseOne;
    TagSplits(num, 0);
    TagIsRead(num, 0, Varint.Encode(v));
    DecodeEncode(v, []);
    assert Varint.Encode(v) + [] == Varint.Encode(v);
  }

  lemma Fixed64IsRead(num: nat, v: nat)
    requires num < 0x2000_0000_0000_0000 && IsUint64(v)
    ensures var e := Varint.Encode(Tag(num, 1)) + LittleEndian(v, 8); ParseOne(e) == One(Fixed64Field(num, v), |e|)
  {
    hide Varint.Encode, Decode, Tag, ParseOne, LittleEndian, Word, Power;
    Uint64Fits(v);
    WordOfLittleEndian(v, 8);
    TagSplits(num, 1);
    TagIsRead(num, 1, LittleEndian(v, 8));
    var tag := Varint.Encode(Tag(num, 1));
    assert (tag + LittleEndian(v, 8))[|tag|..|tag| + 8] == LittleEndian(v, 8);
  }

  lemma LenIsRead(num: nat, bytes: Bytes)
    requires num < 0x2000_0000_0000_0000 && IsUint64(|bytes|)
    ensures var e := Varint.Encode(Tag(num, 2)) + Varint.Encode(|bytes|) + bytes;
            ParseOne(e) == if |bytes| <= MaxFieldBytes then One(LenField(num, bytes), |e|) else NotOne(TruncatedLen)
  {
    hide Varint.Encode, Decode, Tag, ParseOne;
    TagSplits(num, 2);
    var tag, len := Varint.Encode(Tag(num, 2)), Varint.Encode(|bytes|);
    var e := tag + len + bytes;
    assert e == tag + (len + bytes);
    TagIsRead(num, 2, len + bytes);
    DecodeEncode(|bytes|, bytes);
    assert e[|tag| + |len|..|tag| + |len| + |bytes|] == bytes;
  }

  lemma WriteIsRead(w: Write)
    requires Fits(w)
    ensures ParseAll(Encoded(w)) == Fields(Kept(w))
  {
    if Encoded(w) != [] {
      match w
      case PutVarint(num, v) => VarintIsRead(num, v);
      case PutBool(num, on) => VarintIsRead(num, 1);
      case PutFixed64(num, v) => Fixed64IsRead(num, v);
      case PutLen(num, bytes) => LenIsRead(num, bytes);
      hide Varint.Encode, Tag, LittleEndian, ParseOne;
      OneFieldIsAll(Encoded(w));
    }
  }

  lemma OneFieldIsAll(buf: Bytes)
    requires ParseOne(buf).One? && ParseOne(buf).used == |buf|
    ensures ParseAll(buf) == Fields([ParseOne(buf).field])
  {
    hide ParseOne;
    assert buf[|buf|..] == [];
  }

  /** A length beyond the bound is written, and refused on reading, whatever follows. */
  lemma LongFieldIsRejected(num: nat, bytes: Bytes, rest: Bytes)
    requires num < 0x2000_0000_0000_0000 && IsUint64(|bytes|) && |bytes| > 0x8000_0000
    ensures ParseAll(Encoded(PutLen(num, bytes)) + rest) == Malformed(TruncatedLen)
  {
    hide Varint.Encode, Decode, Tag, ParseOne;
    TagSplits(num, 2);
    var tag, len := Varint.Encode(Tag(num, 2)), Varint.Encode(|bytes|);
    assert tag + len + bytes + rest == tag + (len + (bytes + rest));
    TagIsRead(num, 2, len + (bytes + rest));
    DecodeEncode(|bytes|, bytes + rest);
  }

  /**
   Parsing returns the fields appended, the empty ones left out, if and only if every length is one
   the parser takes; otherwise it fails.
   */
  lemma {:induction false} ParseInvertsWriting(ws: seq<Write>)
    requires forall i :: 0 <= i < |ws| ==> InRange(ws[i])
    ensures ParseAll(EncodedAll(ws)) ==
            if forall i :: 0 <= i < |ws| && ws[i].PutLen? ==> |ws[i].bytes| <= 0x8000_0000 then Fields(KeptAll(ws))
            else Malformed(TruncatedLen)
  {
    if ws != [] {
      var rest := ws[1..];
      ParseInvertsWriting(rest);
      hide Encoded, Kept, ParseOne;
      assert forall i :: 1 <= i < |ws| ==> ws[i] == rest[i - 1];
      if Short(ws[0]) {
        WriteIsRead(ws[0]);
        ParseConcat(Encoded(ws[0]), EncodedAll(rest));
      } else {
        LongFieldIsRejected(ws[0].num, ws[0].bytes, EncodedAll(rest));
      }
    }
  }

  // ----- look-ups -----

  function WireType(f: Field): nat {
    match f
    case VarintField(_, _) => 0
    case Fixed64Field(_, _) => 1
    case LenField(_, _) => 2
    case Fixed32Field(_, _) => 5
  }

  predicate Matches(f: Field, num: nat, wire: int) {
    f.num == num && (wire < 0 || WireType(f) == wire)
  }

  /** The first field that matches. */
  function FirstMatch(fields: seq<Field>, num: nat, wire: int): (r: Option<Field>)
    ensures r.None? <==> forall i :: 0 <= i < |fields| ==> !Matches(fields[i], num, wire)
    ensures r.Some? ==> exists i :: 0 <= i < |fields| && fields[i] == r.value && Matches(fields[i], num, wire)
                                    && forall j :: 0 <= j < i ==> !Matches(fields[j], num, wire)
  {
    if fields == [] then None
    else
      var n := |fields| - 1;
      match FirstMatch(fields[..n], num, wire)
      case Some(f) =>
        assert forall i :: 0 <= i < n ==> fields[i] == fields[..n][i];
        Some(f)
      case None =>
        assert forall i :: 0 <= i < n ==> fields[i] == fields[..n][i];
        if Matches(fields[n], num, wire) then Some(fields[n]) else None
  }

  method Get(fields: seq<Field>, num: nat, wire: int) returns (r: Option<Field>)
    ensures r == FirstMatch(fields, num, wire)
  {
    for i := 0 to |fields|
      invariant FirstMatch(fields[..i], num, wire) == None
    {
      assert fields[..i + 1][..i] == fields[..i];
      if Matches(fields[i], num, wire) {
        MatchStays(fields, i + 1, num, wire);
        return Some(fields[i]);
      }
    }
    assert fields[..|fields|] == fields;
    return None;
  }

  /** A match found in front is the first match of all. */
  lemma {:induction false} MatchStays(fields: seq<Field>, n: nat, num: nat, wire: int)
    requires n <= |fields| && FirstMatch(fields[..n], num, wire).Some?
    ensures FirstMatch(fields, num, wire) == FirstMatch(fields[..n], num, wire)
    decreases |fields|
  {
    if n < |fields| {
      var m := |fields| - 1;
      assert fields[..m][..n] == fields[..n];
      MatchStays(fields[..m], n, num, wire);
    } else {
      assert fields[..n] == fields;
    }
  }

  function Having(fields: seq<Field>, num: nat): seq<Field> {
    if fields == [] then []
    else
      var n := |fields| - 1;
      Having(fields[..n], num) + if fields[n].num == num then [fields[n]] else []
  }

  method All(fields: seq<Field>, num: nat) returns (r: seq<Field>)
    ensures r == Having(fields, num)
  {
    r := [];
    for i := 0 to |fields|
      invariant r == Having(fields[..i], num)
    {
      assert fields[..i + 1][..i] == fields[..i];
      if fields[i].num == num {
        r := r + [fields[i]];
      }
    }
    assert fields[..|fields|] == fields;
  }

  /** The fields found have the number, and each of the fields that has it is found. */
  lemma {:induction false} HavingIs(fields: seq<Field>, num: nat, f: Field)
    ensures f in Having(fields, num) <==> f in fields && f.num == num
  {
    if fields != [] {
      var n := |fields| - 1;
      HavingIs(fields[..n], num, f);
      assert fields == fields[..n] + [fields[n]];
    }
  }

  lemma {:induction false} HavingConcat(a: seq<Field>, b: seq<Field>, num: nat)
    ensures Having(a + b, num) == Having(a, num) + Having(b, num)
  {
    if b == [] {
      assert a + b == a;
    } else {
      var n := |b| - 1;
      HavingConcat(a, b[..n], num);
      assert (a + b)[..|a + b| - 1] == a + b[..n];
    }
  }
}
