/**
 Base-128 varints (`internal/pbenc/pbenc.go`; Protocol Buffers Encoding specification,
 "Base 128 Varints"). Go's uint64 is modelled as an integer below 2^64, with the shifts and
 masks written out as arithmetic.
 */
module Varint {
  newtype Byte = x: int | 0 <= x < 256
  type Bytes = seq<Byte>

  const TwoTo64 := 0x1_0000_0000_0000_0000

  predicate IsUint64(v: int) {
    0 <= v < TwoTo64
  }

  // ----- encoding -----

  /** The groups of seven bits, least significant first; all but the last marked as continued. */
  function Encode(v: nat): (r: Bytes)
    ensures |r| > 0
  {
    if v < 128 then [v as Byte] else [(v % 128 + 128) as Byte] + Encode(v / 128)
  }

  method AppendVarint(dst: Bytes, v: nat) returns (r: Bytes)
    requires IsUint64(v)
    ensures r == dst + Encode(v)
  {
    r := dst;
    var rest := v;
    while rest >= 0x80
      invariant rest >= 0 && r + Encode(rest) == dst + Encode(v)
    {
      EncodeStep(rest, r);
      r := r + [(rest % 128 + 128) as Byte];
      rest := rest / 128;
    }
    r := r + [rest as Byte];
  }

  lemma EncodeStep(v: nat, r: Bytes)
    requires v >= 128
    ensures r + Encode(v) == r + [(v % 128 + 128) as Byte] + Encode(v / 128)
  {
  }

  function Power(base: nat, n: nat): nat {
    if n == 0 then 1 else base * Power(base, n - 1)
  }

  /** Longer encodings belong to larger numbers. */
  lemma {:induction false} EncodedLength(v: nat, n: nat)
    requires n > 0
    ensures |Encode(v)| <= n <==> v < Power(128, n)
  {
    assert Power(128, n) == 128 * Power(128, n - 1);
    if v >= 128 {
      if n > 1 {
        EncodedLength(v / 128, n - 1);
      } else {
        assert Power(128, 0) == 1;
      }
    } else {
      PowerPositive(n - 1);
    }
  }

  lemma {:induction false} PowerPositive(n: nat)
    ensures Power(128, n) >= 1
  {
    if n > 0 {
      PowerPositive(n - 1);
    }
  }

  lemma TenBytesSuffice(v: nat)
    requires IsUint64(v)
    ensures |Encode(v)| <= 10
  {
    EncodedLength(v, 10);
    assert Power(128, 0) == 1 && Power(128, 1) == 128 && Power(128, 2) == 16384 && Power(128, 3) == 2097152;
    assert Power(128, 4) == 268435456 && Power(128, 5) == 34359738368 && Power(128, 6) == 4398046511104;
    assert Power(128, 7) == 562949953421312 && Power(128, 8) == 72057594037927936;
    assert Power(128, 9) == 9223372036854775808;
    assert Power(128, 10) == 1180591620717411303424;
  }

  // ----- decoding -----

  datatype Failure = Overflow | Truncated
  datatype Decoded = Varint(value: nat, used: nat) | Failed(why: Failure)

  predicate Continues(b: Byte) {
    b >= 128
  }

  /** The number whose groups of seven bits the bytes are, continuation marks ignored. */
  function Value(bs: Bytes): nat {
    if bs == [] then 0 else (bs[0] % 128) as nat + 128 * Value(bs[1..])
  }

  lemma {:induction false} ValueSnoc(bs: Bytes, b: Byte)
    ensures Value(bs + [b]) == Value(bs) + Power(128, |bs|) * (b % 128) as nat
  {
    if bs == [] {
      assert [b][1..] == [] && Value([b]) == (b % 128) as nat + 128 * Value([]);
    } else {
      ValueSnoc(bs[1..], b);
      assert (bs + [b])[1..] == bs[1..] + [b];
      Shifted(Power(128, |bs| - 1), (b % 128) as nat);
    }
  }

  lemma Shifted(p: nat, x: nat)
    ensures 128 * (p * x) == 128 * p * x
  {
  }

  /** How many bytes at the front are marked as continued. */
  function Run(buf: Bytes): (n: nat)
    ensures n <= |buf|
    ensures forall i :: 0 <= i < n ==> Continues(buf[i])
    ensures n < |buf| ==> !Continues(buf[n])
  {
    if buf == [] || !Continues(buf[0]) then 0 else 1 + Run(buf[1..])
  }

  /** What the bytes at the front of `buf` say, at most ten of them being looked at. */
  function Decode(buf: Bytes): (r: Decoded)
    ensures r.Varint? ==> 0 < r.used <= |buf| && r.used <= 10 && IsUint64(r.value)
  {
    var n := Run(buf);
    if n < |buf| && n < 10 then Varint(Value(buf[..n + 1]) % TwoTo64, n + 1)
    else if |buf| > 10 then Failed(Overflow)
    else Failed(Truncated)
  }

  lemma {:induction false} RunIs(buf: Bytes, n: nat)
    requires n <= |buf| && forall i :: 0 <= i < n ==> Continues(buf[i])
    requires n < |buf| ==> !Continues(buf[n])
    ensures Run(buf) == n
  {
    if n > 0 {
      assert Continues(buf[0]);
      RunIs(buf[1..], n - 1);
    }
  }

  lemma RunAtLeast(buf: Bytes, n: nat)
    requires n <= |buf| && forall i :: 0 <= i < n ==> Continues(buf[i])
    ensures n <= Run(buf)
  {
  }

  method DecodeVarint(buf: Bytes) returns (r: Decoded)
    ensures r == Decode(buf)
  {
    var v: nat, scale: nat := 0, 1;
    for i := 0 to |buf|
      invariant i <= 10 && scale == Power(128, i)
      invariant forall j :: 0 <= j < i ==> Continues(buf[j])
      invariant v == Value(buf[..i]) % TwoTo64
    {
      RunAtLeast(buf, i);
      if i >= 10 {
        return Failed(Overflow);
      }
      var b := buf[i];
      AddGroup(buf, i, v);
      v := (v + scale * (b % 128) as nat) % TwoTo64;
      if !Continues(b) {
        RunIs(buf, i);
        return Varint(v, i + 1);
      }
      scale := 128 * scale;
    }
    RunAtLeast(buf, |buf|);
    return Failed(Truncated);
  }

  /** Or-ing in the next group is adding it: its bits all lie above `v`. */
  lemma AddGroup(buf: Bytes, i: nat, v: nat)
    requires i < |buf| && v == Value(buf[..i]) % TwoTo64
    ensures v < Power(128, i)
    ensures (v + Power(128, i) * (buf[i] % 128) as nat) % TwoTo64 == Value(buf[..i + 1]) % TwoTo64
  {
    hide Value, Power;
    assert buf[..i + 1] == buf[..i] + [buf[i]];
    ValueSnoc(buf[..i], buf[i]);
    ValueBound(buf[..i]);
    ModAdd(Value(buf[..i]), Power(128, i) * (buf[i] % 128) as nat);
  }

  lemma ModAdd(a: nat, c: nat)
    ensures (a % TwoTo64 + c) % TwoTo64 == (a + c) % TwoTo64
  {
  }

  // ----- round trip -----

  lemma {:induction false} EncodeMarks(v: nat)
    ensures var e := Encode(v);
            && (forall i :: 0 <= i < |e| - 1 ==> Continues(e[i])) && !Continues(e[|e| - 1])
            && Value(e) == v
  {
    if v < 128 {
      var e := [v as Byte];
      assert e[1..] == [] && Value(e) == (e[0] % 128) as nat + 128 * Value([]);
    } else {
      EncodeMarks(v / 128);
      var head, rest := (v % 128 + 128) as Byte, Encode(v / 128);
      var e := [head] + rest;
      assert e[1..] == rest && (head % 128) as nat == v % 128;
      assert forall i :: 0 < i < |e| ==> e[i] == rest[i - 1];
    }
  }

  /** Decoding inverts encoding whatever follows, and uses exactly the encoded bytes. */
  lemma DecodeEncode(v: nat, suffix: Bytes)
    requires IsUint64(v)
    ensures Decode(Encode(v) + suffix) == Varint(v, |Encode(v)|)
  {
    EncodeMarks(v);
    TenBytesSuffice(v);
    hide Encode, Decode, Value;
    MarkedIsDecoded(Encode(v), suffix);
  }

  lemma MarkedIsDecoded(e: Bytes, suffix: Bytes)
    requires 0 < |e| <= 10 && !Continues(e[|e| - 1]) && forall i :: 0 <= i < |e| - 1 ==> Continues(e[i])
    ensures Decode(e + suffix) == Varint(Value(e) % TwoTo64, |e|)
  {
    hide Run, Value;
    var all := e + suffix;
    assert all[..|e|] == e && forall i :: 0 <= i < |e| ==> all[i] == e[i];
    RunIs(all, |e| - 1);
  }

  /** A varint is decided by its own bytes: more input changes nothing. */
  lemma DecodeAppend(buf: Bytes, suffix: Bytes)
    requires Decode(buf).Varint?
    ensures Decode(buf + suffix) == Decode(buf)
  {
    var n, all := Run(buf), buf + suffix;
    assert forall i :: 0 <= i <= n ==> all[i] == buf[i];
    RunIs(all, n);
    assert all[..n + 1] == buf[..n + 1];
  }

  /** The encoder's form is the shortest of all that decode to the same number. */
  lemma EncodeIsShortest(buf: Bytes)
    requires Decode(buf).Varint?
    ensures |Encode(Decode(buf).value)| <= Decode(buf).used
  {
    var r := Decode(buf);
    ValueBound(buf[..r.used]);
    EncodedLength(r.value, r.used);
  }

  lemma {:induction false} ValueBound(bs: Bytes)
    ensures Value(bs) < Power(128, |bs|)
  {
    if bs != [] {
      ValueBound(bs[1..]);
    }
  }

  /** `v >> 7k`. */
  function Dropped(v: nat, k: nat): nat {
    if k == 0 then v else Dropped(v / 128, k - 1)
  }

  /** The `k`-th byte carries the `k`-th group of seven bits, and the mark if anything is left above it. */
  lemma {:induction false} GroupsOfSeven(v: nat, k: nat)
    requires k < |Encode(v)|
    ensures Encode(v)[k] as nat == Dropped(v, k) % 128 + if Dropped(v, k) >= 128 then 128 else 0
    ensures k + 1 == |Encode(v)| <==> Dropped(v, k) < 128
  {
    if k > 0 {
      GroupsOfSeven(v / 128, k - 1);
    }
  }
}
