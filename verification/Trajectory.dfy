/**
 The usage read-outs of `internal/windsurf/windsurf.go`. The language server may deliver a
 trajectory in several parts; concatenating the parts adds the usage.
 */
module Trajectory {
  import opened Options
  import opened Varint
  import opened ProtoFields

  datatype Usage = Usage(input: nat, output: nat, cacheRead: nat, cacheWrite: nat)

  const NoUsage := Usage(0, 0, 0, 0)

  function AddUint64(a: nat, b: nat): nat {
    (a + b) % TwoTo64
  }

  /** `Usage.Add`. */
  function Add(a: Usage, b: Usage): Usage {
    Usage(AddUint64(a.input, b.input), AddUint64(a.output, b.output),
          AddUint64(a.cacheRead, b.cacheRead), AddUint64(a.cacheWrite, b.cacheWrite))
  }

  predicate IsUsage(u: Usage) {
    IsUint64(u.input) && IsUint64(u.output) && IsUint64(u.cacheRead) && IsUint64(u.cacheWrite)
  }

  // ----- look-ups over parts -----

  function ParseLen(f: Option<Field>): Option<seq<Field>> {
    if f.Some? && f.value.LenField? then
      match ParseAll(f.value.value)
      case Fields(fs) => Some(fs)
      case Malformed(_) => None
    else None
  }

  function GetVarint(fields: seq<Field>, num: nat): nat {
    match FirstMatch(fields, num, 0)
    case Some(VarintField(_, v)) => v
    case _ => 0
  }

  // ----- usage -----

  /** The counters of one ModelUsageStats block; a block of zeros says nothing. */
  function StatsUsage(us: seq<Field>): Option<Usage> {
    var u := Usage(GetVarint(us, 2), GetVarint(us, 3), GetVarint(us, 5), GetVarint(us, 4));
    if u == NoUsage then None else Some(u)
  }

  /** The usage in a message: field `outer`, and in it field `nested`. */
  function NestedUsage(fields: seq<Field>, outer: nat, nested: nat): Option<Usage> {
    match ParseLen(FirstMatch(fields, outer, 2))
    case None => None
    case Some(m) =>
      match ParseLen(FirstMatch(m, nested, 2))
      case None => None
      case Some(us) => StatsUsage(us)
  }

  /** The usage in one generator record: field 1, and in it field 4. */
  function RecordUsage(gm: Field): Option<Usage> {
    match ParseLen(Some(gm))
    case None => None
    case Some(inner) => NestedUsage(inner, 1, 4)
  }

  /** Nothing found is not the same as a total that wrapped around to zero. */
  function Combine(a: Option<Usage>, b: Option<Usage>): Option<Usage> {
    match (a, b)
    case (None, _) => b
    case (_, None) => a
    case (Some(u), Some(v)) => Some(Add(u, v))
  }

  function TotalUsage(records: seq<Field>): Option<Usage> {
    if records == [] then None
    else Combine(TotalUsage(records[..|records| - 1]), RecordUsage(records[|records| - 1]))
  }

  function GeneratorUsage(buf: Bytes): Option<Usage> {
    match ParseAll(buf)
    case Malformed(_) => None
    case Fields(fs) => TotalUsage(Having(fs, 1))
  }

  method ParseGeneratorMetadata(buf: Bytes) returns (r: Option<Usage>)
    ensures r == GeneratorUsage(buf)
  {
    hide ParseAll, RecordUsage, Having;
    var parsed := Parse(buf);
    if parsed.Malformed? {
      return None;
    }
    var total, found := NoUsage, false;
    var records := All(parsed.fields, 1);
    for n := 0 to |records|
      invariant TotalUsage(records[..n]) == if found then Some(total) else None
      invariant !found ==> total == NoUsage
    {
      assert records[..n + 1][..n] == records[..n];
      var u := RecordUsage(records[n]);
      if u.Some? {
        RecordIsUsage(records[n]);
        AddZero(u.value);
        total := Add(total, u.value);
        found := true;
      }
    }
    assert records[..|records|] == records;
    r := if found then Some(total) else None;
  }

  lemma AddZero(u: Usage)
    requires IsUsage(u)
    ensures Add(NoUsage, u) == u
  {
  }

  // Every number a parser returns is a uint64.

  predicate IsField(f: Field) {
    f.VarintField? ==> IsUint64(f.varint)
  }

  lemma {:induction false} ParsedFields(buf: Bytes)
    ensures ParseAll(buf).Fields? ==> forall f :: f in ParseAll(buf).fields ==> IsField(f)
    decreases |buf|
  {
    if buf != [] && ParseOne(buf).One? {
      OneIsField(buf);
      hide ParseOne;
      ParsedFields(buf[ParseOne(buf).used..]);
    }
  }

  lemma OneIsField(buf: Bytes)
    ensures ParseOne(buf).One? ==> IsField(ParseOne(buf).field)
  {
    hide Decode, Word;
  }

  lemma GetIsField(fields: seq<Field>, num: nat)
    requires forall f :: f in fields ==> IsField(f)
    ensures IsUint64(GetVarint(fields, num))
  {
    hide FirstMatch;
    var r := FirstMatch(fields, num, 0);
    if r.Some? {
      var i :| 0 <= i < |fields| && fields[i] == r.value;
      assert IsField(fields[i]);
    }
  }

  lemma RecordIsUsage(gm: Field)
    ensures RecordUsage(gm).Some? ==> IsUsage(RecordUsage(gm).value)
  {
    hide ParseAll, FirstMatch, GetVarint;
    if RecordUsage(gm).Some? {
      var inner := ParseLen(Some(gm)).value;
      var cm := ParseLen(FirstMatch(inner, 1, 2)).value;
      var uf := FirstMatch(cm, 4, 2).value;
      ParsedFields(uf.value);
      var us := ParseAll(uf.value).fields;
      GetIsField(us, 2);
      GetIsField(us, 3);
      GetIsField(us, 4);
      GetIsField(us, 5);
    }
  }

  lemma AddAssociates(a: Usage, b: Usage, c: Usage)
    ensures Add(Add(a, b), c) == Add(a, Add(b, c))
  {
    Wraps(a.input, b.input, c.input);
    Wraps(a.output, b.output, c.output);
    Wraps(a.cacheRead, b.cacheRead, c.cacheRead);
    Wraps(a.cacheWrite, b.cacheWrite, c.cacheWrite);
  }

  lemma Wraps(a: nat, b: nat, c: nat)
    ensures AddUint64(AddUint64(a, b), c) == AddUint64(a, AddUint64(b, c))
  {
    ModAdd(a + b, c);
    ModAdd(b + c, a);
  }

  lemma CombineAssociates(a: Option<Usage>, b: Option<Usage>, c: Option<Usage>)
    ensures Combine(Combine(a, b), c) == Combine(a, Combine(b, c))
  {
    hide Add;
    if a.Some? && b.Some? && c.Some? {
      AddAssociates(a.value, b.value, c.value);
    }
  }

  lemma {:induction false} TotalConcat(a: seq<Field>, b: seq<Field>)
    ensures TotalUsage(a + b) == Combine(TotalUsage(a), TotalUsage(b))
  {
    hide RecordUsage, Combine;
    if b == [] {
      assert a + b == a;
      CombineNone(TotalUsage(a));
    } else {
      var n := |b| - 1;
      TotalConcat(a, b[..n]);
      assert (a + b)[..|a + b| - 1] == a + b[..n];
      CombineAssociates(TotalUsage(a), TotalUsage(b[..n]), RecordUsage(b[n]));
    }
  }

  lemma CombineNone(a: Option<Usage>)
    ensures Combine(a, None) == a
  {
  }

  /** The usage of two parts together is the sum of their usages, modulo 2^64. */
  lemma UsageAdds(a: Bytes, b: Bytes)
    requires ParseAll(a).Fields? && ParseAll(b).Fields?
    ensures GeneratorUsage(a + b) ==
            match (GeneratorUsage(a), GeneratorUsage(b))
            case (Some(u), Some(v)) =>
              Some(Usage((u.input + v.input) % 0x1_0000_0000_0000_0000, (u.output + v.output) % 0x1_0000_0000_0000_0000,
                         (u.cacheRead + v.cacheRead) % 0x1_0000_0000_0000_0000,
                         (u.cacheWrite + v.cacheWrite) % 0x1_0000_0000_0000_0000))
            case (None, v) => v
            case (u, None) => u
  {
    ParseConcat(a, b);
    hide ParseAll, TotalUsage, Having;
    var fa, fb := ParseAll(a).fields, ParseAll(b).fields;
    HavingConcat(fa, fb, 1);
    TotalConcat(Having(fa, 1), Having(fb, 1));
  }

  /** A ModelUsageStats block, and a generator record around it, as the language server writes them. */
  function StatsWrites(u: Usage): seq<Write> {
    [PutVarint(2, u.input), PutVarint(3, u.output), PutVarint(4, u.cacheWrite), PutVarint(5, u.cacheRead)]
  }

  function Wrapped(num: nat, inner: Bytes): Bytes {
    EncodedAll([PutLen(num, inner)])
  }

  function RecordBytes(u: Usage): Bytes {
    Wrapped(1, Wrapped(4, EncodedAll(StatsWrites(u))))
  }

  lemma StatsAreRead(u: Usage)
    requires IsUsage(u)
    ensures ParseAll(EncodedAll(StatsWrites(u))) ==
            Fields([VarintField(2, u.input), VarintField(3, u.output), VarintField(4, u.cacheWrite), VarintField(5, u.cacheRead)])
  {
    hide ParseAll, EncodedAll, KeptAll, Encoded;
    var ws := StatsWrites(u);
    StatsFit(u);
    ParseInvertsWriting(ws);
    FourWrites(ws);
  }

  lemma StatsFit(u: Usage)
    requires IsUsage(u)
    ensures forall i :: 0 <= i < |StatsWrites(u)| ==> Fits(StatsWrites(u)[i])
  {
  }

  lemma FourWrites(ws: seq<Write>)
    requires |ws| == 4
    ensures EncodedAll(ws) == Encoded(ws[0]) + (Encoded(ws[1]) + (Encoded(ws[2]) + (Encoded(ws[3]) + [])))
    ensures (forall i :: 0 <= i < 4 ==> Fits(ws[i])) ==>
              KeptAll(ws) == Kept(ws[0]) + (Kept(ws[1]) + (Kept(ws[2]) + (Kept(ws[3]) + [])))
  {
    hide Encoded, Kept, InRange, Short;
    var w1 := ws[1..];
    var w2 := w1[1..];
    var w3 := w2[1..];
    assert w1[0] == ws[1] && w2[0] == ws[2] && w3[0] == ws[3] && w3[1..] == [];
    assert EncodedAll(w3) == Encoded(ws[3]) + [];
    assert EncodedAll(w2) == Encoded(ws[2]) + EncodedAll(w3);
    assert EncodedAll(w1) == Encoded(ws[1]) + EncodedAll(w2);
    if forall i :: 0 <= i < 4 ==> Fits(ws[i]) {
      assert KeptAll(w3) == Kept(ws[3]) + [];
      assert KeptAll(w2) == Kept(ws[2]) + KeptAll(w3);
      assert KeptAll(w1) == Kept(ws[1]) + KeptAll(w2);
    }
  }

  lemma StatsUsageIs(u: Usage)
    ensures StatsUsage([VarintField(2, u.input), VarintField(3, u.output), VarintField(4, u.cacheWrite), VarintField(5, u.cacheRead)]) ==
            if u == NoUsage then None else Some(u)
  {
    var fs := [VarintField(2, u.input), VarintField(3, u.output), VarintField(4, u.cacheWrite), VarintField(5, u.cacheRead)];
    FoundAt(fs, 0, 2);
    FoundAt(fs, 1, 3);
    FoundAt(fs, 2, 4);
    FoundAt(fs, 3, 5);
  }

  lemma FoundAt(fields: seq<Field>, i: nat, num: nat)
    requires i < |fields| && fields[i].VarintField? && fields[i].num == num
    requires forall j :: 0 <= j < |fields| && j != i ==> fields[j].num != num
    ensures GetVarint(fields, num) == fields[i].varint
  {
    hide FirstMatch;
    assert Matches(fields[i], num, 0);
    var r := FirstMatch(fields, num, 0);
    assert r.Some?;
  }

  /** A short non-empty part is read back as the one field it is. */
  lemma WrappedIsRead(num: nat, inner: Bytes)
    requires 0 < |inner| <= 1000 && num < 16
    ensures ParseAll(Wrapped(num, inner)) == Fields([LenField(num, inner)])
    ensures 0 < |Wrapped(num, inner)| <= |inner| + 20
    ensures FirstMatch([LenField(num, inner)], num, 2) == Some(LenField(num, inner))
  {
    var ws := [PutLen(num, inner)];
    assert Fits(ws[0]) && ws[1..] == [];
    ParseInvertsWriting(ws);
    TenBytesSuffice(Tag(num, 2));
    TenBytesSuffice(|inner|);
    var fs := [LenField(num, inner)];
    assert Matches(fs[0], num, 2) && fs[..0] == [];
  }

  lemma StatsAreShort(u: Usage)
    requires IsUsage(u)
    ensures 0 < |EncodedAll(StatsWrites(u))| <= 80
  {
    var ws := StatsWrites(u);
    VarintIsShort(2, u.input);
    VarintIsShort(3, u.output);
    VarintIsShort(4, u.cacheWrite);
    VarintIsShort(5, u.cacheRead);
    FourWrites(ws);
    hide Encoded, EncodedAll;
  }

  lemma VarintIsShort(num: nat, v: nat)
    requires IsUint64(v)
    ensures 0 < |Encoded(PutVarint(num, v))| <= 20
  {
    TenBytesSuffice(Tag(num, 0));
    TenBytesSuffice(v);
  }

  /** Usage reported in one record is read back exactly, a report of zeros as none. */
  lemma UsageRoundTrip(u: Usage)
    requires IsUsage(u)
    ensures GeneratorUsage(Wrapped(1, RecordBytes(u))) == if u == NoUsage then None else Some(u)
  {
    hide *;
    var stats := EncodedAll(StatsWrites(u));
    StatsAreShort(u);
    StatsAreRead(u);
    StatsUsageIs(u);
    RecordIsRead(stats);
    OneRecord(LenField(1, Wrapped(1, Wrapped(4, stats))));
    RecordInBuffer(Wrapped(1, Wrapped(4, stats)));
    RecordBytesAre(u);
  }

  lemma RecordBytesAre(u: Usage)
    ensures RecordBytes(u) == Wrapped(1, Wrapped(4, EncodedAll(StatsWrites(u))))
  {
  }

  /** The chain of look-ups of one record ends at the stats block. */
  lemma RecordIsRead(stats: Bytes)
    requires 0 < |stats| <= 80 && ParseAll(stats).Fields?
    ensures RecordUsage(LenField(1, Wrapped(1, Wrapped(4, stats)))) == StatsUsage(ParseAll(stats).fields)
    ensures 0 < |Wrapped(1, Wrapped(4, stats))| <= 1000
  {
    hide ParseAll, FirstMatch, StatsUsage, Wrapped, Encoded;
    WrappedIsRead(4, stats);
    WrappedIsRead(1, Wrapped(4, stats));
  }

  lemma RecordInBuffer(record: Bytes)
    requires 0 < |record| <= 1000
    ensures GeneratorUsage(Wrapped(1, record)) == TotalUsage(Having([LenField(1, record)], 1))
  {
    hide ParseAll, FirstMatch, Wrapped, Encoded, TotalUsage, Having;
    WrappedIsRead(1, record);
  }

  lemma OneRecord(gm: Field)
    requires gm.num == 1
    ensures TotalUsage(Having([gm], 1)) == RecordUsage(gm)
  {
    hide RecordUsage;
    var one := [gm];
    assert one[..0] == [] && Having(one, 1) == [] + [gm];
    assert TotalUsage(one) == Combine(TotalUsage([]), RecordUsage(gm));
  }
}
