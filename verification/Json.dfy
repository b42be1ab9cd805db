/**
 The values `encoding/json` exchanges with the modelled code, and the codec itself as a
 parameter: its functions are left open, and `Lawful` lists what the proofs use of them.
 */
module Json {
  import opened Options
  import opened GoStrings

  /** The finite float64 values, numbered; there are 2^64 - 2^53 of them. */
  newtype Double = n: int | 0 <= n < 0xFFE0_0000_0000_0000

  datatype Json =
    | Null
    | Bool(b: bool)
    | Num(d: Double)
    | Str(s: string)
    | Arr(elems: seq<Json>)
    | Obj(fields: map<string, Json>)

  /** What `parseToolCallStrict` decodes a block into; `arguments` stays raw text. */
  datatype CallBody = CallBody(name: string, arguments: string)

  datatype Codec = Codec(
    marshal: Json -> string,
    unmarshal: string -> Option<Json>,
    unmarshalCall: string -> Option<CallBody>)

  const EmptyObject := "{}"

  /** The object `Normalize` writes between the tool-call tags. */
  function CallObject(name: string, arguments: Json): Json {
    Obj(map["name" := Str(name), "arguments" := arguments])
  }

  ghost predicate Lawful(c: Codec) {
    && (forall v :: c.unmarshal(c.marshal(v)) == Some(v))
    // json.Marshal escapes '<' and every control byte.
    && (forall v :: '<' !in c.marshal(v) && 0 as char !in c.marshal(v))
    && (forall v: Json :: v.Obj? ==>
          var t := c.marshal(v); |t| >= 2 && t[0] == '{' && t[|t| - 1] == '}')
    // The first character of a document fixes its kind.
    && (forall t :: match c.unmarshal(t)
                    case Some(Obj(_)) => TrimSpace(t) != "" && TrimSpace(t)[0] == '{'
                    case Some(Str(_)) => TrimSpace(t) != "" && TrimSpace(t)[0] == '\"'
                    case Some(Null) => TrimSpace(t) == "null"
                    case _ => true)
    && c.unmarshal(EmptyObject) == Some(Obj(map[]))
    // A nested value is written as it would be written alone.
    && (forall name, v :: c.unmarshalCall(c.marshal(CallObject(name, v)))
                          == Some(CallBody(name, c.marshal(v))))
  }

  // ----- a scope and a document in one string -----

  const Nul := 0 as char

  /** What cache keys and conversation fingerprints hash: the scope, a NUL byte, the document. */
  function ScopedBytes(c: Codec, scope: string, v: Json): string {
    scope + [Nul] + c.marshal(v)
  }

  lemma LastNul(s: string, b: string)
    requires Nul !in b
    ensures var t := s + [Nul] + b; t[|s|] == Nul && forall i :: |s| < i < |t| ==> t[i] != Nul
    ensures var t := s + [Nul] + b; t[..|s|] == s && t[|s| + 1..] == b
  {
    var t := s + [Nul] + b;
    forall i | |s| < i < |t|
      ensures t[i] != Nul
    {
      assert t[i] == b[i - |s| - 1];
    }
  }

  /** The last NUL byte separates the two. */
  lemma SplitAtLastNul(s1: string, b1: string, s2: string, b2: string)
    requires Nul !in b1 && Nul !in b2 && s1 + [Nul] + b1 == s2 + [Nul] + b2
    ensures s1 == s2 && b1 == b2
  {
    LastNul(s1, b1);
    LastNul(s2, b2);
    assert |s1| == |s2|;
  }

  /** Two scopes or two documents are never hashed from the same bytes, even where the scope has NUL bytes. */
  lemma ScopedBytesAreInjective(c: Codec, s1: string, v1: Json, s2: string, v2: Json)
    requires Lawful(c) && ScopedBytes(c, s1, v1) == ScopedBytes(c, s2, v2)
    ensures s1 == s2 && v1 == v2
  {
    SplitAtLastNul(s1, c.marshal(v1), s2, c.marshal(v2));
    assert c.unmarshal(c.marshal(v1)) == Some(v1) && c.unmarshal(c.marshal(v2)) == Some(v2);
  }
}
