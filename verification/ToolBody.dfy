/** Decoding one tool-call block (`parseToolCallBody` in `internal/toolemu/toolemu.go`). */
module ToolBody {
  import opened Options
  import opened GoStrings
  import opened Json
  import opened ToolRepair

  /** `counter` is the part of the generated call id that is not a clock reading. */
  datatype ToolCall = ToolCall(counter: nat, name: string, argumentsJSON: string)

  /** Decoding into `map[string]any`: an object, or `null` which leaves the map nil. */
  function UnmarshalMap(c: Codec, raw: string): Option<Json> {
    match c.unmarshal(raw)
    case Some(Obj(m)) => Some(Obj(m))
    case Some(Null) => Some(Null)
    case _ => None
  }

  function NormalizeArguments(c: Codec, raw: string): string {
    var s := TrimSpace(raw);
    if s == "" || s == "null" then
      EmptyObject
    else if s[0] == '{' then
      match UnmarshalMap(c, raw) {
        case Some(v) => c.marshal(v)
        case None => EmptyObject
      }
    else if s[0] == '\"' then
      match c.unmarshal(raw) {
        case Some(Str(wrapped)) =>
          var inner := TrimSpace(wrapped);
          if inner == "" || inner == "null" then EmptyObject
          else match UnmarshalMap(c, inner) {
            case Some(v) => c.marshal(v)
            case None => EmptyObject
          }
        case _ => EmptyObject
      }
    else
      EmptyObject
  }

  function ParseStrict(c: Codec, body: string, counter: nat): Option<ToolCall> {
    match c.unmarshalCall(body)
    case Some(b) =>
      if b.name == "" then None
      else Some(ToolCall(counter, b.name, NormalizeArguments(c, b.arguments)))
    case None => None
  }

  function ParseBody(c: Codec, body: string, counter: nat): Option<ToolCall> {
    match ParseStrict(c, body, counter)
    case Some(tc) => Some(tc)
    case None =>
      var repaired := Repair(body);
      if repaired == body then None else ParseStrict(c, repaired, counter)
  }

  /** A decoded map is an object unless the text was `null`. */
  lemma DecodedMap(c: Codec, raw: string)
    requires Lawful(c) && TrimSpace(raw) != "null" && UnmarshalMap(c, raw).Some?
    ensures UnmarshalMap(c, raw).value.Obj?
  {
    hide TrimSpace;
    assert c.unmarshal(raw) != Some(Null);
  }

  /** Whatever the model sent, the executor receives a JSON object. */
  lemma ArgumentsAreAnObject(c: Codec, raw: string)
    requires Lawful(c)
    ensures exists m :: c.unmarshal(NormalizeArguments(c, raw)) == Some(Obj(m))
  {
    hide TrimSpace, UnmarshalMap;
    var s := TrimSpace(raw);
    var value := Obj(map[]);
    if s != "" && s != "null" {
      if s[0] == '{' && UnmarshalMap(c, raw).Some? {
        DecodedMap(c, raw);
        value := UnmarshalMap(c, raw).value;
      } else if s[0] == '\"' && c.unmarshal(raw).Some? && c.unmarshal(raw).value.Str? {
        var inner := TrimSpace(c.unmarshal(raw).value.s);
        if inner != "" && inner != "null" && UnmarshalMap(c, inner).Some? {
          assert TrimSpace(inner) == inner;
          DecodedMap(c, inner);
          value := UnmarshalMap(c, inner).value;
        }
      }
    }
    assert c.unmarshal(c.marshal(value)) == Some(value);
    assert c.unmarshal(NormalizeArguments(c, raw)) == Some(Obj(value.fields));
  }

  /** An object arrives with its value unchanged. */
  lemma ObjectArgumentsKeepTheirValue(c: Codec, raw: string, m: map<string, Json>)
    requires Lawful(c) && c.unmarshal(raw) == Some(Obj(m))
    ensures NormalizeArguments(c, raw) == c.marshal(Obj(m))
    ensures c.unmarshal(NormalizeArguments(c, raw)) == Some(Obj(m))
  {
    assert TrimSpace(raw)[0] == '{' != "null"[0];
  }

  /** An object sent as a JSON string holding its text is unwrapped once. */
  lemma WrappedArgumentsKeepTheirValue(c: Codec, raw: string, wrapped: string, m: map<string, Json>)
    requires Lawful(c) && c.unmarshal(raw) == Some(Str(wrapped)) && c.unmarshal(TrimSpace(wrapped)) == Some(Obj(m))
    ensures c.unmarshal(NormalizeArguments(c, raw)) == Some(Obj(m))
  {
    var inner := TrimSpace(wrapped);
    hide TrimSpace;
    assert TrimSpace(inner) == inner && inner[0] == '{' != "null"[0];
    assert TrimSpace(raw)[0] == '\"' != "null"[0];
  }
}
