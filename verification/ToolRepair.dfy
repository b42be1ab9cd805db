/**
 Repairing almost-JSON emitted by a model (`repairLLMJSON` in `internal/toolemu/toolemu.go`).

 `Escape` is what the byte loop of `EscapeInStringControls` computes. It is judged by an
 independent reading of the text: `Decode` is a decoder lenient enough to accept raw control
 bytes inside string literals (section 7 of RFC 8259 forbids them), and escaping must not
 change what that decoder sees.
 */
module ToolRepair {
  import opened GoStrings

  datatype LexState = Structure | InString | Escaped

  predicate IsControl(c: char) {
    c < ' '
  }

  function NextState(st: LexState, c: char): LexState {
    match st
    case Structure => if c == '\"' then InString else Structure
    case InString => if c == '\\' then Escaped else if c == '\"' then Structure else InString
    case Escaped => InString
  }

  function HexDigit(d: nat): char
    requires d < 16
  {
    "0123456789abcdef"[d]
  }

  /** The escape sequence for a control byte. */
  function EscapeControl(c: char): string
    requires IsControl(c)
  {
    if c == '\n' then "\\n"
    else if c == '\r' then "\\r"
    else if c == '\t' then "\\t"
    else if c == 8 as char then "\\b"
    else if c == 12 as char then "\\f"
    else "\\u00" + [HexDigit(c as int / 16), HexDigit(c as int % 16)]
  }

  function Emit(st: LexState, c: char): string {
    if st == InString && IsControl(c) then EscapeControl(c) else [c]
  }

  function Escape(s: string, st: LexState): string {
    if s == "" then "" else Emit(st, s[0]) + Escape(s[1..], NextState(st, s[0]))
  }

  function EndState(s: string, st: LexState): LexState {
    if s == "" then st else EndState(s[1..], NextState(st, s[0]))
  }

  /** A control byte standing unescaped inside a string literal. */
  predicate HasRawControl(s: string, st: LexState) {
    s != "" && ((st == InString && IsControl(s[0])) || HasRawControl(s[1..], NextState(st, s[0])))
  }

  function Flags(inString: bool, escaped: bool): LexState {
    if !inString then Structure else if escaped then Escaped else InString
  }

  lemma EscapeStep(s: string, i: nat, st: LexState, out: string)
    requires i < |s|
    ensures out + Escape(s[i..], st) == (out + Emit(st, s[i])) + Escape(s[i + 1..], NextState(st, s[i]))
  {
    assert s[i..][1..] == s[i + 1..];
    var e := Emit(st, s[i]);
    var rest := Escape(s[i + 1..], NextState(st, s[i]));
    assert Escape(s[i..], st) == e + rest;
    assert out + (e + rest) == (out + e) + rest;
  }

  method EscapeInStringControls(s: string) returns (out: string)
    ensures out == Escape(s, Structure)
  {
    out := "";
    var inString, escaped := false, false;
    for i := 0 to |s|
      invariant escaped ==> inString
      invariant Escape(s, Structure) == out + Escape(s[i..], Flags(inString, escaped))
    {
      var c := s[i];
      EscapeStep(s, i, Flags(inString, escaped), out);
      if !inString {
        if c == '\"' {
          inString := true;
        }
        out := out + [c];
      } else if escaped {
        escaped := false;
        out := out + [c];
      } else if c == '\\' {
        escaped := true;
        out := out + [c];
      } else if c == '\"' {
        inString := false;
        out := out + [c];
      } else if IsControl(c) {
        out := out + EscapeControl(c);
      } else {
        out := out + [c];
      }
    }
  }

  lemma {:induction false} EscapeConcat(a: string, b: string, st: LexState)
    ensures Escape(a + b, st) == Escape(a, st) + Escape(b, EndState(a, st))
  {
    if a == "" {
      assert a + b == b;
    } else {
      assert (a + b)[1..] == a[1..] + b;
      EscapeConcat(a[1..], b, NextState(st, a[0]));
    }
  }

  /** An emitted sequence reads back as one unit and needs no further escaping. */
  lemma EmitIsStable(st: LexState, c: char)
    ensures Escape(Emit(st, c), st) == Emit(st, c)
    ensures EndState(Emit(st, c), st) == NextState(st, c)
  {
    var e := Emit(st, c);
    if e == [c] {
      assert e[1..] == "";
    } else {
      var st1 := NextState(st, e[0]);
      var st2 := NextState(st1, e[1]);
      assert st2 == InString && forall k :: 2 <= k < |e| ==> !IsControl(e[k]) && e[k] != '\\' && e[k] != '\"';
      assert e[1..][1..] == e[2..];
      PlainTail(e[2..]);
    }
  }

  lemma {:induction false} PlainTail(t: string)
    requires forall k :: 0 <= k < |t| ==> !IsControl(t[k]) && t[k] != '\\' && t[k] != '\"'
    ensures Escape(t, InString) == t && EndState(t, InString) == InString
  {
    if t != "" {
      PlainTail(t[1..]);
    }
  }

  lemma {:induction false} EscapeIdempotent(s: string, st: LexState)
    ensures Escape(Escape(s, st), st) == Escape(s, st)
  {
    if s != "" {
      EmitIsStable(st, s[0]);
      EscapeConcat(Emit(st, s[0]), Escape(s[1..], NextState(st, s[0])), st);
      EscapeIdempotent(s[1..], NextState(st, s[0]));
    }
  }

  /** Escaping never shortens the text, and lengthens it exactly when something needs escaping. */
  lemma {:induction false} EscapeGrows(s: string, st: LexState)
    ensures |Escape(s, st)| >= |s|
    ensures |Escape(s, st)| > |s| <==> HasRawControl(s, st)
    ensures !HasRawControl(s, st) ==> Escape(s, st) == s
  {
    if s != "" {
      EscapeGrows(s[1..], NextState(st, s[0]));
      assert s == [s[0]] + s[1..];
    }
  }

  /** The text comes back unchanged exactly when no raw control byte stands inside a string. */
  lemma EscapeIdentityIff(s: string, st: LexState)
    ensures Escape(s, st) == s <==> !HasRawControl(s, st)
  {
    EscapeGrows(s, st);
  }

  // ----- the lenient decoder -----

  datatype Token = Punctuation(c: char) | OpenQuote | CloseQuote | Unit(code: int)

  predicate IsHex(c: char) {
    '0' <= c <= '9' || 'a' <= c <= 'f' || 'A' <= c <= 'F'
  }

  function HexValue(c: char): int
    requires IsHex(c)
  {
    if '0' <= c <= '9' then c as int - '0' as int
    else if 'a' <= c <= 'f' then c as int - 'a' as int + 10
    else c as int - 'A' as int + 10
  }

  /** `s` begins with at least `k` hexadecimal digits. */
  predicate LeadingHex(s: string, k: nat)
    ensures LeadingHex(s, k) ==> k <= |s|
  {
    k == 0 || (s != "" && IsHex(s[0]) && LeadingHex(s[1..], k - 1))
  }

  function HexNumber(s: string, k: nat, acc: int): int
    requires LeadingHex(s, k)
  {
    if k == 0 then acc else HexNumber(s[1..], k - 1, 16 * acc + HexValue(s[0]))
  }

  function SimpleEscape(c: char): int {
    match c
    case 'n' => 10
    case 'r' => 13
    case 't' => 9
    case 'b' => 8
    case 'f' => 12
    case _ => c as int
  }

  function Decode(s: string, inString: bool): seq<Token> {
    if s == "" then
      []
    else if !inString then
      if s[0] == '\"' then [OpenQuote] + Decode(s[1..], true)
      else [Punctuation(s[0])] + Decode(s[1..], false)
    else if s[0] == '\"' then
      [CloseQuote] + Decode(s[1..], false)
    else if s[0] != '\\' || |s| == 1 then
      [Unit(s[0] as int)] + Decode(s[1..], true)
    else if s[1] == 'u' && LeadingHex(s[2..], 4) then
      [Unit(HexNumber(s[2..], 4, 0))]
      + Decode(s[6..], true)
    else
      [Unit(SimpleEscape(s[1]))] + Decode(s[2..], true)
  }

  /** Escaping copies hexadecimal digits and never creates any in front. */
  lemma {:induction false} HexSurvives(s: string, k: nat, acc: int)
    ensures LeadingHex(Escape(s, InString), k) <==> LeadingHex(s, k)
    ensures LeadingHex(s, k) ==>
              var t := Escape(s, InString);
              t[k..] == Escape(s[k..], InString) && HexNumber(t, k, acc) == HexNumber(s, k, acc)
  {
    if k > 0 && s != "" {
      var t := Escape(s, InString);
      if IsHex(s[0]) {
        assert t == [s[0]] + Escape(s[1..], InString);
        assert t[1..] == Escape(s[1..], InString);
        HexSurvives(s[1..], k - 1, 16 * acc + HexValue(s[0]));
        if LeadingHex(s, k) {
          assert t[k..] == t[1..][k - 1..] && s[1..][k - 1..] == s[k..];
        }
      } else {
        assert !IsHex(Emit(InString, s[0])[0]);
      }
    }
  }

  /** What a decoder reads where a control byte was escaped. */
  lemma EscapedControlDecodes(c: char, rest: string)
    requires IsControl(c)
    ensures Decode(EscapeControl(c) + rest, true) == [Unit(c as int)] + Decode(rest, true)
  {
    var e := EscapeControl(c);
    var t := e + rest;
    if |e| == 2 {
      assert t[2..] == rest;
    } else {
      var h3, h4 := HexDigit(c as int / 16), HexDigit(c as int % 16);
      HexDigitValue(c as int / 16);
      HexDigitValue(c as int % 16);
      FourDigits('0', '0', h3, h4, rest);
      hide LeadingHex, HexNumber;
      assert t[2..] == ['0', '0', h3, h4] + rest;
      assert t[6..] == rest;
    }
  }

  lemma FourDigits(a: char, b: char, c: char, d: char, rest: string)
    requires IsHex(a) && IsHex(b) && IsHex(c) && IsHex(d)
    ensures var t := [a, b, c, d] + rest;
            LeadingHex(t, 4) && HexNumber(t, 4, 0) ==
                    4096 * HexValue(a) + 256 * HexValue(b) + 16 * HexValue(c) + HexValue(d)
  {
    var t4 := [d] + rest;
    var t3 := [c, d] + rest;
    var t2 := [b, c, d] + rest;
    var t1 := [a, b, c, d] + rest;
    assert t1[1..] == t2 && t2[1..] == t3 && t3[1..] == t4;
    assert LeadingHex(t4, 1);
    assert LeadingHex(t3, 2);
    assert LeadingHex(t2, 3);
    assert LeadingHex(t1, 4);
    var v1 := HexValue(a);
    var v2 := 16 * v1 + HexValue(b);
    var v3 := 16 * v2 + HexValue(c);
    assert HexNumber(t4, 1, v3) == 16 * v3 + HexValue(d);
    assert HexNumber(t3, 2, v2) == HexNumber(t4, 1, v3);
    assert HexNumber(t2, 3, v1) == HexNumber(t3, 2, v2);
    assert HexNumber(t1, 4, 0) == HexNumber(t2, 3, v1);
  }

  lemma HexDigitValue(d: nat)
    requires d < 16
    ensures IsHex(HexDigit(d)) && HexValue(HexDigit(d)) == d
  {
  }

  lemma EscapedPairIsCopied(s: string)
    requires |s| > 1 && s[0] == '\\'
    ensures Escape(s, InString) == [s[0], s[1]] + Escape(s[2..], InString)
  {
    assert s[1..][1..] == s[2..];
    assert Escape(s[1..], Escaped) == [s[1]] + Escape(s[2..], InString);
    assert Escape(s, InString) == [s[0]] + Escape(s[1..], Escaped);
  }

  /** An escape sequence of the original text means the same in front of the escaped rest. */
  lemma EscapedPairDecodes(s: string)
    requires |s| > 1 && s[0] == '\\'
    requires Decode(Escape(s[2..], InString), true) == Decode(s[2..], true)
    requires LeadingHex(s[2..], 4) ==> Decode(Escape(s[6..], InString), true) == Decode(s[6..], true)
    ensures Decode(Escape(s, InString), true) == Decode(s, true)
  {
    var rest := s[2..];
    var u := Escape(rest, InString);
    var t := Escape(s, InString);
    EscapedPairIsCopied(s);
    HexSurvives(rest, 4, 0);
    hide Escape, LeadingHex, HexNumber;
    assert t[2..] == u && t[0] == s[0] && t[1] == s[1];
    if LeadingHex(rest, 4) {
      assert rest[4..] == s[6..];
      assert t[6..] == u[4..];
    }
  }

  /** Escaping does not change what the text means. */
  lemma {:induction false} EscapeKeepsMeaning(s: string, inString: bool)
    ensures Decode(Escape(s, if inString then InString else Structure), inString) == Decode(s, inString)
    decreases |s|
  {
    var st := if inString then InString else Structure;
    if s == "" {
    } else if inString && s[0] == '\\' && |s| > 1 {
      EscapeKeepsMeaning(s[2..], true);
      if LeadingHex(s[2..], 4) {
        EscapeKeepsMeaning(s[6..], true);
      }
      EscapedPairDecodes(s);
    } else if inString && s[0] == '\\' {
      assert s[1..] == "";
    } else if inString && IsControl(s[0]) {
      EscapedControlDecodes(s[0], Escape(s[1..], InString));
      EscapeKeepsMeaning(s[1..], true);
    } else {
      assert Escape(s, st)[1..] == Escape(s[1..], NextState(st, s[0]));
      EscapeKeepsMeaning(s[1..], inString != (s[0] == '\"'));
    }
  }

  // ----- the whole repair -----

  function StripCodeFence(s: string): string {
    if !("```" <= s) then s
    else
      var nl := Index(s, "\n");
      if nl == -1 then s
      else
        var t := TrimSpace(s[nl + 1..]);
        TrimSpace(if |t| >= 3 && t[|t| - 3..] == "```" then t[..|t| - 3] else t)
  }

  function Repair(s: string): string {
    Escape(StripCodeFence(TrimSpace(s)), Structure)
  }
}
