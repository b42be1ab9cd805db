/**
 The parts of Go's `strings` package the modelled code calls. A Go string is a byte
 string; it is modelled as `string`, one character per byte.
 */
module GoStrings {

  /** `pat` stands in `s` at position `j`. */
  predicate At(s: string, pat: string, j: int) {
    0 <= j && j + |pat| <= |s| && s[j..j + |pat|] == pat
  }

  /** `strings.Index`: the first place `pat` occurs in `s`, or -1. */
  function Index(s: string, pat: string): (r: int)
    ensures -1 <= r
    ensures r == -1 ==> forall j :: !At(s, pat, j)
    ensures 0 <= r ==> At(s, pat, r)
    ensures forall j :: j < r ==> !At(s, pat, j)
    decreases |s|
  {
    if At(s, pat, 0) then
      0
    else if s == "" then
      -1
    else
      var r := Index(s[1..], pat);
      assert forall j {:trigger At(s, pat, j)} :: At(s, pat, j) ==> At(s[1..], pat, j - 1) by {
        forall j | At(s, pat, j)
          ensures At(s[1..], pat, j - 1)
        {
          AtDrop(s, 1, pat, j - 1);
        }
      }
      assert r != -1 ==> At(s, pat, r + 1) by {
        if r != -1 {
          AtDrop(s, 1, pat, r);
        }
      }
      if r == -1 then -1 else r + 1
  }

  lemma AtDrop(s: string, e: nat, pat: string, j: int)
    requires e <= |s|
    ensures 0 <= j ==> (At(s[e..], pat, j) <==> At(s, pat, e + j))
  {
    if 0 <= j && e + j + |pat| <= |s| {
      assert s[e..][j..j + |pat|] == s[e + j..e + j + |pat|];
    }
  }

  /** Appending text keeps the occurrences, and adds only ones that reach into the new text. */
  lemma AtAppend(s: string, x: string, pat: string, j: int)
    ensures j + |pat| <= |s| ==> (At(s + x, pat, j) <==> At(s, pat, j))
  {
    if 0 <= j && j + |pat| <= |s| {
      assert (s + x)[j..j + |pat|] == s[j..j + |pat|];
    }
  }

  /** The position `Index` returns is the only one with its defining property. */
  lemma IndexIs(s: string, pat: string, r: nat)
    requires At(s, pat, r) && forall j :: 0 <= j < r ==> !At(s, pat, j)
    ensures Index(s, pat) == r
  {
    assert Index(s, pat) != -1;
    assert At(s, pat, Index(s, pat));
  }

  /** Text appended after the first occurrence does not move it. */
  lemma IndexAppend(s: string, pat: string, x: string)
    requires Index(s, pat) != -1
    ensures var r := Index(s, pat);
            && Index(s + x, pat) == r
            && (s + x)[..r] == s[..r]
            && (s + x)[r + |pat|..] == s[r + |pat|..] + x
  {
    var r := Index(s, pat);
    AtAppend(s, x, pat, r);
    forall j | 0 <= j < r
      ensures !At(s + x, pat, j)
    {
      AtAppend(s, x, pat, j);
    }
    IndexIs(s + x, pat, r);
  }

  function IsSpace(c: char): bool {
    c == ' ' || c == '\t' || c == '\n' || c == '\r' || c == 11 as char || c == 12 as char
  }

  function TrimLeft(s: string): (r: string)
    ensures r == "" || !IsSpace(r[0])
    ensures |r| <= |s| && s[|s| - |r|..] == r
    ensures s == "" || !IsSpace(s[0]) ==> r == s
  {
    if s != "" && IsSpace(s[0]) then TrimLeft(s[1..]) else s
  }

  function TrimRight(s: string): (r: string)
    ensures r == "" || !IsSpace(r[|r| - 1])
    ensures r <= s
    ensures s == "" || !IsSpace(s[|s| - 1]) ==> r == s
  {
    if s != "" && IsSpace(s[|s| - 1]) then TrimRight(s[..|s| - 1]) else s
  }

  /** `strings.TrimSpace` on ASCII white space. */
  function TrimSpace(s: string): (r: string)
    ensures |r| <= |s|
    ensures r == "" || (!IsSpace(r[0]) && !IsSpace(r[|r| - 1]))
    ensures s == "" || (!IsSpace(s[0]) && !IsSpace(s[|s| - 1])) ==> r == s
  {
    TrimRight(TrimLeft(s))
  }

  /** `strings.Join`. */
  function Join(parts: seq<string>, sep: string): string {
    if |parts| == 0 then ""
    else if |parts| == 1 then parts[0]
    else parts[0] + sep + Join(parts[1..], sep)
  }

  function Concat(parts: seq<string>): string {
    if parts == [] then "" else parts[0] + Concat(parts[1..])
  }

  lemma {:induction false} ConcatSnoc(parts: seq<string>, x: string)
    ensures Concat(parts + [x]) == Concat(parts) + x
  {
    if parts == [] {
      assert Concat([x]) == x + Concat([]);
    } else {
      assert (parts + [x])[1..] == parts[1..] + [x];
      ConcatSnoc(parts[1..], x);
    }
  }
}
