/**
 The one-shot redaction of server paths (`Text` in `internal/sanitize/sanitize.go`).

 Each regular expression is modelled by the length of its match at the start of a text;
 `Replace` is `ReplaceAllString`, leftmost match first, and `Text` the seven passes in order.
 */
module SanitizeText {
  import opened GoStrings

  const LiteralCount := 5

  /** `sensitiveLiterals`. */
  function Literal(l: nat): string
    requires l < LiteralCount
  {
    if l == 0 then "/tmp/windsurf-workspace"
    else if l == 1 then "/home/user/projects/workspace-"
    else if l == 2 then "\\home\\user\\projects\\workspace-"
    else if l == 3 then "/opt/windsurf"
    else "/root/WindsurfAPI"
  }

  const TagCount := 3

  function TagName(k: nat): string
    requires k < TagCount
  {
    if k == 0 then "workspace_information" else if k == 1 then "workspace_layout" else "user_information"
  }

  function OpenTag(k: nat): string
    requires k < TagCount
  {
    "<" + TagName(k) + ">"
  }

  function CloseTag(k: nat): string
    requires k < TagCount
  {
    "</" + TagName(k) + ">"
  }

  /** `isPathBody`. */
  predicate IsPathBody(c: char) {
    match c
    case ' ' | '\t' | '\n' | '\r' | '\"' | '\'' | '`' | '<' | '>' | ')' | '}' | ']' | ',' | '*' | ';' => false
    case _ => true
  }

  /** The negated class of the patterns; `\s` also covers the form feed. */
  predicate InPathClass(c: char) {
    IsPathBody(c) && c != 12 as char
  }

  predicate IsSep(c: char) {
    c == '/' || c == '\\'
  }

  /** The length of the longest run of characters of the class at the start of `s`. */
  function RunLength(s: string): (n: nat)
    ensures n <= |s| && forall k :: 0 <= k < n ==> InPathClass(s[k])
    ensures n < |s| ==> !InPathClass(s[n])
  {
    if s != "" && InPathClass(s[0]) then 1 + RunLength(s[1..]) else 0
  }

  /** The optional path behind a prefix. */
  function TailLength(s: string): (n: nat)
    ensures n <= |s| && forall k :: 0 <= k < n ==> InPathClass(s[k])
  {
    if s != "" && IsSep(s[0]) then 1 + RunLength(s[1..]) else 0
  }

  function LiteralLength(lit: string, s: string): nat {
    if lit <= s then |lit| + TailLength(s[|lit|..]) else 0
  }

  predicate IsLetter(c: char) {
    'a' <= c <= 'z' || 'A' <= c <= 'Z'
  }

  predicate IsNameChar(c: char) {
    'a' <= c <= 'z' || '0' <= c <= '9'
  }

  function NameLength(s: string): (n: nat)
    ensures n <= |s| && forall k :: 0 <= k < n ==> IsNameChar(s[k])
  {
    if s != "" && IsNameChar(s[0]) then 1 + NameLength(s[1..]) else 0
  }

  /** A separator of either kind, then `word`. */
  predicate SepWord(s: string, word: string) {
    s != "" && IsSep(s[0]) && word <= s[1..]
  }

  /** The length of `/home/user/projects/workspace-`. */
  const HomeWidth := 30

  /** The workspace directory of the second pattern, up to the hyphen, with any separators. */
  predicate HomeDir(s: string) {
    && SepWord(s, "home")
    && SepWord(s[5..], "user")
    && SepWord(s[10..], "projects")
    && SepWord(s[19..], "workspace-")
  }

  predicate HasDrive(s: string) {
    |s| >= 2 && IsLetter(s[0]) && s[1] == ':'
  }

  /** The name behind the hyphen and its optional path; 0 if there is no name. */
  function HomeTail(s: string): (n: nat)
    ensures n <= |s| && forall k :: 0 <= k < n ==> InPathClass(s[k])
  {
    var n := NameLength(s);
    if n == 0 then 0 else n + TailLength(s[n..])
  }

  function HomeLength(s: string): (n: nat)
    ensures n <= |s|
  {
    var d := if HasDrive(s) then 2 else 0;
    if HomeDir(s[d..]) then
      var n := HomeTail(s[d..][HomeWidth..]);
      if n == 0 then 0 else d + HomeWidth + n
    else 0
  }

  /** From an opening tag through the first closing tag behind it. */
  function BlockLength(open: string, close: string, s: string): nat {
    if open <= s then
      var i := Index(s[|open|..], close);
      if i == -1 then 0 else |open| + i + |close|
    else 0
  }

  /** The length of the match of pattern `p` at the start of `s`; 0 if there is none. */
  function MatchLength(p: nat, s: string): (n: nat)
    requires p < 7
    ensures n <= |s|
  {
    if p == 0 then LiteralLength(Literal(0), s)
    else if p == 1 then HomeLength(s)
    else if p <= 3 then LiteralLength(Literal(p + 1), s)
    else BlockLength(OpenTag(p - 4), CloseTag(p - 4), s)
  }

  function Replacement(p: nat): string {
    if p <= 1 then "<workspace>" else if p <= 3 then "[internal]" else ""
  }

  /** How far the scan moves from the start of `s`: over the match, or over one character. */
  function Skip(p: nat, s: string): (n: nat)
    requires p < 7 && s != ""
    ensures 1 <= n <= |s|
  {
    if MatchLength(p, s) > 0 then MatchLength(p, s) else 1
  }

  /** What the scan writes for it. */
  function Piece(p: nat, s: string): string
    requires p < 7 && s != ""
  {
    if MatchLength(p, s) > 0 then Replacement(p) else [s[0]]
  }

  function Replace(p: nat, s: string): string
    requires p < 7
    decreases |s|
  {
    if s == "" then "" else Piece(p, s) + Replace(p, s[Skip(p, s)..])
  }

  function Passes(p: nat, s: string): string
    requires p <= 7
    decreases 7 - p
  {
    if p == 7 then s else Passes(p + 1, Replace(p, s))
  }

  function Text(s: string): string {
    Passes(0, s)
  }
}
