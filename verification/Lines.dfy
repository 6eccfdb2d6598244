/** Lines of a text, and the small recognisers behind the fence and heading patterns. */
module Lines {
  import opened Options
  import opened Text

  /** The characters at which `str.splitlines` ends a line. */
  predicate IsLineBreak(c: char) {
    || '\n' <= c <= '\r'
    || '\U{1C}' <= c <= '\U{1E}'
    || c == '\U{85}' || c == '\U{2028}' || c == '\U{2029}'
  }

  /** Length of the first line, terminator included. */
  function FirstLine(s: string): (n: nat)
    ensures n <= |s|
    ensures s != "" ==> n > 0
  {
    if s == "" then 0
    else if s[0] == '\r' && |s| > 1 && s[1] == '\n' then 2
    else if IsLineBreak(s[0]) then 1
    else 1 + FirstLine(s[1..])
  }

  /** `text.splitlines(keepends=True)`. */
  function SplitLines(s: string): seq<string> {
    if s == "" then [] else [s[..FirstLine(s)]] + SplitLines(s[FirstLine(s)..])
  }

  predicate NoBreaks(s: string) {
    forall i :: 0 <= i < |s| ==> !IsLineBreak(s[i])
  }

  /** A line ends at its first terminator, or with the text. */
  lemma {:induction false} FirstLineEnds(line: string, rest: string)
    requires NoBreaks(line)
    ensures FirstLine(line) == |line|
    ensures FirstLine(line + "\n" + rest) == |line| + 1
    ensures FirstLine(line + "\r\n" + rest) == |line| + 2
    decreases |line|
  {
    if line != "" {
      FirstLineEnds(line[1..], rest);
      var a, b := line + "\n" + rest, line + "\r\n" + rest;
      assert a[0] == line[0] && a[1..] == line[1..] + "\n" + rest;
      assert b[0] == line[0] && b[1..] == line[1..] + "\r\n" + rest;
      assert !IsLineBreak(line[0]);
    }
  }

  lemma {:induction false} SplitLinesConcat(s: string)
    ensures Concat(SplitLines(s)) == s
    ensures forall l :: l in SplitLines(s) ==> l != ""
    decreases |s|
  {
    if s != "" {
      var n := FirstLine(s);
      SplitLinesConcat(s[n..]);
      assert s == s[..n] + s[n..];
    }
  }

  function LeadingWhile(s: string, p: char -> bool): (n: nat)
    ensures n <= |s|
    ensures forall i :: 0 <= i < n ==> p(s[i])
    ensures n < |s| ==> !p(s[n])
  {
    if s != "" && p(s[0]) then 1 + LeadingWhile(s[1..], p) else 0
  }

  /** The string without its longest suffix of such characters, `s.rstrip(chars)`. */
  function DropTrailing(s: string, p: char -> bool): (r: string)
    ensures r <= s
    ensures r != "" ==> !p(r[|r| - 1])
    ensures forall i :: |r| <= i < |s| ==> p(s[i])
  {
    if s != "" && p(s[|s| - 1]) then DropTrailing(s[..|s| - 1], p) else s
  }

  predicate IsBlank(c: char) {
    c == ' ' || c == '\t'
  }

  /** `line.rstrip("\n\r")`. */
  function WithoutNewline(line: string): (r: string)
    ensures r <= line
  {
    DropTrailing(line, (c: char) => c == '\n' || c == '\r')
  }

  datatype Marker = Marker(ch: char, size: nat)

  /** A run of three or more backticks or tildes at the start of `s`. */
  function FenceRun(s: string): Option<Marker> {
    if s != "" && (s[0] == '`' || s[0] == '~') then
      var n := LeadingWhile(s, (c: char) => c == s[0]);
      if n >= 3 then Some(Marker(s[0], n)) else None
    else None
  }
}
