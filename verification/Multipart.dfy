/** The upload parser: multipart bodies (RFC 7578 section 4, boundaries as in RFC 2046 section 5.1.1) to files. */
module Multipart {
  import opened Options
  import opened Text
  import opened Lines
  import opened Utf8

  type Bytes = seq<Byte>

  const CRLF: Bytes := [13, 10]
  const LF: Bytes := [10]
  const DASHES: Bytes := [45, 45]

  // ----- The boundary -----

  function LowerChar(c: char): char {
    if 'A' <= c <= 'Z' then (c as int + 32) as char else c
  }

  /** Does the text start with `word`, whatever the case? `word` is in lower case. */
  predicate StartsWith(s: string, word: string) {
    |word| <= |s| && forall i :: 0 <= i < |word| ==> LowerChar(s[i]) == word[i]
  }

  predicate ContainsWord(s: string, word: string) {
    exists i :: 0 <= i <= |s| && StartsWith(s[i..], word)
  }

  function Unquoted(raw: string): string {
    if |raw| >= 2 && raw[0] == '"' && raw[|raw| - 1] == '"' then raw[1..|raw| - 1] else raw
  }

  const FORM_DATA := "multipart/form-data"
  const BOUNDARY := "boundary="

  function BoundaryIn(segments: seq<string>): Option<string> {
    if segments == [] then None
    else
      var segment := Strip(segments[0]);
      if StartsWith(segment, BOUNDARY) then Some(Unquoted(Strip(segment[|BOUNDARY|..]))) else BoundaryIn(segments[1..])
  }

  /** `_parse_boundary`; `None` stands for the two errors. */
  function ParseBoundary(contentType: Option<string>): Option<Bytes> {
    if contentType.None? || !ContainsWord(contentType.value, FORM_DATA) then None
    else
      var b := BoundaryIn(SplitAt(contentType.value, ';')[1..]);
      if b.Some? then Some(Encode(b.value)) else None
  }

  // ----- One header line -----

  /** The class `\w`: ASCII letters, digits and the underscore, and whatever else `letter` says. */
  predicate IsWord(letter: char -> bool, c: char) {
    'a' <= LowerChar(c) <= 'z' || '0' <= c <= '9' || c == '_' || (c as int >= 0x80 && letter(c))
  }

  /** The boundary `\b` before a letter. */
  predicate WordStarts(letter: char -> bool, line: string, p: nat)
    requires p <= |line|
  {
    p == 0 || !IsWord(letter, line[p - 1])
  }

  /** `_FIELD_NAME_RE` at one position. */
  function NameAt(letter: char -> bool, line: string, p: nat): Option<string>
    requires p <= |line|
  {
    if WordStarts(letter, line, p) && StartsWith(line[p..], "name=\"") then
      var rest := line[p + 6..];
      var end := Find(rest, "\"");
      if end.Some? then Some(rest[..end.value]) else None
    else None
  }

  /** Where a quoted string ends: at the first quote that no backslash escapes. */
  function QuotedEnd(s: string): (r: Option<nat>)
    ensures r.Some? ==> r.value < |s|
  {
    if s == "" then None
    else if s[0] == '"' then Some(0)
    else if s[0] == '\\' then
      if |s| < 2 || s[1] == '\n' then None
      else match QuotedEnd(s[2..]) case Some(n) => Some(n + 2) case None => None
    else match QuotedEnd(s[1..]) case Some(n) => Some(n + 1) case None => None
  }

  /** `_FIELD_FILENAME_QUOTED_RE` at one position. */
  function QuotedAt(letter: char -> bool, line: string, p: nat): Option<string>
    requires p <= |line|
  {
    if WordStarts(letter, line, p) && StartsWith(line[p..], "filename=\"") then
      var rest := line[p + 10..];
      var end := QuotedEnd(rest);
      if end.Some? then Some(rest[..end.value]) else None
    else None
  }

  /** `_FIELD_FILENAME_BARE_RE` at one position. */
  function BareAt(letter: char -> bool, line: string, p: nat): Option<string>
    requires p <= |line|
  {
    if WordStarts(letter, line, p) && StartsWith(line[p..], "filename=") then
      var rest := line[p + 9..];
      var n := LeadingWhile(rest, (c: char) => c != ';' && !IsSpace(c));
      if n > 0 then Some(rest[..n]) else None
    else None
  }

  datatype Pattern = Name | QuotedFilename | BareFilename

  function MatchAt(pattern: Pattern, letter: char -> bool, line: string, p: nat): Option<string>
    requires p <= |line|
  {
    match pattern
    case Name => NameAt(letter, line, p)
    case QuotedFilename => QuotedAt(letter, line, p)
    case BareFilename => BareAt(letter, line, p)
  }

  /** `re.search`: the leftmost match, from `p` on. */
  function Search(pattern: Pattern, letter: char -> bool, line: string, p: nat): Option<string>
    requires p <= |line|
    decreases |line| - p
  {
    var m := MatchAt(pattern, letter, line, p);
    if m.Some? || p == |line| then m else Search(pattern, letter, line, p + 1)
  }

  /** `_filename_from_disposition`. */
  function FilenameOf(letter: char -> bool, line: string): Option<string> {
    var quoted := Search(QuotedFilename, letter, line, 0);
    if quoted.Some? then quoted
    else
      var bare := Search(BareFilename, letter, line, 0);
      if bare.None? then None
      else
        var value := Strip(bare.value);
        if value != "" && value[0] == '"' && value[|value| - 1] == '"' then Some(if |value| < 2 then "" else value[1..|value| - 1])
        else Some(value)
  }

  datatype Fields = Fields(name: Option<string>, filename: Option<string>)

  const DISPOSITION := "content-disposition:"

  function FromLine(letter: char -> bool, line: string, before: Fields): Fields {
    if !StartsWith(line[Leading(line)..], DISPOSITION) then before
    else
      var name, filename := Search(Name, letter, line, 0), FilenameOf(letter, line);
      Fields(if name.Some? then name else before.name, if filename.Some? then filename else before.filename)
  }

  /** `_parse_content_disposition_headers` on lines: later lines win. */
  function FromLines(letter: char -> bool, lines: seq<string>): Fields {
    if lines == [] then Fields(None, None)
    else FromLine(letter, lines[|lines| - 1], FromLines(letter, lines[..|lines| - 1]))
  }

  function WithoutBreak(line: string): string {
    var n := |line|;
    if n >= 2 && line[n - 2] == '\r' && line[n - 1] == '\n' then line[..n - 2]
    else if n >= 1 && IsLineBreak(line[n - 1]) then line[..n - 1]
    else line
  }

  /** `text.splitlines()`. */
  function BareLines(text: string): seq<string> {
    Bare(SplitLines(text))
  }

  function Bare(lines: seq<string>): seq<string> {
    if lines == [] then [] else [WithoutBreak(lines[0])] + Bare(lines[1..])
  }

  // ----- One part -----

  datatype File = File(name: string, content: Bytes)

  function WithoutFirstBreak(part: Bytes): Bytes {
    if CRLF <= part then part[2..] else if LF <= part then part[1..] else part
  }

  function WithoutLastBreak(payload: Bytes): Bytes {
    var n := |payload|;
    if n >= 2 && payload[n - 2..] == CRLF then payload[..n - 2]
    else if n >= 1 && payload[n - 1..] == LF then payload[..n - 1]
    else payload
  }

  datatype Split = Split(header: Bytes, payload: Bytes)

  /** Header and payload, at the first empty line; CR LF is tried before LF. */
  function SplitPart(chunk: Bytes): Option<Split> {
    var at := Find(chunk, CRLF + CRLF);
    if at.Some? then Some(Split(chunk[..at.value], chunk[at.value + 4..]))
    else
      var at := Find(chunk, LF + LF);
      if at.Some? then Some(Split(chunk[..at.value], chunk[at.value + 2..])) else None
  }

  /** What one part between delimiters contributes. */
  function PartFile(letter: char -> bool, part: Bytes): Option<File> {
    var chunk := WithoutFirstBreak(part);
    if part == [] || DASHES <= chunk then None
    else
      var split := SplitPart(chunk);
      if split.None? || Decode(split.value.header).None? then None
      else
        var fields := FromLines(letter, BareLines(Decode(split.value.header).value));
        if fields.name != Some("files") && fields.name != Some("file") then None
        else if fields.filename.None? || fields.filename.value == "" then None
        else Some(File(fields.filename.value, WithoutLastBreak(split.value.payload)))
  }

  /** `body.split(delimiter)`. */
  function SplitBytes(body: Bytes, delimiter: Bytes): seq<Bytes>
    requires delimiter != []
    decreases |body|
  {
    var at := Find(body, delimiter);
    if at.None? then [body] else [body[..at.value]] + SplitBytes(body[at.value + |delimiter|..], delimiter)
  }

  function FilesOf(letter: char -> bool, parts: seq<Bytes>): seq<File> {
    if parts == [] then []
    else
      var init, last := FilesOf(letter, parts[..|parts| - 1]), PartFile(letter, parts[|parts| - 1]);
      if last.Some? then init + [last.value] else init
  }

  function Files(letter: char -> bool, body: Bytes, contentType: Option<string>): Option<seq<File>> {
    var boundary := ParseBoundary(contentType);
    if boundary.None? then None else Some(FilesOf(letter, SplitBytes(body, DASHES + boundary.value)))
  }

  // ----- The loops -----

  /** `_parse_content_disposition_headers`. */
  method ParseContentDispositionHeaders(letter: char -> bool, headerBlob: string) returns (name: Option<string>, filename: Option<string>)
    ensures Fields(name, filename) == FromLines(letter, BareLines(headerBlob))
  {
    var lines := BareLines(headerBlob);
    name, filename := None, None;
    var i := 0;
    while i < |lines|
      invariant 0 <= i <= |lines|
      invariant Fields(name, filename) == FromLines(letter, lines[..i])
    {
      assert lines[..i + 1][..i] == lines[..i];
      var line := lines[i];
      i := i + 1;
      if !StartsWith(line[Leading(line)..], DISPOSITION) {
        continue;
      }
      var found := Search(Name, letter, line, 0);
      if found.Some? {
        name := found;
      }
      var given := FilenameOf(letter, line);
      if given.Some? {
        filename := given;
      }
    }
    assert lines[..i] == lines;
  }

  /** One round of the loop: the file in a part, if there is one. */
  method ParsePart(letter: char -> bool, part: Bytes) returns (file: Option<File>)
    ensures file == PartFile(letter, part)
  {
    hide FromLines, BareLines, WithoutFirstBreak, WithoutLastBreak, SplitPart;
    if part == [] {
      return None;
    }
    var chunk := WithoutFirstBreak(part);
    if DASHES <= chunk {
      return None;
    }
    var split := SplitPart(chunk);
    if split.None? {
      return None;
    }
    var text := Decode(split.value.header);
    if text.None? {
      return None;
    }
    var name, filename := ParseContentDispositionHeaders(letter, text.value);
    if name != Some("files") && name != Some("file") {
      return None;
    }
    if filename.None? || filename.value == "" {
      return None;
    }
    return Some(File(filename.value, WithoutLastBreak(split.value.payload)));
  }

  /** `parse_multipart_file_parts`; `None` stands for its errors. */
  method ParseMultipartFileParts(letter: char -> bool, body: Bytes, contentType: Option<string>) returns (out: Option<seq<File>>)
    ensures out == Files(letter, body, contentType)
  {
    var boundary := ParseBoundary(contentType);
    if boundary.None? {
      return None;
    }
    var parts := SplitBytes(body, DASHES + boundary.value);
    var files: seq<File> := [];
    var i := 0;
    while i < |parts|
      invariant 0 <= i <= |parts|
      invariant files == FilesOf(letter, parts[..i])
    {
      assert parts[..i + 1][..i] == parts[..i];
      var file := ParsePart(letter, parts[i]);
      if file.Some? {
        files := files + [file.value];
      }
      i := i + 1;
    }
    assert parts[..i] == parts;
    return Some(files);
  }
}
