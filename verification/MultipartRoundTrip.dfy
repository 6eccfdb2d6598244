/** What the upload parser reads back from a body written the way browsers write it. */
module MultipartRoundTrip {
  import opened Options
  import opened Text
  import opened Lines
  import opened Utf8
  import opened Multipart

  // ----- Writing -----

  /** How a part names its file: not at all, as a form's text fields do, in quotes, or bare. */
  datatype Naming = Unnamed | Quoted(name: string) | Plain(name: string)

  /** A part of a form; `unix` says that its lines end in LF alone. */
  datatype Upload = Upload(field: string, naming: Naming, mime: Option<string>, content: Bytes, unix: bool)

  const OPENING := "Content-Disposition: form-data; "

  function UpToField(field: string): string {
    OPENING + ("name=\"" + (field + "\""))
  }

  function Disposition(u: Upload): string {
    match u.naming
    case Unnamed => UpToField(u.field)
    case Quoted(name) => UpToField(u.field) + "; " + ("filename=\"" + (name + "\""))
    case Plain(name) => UpToField(u.field) + "; " + ("filename=" + name)
  }

  function TypeLine(mime: string): string {
    "Content-Type: " + mime
  }

  function LineEnd(u: Upload): string {
    if u.unix then "\n" else "\r\n"
  }

  function EndBytes(u: Upload): Bytes {
    if u.unix then LF else CRLF
  }

  function Header(u: Upload): string {
    Disposition(u) + if u.mime.Some? then LineEnd(u) + TypeLine(u.mime.value) else ""
  }

  /** Header, empty line, content and the line end before the next delimiter. */
  function Chunk(u: Upload): Bytes {
    Encode(Header(u)) + (EndBytes(u) + EndBytes(u) + (u.content + EndBytes(u)))
  }

  /** Everything from one delimiter to the next. */
  function PartBytes(u: Upload): Bytes {
    EndBytes(u) + Chunk(u)
  }

  /** What follows a delimiter: the remaining parts, each with its delimiter, and the closing dashes. */
  function AfterDelimiter(us: seq<Upload>, delimiter: Bytes): Bytes {
    if us == [] then DASHES + CRLF
    else PartBytes(us[0]) + delimiter + AfterDelimiter(us[1..], delimiter)
  }

  function Render(us: seq<Upload>, delimiter: Bytes): Bytes {
    delimiter + AfterDelimiter(us, delimiter)
  }

  /** The name may stand between quotes as it is: a backslash takes the next character with it, and no other quote occurs. */
  predicate Quotable(name: string) {
    if name == "" then true
    else if name[0] == '"' then false
    else if name[0] == '\\' then |name| >= 2 && name[1] != '\n' && Quotable(name[2..])
    else Quotable(name[1..])
  }

  /** The name may stand without quotes: no whitespace, no semicolon, no quote. */
  predicate Bareable(name: string) {
    name != "" && forall i :: 0 <= i < |name| ==> !IsSpace(name[i]) && name[i] != ';' && name[i] != '"'
  }

  /**
    Single-line headers with names that can be written as they are. Where lines end in LF alone, the parser would
    take a CR LF CR LF for the end of the header, and a CR at the end of the content for part of the line end.
   */
  predicate Clean(u: Upload) {
    && NoBreaks(u.field) && '"' !in u.field && '=' !in u.field
    && (u.naming.Quoted? ==> NoBreaks(u.naming.name) && (Quotable(u.naming.name) || Bareable(u.naming.name)))
    && (u.naming.Plain? ==> NoBreaks(u.naming.name) && Bareable(u.naming.name))
    && (u.mime.Some? ==> NoBreaks(u.mime.value))
    && (u.unix ==> Find(Chunk(u), CRLF + CRLF) == None && (u.content == [] || u.content[|u.content| - 1] != 13))
  }

  /** The delimiter does not occur in the part, nor overlap its end. */
  predicate Delimits(delimiter: Bytes, u: Upload) {
    Find(PartBytes(u) + delimiter, delimiter) == Some(|PartBytes(u)|)
  }

  // ----- Between the delimiters -----

  lemma FindStops(p: Bytes, delimiter: Bytes, rest: Bytes)
    requires Find(p + delimiter, delimiter) == Some(|p|)
    ensures Find(p + delimiter + rest, delimiter) == Some(|p|)
  {
    var short, long := p + delimiter, p + delimiter + rest;
    FindIsLeftmost(short, delimiter);
    forall m: nat | m < |p| ensures !OccursAt(long, delimiter, m) {
      assert long[m..m + |delimiter|] == short[m..m + |delimiter|];
      assert !OccursAt(short, delimiter, m);
    }
    assert long[|p|..|p| + |delimiter|] == delimiter;
    FindIsUnique(long, delimiter, |p|);
  }

  function Parts(us: seq<Upload>): seq<Bytes> {
    if us == [] then [DASHES + CRLF] else [PartBytes(us[0])] + Parts(us[1..])
  }

  lemma {:induction false} SplitAfterDelimiter(us: seq<Upload>, delimiter: Bytes)
    requires delimiter != [] && Find(DASHES + CRLF, delimiter) == None
    requires forall i :: 0 <= i < |us| ==> Delimits(delimiter, us[i])
    ensures SplitBytes(AfterDelimiter(us, delimiter), delimiter) == Parts(us)
    decreases |us|
  {
    hide PartBytes, Find;
    if us != [] {
      var p, rest := PartBytes(us[0]), AfterDelimiter(us[1..], delimiter);
      assert Delimits(delimiter, us[0]);
      FindStops(p, delimiter, rest);
      SplitAfterDelimiter(us[1..], delimiter);
      var all := p + delimiter + rest;
      assert all[..|p|] == p && all[|p| + |delimiter|..] == rest;
    }
  }

  lemma {:induction false} SplitOfRender(us: seq<Upload>, delimiter: Bytes)
    requires delimiter != [] && Find(DASHES + CRLF, delimiter) == None
    requires forall i :: 0 <= i < |us| ==> Delimits(delimiter, us[i])
    ensures SplitBytes(Render(us, delimiter), delimiter) == [[]] + Parts(us)
  {
    SplitAfterDelimiter(us, delimiter);
    var body := Render(us, delimiter);
    hide AfterDelimiter;
    assert delimiter <= body;
    assert body[..0] == [] && body[0 + |delimiter|..] == AfterDelimiter(us, delimiter);
  }

  // ----- The header's lines -----

  lemma OneLine(a: string)
    requires NoBreaks(a) && a != ""
    ensures SplitLines(a) == [a] && BareLines(a) == [a]
  {
    FirstLineEnds(a, "");
    assert a[..|a|] == a && a[|a|..] == "";
    assert SplitLines(a) == [a[..|a|]] + SplitLines(a[|a|..]);
    assert SplitLines("") == [];
    assert !IsLineBreak(a[|a| - 1]);
    assert WithoutBreak(a) == a;
    assert [a][1..] == [] && Bare([a]) == [a];
  }

  lemma HeaderHasTwoLines(a: string, b: string, unix: bool)
    requires NoBreaks(a) && NoBreaks(b) && b != ""
    ensures BareLines(a + (if unix then "\n" else "\r\n") + b) == [a, b]
  {
    var end := if unix then "\n" else "\r\n";
    var text := a + end + b;
    FirstLineEnds(a, b);
    OneLine(b);
    assert text[..|a| + |end|] == a + end && text[|a| + |end|..] == b;
    assert SplitLines(text) == [text[..|a| + |end|]] + SplitLines(text[|a| + |end|..]);
    assert SplitLines(text) == [a + end, b];
    BreakGoes(a, unix);
    assert [a + end, b][1..] == [b] && [b][1..] == [];
    assert Bare([b]) == [b];
  }

  lemma BreakGoes(a: string, unix: bool)
    requires NoBreaks(a)
    ensures WithoutBreak(a + (if unix then "\n" else "\r\n")) == a
  {
    var line := a + if unix then "\n" else "\r\n";
    assert line[..|a|] == a;
    assert a != "" ==> !IsLineBreak(a[|a| - 1]);
  }

  // ----- The fields -----

  lemma {:induction false} SearchFinds(pattern: Pattern, letter: char -> bool, line: string, p: nat, q: nat)
    requires p <= q <= |line|
    requires forall m: nat :: p <= m < q ==> MatchAt(pattern, letter, line, m) == None
    requires MatchAt(pattern, letter, line, q).Some?
    ensures Search(pattern, letter, line, p) == MatchAt(pattern, letter, line, q)
    decreases q - p
  {
    if p < q {
      assert MatchAt(pattern, letter, line, p) == None;
      SearchFinds(pattern, letter, line, p + 1, q);
    }
  }

  lemma {:induction false} SearchFails(pattern: Pattern, letter: char -> bool, line: string, p: nat)
    requires p <= |line| && forall m: nat :: p <= m <= |line| ==> MatchAt(pattern, letter, line, m) == None
    ensures Search(pattern, letter, line, p) == None
    decreases |line| - p
  {
    assert MatchAt(pattern, letter, line, p) == None;
    if p < |line| {
      SearchFails(pattern, letter, line, p + 1);
    }
  }

  /** No `name` begins in the opening of the line. */
  lemma NoNameInOpening(p: nat)
    requires p < |OPENING|
    ensures LowerChar(OPENING[p]) == 'n' ==> p + 1 < |OPENING| && LowerChar(OPENING[p + 1]) != 'a'
  {
  }

  /** A word does not start where its first letter or its `k`-th one differs. */
  lemma NoWordHere(line: string, m: nat, word: string, k: nat)
    requires m < |line| && 0 < k < |word|
    requires LowerChar(line[m]) == word[0] ==> m + k >= |line| || LowerChar(line[m + k]) != word[k]
    ensures !StartsWith(line[m..], word)
  {
    var rest := line[m..];
    assert forall i :: 0 <= i < |rest| ==> rest[i] == line[m + i];
  }

  lemma WordDiffers(line: string, m: nat, word: string, k: nat)
    requires m <= |line| && k < |word| && (m + k < |line| ==> LowerChar(line[m + k]) != word[k])
    ensures !StartsWith(line[m..], word)
  {
    assert m + k < |line| ==> line[m..][k] == line[m + k];
  }

  lemma NoNameBefore(letter: char -> bool, line: string, m: nat)
    requires OPENING <= line && m < |OPENING| < |line|
    ensures NameAt(letter, line, m) == None
  {
    NoNameInOpening(m);
    assert line[m] == OPENING[m] && (m + 1 < |OPENING| ==> line[m + 1] == OPENING[m + 1]);
    NoWordHere(line, m, "name=\"", 1);
  }

  lemma NameAfterOpening(letter: char -> bool, line: string, field: string, rest: string)
    requires '"' !in field && field + "\"" <= rest
    requires OPENING <= line && line[|OPENING|..] == "name=\"" + rest
    ensures NameAt(letter, line, |OPENING|) == Some(field)
  {
    var q := |OPENING|;
    assert line[q - 1] == OPENING[q - 1] == ' ';
    assert line[q + 6..] == line[q..][6..] == rest;
    FieldIsQuoted(field, rest);
    assert rest[..|field|] == field;
  }

  lemma FieldIsQuoted(field: string, rest: string)
    requires '"' !in field && field + "\"" <= rest
    ensures Find(rest, "\"") == Some(|field|)
  {
    forall m: nat | m < |field| ensures !OccursAt(rest, "\"", m) {
      assert rest[m] == field[m];
      assert rest[m..m + 1][0] == rest[m];
    }
    assert rest[|field|..|field| + 1] == "\"";
    FindIsUnique(rest, "\"", |field|);
  }

  /** What comes after the field's closing quote. */
  function Tail(n: Naming): string {
    match n
    case Unnamed => ""
    case Quoted(name) => "; " + ("filename=\"" + (name + "\""))
    case Plain(name) => "; " + ("filename=" + name)
  }

  lemma DispositionParts(u: Upload)
    ensures Disposition(u) == OPENING + ("name=\"" + ((u.field + "\"") + Tail(u.naming)))
    ensures Disposition(u) == UpToField(u.field) + Tail(u.naming)
  {
    AppendAssoc(OPENING, "name=\"" + (u.field + "\""), Tail(u.naming));
    AppendAssoc("name=\"", u.field + "\"", Tail(u.naming));
  }

  lemma NameIsFound(letter: char -> bool, u: Upload)
    requires Clean(u)
    ensures Search(Name, letter, Disposition(u), 0) == Some(u.field)
  {
    var line, q := Disposition(u), |OPENING|;
    var rest := (u.field + "\"") + Tail(u.naming);
    DispositionParts(u);
    hide NameAt, Disposition, Search, Clean;
    assert '"' !in u.field by { FieldIsClean(u); }
    assert line[q..] == "name=\"" + rest;
    NameAfterOpening(letter, line, u.field, rest);
    forall m: nat | 0 <= m < q ensures MatchAt(Name, letter, line, m) == None {
      NoNameBefore(letter, line, m);
    }
    SearchFinds(Name, letter, line, 0, q);
  }

  lemma FieldIsClean(u: Upload)
    requires Clean(u)
    ensures '"' !in u.field && '=' !in u.field && NoBreaks(u.field)
  {
  }

  /** The only `=` up to the field's closing quote is the one after `name`. */
  lemma OneEquals(field: string, k: nat)
    requires '=' !in field && k < |UpToField(field)| && k != |OPENING| + 4
    ensures UpToField(field)[k] != '='
  {
    assert forall i :: 0 <= i < |OPENING| ==> OPENING[i] != '=';
    var word := "name=\"";
    if k >= |OPENING| + 6 {
      assert UpToField(field)[k] == (field + "\"")[k - |OPENING| - 6];
    } else if k >= |OPENING| {
      assert UpToField(field)[k] == word[k - |OPENING|];
    }
  }

  const FILENAME := "filename="

  lemma FilenameHasNoGap(k: nat)
    requires k < |FILENAME|
    ensures FILENAME[k] != ' ' && FILENAME[k] != ';' && FILENAME[8] == '=' && FILENAME[3] == 'e'
  {
  }

  lemma NoFilenameAcross(line: string, m: nat, at: nat)
    requires m <= at < m + 9 && at < |line| && (line[at] == ' ' || line[at] == ';')
    ensures !StartsWith(line[m..], FILENAME)
  {
    FilenameHasNoGap(at - m);
    WordDiffers(line, m, FILENAME, at - m);
  }

  lemma OpeningEndsBlank(field: string)
    ensures |OPENING| <= |UpToField(field)| && UpToField(field)[|OPENING| - 1] == ' '
  {
  }

  /** A `filename=` that ended before the field's closing quote would end at the one `=` there, and so begin before a blank. */
  lemma NoFilenameInside(field: string, line: string, m: nat)
    requires '=' !in field && UpToField(field) <= line && m + 8 < |UpToField(field)|
    ensures !StartsWith(line[m..], FILENAME)
  {
    var s := UpToField(field);
    hide UpToField;
    FilenameHasNoGap(0);
    OpeningEndsBlank(field);
    assert line[m + 8] == s[m + 8];
    if m + 8 == |OPENING| + 4 {
      assert line[|OPENING| - 1] == s[|OPENING| - 1];
      NoFilenameAcross(line, m, |OPENING| - 1);
    } else {
      OneEquals(field, m + 8);
      EqualsIsItself(line[m + 8]);
      WordDiffers(line, m, FILENAME, 8);
    }
  }

  lemma EqualsIsItself(c: char)
    ensures LowerChar(c) == '=' ==> c == '='
  {
  }

  /** No `filename=` starts before the line's own. */
  lemma {:induction false} NoFilenameHere(field: string, line: string, m: nat)
    requires '=' !in field && UpToField(field) <= line && m <= |line|
    requires line == UpToField(field) || (UpToField(field) + "; " <= line && m < |UpToField(field)| + 2)
    ensures !StartsWith(line[m..], FILENAME)
  {
    var s := UpToField(field);
    hide UpToField;
    if m + 8 < |s| {
      NoFilenameInside(field, line, m);
    } else if line != s {
      assert (s + "; ")[|s|] == ';' && (s + "; ")[|s| + 1] == ' ';
      NoFilenameAcross(line, m, if m <= |s| then |s| else |s| + 1);
    }
  }

  lemma NoMatchWithout(letter: char -> bool, line: string, m: nat)
    requires m <= |line| && !StartsWith(line[m..], FILENAME)
    ensures QuotedAt(letter, line, m) == None && BareAt(letter, line, m) == None
  {
    hide QuotedEnd;
    var rest := line[m..];
    assert FILENAME == "filename=" && forall i :: 0 <= i < 9 ==> "filename=\""[i] == FILENAME[i];
  }

  /** Exactly such names reach to the closing quote. */
  lemma {:induction false} QuotableIff(name: string)
    ensures Quotable(name) <==> QuotedEnd(name + "\"") == Some(|name|)
    decreases |name|
  {
    var quoted := name + "\"";
    if name == "" {
    } else if name[0] == '\\' {
      if |name| >= 2 {
        QuotableIff(name[2..]);
        assert quoted[1] == name[1] && quoted[2..] == name[2..] + "\"";
      } else {
        assert quoted[2..] == "";
      }
    } else {
      QuotableIff(name[1..]);
      assert quoted[0] == name[0] && quoted[1..] == name[1..] + "\"";
    }
  }

  lemma {:induction false} PlainIsQuotable(name: string)
    requires '"' !in name && '\\' !in name
    ensures Quotable(name)
    decreases |name|
  {
    if name != "" {
      PlainIsQuotable(name[1..]);
    }
  }

  lemma QuotedFilenameAfter(letter: char -> bool, line: string, q: nat, name: string)
    requires Quotable(name) && 0 < q <= |line| && line[q - 1] == ' ' && line[q..] == "filename=\"" + (name + "\"")
    ensures QuotedAt(letter, line, q) == Some(name)
  {
    assert line[q + 10..] == line[q..][10..] == name + "\"";
    QuotableIff(name);
  }

  lemma BareFilenameAfter(letter: char -> bool, line: string, q: nat, name: string)
    requires Bareable(name) && 0 < q <= |line| && line[q - 1] == ' ' && line[q..] == "filename=" + name
    ensures BareAt(letter, line, q) == Some(name)
  {
    assert line[q + 9..] == line[q..][9..] == name;
    assert name[..|name|] == name;
    assert StartsWith(line[q..], "filename=");
    assert !IsWord(letter, ' ');
  }

  /** Without a quote after it, no `filename=` is a quoted one. */
  lemma NoQuoteNoMatch(letter: char -> bool, line: string, m: nat)
    requires m <= |line| && (m + 9 < |line| ==> line[m + 9] != '"')
    ensures QuotedAt(letter, line, m) == None
  {
    QuoteIsItself();
    WordDiffers(line, m, "filename=\"", 9);
  }

  lemma QuoteIsItself()
    ensures forall c :: LowerChar(c) == '"' ==> c == '"'
  {
  }

  function NameOf(n: Naming): Option<string> {
    match n
    case Unnamed => None
    case Quoted(name) => Some(name)
    case Plain(name) => Some(name)
  }

  lemma UnnamedHasNone(letter: char -> bool, u: Upload)
    requires Clean(u) && u.naming.Unnamed?
    ensures FilenameOf(letter, Disposition(u)) == None
  {
    var line := Disposition(u);
    hide QuotedAt, BareAt, Search, UpToField, StartsWith;
    forall m: nat | m <= |line| ensures QuotedAt(letter, line, m) == None && BareAt(letter, line, m) == None {
      NoFilenameHere(u.field, line, m);
      NoMatchWithout(letter, line, m);
    }
    SearchFails(QuotedFilename, letter, line, 0);
    SearchFails(BareFilename, letter, line, 0);
  }

  lemma QuotedIsFound(letter: char -> bool, u: Upload)
    requires Clean(u) && u.naming.Quoted? && Quotable(u.naming.name)
    ensures FilenameOf(letter, Disposition(u)) == Some(u.naming.name)
  {
    var line, s := Disposition(u), UpToField(u.field) + "; ";
    assert line[|s|..] == "filename=\"" + (u.naming.name + "\"");
    hide QuotedAt, BareAt, Search, UpToField, StartsWith;
    QuotedFilenameAfter(letter, line, |s|, u.naming.name);
    forall m: nat | 0 <= m < |s| ensures MatchAt(QuotedFilename, letter, line, m) == None {
      NoFilenameHere(u.field, line, m);
      NoMatchWithout(letter, line, m);
    }
    SearchFinds(QuotedFilename, letter, line, 0, |s|);
  }

  /** Where no quote is left to close it, a quoted string has no end. */
  lemma {:induction false} QuotedEndIsQuote(s: string)
    ensures QuotedEnd(s).Some? ==> s[QuotedEnd(s).value] == '"'
    decreases |s|
  {
    if s != "" && s[0] == '\\' && |s| >= 2 {
      QuotedEndIsQuote(s[2..]);
    } else if s != "" {
      QuotedEndIsQuote(s[1..]);
    }
  }

  lemma NeverClosed(name: string)
    requires '"' !in name && !Quotable(name)
    ensures QuotedEnd(name + "\"") == None
  {
    QuotableIff(name);
    QuotedEndIsQuote(name + "\"");
  }

  lemma UnclosedAt(letter: char -> bool, line: string, q: nat, name: string, m: nat)
    requires Bareable(name) && !Quotable(name) && q <= m <= |line| && line[q..] == "filename=" + ("\"" + name + "\"")
    ensures QuotedAt(letter, line, m) == None
  {
    var rest := line[q..];
    assert forall k :: q <= k < |line| ==> line[k] == rest[k - q];
    if m == q {
      NeverClosed(name);
      assert line[q + 10..] == rest[10..] == name + "\"";
    } else if m + 9 == |line| - 1 {
      assert line[m + 10..] == "";
    } else {
      assert m + 9 < |line| ==> line[m + 9] == name[m + 9 - q - 10];
      NoQuoteNoMatch(letter, line, m);
    }
  }

  lemma QuotedBareAt(letter: char -> bool, line: string, q: nat, name: string)
    requires Bareable(name) && 0 < q <= |line| && line[q - 1] == ' ' && line[q..] == "filename=" + ("\"" + name + "\"")
    ensures BareAt(letter, line, q) == Some("\"" + name + "\"")
  {
    var value := "\"" + name + "\"";
    assert line[q + 9..] == line[q..][9..] == value;
    assert forall i :: 0 <= i < |value| ==> !IsSpace(value[i]) && value[i] != ';';
    assert value[..|value|] == value;
    assert StartsWith(line[q..], "filename=");
    assert !IsWord(letter, ' ');
  }

  /** A quoted name that ends in a lone backslash is found by the other pattern, and loses its quotes there. */
  lemma {:induction false} UnclosedIsFound(letter: char -> bool, u: Upload)
    requires Clean(u) && u.naming.Quoted? && !Quotable(u.naming.name)
    ensures FilenameOf(letter, Disposition(u)) == Some(u.naming.name)
  {
    var line, s, name := Disposition(u), UpToField(u.field) + "; ", u.naming.name;
    var value := "\"" + name + "\"";
    assert "filename=\"" + (name + "\"") == "filename=" + value;
    assert line[|s|..] == "filename=" + value;
    hide QuotedAt, BareAt, Search, UpToField, StartsWith, Quotable, Bareable;
    QuotedBareAt(letter, line, |s|, name);
    forall m: nat | 0 <= m < |s| ensures MatchAt(QuotedFilename, letter, line, m) == None && MatchAt(BareFilename, letter, line, m) == None {
      NoFilenameHere(u.field, line, m);
      NoMatchWithout(letter, line, m);
    }
    forall m: nat | |s| <= m <= |line| ensures MatchAt(QuotedFilename, letter, line, m) == None {
      UnclosedAt(letter, line, |s|, name, m);
    }
    SearchFails(QuotedFilename, letter, line, 0);
    SearchFinds(BareFilename, letter, line, 0, |s|);
    assert !IsSpace('"') && value[0] == '"' && value[|value| - 1] == '"';
    StripVisible(value);
    assert value[1..|value| - 1] == name;
  }

  lemma PlainIsFound(letter: char -> bool, u: Upload)
    requires Clean(u) && u.naming.Plain?
    ensures FilenameOf(letter, Disposition(u)) == Some(u.naming.name)
  {
    var line, s, name := Disposition(u), UpToField(u.field) + "; ", u.naming.name;
    assert line[|s|..] == "filename=" + name;
    hide QuotedAt, BareAt, Search, UpToField, StartsWith;
    BareFilenameAfter(letter, line, |s|, name);
    forall m: nat | 0 <= m < |s| ensures MatchAt(QuotedFilename, letter, line, m) == None && MatchAt(BareFilename, letter, line, m) == None {
      NoFilenameHere(u.field, line, m);
      NoMatchWithout(letter, line, m);
    }
    forall m: nat | |s| <= m <= |line| ensures MatchAt(QuotedFilename, letter, line, m) == None {
      if m + 9 < |line| {
        assert line[m + 9] == line[|s|..][m + 9 - |s|] == name[m - |s|];
      }
      NoQuoteNoMatch(letter, line, m);
    }
    SearchFails(QuotedFilename, letter, line, 0);
    SearchFinds(BareFilename, letter, line, 0, |s|);
    assert !IsSpace(name[0]) && !IsSpace(name[|name| - 1]) && name[0] != '"';
    StripVisible(name);
  }

  lemma FilenameIsFound(letter: char -> bool, u: Upload)
    requires Clean(u)
    ensures FilenameOf(letter, Disposition(u)) == NameOf(u.naming)
  {
    hide Clean, FilenameOf, Disposition;
    match u.naming
    case Unnamed => UnnamedHasNone(letter, u);
    case Quoted(name) => if Quotable(name) { QuotedIsFound(letter, u); } else { UnclosedIsFound(letter, u); }
    case Plain(_) => PlainIsFound(letter, u);
  }

  lemma StripVisible(s: string)
    requires s != "" && !IsSpace(s[0]) && !IsSpace(s[|s| - 1])
    ensures Strip(s) == s
  {
    StripsTo(s, 0, |s|);
  }

  lemma DispositionIsRecognised(line: string)
    requires OPENING <= line
    ensures Leading(line) == 0 && StartsWith(line[Leading(line)..], DISPOSITION)
  {
    assert line[0] == OPENING[0] == 'C';
    assert line[0..] == line;
    forall i | 0 <= i < |DISPOSITION| ensures LowerChar(line[i]) == DISPOSITION[i] {
      assert line[i] == OPENING[i];
      OpeningIsDisposition(i);
    }
  }

  lemma OpeningIsDisposition(i: nat)
    requires i < |DISPOSITION|
    ensures LowerChar(OPENING[i]) == DISPOSITION[i]
  {
  }

  lemma TypeLineIsSkipped(mime: string)
    ensures !StartsWith(TypeLine(mime)[Leading(TypeLine(mime))..], DISPOSITION)
  {
    var line := TypeLine(mime);
    assert line[0] == 'C' && line[8] == 'T';
    assert Leading(line) == 0 && line[0..] == line;
    assert DISPOSITION[8] == 'd';
  }

  lemma DispositionLine(letter: char -> bool, u: Upload)
    requires Clean(u)
    ensures FromLine(letter, Disposition(u), Fields(None, None)) == Fields(Some(u.field), NameOf(u.naming))
  {
    DispositionParts(u);
    NameIsFound(letter, u);
    FilenameIsFound(letter, u);
    hide Disposition, Search, FilenameOf, StartsWith, Tail;
    assert OPENING <= Disposition(u);
    DispositionIsRecognised(Disposition(u));
  }

  /** The header says what it was written from. */
  lemma {:induction false} HeaderIsRead(letter: char -> bool, u: Upload)
    requires Clean(u)
    ensures FromLines(letter, BareLines(Header(u))) == Fields(Some(u.field), NameOf(u.naming))
  {
    var a := Disposition(u);
    LinesHaveNoBreaks(u);
    DispositionLine(letter, u);
    hide Disposition, FromLine, BareLines, NoBreaks, StartsWith, Clean;
    assert [a][..0] == [];
    assert FromLines(letter, [a]) == Fields(Some(u.field), NameOf(u.naming));
    if u.mime.Some? {
      var b := TypeLine(u.mime.value);
      HeaderHasTwoLines(a, b, u.unix);
      AppendAssoc(a, LineEnd(u), b);
      TypeLineChangesNothing(letter, u.mime.value, FromLines(letter, [a]));
      assert [a, b][..1] == [a];
    } else {
      OneLine(a);
      assert Header(u) == a;
    }
  }

  lemma TypeLineChangesNothing(letter: char -> bool, mime: string, before: Fields)
    ensures FromLine(letter, TypeLine(mime), before) == before
  {
    TypeLineIsSkipped(mime);
    hide StartsWith, Search, FilenameOf;
  }

  lemma LinesHaveNoBreaks(u: Upload)
    requires Clean(u)
    ensures NoBreaks(Disposition(u)) && Disposition(u) != "" && Disposition(u)[0] == 'C'
    ensures u.mime.Some? ==> NoBreaks(TypeLine(u.mime.value)) && TypeLine(u.mime.value) != "" && TypeLine(u.mime.value)[0] == 'C'
  {
    hide NoBreaks;
    FieldIsClean(u);
    FieldHasNoBreaks(u.field);
    if !u.naming.Unnamed? {
      NameHasNoBreaks(UpToField(u.field), u.naming.name);
    }
    if u.mime.Some? {
      TypeHasNoBreaks(u.mime.value);
    }
  }

  lemma FieldHasNoBreaks(field: string)
    requires NoBreaks(field)
    ensures NoBreaks(UpToField(field)) && UpToField(field) != "" && UpToField(field)[0] == 'C'
  {
    assert NoBreaks("\"") && NoBreaks("name=\"") && NoBreaks(OPENING);
    hide NoBreaks;
    NoBreaksConcat(field, "\"");
    NoBreaksConcat("name=\"", field + "\"");
    NoBreaksConcat(OPENING, "name=\"" + (field + "\""));
  }

  lemma NameHasNoBreaks(before: string, name: string)
    requires NoBreaks(before) && NoBreaks(name)
    ensures NoBreaks(before + "; " + ("filename=\"" + (name + "\""))) && NoBreaks(before + "; " + ("filename=" + name))
  {
    assert NoBreaks("\"") && NoBreaks("filename=\"") && NoBreaks("filename=") && NoBreaks("; ");
    hide NoBreaks;
    NoBreaksConcat(name, "\"");
    NoBreaksConcat("filename=\"", name + "\"");
    NoBreaksConcat("filename=", name);
    NoBreaksConcat(before, "; ");
    NoBreaksConcat(before + "; ", "filename=\"" + (name + "\""));
    NoBreaksConcat(before + "; ", "filename=" + name);
  }

  lemma TypeHasNoBreaks(mime: string)
    requires NoBreaks(mime)
    ensures NoBreaks(TypeLine(mime)) && TypeLine(mime) != "" && TypeLine(mime)[0] == 'C'
  {
    assert NoBreaks("Content-Type: ");
    NoBreaksConcat("Content-Type: ", mime);
  }

  lemma NoBreaksConcat(a: string, b: string)
    requires NoBreaks(a) && NoBreaks(b)
    ensures NoBreaks(a + b)
  {
  }

  /** The `name=` inside a `filename=` is no field name. */
  lemma FilenameIsNoName(letter: char -> bool, line: string, p: nat)
    requires p <= |line| && StartsWith(line[p..], FILENAME)
    ensures p + 4 <= |line| && NameAt(letter, line, p + 4) == None
  {
    assert LowerChar(line[p..][3]) == FILENAME[3] == 'e' && line[p..][3] == line[p + 3];
    assert IsWord(letter, line[p + 3]);
  }

  /** A header line that tells the field's name, or the file's. */
  predicate TellsName(letter: char -> bool, line: string) {
    StartsWith(line[Leading(line)..], DISPOSITION) && Search(Name, letter, line, 0).Some?
  }

  predicate TellsFilename(letter: char -> bool, line: string) {
    StartsWith(line[Leading(line)..], DISPOSITION) && FilenameOf(letter, line).Some?
  }

  /** Whatever other lines a header has: the last line that tells a name counts, and none does without one. */
  lemma {:induction false} LastNameCounts(letter: char -> bool, lines: seq<string>, i: nat)
    requires i < |lines| && TellsName(letter, lines[i]) && forall k :: i < k < |lines| ==> !TellsName(letter, lines[k])
    ensures FromLines(letter, lines).name == Search(Name, letter, lines[i], 0)
    decreases |lines|
  {
    hide StartsWith, Search, FilenameOf, Leading;
    var init := lines[..|lines| - 1];
    if i < |init| {
      assert init[i] == lines[i] && forall k :: i < k < |init| ==> init[k] == lines[k];
      LastNameCounts(letter, init, i);
      assert !TellsName(letter, lines[|lines| - 1]);
    }
  }

  lemma {:induction false} LastFilenameCounts(letter: char -> bool, lines: seq<string>, i: nat)
    requires i < |lines| && TellsFilename(letter, lines[i]) && forall k :: i < k < |lines| ==> !TellsFilename(letter, lines[k])
    ensures FromLines(letter, lines).filename == FilenameOf(letter, lines[i])
    decreases |lines|
  {
    hide StartsWith, Search, FilenameOf, Leading;
    var init := lines[..|lines| - 1];
    if i < |init| {
      assert init[i] == lines[i] && forall k :: i < k < |init| ==> init[k] == lines[k];
      LastFilenameCounts(letter, init, i);
      assert !TellsFilename(letter, lines[|lines| - 1]);
    }
  }

  lemma {:induction false} NoNameTold(letter: char -> bool, lines: seq<string>)
    ensures (forall k :: 0 <= k < |lines| ==> !TellsName(letter, lines[k])) ==> FromLines(letter, lines).name == None
    ensures (forall k :: 0 <= k < |lines| ==> !TellsFilename(letter, lines[k])) ==> FromLines(letter, lines).filename == None
    decreases |lines|
  {
    hide StartsWith, Search, FilenameOf, Leading;
    if lines != [] {
      var init := lines[..|lines| - 1];
      assert forall k :: 0 <= k < |init| ==> init[k] == lines[k];
      NoNameTold(letter, init);
      var last := lines[|lines| - 1];
      assert TellsName(letter, last) || TellsFilename(letter, last) || FromLine(letter, last, FromLines(letter, init)) == FromLines(letter, init);
    }
  }

  // ----- One part -----

  /** The bytes of a header: lines without CR or LF that start with a `C`, each line end between two of them. */
  ghost predicate HeaderLines(e: Bytes) {
    && e != [] && e[0] == 67 && e[|e| - 1] != 13 && e[|e| - 1] != 10
    && (forall m :: 0 <= m < |e| && e[m] == 10 ==> m + 1 < |e| && e[m + 1] == 67)
    && (forall m :: 0 <= m < |e| && e[m] == 13 ==> m + 2 < |e| && e[m + 1] == 10)
  }

  /** The empty line that ends the header is its first. */
  lemma {:induction false} HeaderEnds(e: Bytes, end: Bytes, payload: Bytes)
    requires HeaderLines(e) && (end == CRLF || end == LF)
    ensures Find(e + (end + end + payload), end + end) == Some(|e|)
  {
    var all := e + (end + end + payload);
    forall m: nat | m < |e| ensures !OccursAt(all, end + end, m) {
      NoEmptyLineHere(e, end, payload, m);
    }
    assert all[|e|..|e| + |end + end|] == end + end;
    FindIsUnique(all, end + end, |e|);
  }

  lemma NoEmptyLineHere(e: Bytes, end: Bytes, payload: Bytes, m: nat)
    requires HeaderLines(e) && (end == CRLF || end == LF) && m < |e|
    ensures !OccursAt(e + (end + end + payload), end + end, m)
  {
    var all := e + (end + end + payload);
    assert all[m] == e[m];
    if end == LF {
      assert e[m] == 10 ==> all[m + 1] == e[m + 1] == 67;
      NotTwice(all, LF, m);
    } else {
      assert e[m] == 13 ==> all[m + 2] == e[m + 2] && e[m + 1] == 10 && e[m + 2] == 67;
      NotTwice(all, CRLF, m);
    }
  }

  /** No two line ends here, as the characters at which they would begin are not the same. */
  lemma NotTwice(all: Bytes, end: Bytes, m: nat)
    requires (end == CRLF || end == LF) && m + |end| < |all| && (all[m] != end[0] || all[m + |end|] != end[0])
    ensures !OccursAt(all, end + end, m)
  {
    if m + |end + end| <= |all| {
      var slice := all[m..m + |end + end|];
      assert slice[0] == all[m] && slice[|end|] == all[m + |end|];
    }
  }

  lemma EncodedLine(s: string)
    requires s != "" && s[0] == 'C' && NoBreaks(s)
    ensures Encode(s) != [] && Encode(s)[0] == 67 && 13 !in Encode(s) && 10 !in Encode(s)
  {
    EncodeKeepsAscii(s, '\r');
    EncodeKeepsAscii(s, '\n');
    assert '\r' !in s && '\n' !in s;
  }

  lemma EncodedEnd(u: Upload)
    ensures Encode(LineEnd(u)) == EndBytes(u)
  {
    assert "\r\n"[1..] == "\n" && "\n"[1..] == "";
    assert Encode("\n") == [10] + Encode("");
  }

  lemma TwoHeaderLines(d: Bytes, end: Bytes, t: Bytes)
    requires end == CRLF || end == LF
    requires d != [] && d[0] == 67 && 13 !in d && 10 !in d && t != [] && t[0] == 67 && 13 !in t && 10 !in t
    ensures HeaderLines(d + end + t)
  {
    var e := d + end + t;
    assert forall k :: 0 <= k < |d| ==> e[k] == d[k] && d[k] in d;
    assert forall k :: |d| + |end| <= k < |e| ==> e[k] == t[k - |d| - |end|] && t[k - |d| - |end|] in t;
    assert forall k :: |d| <= k < |d| + |end| ==> e[k] == end[k - |d|];
    assert e[|d| + |end|] == t[0];
  }

  lemma OneHeaderLine(d: Bytes)
    requires d != [] && d[0] == 67 && 13 !in d && 10 !in d
    ensures HeaderLines(d)
  {
    assert forall k :: 0 <= k < |d| ==> d[k] in d;
  }

  lemma HeaderBytes(u: Upload)
    requires Clean(u)
    ensures HeaderLines(Encode(Header(u)))
  {
    hide HeaderLines, Disposition, Clean, NoBreaks, Encode, TypeLine;
    LinesHaveNoBreaks(u);
    EncodedLine(Disposition(u));
    if u.mime.Some? {
      var a, b := Disposition(u), TypeLine(u.mime.value);
      EncodedLine(b);
      AppendAssoc(a, LineEnd(u), b);
      EncodeAppend(a + LineEnd(u), b);
      EncodeAppend(a, LineEnd(u));
      EncodedEnd(u);
      TwoHeaderLines(Encode(a), EndBytes(u), Encode(b));
    } else {
      assert Header(u) == Disposition(u);
      OneHeaderLine(Encode(Disposition(u)));
    }
  }

  lemma HeaderAndPayload(e: Bytes, end: Bytes, payload: Bytes)
    ensures var chunk := e + (end + end + payload);
      chunk[..|e|] == e && chunk[|e| + |end + end|..] == payload
  {
  }

  lemma SplitsAtCrLf(e: Bytes, payload: Bytes)
    requires HeaderLines(e)
    ensures SplitPart(e + (CRLF + CRLF + payload)) == Some(Split(e, payload))
  {
    HeaderEnds(e, CRLF, payload);
    HeaderAndPayload(e, CRLF, payload);
    hide Find, HeaderLines;
  }

  lemma SplitsAtLf(e: Bytes, payload: Bytes)
    requires HeaderLines(e) && Find(e + (LF + LF + payload), CRLF + CRLF) == None
    ensures SplitPart(e + (LF + LF + payload)) == Some(Split(e, payload))
  {
    HeaderEnds(e, LF, payload);
    HeaderAndPayload(e, LF, payload);
    hide Find, HeaderLines;
  }

  lemma {:induction false} PartSplits(u: Upload)
    requires Clean(u)
    ensures PartBytes(u) != [] && WithoutFirstBreak(PartBytes(u)) == Chunk(u) && !(DASHES <= Chunk(u))
    ensures SplitPart(Chunk(u)) == Some(Split(Encode(Header(u)), u.content + EndBytes(u)))
  {
    HeaderBytes(u);
    hide Header, Encode, Find, WithoutFirstBreak, SplitPart;
    var e, payload := Encode(Header(u)), u.content + EndBytes(u);
    if u.unix {
      SplitsAtLf(e, payload);
    } else {
      SplitsAtCrLf(e, payload);
    }
    ChunkStarts(e, EndBytes(u) + EndBytes(u) + payload);
    FirstBreakGoes(Chunk(u), u.unix);
  }

  lemma ChunkStarts(e: Bytes, rest: Bytes)
    requires HeaderLines(e)
    ensures e + rest != [] && (e + rest)[0] == 67
  {
  }

  lemma FirstBreakGoes(chunk: Bytes, unix: bool)
    requires chunk != [] && chunk[0] == 67
    ensures WithoutFirstBreak((if unix then LF else CRLF) + chunk) == chunk && !(DASHES <= chunk)
  {
    var part := (if unix then LF else CRLF) + chunk;
    assert unix ==> part[0] == 10;
  }

  /** What a part holds for the service: a file, if its field is one of the two and it is named. */
  function Given(u: Upload): Option<File> {
    if u.field != "files" && u.field != "file" then None
    else if NameOf(u.naming) == None || NameOf(u.naming) == Some("") then None
    else Some(File(NameOf(u.naming).value, u.content))
  }

  /** A part is read back as the file it was written for, whatever its content ends with, or skipped. */
  lemma {:induction false} PartIsRead(letter: char -> bool, u: Upload)
    requires Clean(u)
    ensures PartFile(letter, PartBytes(u)) == Given(u)
  {
    PartSplits(u);
    HeaderIsRead(letter, u);
    DecodeOfEncode(Header(u));
    LastBreakGoes(u);
    hide Header, Encode, Decode, PartBytes, Chunk, WithoutFirstBreak, WithoutLastBreak, SplitPart, FromLines, BareLines, NameOf, Find;
  }

  lemma LastBreakGoes(u: Upload)
    requires Clean(u)
    ensures WithoutLastBreak(u.content + EndBytes(u)) == u.content
  {
    var content, end := u.content, EndBytes(u);
    var p := content + end;
    assert p[|content|..] == end && p[..|content|] == content;
    if u.unix && content != [] {
      assert p[|p| - 2..][0] == content[|content| - 1];
    }
  }

  // ----- The whole body -----

  lemma {:induction false} FilesOfSnoc(letter: char -> bool, parts: seq<Bytes>, part: Bytes)
    ensures var file := PartFile(letter, part);
      FilesOf(letter, parts + [part]) == FilesOf(letter, parts) + if file.Some? then [file.value] else []
  {
    hide PartFile;
    var all := parts + [part];
    assert all[..|all| - 1] == parts;
    assert all[|all| - 1] == part;
  }

  lemma {:induction false} FilesOfConcat(letter: char -> bool, a: seq<Bytes>, b: seq<Bytes>)
    ensures FilesOf(letter, a + b) == FilesOf(letter, a) + FilesOf(letter, b)
    decreases |b|
  {
    hide FilesOf, PartFile;
    if b == [] {
      assert a + b == a;
      NoFiles(letter);
    } else {
      var init, last := b[..|b| - 1], b[|b| - 1];
      FilesOfConcat(letter, a, init);
      FilesOfSnoc(letter, init, last);
      FilesOfSnoc(letter, a + init, last);
      assert init + [last] == b;
      assert a + init + [last] == a + b;
    }
  }

  lemma NoFiles(letter: char -> bool)
    ensures FilesOf(letter, []) == []
  {
  }

  function Expected(us: seq<Upload>): seq<File> {
    if us == [] then [] else (if Given(us[0]).Some? then [Given(us[0]).value] else []) + Expected(us[1..])
  }

  lemma {:induction false} PartsAreRead(letter: char -> bool, us: seq<Upload>)
    requires forall i :: 0 <= i < |us| ==> Clean(us[i])
    ensures FilesOf(letter, Parts(us)) == Expected(us)
    decreases |us|
  {
    if us == [] {
      ClosingIsSkipped(letter);
    } else {
      PartIsRead(letter, us[0]);
      PartsAreRead(letter, us[1..]);
      hide PartFile, PartBytes;
      FilesOfConcat(letter, [PartBytes(us[0])], Parts(us[1..]));
      OnePart(letter, PartBytes(us[0]));
    }
  }

  lemma OnePart(letter: char -> bool, part: Bytes)
    ensures FilesOf(letter, [part]) == if PartFile(letter, part).Some? then [PartFile(letter, part).value] else []
  {
    hide PartFile;
    assert [part][..0] == [];
  }

  lemma ClosingIsSkipped(letter: char -> bool)
    ensures FilesOf(letter, [DASHES + CRLF]) == [] && FilesOf(letter, [[]]) == []
  {
    OnePart(letter, DASHES + CRLF);
    OnePart(letter, []);
    assert (DASHES + CRLF)[0] == 45;
    assert WithoutFirstBreak(DASHES + CRLF) == DASHES + CRLF;
  }

  /**
    Round trip: any clean files with any contents, written with a delimiter that does not occur in a part
    before its end, are read back, in order and unchanged, including contents that are empty or end in CR LF.
   */
  lemma MultipartRoundTrips(letter: char -> bool, us: seq<Upload>, boundary: Bytes, contentType: string)
    requires ParseBoundary(Some(contentType)) == Some(boundary)
    requires forall i :: 0 <= i < |us| ==> Clean(us[i]) && Delimits(DASHES + boundary, us[i])
    requires boundary != [] && 13 !in boundary
    ensures Files(letter, Render(us, DASHES + boundary), Some(contentType)) == Some(Expected(us))
  {
    var delimiter := DASHES + boundary;
    ClosingHasNoDelimiter(boundary);
    SplitOfRender(us, delimiter);
    PartsAreRead(letter, us);
    ClosingIsSkipped(letter);
    hide FilesOf, Parts, Render, SplitBytes, Clean, Delimits, ParseBoundary, Expected;
    FilesOfConcat(letter, [[]], Parts(us));
    assert FilesOf(letter, SplitBytes(Render(us, delimiter), delimiter)) == [] + Expected(us);
    assert [] + Expected(us) == Expected(us);
  }

  lemma ClosingHasNoDelimiter(boundary: Bytes)
    requires boundary != [] && 13 !in boundary
    ensures Find(DASHES + CRLF, DASHES + boundary) == None
  {
    var closing, delimiter := DASHES + CRLF, DASHES + boundary;
    FindIsLeftmost(closing, delimiter);
    assert delimiter[0] == 45 && delimiter[1] == 45 && delimiter[2] == boundary[0];
    forall m: nat ensures !OccursAt(closing, delimiter, m) {
      if m + |delimiter| <= 4 {
        var slice := closing[m..m + |delimiter|];
        assert slice[1] == closing[m + 1] && slice[2] == closing[m + 2];
        assert boundary[0] in boundary;
      }
    }
  }

  // ----- With its content type -----

  /** The boundary may stand without quotes: something visible at both ends, and not in quotes itself. */
  predicate NeedsNoQuotes(boundary: string) {
    && boundary != "" && !IsSpace(boundary[0]) && !IsSpace(boundary[|boundary| - 1])
    && !(|boundary| >= 2 && boundary[0] == '"' && boundary[|boundary| - 1] == '"')
  }

  /** The boundary as it stands in the content type, with or without quotes. */
  function Written(boundary: string, quoted: bool): string {
    if quoted then "\"" + boundary + "\"" else boundary
  }

  function Segment(written: string): string {
    " " + (BOUNDARY + written)
  }

  function ContentType(boundary: string, quoted: bool): string {
    FORM_DATA + [';'] + Segment(Written(boundary, quoted))
  }

  lemma WrittenIsRead(boundary: string, quoted: bool)
    requires quoted || NeedsNoQuotes(boundary)
    ensures var w := Written(boundary, quoted);
      w != "" && !IsSpace(w[0]) && !IsSpace(w[|w| - 1]) && Unquoted(w) == boundary
  {
    var w := Written(boundary, quoted);
    if quoted {
      assert w[0] == '"' && w[|w| - 1] == '"' && w[1..|w| - 1] == boundary;
    }
  }

  /** The segment after the semicolon, as it is stripped, recognised and unquoted. */
  lemma SegmentIsRead(boundary: string, quoted: bool)
    requires quoted || NeedsNoQuotes(boundary)
    ensures BoundaryIn([Segment(Written(boundary, quoted))]) == Some(boundary)
  {
    var written := Written(boundary, quoted);
    var stripped := BOUNDARY + written;
    WrittenIsRead(boundary, quoted);
    hide Written, NeedsNoQuotes, Unquoted, Strip;
    assert stripped[0] == 'b' && stripped[|stripped| - 1] == written[|written| - 1];
    StripSpaceBefore(stripped);
    StripVisible(written);
    BoundaryIsLower();
    assert stripped[|BOUNDARY|..] == written;
  }

  lemma BoundaryIsLower()
    ensures forall i :: 0 <= i < |BOUNDARY| ==> LowerChar(BOUNDARY[i]) == BOUNDARY[i]
  {
  }

  lemma IsFormData(rest: string)
    ensures ContainsWord(FORM_DATA + rest, FORM_DATA)
  {
    var all := FORM_DATA + rest;
    FormDataIsLower();
    assert all[0..] == all;
    assert StartsWith(all[0..], FORM_DATA);
  }

  lemma SegmentHasNoSemicolon(boundary: string, quoted: bool)
    requires ';' !in boundary
    ensures ';' !in Segment(Written(boundary, quoted))
  {
    assert ';' !in BOUNDARY;
    assert ';' !in "\"" + boundary;
    assert ';' !in Written(boundary, quoted);
  }

  lemma ContentTypeSplits(boundary: string, quoted: bool)
    requires ';' !in boundary
    ensures SplitAt(ContentType(boundary, quoted), ';') == [FORM_DATA] + [Segment(Written(boundary, quoted))]
  {
    var segment := Segment(Written(boundary, quoted));
    FormDataIsLower();
    SegmentHasNoSemicolon(boundary, quoted);
    hide SplitAt, Segment, Written;
    SplitAtFirst(FORM_DATA, ';', segment);
    SplitAtFirst(segment, ';', "");
  }

  /** The boundary is found in the content type, in quotes or without. */
  lemma {:induction false} BoundaryIsRead(boundary: string, quoted: bool)
    requires ';' !in boundary && (quoted || NeedsNoQuotes(boundary))
    ensures ParseBoundary(Some(ContentType(boundary, quoted))) == Some(Encode(boundary))
  {
    var segment := Segment(Written(boundary, quoted));
    IsFormData([';'] + segment);
    AppendAssoc(FORM_DATA, [';'], segment);
    ContentTypeSplits(boundary, quoted);
    SegmentIsRead(boundary, quoted);
    hide Encode, BoundaryIn, SplitAt, ContainsWord, Segment, Written;
    assert ([FORM_DATA] + [segment])[1..] == [segment];
  }

  lemma FormDataIsLower()
    ensures forall i :: 0 <= i < |FORM_DATA| ==> LowerChar(FORM_DATA[i]) == FORM_DATA[i]
    ensures ';' !in FORM_DATA
  {
  }

  lemma StripSpaceBefore(s: string)
    requires s != "" && !IsSpace(s[0]) && !IsSpace(s[|s| - 1])
    ensures Strip(" " + s) == s
  {
    var t := " " + s;
    assert t[1] == s[0] && t[|t| - 1] == s[|s| - 1];
    StripsTo(t, 1, |t|);
    assert t[1..|t|] == s;
  }

  /** The parameters of a content type, between its semicolons. */
  function Parameters(contentType: string): seq<string> {
    SplitAt(contentType, ';')[1..]
  }

  predicate NamesBoundary(parameter: string) {
    StartsWith(Strip(parameter), BOUNDARY)
  }

  function BoundaryOf(parameter: string): string
    requires NamesBoundary(parameter)
  {
    Unquoted(Strip(Strip(parameter)[|BOUNDARY|..]))
  }

  /** A request has a boundary exactly when it says it is a form and one of its parameters names one; the first such counts. */
  lemma {:induction false} BoundaryIff(contentType: string)
    ensures var ps := Parameters(contentType);
      && (ParseBoundary(Some(contentType)).Some? <==>
            ContainsWord(contentType, FORM_DATA) && exists i :: 0 <= i < |ps| && NamesBoundary(ps[i]))
      && forall i :: 0 <= i < |ps| && NamesBoundary(ps[i]) && (forall k :: 0 <= k < i ==> !NamesBoundary(ps[k])) && ContainsWord(contentType, FORM_DATA) ==>
           ParseBoundary(Some(contentType)) == Some(Encode(BoundaryOf(ps[i])))
    ensures ParseBoundary(None) == None
  {
    hide ContainsWord, SplitAt, Encode, Strip, StartsWith, Unquoted;
    FirstBoundary(Parameters(contentType));
  }

  lemma {:induction false} FirstBoundary(ps: seq<string>)
    ensures BoundaryIn(ps).Some? <==> exists i :: 0 <= i < |ps| && NamesBoundary(ps[i])
    ensures forall i :: 0 <= i < |ps| && NamesBoundary(ps[i]) && (forall k :: 0 <= k < i ==> !NamesBoundary(ps[k])) ==>
              BoundaryIn(ps) == Some(BoundaryOf(ps[i]))
    decreases |ps|
  {
    hide Strip, StartsWith, Unquoted;
    if ps != [] {
      FirstBoundary(ps[1..]);
      assert forall i :: 0 <= i < |ps| - 1 ==> ps[1..][i] == ps[i + 1];
      if !NamesBoundary(ps[0]) {
        assert BoundaryIn(ps) == BoundaryIn(ps[1..]);
        forall i | 0 <= i < |ps| && NamesBoundary(ps[i]) && forall k :: 0 <= k < i ==> !NamesBoundary(ps[k])
          ensures BoundaryIn(ps) == Some(BoundaryOf(ps[i]))
        {
          assert ps[1..][i - 1] == ps[i];
          assert forall k :: 0 <= k < i - 1 ==> ps[1..][k] == ps[k + 1];
        }
      }
    }
  }

  /** The round trip, from the form's parts and a boundary text to the request and back. */
  lemma {:induction false} UploadsAreRead(letter: char -> bool, us: seq<Upload>, boundary: string, quoted: bool)
    requires boundary != "" && ';' !in boundary && '\r' !in boundary && (quoted || NeedsNoQuotes(boundary))
    requires forall i :: 0 <= i < |us| ==> Clean(us[i]) && Delimits(DASHES + Encode(boundary), us[i])
    ensures Files(letter, Render(us, DASHES + Encode(boundary)), Some(ContentType(boundary, quoted))) == Some(Expected(us))
  {
    BoundaryIsRead(boundary, quoted);
    EncodeKeepsAscii(boundary, '\r');
    assert EncodeChar(boundary[0]) != [];
    hide Clean, Delimits, ParseBoundary, Files, Render, Expected;
    MultipartRoundTrips(letter, us, Encode(boundary), ContentType(boundary, quoted));
  }
}
