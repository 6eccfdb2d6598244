/** The line recognisers of fences and list items, as the patterns they stand for. */
module LinePatterns {
  import opened Options
  import opened Text
  import opened Lines
  import Sections
  import Fences
  import ListRepair

  // ----- Fences -----

  /** Blanks up to `i`, then the whole of a run of three or more backticks or tildes. */
  predicate FenceAt(line: string, i: nat, m: Marker) {
    && m.size >= 3 && (m.ch == '`' || m.ch == '~') && i + m.size <= |line|
    && (forall k :: 0 <= k < i ==> line[k] == ' ' || line[k] == '\t')
    && (forall k :: i <= k < i + m.size ==> line[k] == m.ch)
    && (i + m.size < |line| ==> line[i + m.size] != m.ch)
  }

  lemma FenceRunIff(s: string, m: Marker)
    ensures FenceRun(s) == Some(m) <==> FenceAt(s, 0, m)
  {
    if FenceAt(s, 0, m) {
      var n := LeadingWhile(s, (c: char) => c == s[0]);
      assert s[0] == m.ch;
      assert n >= m.size;
      assert n < |s| ==> s[n] != m.ch;
    }
  }

  /** A fence sits right after the leading blanks. */
  lemma FenceAfterBlanks(line: string, i: nat, m: Marker)
    ensures var k := LeadingWhile(line, IsBlank);
      FenceAt(line, i, m) <==> i == k && FenceAt(line[k..], 0, m)
  {
    var k := LeadingWhile(line, IsBlank);
    var rest := line[k..];
    assert forall j :: 0 <= j < |rest| ==> rest[j] == line[k + j];
    if FenceAt(line, i, m) {
      assert line[i] == m.ch;
      assert i == k;
      assert forall j :: 0 <= j < m.size ==> rest[j] == line[i + j];
    }
    if i == k && FenceAt(rest, 0, m) {
      forall j | i <= j < i + m.size ensures line[j] == m.ch {
        assert rest[j - k] == line[j];
      }
      assert forall j :: 0 <= j < i ==> IsBlank(line[j]);
    }
  }

  /** The cleaner's opener: any indentation. */
  lemma OpenerIff(line: string, m: Marker)
    ensures Fences.Opener(line) == Some(m) <==> exists i: nat :: FenceAt(line, i, m)
  {
    hide FenceAt, FenceRun;
    var k := LeadingWhile(line, IsBlank);
    FenceRunIff(line[k..], m);
    forall i: nat ensures FenceAt(line, i, m) <==> i == k && FenceAt(line[k..], 0, m) {
      FenceAfterBlanks(line, i, m);
    }
    assert FenceAt(line, k, m) <==> FenceAt(line[k..], 0, m);
  }

  /** The chunker's: at most three blanks. */
  lemma FenceMarkerIff(line: string, m: Marker)
    ensures Sections.FenceMarker(line) == Some(m) <==> exists i: nat :: i <= 3 && FenceAt(line, i, m)
  {
    hide FenceAt, FenceRun;
    var k := LeadingWhile(line, IsBlank);
    FenceRunIff(line[k..], m);
    forall i: nat ensures FenceAt(line, i, m) <==> i == k && FenceAt(line[k..], 0, m) {
      FenceAfterBlanks(line, i, m);
    }
    assert FenceAt(line, k, m) <==> FenceAt(line[k..], 0, m);
  }

  /** Whitespace, a run of the fence's character at least as long as the opener's, whitespace. */
  predicate ClosesAt(line: string, m: Marker, i: nat, j: nat) {
    && i + m.size <= j <= |line| && AllSpace(line[..i]) && AllSpace(line[j..])
    && forall k :: i <= k < j ==> line[k] == m.ch
  }

  lemma ClosesIff(line: string, m: Marker)
    requires m.size > 0 && !IsSpace(m.ch)
    ensures Fences.Closes(line, m) <==> exists i: nat, j: nat :: ClosesAt(line, m, i, j)
  {
    hide IsSpace, Fences.Closes, ClosesAt;
    if Fences.Closes(line, m) {
      CloserIsThere(line, m);
    }
    if i: nat, j: nat :| ClosesAt(line, m, i, j) {
      CloserIsFound(line, m, i, j);
    }
  }

  lemma CloserIsThere(line: string, m: Marker)
    requires m.size > 0 && Fences.Closes(line, m)
    ensures ClosesAt(line, m, Leading(line), |line| - Trailing(line))
  {
    hide IsSpace, Strip, Leading, Trailing;
    BlankStripsToNothing(line);
    StripIs(line);
    var i, j := Leading(line), |line| - Trailing(line);
    EndsAreSpace(line);
    assert forall k :: i <= k < j ==> line[k] == Strip(line)[k - i];
  }

  lemma BlankStripsToNothing(line: string)
    ensures AllSpace(line) ==> Strip(line) == ""
  {
  }

  lemma EndsAreSpace(line: string)
    ensures AllSpace(line[..Leading(line)]) && AllSpace(line[|line| - Trailing(line)..])
  {
    hide IsSpace, Leading, Trailing;
    var n, t := Leading(line), |line| - Trailing(line);
    forall i | 0 <= i < n ensures IsSpace(line[..n][i]) {
      assert IsSpace(line[i]);
    }
    forall i | 0 <= i < |line| - t ensures IsSpace(line[t..][i]) {
      assert IsSpace(line[t + i]);
    }
  }

  lemma CloserIsFound(line: string, m: Marker, i: nat, j: nat)
    requires m.size > 0 && !IsSpace(m.ch) && ClosesAt(line, m, i, j)
    ensures Fences.Closes(line, m)
  {
    hide IsSpace, Strip, Leading, Trailing;
    assert forall k :: 0 <= k < i ==> line[k] == line[..i][k];
    assert forall k :: j <= k < |line| ==> line[k] == line[j..][k - j];
    StripsTo(line, i, j);
  }

  // ----- List items -----

  /** A bullet, or digits and a period or parenthesis. */
  predicate IsMarker(digit: char -> bool, s: string) {
    || s == "-" || s == "*" || s == "+"
    || (|s| >= 2 && (s[|s| - 1] == '.' || s[|s| - 1] == ')') && forall k :: 0 <= k < |s| - 1 ==> digit(s[k]))
  }

  /** Whitespace, a marker, whitespace, and something more. */
  predicate ItemAt(digit: char -> bool, line: string, a: nat, b: nat, c: nat) {
    && a < b < c < |line| && AllSpace(line[..a]) && IsMarker(digit, line[a..b]) && AllSpace(line[b..c])
  }

  /** The class of digits holds none of the other characters of the pattern. */
  ghost predicate OnlyDigits(digit: char -> bool) {
    forall c :: digit(c) ==> !IsSpace(c) && c !in "-*+.)"
  }

  lemma MarkerIff(digit: char -> bool, body: string, n: nat)
    requires OnlyDigits(digit) && n <= |body|
    ensures n > 0 && ListRepair.MarkerLength(digit, body) == n <==> IsMarker(digit, body[..n])
  {
    hide IsSpace;
    var k := LeadingWhile(body, digit);
    if IsMarker(digit, body[..n]) {
      assert body[..n][0] == body[0] && body[..n][n - 1] == body[n - 1];
      if n >= 2 {
        assert forall i :: 0 <= i < n - 1 ==> digit(body[..n][i]) && body[..n][i] == body[i];
        assert !digit(body[n - 1]);
        assert k == n - 1;
      }
    }
    if n > 0 && ListRepair.MarkerLength(digit, body) == n {
      if n == 1 {
        assert body[..1] == [body[0]];
      } else {
        assert forall i :: 0 <= i < n - 1 ==> body[..n][i] == body[i];
      }
    }
  }

  lemma MarkerIsVisible(digit: char -> bool, s: string)
    requires OnlyDigits(digit) && IsMarker(digit, s)
    ensures s != "" && !IsSpace(s[0])
  {
    if |s| >= 2 {
      assert digit(s[0]);
    }
  }

  lemma ItemStarts(digit: char -> bool, line: string, a: nat, b: nat, c: nat)
    requires OnlyDigits(digit) && ItemAt(digit, line, a, b, c)
    ensures Leading(line) == a
  {
    hide IsSpace, IsMarker, OnlyDigits;
    MarkerIsVisible(digit, line[a..b]);
    assert line[a..b][0] == line[a];
    VisibleCharacter(line, a);
    assert forall k :: 0 <= k < a ==> line[k] == line[..a][k];
  }

  lemma ItemIff(digit: char -> bool, line: string)
    requires OnlyDigits(digit)
    ensures ListRepair.IsItem(digit, line) <==> exists a: nat, b: nat, c: nat :: ItemAt(digit, line, a, b, c)
  {
    hide OnlyDigits, ItemAt, ListRepair.IsItem;
    if ListRepair.IsItem(digit, line) {
      var b := ItemIsThere(digit, line);
    }
    if a: nat, b: nat, c: nat :| ItemAt(digit, line, a, b, c) {
      ItemIsFound(digit, line, a, b, c);
    }
  }

  lemma ItemIsThere(digit: char -> bool, line: string) returns (b: nat)
    requires OnlyDigits(digit) && ListRepair.IsItem(digit, line)
    ensures ItemAt(digit, line, Leading(line), b, b + 1)
  {
    hide OnlyDigits, IsMarker, IsSpace, ListRepair.MarkerLength, Leading;
    var lead := Leading(line);
    var body := line[lead..];
    var n := ListRepair.MarkerLength(digit, body);
    b := lead + n;
    MarkerIff(digit, body, n);
    assert line[lead..b] == body[..n];
    assert line[b..b + 1] == [body[n]];
    EndsAreSpace(line);
  }

  lemma ItemIsFound(digit: char -> bool, line: string, a: nat, b: nat, c: nat)
    requires OnlyDigits(digit) && ItemAt(digit, line, a, b, c)
    ensures ListRepair.IsItem(digit, line)
  {
    ItemStarts(digit, line, a, b, c);
    hide OnlyDigits, IsMarker, IsSpace, ListRepair.MarkerLength, Leading;
    var body := line[a..];
    MarkerIff(digit, body, b - a);
    assert line[a..b] == body[..b - a];
    assert line[b..c][0] == body[b - a];
  }

  predicate IsMark(c: char) {
    c in "-_=\U{B7}.:"
  }

  /** A line of dashes, dots and the like: at least three characters wide, and nothing else but spaces. */
  lemma SeparatorIff(text: string)
    ensures ListRepair.IsSeparator(text) <==>
              |Strip(text)| >= 3 && forall i :: 0 <= i < |Strip(text)| ==> Strip(text)[i] == ' ' || IsMark(Strip(text)[i])
  {
    hide Strip;
    var s := Strip(text);
    NoMarksIff(s);
    if !AllSpace(text) {
      StripIs(text);
      assert s[0] != ' ' by { assert !IsSpace(s[0]); }
    } else {
      BlankStripsToNothing(text);
    }
  }

  lemma {:induction false} NoMarksIff(s: string)
    ensures var marks := ListRepair.WithoutSpaces(s);
      && (marks == "" <==> forall i :: 0 <= i < |s| ==> s[i] == ' ')
      && ((forall i :: 0 <= i < |marks| ==> IsMark(marks[i])) <==> forall i :: 0 <= i < |s| ==> s[i] == ' ' || IsMark(s[i]))
    decreases |s|
  {
    hide IsMark;
    if s != "" {
      NoMarksIff(s[1..]);
      var marks, rest := ListRepair.WithoutSpaces(s), ListRepair.WithoutSpaces(s[1..]);
      assert s[0] == ' ' ==> marks == rest;
      assert s[0] != ' ' ==> marks[0] == s[0] && marks[1..] == rest;
      assert forall i :: 0 <= i < |s| - 1 ==> s[1..][i] == s[i + 1];
      assert s[0] != ' ' ==> forall i :: 0 <= i < |rest| ==> marks[i + 1] == rest[i];
    }
  }

  /** What starts a block of its own: a heading, a table, a quotation, a fence, a separator. */
  lemma BoundaryIff(line: string)
    ensures var s := Strip(line);
      ListRepair.IsBoundary(line) <==>
        && s != ""
        && (s[0] == '#' || s[0] == '|' || s[0] == '>' || (|s| >= 3 && s[0] == s[1] == s[2] && (s[0] == '`' || s[0] == '~'))
            || ListRepair.IsSeparator(line))
  {
    hide ListRepair.IsSeparator;
    var s := Strip(line);
    SeparatorIff(line);
    SeparatorIff(s);
    StripTwice(line);
    hide Strip, IsMark;
    assert |s| >= 3 ==> s[..3] == [s[0], s[1], s[2]];
  }

  lemma StripTwice(line: string)
    ensures Strip(Strip(line)) == Strip(line)
  {
    var s := Strip(line);
    if AllSpace(line) {
      assert s == "";
    } else {
      StripIs(line);
      hide Strip, IsSpace;
      StripsTo(s, 0, |s|);
      assert s[0..|s|] == s;
    }
  }
}
