/** Re-attaching the continuation lines of lists that a converter has torn apart. */
module ListRepair {
  import opened Options
  import opened Text
  import opened Lines

  /**
    Length of a list marker at the start of `body`: a bullet, or digits and a period or parenthesis. `digit`
    stands for the class of decimal digits, which has none of the other characters of the pattern in it.
   */
  function MarkerLength(digit: char -> bool, body: string): (n: nat)
    ensures n <= |body|
  {
    if body == "" then 0
    else if body[0] == '-' || body[0] == '*' || body[0] == '+' then 1
    else
      var n := LeadingWhile(body, digit);
      if 0 < n < |body| && (body[n] == '.' || body[n] == ')') then n + 1 else 0
  }

  /** `_LIST_ITEM_RE`: indentation, marker, whitespace and at least one more character. */
  predicate IsItem(digit: char -> bool, line: string) {
    var body := line[Leading(line)..];
    var n := MarkerLength(digit, body);
    n > 0 && |body| >= n + 2 && IsSpace(body[n])
  }

  function WithoutSpaces(s: string): string {
    if s == "" then "" else (if s[0] == ' ' then "" else s[..1]) + WithoutSpaces(s[1..])
  }

  predicate IsSeparator(text: string) {
    var s := Strip(text);
    var marks := WithoutSpaces(s);
    |s| >= 3 && marks != "" && forall i :: 0 <= i < |marks| ==> marks[i] in "-_=\U{B7}.:"
  }

  predicate IsBoundary(line: string) {
    var s := Strip(line);
    "#" <= s || "|" <= s || "```" <= s || "~~~" <= s || ">" <= s || IsSeparator(s)
  }

  predicate Visible(line: string) {
    !AllSpace(line)
  }

  /** `_next_nonempty_index`, as the line found there. */
  function FirstVisible(lines: seq<string>): Option<string> {
    if lines == [] then None
    else if Visible(lines[0]) then Some(lines[0])
    else FirstVisible(lines[1..])
  }

  /** What comes after the first visible line. */
  function AfterVisible(lines: seq<string>): seq<string> {
    if lines == [] then []
    else if Visible(lines[0]) then lines[1..]
    else AfterVisible(lines[1..])
  }

  /** `_last_nonempty_index`, as the line found there. */
  function LastVisible(lines: seq<string>): Option<string> {
    if lines == [] then None
    else if Visible(lines[|lines| - 1]) then Some(lines[|lines| - 1])
    else LastVisible(lines[..|lines| - 1])
  }

  /** `_list_continuation_indent` between its visible neighbours: only between two items, and not for a line that is something itself. */
  function Indent(digit: char -> bool, prev: Option<string>, line: string, next: Option<string>): Option<nat> {
    if IsItem(digit, line) then None
    else if " " <= line || "\t" <= line then None
    else if IsBoundary(line) then None
    else if prev.None? || next.None? then None
    else if !IsItem(digit, prev.value) || !IsItem(digit, next.value) then None
    else Some(Leading(prev.value) + 2)
  }

  /** `_blank_line_precedes_list_continuation`, for the lines after the blank one. */
  predicate DropsBlank(digit: char -> bool, prev: Option<string>, rest: seq<string>) {
    var next := FirstVisible(rest);
    && prev.Some? && next.Some?
    && IsItem(digit, prev.value)
    && Indent(digit, prev, next.value, FirstVisible(AfterVisible(rest))).Some?
    && !IsItem(digit, next.value)
  }

  function Spaces(n: nat): (s: string)
    ensures |s| == n && forall i :: 0 <= i < n ==> s[i] == ' '
  {
    seq(n, _ => ' ')
  }

  function Placed(digit: char -> bool, prev: Option<string>, line: string, next: Option<string>): string {
    var indent := Indent(digit, prev, line, next);
    if indent.Some? then Spaces(indent.value) + Strip(line) else line
  }

  /** The repaired lines, given the last visible line before them. */
  function Repaired(digit: char -> bool, prev: Option<string>, lines: seq<string>): seq<string>
    decreases |lines|
  {
    if lines == [] then []
    else
      var line, rest := lines[0], lines[1..];
      if Visible(line) then
        var placed := Placed(digit, prev, line, FirstVisible(rest));
        [placed] + Repaired(digit, Some(placed), rest)
      else if DropsBlank(digit, prev, rest) then Repaired(digit, prev, rest)
      else [line] + Repaired(digit, prev, rest)
  }

  // ----- A moved line -----

  lemma StripOfSpaced(n: nat, line: string)
    requires Visible(line)
    ensures var moved := Spaces(n) + Strip(line);
      Visible(moved) && Strip(moved) == Strip(line) && Leading(moved) == n
  {
    StripIs(line);
    var core, moved := Strip(line), Spaces(n) + Strip(line);
    SpacesAreSpace(n);
    hide IsSpace, Strip, Leading, Trailing, Spaces;
    assert moved[n] == core[0] && moved[|moved| - 1] == core[|core| - 1];
    assert forall i :: 0 <= i < n ==> moved[i] == Spaces(n)[i];
    StripsTo(moved, n, |moved|);
    assert moved[n..|moved|] == core;
  }

  lemma SpacesAreSpace(n: nat)
    ensures AllSpace(Spaces(n))
  {
  }

  lemma LeadingWhilePrefix(s: string, t: string, p: char -> bool)
    requires t <= s
    ensures LeadingWhile(t, p) < |t| ==> LeadingWhile(s, p) == LeadingWhile(t, p)
    decreases |t|
  {
    if t != "" && p(t[0]) {
      assert t[1..] <= s[1..];
      LeadingWhilePrefix(s[1..], t[1..], p);
    }
  }

  /** Stripping a line that is no item does not make it one. */
  lemma MovedIsNoItem(digit: char -> bool, n: nat, line: string)
    requires Visible(line) && !IsItem(digit, line)
    ensures !IsItem(digit, Spaces(n) + Strip(line))
  {
    StripOfSpaced(n, line);
    EndsMeet(line);
    var core, body := Strip(line), line[Leading(line)..];
    assert (Spaces(n) + core)[n..] == core;
    assert core <= body;
    hide Strip, Leading, AllSpace;
    LeadingWhilePrefix(body, core, digit);
  }

  lemma {:induction false} PlacedFacts(digit: char -> bool, prev: Option<string>, line: string, next: Option<string>)
    requires Visible(line)
    ensures var placed := Placed(digit, prev, line, next);
      && Visible(placed) && Strip(placed) == Strip(line)
      && IsItem(digit, placed) == IsItem(digit, line)
      && (placed == line || (" " <= placed && !IsItem(digit, placed)))
  {
    var indent := Indent(digit, prev, line, next);
    if indent.Some? {
      StripOfSpaced(indent.value, line);
      MovedIsNoItem(digit, indent.value, line);
    }
  }

  // ----- What the repair keeps -----

  /** The visible lines without their indentation. */
  function Words(lines: seq<string>): seq<string> {
    if lines == [] then []
    else if Visible(lines[0]) then [Strip(lines[0])] + Words(lines[1..])
    else Words(lines[1..])
  }

  /** Only indentation and blank lines change. */
  lemma {:induction false} RepairKeepsWords(digit: char -> bool, prev: Option<string>, lines: seq<string>)
    ensures Words(Repaired(digit, prev, lines)) == Words(lines)
    decreases |lines|
  {
    if lines != [] {
      var line, rest := lines[0], lines[1..];
      if Visible(line) {
        var placed := Placed(digit, prev, line, FirstVisible(rest));
        PlacedFacts(digit, prev, line, FirstVisible(rest));
        RepairKeepsWords(digit, Some(placed), rest);
        assert ([placed] + Repaired(digit, Some(placed), rest))[1..] == Repaired(digit, Some(placed), rest);
      } else {
        RepairKeepsWords(digit, prev, rest);
        assert ([line] + Repaired(digit, prev, rest))[1..] == Repaired(digit, prev, rest);
      }
    }
  }

  predicate SameKind(digit: char -> bool, a: Option<string>, b: Option<string>) {
    a.Some? == b.Some? && (a.Some? ==> IsItem(digit, a.value) == IsItem(digit, b.value))
  }

  /** The first visible line stays, as an item or not, and moves only by being indented. */
  lemma {:induction false} FirstVisibleStays(digit: char -> bool, prev: Option<string>, lines: seq<string>)
    ensures var after := FirstVisible(Repaired(digit, prev, lines));
      && SameKind(digit, FirstVisible(lines), after)
      && (after.Some? ==> after == FirstVisible(lines) || " " <= after.value)
    decreases |lines|
  {
    if lines != [] {
      var line, rest := lines[0], lines[1..];
      if Visible(line) {
        PlacedFacts(digit, prev, line, FirstVisible(rest));
      } else {
        FirstVisibleStays(digit, prev, rest);
        assert ([line] + Repaired(digit, prev, rest))[1..] == Repaired(digit, prev, rest);
      }
    }
  }

  /** What follows the first visible line is repaired on its own. */
  lemma {:induction false} AfterVisibleStays(digit: char -> bool, prev: Option<string>, lines: seq<string>) returns (p: Option<string>)
    ensures AfterVisible(Repaired(digit, prev, lines)) == Repaired(digit, p, AfterVisible(lines))
    decreases |lines|
  {
    p := prev;
    if lines != [] {
      var line, rest := lines[0], lines[1..];
      if Visible(line) {
        var placed := Placed(digit, prev, line, FirstVisible(rest));
        PlacedFacts(digit, prev, line, FirstVisible(rest));
        p := Some(placed);
        assert ([placed] + Repaired(digit, p, rest))[1..] == Repaired(digit, p, rest);
      } else {
        p := AfterVisibleStays(digit, prev, rest);
        assert ([line] + Repaired(digit, prev, rest))[1..] == Repaired(digit, prev, rest);
      }
    }
  }

  /** Repairing twice is repairing once. */
  lemma {:induction false} RepairIsIdempotent(digit: char -> bool, prev: Option<string>, lines: seq<string>)
    ensures Repaired(digit, prev, Repaired(digit, prev, lines)) == Repaired(digit, prev, lines)
    decreases |lines|
  {
    if lines != [] {
      var line, rest := lines[0], lines[1..];
      if Visible(line) {
        var placed := Placed(digit, prev, line, FirstVisible(rest));
        var after := Repaired(digit, Some(placed), rest);
        PlacedFacts(digit, prev, line, FirstVisible(rest));
        FirstVisibleStays(digit, Some(placed), rest);
        assert Placed(digit, prev, placed, FirstVisible(after)) == placed;
        RepairIsIdempotent(digit, Some(placed), rest);
        assert ([placed] + after)[1..] == after;
      } else {
        RepairIsIdempotent(digit, prev, rest);
        if !DropsBlank(digit, prev, rest) {
          var after := Repaired(digit, prev, rest);
          BlankStays(digit, prev, rest);
          assert ([line] + after)[1..] == after;
        }
      }
    }
  }

  /** A blank line that was kept is kept again. */
  lemma {:induction false} BlankStays(digit: char -> bool, prev: Option<string>, rest: seq<string>)
    requires !DropsBlank(digit, prev, rest)
    ensures !DropsBlank(digit, prev, Repaired(digit, prev, rest))
  {
    var after := Repaired(digit, prev, rest);
    FirstVisibleStays(digit, prev, rest);
    var p := AfterVisibleStays(digit, prev, rest);
    FirstVisibleStays(digit, p, AfterVisible(rest));
  }

  // ----- Which documents are left alone -----

  /** Some visible line sits between two items without being attached to the first. */
  predicate Torn(digit: char -> bool, prev: Option<string>, lines: seq<string>)
    decreases |lines|
  {
    lines != [] &&
    if Visible(lines[0]) then
      Indent(digit, prev, lines[0], FirstVisible(lines[1..])).Some? || Torn(digit, Some(lines[0]), lines[1..])
    else Torn(digit, prev, lines[1..])
  }

  lemma {:induction false} DropsOnlyBeforeTorn(digit: char -> bool, prev: Option<string>, lines: seq<string>)
    ensures DropsBlank(digit, prev, lines) ==> Torn(digit, prev, lines)
    decreases |lines|
  {
    if lines != [] && !Visible(lines[0]) {
      DropsOnlyBeforeTorn(digit, prev, lines[1..]);
    }
  }

  lemma {:induction false} RepairNeverGrows(digit: char -> bool, prev: Option<string>, lines: seq<string>)
    ensures |Repaired(digit, prev, lines)| <= |lines|
    decreases |lines|
  {
    if lines != [] {
      RepairNeverGrows(digit, Some(Placed(digit, prev, lines[0], FirstVisible(lines[1..]))), lines[1..]);
      RepairNeverGrows(digit, prev, lines[1..]);
    }
  }

  /** A document is left as it is exactly when nothing in it is torn. */
  lemma {:induction false} UnchangedIff(digit: char -> bool, prev: Option<string>, lines: seq<string>)
    ensures Repaired(digit, prev, lines) == lines <==> !Torn(digit, prev, lines)
    decreases |lines|
  {
    if lines != [] {
      var line, rest := lines[0], lines[1..];
      assert lines == [line] + rest;
      if Visible(line) {
        var placed := Placed(digit, prev, line, FirstVisible(rest));
        var after := Repaired(digit, Some(placed), rest);
        assert Repaired(digit, prev, lines)[0] == placed && Repaired(digit, prev, lines)[1..] == after;
        UnchangedIff(digit, Some(placed), rest);
        MovedIsDifferent(digit, prev, line, FirstVisible(rest));
      } else {
        UnchangedIff(digit, prev, rest);
        DropsOnlyBeforeTorn(digit, prev, rest);
        RepairNeverGrows(digit, prev, rest);
        assert ([line] + Repaired(digit, prev, rest))[1..] == Repaired(digit, prev, rest);
      }
    }
  }

  lemma MovedIsDifferent(digit: char -> bool, prev: Option<string>, line: string, next: Option<string>)
    requires Visible(line)
    ensures Placed(digit, prev, line, next) == line <==> Indent(digit, prev, line, next).None?
  {
    var indent := Indent(digit, prev, line, next);
    if indent.Some? {
      assert " " <= Spaces(indent.value) + Strip(line);
    }
  }

  /** Nothing is torn after the repair. */
  lemma RepairMends(digit: char -> bool, lines: seq<string>)
    ensures !Torn(digit, None, Repaired(digit, None, lines))
  {
    RepairIsIdempotent(digit, None, lines);
    UnchangedIff(digit, None, Repaired(digit, None, lines));
  }

  // ----- The loop -----

  method LastNonemptyIndex(lines: seq<string>) returns (r: Option<nat>)
    ensures r.Some? ==> r.value < |lines| && LastVisible(lines) == Some(lines[r.value])
    ensures r.None? ==> LastVisible(lines) == None
  {
    var idx := |lines|;
    assert lines[..idx] == lines;
    while idx > 0
      invariant 0 <= idx <= |lines|
      invariant LastVisible(lines) == LastVisible(lines[..idx])
    {
      idx := idx - 1;
      assert lines[..idx + 1][..idx] == lines[..idx];
      if Visible(lines[idx]) {
        return Some(idx);
      }
    }
    return None;
  }

  method NextNonemptyIndex(lines: seq<string>, idx: nat) returns (r: Option<nat>)
    requires idx < |lines|
    ensures r.Some? ==>
              && idx < r.value < |lines| && FirstVisible(lines[idx + 1..]) == Some(lines[r.value])
              && AfterVisible(lines[idx + 1..]) == lines[r.value + 1..]
    ensures r.None? ==> FirstVisible(lines[idx + 1..]) == None
  {
    var pos := idx + 1;
    while pos < |lines|
      invariant idx < pos <= |lines|
      invariant FirstVisible(lines[idx + 1..]) == FirstVisible(lines[pos..])
      invariant AfterVisible(lines[idx + 1..]) == AfterVisible(lines[pos..])
    {
      assert lines[pos..][1..] == lines[pos + 1..];
      if Visible(lines[pos]) {
        return Some(pos);
      }
      pos := pos + 1;
    }
    return None;
  }

  method ListContinuationIndent(digit: char -> bool, lines: seq<string>, repaired: seq<string>, idx: nat) returns (r: Option<nat>)
    requires idx < |lines|
    ensures r == Indent(digit, LastVisible(repaired), lines[idx], FirstVisible(lines[idx + 1..]))
  {
    var line := lines[idx];
    if IsItem(digit, line) || " " <= line || "\t" <= line || IsBoundary(line) {
      return None;
    }
    var prev := LastNonemptyIndex(repaired);
    var next := NextNonemptyIndex(lines, idx);
    if prev.None? || next.None? {
      return None;
    }
    var previous := repaired[prev.value];
    if !IsItem(digit, previous) || !IsItem(digit, lines[next.value]) {
      return None;
    }
    return Some(Leading(previous) + 2);
  }

  method BlankLinePrecedesListContinuation(digit: char -> bool, lines: seq<string>, repaired: seq<string>, idx: nat) returns (r: bool)
    requires idx < |lines|
    ensures r == DropsBlank(digit, LastVisible(repaired), lines[idx + 1..])
  {
    hide IsItem, Indent, Visible;
    var prev := LastNonemptyIndex(repaired);
    var next := NextNonemptyIndex(lines, idx);
    if prev.None? || next.None? {
      return false;
    }
    if !IsItem(digit, repaired[prev.value]) {
      return false;
    }
    var indent := ListContinuationIndent(digit, lines, repaired, next.value);
    return indent.Some? && !IsItem(digit, lines[next.value]);
  }

  lemma LastVisibleSnoc(lines: seq<string>, line: string)
    ensures LastVisible(lines + [line]) == if Visible(line) then Some(line) else LastVisible(lines)
  {
    assert (lines + [line])[..|lines|] == lines;
  }

  /** The loop of `_repair_list_continuations`, on lines. */
  method RepairLines(digit: char -> bool, lines: seq<string>) returns (repaired: seq<string>)
    ensures repaired == Repaired(digit, None, lines)
  {
    repaired := [];
    var idx := 0;
    while idx < |lines|
      invariant 0 <= idx <= |lines|
      invariant repaired + Repaired(digit, LastVisible(repaired), lines[idx..]) == Repaired(digit, None, lines)
    {
      var line := lines[idx];
      assert lines[idx..][1..] == lines[idx + 1..];
      if !Visible(line) {
        var drops := BlankLinePrecedesListContinuation(digit, lines, repaired, idx);
        if !drops {
          LastVisibleSnoc(repaired, line);
          AppendOne(repaired, line, Repaired(digit, LastVisible(repaired), lines[idx + 1..]));
          repaired := repaired + [line];
        }
      } else {
        var indent := ListContinuationIndent(digit, lines, repaired, idx);
        var placed := if indent.Some? then Spaces(indent.value) + Strip(line) else line;
        PlacedFacts(digit, LastVisible(repaired), line, FirstVisible(lines[idx + 1..]));
        LastVisibleSnoc(repaired, placed);
        AppendOne(repaired, placed, Repaired(digit, Some(placed), lines[idx + 1..]));
        repaired := repaired + [placed];
      }
      idx := idx + 1;
    }
    assert repaired + [] == repaired;
  }

  // ----- Texts -----

  /** `text.split("\n")`. */
  function SplitNewlines(text: string): seq<string> {
    SplitAt(text, '\n')
  }

  /** `"\n".join(lines)`. */
  function JoinLines(lines: seq<string>): string {
    if lines == [] then "" else if |lines| == 1 then lines[0] else lines[0] + "\n" + JoinLines(lines[1..])
  }

  predicate NoNewlines(lines: seq<string>) {
    forall i :: 0 <= i < |lines| ==> '\n' !in lines[i]
  }

  /** Joining and splitting again gives the lines back. */
  lemma {:induction false} SplitOfJoin(lines: seq<string>)
    requires lines != [] && NoNewlines(lines)
    ensures SplitNewlines(JoinLines(lines)) == lines
    decreases |lines|
  {
    assert '\n' !in lines[0];
    if |lines| == 1 {
      SplitAtFirst(lines[0], '\n', "");
    } else {
      SplitOfJoin(lines[1..]);
      SplitAtFirst(lines[0], '\n', JoinLines(lines[1..]));
      assert lines == [lines[0]] + lines[1..];
    }
  }

  lemma PlacedHasNoNewlines(digit: char -> bool, prev: Option<string>, line: string, next: Option<string>)
    requires '\n' !in line
    ensures '\n' !in Placed(digit, prev, line, next)
  {
  }

  lemma RestHasNoNewlines(lines: seq<string>)
    requires lines != [] && NoNewlines(lines)
    ensures NoNewlines(lines[1..])
  {
  }

  lemma NothingToDrop(digit: char -> bool, prev: Option<string>)
    ensures !DropsBlank(digit, prev, [])
  {
  }

  lemma {:induction false} RepairKeepsLines(digit: char -> bool, prev: Option<string>, lines: seq<string>)
    requires lines != [] && NoNewlines(lines)
    ensures Repaired(digit, prev, lines) != [] && NoNewlines(Repaired(digit, prev, lines))
    decreases |lines|
  {
    hide Placed, DropsBlank, FirstVisible, Visible;
    var line, rest := lines[0], lines[1..];
    assert '\n' !in line;
    RestHasNoNewlines(lines);
    if rest == [] {
      NothingToDrop(digit, prev);
      assert Repaired(digit, if Visible(line) then Some(Placed(digit, prev, line, FirstVisible(rest))) else prev, rest) == [];
    }
    if Visible(line) {
      var placed := Placed(digit, prev, line, FirstVisible(rest));
      PlacedHasNoNewlines(digit, prev, line, FirstVisible(rest));
      if rest != [] {
        RepairKeepsLines(digit, Some(placed), rest);
      }
    } else if rest != [] {
      RepairKeepsLines(digit, prev, rest);
    }
  }

  function Repair(digit: char -> bool, text: string): string {
    JoinLines(Repaired(digit, None, SplitNewlines(text)))
  }

  /** `_repair_list_continuations`. */
  method RepairListContinuations(digit: char -> bool, text: string) returns (repaired: string)
    ensures repaired == Repair(digit, text)
  {
    var lines := RepairLines(digit, SplitNewlines(text));
    repaired := JoinLines(lines);
  }

  /** For any document: repairing twice is repairing once, and the visible words stay in order. */
  lemma RepairOfTexts(digit: char -> bool, text: string)
    ensures Repair(digit, Repair(digit, text)) == Repair(digit, text)
    ensures Words(SplitNewlines(Repair(digit, text))) == Words(SplitNewlines(text))
  {
    var lines := SplitNewlines(text);
    SplitAtLeavesNone(text, '\n');
    RepairKeepsLines(digit, None, lines);
    SplitOfJoin(Repaired(digit, None, lines));
    RepairIsIdempotent(digit, None, lines);
    RepairKeepsWords(digit, None, lines);
  }
}
