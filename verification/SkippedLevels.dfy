/** For which documents the recorded section paths are the enclosing headings, exactly. */
module SkippedLevels {
  import opened Options
  import opened Text
  import opened Lines
  import opened Sections
  import opened Ancestry
  import opened HeadingPatterns

  // ----- The enclosing headings, without any path -----

  /** Heading `j` still encloses what follows heading `n - 1`: every later heading is deeper. */
  predicate Encloses(hs: seq<HeadingAt>, j: nat, n: nat)
    requires j < n <= |hs|
  {
    forall m :: j < m < n ==> hs[m].level > hs[j].level
  }

  /** The headings from `lo` on that enclose what follows the first `n`, outermost first. */
  function Enclosing(hs: seq<HeadingAt>, lo: nat, n: nat): seq<HeadingAt>
    requires lo <= n <= |hs|
    decreases n - lo
  {
    if lo == n then []
    else (if Encloses(hs, lo, n) then [hs[lo]] else []) + Enclosing(hs, lo + 1, n)
  }

  function Titles(hs: seq<HeadingAt>): (r: seq<string>)
    ensures |r| == |hs| && forall i :: 0 <= i < |hs| ==> r[i] == hs[i].title
  {
    seq(|hs|, i requires 0 <= i < |hs| => hs[i].title)
  }

  /** The first headings of a chain that are shallower than `level`. */
  function Cut(c: seq<HeadingAt>, level: nat): seq<HeadingAt> {
    if c == [] || c[0].level >= level then [] else [c[0]] + Cut(c[1..], level)
  }

  lemma {:induction false} CutStops(c: seq<HeadingAt>, level: nat)
    ensures var r := Cut(c, level);
      && r <= c && (forall k :: 0 <= k < |r| ==> c[k].level < level)
      && (|r| < |c| ==> c[|r|].level >= level)
    decreases |c|
  {
    if c != [] && c[0].level < level {
      CutStops(c[1..], level);
    }
  }

  predicate DeeperThan(c: seq<HeadingAt>, level: nat) {
    forall i :: 0 <= i < |c| ==> c[i].level > level
  }

  predicate Positive(c: seq<HeadingAt>) {
    forall i :: 0 <= i < |c| ==> c[i].level >= 1
  }

  /** From the outside in, the levels grow. */
  predicate Deepens(c: seq<HeadingAt>) {
    forall i, k :: 0 <= i < k < |c| ==> c[i].level < c[k].level
  }

  lemma {:induction false} EnclosingMember(hs: seq<HeadingAt>, lo: nat, n: nat, i: nat) returns (m: nat)
    requires lo <= n <= |hs| && i < |Enclosing(hs, lo, n)|
    ensures lo <= m < n && Enclosing(hs, lo, n)[i] == hs[m]
    decreases n - lo
  {
    if Encloses(hs, lo, n) {
      m := lo;
      if i > 0 {
        m := EnclosingMember(hs, lo + 1, n, i - 1);
      }
    } else {
      m := EnclosingMember(hs, lo + 1, n, i);
    }
  }

  lemma {:induction false} EnclosingDeepens(hs: seq<HeadingAt>, lo: nat, n: nat)
    requires lo <= n <= |hs|
    ensures Deepens(Enclosing(hs, lo, n))
    ensures lo < n && Encloses(hs, lo, n) ==> DeeperThan(Enclosing(hs, lo + 1, n), hs[lo].level)
    ensures PositiveLevels(hs) ==> Positive(Enclosing(hs, lo, n))
    decreases n - lo
  {
    if lo < n {
      EnclosingDeepens(hs, lo + 1, n);
      var rest := Enclosing(hs, lo + 1, n);
      if Encloses(hs, lo, n) {
        forall i | 0 <= i < |rest| ensures rest[i].level > hs[lo].level {
          var m := EnclosingMember(hs, lo + 1, n, i);
        }
      }
    }
  }

  lemma {:induction false} CutCons(h: HeadingAt, rest: seq<HeadingAt>, level: nat)
    ensures Cut([h] + rest, level) == if h.level >= level then [] else [h] + Cut(rest, level)
    ensures h.level >= level && DeeperThan(rest, h.level) ==> Cut(rest, level) == []
  {
    assert ([h] + rest)[0] == h && ([h] + rest)[1..] == rest;
  }

  /** The next heading closes what is not shallower than itself, and joins the rest. */
  lemma {:induction false} EnclosingStep(hs: seq<HeadingAt>, lo: nat, n: nat)
    requires lo <= n < |hs|
    ensures Enclosing(hs, lo, n + 1) == Cut(Enclosing(hs, lo, n), hs[n].level) + [hs[n]]
    decreases n - lo
  {
    hide Cut, Encloses, DeeperThan, Deepens, Enclosing, Positive, PositiveLevels;
    if lo < n {
      EnclosingStep(hs, lo + 1, n);
      EnclosingDeepens(hs, lo, n);
      EnclosesStep(hs, lo, n);
      EnclosingUnfold(hs, lo, n);
      EnclosingUnfold(hs, lo, n + 1);
      if Encloses(hs, lo, n) {
        var x, rest := hs[lo], Enclosing(hs, lo + 1, n);
        CutCons(x, rest, hs[n].level);
        if hs[n].level > x.level {
          AppendAssoc([x], Cut(rest, hs[n].level), [hs[n]]);
        }
      }
    } else {
      EnclosingLast(hs, n);
    }
  }

  lemma {:induction false} EnclosingLast(hs: seq<HeadingAt>, n: nat)
    requires n < |hs|
    ensures Enclosing(hs, n, n) == [] && Enclosing(hs, n, n + 1) == [hs[n]] && Cut([], hs[n].level) == []
  {
    assert Enclosing(hs, n + 1, n + 1) == [];
  }

  lemma {:induction false} EnclosesStep(hs: seq<HeadingAt>, j: nat, n: nat)
    requires j < n < |hs|
    ensures Encloses(hs, j, n + 1) <==> Encloses(hs, j, n) && hs[n].level > hs[j].level
  {
  }

  lemma {:induction false} EnclosingUnfold(hs: seq<HeadingAt>, lo: nat, n: nat)
    requires lo < n <= |hs|
    ensures Enclosing(hs, lo, n) == if Encloses(hs, lo, n) then [hs[lo]] + Enclosing(hs, lo + 1, n) else Enclosing(hs, lo + 1, n)
  {
    hide Encloses;
  }

  // ----- When truncating by level closes the right headings -----

  /** Every enclosing heading that truncation by level keeps is shallower than the new one. */
  predicate SafeAt(c: seq<HeadingAt>, level: nat) {
    forall k :: 0 <= k < |c| && k < level - 1 ==> c[k].level < level
  }

  lemma {:induction false} LevelsPassDepth(c: seq<HeadingAt>, k: nat)
    requires Deepens(c) && Positive(c) && k < |c|
    ensures c[k].level >= k + 1
  {
    if k > 0 {
      LevelsPassDepth(c, k - 1);
    }
  }

  lemma {:induction false} CutIsTruncationIff(c: seq<HeadingAt>, level: nat)
    requires Deepens(c) && Positive(c) && level >= 1
    ensures |Cut(c, level)| == (if level - 1 < |c| then level - 1 else |c|) <==> SafeAt(c, level)
  {
    CutStops(c, level);
    var n := |Cut(c, level)|;
    if n > 0 {
      LevelsPassDepth(c, n - 1);
    }
  }

  predicate Safe(hs: seq<HeadingAt>) {
    forall i :: 0 <= i < |hs| ==> SafeAt(Enclosing(hs, 0, i), hs[i].level)
  }

  predicate RightAt(hs: seq<HeadingAt>, i: nat)
    requires i <= |hs|
  {
    PathAfter(hs, i, []) == Titles(Enclosing(hs, 0, i))
  }

  lemma {:induction false} StepIsRightIff(hs: seq<HeadingAt>, i: nat)
    requires i < |hs| && PositiveLevels(hs) && RightAt(hs, i)
    ensures RightAt(hs, i + 1) <==> SafeAt(Enclosing(hs, 0, i), hs[i].level)
  {
    var c, h := Enclosing(hs, 0, i), hs[i];
    EnclosingStep(hs, 0, i);
    EnclosingDeepens(hs, 0, i);
    CutIsTruncationIff(c, h.level);
    CutStops(c, h.level);
    hide Enclosing, SafeAt, Deepens, Positive, Cut;
    EntersRightIff(c, Cut(c, h.level), h);
  }

  lemma {:induction false} EntersRightIff(c: seq<HeadingAt>, cut: seq<HeadingAt>, h: HeadingAt)
    requires cut <= c && h.level >= 1
    ensures Enter(Titles(c), h) == Titles(cut + [h]) <==> |cut| == if h.level - 1 < |c| then h.level - 1 else |c|
  {
    var path, all := Titles(c), Titles(cut + [h]);
    var kept := if h.level - 1 < |path| then path[..h.level - 1] else path;
    assert Enter(path, h) == kept + [h.title];
    assert |kept| == |cut| ==> kept + [h.title] == all;
  }

  lemma {:induction false} NothingYet(hs: seq<HeadingAt>)
    ensures RightAt(hs, 0)
  {
  }

  lemma {:induction false} SafeMeansRight(hs: seq<HeadingAt>, i: nat)
    requires i <= |hs| && PositiveLevels(hs) && Safe(hs)
    ensures RightAt(hs, i)
    decreases i
  {
    hide RightAt, SafeAt, Enclosing, PositiveLevels;
    if i > 0 {
      SafeMeansRight(hs, i - 1);
      assert SafeAt(Enclosing(hs, 0, i - 1), hs[i - 1].level);
      StepIsRightIff(hs, i - 1);
    } else {
      NothingYet(hs);
    }
  }

  predicate PathRight(hs: seq<HeadingAt>, states: seq<PathState>, i: nat)
    requires i < |hs| == |states|
  {
    states[i].path == Titles(Enclosing(hs, 0, i + 1))
  }

  /** Every recorded path is the titles of the enclosing headings, the heading itself last. */
  predicate PathsRight(hs: seq<HeadingAt>, states: seq<PathState>) {
    |states| == |hs| && forall i :: 0 <= i < |hs| ==> PathRight(hs, states, i)
  }

  lemma {:induction false} PathRightIff(hs: seq<HeadingAt>, i: nat)
    requires i < |hs|
    ensures PathRight(hs, Paths(hs, []), i) <==> RightAt(hs, i + 1)
  {
    PathsAt(hs, [], i);
  }

  lemma {:induction false} RightMeansSafe(hs: seq<HeadingAt>, i: nat)
    requires i < |hs| && PositiveLevels(hs) && PathsRight(hs, Paths(hs, []))
    ensures SafeAt(Enclosing(hs, 0, i), hs[i].level)
  {
    hide Paths, PathAfter, Titles;
    PathRightIff(hs, i);
    assert PathRight(hs, Paths(hs, []), i);
    if i > 0 {
      PathRightIff(hs, i - 1);
      assert PathRight(hs, Paths(hs, []), i - 1);
    } else {
      NothingYet(hs);
    }
    StepIsRightIff(hs, i);
  }

  /**
    The recorded paths are the heading ancestry exactly when no heading leaves an enclosing one in place that
    is not shallower than itself.
   */
  lemma {:induction false} PathsAreAncestryIffSafe(hs: seq<HeadingAt>)
    requires PositiveLevels(hs)
    ensures PathsRight(hs, Paths(hs, [])) <==> Safe(hs)
  {
    hide PathRight, SafeAt, RightAt, Enclosing;
    if Safe(hs) {
      forall i | 0 <= i < |hs| ensures PathRight(hs, Paths(hs, []), i) {
        SafeMeansRight(hs, i + 1);
        PathRightIff(hs, i);
      }
    }
    if PathsRight(hs, Paths(hs, [])) {
      forall i | 0 <= i < |hs| ensures SafeAt(Enclosing(hs, 0, i), hs[i].level) {
        RightMeansSafe(hs, i);
      }
    }
  }

  /** The section paths of a document are its heading ancestry exactly when its headings are safe. */
  lemma {:induction false} SectionPathsAreAncestryIff(markdown: string)
    ensures PathsRight(DocumentHeadings(markdown), SectionStates(markdown)) <==> Safe(DocumentHeadings(markdown))
  {
    hide Headings, Paths, Safe, PathsRight;
    HeadingsIncrease(SplitLines(markdown), 0, Outside);
    PathsAreAncestryIffSafe(DocumentHeadings(markdown));
  }

  /** A document that never skips a level is safe; one that skips may be. */
  lemma {:induction false} NeverSkippingIsSafe(hs: seq<HeadingAt>)
    requires PositiveLevels(hs) && NeverSkips(hs)
    ensures Safe(hs)
  {
    forall i | 0 <= i < |hs| ensures SafeAt(Enclosing(hs, 0, i), hs[i].level) {
      NoSkipsFillLevels(hs, i);
      if i > 0 {
        var c := Enclosing(hs, 0, i);
        forall k | 0 <= k < |c| && k < hs[i].level - 1 ensures c[k].level < hs[i].level {
          assert c[k].level == k + 1;
        }
      }
    }
  }

  /** One heading of each level, from 1 on. */
  predicate Filled(c: seq<HeadingAt>) {
    forall k :: 0 <= k < |c| ==> c[k].level == k + 1
  }

  lemma {:induction false} FilledCut(c: seq<HeadingAt>, h: HeadingAt)
    requires Filled(c) && 1 <= h.level <= |c| + 1
    ensures Filled(Cut(c, h.level) + [h]) && |Cut(c, h.level) + [h]| == h.level
  {
    CutStops(c, h.level);
    var n := |Cut(c, h.level)|;
    assert n < |c| ==> c[n].level >= h.level;
    assert n > 0 ==> c[n - 1].level < h.level;
  }

  /** Without skips, the enclosing headings have the levels 1, 2, 3 and so on. */
  lemma {:induction false} NoSkipsFillLevels(hs: seq<HeadingAt>, n: nat)
    requires n <= |hs| && PositiveLevels(hs) && NeverSkips(hs)
    ensures Filled(Enclosing(hs, 0, n)) && |Enclosing(hs, 0, n)| == if n == 0 then 0 else hs[n - 1].level
    decreases n
  {
    if n > 0 {
      NoSkipsFillLevels(hs, n - 1);
      EnclosingStep(hs, 0, n - 1);
      assert 1 <= hs[n - 1].level <= LevelBefore(hs, n - 1) + 1;
      hide Enclosing, NeverSkips, PositiveLevels, Filled, Cut;
      FilledCut(Enclosing(hs, 0, n - 1), hs[n - 1]);
    }
  }

  // ----- Two documents -----

  function HeadingLine(level: nat, title: char): string {
    seq(level, _ => '#') + " " + [title]
  }

  predicate IsLetter(c: char) {
    'A' <= c <= 'Z'
  }

  /** The characters of a heading line: the run of `#`, a space, the title. */
  predicate HasShape(line: string, level: nat, title: char) {
    && |line| == level + 2 && line[level] == ' ' && line[level + 1] == title
    && forall i :: 0 <= i < level ==> line[i] == '#'
  }

  lemma {:induction false} HeadingLineShape(level: nat, title: char)
    ensures HasShape(HeadingLine(level, title), level, title)
  {
  }

  lemma {:induction false} ShapeHasNoBreaks(line: string, level: nat, title: char)
    requires HasShape(line, level, title) && IsLetter(title)
    ensures NoBreaks(line)
  {
  }

  lemma {:induction false} ShapeIsNoFence(line: string, level: nat, title: char)
    requires HasShape(line, level, title) && level >= 1
    ensures FenceMarker(line) == None
  {
    assert line[0] == '#' && line[0..] == line;
  }

  lemma {:induction false} LetterIsTitle(title: char)
    requires IsLetter(title)
    ensures IsTitle([title], 1) && Strip([title]) == [title]
  {
    assert ClosesAt([title][1..], 0, 0);
    StripsTo([title], 0, 1);
    assert [title][0..1] == [title];
  }

  lemma {:induction false} ShapeIsHeading(line: string, level: nat, title: char)
    requires HasShape(line, level, title) && 1 <= level <= 6 && IsLetter(title)
    ensures HeadingOf(line) == Some(Heading(0, level, [title]))
  {
    hide IsTitle, Strip, HeadingOf;
    var at := level + 1;
    LetterIsTitle(title);
    assert line[at..] == [title] && line[at..at + 1] == [title];
    MatchIsFound(line, Heading(0, level, [title]), 1, 1);
  }

  lemma {:induction false} TrailingNewline(line: string)
    requires line != "" && line[|line| - 1] != '\n' && line[|line| - 1] != '\r'
    ensures WithoutNewline(line + "\n") == line
  {
    assert (line + "\n")[..|line|] == line;
  }

  lemma {:induction false} HeadingLineIsHeading(level: nat, title: char, f: FenceState)
    requires 1 <= level <= 6 && IsLetter(title)
    ensures var line := HeadingLine(level, title);
      && NoBreaks(line) && |line| == level + 2 && AfterLine(f, line + "\n") == f
      && LineHeading(Outside, line + "\n") == Some(Heading(0, level, [title]))
  {
    hide HeadingLine, NoBreaks, FenceMarker, HeadingOf, WithoutNewline;
    var line := HeadingLine(level, title);
    HeadingLineShape(level, title);
    ShapeHasNoBreaks(line, level, title);
    ShapeIsNoFence(line, level, title);
    ShapeIsHeading(line, level, title);
    TrailingNewline(line);
  }

  lemma {:induction false} SplitFirstLine(line: string, rest: string)
    requires NoBreaks(line)
    ensures SplitLines(line + "\n" + rest) == [line + "\n"] + SplitLines(rest)
  {
    FirstLineEnds(line, rest);
    hide FirstLine, NoBreaks;
    var text := line + "\n" + rest;
    assert text[..|line| + 1] == line + "\n" && text[|line| + 1..] == rest;
  }

  /** A heading line in front of a text is a heading in front of the text's. */
  lemma {:induction false} HeadingLineInFront(level: nat, title: char, rest: string, offset: nat)
    requires 1 <= level <= 6 && IsLetter(title)
    ensures Headings(SplitLines(HeadingLine(level, title) + "\n" + rest), offset, Outside)
         == [HeadingAt(offset, level, [title])] + Headings(SplitLines(rest), offset + level + 3, Outside)
  {
    hide HeadingLine, LineHeading, AfterLine, SplitLines, Headings, NoBreaks;
    var line := HeadingLine(level, title);
    var lines := [line + "\n"] + SplitLines(rest);
    HeadingLineIsHeading(level, title, Outside);
    SplitFirstLine(line, rest);
    HeadingsUnfold(lines, offset, Outside, 0);
    assert lines[0..] == lines && lines[1..] == SplitLines(rest);
    assert offset + 0 == offset;
  }

  const NESTING := "# A\n### B\n### C\n"
  const HARMLESS := "# A\n### B\n"

  lemma {:induction false} DocumentsAreHeadingLines()
    ensures HARMLESS == HeadingLine(1, 'A') + "\n" + (HeadingLine(3, 'B') + "\n" + "")
    ensures NESTING == HeadingLine(1, 'A') + "\n" + (HeadingLine(3, 'B') + "\n" + (HeadingLine(3, 'C') + "\n" + ""))
  {
    assert HeadingLine(1, 'A') == "# A";
    assert HeadingLine(3, 'B') == "### B";
    assert HeadingLine(3, 'C') == "### C";
  }

  lemma {:induction false} NothingAfter(offset: nat)
    ensures Headings(SplitLines(""), offset, Outside) == []
  {
  }

  lemma {:induction false} NestedPaths(a: HeadingAt, b: HeadingAt, c: HeadingAt)
    requires a == HeadingAt(0, 1, "A") && b == HeadingAt(4, 3, "B") && c == HeadingAt(10, 3, "C")
    ensures Paths([a] + ([b] + ([c] + [])), [])
         == [PathState(0, ["A"]), PathState(4, ["A", "B"]), PathState(10, ["A", "B", "C"])]
  {
    assert Enter([], a) == ["A"] && Enter(["A"], b) == ["A", "B"];
    assert ["A", "B"][..2] == ["A", "B"] && Enter(["A", "B"], c) == ["A", "B", "C"];
    hide Paths, Enter;
    PathsUnfold(a, [b] + ([c] + []), []);
    PathsUnfold(b, [c] + [], ["A"]);
    PathsUnfold(c, [], ["A", "B"]);
    NoPaths(["A", "B", "C"]);
  }

  lemma {:induction false} NoPaths(path: seq<string>)
    ensures Paths([], path) == []
  {
  }

  /** In a document that skips a level once, siblings nest: the path of `C` goes through `B`. */
  lemma {:induction false} SiblingsNestAfterSkip()
    ensures SectionStates(NESTING) == [PathState(0, ["A"]), PathState(4, ["A", "B"]), PathState(10, ["A", "B", "C"])]
    ensures !Safe(DocumentHeadings(NESTING)) && !PathsRight(DocumentHeadings(NESTING), SectionStates(NESTING))
  {
    hide Headings, SplitLines, HeadingLine, Safe, PathsRight;
    DocumentsAreHeadingLines();
    var a, b, c := HeadingAt(0, 1, "A"), HeadingAt(4, 3, "B"), HeadingAt(10, 3, "C");
    HeadingLineInFront(1, 'A', HeadingLine(3, 'B') + "\n" + (HeadingLine(3, 'C') + "\n" + ""), 0);
    HeadingLineInFront(3, 'B', HeadingLine(3, 'C') + "\n" + "", 4);
    HeadingLineInFront(3, 'C', "", 10);
    NothingAfter(16);
    var hs := [a] + ([b] + ([c] + []));
    assert DocumentHeadings(NESTING) == hs;
    NestedPaths(a, b, c);
    UnsafeSiblings(hs);
    SectionPathsAreAncestryIff(NESTING);
  }

  lemma {:induction false} UnsafeSiblings(hs: seq<HeadingAt>)
    requires |hs| == 3 && hs[0].level == 1 && hs[1].level == 3 && hs[2].level == 3
    ensures !Safe(hs)
  {
    EnclosingStep(hs, 0, 0);
    assert Enclosing(hs, 0, 0) == [];
    assert Enclosing(hs, 0, 1) == [hs[0]];
    EnclosingStep(hs, 0, 1);
    assert [hs[0]][1..] == [];
    assert Enclosing(hs, 0, 2) == [hs[0], hs[1]];
    assert Enclosing(hs, 0, 2)[1].level == 3;
    assert !SafeAt(Enclosing(hs, 0, 2), hs[2].level);
  }

  /** A document may skip a level and keep its paths right. */
  lemma {:induction false} SkippingCanBeHarmless()
    ensures !NeverSkips(DocumentHeadings(HARMLESS)) && PathsRight(DocumentHeadings(HARMLESS), SectionStates(HARMLESS))
  {
    hide Headings, SplitLines, HeadingLine, Safe, PathsRight;
    DocumentsAreHeadingLines();
    HeadingLineInFront(1, 'A', HeadingLine(3, 'B') + "\n" + "", 0);
    HeadingLineInFront(3, 'B', "", 4);
    NothingAfter(10);
    var hs := [HeadingAt(0, 1, "A")] + ([HeadingAt(4, 3, "B")] + []);
    assert DocumentHeadings(HARMLESS) == hs;
    assert !(hs[1].level <= LevelBefore(hs, 1) + 1);
    SafePair(hs);
    SectionPathsAreAncestryIff(HARMLESS);
  }

  lemma {:induction false} SafePair(hs: seq<HeadingAt>)
    requires |hs| == 2 && hs[0].level == 1 && hs[1].level == 3
    ensures Safe(hs)
  {
    EnclosingStep(hs, 0, 0);
    assert Enclosing(hs, 0, 0) == [];
    assert Enclosing(hs, 0, 1) == [hs[0]];
  }
}
