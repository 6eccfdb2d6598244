/** Heading ancestry: which headings are open at an offset of the document. */
module Sections {
  import opened Options
  import opened Text
  import opened Lines

  // ----- Recognisers -----

  /** A fence line of the chunker: at most three blanks, then the run. */
  function FenceMarker(line: string): Option<Marker> {
    var k := LeadingWhile(line, IsBlank);
    if k > 3 then None else FenceRun(line[k..])
  }

  predicate IsSpaceChar(c: char) {
    c == ' '
  }

  predicate IsHash(c: char) {
    c == '#'
  }

  datatype Heading = Heading(indent: nat, level: nat, title: string)

  /** The title part of a heading body: without trailing blanks and without a closing run of `#`. */
  function TitleText(body: string): string
    requires body != ""
  {
    var r := DropTrailing(body, IsBlank);
    var h := DropTrailing(r, IsHash);
    var t := if h == r then r else DropTrailing(h, IsBlank);
    if t == "" then body[..1] else t
  }

  /** An ATX heading with a non-empty title. */
  function HeadingOf(line: string): (h: Option<Heading>)
    ensures h.Some? ==> h.value.indent < |line| && 1 <= h.value.level <= 6 && h.value.title != ""
  {
    var indent := LeadingWhile(line, IsSpaceChar);
    var hashes := line[indent..];
    var level := LeadingWhile(hashes, IsHash);
    if indent > 3 || level < 1 || level > 6 then None
    else
      var rest := hashes[level..];
      var blanks := LeadingWhile(rest, IsBlank);
      if blanks == 0 || blanks == |rest| then None
      else
        var title := Strip(TitleText(rest[blanks..]));
        if title == "" then None else Some(Heading(indent, level, title))
  }

  // ----- The scan over the lines -----

  datatype FenceState = Outside | Inside(open: Marker)

  function Toggle(f: FenceState, m: Marker): FenceState {
    match f
    case Outside => Inside(m)
    case Inside(open) => if m.ch == open.ch && m.size >= open.size then Outside else f
  }

  datatype HeadingAt = HeadingAt(offset: nat, level: nat, title: string)

  datatype PathState = PathState(offset: nat, path: seq<string>)

  /** The fence state after a line. */
  function AfterLine(f: FenceState, line: string): FenceState {
    match FenceMarker(WithoutNewline(line))
    case Some(m) => Toggle(f, m)
    case None => f
  }

  /** The heading a line makes, if it is not a fence line and no fence is open. */
  function LineHeading(f: FenceState, line: string): (h: Option<Heading>)
    ensures h.Some? ==> h.value.indent < |line| && 1 <= h.value.level <= 6 && h.value.title != ""
  {
    var text := WithoutNewline(line);
    if FenceMarker(text).Some? || f.Inside? then None else HeadingOf(text)
  }

  /** All headings outside fences, in document order. */
  function Headings(lines: seq<string>, offset: nat, f: FenceState): seq<HeadingAt> {
    if lines == [] then []
    else
      var rest := Headings(lines[1..], offset + |lines[0]|, AfterLine(f, lines[0]));
      match LineHeading(f, lines[0])
      case None => rest
      case Some(h) => [HeadingAt(offset + h.indent, h.level, h.title)] + rest
  }

  /** A heading of level `level` replaces everything from position `level - 1` on. */
  function Enter(path: seq<string>, h: HeadingAt): seq<string> {
    var keep := if h.level == 0 then 0 else h.level - 1;
    (if keep < |path| then path[..keep] else path) + [h.title]
  }

  function Paths(hs: seq<HeadingAt>, path: seq<string>): (states: seq<PathState>)
    ensures |states| == |hs|
  {
    if hs == [] then []
    else
      var path' := Enter(path, hs[0]);
      [PathState(hs[0].offset, path')] + Paths(hs[1..], path')
  }

  function DocumentHeadings(markdown: string): seq<HeadingAt> {
    Headings(SplitLines(markdown), 0, Outside)
  }

  function SectionStates(markdown: string): seq<PathState> {
    Paths(DocumentHeadings(markdown), [])
  }

  method BuildSectionPathStates(markdown: string) returns (states: seq<PathState>)
    ensures states == SectionStates(markdown)
  {
    hide Headings, Paths, HeadingOf, FenceMarker, Toggle, Enter;
    states := [];
    var activePath: seq<string> := [];
    var fence := Outside;
    var offset: nat := 0;
    var lines := SplitLines(markdown);
    assert lines[0..] == lines;
    for n := 0 to |lines|
      invariant states + Paths(Headings(lines[n..], offset, fence), activePath) == SectionStates(markdown)
    {
      var line := lines[n];
      var lineNoNewline := WithoutNewline(line);
      ghost var fence0, offset0 := fence, offset;
      HeadingsUnfold(lines, offset0, fence0, n);
      match FenceMarker(lineNoNewline) {
        case Some(marker) =>
          fence := Toggle(fence, marker);
          offset := offset + |line|;
          continue;
        case None =>
      }
      if fence == Outside {
        match HeadingOf(lineNoNewline) {
          case Some(h) =>
            var heading := HeadingAt(offset + h.indent, h.level, h.title);
            PathsUnfold(heading, Headings(lines[n + 1..], offset0 + |line|, fence0), activePath);
            activePath := Enter(activePath, heading);
            var state := PathState(heading.offset, activePath);
            AppendOne(states, state, Paths(Headings(lines[n + 1..], offset0 + |line|, fence0), activePath));
            states := states + [state];
          case None =>
        }
      }
      offset := offset + |line|;
    }
    NoLinesLeft(lines[|lines|..], offset, fence, activePath);
  }

  lemma {:induction false} HeadingsUnfold(lines: seq<string>, offset: nat, f: FenceState, n: nat)
    requires n < |lines|
    ensures Headings(lines[n..], offset, f) ==
      var rest := Headings(lines[n + 1..], offset + |lines[n]|, AfterLine(f, lines[n]));
      match LineHeading(f, lines[n])
      case None => rest
      case Some(h) => [HeadingAt(offset + h.indent, h.level, h.title)] + rest
  {
    hide LineHeading, AfterLine;
    assert lines[n..][1..] == lines[n + 1..];
  }

  lemma PathsUnfold(h: HeadingAt, hs: seq<HeadingAt>, path: seq<string>)
    ensures Paths([h] + hs, path) == [PathState(h.offset, Enter(path, h))] + Paths(hs, Enter(path, h))
  {
    assert ([h] + hs)[1..] == hs;
  }

  lemma NoLinesLeft(none: seq<string>, offset: nat, f: FenceState, path: seq<string>)
    requires none == []
    ensures Headings(none, offset, f) == []
    ensures Paths(Headings(none, offset, f), path) == []
  {
  }

  // ----- Which lines are headings -----

  function LineStart(lines: seq<string>, n: nat): nat
    requires n <= |lines|
  {
    if n == 0 then 0 else LineStart(lines, n - 1) + |lines[n - 1]|
  }

  /** The fence state in front of line `n`: every earlier line took part. */
  function FenceBefore(lines: seq<string>, n: nat): FenceState
    requires n <= |lines|
  {
    if n == 0 then Outside else AfterLine(FenceBefore(lines, n - 1), lines[n - 1])
  }

  /** `h` is the heading of line `n`, which is neither a fence line nor inside a fence. */
  ghost predicate IsHeadingLine(lines: seq<string>, n: nat, h: HeadingAt)
    requires n < |lines|
  {
    var text := WithoutNewline(lines[n]);
    && FenceMarker(text).None? && FenceBefore(lines, n).Outside?
    && HeadingOf(text).Some?
    && h == HeadingAt(LineStart(lines, n) + HeadingOf(text).value.indent, HeadingOf(text).value.level, HeadingOf(text).value.title)
  }

  /** The headings the scan collects from line `n` on are exactly the heading lines from `n` on. */
  lemma {:induction false} HeadingsAreHeadingLines(lines: seq<string>, n: nat)
    requires n <= |lines|
    ensures forall h :: h in Headings(lines[n..], LineStart(lines, n), FenceBefore(lines, n)) <==>
      exists i :: n <= i < |lines| && IsHeadingLine(lines, i, h)
    decreases |lines| - n
  {
    hide HeadingOf, FenceMarker, Toggle, WithoutNewline, Headings;
    if n < |lines| {
      var f := FenceBefore(lines, n);
      HeadingsUnfold(lines, LineStart(lines, n), f, n);
      HeadingsAreHeadingLines(lines, n + 1);
      var rest := Headings(lines[n + 1..], LineStart(lines, n + 1), FenceBefore(lines, n + 1));
      forall h
        ensures h in Headings(lines[n..], LineStart(lines, n), f) <==> h in rest || IsHeadingLine(lines, n, h)
      {
      }
    } else {
      NoLinesLeft(lines[n..], LineStart(lines, n), FenceBefore(lines, n), []);
      assert lines[n..] == [];
    }
  }

  ghost predicate Increasing(hs: seq<HeadingAt>, lo: nat, hi: nat) {
    hs != [] ==> lo <= hs[0].offset < hi && Increasing(hs[1..], hs[0].offset + 1, hi)
  }

  lemma IncreasingFromLower(hs: seq<HeadingAt>, lo: nat, lo': nat, hi: nat)
    requires Increasing(hs, lo, hi) && lo' <= lo
    ensures Increasing(hs, lo', hi)
  {
  }

  /** Heading offsets are strictly increasing and inside the document. */
  lemma {:induction false} HeadingsIncrease(lines: seq<string>, offset: nat, f: FenceState)
    ensures Increasing(Headings(lines, offset, f), offset, offset + |Concat(lines)|)
    ensures forall h :: h in Headings(lines, offset, f) ==> 1 <= h.level <= 6 && h.title != ""
    decreases |lines|
  {
    hide LineHeading, AfterLine, Headings;
    if lines == [] {
      NoLinesLeft(lines, offset, f, []);
    } else {
      var line := lines[0];
      assert lines[0..] == lines;
      HeadingsUnfold(lines, offset, f, 0);
      var rest := Headings(lines[1..], offset + |line|, AfterLine(f, line));
      HeadingsIncrease(lines[1..], offset + |line|, AfterLine(f, line));
      var hi := offset + |Concat(lines)|;
      match LineHeading(f, line)
      case None => IncreasingFromLower(rest, offset + |line|, offset, hi);
      case Some(h) =>
        IncreasingFromLower(rest, offset + |line|, offset + h.indent + 1, hi);
        assert Headings(lines, offset, f)[1..] == rest;
    }
  }

  ghost predicate StatesSorted(states: seq<PathState>) {
    forall i, j :: 0 <= i < j < |states| ==> states[i].offset < states[j].offset
  }

  lemma {:induction false} PathsKeepOffsets(hs: seq<HeadingAt>, path: seq<string>, i: nat)
    requires i < |hs|
    ensures Paths(hs, path)[i].offset == hs[i].offset
    decreases i
  {
    if i > 0 { PathsKeepOffsets(hs[1..], Enter(path, hs[0]), i - 1); }
  }

  lemma {:induction false} IncreasingAt(hs: seq<HeadingAt>, lo: nat, hi: nat, j: nat)
    requires Increasing(hs, lo, hi) && j < |hs|
    ensures lo <= hs[j].offset < hi
    ensures forall i :: 0 <= i < j ==> hs[i].offset < hs[j].offset
    decreases j
  {
    if j > 0 {
      IncreasingAt(hs[1..], hs[0].offset + 1, hi, j - 1);
      forall i | 0 <= i < j ensures hs[i].offset < hs[j].offset {
        if i > 0 { assert hs[i] == hs[1..][i - 1]; }
      }
    }
  }

  lemma SectionStatesSorted(markdown: string)
    ensures StatesSorted(SectionStates(markdown))
    ensures forall s :: s in SectionStates(markdown) ==> s.offset < |markdown|
  {
    hide Headings, Paths;
    var lines := SplitLines(markdown);
    var hs := Headings(lines, 0, Outside);
    SplitLinesConcat(markdown);
    HeadingsIncrease(lines, 0, Outside);
    forall j | 0 <= j < |hs|
      ensures SectionStates(markdown)[j].offset == hs[j].offset < |markdown|
      ensures forall i :: 0 <= i < j ==> hs[i].offset < hs[j].offset
    {
      PathsKeepOffsets(hs, [], j);
      IncreasingAt(hs, 0, |markdown|, j);
    }
  }

  // ----- Lookup -----

  /** `bisect_right` over the state offsets. */
  function BisectRight(states: seq<PathState>, x: nat, lo: nat, hi: nat): (idx: nat)
    requires lo <= hi <= |states|
    ensures lo <= idx <= hi
    decreases hi - lo
  {
    if lo == hi then lo
    else
      var mid := (lo + hi) / 2;
      if x < states[mid].offset then BisectRight(states, x, lo, mid)
      else BisectRight(states, x, mid + 1, hi)
  }

  function PathFor(states: seq<PathState>, offset: nat): seq<string> {
    var idx := BisectRight(states, offset, 0, |states|);
    if idx == 0 then [] else states[idx - 1].path
  }

  /** The number of states at or before the offset, and so the only value `bisect_right` may return. */
  ghost predicate SplitsAt(states: seq<PathState>, x: nat, idx: nat) {
    && idx <= |states|
    && (forall i :: 0 <= i < idx ==> states[i].offset <= x)
    && (forall i :: idx <= i < |states| ==> x < states[i].offset)
  }

  lemma {:induction false} BisectFinds(states: seq<PathState>, x: nat, lo: nat, hi: nat)
    requires StatesSorted(states) && lo <= hi <= |states|
    requires forall i :: 0 <= i < lo ==> states[i].offset <= x
    requires forall i :: hi <= i < |states| ==> x < states[i].offset
    ensures SplitsAt(states, x, BisectRight(states, x, lo, hi))
    decreases hi - lo
  {
    if lo < hi {
      var mid := (lo + hi) / 2;
      if x < states[mid].offset {
        BisectFinds(states, x, lo, mid);
      } else {
        BisectFinds(states, x, mid + 1, hi);
      }
    }
  }

  /** Lookup agrees with "the last heading outside a fence at or before the offset". */
  lemma PathForIsLastHeading(markdown: string, offset: nat)
    ensures var states := SectionStates(markdown);
      || (PathFor(states, offset) == [] && forall s :: s in states ==> offset < s.offset)
      || exists k :: 0 <= k < |states| && PathFor(states, offset) == states[k].path && SplitsAt(states, offset, k + 1)
  {
    hide SectionStates;
    var states := SectionStates(markdown);
    SectionStatesSorted(markdown);
    BisectFinds(states, offset, 0, |states|);
    var idx := BisectRight(states, offset, 0, |states|);
    if idx > 0 {
      assert SplitsAt(states, offset, idx - 1 + 1);
    }
  }

  /** Between two neighbouring headings the path does not change. */
  lemma PathForConstant(states: seq<PathState>, lo: nat, hi: nat, x: nat)
    requires StatesSorted(states) && lo <= x < hi
    requires forall i :: 0 <= i < |states| ==> !(lo < states[i].offset < hi)
    ensures PathFor(states, x) == PathFor(states, lo)
  {
    BisectFinds(states, x, 0, |states|);
    BisectFinds(states, lo, 0, |states|);
  }
}
