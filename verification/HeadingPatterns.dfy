/** What the heading scan's recognisers and fence flags amount to, said without them. */
module HeadingPatterns {
  import opened Options
  import opened Text
  import opened Lines
  import opened Sections

  // ----- Fences -----

  predicate MarksLine(lines: seq<string>, i: nat, m: Marker)
    requires i < |lines|
  {
    FenceMarker(WithoutNewline(lines[i])) == Some(m)
  }

  /** The line closes a fence opened with `m`: same character, at least as long. */
  predicate ClosesFence(lines: seq<string>, i: nat, m: Marker)
    requires i < |lines|
  {
    var q := FenceMarker(WithoutNewline(lines[i]));
    q.Some? && q.value.ch == m.ch && q.value.size >= m.size
  }

  /** A fence opened on line `i`, which was outside any, and no line between it and line `n` closes it. */
  ghost predicate OpenSince(lines: seq<string>, i: nat, n: nat, m: Marker)
    requires i < n <= |lines|
  {
    && FenceBefore(lines, i).Outside? && MarksLine(lines, i, m)
    && forall k :: i < k < n ==> !ClosesFence(lines, k, m)
  }

  lemma {:induction false} OpenFenceIsInside(lines: seq<string>, i: nat, n: nat, m: Marker)
    requires i < n <= |lines| && OpenSince(lines, i, n, m)
    ensures FenceBefore(lines, n) == Inside(m)
    decreases n
  {
    hide FenceMarker, WithoutNewline;
    if i < n - 1 {
      OpenFenceIsInside(lines, i, n - 1, m);
      assert !ClosesFence(lines, n - 1, m);
    }
  }

  lemma {:induction false} InsideHasOpener(lines: seq<string>, n: nat) returns (i: nat)
    requires n <= |lines| && FenceBefore(lines, n).Inside?
    ensures i < n && OpenSince(lines, i, n, FenceBefore(lines, n).open)
    decreases n
  {
    hide FenceMarker, WithoutNewline;
    i := n - 1;
    if FenceBefore(lines, n - 1).Inside? {
      i := InsideHasOpener(lines, n - 1);
      StillOpen(lines, n);
    }
  }

  lemma StillOpen(lines: seq<string>, n: nat)
    requires 0 < n <= |lines| && FenceBefore(lines, n - 1).Inside? && FenceBefore(lines, n).Inside?
    ensures FenceBefore(lines, n) == FenceBefore(lines, n - 1)
    ensures !ClosesFence(lines, n - 1, FenceBefore(lines, n).open)
  {
    hide FenceMarker, WithoutNewline;
  }

  /** A fence is open in front of line `n`: opened on some line, and not closed since. */
  ghost predicate FenceIsOpen(lines: seq<string>, n: nat, m: Marker)
    requires n <= |lines|
  {
    exists i :: 0 <= i < n && OpenSince(lines, i, n, m)
  }

  /** The scan is inside a fence exactly when one was opened and not closed since. */
  lemma InsideIffOpen(lines: seq<string>, n: nat, m: Marker)
    requires n <= |lines|
    ensures FenceBefore(lines, n) == Inside(m) <==> FenceIsOpen(lines, n, m)
  {
    hide OpenSince, FenceBefore;
    if FenceBefore(lines, n) == Inside(m) {
      var i := InsideHasOpener(lines, n);
    }
    if FenceIsOpen(lines, n, m) {
      var i :| 0 <= i < n && OpenSince(lines, i, n, m);
      OpenFenceIsInside(lines, i, n, m);
    }
  }

  // ----- Headings -----

  predicate Blanks(s: string) {
    forall i :: 0 <= i < |s| ==> IsBlank(s[i])
  }

  predicate Hashes(s: string) {
    forall i :: 0 <= i < |s| ==> s[i] == '#'
  }

  /** What may follow a title: blanks, a closing run of `#`, blanks, each possibly empty. */
  ghost predicate IsClosing(s: string) {
    exists i: nat, j: nat :: ClosesAt(s, i, j)
  }

  predicate ClosesAt(s: string, i: nat, j: nat) {
    i <= j <= |s| && Blanks(s[..i]) && Hashes(s[i..j]) && Blanks(s[j..])
  }

  /** The title the pattern's lazy group takes: the shortest one that the closing part can follow. */
  ghost predicate IsTitle(body: string, n: nat) {
    && 0 < n <= |body| && IsClosing(body[n..])
    && forall k :: 0 < k < n ==> !IsClosing(body[k..])
  }

  lemma TitlesAreUnique(body: string, n: nat, n': nat)
    requires IsTitle(body, n) && IsTitle(body, n')
    ensures n == n'
  {
  }

  /** Where the cuts from the end fall: `t` before the last blanks, `h` before the closing run, `r` before the final blanks. */
  lemma Cuts(body: string) returns (t: nat, h: nat, r: nat)
    requires body != "" && !IsBlank(body[0])
    ensures t <= h <= r <= |body| && 0 < r && (t == 0 ==> h == 0) && TitleText(body) == body[..if t == 0 then 1 else t]
    ensures forall i :: t <= i < h ==> IsBlank(body[i])
    ensures forall i :: h <= i < r ==> body[i] == '#'
    ensures forall i :: r <= i < |body| ==> IsBlank(body[i])
    ensures t > 0 ==> !IsBlank(body[t - 1]) && (body[t - 1] == '#' ==> t < h < r)
  {
    var visible := DropTrailing(body, IsBlank);
    var open := DropTrailing(visible, IsHash);
    var title := if open == visible then visible else DropTrailing(open, IsBlank);
    t, h, r := |title|, |open|, |visible|;
    assert visible == body[..r] && open == body[..h] && title == body[..t];
    assert forall i :: 0 <= i < r ==> visible[i] == body[i];
    assert forall i :: 0 <= i < h ==> open[i] == body[i];
    assert r > 0;
  }

  lemma ClosingParts(body: string, t: nat, h: nat, r: nat)
    requires t <= h <= r <= |body|
    requires forall i :: t <= i < h ==> IsBlank(body[i])
    requires forall i :: h <= i < r ==> body[i] == '#'
    requires forall i :: r <= i < |body| ==> IsBlank(body[i])
    ensures ClosesAt(body[t..], h - t, r - t)
  {
    hide IsBlank;
    var s := body[t..];
    var a, b, c := s[..h - t], s[h - t..r - t], s[r - t..];
    assert forall i :: 0 <= i < |a| ==> a[i] == body[t + i];
    assert forall i :: 0 <= i < |b| ==> b[i] == body[h + i];
    assert forall i :: 0 <= i < |c| ==> c[i] == body[r + i];
  }

  /** The recogniser finds the title by cutting from the end. */
  lemma TitleTextIsTitle(body: string)
    requires body != "" && !IsBlank(body[0])
    ensures TitleText(body) <= body && IsTitle(body, |TitleText(body)|)
  {
    var t, h, r := Cuts(body);
    hide TitleText, IsBlank;
    if t == 0 {
      ClosingParts(body, 1, 1, r);
    } else {
      ClosingParts(body, t, h, r);
      forall k | 0 < k < t ensures !IsClosing(body[k..]) {
        forall i: nat, j: nat ensures !ClosesAt(body[k..], i, j) {
          NoShorterTitle(body, k, t, h, r, i, j);
        }
      }
    }
  }

  /** The last character before the cut is none that a closing part could hold where it is. */
  lemma NoShorterTitle(body: string, k: nat, t: nat, h: nat, r: nat, i: nat, j: nat)
    requires 0 < k < t <= h <= r <= |body|
    requires !IsBlank(body[t - 1])
    requires body[t - 1] == '#' ==> t < h < r && IsBlank(body[t]) && body[h] == '#'
    ensures !ClosesAt(body[k..], i, j)
  {
    var s := body[k..];
    if i <= j <= |s| {
      var a, b, c := s[..i], s[i..j], s[j..];
      assert s[t - 1 - k] == body[t - 1];
      assert t - 1 - k < i ==> a[t - 1 - k] == body[t - 1];
      assert i <= t - 1 - k < j ==> b[t - 1 - k - i] == body[t - 1];
      assert j <= t - 1 - k ==> c[t - 1 - k - j] == body[t - 1];
      if body[t - 1] == '#' {
        assert i <= t - k < j ==> b[t - k - i] == body[t];
        assert j <= h - k ==> c[h - k - j] == body[h];
      }
    }
  }

  /**
    The match of `_ATX_HEADING_RE` that the scan uses: at most three spaces, one to six `#`, blanks up to the
    title, the shortest title that leaves a closing part, and something visible in it.
   */
  ghost predicate Matches(line: string, h: Heading, blanks: nat, size: nat) {
    var at := h.indent + h.level + blanks;
    && h.indent <= 3 && 1 <= h.level <= 6 && blanks > 0 && size > 0 && at + size <= |line|
    && (forall i :: 0 <= i < h.indent ==> line[i] == ' ')
    && (forall i :: h.indent <= i < h.indent + h.level ==> line[i] == '#')
    && (forall i :: h.indent + h.level <= i < at ==> IsBlank(line[i]))
    && !IsBlank(line[at]) && IsTitle(line[at..], size)
    && h.title == Strip(line[at..at + size]) != ""
  }

  /** A run of such characters from offset `a` on, in terms of the whole string. */
  lemma RunAt(s: string, a: nat, p: char -> bool, n: nat)
    requires a <= |s|
    ensures LeadingWhile(s[a..], p) == n && a + n < |s| ==> (forall i :: a <= i < a + n ==> p(s[i])) && !p(s[a + n])
    ensures a + n < |s| && !p(s[a + n]) && (forall i :: a <= i < a + n ==> p(s[i])) ==> LeadingWhile(s[a..], p) == n
  {
    var t := s[a..];
    assert forall i :: 0 <= i < |t| ==> t[i] == s[a + i];
    assert forall i :: a <= i < |s| ==> s[i] == t[i - a];
  }

  /** The recogniser, with all its parts as slices of the line. */
  lemma HeadingParts(line: string, indent: nat, level: nat, blanks: nat)
    requires indent == LeadingWhile(line[0..], IsSpaceChar)
    requires level == LeadingWhile(line[indent..], IsHash)
    requires indent + level <= |line| && blanks == LeadingWhile(line[indent + level..], IsBlank)
    requires indent + level + blanks <= |line|
    ensures var body := line[indent + level + blanks..];
      HeadingOf(line) ==
        if indent > 3 || level < 1 || level > 6 || blanks == 0 || body == "" || Strip(TitleText(body)) == "" then None
        else Some(Heading(indent, level, Strip(TitleText(body))))
  {
    assert line[0..] == line;
    assert line[indent..][level..] == line[indent + level..];
    assert line[indent + level..][blanks..] == line[indent + level + blanks..];
    hide Strip, TitleText;
  }

  /** Three runs of characters, one after the other. */
  predicate Runs(line: string, indent: nat, level: nat, blanks: nat) {
    && indent + level + blanks < |line|
    && (forall i :: 0 <= i < indent ==> IsSpaceChar(line[i])) && !IsSpaceChar(line[indent])
    && (forall i :: indent <= i < indent + level ==> IsHash(line[i])) && !IsHash(line[indent + level])
    && (forall i :: indent + level <= i < indent + level + blanks ==> IsBlank(line[i])) && !IsBlank(line[indent + level + blanks])
  }

  lemma RunsAreLeading(line: string, indent: nat, level: nat, blanks: nat)
    requires indent + level + blanks < |line|
    ensures Runs(line, indent, level, blanks) <==>
              && LeadingWhile(line[0..], IsSpaceChar) == indent && LeadingWhile(line[indent..], IsHash) == level
              && LeadingWhile(line[indent + level..], IsBlank) == blanks
  {
    hide IsSpaceChar, IsHash, IsBlank;
    RunAt(line, 0, IsSpaceChar, indent);
    RunAt(line, indent, IsHash, level);
    RunAt(line, indent + level, IsBlank, blanks);
  }

  lemma MatchHasRuns(line: string, h: Heading, blanks: nat, size: nat)
    requires Matches(line, h, blanks, size)
    ensures h.indent + h.level + blanks < |line| && Runs(line, h.indent, h.level, blanks)
  {
    hide IsTitle, Strip;
  }

  lemma MatchIsFound(line: string, h: Heading, blanks: nat, size: nat)
    requires Matches(line, h, blanks, size)
    ensures HeadingOf(line) == Some(h)
  {
    hide HeadingOf, TitleText, IsTitle, Strip, Runs, LeadingWhile;
    var at := h.indent + h.level + blanks;
    MatchHasRuns(line, h, blanks, size);
    RunsAreLeading(line, h.indent, h.level, blanks);
    HeadingParts(line, h.indent, h.level, blanks);
    TitleIsSlice(line, at, size);
  }

  lemma TitleIsSlice(line: string, at: nat, size: nat)
    requires at < |line| && !IsBlank(line[at])
    ensures at + |TitleText(line[at..])| <= |line| && IsTitle(line[at..], |TitleText(line[at..])|)
    ensures TitleText(line[at..]) == line[at..at + |TitleText(line[at..])|]
    ensures IsTitle(line[at..], size) ==> size == |TitleText(line[at..])|
  {
    var body := line[at..];
    TitleTextIsTitle(body);
    if IsTitle(body, size) {
      TitlesAreUnique(body, |TitleText(body)|, size);
    }
  }

  lemma HeadingIsMatch(line: string) returns (blanks: nat, size: nat)
    requires HeadingOf(line).Some?
    ensures Matches(line, HeadingOf(line).value, blanks, size)
  {
    hide HeadingOf, TitleText, Strip, LeadingWhile, Runs, IsTitle, Matches;
    var h := HeadingOf(line).value;
    blanks := HeadingRuns(line);
    var at := h.indent + h.level + blanks;
    HeadingTitle(line, blanks);
    size := |TitleText(line[at..])|;
    TitleIsSlice(line, at, size);
    RunsMatch(line, h, blanks, size);
  }

  lemma HeadingTitle(line: string, blanks: nat)
    requires HeadingOf(line).Some?
    requires var h := HeadingOf(line).value;
      h.indent + h.level + blanks < |line| && Runs(line, h.indent, h.level, blanks)
    ensures var h := HeadingOf(line).value;
      var at := h.indent + h.level + blanks;
      h.indent <= 3 && blanks > 0 && !IsBlank(line[at]) && h.title == Strip(TitleText(line[at..])) != ""
  {
    hide TitleText, Strip, LeadingWhile;
    var h := HeadingOf(line).value;
    RunsAreLeading(line, h.indent, h.level, blanks);
    hide HeadingOf;
    HeadingParts(line, h.indent, h.level, blanks);
  }

  lemma RunsMatch(line: string, h: Heading, blanks: nat, size: nat)
    requires h.indent + h.level + blanks < |line| && Runs(line, h.indent, h.level, blanks)
    requires h.indent <= 3 && 1 <= h.level <= 6 && blanks > 0
    requires var at := h.indent + h.level + blanks;
      at + size <= |line| && IsTitle(line[at..], size) && h.title == Strip(line[at..at + size]) != ""
    ensures Matches(line, h, blanks, size)
  {
    hide Strip, IsClosing;
  }

  lemma HeadingRuns(line: string) returns (blanks: nat)
    requires HeadingOf(line).Some?
    ensures var h := HeadingOf(line).value;
      && h.indent + h.level + blanks < |line| && Runs(line, h.indent, h.level, blanks)
  {
    assert line[0..] == line;
    var indent := LeadingWhile(line[0..], IsSpaceChar);
    var level := LeadingWhile(line[indent..], IsHash);
    assert line[indent..][level..] == line[indent + level..];
    blanks := LeadingWhile(line[indent + level..], IsBlank);
    hide TitleText, Strip, IsBlank, IsHash, IsSpaceChar;
    RunsAreLeading(line, indent, level, blanks);
  }

  /** The recogniser agrees with the pattern. */
  lemma HeadingIffMatch(line: string, h: Heading)
    ensures HeadingOf(line) == Some(h) <==> exists blanks: nat, size: nat :: Matches(line, h, blanks, size)
  {
    hide HeadingOf, Matches;
    if HeadingOf(line) == Some(h) {
      var blanks, size := HeadingIsMatch(line);
    }
    if exists blanks: nat, size: nat :: Matches(line, h, blanks, size) {
      var blanks: nat, size: nat :| Matches(line, h, blanks, size);
      MatchIsFound(line, h, blanks, size);
    }
  }
}
