/** When the recorded section path is the true heading ancestry. */
module Ancestry {
  import opened Lines
  import opened Sections

  /** The path after the first `n` headings. */
  function PathAfter(hs: seq<HeadingAt>, n: nat, start: seq<string>): seq<string>
    requires n <= |hs|
  {
    if n == 0 then start else Enter(PathAfter(hs, n - 1, start), hs[n - 1])
  }

  lemma {:induction false} PathsAt(hs: seq<HeadingAt>, start: seq<string>, i: nat)
    requires i < |hs|
    ensures Paths(hs, start)[i] == PathState(hs[i].offset, PathAfter(hs, i + 1, start))
    decreases i
  {
    hide Enter;
    var next := Enter(start, hs[0]);
    if i > 0 {
      PathsAt(hs[1..], next, i - 1);
    }
    PathAfterTail(hs, start, i);
  }

  lemma {:induction false} PathAfterTail(hs: seq<HeadingAt>, start: seq<string>, i: nat)
    requires i < |hs|
    ensures PathAfter(hs, i + 1, start) == PathAfter(hs[1..], i, Enter(start, hs[0]))
    decreases i
  {
    hide Enter;
    if i > 0 {
      PathAfterTail(hs, start, i - 1);
      assert hs[1..][i - 1] == hs[i];
    } else {
      assert PathAfter(hs, 0, start) == start;
    }
  }

  /** The first heading has level 1, and no heading is more than one level below the one before it. */
  ghost predicate NeverSkips(hs: seq<HeadingAt>) {
    forall i :: 0 <= i < |hs| ==> hs[i].level <= LevelBefore(hs, i) + 1
  }

  function LevelBefore(hs: seq<HeadingAt>, i: nat): nat
    requires i < |hs|
  {
    if i == 0 then 0 else hs[i - 1].level
  }

  ghost predicate PositiveLevels(hs: seq<HeadingAt>) {
    forall i :: 0 <= i < |hs| ==> hs[i].level >= 1
  }

  /** In every document, the depth grows by at most one and never exceeds the level. */
  lemma DepthOfPath(hs: seq<HeadingAt>, i: nat)
    requires i < |hs| && PositiveLevels(hs)
    ensures var before, after := |PathAfter(hs, i, [])|, |PathAfter(hs, i + 1, [])|;
      after == if hs[i].level <= before + 1 then hs[i].level else before + 1
  {
  }

  lemma {:induction false} DepthIsLevel(hs: seq<HeadingAt>, n: nat)
    requires 0 < n <= |hs| && PositiveLevels(hs) && NeverSkips(hs)
    ensures |PathAfter(hs, n, [])| == hs[n - 1].level
  {
    DepthOfPath(hs, n - 1);
    if n > 1 {
      DepthIsLevel(hs, n - 1);
    } else {
      PathAfterNone(hs);
      assert hs[0].level <= LevelBefore(hs, 0) + 1;
    }
  }

  /** Every path is as long as its heading's level exactly in the documents that never skip a level. */
  lemma LengthIsLevelIffNeverSkips(hs: seq<HeadingAt>)
    requires PositiveLevels(hs)
    ensures NeverSkips(hs) <==> forall i :: 0 <= i < |hs| ==> |Paths(hs, [])[i].path| == hs[i].level
  {
    hide Paths, PathAfter;
    forall i | 0 <= i < |hs|
      ensures |Paths(hs, [])[i].path| == |PathAfter(hs, i + 1, [])|
    {
      PathsAt(hs, [], i);
    }
    if NeverSkips(hs) {
      forall i | 0 <= i < |hs| ensures |Paths(hs, [])[i].path| == hs[i].level {
        DepthIsLevel(hs, i + 1);
      }
    }
    if forall i :: 0 <= i < |hs| ==> |Paths(hs, [])[i].path| == hs[i].level {
      forall i | 0 <= i < |hs| ensures hs[i].level <= LevelBefore(hs, i) + 1 {
        DepthOfPath(hs, i);
        PathAfterNone(hs);
        if i > 0 { assert |Paths(hs, [])[i - 1].path| == hs[i - 1].level; }
        assert |Paths(hs, [])[i].path| == hs[i].level;
      }
    }
  }

  lemma PathAfterNone(hs: seq<HeadingAt>)
    ensures PathAfter(hs, 0, []) == []
  {
  }

  /** Heading `j` is the latest one of level `k + 1` up to `i`, and no shallower or equal one follows it. */
  ghost predicate IsAncestor(hs: seq<HeadingAt>, i: nat, k: nat, j: nat)
    requires i < |hs|
  {
    j <= i && hs[j].level == k + 1 && forall m :: j < m <= i ==> hs[m].level > k + 1
  }

  /** `title` is the title of the level `k + 1` ancestor of heading `i`. */
  ghost predicate AncestorTitle(hs: seq<HeadingAt>, i: nat, k: nat, title: string)
    requires i < |hs|
  {
    exists j: nat :: IsAncestor(hs, i, k, j) && hs[j].title == title
  }

  lemma EnterEnds(path: seq<string>, h: HeadingAt)
    ensures var next := Enter(path, h); next != [] && next[|next| - 1] == h.title
  {
  }

  lemma EnterKeeps(path: seq<string>, h: HeadingAt, k: nat)
    requires k < h.level - 1 && k < |Enter(path, h)| - 1
    ensures k < |path| && Enter(path, h)[k] == path[k]
  {
  }

  lemma {:induction false} PathIsAncestry(hs: seq<HeadingAt>, n: nat, k: nat)
    requires 0 < n <= |hs| && PositiveLevels(hs) && NeverSkips(hs) && k < |PathAfter(hs, n, [])|
    ensures AncestorTitle(hs, n - 1, k, PathAfter(hs, n, [])[k])
    decreases n
  {
    hide Enter, NeverSkips;
    DepthIsLevel(hs, n);
    if k == hs[n - 1].level - 1 {
      EnterEnds(PathAfter(hs, n - 1, []), hs[n - 1]);
      assert IsAncestor(hs, n - 1, k, n - 1);
    } else {
      PathAfterNone(hs);
      EnterKeeps(PathAfter(hs, n - 1, []), hs[n - 1], k);
      if n > 1 { DepthIsLevel(hs, n - 1); }
      PathIsAncestry(hs, n - 1, k);
      var j: nat :| IsAncestor(hs, n - 2, k, j) && hs[j].title == PathAfter(hs, n - 1, [])[k];
      assert IsAncestor(hs, n - 1, k, j);
    }
  }

  /** One title per level down to heading `i`, each from the ancestor of that level. */
  ghost predicate TrueAncestry(hs: seq<HeadingAt>, i: nat, path: seq<string>)
    requires i < |hs|
  {
    && |path| == hs[i].level
    && forall k: nat :: k < |path| ==> AncestorTitle(hs, i, k, path[k])
  }

  lemma {:induction false} PathIsTrueAncestry(hs: seq<HeadingAt>, i: nat)
    requires i < |hs| && PositiveLevels(hs) && NeverSkips(hs)
    ensures TrueAncestry(hs, i, Paths(hs, [])[i].path)
  {
    hide Paths, PathAfter, AncestorTitle;
    PathsAt(hs, [], i);
    DepthIsLevel(hs, i + 1);
    var path := PathAfter(hs, i + 1, []);
    forall k: nat | k < |path|
      ensures AncestorTitle(hs, i, k, path[k])
    {
      PathIsAncestry(hs, i + 1, k);
    }
  }

  /** In a document that never skips a level, every recorded path is the true heading ancestry. */
  lemma SectionPathsAreAncestry(markdown: string)
    requires NeverSkips(DocumentHeadings(markdown))
    ensures |SectionStates(markdown)| == |DocumentHeadings(markdown)|
    ensures forall i :: 0 <= i < |DocumentHeadings(markdown)| ==>
      TrueAncestry(DocumentHeadings(markdown), i, SectionStates(markdown)[i].path)
  {
    hide Headings, Paths, TrueAncestry;
    HeadingsIncrease(SplitLines(markdown), 0, Outside);
    var hs := DocumentHeadings(markdown);
    forall i | 0 <= i < |hs| ensures TrueAncestry(hs, i, SectionStates(markdown)[i].path) {
      PathIsTrueAncestry(hs, i);
    }
  }
}
