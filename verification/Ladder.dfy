/** What the recursive split may cut, and into what: after a separator, or into full windows where no separator cuts. */
module Ladder {
  import opened Options
  import opened Text
  import opened Spans
  import opened Windows
  import opened Splitting
  import opened Chunker

  /** The separator occurs nowhere in the text, or only once, at its end. */
  predicate Uncut(text: string, separator: string) {
    match Find(text, separator)
    case None => true
    case Some(k) => k + |separator| == |text|
  }

  /** The ladder ends at its first empty separator. */
  predicate OnLadder(cfg: Config, index: nat, r: nat) {
    index <= r < |cfg.separators| && forall i :: index <= i <= r ==> cfg.separators[i] != ""
  }

  /** No rung from `index` on cuts the text. */
  ghost predicate Exhausted(text: string, cfg: Config, index: nat) {
    forall r: nat :: OnLadder(cfg, index, r) ==> Uncut(text, cfg.separators[r])
  }

  predicate EndsWith(text: string, separator: string) {
    separator != "" && |separator| <= |text| && text[|text| - |separator|..] == separator
  }

  /**
    The cut at `k` follows separator `r`, inside a text over the maximum that none of the separators before `r`
    cuts: a rung is used only where it must be, and only after the rungs above it.
   */
  ghost predicate CutBy(count: Counter, src: string, k: nat, cfg: Config, index: nat, r: nat, a: nat, b: nat) {
    && a < k < b <= |src| && count(src[a..b]) > cfg.maxChunkTokens
    && OnLadder(cfg, index, r) && EndsWith(src[a..k], cfg.separators[r])
    && forall i :: index <= i < r ==> Uncut(src[a..b], cfg.separators[i])
  }

  ghost predicate SeparatorCut(count: Counter, src: string, k: nat, cfg: Config, index: nat, lo: nat, hi: nat) {
    exists r: nat, a: nat, b: nat :: lo <= a && b <= hi && CutBy(count, src, k, cfg, index, r, a, b)
  }

  /** An end of the range, or a cut after a separator. */
  ghost predicate Edge(count: Counter, src: string, k: nat, cfg: Config, index: nat, lo: nat, hi: nat) {
    k == lo || k == hi || SeparatorCut(count, src, k, cfg, index, lo, hi)
  }

  /** A piece within the maximum, from edge to edge. */
  ghost predicate Whole(count: Counter, src: string, off: nat, cfg: Config, index: nat, lo: nat, hi: nat, p: Span) {
    && off + lo <= p.start < p.end <= off + hi && hi <= |src|
    && p.text == src[p.start - off..p.end - off] && count(p.text) <= cfg.maxChunkTokens
    && Edge(count, src, p.start - off, cfg, index, lo, hi) && Edge(count, src, p.end - off, cfg, index, lo, hi)
  }

  /** A window, full for the target, of a text over the maximum that no separator cuts. */
  ghost predicate WindowIn(count: Counter, src: string, off: nat, cfg: Config, index: nat, a: nat, b: nat, p: Span) {
    && a < b <= |src| && count(src[a..b]) > cfg.maxChunkTokens && Exhausted(src[a..b], cfg, index)
    && FullWindow(count, src[a..b], off + a, cfg.chunkSizeTokens, p)
  }

  ghost predicate Forced(count: Counter, src: string, off: nat, cfg: Config, index: nat, lo: nat, hi: nat, p: Span) {
    exists a: nat, b: nat ::
      && lo <= a && b <= hi && WindowIn(count, src, off, cfg, index, a, b, p)
      && Edge(count, src, a, cfg, index, lo, hi) && Edge(count, src, b, cfg, index, lo, hi)
  }

  ghost predicate GoodPiece(count: Counter, src: string, off: nat, cfg: Config, index: nat, lo: nat, hi: nat, p: Span) {
    Whole(count, src, off, cfg, index, lo, hi, p) || Forced(count, src, off, cfg, index, lo, hi, p)
  }

  ghost predicate GoodPieces(ps: seq<Span>, count: Counter, src: string, off: nat, cfg: Config, index: nat, lo: nat, hi: nat) {
    forall p :: p in ps ==> GoodPiece(count, src, off, cfg, index, lo, hi, p)
  }

  // ----- Slices of uncut texts -----

  lemma UncutSlice(text: string, separator: string, a: nat, b: nat)
    requires Uncut(text, separator) && a <= b <= |text|
    ensures Uncut(text[a..b], separator)
  {
    FindIsLeftmost(text, separator);
    FindIsLeftmost(text[a..b], separator);
    match Find(text[a..b], separator)
    case None =>
    case Some(m) =>
      SliceOfSlice(text, a, b, m, m + |separator|);
      assert OccursAt(text, separator, a + m);
  }

  /** A rung above that does not cut the range does not cut what is inside it either. */
  lemma ExhaustedLifts(src: string, cfg: Config, index: nat, a: nat, b: nat, x: nat, y: nat)
    requires index < |cfg.separators| && a <= x <= y <= b <= |src| && Uncut(src[a..b], cfg.separators[index])
    requires Exhausted(src[x..y], cfg, index + 1)
    ensures Exhausted(src[x..y], cfg, index)
  {
    hide Uncut;
    UncutInside(src, cfg.separators[index], a, b, x, y);
    forall r: nat | OnLadder(cfg, index, r) ensures Uncut(src[x..y], cfg.separators[r]) {
      assert r > index ==> OnLadder(cfg, index + 1, r);
    }
  }

  lemma UncutInside(src: string, separator: string, a: nat, b: nat, x: nat, y: nat)
    requires a <= x <= y <= b <= |src| && Uncut(src[a..b], separator)
    ensures Uncut(src[x..y], separator)
  {
    UncutSlice(src[a..b], separator, x - a, y - a);
    SliceOfSlice(src, a, b, x - a, y - a);
  }

  /** An edge of a part that the rung above does not cut is an edge of the range, if the part's own ends are. */
  lemma EdgeLifts(count: Counter, src: string, k: nat, cfg: Config, index: nat, a: nat, b: nat, lo: nat, hi: nat)
    requires index < |cfg.separators| && cfg.separators[index] != ""
    requires lo <= a <= b <= hi && b <= |src| && Uncut(src[a..b], cfg.separators[index])
    requires Edge(count, src, k, cfg, index + 1, a, b)
    requires Edge(count, src, a, cfg, index, lo, hi) && Edge(count, src, b, cfg, index, lo, hi)
    ensures Edge(count, src, k, cfg, index, lo, hi)
  {
    hide Uncut, EndsWith;
    if k != a && k != b {
      var r: nat, x: nat, y: nat :| a <= x && y <= b && CutBy(count, src, k, cfg, index + 1, r, x, y);
      UncutInside(src, cfg.separators[index], a, b, x, y);
      assert CutBy(count, src, k, cfg, index, r, x, y);
    }
  }

  lemma {:induction false} PieceLifts(count: Counter, src: string, off: nat, cfg: Config, index: nat, a: nat, b: nat, lo: nat, hi: nat, p: Span)
    requires index < |cfg.separators| && cfg.separators[index] != ""
    requires lo <= a <= b <= hi <= |src| && Uncut(src[a..b], cfg.separators[index])
    requires GoodPiece(count, src, off, cfg, index + 1, a, b, p)
    requires Edge(count, src, a, cfg, index, lo, hi) && Edge(count, src, b, cfg, index, lo, hi)
    ensures GoodPiece(count, src, off, cfg, index, lo, hi, p)
  {
    hide Uncut, Edge, Exhausted, FullWindow;
    if Whole(count, src, off, cfg, index + 1, a, b, p) {
      EdgeLifts(count, src, p.start - off, cfg, index, a, b, lo, hi);
      EdgeLifts(count, src, p.end - off, cfg, index, a, b, lo, hi);
    } else {
      var x: nat, y: nat :|
        && a <= x && y <= b && WindowIn(count, src, off, cfg, index + 1, x, y, p)
        && Edge(count, src, x, cfg, index + 1, a, b) && Edge(count, src, y, cfg, index + 1, a, b);
      ExhaustedLifts(src, cfg, index, a, b, x, y);
      EdgeLifts(count, src, x, cfg, index, a, b, lo, hi);
      EdgeLifts(count, src, y, cfg, index, a, b, lo, hi);
      assert WindowIn(count, src, off, cfg, index, x, y, p);
    }
  }

  lemma PiecesLift(ps: seq<Span>, count: Counter, src: string, off: nat, cfg: Config, index: nat, a: nat, b: nat, lo: nat, hi: nat)
    requires index < |cfg.separators| && cfg.separators[index] != ""
    requires lo <= a <= b <= hi <= |src| && Uncut(src[a..b], cfg.separators[index])
    requires GoodPieces(ps, count, src, off, cfg, index + 1, a, b)
    requires Edge(count, src, a, cfg, index, lo, hi) && Edge(count, src, b, cfg, index, lo, hi)
    ensures GoodPieces(ps, count, src, off, cfg, index, lo, hi)
  {
    hide Uncut, Edge, GoodPiece;
    forall p | p in ps ensures GoodPiece(count, src, off, cfg, index, lo, hi, p) {
      PieceLifts(count, src, off, cfg, index, a, b, lo, hi, p);
    }
  }

  lemma {:induction false} TileBounds(ps: seq<Span>, src: string, off: nat, lo: nat, hi: nat)
    requires Tiles(ps, src, off, lo, hi)
    ensures forall p :: p in ps ==> off <= lo <= p.start < p.end <= hi
    decreases |ps|
  {
    if ps != [] {
      TilesOrdered(ps, src, off, lo, hi);
      TileBounds(ps[1..], src, off, ps[0].end, hi);
    }
  }

  lemma NoRungsLeft(text: string, cfg: Config, index: nat)
    requires index < |cfg.separators| ==> cfg.separators[index] == ""
    ensures Exhausted(text, cfg, index)
  {
  }

  lemma EndsAreEdges(count: Counter, src: string, cfg: Config, index: nat, lo: nat, hi: nat)
    ensures Edge(count, src, lo, cfg, index, lo, hi) && Edge(count, src, hi, cfg, index, lo, hi)
  {
  }

  /** Where the ladder ends, what is over the maximum becomes windows that are full for the target. */
  lemma {:induction false} WindowsAreGood(count: Counter, span: Span, src: string, off: nat, cfg: Config, index: nat, lo: nat)
    requires index <= |cfg.separators| && (index < |cfg.separators| ==> cfg.separators[index] == "")
    requires span.text != "" && count(span.text) > cfg.maxChunkTokens && off + lo == span.start
    requires lo + |span.text| <= |src| && span.text == src[lo..lo + |span.text|]
    ensures GoodPieces(SplitRecursive(count, span, cfg, index), count, src, off, cfg, index, lo, lo + |span.text|)
  {
    hide TokenWindows, FullWindow, Edge, Exhausted;
    var hi := lo + |span.text|;
    WindowsAreFull(count, span.text, span.start, 0, cfg.chunkSizeTokens);
    NoRungsLeft(span.text, cfg, index);
    EndsAreEdges(count, src, cfg, index, lo, hi);
    forall p | p in SplitRecursive(count, span, cfg, index) ensures GoodPiece(count, src, off, cfg, index, lo, hi, p) {
      assert WindowIn(count, src, off, cfg, index, lo, hi, p);
    }
  }

  lemma SmallIsGood(count: Counter, span: Span, src: string, off: nat, cfg: Config, index: nat, lo: nat)
    requires off + lo == span.start && span.text != "" && count(span.text) <= cfg.maxChunkTokens
    requires lo + |span.text| <= |src| && span.text == src[lo..lo + |span.text|] && span.end == span.start + |span.text|
    ensures GoodPiece(count, src, off, cfg, index, lo, lo + |span.text|, span)
  {
    hide Forced, SeparatorCut;
  }

  // ----- The recursion -----

  lemma {:induction false} SplitIsGood(count: Counter, span: Span, src: string, off: nat, cfg: Config, index: nat, lo: nat)
    requires index <= |cfg.separators| && off + lo == span.start
    requires lo + |span.text| <= |src| && span.text == src[lo..lo + |span.text|]
    requires count(span.text) > cfg.maxChunkTokens || span.end == span.start + |span.text|
    ensures GoodPieces(SplitRecursive(count, span, cfg, index), count, src, off, cfg, index, lo, lo + |span.text|)
    decreases |cfg.separators| - index, 0
  {
    hide TokenWindows, SplitOn, SplitPieces, GoodPiece, Edge, Uncut, CutAtSeparator;
    var hi := lo + |span.text|;
    if span.text == "" {
    } else if count(span.text) <= cfg.maxChunkTokens {
      SmallIsGood(count, span, src, off, cfg, index, lo);
    } else if index >= |cfg.separators| || cfg.separators[index] == "" {
      WindowsAreGood(count, span, src, off, cfg, index, lo);
    } else {
      var pieces := SplitOn(span, cfg.separators[index], 0);
      EndsAreEdges(count, src, cfg, index, lo, hi);
      if |pieces| <= 1 {
        OnePieceIsUncut(span, cfg.separators[index]);
        SplitIsGood(count, span, src, off, cfg, index + 1, lo);
        PiecesLift(SplitRecursive(count, span, cfg, index + 1), count, src, off, cfg, index, lo, hi, lo, hi);
      } else {
        SplitOnTiles(span, cfg.separators[index], 0);
        SplitOnCuts(span, cfg.separators[index], 0);
        assert Tiles(pieces, src, off, span.start, off + hi) by {
          TilesRebase(pieces, span.text, span.start, span.start, off + hi, src, off);
        }
        PiecesAreGood(count, pieces, src, off, cfg, index, lo, hi, lo);
      }
    }
  }

  lemma OnePieceIsUncut(span: Span, separator: string)
    requires separator != "" && span.text != "" && |SplitOn(span, separator, 0)| <= 1
    ensures Uncut(span.text, separator)
  {
    hide Find, SplitOn;
    SplitOnUnfold(span, separator, 0);
    SplitOnCuts(span, separator, 0);
    assert span.text[0..] == span.text;
    match Find(span.text, separator)
    case None =>
    case Some(k) =>
      SplitOnTiles(span, separator, k + |separator|);
      SplitOnUnfold(span, separator, k + |separator|);
  }

  /** Cuts between pieces follow the separator; what is inside a piece is lifted from the rungs below. */
  lemma {:induction false} PiecesAreGood(count: Counter, pieces: seq<Span>, src: string, off: nat, cfg: Config, index: nat, lo: nat, hi: nat, at: nat)
    requires index < |cfg.separators| && cfg.separators[index] != "" && lo <= at <= hi <= |src|
    requires count(src[lo..hi]) > cfg.maxChunkTokens && Edge(count, src, at, cfg, index, lo, hi)
    requires Tiles(pieces, src, off, off + at, off + hi)
    requires forall i :: 0 <= i < |pieces| ==> CutAtSeparator(pieces[i].text, cfg.separators[index], i == |pieces| - 1)
    ensures GoodPieces(SplitPieces(count, pieces, cfg, index + 1), count, src, off, cfg, index, lo, hi)
    decreases |cfg.separators| - index - 1, 1 + |pieces|
  {
    hide SplitRecursive, GoodPiece, Edge, Uncut, CutAtSeparator;
    if pieces != [] {
      var piece, rest := pieces[0], pieces[1..];
      TilesOrdered(pieces, src, off, off + at, off + hi);
      TilesOrdered(rest, src, off, piece.end, off + hi);
      var end := piece.end - off;
      forall i | 0 <= i < |rest| ensures CutAtSeparator(rest[i].text, cfg.separators[index], i == |rest| - 1) {
        assert rest[i] == pieces[i + 1];
      }
      TilesUntil(rest, src, off, piece.end, off + hi);
      CutPiece(count, src, cfg, index, at, end, lo, hi, rest == []);
      PiecesAreGood(count, rest, src, off, cfg, index, lo, hi, end);
      SplitIsGood(count, piece, src, off, cfg, index + 1, at);
      SplitPieceIsSplit(count, piece, cfg, index + 1);
      PiecesLift(SplitPiece(count, piece, cfg, index + 1), count, src, off, cfg, index, at, end, lo, hi);
    }
  }

  lemma SplitPieceIsSplit(count: Counter, piece: Span, cfg: Config, index: nat)
    requires index <= |cfg.separators|
    ensures SplitPiece(count, piece, cfg, index) == SplitRecursive(count, piece, cfg, index)
  {
    hide SplitOn, SplitPieces, TokenWindows;
  }

  lemma TilesUntil(rest: seq<Span>, src: string, off: nat, lo: nat, hi: nat)
    requires Tiles(rest, src, off, lo, hi)
    ensures rest == [] ==> lo == hi
    ensures rest != [] ==> lo < hi
  {
    TilesOrdered(rest, src, off, lo, hi);
    if rest != [] {
      TilesOrdered(rest[1..], src, off, rest[0].end, hi);
    }
  }

  /** A piece is uncut by its separator, and ends after it unless it is the last. */
  lemma CutPiece(count: Counter, src: string, cfg: Config, index: nat, a: nat, b: nat, lo: nat, hi: nat, last: bool)
    requires index < |cfg.separators| && cfg.separators[index] != "" && lo <= a < b <= hi <= |src|
    requires count(src[lo..hi]) > cfg.maxChunkTokens && (if last then b == hi else b < hi)
    requires CutAtSeparator(src[a..b], cfg.separators[index], last)
    ensures Uncut(src[a..b], cfg.separators[index])
    ensures Edge(count, src, b, cfg, index, lo, hi)
  {
    hide EndsWith, Edge;
    var separator, piece := cfg.separators[index], src[a..b];
    FindIsLeftmost(piece, separator);
    match Find(piece, separator)
    case None => EndsAreEdges(count, src, cfg, index, lo, hi);
    case Some(k) =>
      assert piece[k..] == separator;
      CutIsEdge(count, src, cfg, index, a, b, lo, hi);
  }

  lemma CutIsEdge(count: Counter, src: string, cfg: Config, index: nat, a: nat, b: nat, lo: nat, hi: nat)
    requires index < |cfg.separators| && cfg.separators[index] != "" && lo <= a < b <= hi <= |src|
    requires count(src[lo..hi]) > cfg.maxChunkTokens
    requires |cfg.separators[index]| <= b - a && src[a..b][b - a - |cfg.separators[index]|..] == cfg.separators[index]
    ensures Edge(count, src, b, cfg, index, lo, hi)
  {
    var separator := cfg.separators[index];
    SliceOfSlice(src, a, b, b - a - |separator|, b - a);
    SliceOfSlice(src, lo, b, b - lo - |separator|, b - lo);
    assert EndsWith(src[lo..b], separator);
    assert b == hi || CutBy(count, src, b, cfg, index, index, lo, hi);
  }

  /**
    The ladder is used to the full and no further. Each piece of the split is within the maximum and runs from cut
    to cut, each cut following a separator inside a text over the maximum that no coarser separator cuts; or it is
    a window, full for the target, of such a stretch over the maximum that no separator of the ladder cuts.
   */
  lemma {:induction false} CutsOnlyWhereItMust(count: Counter, span: Span, cfg: Config, p: Span)
    requires span.end == span.start + |span.text| && p in SplitRecursive(count, span, cfg, 0)
    ensures GoodPiece(count, span.text, span.start, cfg, 0, 0, |span.text|, p)
  {
    hide GoodPiece, SplitRecursive;
    assert span.text[0..0 + |span.text|] == span.text;
    SplitIsGood(count, span, span.text, span.start, cfg, 0, 0);
  }

  /** The second check of the cap: what is trimmed and still over the maximum becomes windows of the same target. */
  lemma {:induction false} EnforcedWindowsAreFull(count: Counter, candidate: Span, source: string, cfg: Config, p: Span)
    requires p in EnforceOne(count, candidate, source, cfg)
    ensures NormalizeSpan(count, source, candidate).Some?
    ensures var n := NormalizeSpan(count, source, candidate).value;
      if count(n.text) <= cfg.maxChunkTokens then p == n
      else FullWindow(count, n.text, n.start, cfg.chunkSizeTokens, p)
  {
    hide TokenWindows, NormalizeSpan, FullWindow;
    var n := NormalizeSpan(count, source, candidate).value;
    WindowsAreFull(count, n.text, n.start, 0, cfg.chunkSizeTokens);
  }
}
