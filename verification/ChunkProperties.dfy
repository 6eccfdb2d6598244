/** What the chunker promises: the cap, order, section purity, losslessness, and when re-enforcement is idle. */
module ChunkProperties {
  import opened Options
  import opened Text
  import opened Spans
  import opened Windows
  import opened Splitting
  import opened Packing
  import opened Sections
  import opened Chunker

  // ----- Trimming -----

  /** Trimming keeps the stripped text, with the offsets of its first and last character. */
  lemma {:induction false} NormalizeSpanSpec(count: Counter, source: string, span: Span)
    requires span.start < span.end <= |source|
    ensures match NormalizeSpan(count, source, span)
      case None =>
        var raw := source[span.start..span.end];
        AllSpace(raw) || count(NormalizeNewlines(Strip(raw))) == 0
      case Some(n) =>
        && span.start <= n.start < n.end <= span.end
        && AllSpace(source[span.start..n.start]) && AllSpace(source[n.end..span.end])
        && n.text == NormalizeNewlines(source[n.start..n.end]) && n.text != "" && |n.text| <= n.end - n.start
        && source[n.start..n.end] == Strip(source[span.start..span.end])
  {
    hide NormalizeNewlines, IsSpace, NormalizeTextWithOffsets, Leading, Trailing, Strip, AllSpace;
    var raw := source[span.start..span.end];
    NormalizeOffsets(source, span.start, span.end);
    if AllSpace(raw) {
      NormalizeSpace(raw);
    } else {
      TrimmedCore(source, span.start, span.end);
      var s, e := span.start + Leading(raw), span.end - Trailing(raw);
      NormalizeSpace(source[s..e]);
      NormalizeShrinks(source[s..e]);
    }
  }

  lemma {:induction false} NormalizeOffsets(source: string, start: nat, end: nat)
    requires start < end <= |source|
    ensures var raw := source[start..end];
      if AllSpace(raw) then NormalizeTextWithOffsets(source, start, end) == (NormalizeNewlines(raw), start, end)
      else
        var s, e := start + Leading(raw), end - Trailing(raw);
        s < e && NormalizeTextWithOffsets(source, start, end) == (NormalizeNewlines(source[s..e]), s, e)
  {
    hide NormalizeNewlines, IsSpace, Leading, Trailing;
    var raw := source[start..end];
    if AllSpace(raw) {
      SpaceOnlyEnds(raw);
    } else {
      EndsMeet(raw);
    }
  }

  lemma {:induction false} SpaceOnlyEnds(raw: string)
    requires AllSpace(raw)
    ensures Leading(raw) == |raw| == Trailing(raw)
  {
    hide IsSpace;
    if raw != "" {
      SpaceOnlyEnds(raw[1..]);
      SpaceOnlyEnds(raw[..|raw| - 1]);
    }
  }

  lemma TrimmedCore(source: string, start: nat, end: nat)
    requires start < end <= |source| && !AllSpace(source[start..end])
    ensures var raw := source[start..end];
      var s, e := start + Leading(raw), end - Trailing(raw);
      && start <= s < e <= end
      && AllSpace(source[start..s]) && AllSpace(source[e..end]) && !AllSpace(source[s..e])
      && source[s..e] == Strip(raw)
  {
    hide IsSpace, Leading, Trailing, AllSpace;
    var raw := source[start..end];
    EndsMeet(raw);
    var l, t := Leading(raw), Trailing(raw);
    StrippedEnds(raw);
    SliceOfSlice(source, start, end, 0, l);
    SliceOfSlice(source, start, end, l, |raw| - t);
    SliceOfSlice(source, start, end, |raw| - t, |raw|);
  }

  lemma {:induction false} StrippedEnds(raw: string)
    requires !AllSpace(raw)
    ensures Leading(raw) + Trailing(raw) < |raw|
    ensures AllSpace(raw[0..Leading(raw)]) && AllSpace(raw[|raw| - Trailing(raw)..|raw|])
    ensures !AllSpace(raw[Leading(raw)..|raw| - Trailing(raw)])
  {
    hide IsSpace, Leading, Trailing, AllSpace;
    EndsMeet(raw);
    SpaceSlice(raw, 0, Leading(raw));
    SpaceSlice(raw, |raw| - Trailing(raw), |raw|);
    VisibleSlice(raw, Leading(raw), |raw| - Trailing(raw));
  }

  lemma SpaceSlice(s: string, i: nat, j: nat)
    requires i <= j <= |s| && forall k :: i <= k < j ==> IsSpace(s[k])
    ensures AllSpace(s[i..j])
  {
    hide IsSpace;
    assert forall k :: 0 <= k < j - i ==> s[i..j][k] == s[i + k];
  }

  lemma VisibleSlice(s: string, i: nat, j: nat)
    requires i < j <= |s| && !IsSpace(s[i])
    ensures !AllSpace(s[i..j])
  {
    hide IsSpace;
    assert s[i..j][0] == s[i];
  }

  lemma NormalizeShrinks(s: string)
    ensures |NormalizeNewlines(s)| <= |s|
  {
  }

  // ----- Order: final spans stay inside the range they came from, for every source and counter -----

  /** Non-empty, non-overlapping ranges in increasing order between `lo` and `hi`. */
  ghost predicate Within(fs: seq<Span>, lo: nat, hi: nat)
    decreases |fs|
  {
    if fs == [] then lo <= hi
    else lo <= fs[0].start < fs[0].end <= hi && Within(fs[1..], fs[0].end, hi)
  }

  lemma {:induction false} WithinAppend(a: seq<Span>, b: seq<Span>, lo: nat, mid: nat, hi: nat)
    requires Within(a, lo, mid) && Within(b, mid, hi)
    ensures Within(a + b, lo, hi)
    decreases |a|
  {
    if a == [] {
      assert a + b == b;
      WithinWider(b, mid, hi, lo, hi);
    } else {
      assert (a + b)[1..] == a[1..] + b;
      WithinAppend(a[1..], b, a[0].end, mid, hi);
    }
  }

  lemma {:induction false} WithinWider(fs: seq<Span>, lo: nat, hi: nat, lo': nat, hi': nat)
    requires Within(fs, lo, hi) && lo' <= lo && hi <= hi'
    ensures Within(fs, lo', hi')
    decreases |fs|
  {
    if fs != [] { WithinWider(fs[1..], fs[0].end, hi, fs[0].end, hi'); }
  }

  lemma {:induction false} TilesAreWithin(ps: seq<Span>, src: string, off: nat, lo: nat, hi: nat)
    requires Tiles(ps, src, off, lo, hi)
    ensures Within(ps, lo, hi)
    decreases |ps|
  {
    TilesOrdered(ps, src, off, lo, hi);
    if ps != [] { TilesAreWithin(ps[1..], src, off, ps[0].end, hi); }
  }

  lemma EnforceOneWithin(count: Counter, c: Span, source: string, cfg: Config)
    requires c.start < c.end <= |source|
    ensures Within(EnforceOne(count, c, source, cfg), c.start, c.end)
  {
    hide TokenWindows, NormalizeSpan, Tiles;
    NormalizeSpanSpec(count, source, c);
    match NormalizeSpan(count, source, c)
    case None =>
    case Some(n) =>
      assert [n][1..] == [];
      var ws := TokenWindows(count, n.text, n.start, 0, cfg.chunkSizeTokens);
      WindowsTile(count, n.text, n.start, 0, cfg.chunkSizeTokens);
      TilesAreWithin(ws, n.text, n.start, n.start, n.start + |n.text|);
      WithinWider(ws, n.start, n.start + |n.text|, c.start, c.end);
  }

  lemma {:induction false} EnforceEachWithin(count: Counter, cs: seq<Span>, source: string, cfg: Config, lo: nat, hi: nat)
    requires Within(cs, lo, hi) && hi <= |source|
    ensures Within(EnforceEach(count, cs, source, cfg), lo, hi)
    decreases |cs|
  {
    hide EnforceOne;
    if cs != [] {
      var one := EnforceOne(count, cs[0], source, cfg);
      EnforceOneWithin(count, cs[0], source, cfg);
      WithinWider(one, cs[0].start, cs[0].end, lo, cs[0].end);
      EnforceEachWithin(count, cs[1..], source, cfg, cs[0].end, hi);
      WithinAppend(one, EnforceEach(count, cs[1..], source, cfg), lo, cs[0].end, hi);
    }
  }

  /** Splitting and packing tiles the text of the span. */
  lemma RepackedTiles(count: Counter, n: Span, cfg: Config)
    requires count(n.text) > cfg.maxChunkTokens || n.end == n.start + |n.text|
    ensures Tiles(Pack(count, SplitRecursive(count, n, cfg, 0), cfg, [], 0), n.text, n.start, n.start, n.start + |n.text|)
  {
    hide Pack, SplitRecursive, Tiles;
    SplitRecursiveTiles(count, n, cfg, 0);
    TilesNone(n.text, n.start, n.start);
    PackTiles(count, SplitRecursive(count, n, cfg, 0), cfg, [], 0, n.text, n.start, n.start, n.start, n.start + |n.text|);
  }

  lemma {:induction false} FinalOneWithin(count: Counter, span: Span, source: string, cfg: Config)
    requires span.start < span.end <= |source|
    ensures Within(FinalOne(count, span, source, cfg), span.start, span.end)
  {
    hide Pack, SplitRecursive, NormalizeSpan, EnforceEach, Tiles, AllSpace, NormalizeNewlines, Strip;
    NormalizeSpanSpec(count, source, span);
    match NormalizeSpan(count, source, span)
    case None =>
    case Some(n) =>
      if count(n.text) <= cfg.maxChunkTokens {
        assert [n][1..] == [];
      } else {
        var cs := Pack(count, SplitRecursive(count, n, cfg, 0), cfg, [], 0);
        RepackedTiles(count, n, cfg);
        TilesAreWithin(cs, n.text, n.start, n.start, n.start + |n.text|);
        EnforceEachWithin(count, cs, source, cfg, n.start, n.start + |n.text|);
        WithinWider(EnforceEach(count, cs, source, cfg), n.start, n.start + |n.text|, span.start, span.end);
      }
  }

  lemma {:induction false} FinalEachWithin(count: Counter, spans: seq<Span>, source: string, cfg: Config, lo: nat, hi: nat)
    requires Within(spans, lo, hi) && hi <= |source|
    ensures Within(FinalEach(count, spans, source, cfg), lo, hi)
    decreases |spans|
  {
    hide FinalOne;
    if spans != [] {
      var one := FinalOne(count, spans[0], source, cfg);
      FinalOneWithin(count, spans[0], source, cfg);
      WithinWider(one, spans[0].start, spans[0].end, lo, spans[0].end);
      FinalEachWithin(count, spans[1..], source, cfg, spans[0].end, hi);
      WithinAppend(one, FinalEach(count, spans[1..], source, cfg), lo, spans[0].end, hi);
    }
  }

  lemma {:induction false} FinalEachAppend(count: Counter, a: seq<Span>, b: seq<Span>, source: string, cfg: Config)
    ensures FinalEach(count, a + b, source, cfg) == FinalEach(count, a, source, cfg) + FinalEach(count, b, source, cfg)
    decreases |a|
  {
    hide FinalOne;
    if a == [] {
      assert a + b == b;
    } else {
      assert (a + b)[1..] == a[1..] + b;
      FinalEachAppend(count, a[1..], b, source, cfg);
    }
  }

  // ----- Seeds: cut at every heading, so no section boundary lies inside one -----

  ghost predicate Ascending(xs: seq<nat>) {
    forall i, j :: 0 <= i < j < |xs| ==> xs[i] < xs[j]
  }

  lemma AscendingCons(x: nat, xs: seq<nat>)
    requires Ascending(xs) && (xs != [] ==> x < xs[0])
    ensures Ascending([x] + xs)
  {
    var ys := [x] + xs;
    forall i, j | 0 <= i < j < |ys| ensures ys[i] < ys[j] {
      assert ys[j] == xs[j - 1];
      assert j > 1 ==> xs[0] < xs[j - 1];
    }
  }

  lemma {:induction false} InsertSorted(x: nat, xs: seq<nat>)
    requires Ascending(xs)
    ensures Ascending(Insert(x, xs))
    ensures forall y :: y in Insert(x, xs) <==> y == x || y in xs
    decreases |xs|
  {
    if xs != [] && x > xs[0] {
      assert xs == [xs[0]] + xs[1..];
      InsertSorted(x, xs[1..]);
      var tail := Insert(x, xs[1..]);
      forall k | 0 <= k < |tail| ensures xs[0] < tail[k] {
        assert tail[k] in tail;
        if tail[k] != x {
          var i :| 0 <= i < |xs[1..]| && xs[1..][i] == tail[k];
          assert xs[i + 1] == tail[k];
        }
      }
      assert tail != [] ==> xs[0] < tail[0];
      AscendingCons(xs[0], tail);
    } else if xs != [] && x < xs[0] {
      AscendingCons(x, xs);
    }
  }

  lemma {:induction false} SortedSetIsSorted(xs: seq<nat>)
    ensures Ascending(SortedSet(xs))
    ensures forall y :: y in SortedSet(xs) <==> y in xs
  {
    if xs != [] {
      SortedSetIsSorted(xs[1..]);
      InsertSorted(xs[0], SortedSet(xs[1..]));
      assert xs == [xs[0]] + xs[1..];
    }
  }

  /** Some state sits at offset `y`. */
  ghost predicate StateAt(states: seq<PathState>, y: nat) {
    exists i :: 0 <= i < |states| && states[i].offset == y
  }

  lemma {:induction false} InnerOffsetsAre(states: seq<PathState>, n: nat)
    ensures forall y :: y in InnerOffsets(states, n) <==> 0 < y < n && StateAt(states, y)
  {
    if states != [] {
      InnerOffsetsAre(states[1..], n);
      forall y: nat
        ensures StateAt(states, y) <==> states[0].offset == y || StateAt(states[1..], y)
      {
        assert states == [states[0]] + states[1..];
        if i :| 0 <= i < |states[1..]| && states[1..][i].offset == y { assert states[i + 1].offset == y; }
      }
    }
  }

  /** No heading strictly inside the range. */
  ghost predicate NoHeadingInside(states: seq<PathState>, lo: nat, hi: nat) {
    forall i :: 0 <= i < |states| ==> !(lo < states[i].offset < hi)
  }

  lemma BoundariesSpec(markdown: string, states: seq<PathState>)
    requires markdown != ""
    ensures var bs := Boundaries(markdown, states);
      && Ascending(bs) && |bs| >= 2 && bs[0] == 0 && bs[|bs| - 1] == |markdown|
      && forall k :: 0 <= k < |bs| - 1 ==> bs[k] < bs[k + 1] && NoHeadingInside(states, bs[k], bs[k + 1])
  {
    hide SortedSet, InnerOffsets;
    var n := |markdown|;
    var inner := InnerOffsets(states, n);
    var bs := Boundaries(markdown, states);
    SortedSetIsSorted([0] + inner + [n]);
    InnerOffsetsAre(states, n);
    assert forall y :: y in bs <==> y == 0 || y == n || (0 < y < n && StateAt(states, y));
    assert 0 in bs && n in bs;
    forall k | 0 <= k < |bs| ensures bs[k] <= n { assert bs[k] in bs; }
    forall k | 0 <= k < |bs| - 1 ensures NoHeadingInside(states, bs[k], bs[k + 1]) {
      forall i | 0 <= i < |states| ensures !(bs[k] < states[i].offset < bs[k + 1]) {
        var o := states[i].offset;
        assert StateAt(states, o);
        if 0 < o < n {
          assert o in bs;
          var m :| 0 <= m < |bs| && bs[m] == o;
        }
      }
    }
  }
}
