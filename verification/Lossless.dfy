/**
  Lossless chunking. For a source without CR LF pairs and a counter that is positive on non-empty
  text, every final span holds exactly the (newline-normalised) characters between its offsets, and
  everything between the spans is whitespace.
 */
module Lossless {
  import opened Options
  import opened Text
  import opened Spans
  import opened Windows
  import opened Splitting
  import opened Packing
  import opened Sections
  import opened Chunker
  import opened ChunkProperties
  import opened ChunkOrder

  ghost predicate Positive(count: Counter) {
    forall s: string :: s != "" ==> count(s) > 0
  }

  /** The spans carry their characters, and all gaps from `lo` to `hi` are whitespace. */
  ghost predicate Covers(fs: seq<Span>, src: string, lo: nat, hi: nat)
    decreases |fs|
  {
    if fs == [] then lo <= hi <= |src| && AllSpace(src[lo..hi])
    else
      && lo <= fs[0].start < fs[0].end <= hi <= |src|
      && AllSpace(src[lo..fs[0].start])
      && fs[0].text == NormalizeNewlines(src[fs[0].start..fs[0].end])
      && Covers(fs[1..], src, fs[0].end, hi)
  }

  lemma {:induction false} CoversWider(fs: seq<Span>, src: string, lo': nat, lo: nat, hi: nat)
    requires lo' <= lo <= |src| && AllSpace(src[lo'..lo]) && Covers(fs, src, lo, hi)
    ensures Covers(fs, src, lo', hi)
  {
    hide IsSpace, NormalizeNewlines, AllSpace;
    if fs == [] {
      SpaceJoins(src, lo', lo, hi);
    } else {
      SpaceJoins(src, lo', lo, fs[0].start);
    }
  }

  lemma SpaceJoins(src: string, a: nat, b: nat, c: nat)
    requires a <= b <= c <= |src| && AllSpace(src[a..b]) && AllSpace(src[b..c])
    ensures AllSpace(src[a..c])
  {
    hide IsSpace, AllSpace;
    AllSpaceSplit(src[a..b], src[b..c]);
    assert src[a..c] == src[a..b] + src[b..c];
  }

  lemma {:induction false} CoversAppend(a: seq<Span>, b: seq<Span>, src: string, lo: nat, mid: nat, hi: nat)
    requires Covers(a, src, lo, mid) && Covers(b, src, mid, hi)
    ensures Covers(a + b, src, lo, hi)
    decreases |a|
  {
    hide IsSpace, NormalizeNewlines, AllSpace;
    if a == [] {
      assert a + b == b;
      CoversWider(b, src, lo, mid, hi);
    } else {
      assert (a + b)[1..] == a[1..] + b;
      CoversAppend(a[1..], b, src, a[0].end, mid, hi);
      CoversBound(b, src, mid, hi);
      CoversBound(a, src, lo, mid);
    }
  }

  lemma {:induction false} CoversBound(fs: seq<Span>, src: string, lo: nat, hi: nat)
    requires Covers(fs, src, lo, hi)
    ensures lo <= hi <= |src|
    decreases |fs|
  {
    if fs != [] { CoversBound(fs[1..], src, fs[0].end, hi); }
  }

  /** One trimmed span covers the range it was trimmed from. */
  lemma TrimmedCovers(src: string, start: nat, n: Span, end: nat)
    requires start <= n.start < n.end <= end <= |src|
    requires AllSpace(src[start..n.start]) && AllSpace(src[n.end..end])
    requires n.text == NormalizeNewlines(src[n.start..n.end])
    ensures Covers([n], src, start, end)
  {
    hide IsSpace, NormalizeNewlines, AllSpace;
    assert [n][1..] == [];
  }

  /** Tiles of a normalised piece of the source carry the normalised characters at their offsets. */
  lemma {:induction false} TilesCover(ps: seq<Span>, n: Span, src: string, lo: nat, hi: nat)
    requires n.start < n.end <= |src| && NoCrLf(src[n.start..n.end]) && n.text == NormalizeNewlines(src[n.start..n.end])
    requires Tiles(ps, n.text, n.start, lo, hi) && n.start <= lo && hi <= n.end
    ensures Covers(ps, src, lo, hi)
    decreases |ps|
  {
    hide NormalizeNewlines, NoCrLf;
    TilesOrdered(ps, n.text, n.start, lo, hi);
    if ps == [] {
      assert src[lo..hi] == "";
    } else {
      PieceOfNormalized(n, src, lo, ps[0].end);
      assert src[lo..lo] == "";
      TilesCover(ps[1..], n, src, ps[0].end, hi);
    }
  }

  lemma PieceOfNormalized(n: Span, src: string, lo: nat, hi: nat)
    requires n.start <= lo < hi <= n.end <= |src| && NoCrLf(src[n.start..n.end])
    requires n.text == NormalizeNewlines(src[n.start..n.end])
    ensures |n.text| == n.end - n.start
    ensures n.text[lo - n.start..hi - n.start] == NormalizeNewlines(src[lo..hi])
  {
    hide NormalizeNewlines;
    NormalizeSlice(src[n.start..n.end], lo - n.start, hi - n.start);
    SliceOfSlice(src, n.start, n.end, lo - n.start, hi - n.start);
  }

  lemma NoCrLfSlice(src: string, lo: nat, hi: nat, i: nat, j: nat)
    requires lo <= i <= j <= hi <= |src| && NoCrLf(src[lo..hi])
    ensures NoCrLf(src[i..j])
  {
    SliceOfSlice(src, lo, hi, i - lo, j - lo);
    NoCrLfPart(src[lo..hi], i - lo, j - lo);
  }

  lemma NoCrLfPart(s: string, i: nat, j: nat)
    requires i <= j <= |s| && NoCrLf(s)
    ensures NoCrLf(s[i..j])
  {
  }

  lemma {:induction false} EnforceOneCovers(count: Counter, c: Span, src: string, cfg: Config)
    requires Positive(count) && c.start < c.end <= |src| && NoCrLf(src[c.start..c.end])
    ensures Covers(EnforceOne(count, c, src, cfg), src, c.start, c.end)
  {
    hide TokenWindows, NormalizeSpan, Tiles, NormalizeNewlines, IsSpace, AllSpace, NoCrLf, Strip;
    NormalizeSpanSpec(count, src, c);
    match NormalizeSpan(count, src, c)
    case None => NoneIsSpace(count, src[c.start..c.end]);
    case Some(n) =>
      TrimmedCovers(src, c.start, n, c.end);
      NoCrLfSlice(src, c.start, c.end, n.start, n.end);
      var ws := TokenWindows(count, n.text, n.start, 0, cfg.chunkSizeTokens);
      WindowsTile(count, n.text, n.start, 0, cfg.chunkSizeTokens);
      PieceOfNormalized(n, src, n.start, n.end);
      TilesCover(ws, n, src, n.start, n.end);
      BothEndsWider(ws, src, c.start, n, c.end);
  }

  /** Whitespace on both sides of a covered range can be added to it. */
  lemma BothEndsWider(fs: seq<Span>, src: string, start: nat, n: Span, end: nat)
    requires start <= n.start < n.end <= end <= |src|
    requires AllSpace(src[start..n.start]) && AllSpace(src[n.end..end])
    requires Covers(fs, src, n.start, n.end)
    ensures Covers(fs, src, start, end)
  {
    hide IsSpace, AllSpace;
    CoversWider(fs, src, start, n.start, n.end);
    assert fs + [] == fs;
    CoversAppend(fs, [], src, start, n.end, end);
  }

  lemma NoneIsSpace(count: Counter, raw: string)
    requires Positive(count)
    requires AllSpace(raw) || count(NormalizeNewlines(Strip(raw))) == 0
    ensures AllSpace(raw)
  {
    hide NormalizeNewlines, IsSpace, AllSpace;
    NormalizeSpace(Strip(raw));
    StripOfSpace(raw);
  }

  lemma {:induction false} EnforceEachCovers(count: Counter, cs: seq<Span>, src: string, cfg: Config,
                                             text: string, off: nat, lo: nat, hi: nat)
    requires Positive(count) && Tiles(cs, text, off, lo, hi) && lo <= hi <= |src| && NoCrLf(src[lo..hi])
    ensures Covers(EnforceEach(count, cs, src, cfg), src, lo, hi)
    decreases |cs|
  {
    hide EnforceOne, NoCrLf, Covers, Tiles;
    if cs == [] {
      TilesNone(text, off, lo);
      EmptyCovers(src, lo);
    } else {
      TilesHead(cs, text, off, lo, hi);
      TilesOrdered(cs[1..], text, off, cs[0].end, hi);
      NoCrLfSlice(src, lo, hi, lo, cs[0].end);
      NoCrLfSlice(src, lo, hi, cs[0].end, hi);
      EnforceOneCovers(count, cs[0], src, cfg);
      EnforceEachCovers(count, cs[1..], src, cfg, text, off, cs[0].end, hi);
      CoversAppend(EnforceOne(count, cs[0], src, cfg), EnforceEach(count, cs[1..], src, cfg), src, lo, cs[0].end, hi);
    }
  }

  lemma EmptyCovers(src: string, lo: nat)
    requires lo <= |src|
    ensures Covers([], src, lo, lo)
  {
    assert src[lo..lo] == "";
  }

  /** The trimmed span passes the cap as it is, or has no CR LF pair. */
  ghost predicate EnforceSafe(count: Counter, src: string, cfg: Config, n: Span) {
    count(n.text) <= cfg.maxChunkTokens || NoCrLf(PySlice(src, n.start, n.end))
  }

  lemma SafeMeans(count: Counter, src: string, cfg: Config, n: Span)
    requires n.start <= n.end <= |src|
    ensures EnforceSafe(count, src, cfg, n) <==> count(n.text) <= cfg.maxChunkTokens || NoCrLf(src[n.start..n.end])
  {
    hide NoCrLf;
  }

  lemma ExactCovers(n: Span, src: string)
    requires n.start < n.end <= |src| && n.text == NormalizeNewlines(src[n.start..n.end])
    ensures Covers([n], src, n.start, n.end)
  {
    hide NormalizeNewlines;
    assert src[n.start..n.start] == "" && src[n.end..n.end] == "";
    TrimmedCovers(src, n.start, n, n.end);
  }

  lemma {:induction false} EnforceCovers(count: Counter, n: Span, src: string, cfg: Config)
    requires Positive(count) && EnforceSafe(count, src, cfg, n)
    requires n.start < n.end <= |src| && n.text == NormalizeNewlines(src[n.start..n.end])
    ensures Covers(EnforceMaxTokens(count, n, src, cfg), src, n.start, n.end)
  {
    hide Pack, SplitRecursive, EnforceEach, NormalizeNewlines, NoCrLf, Tiles, Covers, EnforceSafe;
    SafeMeans(count, src, cfg, n);
    if count(n.text) <= cfg.maxChunkTokens {
      ExactCovers(n, src);
    } else {
      RepackedTiles(count, n, cfg);
      PieceOfNormalized(n, src, n.start, n.end);
      EnforceEachCovers(count, Pack(count, SplitRecursive(count, n, cfg, 0), cfg, [], 0), src, cfg, n.text, n.start, n.start, n.end);
    }
  }

  lemma {:induction false} FinalOneCovers(count: Counter, p: Span, src: string, cfg: Config)
    requires Positive(count) && p.start < p.end <= |src|
    requires NormalizeSpan(count, src, p).Some? ==> EnforceSafe(count, src, cfg, NormalizeSpan(count, src, p).value)
    ensures Covers(FinalOne(count, p, src, cfg), src, p.start, p.end)
  {
    hide NormalizeSpan, EnforceMaxTokens, EnforceSafe, NormalizeNewlines, AllSpace, IsSpace, Strip, Covers;
    NormalizeSpanSpec(count, src, p);
    match NormalizeSpan(count, src, p)
    case None =>
      NoneIsSpace(count, src[p.start..p.end]);
      SpaceCovers(src, p.start, p.end);
    case Some(n) =>
      EnforceCovers(count, n, src, cfg);
      BothEndsWider(EnforceMaxTokens(count, n, src, cfg), src, p.start, n, p.end);
  }

  lemma SpaceCovers(src: string, lo: nat, hi: nat)
    requires lo <= hi <= |src| && AllSpace(src[lo..hi])
    ensures Covers([], src, lo, hi)
  {
  }

  /** No packed span with a CR LF pair in its trimmed range is re-split. */
  ghost predicate AllSafe(count: Counter, ps: seq<Span>, src: string, cfg: Config) {
    forall p :: p in ps ==>
      (NormalizeSpan(count, src, p).Some? ==> EnforceSafe(count, src, cfg, NormalizeSpan(count, src, p).value))
  }

  lemma {:induction false} FinalEachCovers(count: Counter, ps: seq<Span>, src: string, cfg: Config, lo: nat, hi: nat)
    requires Positive(count) && AllSafe(count, ps, src, cfg) && Tiles(ps, src, 0, lo, hi) && hi <= |src|
    ensures Covers(FinalEach(count, ps, src, cfg), src, lo, hi)
    decreases |ps|
  {
    hide FinalOne, EnforceSafe, NormalizeSpan, Covers, Tiles;
    if ps == [] {
      TilesNone(src, 0, lo);
      EmptyCovers(src, lo);
    } else {
      TilesHead(ps, src, 0, lo, hi);
      TilesOrdered(ps[1..], src, 0, ps[0].end, hi);
      assert ps[0] in ps && forall p :: p in ps[1..] ==> p in ps;
      FinalOneCovers(count, ps[0], src, cfg);
      FinalEachCovers(count, ps[1..], src, cfg, ps[0].end, hi);
      CoversAppend(FinalOne(count, ps[0], src, cfg), FinalEach(count, ps[1..], src, cfg), src, lo, ps[0].end, hi);
    }
  }

  lemma {:induction false} PackedSeedsTile(count: Counter, markdown: string, cfg: Config, seeds: seq<Span>, lo: nat, hi: nat)
    requires Tiles(seeds, markdown, 0, lo, hi)
    ensures Tiles(PackedSeeds(count, seeds, cfg), markdown, 0, lo, hi)
    decreases |seeds|
  {
    hide Pack, SplitRecursive, Tiles;
    if seeds == [] {
      TilesNone(markdown, 0, lo);
    } else {
      TilesHead(seeds, markdown, 0, lo, hi);
      var p := Pack(count, SplitRecursive(count, seeds[0], cfg, 0), cfg, [], 0);
      RepackedTiles(count, seeds[0], cfg);
      TilesRebase(p, seeds[0].text, lo, lo, seeds[0].end, markdown, 0);
      PackedSeedsTile(count, markdown, cfg, seeds[1..], seeds[0].end, hi);
      TilesAppend(p, PackedSeeds(count, seeds[1..], cfg), markdown, 0, lo, seeds[0].end, hi);
    }
  }

  function Packed(count: Counter, markdown: string, cfg: Config): seq<Span> {
    PackedSeeds(count, Seeds(markdown, SectionStates(markdown)), cfg)
  }

  /** The packed spans, before trimming, tile the document. */
  lemma {:induction false} PackedTiles(count: Counter, markdown: string, cfg: Config)
    ensures Tiles(Packed(count, markdown, cfg), markdown, 0, 0, |markdown|)
  {
    hide PackedSeeds, Seeds, SectionStates, Tiles;
    SeedsAreSections(markdown);
    PackedSeedsTile(count, markdown, cfg, Seeds(markdown, SectionStates(markdown)), 0, |markdown|);
  }

  lemma SafeWithoutCrLf(count: Counter, src: string, cfg: Config, n: Span)
    requires NoCrLf(src)
    ensures EnforceSafe(count, src, cfg, n)
  {
    var i, j := n.start, if n.end <= |src| then n.end else |src|;
    if i < j { NoCrLfPart(src, i, j); }
  }

  /** Lossless chunking of every source without CR LF pairs. */
  lemma {:induction false} FinalSpansCover(count: Counter, markdown: string, cfg: Config)
    requires Positive(count) && NoCrLf(markdown)
    ensures Covers(FinalSpans(count, markdown, cfg), markdown, 0, |markdown|)
  {
    hide PackedSeeds, Seeds, SectionStates, Tiles, FinalEach, NormalizeSpan, Covers;
    PackedTiles(count, markdown, cfg);
    forall p | p in Packed(count, markdown, cfg)
      ensures NormalizeSpan(count, markdown, p).Some? ==> EnforceSafe(count, markdown, cfg, NormalizeSpan(count, markdown, p).value)
    {
      if NormalizeSpan(count, markdown, p).Some? {
        SafeWithoutCrLf(count, markdown, cfg, NormalizeSpan(count, markdown, p).value);
      }
    }
    FinalEachCovers(count, Packed(count, markdown, cfg), markdown, cfg, 0, |markdown|);
  }

  // ----- The exact condition -----

  lemma {:induction false} CrLfShortens(s: string)
    ensures |NormalizeNewlines(s)| == |s| <==> NoCrLf(s)
  {
    ReplaceCrLfShortens(s);
  }

  lemma {:induction false} ReplaceCrLfShortens(s: string)
    ensures |ReplaceCrLf(s)| == |s| <==> NoCrLf(s)
    decreases |s|
  {
    if |s| >= 2 && s[0] == '\r' && s[1] == '\n' {
      assert |ReplaceCrLf(s[2..])| <= |s[2..]|;
    } else if s != "" {
      ReplaceCrLfShortens(s[1..]);
      if NoCrLf(s[1..]) {
        forall i | 0 <= i < |s| - 1 ensures !(s[i] == '\r' && s[i + 1] == '\n') {
          if i > 0 { assert s[1..][i - 1] == s[i] && s[1..][i] == s[i + 1]; }
        }
      }
      if NoCrLf(s) { NoCrLfPart(s, 1, |s|); }
    }
  }

  /** A re-split only reaches as far as the normalised text is long. */
  lemma {:induction false} ResplitReach(count: Counter, n: Span, src: string, cfg: Config)
    requires count(n.text) > cfg.maxChunkTokens && n.start + |n.text| <= |src|
    ensures Within(EnforceMaxTokens(count, n, src, cfg), n.start, n.start + |n.text|)
  {
    hide Pack, SplitRecursive, EnforceEach, Tiles, Within;
    var cs := Pack(count, SplitRecursive(count, n, cfg, 0), cfg, [], 0);
    RepackedTiles(count, n, cfg);
    TilesAreWithin(cs, n.text, n.start, n.start, n.start + |n.text|);
    EnforceEachWithin(count, cs, src, cfg, n.start, n.start + |n.text|);
  }

  /** The final spans around offset `i` come from the packed span around `i`. */
  lemma {:induction false} FinalComesFrom(count: Counter, ps: seq<Span>, src: string, cfg: Config, lo: nat, hi: nat, p: Span, f: Span, i: nat)
    requires Tiles(ps, src, 0, lo, hi) && hi <= |src|
    requires p in ps && p.start <= i < p.end
    requires f in FinalEach(count, ps, src, cfg) && f.start <= i < f.end
    ensures f in FinalOne(count, p, src, cfg)
    decreases |ps|
  {
    hide FinalOne, Tiles, Within;
    var head := ps[0];
    TilesHead(ps, src, 0, lo, hi);
    TilesOrdered(ps, src, 0, lo, hi);
    FinalOneWithin(count, head, src, cfg);
    TilesAreWithin(ps[1..], src, 0, head.end, hi);
    FinalEachWithin(count, ps[1..], src, cfg, head.end, hi);
    if p != head { WithinMember(ps[1..], head.end, hi, p); }
    if f in FinalOne(count, head, src, cfg) {
      WithinMember(FinalOne(count, head, src, cfg), head.start, head.end, f);
    } else {
      WithinMember(FinalEach(count, ps[1..], src, cfg), head.end, hi, f);
      FinalComesFrom(count, ps[1..], src, cfg, head.end, hi, p, f, i);
    }
  }

  /** If a packed span with a CR LF pair is re-split, the last character of its trimmed range is in no final span. */
  lemma ResplitLosesLast(count: Counter, ps: seq<Span>, src: string, cfg: Config, p: Span)
    requires Positive(count) && Tiles(ps, src, 0, 0, |src|) && p in ps
    requires NormalizeSpan(count, src, p).Some? && !EnforceSafe(count, src, cfg, NormalizeSpan(count, src, p).value)
    ensures !Covers(FinalEach(count, ps, src, cfg), src, 0, |src|)
  {
    hide FinalEach, EnforceMaxTokens, NormalizeSpan, NormalizeNewlines, NoCrLf, IsSpace, AllSpace, Strip, Tiles, Within, Covers;
    TilesAreWithin(ps, src, 0, 0, |src|);
    WithinMember(ps, 0, |src|, p);
    NormalizeSpanSpec(count, src, p);
    var n := NormalizeSpan(count, src, p).value;
    var i := n.end - 1;
    CrLfShortens(src[n.start..n.end]);
    ResplitReach(count, n, src, cfg);
    StripEndsVisible(src, p.start, p.end, n.start, n.end);
    if Covers(FinalEach(count, ps, src, cfg), src, 0, |src|) {
      CoversEveryCharacter(FinalEach(count, ps, src, cfg), src, 0, |src|, i);
      var f :| f in FinalEach(count, ps, src, cfg) && f.start <= i < f.end;
      FinalComesFrom(count, ps, src, cfg, 0, |src|, p, f, i);
      WithinMember(EnforceMaxTokens(count, n, src, cfg), n.start, n.start + |n.text|, f);
    }
  }

  lemma StripEndsVisible(src: string, start: nat, end: nat, s: nat, e: nat)
    requires start <= s < e <= end <= |src| && src[s..e] == Strip(src[start..end])
    ensures !IsSpace(src[e - 1])
  {
    hide IsSpace, Leading;
    var raw := src[start..end];
    EndsMeet(raw);
    assert src[s..e][e - s - 1] == src[e - 1];
    assert Strip(raw)[|Strip(raw)| - 1] == raw[|raw| - Trailing(raw) - 1];
  }

  /**
    Exactly when chunking is lossless, for a counter that is positive on non-empty text: no packed
    span is re-split that has a CR LF pair in its trimmed range.
   */
  lemma {:induction false} LosslessIff(count: Counter, markdown: string, cfg: Config)
    requires Positive(count)
    ensures Covers(FinalSpans(count, markdown, cfg), markdown, 0, |markdown|)
      <==> AllSafe(count, Packed(count, markdown, cfg), markdown, cfg)
  {
    hide PackedSeeds, Seeds, SectionStates, Tiles, FinalEach, NormalizeSpan, Covers, EnforceSafe;
    var ps := Packed(count, markdown, cfg);
    PackedTiles(count, markdown, cfg);
    if AllSafe(count, ps, markdown, cfg) {
      FinalEachCovers(count, ps, markdown, cfg, 0, |markdown|);
    } else {
      var p :| p in ps && NormalizeSpan(count, markdown, p).Some?
        && !EnforceSafe(count, markdown, cfg, NormalizeSpan(count, markdown, p).value);
      ResplitLosesLast(count, ps, markdown, cfg, p);
    }
  }

  // ----- What that means for the chunks -----

  /** Without CR at all, the text of a final span is literally the source between its offsets. */
  lemma {:induction false} CoversExactly(fs: seq<Span>, src: string, lo: nat, hi: nat, f: Span)
    requires Covers(fs, src, lo, hi) && '\r' !in src && f in fs
    ensures f.start < f.end <= |src| && f.text == src[f.start..f.end]
    decreases |fs|
  {
    hide NormalizeNewlines;
    if f == fs[0] {
      CoversBound(fs[1..], src, fs[0].end, hi);
      NoCrUnchanged(src[f.start..f.end]);
    } else {
      CoversExactly(fs[1..], src, fs[0].end, hi, f);
    }
  }

  lemma SpaceAt(src: string, lo: nat, hi: nat, i: nat)
    requires lo <= i < hi <= |src| && AllSpace(src[lo..hi])
    ensures IsSpace(src[i])
  {
    assert src[lo..hi][i - lo] == src[i];
  }

  /** Every visible character between `lo` and `hi` lies in one of the spans. */
  lemma {:induction false} CoversEveryCharacter(fs: seq<Span>, src: string, lo: nat, hi: nat, i: nat)
    requires Covers(fs, src, lo, hi) && lo <= i < hi && i < |src|
    ensures !IsSpace(src[i]) ==> exists f :: f in fs && f.start <= i < f.end
    decreases |fs|
  {
    hide IsSpace, NormalizeNewlines, AllSpace;
    if fs == [] {
      SpaceAt(src, lo, hi, i);
    } else if i < fs[0].start {
      SpaceAt(src, lo, fs[0].start, i);
    } else if i < fs[0].end {
      assert fs[0] in fs;
    } else {
      CoversEveryCharacter(fs[1..], src, fs[0].end, hi, i);
    }
  }

  /**
    The theorem about chunks: each chunk's text is the source between its offsets, and every visible
    character of the document lies in a span whose text and section path a chunk repeats.
   */
  lemma {:induction false} ChunkingIsLossless(count: Counter, markdown: string, cfg: Config)
    requires Positive(count) && '\r' !in markdown
    ensures forall c :: c in Chunks(count, markdown, cfg) ==>
      c.startOffset < c.endOffset <= |markdown| && c.text == markdown[c.startOffset..c.endOffset]
    ensures forall i :: 0 <= i < |markdown| && !IsSpace(markdown[i]) ==> InSomeChunk(count, markdown, cfg, i)
  {
    hide FinalSpans, Chunks, ChunkSpans, Covers, SectionStates, PathFor, IsSpace, Within, Strip;
    FinalSpansCover(count, markdown, cfg);
    ChunksAreMadeFromSpans(count, markdown, cfg);
    var fs, kept, cs := FinalSpans(count, markdown, cfg), ChunkSpans(count, markdown, cfg), Chunks(count, markdown, cfg);
    forall k | 0 <= k < |cs|
      ensures cs[k].startOffset < cs[k].endOffset <= |markdown| && cs[k].text == markdown[cs[k].startOffset..cs[k].endOffset]
    {
      assert kept[k] in kept;
      CoversExactly(fs, markdown, 0, |markdown|, kept[k]);
    }
    forall i | 0 <= i < |markdown| && !IsSpace(markdown[i]) ensures InSomeChunk(count, markdown, cfg, i) {
      VisibleInSomeChunk(count, markdown, cfg, i);
    }
  }

  lemma VisibleInSomeChunk(count: Counter, markdown: string, cfg: Config, i: nat)
    requires Positive(count) && '\r' !in markdown && i < |markdown| && !IsSpace(markdown[i])
    ensures InSomeChunk(count, markdown, cfg, i)
  {
    hide FinalSpans, Chunks, Covers, SectionStates, PathFor, IsSpace, Strip;
    var fs := FinalSpans(count, markdown, cfg);
    FinalSpansCover(count, markdown, cfg);
    CoversEveryCharacter(fs, markdown, 0, |markdown|, i);
    var f :| f in fs && f.start <= i < f.end;
    StripOfSpace(markdown);
    FinalSpanIsRepresented(count, markdown, cfg, f);
    var c :| c in Chunks(count, markdown, cfg) && SameContent(SectionStates(markdown), c, f);
    CoversExactly(fs, markdown, 0, |markdown|, f);
    assert Repeats(markdown, c, f.start, i);
  }

  /** Character `i` of the document is part of a chunk's text, at its own or at an earlier repetition's place. */
  ghost predicate InSomeChunk(count: Counter, markdown: string, cfg: Config, i: nat)
    requires i < |markdown|
  {
    exists c, s: nat :: c in Chunks(count, markdown, cfg) && Repeats(markdown, c, s, i)
  }

  /** The chunk's text also stands in the document at offset `s`, around character `i`, in the chunk's section. */
  ghost predicate Repeats(markdown: string, c: Chunk, s: nat, i: nat) {
    && c.startOffset <= s <= i < s + |c.text| <= |markdown|
    && c.text == markdown[s..s + |c.text|]
    && c.sectionPath == PathFor(SectionStates(markdown), s)
  }
}
