/** For every counter and every source: chunks are ordered, disjoint, capped and never cross a heading. */
module ChunkOrder {
  import opened Options
  import opened Text
  import opened Spans
  import opened Windows
  import opened Splitting
  import opened Packing
  import opened Sections
  import opened Chunker
  import opened ChunkProperties

  // ----- Seeds -----

  lemma {:induction false} SeedsFromTile(markdown: string, states: seq<PathState>, bounds: seq<nat>, k: nat)
    requires k < |bounds| && bounds[|bounds| - 1] == |markdown|
    requires forall m :: 0 <= m < |bounds| - 1 ==> bounds[m] < bounds[m + 1] && NoHeadingInside(states, bounds[m], bounds[m + 1])
    ensures bounds[k] <= |markdown|
    ensures var seeds := SeedsFrom(markdown, bounds[k..]);
      && Tiles(seeds, markdown, 0, bounds[k], |markdown|)
      && forall s :: s in seeds ==> NoHeadingInside(states, s.start, s.end)
    decreases |bounds| - k
  {
    hide NoHeadingInside, PySlice;
    if k < |bounds| - 1 {
      SeedsFromTile(markdown, states, bounds, k + 1);
      assert bounds[k..][1..] == bounds[k + 1..];
      var seed := Span(PySlice(markdown, bounds[k], bounds[k + 1]), bounds[k], bounds[k + 1]);
      var rest := SeedsFrom(markdown, bounds[k + 1..]);
      assert SeedsFrom(markdown, bounds[k..]) == [seed] + rest;
      assert ([seed] + rest)[1..] == rest;
    }
  }

  /** The seeds tile the document, and no heading lies strictly inside one. */
  lemma {:induction false} SeedsAreSections(markdown: string)
    ensures var states := SectionStates(markdown);
      && Tiles(Seeds(markdown, states), markdown, 0, 0, |markdown|)
      && forall s :: s in Seeds(markdown, states) ==> NoHeadingInside(states, s.start, s.end)
  {
    hide SectionStates, Boundaries, SeedsFrom, NoHeadingInside;
    if markdown != "" {
      var states := SectionStates(markdown);
      BoundariesSpec(markdown, states);
      var bs := Boundaries(markdown, states);
      SeedsFromTile(markdown, states, bs, 0);
      assert bs[0..] == bs;
    }
  }

  // ----- Order and purity of the final spans -----

  /** The section path is the same at every offset of the span. */
  ghost predicate PureSpan(states: seq<PathState>, f: Span) {
    forall x: nat :: f.start <= x < f.end ==> PathFor(states, x) == PathFor(states, f.start)
  }

  lemma {:induction false} WithinMember(fs: seq<Span>, lo: nat, hi: nat, f: Span)
    requires Within(fs, lo, hi) && f in fs
    ensures lo <= f.start < f.end <= hi
    decreases |fs|
  {
    WithinBounds(fs, lo, hi);
    if f != fs[0] { WithinMember(fs[1..], fs[0].end, hi, f); }
  }

  lemma {:induction false} WithinBounds(fs: seq<Span>, lo: nat, hi: nat)
    requires Within(fs, lo, hi)
    ensures lo <= hi
    decreases |fs|
  {
    if fs != [] { WithinBounds(fs[1..], fs[0].end, hi); }
  }

  lemma {:induction false} WithinOrdered(fs: seq<Span>, lo: nat, hi: nat, i: nat, j: nat)
    requires Within(fs, lo, hi) && i < j < |fs|
    ensures fs[i].end <= fs[j].start
    decreases |fs|
  {
    if i == 0 {
      WithinMember(fs[1..], fs[0].end, hi, fs[1..][j - 1]);
    } else {
      WithinOrdered(fs[1..], fs[0].end, hi, i - 1, j - 1);
    }
  }

  lemma {:induction false} SeedIsPure(count: Counter, markdown: string, states: seq<PathState>, cfg: Config, seed: Span)
    requires StatesSorted(states) && NoHeadingInside(states, seed.start, seed.end)
    requires seed.start < seed.end <= |markdown| && seed.text == markdown[seed.start..seed.end]
    ensures var fs := FinalEach(count, Pack(count, SplitRecursive(count, seed, cfg, 0), cfg, [], 0), markdown, cfg);
      && Within(fs, seed.start, seed.end)
      && forall f :: f in fs ==> PureSpan(states, f)
  {
    hide Pack, SplitRecursive, FinalEach, Within, Tiles, PathFor;
    var ps := Pack(count, SplitRecursive(count, seed, cfg, 0), cfg, [], 0);
    RepackedTiles(count, seed, cfg);
    TilesAreWithin(ps, seed.text, seed.start, seed.start, seed.end);
    FinalEachWithin(count, ps, markdown, cfg, seed.start, seed.end);
    var fs := FinalEach(count, ps, markdown, cfg);
    forall f | f in fs ensures PureSpan(states, f) {
      WithinMember(fs, seed.start, seed.end, f);
      forall x: nat | f.start <= x < f.end ensures PathFor(states, x) == PathFor(states, f.start) {
        PathForConstant(states, seed.start, seed.end, x);
        PathForConstant(states, seed.start, seed.end, f.start);
      }
    }
  }

  lemma {:induction false} SeedsArePure(count: Counter, markdown: string, states: seq<PathState>, cfg: Config,
                                        seeds: seq<Span>, lo: nat, hi: nat)
    requires StatesSorted(states) && Tiles(seeds, markdown, 0, lo, hi) && hi <= |markdown|
    requires forall s :: s in seeds ==> NoHeadingInside(states, s.start, s.end)
    ensures var fs := FinalEach(count, PackedSeeds(count, seeds, cfg), markdown, cfg);
      && Within(fs, lo, hi)
      && forall f :: f in fs ==> PureSpan(states, f)
    decreases |seeds|
  {
    hide Pack, SplitRecursive, FinalEach, PureSpan, Within, NoHeadingInside, Tiles, PackedSeeds;
    if seeds == [] {
      NothingLeft(count, seeds, markdown, cfg, states, [], {});
      TilesNone(markdown, 0, lo);
      WithinNone(lo);
    } else {
      var seed := seeds[0];
      TilesHead(seeds, markdown, 0, lo, hi);
      TilesOrdered(seeds, markdown, 0, lo, hi);
      assert seed in seeds && seeds[0..] == seeds;
      assert forall s :: s in seeds[1..] ==> s in seeds;
      SeedIsPure(count, markdown, states, cfg, seed);
      SeedsArePure(count, markdown, states, cfg, seeds[1..], seed.end, hi);
      PackedSeedsUnfold(count, seeds, cfg, 0);
      var p, ps := Pack(count, SplitRecursive(count, seed, cfg, 0), cfg, [], 0), PackedSeeds(count, seeds[1..], cfg);
      FinalEachAppend(count, p, ps, markdown, cfg);
      WithinAppend(FinalEach(count, p, markdown, cfg), FinalEach(count, ps, markdown, cfg), lo, seed.end, hi);
    }
  }

  lemma WithinNone(lo: nat)
    ensures Within([], lo, lo)
  {
  }

  /** Pre-deduplication spans: inside the document, ordered, disjoint, each inside one section. */
  lemma {:induction false} FinalSpansOrderedAndPure(count: Counter, markdown: string, cfg: Config)
    ensures var fs := FinalSpans(count, markdown, cfg);
      && Within(fs, 0, |markdown|)
      && forall f :: f in fs ==> PureSpan(SectionStates(markdown), f)
  {
    hide SectionStates, Seeds, PackedSeeds, FinalEach, PureSpan, Within, Tiles, NoHeadingInside, StatesSorted;
    SectionStatesSorted(markdown);
    SeedsAreSections(markdown);
    SeedsArePure(count, markdown, SectionStates(markdown), cfg, Seeds(markdown, SectionStates(markdown)), 0, |markdown|);
  }

  // ----- The cap -----

  lemma EnforceOneCapped(count: Counter, c: Span, source: string, cfg: Config)
    requires cfg.Valid()
    ensures forall f :: f in EnforceOne(count, c, source, cfg) ==> Capped(count, f.text, cfg.maxChunkTokens)
  {
    hide TokenWindows, NormalizeSpan;
    match NormalizeSpan(count, source, c)
    case None =>
    case Some(n) => WindowsBounded(count, n.text, n.start, cfg.chunkSizeTokens);
  }

  lemma {:induction false} EnforceEachCapped(count: Counter, cs: seq<Span>, source: string, cfg: Config)
    requires cfg.Valid()
    ensures forall f :: f in EnforceEach(count, cs, source, cfg) ==> Capped(count, f.text, cfg.maxChunkTokens)
    decreases |cs|
  {
    hide EnforceOne, Capped;
    if cs != [] {
      EnforceOneCapped(count, cs[0], source, cfg);
      EnforceEachCapped(count, cs[1..], source, cfg);
    }
  }

  lemma {:induction false} FinalEachCapped(count: Counter, spans: seq<Span>, source: string, cfg: Config)
    requires cfg.Valid()
    ensures forall f :: f in FinalEach(count, spans, source, cfg) ==> Capped(count, f.text, cfg.maxChunkTokens)
    decreases |spans|
  {
    hide Pack, SplitRecursive, NormalizeSpan, EnforceEach;
    if spans != [] {
      match NormalizeSpan(count, source, spans[0]) {
        case None =>
        case Some(n) =>
          EnforceEachCapped(count, Pack(count, SplitRecursive(count, n, cfg, 0), cfg, [], 0), source, cfg);
      }
      FinalEachCapped(count, spans[1..], source, cfg);
    }
  }

  // ----- Dropping duplicates -----

  function Key(states: seq<PathState>, span: Span): (string, seq<string>) {
    (span.text, PathFor(states, span.start))
  }

  /** The spans that become chunks: the first one of every key, if the key is not in `seen`. */
  function Kept(states: seq<PathState>, spans: seq<Span>, seen: set<(string, seq<string>)>): seq<Span>
    decreases |spans|
  {
    if spans == [] then []
    else
      var key := Key(states, spans[0]);
      if key in seen then Kept(states, spans[1..], seen) else [spans[0]] + Kept(states, spans[1..], seen + {key})
  }

  lemma {:induction false} DedupeMakesKept(count: Counter, states: seq<PathState>, spans: seq<Span>,
                                           chunks: seq<Chunk>, seen: set<(string, seq<string>)>)
    ensures var r, kept := Dedupe(count, states, spans, chunks, seen), Kept(states, spans, seen);
      && |r| == |chunks| + |kept| && r[..|chunks|] == chunks
      && forall k :: |chunks| <= k < |r| ==>
        r[k] == MakeChunk(count, kept[k - |chunks|], PathFor(states, kept[k - |chunks|].start), k)
    decreases |spans|
  {
    hide PathFor, MakeChunk;
    if spans != [] {
      var key := Key(states, spans[0]);
      if key in seen {
        DedupeMakesKept(count, states, spans[1..], chunks, seen);
      } else {
        var chunk := MakeChunk(count, spans[0], PathFor(states, spans[0].start), |chunks|);
        DedupeMakesKept(count, states, spans[1..], chunks + [chunk], seen + {key});
        var r := Dedupe(count, states, spans, chunks, seen);
        assert r[..|chunks|] == r[..|chunks| + 1][..|chunks|];
        assert r[|chunks|] == r[..|chunks| + 1][|chunks|];
      }
    }
  }

  lemma {:induction false} KeptWithin(states: seq<PathState>, spans: seq<Span>, seen: set<(string, seq<string>)>, lo: nat, hi: nat)
    requires Within(spans, lo, hi)
    ensures Within(Kept(states, spans, seen), lo, hi)
    ensures forall k :: k in Kept(states, spans, seen) ==> k in spans && Key(states, k) !in seen
    decreases |spans|
  {
    hide Key;
    if spans != [] {
      var key := Key(states, spans[0]);
      if key in seen {
        KeptWithin(states, spans[1..], seen, spans[0].end, hi);
        WithinWider(Kept(states, spans[1..], seen), spans[0].end, hi, lo, hi);
      } else {
        KeptWithin(states, spans[1..], seen + {key}, spans[0].end, hi);
        assert ([spans[0]] + Kept(states, spans[1..], seen + {key}))[1..] == Kept(states, spans[1..], seen + {key});
      }
    }
  }

  lemma {:induction false} KeptDistinct(states: seq<PathState>, spans: seq<Span>, seen: set<(string, seq<string>)>, lo: nat, hi: nat, i: nat, j: nat)
    requires Within(spans, lo, hi) && i < j < |Kept(states, spans, seen)|
    ensures Key(states, Kept(states, spans, seen)[i]) != Key(states, Kept(states, spans, seen)[j])
    decreases |spans|
  {
    hide Key;
    var key, kept := Key(states, spans[0]), Kept(states, spans, seen);
    if key in seen {
      KeptDistinct(states, spans[1..], seen, spans[0].end, hi, i, j);
    } else {
      var tail := Kept(states, spans[1..], seen + {key});
      assert kept[j] == tail[j - 1] && kept[j] in tail;
      KeptWithin(states, spans[1..], seen + {key}, spans[0].end, hi);
      if i > 0 { KeptDistinct(states, spans[1..], seen + {key}, spans[0].end, hi, i - 1, j - 1); }
    }
  }

  /** A span is represented by a kept one with its key that does not start later. */
  ghost predicate Represented(states: seq<PathState>, kept: seq<Span>, f: Span) {
    exists i :: 0 <= i < |kept| && Key(states, kept[i]) == Key(states, f) && kept[i].start <= f.start
  }

  lemma {:induction false} KeptRepresents(states: seq<PathState>, spans: seq<Span>, seen: set<(string, seq<string>)>, lo: nat, hi: nat, f: Span)
    requires Within(spans, lo, hi) && f in spans && Key(states, f) !in seen
    ensures Represented(states, Kept(states, spans, seen), f)
    decreases |spans|
  {
    hide Key;
    var key, kept := Key(states, spans[0]), Kept(states, spans, seen);
    if key in seen {
      KeptRepresents(states, spans[1..], seen, spans[0].end, hi, f);
    } else if key == Key(states, f) {
      WithinMember(spans, lo, hi, f);
      if f != spans[0] { WithinMember(spans[1..], spans[0].end, hi, f); }
      assert kept[0] == spans[0];
    } else {
      var tail := Kept(states, spans[1..], seen + {key});
      KeptRepresents(states, spans[1..], seen + {key}, spans[0].end, hi, f);
      var i :| 0 <= i < |tail| && Key(states, tail[i]) == Key(states, f) && tail[i].start <= f.start;
      assert kept[i + 1] == tail[i];
    }
  }

  // ----- The theorems about chunks -----

  lemma StripOfSpace(s: string)
    ensures Strip(s) == "" <==> AllSpace(s)
  {
    if !AllSpace(s) { EndsMeet(s); }
  }

  /** The spans behind the chunks of a document. */
  function ChunkSpans(count: Counter, markdown: string, cfg: Config): seq<Span> {
    if Strip(markdown) == "" then [] else Kept(SectionStates(markdown), FinalSpans(count, markdown, cfg), {})
  }

  lemma {:induction false} ChunksAreMadeFromSpans(count: Counter, markdown: string, cfg: Config)
    ensures var cs, kept := Chunks(count, markdown, cfg), ChunkSpans(count, markdown, cfg);
      && |cs| == |kept|
      && (forall i :: 0 <= i < |cs| ==>
          cs[i] == MakeChunk(count, kept[i], PathFor(SectionStates(markdown), kept[i].start), i))
      && Within(kept, 0, |markdown|)
      && (forall k :: k in kept ==> k in FinalSpans(count, markdown, cfg))
  {
    hide SectionStates, FinalSpans, PathFor, MakeChunk, Dedupe, Kept;
    var states, fs := SectionStates(markdown), FinalSpans(count, markdown, cfg);
    FinalSpansOrderedAndPure(count, markdown, cfg);
    KeptWithin(states, fs, {}, 0, |markdown|);
    DedupeMakesKept(count, states, fs, [], {});
  }

  /** Chunk `i` is numbered `i` and carries the text, figures, offsets and path of its span. */
  lemma {:induction false} ChunkTellsItsSpan(count: Counter, markdown: string, cfg: Config, i: nat)
    requires i < |Chunks(count, markdown, cfg)|
    ensures |ChunkSpans(count, markdown, cfg)| == |Chunks(count, markdown, cfg)|
    ensures var c, span := Chunks(count, markdown, cfg)[i], ChunkSpans(count, markdown, cfg)[i];
      && c.text == span.text && c.tokenCount == count(span.text) && c.charCount == |span.text| && c.chunkIndex == i
      && c.startOffset == span.start && c.endOffset == span.end && c.sectionPath == PathFor(SectionStates(markdown), span.start)
  {
    hide SectionStates, FinalSpans, PathFor, Chunks, ChunkSpans;
    ChunksAreMadeFromSpans(count, markdown, cfg);
  }

  ghost predicate SameContent(states: seq<PathState>, c: Chunk, f: Span) {
    c.text == f.text && c.sectionPath == PathFor(states, f.start) && c.startOffset <= f.start
  }

  lemma FinalSpanIsRepresented(count: Counter, markdown: string, cfg: Config, f: Span)
    requires Strip(markdown) != "" && f in FinalSpans(count, markdown, cfg)
    ensures exists c :: c in Chunks(count, markdown, cfg) && SameContent(SectionStates(markdown), c, f)
  {
    hide SectionStates, FinalSpans, PathFor, Kept, Chunks;
    var states, fs := SectionStates(markdown), FinalSpans(count, markdown, cfg);
    FinalSpansOrderedAndPure(count, markdown, cfg);
    KeptRepresents(states, fs, {}, 0, |markdown|, f);
    ChunksAreMadeFromSpans(count, markdown, cfg);
    var kept := ChunkSpans(count, markdown, cfg);
    var i :| 0 <= i < |kept| && Key(states, kept[i]) == Key(states, f) && kept[i].start <= f.start;
    assert Chunks(count, markdown, cfg)[i] in Chunks(count, markdown, cfg);
  }

  ghost predicate IsRepresented(states: seq<PathState>, chunks: seq<Chunk>, f: Span) {
    exists c :: c in chunks && SameContent(states, c, f)
  }

  /** Nothing distinct is dropped: every final span equals a chunk, no later than itself, in text and section path. */
  lemma {:induction false} DroppedSpansAreDuplicates(count: Counter, markdown: string, cfg: Config)
    ensures Strip(markdown) != "" ==>
              forall f :: f in FinalSpans(count, markdown, cfg) ==> IsRepresented(SectionStates(markdown), Chunks(count, markdown, cfg), f)
  {
    hide SectionStates, FinalSpans, Chunks, SameContent;
    if Strip(markdown) != "" {
      forall f | f in FinalSpans(count, markdown, cfg)
        ensures IsRepresented(SectionStates(markdown), Chunks(count, markdown, cfg), f)
      {
        FinalSpanIsRepresented(count, markdown, cfg, f);
      }
    }
  }

  /** The hard cap, with no assumption at all on the tokenizer. */
  lemma {:induction false} ChunksCapped(count: Counter, markdown: string, cfg: Config)
    requires cfg.Valid()
    ensures forall c :: c in Chunks(count, markdown, cfg) ==>
      && c.tokenCount == count(c.text) && c.charCount == |c.text|
      && (c.tokenCount <= cfg.maxChunkTokens || c.charCount == 1)
  {
    hide SectionStates, PathFor, FinalEach, PackedSeeds, Seeds, Chunks, ChunkSpans, Within;
    ChunksAreMadeFromSpans(count, markdown, cfg);
    FinalEachCapped(count, PackedSeeds(count, Seeds(markdown, SectionStates(markdown)), cfg), markdown, cfg);
    var kept := ChunkSpans(count, markdown, cfg);
    forall i | 0 <= i < |kept| ensures Capped(count, kept[i].text, cfg.maxChunkTokens) {
      assert kept[i] in kept;
    }
  }

  /** The chunk lies inside the document, and its section path is the right one for each of its offsets. */
  ghost predicate InOneSection(markdown: string, c: Chunk) {
    && c.startOffset < c.endOffset <= |markdown|
    && forall x: nat :: c.startOffset <= x < c.endOffset ==> PathFor(SectionStates(markdown), x) == c.sectionPath
  }

  /** For every tokenizer and every source: chunks are numbered and each lies in one section. */
  lemma {:induction false} ChunksPure(count: Counter, markdown: string, cfg: Config)
    ensures var cs := Chunks(count, markdown, cfg);
      forall i :: 0 <= i < |cs| ==> cs[i].chunkIndex == i && InOneSection(markdown, cs[i])
  {
    hide SectionStates, PathFor, FinalSpans, Chunks, ChunkSpans, Within;
    ChunksAreMadeFromSpans(count, markdown, cfg);
    FinalSpansOrderedAndPure(count, markdown, cfg);
    var cs, kept := Chunks(count, markdown, cfg), ChunkSpans(count, markdown, cfg);
    forall i | 0 <= i < |cs| ensures InOneSection(markdown, cs[i]) {
      assert kept[i] in kept;
      WithinMember(kept, 0, |markdown|, kept[i]);
    }
  }

  lemma TwoChunksOrdered(count: Counter, markdown: string, cfg: Config, i: nat, j: nat)
    requires i < j < |Chunks(count, markdown, cfg)|
    ensures var cs := Chunks(count, markdown, cfg);
      && cs[i].endOffset <= cs[j].startOffset
      && (cs[i].text, cs[i].sectionPath) != (cs[j].text, cs[j].sectionPath)
  {
    hide SectionStates, PathFor, FinalSpans, Chunks, Within, Kept;
    ChunksAreMadeFromSpans(count, markdown, cfg);
    var kept := ChunkSpans(count, markdown, cfg);
    WithinOrdered(kept, 0, |markdown|, i, j);
    FinalSpansOrderedAndPure(count, markdown, cfg);
    KeptDistinct(SectionStates(markdown), FinalSpans(count, markdown, cfg), {}, 0, |markdown|, i, j);
    assert Key(SectionStates(markdown), kept[i]) != Key(SectionStates(markdown), kept[j]);
  }

  /** In document order, disjoint, and pairwise different in text or section path. */
  predicate InOrder(cs: seq<Chunk>) {
    forall i, j :: 0 <= i < j < |cs| ==>
      cs[i].endOffset <= cs[j].startOffset && (cs[i].text, cs[i].sectionPath) != (cs[j].text, cs[j].sectionPath)
  }

  /** For every tokenizer and every source. */
  lemma {:induction false} ChunksOrdered(count: Counter, markdown: string, cfg: Config)
    ensures InOrder(Chunks(count, markdown, cfg))
  {
    hide Chunks;
    var cs := Chunks(count, markdown, cfg);
    forall i, j | 0 <= i < j < |cs|
      ensures cs[i].endOffset <= cs[j].startOffset && (cs[i].text, cs[i].sectionPath) != (cs[j].text, cs[j].sectionPath)
    {
      TwoChunksOrdered(count, markdown, cfg, i, j);
    }
  }
}
