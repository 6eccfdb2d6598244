/** The chunker as a whole: seeds at headings, split, pack, trim, enforce the cap, drop duplicates. */
module Chunker {
  import opened Options
  import opened Text
  import opened Spans
  import opened Windows
  import opened Splitting
  import opened Packing
  import opened Sections

  // ----- Seeds at section boundaries -----

  function Insert(x: nat, xs: seq<nat>): seq<nat> {
    if xs == [] || x < xs[0] then [x] + xs
    else if x == xs[0] then xs
    else [xs[0]] + Insert(x, xs[1..])
  }

  /** `sorted(set(xs))`. */
  function SortedSet(xs: seq<nat>): seq<nat> {
    if xs == [] then [] else Insert(xs[0], SortedSet(xs[1..]))
  }

  function InnerOffsets(states: seq<PathState>, n: nat): seq<nat> {
    if states == [] then []
    else (if 0 < states[0].offset < n then [states[0].offset] else []) + InnerOffsets(states[1..], n)
  }

  function Boundaries(markdown: string, states: seq<PathState>): seq<nat> {
    SortedSet([0] + InnerOffsets(states, |markdown|) + [|markdown|])
  }

  function SeedsFrom(markdown: string, bounds: seq<nat>): seq<Span> {
    if |bounds| < 2 then []
    else
      (if bounds[0] < bounds[1] then [Span(PySlice(markdown, bounds[0], bounds[1]), bounds[0], bounds[1])] else [])
      + SeedsFrom(markdown, bounds[1..])
  }

  function Seeds(markdown: string, states: seq<PathState>): seq<Span> {
    if markdown == "" then [] else SeedsFrom(markdown, Boundaries(markdown, states))
  }

  method SplitOnSectionBoundaries(markdown: string, states: seq<PathState>) returns (out: seq<Span>)
    ensures out == Seeds(markdown, states)
  {
    hide Boundaries;
    if markdown == "" { return []; }
    var ordered := Boundaries(markdown, states);
    out := [];
    assert ordered[0..] == ordered;
    var idx := 0;
    while idx + 1 < |ordered|
      invariant idx <= |ordered|
      invariant out + SeedsFrom(markdown, ordered[idx..]) == Seeds(markdown, states)
    {
      var start, end := ordered[idx], ordered[idx + 1];
      assert ordered[idx..][1..] == ordered[idx + 1..];
      idx := idx + 1;
      if start >= end { continue; }
      AppendOne(out, Span(PySlice(markdown, start, end), start, end), SeedsFrom(markdown, ordered[idx..]));
      out := out + [Span(PySlice(markdown, start, end), start, end)];
    }
  }

  // ----- Trimming -----

  function NormalizeTextWithOffsets(source: string, start: nat, end: nat): (string, nat, nat) {
    var raw := PySlice(source, start, end);
    if raw == "" then ("", start, end)
    else
      var leading, trailing := Leading(raw), Trailing(raw);
      var adjStart, adjEnd := start + leading, end - trailing;
      if adjStart > adjEnd
      then (NormalizeNewlines(PySlice(source, start, end)), start, end)
      else (NormalizeNewlines(PySlice(source, adjStart, adjEnd)), adjStart, adjEnd)
  }

  function NormalizeSpan(count: Counter, source: string, span: Span): Option<Span> {
    var (text, start, end) := NormalizeTextWithOffsets(source, span.start, span.end);
    if text == "" || AllSpace(text) || count(text) == 0 then None
    else Some(Span(text, start, end))
  }

  // ----- The cap -----

  function EnforceMaxTokens(count: Counter, span: Span, source: string, cfg: Config): seq<Span> {
    if count(span.text) <= cfg.maxChunkTokens then [span]
    else EnforceEach(count, Pack(count, SplitRecursive(count, span, cfg, 0), cfg, [], 0), source, cfg)
  }

  function EnforceOne(count: Counter, candidate: Span, source: string, cfg: Config): seq<Span> {
    match NormalizeSpan(count, source, candidate)
    case None => []
    case Some(n) =>
      if count(n.text) > cfg.maxChunkTokens then TokenWindows(count, n.text, n.start, 0, cfg.chunkSizeTokens)
      else [n]
  }

  function EnforceEach(count: Counter, candidates: seq<Span>, source: string, cfg: Config): seq<Span> {
    if candidates == [] then []
    else EnforceOne(count, candidates[0], source, cfg) + EnforceEach(count, candidates[1..], source, cfg)
  }

  method Enforce(count: Counter, span: Span, source: string, cfg: Config) returns (out: seq<Span>)
    ensures out == EnforceMaxTokens(count, span, source, cfg)
  {
    hide Pack, SplitRecursive, TokenWindows, NormalizeSpan, EnforceEach;
    if count(span.text) <= cfg.maxChunkTokens { return [span]; }
    var enforced := SplitSpan(count, span, cfg, 0);
    var repacked := PackSpans(count, enforced, cfg);
    out := [];
    assert repacked[0..] == repacked;
    for n := 0 to |repacked|
      invariant out + EnforceEach(count, repacked[n..], source, cfg) == EnforceEach(count, repacked, source, cfg)
    {
      EnforceEachUnfold(count, repacked, source, cfg, n);
      match NormalizeSpan(count, source, repacked[n])
      case None =>
      case Some(normalized) =>
        if count(normalized.text) > cfg.maxChunkTokens {
          var forced := SplitForceTokenWindows(count, normalized, cfg.chunkSizeTokens);
          out := out + forced;
        } else {
          out := out + [normalized];
        }
    }
    EnforceEachNone(count, repacked[|repacked|..], source, cfg);
  }

  lemma EnforceEachUnfold(count: Counter, cs: seq<Span>, source: string, cfg: Config, n: nat)
    requires n < |cs|
    ensures EnforceEach(count, cs[n..], source, cfg)
      == EnforceOne(count, cs[n], source, cfg) + EnforceEach(count, cs[n + 1..], source, cfg)
  {
    hide EnforceOne;
    assert cs[n..][1..] == cs[n + 1..];
  }

  lemma EnforceEachNone(count: Counter, none: seq<Span>, source: string, cfg: Config)
    requires none == []
    ensures EnforceEach(count, none, source, cfg) == []
  {
  }

  // ----- Everything before duplicates are dropped -----

  function PackedSeeds(count: Counter, seeds: seq<Span>, cfg: Config): seq<Span> {
    if seeds == [] then []
    else Pack(count, SplitRecursive(count, seeds[0], cfg, 0), cfg, [], 0) + PackedSeeds(count, seeds[1..], cfg)
  }

  function FinalOne(count: Counter, span: Span, source: string, cfg: Config): seq<Span> {
    match NormalizeSpan(count, source, span)
    case None => []
    case Some(n) => EnforceMaxTokens(count, n, source, cfg)
  }

  function FinalEach(count: Counter, spans: seq<Span>, source: string, cfg: Config): seq<Span> {
    if spans == [] then [] else FinalOne(count, spans[0], source, cfg) + FinalEach(count, spans[1..], source, cfg)
  }

  function FinalSpans(count: Counter, markdown: string, cfg: Config): seq<Span> {
    FinalEach(count, PackedSeeds(count, Seeds(markdown, SectionStates(markdown)), cfg), markdown, cfg)
  }

  // ----- Chunks -----

  datatype Chunk = Chunk(text: string, tokenCount: nat, charCount: nat, chunkIndex: nat,
                         startOffset: nat, endOffset: nat, sectionPath: seq<string>)

  function MakeChunk(count: Counter, span: Span, path: seq<string>, index: nat): Chunk {
    Chunk(span.text, count(span.text), |span.text|, index, span.start, span.end, path)
  }

  /** Append the spans whose text and section path have not been seen yet. */
  function Dedupe(count: Counter, states: seq<PathState>, spans: seq<Span>,
                  chunks: seq<Chunk>, seen: set<(string, seq<string>)>): seq<Chunk>
    decreases |spans|
  {
    if spans == [] then chunks
    else
      var span := spans[0];
      var path := PathFor(states, span.start);
      if (span.text, path) in seen then Dedupe(count, states, spans[1..], chunks, seen)
      else
        Dedupe(count, states, spans[1..], chunks + [MakeChunk(count, span, path, |chunks|)], seen + {(span.text, path)})
  }

  function Chunks(count: Counter, markdown: string, cfg: Config): seq<Chunk> {
    if Strip(markdown) == "" then []
    else Dedupe(count, SectionStates(markdown), FinalSpans(count, markdown, cfg), [], {})
  }

  method ChunkMarkdown(count: Counter, markdown: string, cfg: Config) returns (chunks: seq<Chunk>)
    ensures chunks == Chunks(count, markdown, cfg)
  {
    hide SectionStates, Pack, SplitRecursive, PackedSeeds, FinalEach, Seeds, NormalizeSpan, Dedupe, EnforceMaxTokens, PathFor;
    if Strip(markdown) == "" { return []; }
    var states := BuildSectionPathStates(markdown);
    var seeds := SplitOnSectionBoundaries(markdown, states);
    var packed: seq<Span> := [];
    assert seeds[0..] == seeds;
    for n := 0 to |seeds|
      invariant packed + PackedSeeds(count, seeds[n..], cfg) == PackedSeeds(count, seeds, cfg)
    {
      PackedSeedsUnfold(count, seeds, cfg, n);
      var raw := SplitSpan(count, seeds[n], cfg, 0);
      var more := PackSpans(count, raw, cfg);
      AppendAssoc(packed, more, PackedSeeds(count, seeds[n + 1..], cfg));
      packed := packed + more;
    }
    NothingLeft(count, seeds[|seeds|..], markdown, cfg, states, [], {});
    assert packed == PackedSeeds(count, seeds, cfg);
    assert packed[0..] == packed;

    chunks := [];
    var seen: set<(string, seq<string>)> := {};
    for n := 0 to |packed|
      invariant Dedupe(count, states, FinalEach(count, packed[n..], markdown, cfg), chunks, seen) == Chunks(count, markdown, cfg)
    {
      FinalEachUnfold(count, packed, markdown, cfg, n);
      ghost var later := FinalEach(count, packed[n + 1..], markdown, cfg);
      match NormalizeSpan(count, markdown, packed[n])
      case None => assert [] + later == later;
      case Some(normalized) =>
        var finals := Enforce(count, normalized, markdown, cfg);
        chunks, seen := AppendChunks(count, states, finals, chunks, seen, later);
    }
    NothingLeft(count, packed[|packed|..], markdown, cfg, states, chunks, seen);
  }

  /** The inner loop: append the final spans of one packed span; `later` stands for the spans still to come. */
  method AppendChunks(count: Counter, states: seq<PathState>, finals: seq<Span>, chunks0: seq<Chunk>,
                      seen0: set<(string, seq<string>)>, ghost later: seq<Span>)
    returns (chunks: seq<Chunk>, seen: set<(string, seq<string>)>)
    ensures Dedupe(count, states, later, chunks, seen) == Dedupe(count, states, finals + later, chunks0, seen0)
  {
    hide Dedupe, PathFor;
    chunks, seen := chunks0, seen0;
    assert finals[0..] == finals;
    for m := 0 to |finals|
      invariant Dedupe(count, states, finals[m..] + later, chunks, seen) == Dedupe(count, states, finals + later, chunks0, seen0)
    {
      var span := finals[m];
      DedupeUnfold(count, states, finals, m, later, chunks, seen);
      var path := PathFor(states, span.start);
      if (span.text, path) in seen { continue; }
      seen := seen + {(span.text, path)};
      chunks := chunks + [MakeChunk(count, span, path, |chunks|)];
    }
    assert finals[|finals|..] + later == later;
  }

  lemma {:induction false} DedupeUnfold(count: Counter, states: seq<PathState>, finals: seq<Span>, m: nat, later: seq<Span>,
                     chunks: seq<Chunk>, seen: set<(string, seq<string>)>)
    requires m < |finals|
    ensures
      var span := finals[m];
      var path := PathFor(states, span.start);
      Dedupe(count, states, finals[m..] + later, chunks, seen) ==
      if (span.text, path) in seen then Dedupe(count, states, finals[m + 1..] + later, chunks, seen)
      else Dedupe(count, states, finals[m + 1..] + later, chunks + [MakeChunk(count, span, path, |chunks|)], seen + {(span.text, path)})
  {
    hide PathFor, MakeChunk;
    assert (finals[m..] + later)[1..] == finals[m + 1..] + later;
  }

  lemma PackedSeedsUnfold(count: Counter, seeds: seq<Span>, cfg: Config, n: nat)
    requires n < |seeds|
    ensures PackedSeeds(count, seeds[n..], cfg)
      == Pack(count, SplitRecursive(count, seeds[n], cfg, 0), cfg, [], 0) + PackedSeeds(count, seeds[n + 1..], cfg)
  {
    hide Pack, SplitRecursive;
    assert seeds[n..][1..] == seeds[n + 1..];
  }

  lemma FinalEachUnfold(count: Counter, spans: seq<Span>, source: string, cfg: Config, n: nat)
    requires n < |spans|
    ensures FinalEach(count, spans[n..], source, cfg)
      == FinalOne(count, spans[n], source, cfg) + FinalEach(count, spans[n + 1..], source, cfg)
  {
    hide FinalOne;
    assert spans[n..][1..] == spans[n + 1..];
  }

  lemma NothingLeft(count: Counter, none: seq<Span>, source: string, cfg: Config,
                    states: seq<PathState>, chunks: seq<Chunk>, seen: set<(string, seq<string>)>)
    requires none == []
    ensures PackedSeeds(count, none, cfg) == [] && FinalEach(count, none, source, cfg) == []
    ensures Dedupe(count, states, [], chunks, seen) == chunks
  {
  }
}
