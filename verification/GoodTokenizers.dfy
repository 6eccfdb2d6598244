/**
  For a well-behaved tokenizer the second enforcement of the cap is idle, and then chunking is
  lossless for every source. For other tokenizers CR LF pairs can cost text.
 */
module GoodTokenizers {
  import opened Options
  import opened Text
  import opened Lines
  import opened Spans
  import opened Windows
  import opened Splitting
  import opened Packing
  import opened Sections
  import opened Chunker
  import opened ChunkProperties
  import opened ChunkOrder
  import opened Lossless

  ghost predicate Subadditive(count: Counter) {
    forall a: string, b: string :: count(a + b) <= count(a) + count(b)
  }

  /** Trimming and newline normalisation never add tokens. */
  ghost predicate ShrinksWhenTrimmed(count: Counter) {
    forall s: string :: count(NormalizeNewlines(Strip(s))) <= count(s)
  }

  ghost predicate SinglesWithin(count: Counter, cap: nat) {
    forall c: char :: count([c]) <= cap
  }

  ghost predicate WellBehaved(count: Counter, cfg: Config) {
    Subadditive(count) && ShrinksWhenTrimmed(count) && SinglesWithin(count, cfg.maxChunkTokens)
  }

  /** The splitter hands the packer nothing above the maximum, so packing never forces windows. */
  lemma SplitIsWithinMax(count: Counter, span: Span, cfg: Config)
    requires cfg.Valid() && SinglesWithin(count, cfg.maxChunkTokens) && span.end == span.start + |span.text|
    ensures WithinMax(count, SplitRecursive(count, span, cfg, 0), cfg)
  {
    hide SplitRecursive, Tiles;
    var ps := SplitRecursive(count, span, cfg, 0);
    SplitRecursiveCapped(count, span, cfg, 0);
    SplitRecursiveTiles(count, span, cfg, 0);
    TilesOrdered(ps, span.text, span.start, span.start, span.start + |span.text|);
    forall i | 0 <= i < |ps| ensures ps[i].text != "" && count(ps[i].text) <= cfg.maxChunkTokens {
      assert ps[i] in ps && Capped(count, ps[i].text, cfg.maxChunkTokens);
      if |ps[i].text| == 1 { assert ps[i].text == [ps[i].text[0]]; }
    }
  }

  /** Joined text has at most the tokens of its parts. */
  lemma {:induction false} JoinedTokens(count: Counter, g: seq<Span>)
    requires Subadditive(count) && g != []
    ensures count(Concat(Texts(g))) <= Tokens(count, g)
  {
    var k := |g| - 1;
    var init := g[..k];
    assert g == init + [g[k]];
    assert Texts(g) == Texts(init) + [g[k].text];
    ConcatAppend(Texts(init), [g[k].text]);
    assert Concat([g[k].text]) == g[k].text;
    if init == [] {
      assert Texts(init) == [] && Concat(Texts(init)) == "" && "" + g[k].text == g[k].text;
    } else {
      JoinedTokens(count, init);
      assert count(Concat(Texts(init)) + g[k].text) <= count(Concat(Texts(init))) + count(g[k].text);
    }
  }

  lemma {:induction false} FlushedWithinMax(count: Counter, groups: seq<seq<Span>>, cfg: Config)
    requires Subadditive(count)
    requires forall g :: g in groups ==> g != [] && Tokens(count, g) <= cfg.maxChunkTokens
    ensures forall p :: p in FlushAll(groups) ==> count(p.text) <= cfg.maxChunkTokens
    decreases |groups|
  {
    hide Tokens;
    if groups != [] {
      assert groups[0] in groups && forall g :: g in groups[1..] ==> g in groups;
      JoinedTokens(count, groups[0]);
      FlushedWithinMax(count, groups[1..], cfg);
    }
  }

  /** Every packed span is within the maximum even before trimming. */
  lemma PackedWithinMax(count: Counter, span: Span, cfg: Config)
    requires cfg.Valid() && WellBehaved(count, cfg) && span.end == span.start + |span.text|
    ensures forall p :: p in Pack(count, SplitRecursive(count, span, cfg, 0), cfg, [], 0) ==> count(p.text) <= cfg.maxChunkTokens
  {
    hide SplitRecursive, Pack, Tokens, Greedy, Groups, FlushAll, WithinMax, ShrinksWhenTrimmed, Subadditive;
    var ps := SplitRecursive(count, span, cfg, 0);
    SplitIsWithinMax(count, span, cfg);
    PackingBounds(count, ps, cfg);
    FlushedWithinMax(count, Groups(count, ps, cfg, []), cfg);
  }

  lemma {:induction false} TileText(ps: seq<Span>, src: string, lo: nat, hi: nat, p: Span)
    requires Tiles(ps, src, 0, lo, hi) && p in ps
    ensures p.start < p.end <= |src| && p.text == src[p.start..p.end]
    decreases |ps|
  {
    if p != ps[0] { TileText(ps[1..], src, ps[0].end, hi, p); }
  }

  /** `_enforce_max_tokens` returns its argument, wherever `chunk_markdown` calls it. */
  lemma {:induction false} ReenforcementIsIdle(count: Counter, markdown: string, cfg: Config, seeds: seq<Span>, lo: nat, hi: nat, p: Span)
    requires cfg.Valid() && WellBehaved(count, cfg)
    requires Tiles(seeds, markdown, 0, lo, hi) && hi <= |markdown| && p in PackedSeeds(count, seeds, cfg)
    ensures match NormalizeSpan(count, markdown, p)
      case None => true
      case Some(n) => count(n.text) <= cfg.maxChunkTokens && EnforceMaxTokens(count, n, markdown, cfg) == [n]
    decreases |seeds|
  {
    hide SplitRecursive, Pack, NormalizeSpan, WellBehaved, NormalizeNewlines, IsSpace, AllSpace, Strip, Tiles;
    var ps := Pack(count, SplitRecursive(count, seeds[0], cfg, 0), cfg, [], 0);
    TilesHead(seeds, markdown, 0, lo, hi);
    if p in ps {
      PackedWithinMax(count, seeds[0], cfg);
      RepackedTiles(count, seeds[0], cfg);
      TilesRebase(ps, seeds[0].text, lo, lo, seeds[0].end, markdown, 0);
      TileText(ps, markdown, lo, seeds[0].end, p);
      NormalizeSpanSpec(count, markdown, p);
      TrimmedTokens(count, p.text, cfg);
    } else {
      ReenforcementIsIdle(count, markdown, cfg, seeds[1..], seeds[0].end, hi, p);
    }
  }

  lemma TrimmedTokens(count: Counter, s: string, cfg: Config)
    requires WellBehaved(count, cfg)
    ensures count(NormalizeNewlines(Strip(s))) <= count(s)
  {
  }

  /** The span is within the cap once trimmed, and the second check returns it as it is. */
  predicate PassesCheck(count: Counter, markdown: string, cfg: Config, p: Span) {
    match NormalizeSpan(count, markdown, p)
    case None => true
    case Some(n) => count(n.text) <= cfg.maxChunkTokens && EnforceMaxTokens(count, n, markdown, cfg) == [n]
  }

  /** The re-split branch is dead code for well-behaved tokenizers. */
  lemma {:induction false} NoResplit(count: Counter, markdown: string, cfg: Config)
    requires cfg.Valid() && WellBehaved(count, cfg)
    ensures forall p :: p in Packed(count, markdown, cfg) ==> PassesCheck(count, markdown, cfg, p)
  {
    hide Seeds, PackedSeeds, SectionStates, WellBehaved, Tiles, NormalizeSpan, EnforceMaxTokens;
    SeedsAreSections(markdown);
    forall p | p in Packed(count, markdown, cfg) ensures PassesCheck(count, markdown, cfg, p) {
      ReenforcementIsIdle(count, markdown, cfg, Seeds(markdown, SectionStates(markdown)), 0, |markdown|, p);
    }
  }

  /** So for a well-behaved tokenizer chunking is lossless whatever line endings the source has. */
  lemma {:induction false} LosslessForEverySource(count: Counter, markdown: string, cfg: Config)
    requires cfg.Valid() && WellBehaved(count, cfg) && Positive(count)
    ensures Covers(FinalSpans(count, markdown, cfg), markdown, 0, |markdown|)
  {
    hide PackedSeeds, Seeds, SectionStates, Tiles, FinalEach, NormalizeSpan, Covers, WellBehaved, EnforceMaxTokens;
    var ps := Packed(count, markdown, cfg);
    PackedTiles(count, markdown, cfg);
    NoResplit(count, markdown, cfg);
    forall p | p in ps
      ensures NormalizeSpan(count, markdown, p).Some? ==> EnforceSafe(count, markdown, cfg, NormalizeSpan(count, markdown, p).value)
    {
      assert PassesCheck(count, markdown, cfg, p);
    }
    FinalEachCovers(count, ps, markdown, cfg, 0, |markdown|);
  }

  // ----- Without that, CR LF pairs can cost text -----

  /** A positive counter that likes every text but one: joining its two windows costs a third token. */
  function Quirky(s: string): nat {
    if s == "" then 0 else if s == "a\nb" then 3 else 1
  }

  const QUIRKY_CONFIG := Config(2, 2, [""])

  lemma QuirkyWindows()
    ensures TokenWindows(Quirky, "a\nb", 0, 0, 2) == [Span("a\n", 0, 2), Span("b", 2, 3)]
  {
    var text := "a\nb";
    assert text[0..2] == "a\n" && text[0..3] == text && text[2..3] == "b" && text[0..1] == "a";
    assert Mid(1, 3) == 2;
    assert WindowEnd(Quirky, text, 0, 2) == 2;
    assert WindowEnd(Quirky, text, 2, 2) == 3;
    assert TokenWindows(Quirky, text, 0, 3, 2) == [];
    assert TokenWindows(Quirky, text, 0, 2, 2) == [Span("b", 2, 3)];
  }

  lemma QuirkyRepacked()
    ensures Pack(Quirky, SplitRecursive(Quirky, Span("a\nb", 0, 4), QUIRKY_CONFIG, 0), QUIRKY_CONFIG, [], 0)
      == [Span("a\nb", 0, 3)]
  {
    hide TokenWindows;
    QuirkyWindows();
    var w1, w2 := Span("a\n", 0, 2), Span("b", 2, 3);
    assert SplitRecursive(Quirky, Span("a\nb", 0, 4), QUIRKY_CONFIG, 0) == [w1, w2];
    assert [w1, w2][1..] == [w2] && [w2][1..] == [];
    assert Texts([w1, w2]) == ["a\n", "b"] && ["a\n", "b"][1..] == ["b"];
    assert Concat(["a\n", "b"]) == "a\nb";
    assert [w1] + [w2] == [w1, w2];
    assert Flush([w1] + [w2]) == [Span("a\nb", 0, 3)];
    assert Pack(Quirky, [], QUIRKY_CONFIG, [w1] + [w2], 2) == [Span("a\nb", 0, 3)];
    assert Pack(Quirky, [w2], QUIRKY_CONFIG, [w1], 1) == [Span("a\nb", 0, 3)];
  }

  lemma QuirkyTrimsWhole()
    ensures NormalizeSpan(Quirky, "a\r\nb", Span("a\r\nb", 0, 4)) == Some(Span("a\nb", 0, 4))
  {
    var source := "a\r\nb";
    TrimNothing(source);
    assert source[0..4] == source;
    assert source[1..] == "\r\nb" && source[1..][2..] == "b" && "b"[1..] == "";
    assert ReplaceCrLf("b") == "b";
    assert ReplaceCrLf("\r\nb") == "\nb";
    assert ReplaceCrLf(source) == "a\nb";
    NoCrUnchanged("a\nb");
    NoCrLfUnchanged("a\nb");
    assert NormalizeTextWithOffsets(source, 0, 4) == ("a\nb", 0, 4);
    assert !IsSpace("a\nb"[0]);
  }

  lemma QuirkyTrimsCut()
    ensures NormalizeSpan(Quirky, "a\r\nb", Span("a\nb", 0, 3)) == Some(Span("a", 0, 1))
  {
    var source := "a\r\nb";
    assert source[0..3] == "a\r\n" && source[0..1] == "a";
    TrimTail();
    NoCrUnchanged("a");
    assert NormalizeTextWithOffsets(source, 0, 3) == ("a", 0, 1);
    assert !IsSpace("a"[0]);
  }

  lemma TrimNothing(s: string)
    requires s != "" && !IsSpace(s[0]) && !IsSpace(s[|s| - 1])
    ensures Leading(s) == 0 && Trailing(s) == 0 && !AllSpace(s)
  {
  }

  lemma TrimTail()
    ensures Leading("a\r\n") == 0 && Trailing("a\r\n") == 2
  {
    assert "a\r\n"[..2] == "a\r" && "a\r"[..1] == "a";
    assert Trailing("a") == 0;
    assert Trailing("a\r") == 1;
  }

  const QUIRKY_SOURCE := "a\r\nb"

  /** The one span of the source is over the maximum once trimmed, and the re-split reuses offsets of the shorter text. */
  lemma {:induction false} QuirkyFinal()
    ensures FinalOne(Quirky, Span(QUIRKY_SOURCE, 0, 4), QUIRKY_SOURCE, QUIRKY_CONFIG) == [Span("a", 0, 1)]
  {
    hide Pack, SplitRecursive, NormalizeSpan;
    QuirkyTrimsWhole();
    QuirkyRepacked();
    QuirkyTrimsCut();
    var cut := Span("a\nb", 0, 3);
    assert [cut][1..] == [];
    assert EnforceEach(Quirky, [cut], QUIRKY_SOURCE, QUIRKY_CONFIG) == [Span("a", 0, 1)];
  }

  lemma {:induction false} QuirkyLines()
    ensures SplitLines(QUIRKY_SOURCE) == ["a\r\n", "b"]
  {
    FirstLineEnds("a", "b");
    FirstLineEnds("b", "");
    assert "a" + "\r\n" + "b" == QUIRKY_SOURCE;
    assert QUIRKY_SOURCE[..3] == "a\r\n" && QUIRKY_SOURCE[3..] == "b" && "b"[1..] == "";
    assert "b"[..1] == "b" && SplitLines("b") == ["b"] + SplitLines("b"[1..]);
  }

  lemma {:induction false} LetterLine(line: string)
    requires line != "" && line[0] in "ab"
    ensures LineHeading(Outside, line) == None && AfterLine(Outside, line) == Outside
  {
    hide WithoutNewline, DropTrailing, TitleText, Strip;
    var text := WithoutNewline(line);
    assert text == "" || text[0] == line[0];
    assert text[0..] == text;
  }

  lemma {:induction false} QuirkyHasNoHeadings()
    ensures SectionStates(QUIRKY_SOURCE) == []
  {
    hide LineHeading, AfterLine, SplitLines;
    QuirkyLines();
    LetterLine("a\r\n");
    LetterLine("b");
    assert ["a\r\n", "b"][1..] == ["b"] && ["b"][1..] == [];
    assert Headings(["b"], 3, Outside) == [];
  }

  lemma {:induction false} QuirkySeed()
    ensures Seeds(QUIRKY_SOURCE, []) == [Span(QUIRKY_SOURCE, 0, 4)]
  {
    assert [0][1..] == [] && [4][1..] == [] && [0, 4][1..] == [4];
    assert [0] + [] + [4] == [0, 4];
    assert SortedSet([4]) == [4];
    assert SortedSet([0, 4]) == [0, 4];
    assert QUIRKY_SOURCE[0..4] == QUIRKY_SOURCE;
    assert SeedsFrom(QUIRKY_SOURCE, [4]) == [];
  }

  lemma {:induction false} QuirkyPacked()
    ensures Packed(Quirky, QUIRKY_SOURCE, QUIRKY_CONFIG) == [Span(QUIRKY_SOURCE, 0, 4)]
  {
    hide Seeds, SectionStates;
    QuirkyHasNoHeadings();
    QuirkySeed();
    var seed := Span(QUIRKY_SOURCE, 0, 4);
    assert SplitRecursive(Quirky, seed, QUIRKY_CONFIG, 0) == [seed];
    assert [seed][1..] == [];
    assert Texts([seed]) == [QUIRKY_SOURCE] && Concat([QUIRKY_SOURCE]) == QUIRKY_SOURCE;
    assert Pack(Quirky, [], QUIRKY_CONFIG, [seed], 1) == [seed];
    assert Pack(Quirky, [seed], QUIRKY_CONFIG, [], 0) == [seed];
    assert PackedSeeds(Quirky, [seed], QUIRKY_CONFIG) == [seed];
  }

  lemma {:induction false} OneFinal(span: Span, source: string)
    ensures FinalEach(Quirky, [span], source, QUIRKY_CONFIG) == FinalOne(Quirky, span, source, QUIRKY_CONFIG)
  {
    hide FinalOne;
    assert [span][1..] == [];
  }

  lemma {:induction false} OneChunk(span: Span)
    ensures Dedupe(Quirky, [], [span], [], {}) == [MakeChunk(Quirky, span, [], 0)]
  {
    assert [span][1..] == [] && PathFor([], span.start) == [];
  }

  /** The letter at offset 3 of this document is in no final span, and the document's only chunk is its first letter. */
  lemma {:induction false} CrLfCanLoseText()
    ensures Positive(Quirky) && QUIRKY_CONFIG.Valid()
    ensures FinalSpans(Quirky, QUIRKY_SOURCE, QUIRKY_CONFIG) == [Span("a", 0, 1)]
    ensures !Covers(FinalSpans(Quirky, QUIRKY_SOURCE, QUIRKY_CONFIG), QUIRKY_SOURCE, 0, 4)
    ensures Chunks(Quirky, QUIRKY_SOURCE, QUIRKY_CONFIG) == [Chunk("a", 1, 1, 0, 0, 1, [])]
  {
    hide FinalOne, FinalEach, PackedSeeds, Seeds, SectionStates, Dedupe;
    QuirkyFinal();
    QuirkyPacked();
    QuirkyHasNoHeadings();
    OneFinal(Span(QUIRKY_SOURCE, 0, 4), QUIRKY_SOURCE);
    OneChunk(Span("a", 0, 1));
    StripsTo(QUIRKY_SOURCE, 0, 4);
    assert QUIRKY_SOURCE[1..4][2] == 'b';
    assert [Span("a", 0, 1)][1..] == [];
  }
}
