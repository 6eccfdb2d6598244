/** Greedy packing of consecutive pieces into chunk-sized spans. */
module Packing {
  import opened Text
  import opened Spans
  import opened Windows
  import opened Splitting

  const MIN_RECOMMENDED_CHUNK_TOKENS := 200

  /** Whether a run of pieces with `current` tokens takes one more piece and then has `next` tokens. */
  predicate ShouldAdd(current: nat, next: nat, cfg: Config) {
    next <= cfg.chunkSizeTokens || (current < MIN_RECOMMENDED_CHUNK_TOKENS && next <= cfg.maxChunkTokens)
  }

  /** A run of pieces becomes one span; an empty run becomes nothing. */
  function Flush(parts: seq<Span>): seq<Span> {
    if parts == [] then []
    else [Span(Concat(Texts(parts)), parts[0].start, parts[|parts| - 1].end)]
  }

  /** Pack the remaining spans, given the run collected so far and its token count. */
  function Pack(count: Counter, spans: seq<Span>, cfg: Config, parts: seq<Span>, tokens: nat): seq<Span>
    decreases |spans|
  {
    if spans == [] then Flush(parts)
    else
      var span, rest := spans[0], spans[1..];
      var tok := count(span.text);
      if span.text == "" then Pack(count, rest, cfg, parts, tokens)
      else if tok > cfg.maxChunkTokens then
        Flush(parts) + TokenWindows(count, span.text, span.start, 0, cfg.chunkSizeTokens) + Pack(count, rest, cfg, [], 0)
      else if parts == [] then Pack(count, rest, cfg, [span], tok)
      else if ShouldAdd(tokens, tokens + tok, cfg) then Pack(count, rest, cfg, parts + [span], tokens + tok)
      else Flush(parts) + Pack(count, rest, cfg, [span], tok)
  }

  lemma PackUnfold(count: Counter, spans: seq<Span>, cfg: Config, parts: seq<Span>, tokens: nat, n: nat)
    requires n < |spans|
    ensures
      var span, rest := spans[n], spans[n + 1..];
      var tok := count(span.text);
      Pack(count, spans[n..], cfg, parts, tokens) ==
      if span.text == "" then Pack(count, rest, cfg, parts, tokens)
      else if tok > cfg.maxChunkTokens then
        Flush(parts) + TokenWindows(count, span.text, span.start, 0, cfg.chunkSizeTokens) + Pack(count, rest, cfg, [], 0)
      else if parts == [] then Pack(count, rest, cfg, [span], tok)
      else if ShouldAdd(tokens, tokens + tok, cfg) then Pack(count, rest, cfg, parts + [span], tokens + tok)
      else Flush(parts) + Pack(count, rest, cfg, [span], tok)
  {
    assert spans[n..][1..] == spans[n + 1..];
  }

  method PackSpans(count: Counter, spans: seq<Span>, cfg: Config) returns (out: seq<Span>)
    ensures out == Pack(count, spans, cfg, [], 0)
  {
    hide Pack, TokenWindows, ShouldAdd, Flush;
    out := [];
    var parts: seq<Span> := [];
    var tokens: nat := 0;
    assert spans[0..] == spans;
    for n := 0 to |spans|
      invariant out + Pack(count, spans[n..], cfg, parts, tokens) == Pack(count, spans, cfg, [], 0)
    {
      var span := spans[n];
      PackUnfold(count, spans, cfg, parts, tokens, n);
      if span.text == "" { continue; }
      var tok := count(span.text);
      if tok > cfg.maxChunkTokens {
        var forced := SplitForceTokenWindows(count, span, cfg.chunkSizeTokens);
        AppendAssoc(out, Flush(parts) + forced, Pack(count, spans[n + 1..], cfg, [], 0));
        out := out + (Flush(parts) + forced);
        parts, tokens := [], 0;
        continue;
      }
      if parts == [] {
        parts, tokens := [span], tok;
        continue;
      }
      var nextTokens := tokens + tok;
      if ShouldAdd(tokens, nextTokens, cfg) {
        parts, tokens := parts + [span], nextTokens;
      } else {
        AppendAssoc(out, Flush(parts), Pack(count, spans[n + 1..], cfg, [span], tok));
        out := out + Flush(parts);
        parts, tokens := [span], tok;
      }
    }
    PackDone(count, spans[|spans|..], cfg, parts, tokens);
    out := out + Flush(parts);
  }

  lemma PackDone(count: Counter, none: seq<Span>, cfg: Config, parts: seq<Span>, tokens: nat)
    requires none == []
    ensures Pack(count, none, cfg, parts, tokens) == Flush(parts)
  {
  }

  /** Packing tiles gives tiles: the packed spans cover the same range, with the same characters. */
  lemma {:induction false} PackTiles(count: Counter, spans: seq<Span>, cfg: Config, parts: seq<Span>, tokens: nat,
                                     src: string, off: nat, lo: nat, mid: nat, hi: nat)
    requires Tiles(parts, src, off, lo, mid) && Tiles(spans, src, off, mid, hi)
    ensures Tiles(Pack(count, spans, cfg, parts, tokens), src, off, lo, hi)
    decreases |spans|
  {
    hide TokenWindows, ShouldAdd, Flush, Pack, Tiles;
    FlushTiles(parts, src, off, lo, mid);
    if spans == [] {
      TilesNone(src, off, mid);
      PackDone(count, spans, cfg, parts, tokens);
    } else {
      var span, rest := spans[0], spans[1..];
      assert spans[0..] == spans;
      PackUnfold(count, spans, cfg, parts, tokens, 0);
      TilesHead(spans, src, off, mid, hi);
      var tok := count(span.text);
      if tok > cfg.maxChunkTokens {
        var forced := TokenWindows(count, span.text, span.start, 0, cfg.chunkSizeTokens);
        WindowsTile(count, span.text, span.start, 0, cfg.chunkSizeTokens);
        TilesRebase(forced, span.text, span.start, span.start, span.end, src, off);
        TilesNone(src, off, span.end);
        PackTiles(count, rest, cfg, [], 0, src, off, span.end, span.end, hi);
        TilesAppend(Flush(parts), forced, src, off, lo, mid, span.end);
        TilesAppend(Flush(parts) + forced, Pack(count, rest, cfg, [], 0), src, off, lo, span.end, hi);
      } else if parts == [] {
        TilesNone(src, off, lo);
        PackTiles(count, rest, cfg, [span], tok, src, off, mid, span.end, hi);
      } else if ShouldAdd(tokens, tokens + tok, cfg) {
        TilesAppend(parts, [span], src, off, lo, mid, span.end);
        PackTiles(count, rest, cfg, parts + [span], tokens + tok, src, off, lo, span.end, hi);
      } else {
        PackTiles(count, rest, cfg, [span], tok, src, off, mid, span.end, hi);
        TilesAppend(Flush(parts), Pack(count, rest, cfg, [span], tok), src, off, lo, mid, hi);
      }
    }
  }

  lemma TilesHead(spans: seq<Span>, src: string, off: nat, lo: nat, hi: nat)
    requires Tiles(spans, src, off, lo, hi) && spans != []
    ensures var span := spans[0];
      && span.text != "" && off <= lo == span.start < span.end && span.end - off <= |src|
      && span.text == src[lo - off..span.end - off] && |span.text| == span.end - span.start
      && Tiles([span], src, off, lo, span.end)
      && Tiles(spans[1..], src, off, span.end, hi)
  {
    OneTile(spans[0], src, off, lo);
  }

  lemma TilesNone(src: string, off: nat, lo: nat)
    ensures Tiles([], src, off, lo, lo)
    ensures forall hi: nat :: Tiles([], src, off, lo, hi) ==> lo == hi
  {
  }

  lemma OneTile(span: Span, src: string, off: nat, lo: nat)
    requires off <= lo == span.start < span.end && span.end - off <= |src|
    requires span.text == src[lo - off..span.end - off]
    ensures Tiles([span], src, off, lo, span.end)
  {
    assert [span][1..] == [];
  }

  lemma FlushTiles(parts: seq<Span>, src: string, off: nat, lo: nat, hi: nat)
    requires Tiles(parts, src, off, lo, hi)
    ensures Tiles(Flush(parts), src, off, lo, hi)
  {
    if parts != [] {
      TilesConcat(parts, src, off, lo, hi);
      OneTile(Flush(parts)[0], src, off, lo);
    }
  }

  // ----- Pieces within the maximum: packing as grouping -----

  function Tokens(count: Counter, parts: seq<Span>): nat {
    if parts == [] then 0 else Tokens(count, parts[..|parts| - 1]) + count(parts[|parts| - 1].text)
  }

  ghost predicate WithinMax(count: Counter, spans: seq<Span>, cfg: Config) {
    forall i :: 0 <= i < |spans| ==> spans[i].text != "" && count(spans[i].text) <= cfg.maxChunkTokens
  }

  /** The groups of pieces that end up in one span each. */
  function Groups(count: Counter, spans: seq<Span>, cfg: Config, parts: seq<Span>): seq<seq<Span>>
    decreases |spans|
  {
    if spans == [] then (if parts == [] then [] else [parts])
    else
      var span, rest := spans[0], spans[1..];
      var tokens := Tokens(count, parts);
      if parts == [] then Groups(count, rest, cfg, [span])
      else if ShouldAdd(tokens, tokens + count(span.text), cfg) then Groups(count, rest, cfg, parts + [span])
      else [parts] + Groups(count, rest, cfg, [span])
  }

  function FlushAll(groups: seq<seq<Span>>): seq<Span> {
    if groups == [] then [] else Flush(groups[0]) + FlushAll(groups[1..])
  }

  function Flatten(groups: seq<seq<Span>>): seq<Span> {
    if groups == [] then [] else groups[0] + Flatten(groups[1..])
  }

  /** One step of packing, on a piece that is neither empty nor over the maximum. */
  lemma PackHead(count: Counter, spans: seq<Span>, cfg: Config, parts: seq<Span>)
    requires spans != [] && spans[0].text != "" && count(spans[0].text) <= cfg.maxChunkTokens
    ensures
      var span, rest := spans[0], spans[1..];
      var tokens := Tokens(count, parts);
      Pack(count, spans, cfg, parts, tokens) ==
      if parts == [] then Pack(count, rest, cfg, [span], Tokens(count, [span]))
      else if ShouldAdd(tokens, tokens + count(span.text), cfg)
      then Pack(count, rest, cfg, parts + [span], Tokens(count, parts + [span]))
      else Flush(parts) + Pack(count, rest, cfg, [span], Tokens(count, [span]))
  {
    hide ShouldAdd, TokenWindows, Tokens, Flush, Pack;
    assert spans[0..] == spans;
    PackUnfold(count, spans, cfg, parts, Tokens(count, parts), 0);
    TokensSnoc(count, parts, spans[0]);
    TokensSnoc(count, [], spans[0]);
    assert [] + [spans[0]] == [spans[0]];
  }

  lemma WithinMaxHead(count: Counter, spans: seq<Span>, cfg: Config)
    requires WithinMax(count, spans, cfg) && spans != []
    ensures spans[0].text != "" && count(spans[0].text) <= cfg.maxChunkTokens && WithinMax(count, spans[1..], cfg)
  {
  }

  lemma HeadMoves(parts: seq<Span>, spans: seq<Span>)
    requires spans != []
    ensures parts + [spans[0]] + spans[1..] == parts + spans
    ensures [spans[0]] + spans[1..] == spans
    ensures [] + spans == spans
  {
  }

  /** When no piece exceeds the maximum the forced branch is never taken: packing only groups. */
  lemma {:induction false} PackIsGrouping(count: Counter, spans: seq<Span>, cfg: Config, parts: seq<Span>)
    requires WithinMax(count, spans, cfg)
    ensures Pack(count, spans, cfg, parts, Tokens(count, parts)) == FlushAll(Groups(count, spans, cfg, parts))
    ensures Flatten(Groups(count, spans, cfg, parts)) == parts + spans
    decreases |spans|
  {
    hide ShouldAdd, TokenWindows, Tokens, Flush, Pack, Groups, FlushAll, Flatten, WithinMax;
    GroupsUnfold(count, spans, cfg, parts);
    if spans == [] {
      PackDone(count, spans, cfg, parts, Tokens(count, parts));
      assert parts + spans == parts;
    } else {
      var span, rest := spans[0], spans[1..];
      WithinMaxHead(count, spans, cfg);
      PackHead(count, spans, cfg, parts);
      HeadMoves(parts, spans);
      if parts != [] && ShouldAdd(Tokens(count, parts), Tokens(count, parts) + count(span.text), cfg) {
        PackIsGrouping(count, rest, cfg, parts + [span]);
      } else {
        PackIsGrouping(count, rest, cfg, [span]);
      }
    }
  }

  lemma GroupsUnfold(count: Counter, spans: seq<Span>, cfg: Config, parts: seq<Span>)
    ensures spans == [] ==>
      var gs := Groups(count, spans, cfg, parts);
      gs == (if parts == [] then [] else [parts]) && FlushAll(gs) == Flush(parts) && Flatten(gs) == parts
    ensures spans != [] ==>
      var span, rest := spans[0], spans[1..];
      var gs := Groups(count, spans, cfg, parts);
      if parts == [] then gs == Groups(count, rest, cfg, [span])
      else if ShouldAdd(Tokens(count, parts), Tokens(count, parts) + count(span.text), cfg)
      then gs == Groups(count, rest, cfg, parts + [span])
      else
        var tail := Groups(count, rest, cfg, [span]);
        gs == [parts] + tail && FlushAll(gs) == Flush(parts) + FlushAll(tail) && Flatten(gs) == parts + Flatten(tail)
  {
    hide ShouldAdd, Tokens, Flush;
    if spans != [] {
      var tail := Groups(count, spans[1..], cfg, [spans[0]]);
      assert ([parts] + tail)[1..] == tail;
    }
    assert [parts][1..] == [];
    FlushNone();
  }

  lemma FlushNone()
    ensures Flush([]) == []
  {
  }

  lemma TokensSnoc(count: Counter, parts: seq<Span>, span: Span)
    ensures Tokens(count, parts + [span]) == Tokens(count, parts) + count(span.text)
    ensures Tokens(count, []) == 0
  {
    assert (parts + [span])[..|parts|] == parts;
  }

  /**
    What greedy packing means, without saying how it is computed: inside a group every piece was
    worth adding to the ones before it, and the first piece of the next group was not.
   */
  ghost predicate GreedyGroup(count: Counter, g: seq<Span>, cfg: Config) {
    && g != []
    && forall k :: 0 < k < |g| ==> ShouldAdd(Tokens(count, g[..k]), Tokens(count, g[..k]) + count(g[k].text), cfg)
  }

  ghost predicate GreedyBreak(count: Counter, g: seq<Span>, next: seq<Span>, cfg: Config) {
    next != [] && !ShouldAdd(Tokens(count, g), Tokens(count, g) + count(next[0].text), cfg)
  }

  ghost predicate Greedy(count: Counter, groups: seq<seq<Span>>, cfg: Config) {
    groups != [] ==>
      && GreedyGroup(count, groups[0], cfg)
      && (|groups| > 1 ==> GreedyBreak(count, groups[0], groups[1], cfg))
      && Greedy(count, groups[1..], cfg)
  }

  lemma {:induction false} GroupsAreGreedy(count: Counter, spans: seq<Span>, cfg: Config, parts: seq<Span>)
    requires parts == [] || GreedyGroup(count, parts, cfg)
    ensures Greedy(count, Groups(count, spans, cfg, parts), cfg)
    ensures var gs := Groups(count, spans, cfg, parts);
      parts != [] ==> gs != [] && gs[0] != [] && gs[0][0] == parts[0]
    decreases |spans|
  {
    hide ShouldAdd, Tokens;
    if spans == [] {
      if parts != [] { assert [parts][1..] == []; }
    } else {
      var span, rest := spans[0], spans[1..];
      if parts == [] {
        GroupsAreGreedy(count, rest, cfg, [span]);
      } else if ShouldAdd(Tokens(count, parts), Tokens(count, parts) + count(span.text), cfg) {
        GreedyGroupSnoc(count, parts, span, cfg);
        GroupsAreGreedy(count, rest, cfg, parts + [span]);
      } else {
        GroupsAreGreedy(count, rest, cfg, [span]);
        var tail := Groups(count, rest, cfg, [span]);
        assert ([parts] + tail)[1..] == tail;
      }
    }
  }

  lemma {:induction false} GreedyGroupSnoc(count: Counter, g: seq<Span>, span: Span, cfg: Config)
    requires GreedyGroup(count, g, cfg)
    requires ShouldAdd(Tokens(count, g), Tokens(count, g) + count(span.text), cfg)
    ensures GreedyGroup(count, g + [span], cfg)
  {
    var g' := g + [span];
    forall k | 0 < k < |g'|
      ensures ShouldAdd(Tokens(count, g'[..k]), Tokens(count, g'[..k]) + count(g'[k].text), cfg)
    {
      assert g'[..k] == g[..k];
      if k == |g| { assert g[..k] == g; }
    }
  }

  /** A greedy group stays within the maximum, provided each of its pieces does. */
  lemma GreedyGroupBounded(count: Counter, g: seq<Span>, cfg: Config)
    requires cfg.Valid() && GreedyGroup(count, g, cfg) && WithinMax(count, g, cfg)
    ensures Tokens(count, g) <= cfg.maxChunkTokens
  {
    hide Tokens;
    var k := |g| - 1;
    assert g == g[..k] + [g[k]];
    TokensSnoc(count, g[..k], g[k]);
    if k > 0 {
      assert ShouldAdd(Tokens(count, g[..k]), Tokens(count, g[..k]) + count(g[k].text), cfg);
    }
  }

  /** Two adjacent groups together exceed the target: otherwise they would have been one. */
  lemma {:induction false} AdjacentGroupsExceedTarget(count: Counter, g: seq<Span>, next: seq<Span>, cfg: Config)
    requires GreedyBreak(count, g, next, cfg)
    ensures Tokens(count, g) + Tokens(count, next) > cfg.chunkSizeTokens
  {
    TokensFirst(count, next);
  }

  lemma {:induction false} TokensFirst(count: Counter, parts: seq<Span>)
    requires parts != []
    ensures Tokens(count, parts) >= count(parts[0].text)
  {
    if |parts| > 1 {
      TokensFirst(count, parts[..|parts| - 1]);
    }
  }

  lemma {:induction false} TokensAppend(count: Counter, a: seq<Span>, b: seq<Span>)
    ensures Tokens(count, a + b) == Tokens(count, a) + Tokens(count, b)
  {
    if b == [] {
      assert a + b == a;
    } else {
      var n := |b| - 1;
      assert a + b == (a + b[..n]) + [b[n]];
      TokensSnoc(count, a + b[..n], b[n]);
      TokensAppend(count, a, b[..n]);
    }
  }

  /** So `k` greedy groups need more than `(k / 2) * target` tokens. */
  lemma {:induction false} GreedyGroupsNeedTokens(count: Counter, groups: seq<seq<Span>>, cfg: Config)
    requires Greedy(count, groups, cfg)
    ensures Tokens(count, Flatten(groups)) >= (|groups| / 2) * (cfg.chunkSizeTokens + 1)
    decreases |groups|
  {
    hide Tokens, ShouldAdd;
    if |groups| >= 2 {
      var rest := groups[2..];
      assert groups[1..][1..] == rest;
      GreedyGroupsNeedTokens(count, rest, cfg);
      AdjacentGroupsExceedTarget(count, groups[0], groups[1], cfg);
      TokensAppend(count, groups[1], Flatten(rest));
      TokensAppend(count, groups[0], Flatten(groups[1..]));
      assert |groups| / 2 == |rest| / 2 + 1;
    }
  }

  lemma WithinMaxSplit(count: Counter, a: seq<Span>, b: seq<Span>, cfg: Config)
    requires WithinMax(count, a + b, cfg)
    ensures WithinMax(count, a, cfg) && WithinMax(count, b, cfg)
  {
    assert forall i :: 0 <= i < |a| ==> a[i] == (a + b)[i];
    assert forall i :: 0 <= i < |b| ==> b[i] == (a + b)[|a| + i];
  }

  lemma {:induction false} GreedyGroupsBounded(count: Counter, groups: seq<seq<Span>>, cfg: Config)
    requires cfg.Valid() && Greedy(count, groups, cfg) && WithinMax(count, Flatten(groups), cfg)
    ensures forall g :: g in groups ==> g != [] && Tokens(count, g) <= cfg.maxChunkTokens
    decreases |groups|
  {
    hide Tokens, ShouldAdd;
    if groups != [] {
      WithinMaxSplit(count, groups[0], Flatten(groups[1..]), cfg);
      GreedyGroupBounded(count, groups[0], cfg);
      assert groups == [groups[0]] + groups[1..];
      GreedyGroupsBounded(count, groups[1..], cfg);
    }
  }

  lemma {:induction false} OneSpanEach(groups: seq<seq<Span>>)
    requires forall g :: g in groups ==> g != []
    ensures |FlushAll(groups)| == |groups|
    decreases |groups|
  {
    if groups != [] {
      assert groups[0] in groups && forall g :: g in groups[1..] ==> g in groups;
      OneSpanEach(groups[1..]);
    }
  }

  /** The packing theorem: the result is the flushed groups of a greedy grouping of the input, with its bounds. */
  lemma PackingBounds(count: Counter, spans: seq<Span>, cfg: Config)
    requires cfg.Valid() && WithinMax(count, spans, cfg)
    ensures var groups := Groups(count, spans, cfg, []);
      && Pack(count, spans, cfg, [], 0) == FlushAll(groups)
      && |Pack(count, spans, cfg, [], 0)| == |groups|
      && Flatten(groups) == spans
      && Greedy(count, groups, cfg)
      && (forall g :: g in groups ==> g != [] && Tokens(count, g) <= cfg.maxChunkTokens)
      && (forall k :: 0 <= k < |groups| - 1 ==> Tokens(count, groups[k]) + Tokens(count, groups[k + 1]) > cfg.chunkSizeTokens)
      && Tokens(count, spans) >= (|groups| / 2) * (cfg.chunkSizeTokens + 1)
  {
    hide Tokens, ShouldAdd, Pack, Groups, FlushAll, Flatten;
    TokensSnoc(count, [], Span("", 0, 0));
    PackIsGrouping(count, spans, cfg, []);
    assert [] + spans == spans;
    GroupsAreGreedy(count, spans, cfg, []);
    var groups := Groups(count, spans, cfg, []);
    GreedyGroupsBounded(count, groups, cfg);
    OneSpanEach(groups);
    GreedyGroupsNeedTokens(count, groups, cfg);
    forall k | 0 <= k < |groups| - 1
      ensures Tokens(count, groups[k]) + Tokens(count, groups[k + 1]) > cfg.chunkSizeTokens
    {
      GreedyAt(count, groups, cfg, k);
      AdjacentGroupsExceedTarget(count, groups[k], groups[k + 1], cfg);
    }
  }

  lemma {:induction false} GreedyAt(count: Counter, groups: seq<seq<Span>>, cfg: Config, k: nat)
    requires Greedy(count, groups, cfg) && k < |groups| - 1
    ensures GreedyBreak(count, groups[k], groups[k + 1], cfg)
    decreases k
  {
    if k > 0 {
      GreedyAt(count, groups[1..], cfg, k - 1);
    }
  }

  lemma {:induction false} GreedyGroupAt(count: Counter, groups: seq<seq<Span>>, cfg: Config, k: nat)
    requires Greedy(count, groups, cfg) && k < |groups|
    ensures GreedyGroup(count, groups[k], cfg)
    decreases k
  {
    if k > 0 {
      GreedyGroupAt(count, groups[1..], cfg, k - 1);
    }
  }

  /**
    What the recommended minimum is for: a group is closed below 200 tokens only when its next piece would take
    it over the maximum, and a group goes over the target only to leave a size below 200 behind.
   */
  lemma SmallGroupsAreFilled(count: Counter, spans: seq<Span>, cfg: Config, k: nat)
    requires k < |Groups(count, spans, cfg, [])|
    ensures var groups := Groups(count, spans, cfg, []);
      var g := groups[k];
      && g != []
      && (Tokens(count, g) > cfg.chunkSizeTokens && |g| > 1 ==> Tokens(count, g[..|g| - 1]) < 200)
      && (k < |groups| - 1 ==>
            && groups[k + 1] != []
            && var grown := Tokens(count, g) + count(groups[k + 1][0].text);
              grown > cfg.chunkSizeTokens && (Tokens(count, g) >= 200 || grown > cfg.maxChunkTokens))
  {
    GroupsAreGreedy(count, spans, cfg, []);
    var groups := Groups(count, spans, cfg, []);
    GreedyGroupAt(count, groups, cfg, k);
    var g := groups[k];
    if |g| > 1 {
      var last := |g| - 1;
      TokensSnoc(count, g[..last], g[last]);
      assert g == g[..last] + [g[last]];
    }
    if k < |groups| - 1 {
      GreedyAt(count, groups, cfg, k);
    }
  }

  // ----- Packing whatever there is -----

  /** Pieces of the input, none empty or over the maximum, with at most the maximum between them. */
  ghost predicate Run(count: Counter, spans: seq<Span>, cfg: Config, g: seq<Span>) {
    && Tokens(count, g) <= cfg.maxChunkTokens
    && forall x :: x in g ==> x in spans && x.text != "" && count(x.text) <= cfg.maxChunkTokens
  }

  ghost predicate Joined(count: Counter, spans: seq<Span>, cfg: Config, p: Span) {
    exists g: seq<Span> :: g != [] && Run(count, spans, cfg, g) && p == Span(Concat(Texts(g)), g[0].start, g[|g| - 1].end)
  }

  /** A window, full for the target, of a piece over the maximum. */
  ghost predicate ForcedWindow(count: Counter, spans: seq<Span>, cfg: Config, p: Span) {
    exists x :: x in spans && count(x.text) > cfg.maxChunkTokens && FullWindow(count, x.text, x.start, cfg.chunkSizeTokens, p)
  }

  ghost predicate PackedWell(count: Counter, spans: seq<Span>, cfg: Config, ps: seq<Span>) {
    forall p :: p in ps ==> Joined(count, spans, cfg, p) || ForcedWindow(count, spans, cfg, p)
  }

  lemma PackedWellConcat(count: Counter, spans: seq<Span>, cfg: Config, a: seq<Span>, b: seq<Span>)
    requires PackedWell(count, spans, cfg, a) && PackedWell(count, spans, cfg, b)
    ensures PackedWell(count, spans, cfg, a + b)
  {
    hide Joined, ForcedWindow;
  }

  lemma RunIsPacked(count: Counter, spans: seq<Span>, cfg: Config, parts: seq<Span>)
    requires Run(count, spans, cfg, parts)
    ensures PackedWell(count, spans, cfg, Flush(parts))
  {
    hide Tokens;
  }

  lemma WindowsArePacked(count: Counter, spans: seq<Span>, cfg: Config, x: Span)
    requires x in spans && count(x.text) > cfg.maxChunkTokens
    ensures PackedWell(count, spans, cfg, TokenWindows(count, x.text, x.start, 0, cfg.chunkSizeTokens))
  {
    hide TokenWindows, FullWindow, Joined;
    WindowsAreFull(count, x.text, x.start, 0, cfg.chunkSizeTokens);
  }

  /** For every counter and whatever the pieces: each packed span joins a run of them, or is a full window of one over the maximum. */
  lemma {:induction false} PackedIsJoinedOrForced(count: Counter, spans: seq<Span>, cfg: Config)
    requires cfg.Valid()
    ensures PackedWell(count, spans, cfg, Pack(count, spans, cfg, [], 0))
  {
    hide Pack, PackedWell;
    TokensSnoc(count, [], Span("", 0, 0));
    PackedFrom(count, spans, spans, cfg, [], 0);
  }

  lemma {:induction false} PackedFrom(count: Counter, all: seq<Span>, spans: seq<Span>, cfg: Config, parts: seq<Span>, tokens: nat)
    requires cfg.Valid() && (forall x :: x in spans ==> x in all)
    requires Run(count, all, cfg, parts) && tokens == Tokens(count, parts)
    ensures PackedWell(count, all, cfg, Pack(count, spans, cfg, parts, tokens))
    decreases |spans|
  {
    hide Pack, Tokens, TokenWindows, Flush, PackedWell;
    RunIsPacked(count, all, cfg, parts);
    if spans == [] {
      PackDone(count, spans, cfg, parts, tokens);
    } else {
      var span, rest := spans[0], spans[1..];
      assert spans[0..] == spans;
      PackUnfold(count, spans, cfg, parts, tokens, 0);
      TokensSnoc(count, parts, span);
      TokensSnoc(count, [], span);
      assert [] + [span] == [span];
      if span.text == "" {
        PackedFrom(count, all, rest, cfg, parts, tokens);
      } else if count(span.text) > cfg.maxChunkTokens {
        WindowsArePacked(count, all, cfg, span);
        PackedFrom(count, all, rest, cfg, [], 0);
        var forced := TokenWindows(count, span.text, span.start, 0, cfg.chunkSizeTokens);
        PackedWellConcat(count, all, cfg, Flush(parts), forced);
        PackedWellConcat(count, all, cfg, Flush(parts) + forced, Pack(count, rest, cfg, [], 0));
      } else if parts != [] && ShouldAdd(tokens, tokens + count(span.text), cfg) {
        PackedFrom(count, all, rest, cfg, parts + [span], tokens + count(span.text));
      } else {
        PackedFrom(count, all, rest, cfg, [span], count(span.text));
        PackedWellConcat(count, all, cfg, Flush(parts), Pack(count, rest, cfg, [span], count(span.text)));
        FlushNone();
        assert [] + Pack(count, rest, cfg, [span], count(span.text)) == Pack(count, rest, cfg, [span], count(span.text));
      }
    }
  }
}
