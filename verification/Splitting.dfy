/** The separator ladder: cut at a separator, and cut again at the next one where a piece is still too large. */
module Splitting {
  import opened Options
  import opened Text
  import opened Spans
  import opened Windows

  /** The configuration after validation, as `ChunkingConfig.__post_init__` leaves it. */
  datatype Config = Config(chunkSizeTokens: nat, maxChunkTokens: nat, separators: seq<string>) {
    predicate Valid() {
      0 < chunkSizeTokens <= maxChunkTokens && separators != []
    }
  }

  /** Cut after every occurrence of the separator, leftmost first, from local offset `cursor` on. */
  function SplitOn(span: Span, separator: string, cursor: nat): seq<Span>
    requires separator != "" && cursor <= |span.text|
    decreases |span.text| - cursor
  {
    var text := span.text;
    if cursor == |text| then []
    else match Find(text[cursor..], separator)
      case None => [Span(text[cursor..], span.start + cursor, span.start + |text|)]
      case Some(k) =>
        var end := cursor + k + |separator|;
        [Span(text[cursor..end], span.start + cursor, span.start + end)] + SplitOn(span, separator, end)
  }

  lemma SplitOnUnfold(span: Span, separator: string, cursor: nat)
    requires separator != "" && cursor <= |span.text|
    ensures cursor == |span.text| ==> SplitOn(span, separator, cursor) == []
    ensures cursor < |span.text| ==>
      match Find(span.text[cursor..], separator)
      case None =>
        SplitOn(span, separator, cursor) == [Span(span.text[cursor..], span.start + cursor, span.start + |span.text|)]
      case Some(k) =>
        var end := cursor + k + |separator|;
        SplitOn(span, separator, cursor)
          == [Span(span.text[cursor..end], span.start + cursor, span.start + end)] + SplitOn(span, separator, end)
  {
    hide Find;
  }

  method SplitOnSeparator(span: Span, separator: string) returns (parts: seq<Span>)
    requires separator != ""
    ensures parts == SplitOn(span, separator, 0)
  {
    hide SplitOn, Find;
    var text := span.text;
    parts := [];
    var cursor := 0;
    while cursor < |text|
      invariant cursor <= |text|
      invariant parts + SplitOn(span, separator, cursor) == SplitOn(span, separator, 0)
      decreases |text| - cursor
    {
      SplitOnUnfold(span, separator, cursor);
      match Find(text[cursor..], separator)
      case None =>
        parts := parts + [Span(text[cursor..], span.start + cursor, span.start + |text|)];
        return;
      case Some(k) =>
        var endLocal := cursor + k + |separator|;
        var part := Span(text[cursor..endLocal], span.start + cursor, span.start + endLocal);
        AppendOne(parts, part, SplitOn(span, separator, endLocal));
        parts := parts + [part];
        cursor := endLocal;
    }
    SplitOnUnfold(span, separator, |text|);
  }

  lemma {:induction false} SplitOnTiles(span: Span, separator: string, cursor: nat)
    requires separator != "" && cursor <= |span.text|
    ensures Tiles(SplitOn(span, separator, cursor), span.text, span.start, span.start + cursor, span.start + |span.text|)
    decreases |span.text| - cursor
  {
    hide SplitOn, Find;
    SplitOnUnfold(span, separator, cursor);
    if cursor < |span.text| {
      match Find(span.text[cursor..], separator)
      case None =>
      case Some(k) => SplitOnTiles(span, separator, cursor + k + |separator|);
    }
  }

  /** A piece ends with the separator and holds it nowhere else, except that the last piece may hold none. */
  ghost predicate CutAtSeparator(piece: string, separator: string, last: bool) {
    match Find(piece, separator)
    case None => last
    case Some(k) => k + |separator| == |piece|
  }

  /** The separator ends up at the end of each piece, and nowhere else. */
  lemma {:induction false} SplitOnCuts(span: Span, separator: string, cursor: nat)
    requires separator != "" && cursor <= |span.text|
    ensures var ps := SplitOn(span, separator, cursor);
      forall i :: 0 <= i < |ps| ==> CutAtSeparator(ps[i].text, separator, i == |ps| - 1)
    decreases |span.text| - cursor
  {
    hide SplitOn, Find;
    SplitOnUnfold(span, separator, cursor);
    if cursor < |span.text| {
      var rest := span.text[cursor..];
      match Find(rest, separator)
      case None =>
      case Some(k) =>
        var end := k + |separator|;
        FindInPrefix(rest, separator, k);
        assert span.text[cursor..cursor + end] == rest[..end];
        SplitOnCuts(span, separator, cursor + end);
    }
  }

  lemma {:induction false} FindInPrefix(s: string, pat: string, k: nat)
    requires Find(s, pat) == Some(k)
    ensures k + |pat| <= |s|
    ensures Find(s[..k + |pat|], pat) == Some(k)
  {
    hide Find, OccursAt;
    FindIsLeftmost(s, pat);
    var n := k + |pat|;
    forall m: nat | m <= k
      ensures OccursAt(s[..n], pat, m) <==> OccursAt(s, pat, m)
    {
      OccursInPrefix(s, pat, n, m);
    }
    FindIsUnique(s[..n], pat, k);
  }

  lemma OccursInPrefix(s: string, pat: string, n: nat, m: nat)
    requires m + |pat| <= n <= |s|
    ensures OccursAt(s[..n], pat, m) <==> OccursAt(s, pat, m)
  {
    SliceOfSlice(s, 0, n, m, m + |pat|);
  }

  /** `_split_recursive`. */
  function SplitRecursive(count: Counter, span: Span, cfg: Config, index: nat): seq<Span>
    requires index <= |cfg.separators|
    decreases |cfg.separators| - index, 0
  {
    if span.text == "" then []
    else if count(span.text) <= cfg.maxChunkTokens then [span]
    else if index >= |cfg.separators| || cfg.separators[index] == "" then
      TokenWindows(count, span.text, span.start, 0, cfg.chunkSizeTokens)
    else
      var pieces := SplitOn(span, cfg.separators[index], 0);
      if |pieces| <= 1 then SplitRecursive(count, span, cfg, index + 1)
      else SplitPieces(count, pieces, cfg, index + 1)
  }

  /** The loop over the pieces: those within the maximum are kept, the others are split further. */
  function SplitPieces(count: Counter, pieces: seq<Span>, cfg: Config, index: nat): seq<Span>
    requires index <= |cfg.separators|
    decreases |cfg.separators| - index, 1 + |pieces|
  {
    if pieces == [] then []
    else SplitPiece(count, pieces[0], cfg, index) + SplitPieces(count, pieces[1..], cfg, index)
  }

  function SplitPiece(count: Counter, piece: Span, cfg: Config, index: nat): seq<Span>
    requires index <= |cfg.separators|
    decreases |cfg.separators| - index, 1
  {
    if piece.text == "" then []
    else if count(piece.text) <= cfg.maxChunkTokens then [piece]
    else SplitRecursive(count, piece, cfg, index)
  }

  lemma SplitPiecesUnfold(count: Counter, pieces: seq<Span>, cfg: Config, index: nat, n: nat)
    requires index <= |cfg.separators| && n < |pieces|
    ensures SplitPieces(count, pieces[n..], cfg, index)
      == SplitPiece(count, pieces[n], cfg, index) + SplitPieces(count, pieces[n + 1..], cfg, index)
  {
    assert pieces[n..][1..] == pieces[n + 1..];
  }

  method SplitSpan(count: Counter, span: Span, cfg: Config, separatorIndex: nat) returns (out: seq<Span>)
    requires separatorIndex <= |cfg.separators|
    ensures out == SplitRecursive(count, span, cfg, separatorIndex)
    decreases |cfg.separators| - separatorIndex, 1
  {
    hide TokenWindows, SplitOn, SplitPieces;
    if span.text == "" { return []; }
    var tok := count(span.text);
    if tok <= cfg.maxChunkTokens { return [span]; }
    if separatorIndex >= |cfg.separators| {
      out := SplitForceTokenWindows(count, span, cfg.chunkSizeTokens);
      return;
    }
    var separator := cfg.separators[separatorIndex];
    if separator == "" {
      out := SplitForceTokenWindows(count, span, cfg.chunkSizeTokens);
      return;
    }
    var pieces := SplitOnSeparator(span, separator);
    if |pieces| <= 1 {
      out := SplitSpan(count, span, cfg, separatorIndex + 1);
    } else {
      out := SplitEach(count, pieces, cfg, separatorIndex + 1);
    }
  }

  /** The loop that collects the pieces; `separatorIndex` is already the next rung of the ladder. */
  method SplitEach(count: Counter, pieces: seq<Span>, cfg: Config, separatorIndex: nat) returns (out: seq<Span>)
    requires separatorIndex <= |cfg.separators|
    ensures out == SplitPieces(count, pieces, cfg, separatorIndex)
    decreases |cfg.separators| - separatorIndex, 2
  {
    hide SplitRecursive, SplitPieces;
    out := [];
    assert pieces[0..] == pieces;
    for n := 0 to |pieces|
      invariant out + SplitPieces(count, pieces[n..], cfg, separatorIndex) == SplitPieces(count, pieces, cfg, separatorIndex)
    {
      var piece := pieces[n];
      SplitPiecesUnfold(count, pieces, cfg, separatorIndex, n);
      if piece.text == "" { continue; }
      var ptok := count(piece.text);
      if ptok <= cfg.maxChunkTokens {
        out := out + [piece];
      } else {
        var sub := SplitSpan(count, piece, cfg, separatorIndex);
        out := out + sub;
      }
    }
    SplitPiecesDone(count, pieces[|pieces|..], cfg, separatorIndex);
  }

  lemma SplitPiecesDone(count: Counter, none: seq<Span>, cfg: Config, index: nat)
    requires index <= |cfg.separators| && none == []
    ensures SplitPieces(count, none, cfg, index) == []
  {
  }

  /** Nothing is lost or moved: the pieces tile the text of the span. */
  lemma {:induction false} SplitRecursiveTiles(count: Counter, span: Span, cfg: Config, index: nat)
    requires index <= |cfg.separators|
    requires count(span.text) > cfg.maxChunkTokens || span.end == span.start + |span.text|
    ensures Tiles(SplitRecursive(count, span, cfg, index), span.text, span.start, span.start, span.start + |span.text|)
    decreases |cfg.separators| - index, 0
  {
    hide TokenWindows, SplitOn, SplitPieces;
    if span.text == "" {
    } else if count(span.text) <= cfg.maxChunkTokens {
    } else if index >= |cfg.separators| || cfg.separators[index] == "" {
      WindowsTile(count, span.text, span.start, 0, cfg.chunkSizeTokens);
    } else {
      var pieces := SplitOn(span, cfg.separators[index], 0);
      if |pieces| <= 1 {
        SplitRecursiveTiles(count, span, cfg, index + 1);
      } else {
        SplitOnTiles(span, cfg.separators[index], 0);
        SplitPiecesTile(count, pieces, cfg, index + 1, span.text, span.start, span.start, span.start + |span.text|);
      }
    }
  }

  lemma {:induction false} SplitPiecesTile(count: Counter, pieces: seq<Span>, cfg: Config, index: nat, src: string, off: nat, lo: nat, hi: nat)
    requires index <= |cfg.separators|
    requires Tiles(pieces, src, off, lo, hi)
    ensures Tiles(SplitPieces(count, pieces, cfg, index), src, off, lo, hi)
    decreases |cfg.separators| - index, 1 + |pieces|
  {
    hide SplitRecursive;
    if pieces != [] {
      var piece := pieces[0];
      SplitRecursiveTiles(count, piece, cfg, index);
      TilesRebase(SplitPiece(count, piece, cfg, index), piece.text, lo, lo, piece.end, src, off);
      SplitPiecesTile(count, pieces[1..], cfg, index, src, off, piece.end, hi);
      TilesAppend(SplitPiece(count, piece, cfg, index), SplitPieces(count, pieces[1..], cfg, index), src, off, lo, piece.end, hi);
    }
  }

  predicate Capped(count: Counter, text: string, cap: nat) {
    count(text) <= cap || |text| == 1
  }

  /** For every counter, each piece is within the maximum or a single character. */
  lemma {:induction false} SplitRecursiveCapped(count: Counter, span: Span, cfg: Config, index: nat)
    requires cfg.Valid() && index <= |cfg.separators|
    ensures forall p :: p in SplitRecursive(count, span, cfg, index) ==> Capped(count, p.text, cfg.maxChunkTokens)
    decreases |cfg.separators| - index, 0
  {
    hide TokenWindows, SplitOn, SplitPieces;
    if span.text == "" || count(span.text) <= cfg.maxChunkTokens {
    } else if index >= |cfg.separators| || cfg.separators[index] == "" {
      WindowsBounded(count, span.text, span.start, cfg.chunkSizeTokens);
    } else {
      var pieces := SplitOn(span, cfg.separators[index], 0);
      if |pieces| <= 1 {
        SplitRecursiveCapped(count, span, cfg, index + 1);
      } else {
        SplitPiecesCapped(count, pieces, cfg, index + 1);
      }
    }
  }

  lemma {:induction false} SplitPiecesCapped(count: Counter, pieces: seq<Span>, cfg: Config, index: nat)
    requires cfg.Valid() && index <= |cfg.separators|
    ensures forall p :: p in SplitPieces(count, pieces, cfg, index) ==> Capped(count, p.text, cfg.maxChunkTokens)
    decreases |cfg.separators| - index, 1 + |pieces|
  {
    hide SplitRecursive;
    if pieces != [] {
      SplitRecursiveCapped(count, pieces[0], cfg, index);
      SplitPiecesCapped(count, pieces[1..], cfg, index);
    }
  }
}
