/** Splitting a document into fenced code and the rest, so that the cleaning passes leave code alone. */
module Fences {
  import opened Options
  import opened Text
  import opened Lines

  /** A block as the lines it is made of. */
  datatype Part = Part(fenced: bool, lines: seq<string>)

  /** `_FENCE_OPEN_RE`: any indentation, then three or more backticks or tildes. */
  function Opener(line: string): Option<Marker> {
    FenceRun(line[LeadingWhile(line, IsBlank)..])
  }

  /** `_is_fence_close_line`. */
  predicate Closes(line: string, m: Marker) {
    var s := Strip(line);
    |s| >= m.size && forall i :: 0 <= i < |s| ==> s[i] == m.ch
  }

  /** From an opener up to its first closer, or lines without any opener. */
  predicate IsBlock(p: Part) {
    && p.lines != []
    && if p.fenced then
         Opener(p.lines[0]).Some? && forall k :: 0 < k < |p.lines| - 1 ==> !Closes(p.lines[k], Opener(p.lines[0]).value)
       else forall k :: 0 <= k < |p.lines| ==> Opener(p.lines[k]).None?
  }

  predicate IsClosed(p: Part)
    requires IsBlock(p)
  {
    p.fenced ==> |p.lines| > 1 && Closes(p.lines[|p.lines| - 1], Opener(p.lines[0]).value)
  }

  /** Blocks one after the other: only the last may be unclosed, and open ones are never adjacent. */
  predicate WellSplit(parts: seq<Part>) {
    && (forall i :: 0 <= i < |parts| ==> IsBlock(parts[i]))
    && (forall i :: 0 <= i < |parts| - 1 ==> IsClosed(parts[i]) && (parts[i].fenced || parts[i + 1].fenced))
  }

  function AllLines(parts: seq<Part>): seq<string> {
    if parts == [] then [] else parts[0].lines + AllLines(parts[1..])
  }

  lemma {:induction false} AllLinesSnoc(parts: seq<Part>, p: Part)
    ensures AllLines(parts + [p]) == AllLines(parts) + p.lines
    decreases |parts|
  {
    if parts == [] {
      assert [] + [p] == [p];
      assert [p][1..] == [];
    } else {
      AllLinesSnoc(parts[1..], p);
      assert (parts + [p])[1..] == parts[1..] + [p];
    }
  }

  /** What the loop of `_split_fenced_blocks` knows of the lines `done`: finished blocks, and the one it is in. */
  ghost predicate SoFar(parts: seq<Part>, current: seq<string>, open: Option<Marker>, done: seq<string>) {
    && WellSplit(parts) && AllLines(parts) + current == done
    && (parts != [] ==> IsClosed(parts[|parts| - 1]))
    && if open.Some? then
         && current != [] && Opener(current[0]) == open
         && (forall k :: 0 < k < |current| ==> !Closes(current[k], open.value))
       else
         && (forall k :: 0 <= k < |current| ==> Opener(current[k]).None?)
         && (parts != [] ==> parts[|parts| - 1].fenced)
  }

  lemma {:induction false} FinishBlock(parts: seq<Part>, p: Part)
    requires WellSplit(parts) && IsBlock(p)
    requires parts != [] ==> IsClosed(parts[|parts| - 1]) && (parts[|parts| - 1].fenced || p.fenced)
    ensures WellSplit(parts + [p])
    ensures AllLines(parts + [p]) == AllLines(parts) + p.lines
  {
    hide Opener, Closes;
    AllLinesSnoc(parts, p);
    var all := parts + [p];
    forall i | 0 <= i < |all| ensures IsBlock(all[i]) {
      assert i < |parts| ==> all[i] == parts[i] && IsBlock(parts[i]);
    }
    forall i | 0 <= i < |all| - 1 ensures IsClosed(all[i]) && (all[i].fenced || all[i + 1].fenced) {
      assert IsBlock(all[i]) && all[i] == parts[i];
      assert i < |parts| - 1 ==> all[i + 1] == parts[i + 1];
    }
  }

  lemma LineStays(parts: seq<Part>, current: seq<string>, open: Option<Marker>, done: seq<string>, line: string)
    requires SoFar(parts, current, open, done)
    requires if open.Some? then !Closes(line, open.value) else Opener(line).None?
    ensures SoFar(parts, current + [line], open, done + [line])
  {
    hide Opener, Closes, WellSplit, IsBlock;
  }

  lemma {:induction false} LineCloses(parts: seq<Part>, current: seq<string>, open: Option<Marker>, done: seq<string>, line: string)
    requires SoFar(parts, current, open, done) && open.Some? && Closes(line, open.value)
    ensures SoFar(parts + [Part(true, current + [line])], [], None, done + [line])
  {
    hide Opener, Closes;
    var p := Part(true, current + [line]);
    assert IsBlock(p) && IsClosed(p);
    FinishBlock(parts, p);
    hide WellSplit, IsBlock;
    assert AllLines(parts) + (current + [line]) == done + [line];
    assert AllLines(parts + [p]) + [] == done + [line];
  }

  lemma LineOpens(parts: seq<Part>, current: seq<string>, done: seq<string>, line: string)
    requires SoFar(parts, current, None, done) && Opener(line).Some?
    ensures SoFar(if current == [] then parts else parts + [Part(false, current)], [line], Opener(line), done + [line])
  {
    hide Opener, Closes;
    if current != [] {
      FinishBlock(parts, Part(false, current));
    }
  }

  lemma LastBlock(parts: seq<Part>, current: seq<string>, open: Option<Marker>, done: seq<string>)
    requires SoFar(parts, current, open, done)
    ensures var all := if current == [] then parts else parts + [Part(open.Some?, current)];
      WellSplit(all) && AllLines(all) == done
  {
    hide Opener, Closes;
    if current != [] {
      FinishBlock(parts, Part(open.Some?, current));
    } else {
      assert AllLines(parts) + [] == AllLines(parts);
    }
  }

  /** The loop of `_split_fenced_blocks`, on lines. */
  method SplitLinesIntoBlocks(lines: seq<string>) returns (parts: seq<Part>)
    ensures WellSplit(parts) && AllLines(parts) == lines
  {
    parts := [];
    var current: seq<string>, open: Option<Marker> := [], None;
    var i := 0;
    while i < |lines|
      invariant 0 <= i <= |lines|
      invariant SoFar(parts, current, open, lines[..i])
    {
      hide SoFar, Opener, Closes;
      var line := lines[i];
      assert lines[..i + 1] == lines[..i] + [line];
      i := i + 1;
      if open.Some? {
        if Closes(line, open.value) {
          LineCloses(parts, current, open, lines[..i - 1], line);
          current := current + [line];
          parts, current, open := parts + [Part(true, current)], [], None;
        } else {
          LineStays(parts, current, open, lines[..i - 1], line);
          current := current + [line];
        }
        continue;
      }
      var marker := Opener(line);
      if marker.None? {
        LineStays(parts, current, open, lines[..i - 1], line);
        current := current + [line];
        continue;
      }
      LineOpens(parts, current, lines[..i - 1], line);
      if current != [] {
        parts, current := parts + [Part(false, current)], [];
      }
      current, open := [line], marker;
    }
    assert lines[..i] == lines;
    LastBlock(parts, current, open, lines);
    if current != [] {
      parts := parts + [Part(open.Some?, current)];
    }
  }

  // ----- There is only one way to split -----

  lemma FirstBlockThenNext(parts: seq<Part>)
    requires parts != [] && WellSplit(parts)
    ensures parts[0].lines <= AllLines(parts)
    ensures |AllLines(parts)| > |parts[0].lines| ==>
              |parts| > 1 && parts[1].lines != [] && AllLines(parts)[|parts[0].lines|] == parts[1].lines[0]
    ensures WellSplit(parts[1..])
  {
    hide Opener, Closes;
    var rest := parts[1..];
    assert rest != [] ==> IsBlock(rest[0]) && AllLines(rest)[0] == rest[0].lines[0];
  }

  /** Where the first block ends is settled by the lines: no block that starts alike reaches further. */
  lemma FirstBlockIsLongest(parts: seq<Part>, other: Part, rest: seq<string>)
    requires parts != [] && WellSplit(parts) && IsBlock(other) && AllLines(parts) == other.lines + rest
    ensures parts[0].fenced == other.fenced
    ensures |parts[0].lines| < |other.lines| ==> |parts[0].lines| == |AllLines(parts)|
  {
    FirstBlockThenNext(parts);
    var p, lines := parts[0], AllLines(parts);
    hide Opener, Closes, AllLines;
    assert forall k :: 0 <= k < |other.lines| ==> lines[k] == other.lines[k];
    assert forall k :: 0 <= k < |p.lines| ==> lines[k] == p.lines[k];
    assert IsBlock(p);
    assert |parts| > 1 ==> IsClosed(p) && IsBlock(parts[1]);
  }

  lemma SomeLines(parts: seq<Part>)
    requires WellSplit(parts)
    ensures AllLines(parts) == [] <==> parts == []
  {
    hide Opener, Closes;
    if parts != [] {
      assert IsBlock(parts[0]);
    }
  }

  /** Any two such splits of the same lines are the same: the split is determined by what `WellSplit` says. */
  lemma {:induction false} SplitIsUnique(parts: seq<Part>, parts': seq<Part>)
    requires WellSplit(parts) && WellSplit(parts') && AllLines(parts) == AllLines(parts')
    ensures parts == parts'
    decreases |parts|
  {
    hide Opener, Closes;
    SomeLines(parts);
    SomeLines(parts');
    if parts != [] {
      FirstBlockIsLongest(parts, parts'[0], AllLines(parts'[1..]));
      FirstBlockIsLongest(parts', parts[0], AllLines(parts[1..]));
      FirstBlockThenNext(parts);
      FirstBlockThenNext(parts');
      hide WellSplit, IsBlock;
      var n := |parts[0].lines|;
      assert parts[0].lines == AllLines(parts)[..n] == parts'[0].lines;
      assert AllLines(parts[1..]) == AllLines(parts)[n..] == AllLines(parts'[1..]);
      SplitIsUnique(parts[1..], parts'[1..]);
      assert parts == [parts[0]] + parts[1..] && parts' == [parts'[0]] + parts'[1..];
    }
  }

  // ----- Texts -----

  datatype Block = Block(fenced: bool, text: string)

  function BlocksOf(parts: seq<Part>): (r: seq<Block>)
    ensures |r| == |parts|
    ensures forall i :: 0 <= i < |parts| ==> r[i] == Block(parts[i].fenced, Concat(parts[i].lines))
  {
    if parts == [] then [] else [Block(parts[0].fenced, Concat(parts[0].lines))] + BlocksOf(parts[1..])
  }

  function Texts(blocks: seq<Block>): seq<string> {
    seq(|blocks|, i requires 0 <= i < |blocks| => blocks[i].text)
  }

  lemma {:induction false} BlocksConcat(parts: seq<Part>)
    ensures Concat(Texts(BlocksOf(parts))) == Concat(AllLines(parts))
    decreases |parts|
  {
    if parts != [] {
      BlocksConcat(parts[1..]);
      ConcatAppend(parts[0].lines, AllLines(parts[1..]));
      assert Texts(BlocksOf(parts)) == [Concat(parts[0].lines)] + Texts(BlocksOf(parts[1..]));
    }
  }

  /** `_split_fenced_blocks`: the blocks make up the text; `parts` are their lines. */
  method SplitFencedBlocks(text: string) returns (blocks: seq<Block>, ghost parts: seq<Part>)
    ensures Concat(Texts(blocks)) == text
    ensures text == "" ==> blocks == [Block(false, "")]
    ensures text != "" ==> blocks == BlocksOf(parts) && WellSplit(parts) && AllLines(parts) == SplitLines(text)
  {
    var lines := SplitLines(text);
    SplitLinesConcat(text);
    if lines == [] {
      assert Texts([Block(false, text)]) == [text];
      return [Block(false, text)], [];
    }
    var found := SplitLinesIntoBlocks(lines);
    BlocksConcat(found);
    return BlocksOf(found), found;
  }

  ghost predicate Contains(s: string, t: string) {
    exists k: nat :: OccursAt(s, t, k)
  }

  lemma OpenerIsVisible(line: string)
    requires Opener(line).Some?
    ensures !AllSpace(line)
  {
    var n := LeadingWhile(line, IsBlank);
    assert line[n] == line[n..][0];
    assert !IsSpace(line[n]);
  }

  lemma OccursInside(all: string, lo: nat, hi: nat, start: nat, end: nat)
    requires lo <= start <= end <= hi <= |all|
    ensures Contains(all[lo..hi], all[start..end])
  {
    SliceOfSlice(all, lo, hi, start - lo, end - lo);
    assert OccursAt(all[lo..hi], all[start..end], start - lo);
  }

  lemma {:induction false} SliceIsInside(all: string, at: nat, end: nat)
    requires at <= end <= |all| && !AllSpace(all[at..end])
    ensures var text := all[at..end];
      && !AllSpace(all) && Leading(text) + Trailing(text) <= |text|
      && Leading(all) <= at + Leading(text) && end - Trailing(text) <= |all| - Trailing(all)
      && Strip(text) == all[at + Leading(text)..end - Trailing(text)]
  {
    hide IsSpace, AllSpace, Leading, Trailing, Strip;
    var text := all[at..end];
    StripIs(text);
    var from, to := Leading(text), |text| - Trailing(text);
    CharacterOfSlice(all, at, end, from);
    CharacterOfSlice(all, at, end, to - 1);
    VisibleCharacter(all, at + from);
    VisibleCharacter(all, at + to - 1);
    SliceOfSlice(all, at, end, from, to);
  }

  lemma CharacterOfSlice(s: string, a: nat, b: nat, i: nat)
    requires a <= b <= |s| && i < b - a
    ensures s[a..b][i] == s[a + i]
  {
  }

  lemma StripKeepsCore(all: string, at: nat, end: nat)
    requires at <= end <= |all| && !AllSpace(all[at..end])
    ensures Contains(Strip(all), Strip(all[at..end]))
  {
    hide IsSpace, Strip, AllSpace, Contains, Leading, Trailing;
    SliceIsInside(all, at, end);
    StripIs(all);
    var from, to := at + Leading(all[at..end]), end - Trailing(all[at..end]);
    OccursInside(all, Leading(all), |all| - Trailing(all), from, to);
  }

  lemma VisibleSlice(all: string, at: nat, end: nat)
    requires at <= end <= |all| && !AllSpace(all[at..end])
    ensures !AllSpace(all) && Leading(all) <= end && at <= |all| - Trailing(all)
  {
    hide IsSpace;
    var i :| 0 <= i < end - at && !IsSpace(all[at..end][i]);
    VisibleCharacter(all, at + i);
  }

  lemma StripKeepsMiddle(all: string, at: nat, end: nat)
    requires at <= end <= |all| && !AllSpace(all[0..at]) && !AllSpace(all[end..|all|])
    ensures Contains(Strip(all), all[at..end])
  {
    hide IsSpace;
    VisibleSlice(all, 0, at);
    VisibleSlice(all, end, |all|);
    StripIs(all);
    hide Strip, AllSpace, Contains, Leading, Trailing;
    OccursInside(all, Leading(all), |all| - Trailing(all), at, end);
  }

  /** Stripping the whole keeps every visible part: its stripped text, and all of it between visible ends. */
  lemma StripKeepsParts(before: string, text: string, after: string)
    requires !AllSpace(text)
    ensures Contains(Strip(before + text + after), Strip(text))
    ensures !AllSpace(before) && !AllSpace(after) ==> Contains(Strip(before + text + after), text)
  {
    var all := before + text + after;
    var at, end := |before|, |before| + |text|;
    assert all[0..at] == before && all[at..end] == text && all[end..|all|] == after;
    hide Strip, AllSpace, Contains;
    StripKeepsCore(all, at, end);
    if !AllSpace(before) && !AllSpace(after) {
      StripKeepsMiddle(all, at, end);
    }
  }

  /** What `clean_markdown` makes of a block; `passes` stands for the chain of cleaning passes. */
  function Cleaned(b: Block, passes: string -> string): string {
    if b.fenced then b.text else passes(b.text)
  }

  function AllCleaned(blocks: seq<Block>, passes: string -> string): (r: seq<string>)
    ensures |r| == |blocks|
    ensures forall i :: 0 <= i < |blocks| ==> r[i] == Cleaned(blocks[i], passes)
  {
    if blocks == [] then [] else AllCleaned(blocks[..|blocks| - 1], passes) + [Cleaned(blocks[|blocks| - 1], passes)]
  }

  /** The one way of cutting a text into blocks. */
  ghost predicate SplitsInto(text: string, blocks: seq<Block>) {
    if text == "" then blocks == [Block(false, "")]
    else exists parts :: WellSplit(parts) && AllLines(parts) == SplitLines(text) && blocks == BlocksOf(parts)
  }

  lemma SplitsIntoOne(text: string, blocks: seq<Block>, blocks': seq<Block>)
    requires SplitsInto(text, blocks) && SplitsInto(text, blocks')
    ensures blocks == blocks'
  {
    if text != "" {
      var parts :| WellSplit(parts) && AllLines(parts) == SplitLines(text) && blocks == BlocksOf(parts);
      var parts' :| WellSplit(parts') && AllLines(parts') == SplitLines(text) && blocks' == BlocksOf(parts');
      hide WellSplit, AllLines, BlocksOf, SplitLines;
      SplitIsUnique(parts, parts');
    }
  }

  ghost predicate IsCleaned(text: string, passes: string -> string, clean: string) {
    exists blocks :: SplitsInto(text, blocks) && clean == Strip(Concat(AllCleaned(blocks, passes))) + "\n"
  }

  /** The loop over the blocks. */
  method CleanBlocks(blocks: seq<Block>, passes: string -> string) returns (cleaned: seq<string>)
    ensures cleaned == AllCleaned(blocks, passes)
  {
    cleaned := [];
    var i := 0;
    while i < |blocks|
      invariant 0 <= i <= |blocks|
      invariant cleaned == AllCleaned(blocks[..i], passes)
    {
      assert blocks[..i + 1][..i] == blocks[..i];
      if blocks[i].fenced {
        cleaned := cleaned + [blocks[i].text];
      } else {
        cleaned := cleaned + [passes(blocks[i].text)];
      }
      i := i + 1;
    }
    assert blocks[..i] == blocks;
  }

  /** `clean_markdown`, whatever the passes do to the text outside code. */
  method CleanMarkdown(text: string, passes: string -> string) returns (clean: string)
    ensures IsCleaned(text, passes, clean)
  {
    hide WellSplit, AllLines, BlocksOf, AllCleaned, SplitLines, Strip, Concat;
    ghost var parts;
    var blocks;
    blocks, parts := SplitFencedBlocks(text);
    assert SplitsInto(text, blocks);
    var cleaned := CleanBlocks(blocks, passes);
    clean := Strip(Concat(cleaned)) + "\n";
  }

  /**
    Code survives cleaning: every fenced block's stripped text is in the output, and a block with visible
    output before and after it is there to the letter.
   */
  lemma {:induction false} CodeSurvives(text: string, parts: seq<Part>, passes: string -> string, i: nat)
    requires WellSplit(parts) && AllLines(parts) == SplitLines(text) && i < |parts| && parts[i].fenced
    ensures var outputs := AllCleaned(BlocksOf(parts), passes);
      var code, clean := Concat(parts[i].lines), Strip(Concat(outputs)) + "\n";
      && Contains(clean, Strip(code))
      && (!AllSpace(Concat(outputs[..i])) && !AllSpace(Concat(outputs[i + 1..])) ==> Contains(clean, code))
  {
    var outputs := AllCleaned(BlocksOf(parts), passes);
    var code := Concat(parts[i].lines);
    assert outputs[i] == code;
    FencedIsVisible(parts[i]);
    ConcatAround(outputs, i);
    hide AllCleaned, Concat, Strip, AllSpace, Contains, IsBlock, WellSplit, AllLines, SplitLines;
    StripKeepsParts(Concat(outputs[..i]), code, Concat(outputs[i + 1..]));
    ContainsAppend(Strip(Concat(outputs)), Strip(code), "\n");
    ContainsAppend(Strip(Concat(outputs)), code, "\n");
  }

  /** Everything else goes through the passes, and what they leave of it survives in the same way. */
  lemma {:induction false} ProseIsPassed(text: string, parts: seq<Part>, passes: string -> string, i: nat)
    requires WellSplit(parts) && AllLines(parts) == SplitLines(text) && i < |parts| && !parts[i].fenced
    ensures var outputs := AllCleaned(BlocksOf(parts), passes);
      var prose, clean := passes(Concat(parts[i].lines)), Strip(Concat(outputs)) + "\n";
      && Contains(clean, Strip(prose))
      && (!AllSpace(Concat(outputs[..i])) && !AllSpace(Concat(outputs[i + 1..])) ==> Contains(clean, prose))
  {
    var outputs := AllCleaned(BlocksOf(parts), passes);
    var prose := passes(Concat(parts[i].lines));
    assert outputs[i] == prose;
    ConcatAround(outputs, i);
    hide AllCleaned, Concat, AllSpace, Contains, IsBlock, WellSplit, AllLines, SplitLines, IsSpace, Leading, Trailing;
    var before, after := Concat(outputs[..i]), Concat(outputs[i + 1..]);
    if AllSpace(prose) {
      EmptyIsContained(Strip(Concat(outputs)));
      if !AllSpace(before) && !AllSpace(after) { BlankStays(before, prose, after); }
    } else {
      StripKeepsParts(before, prose, after);
    }
    hide Strip;
    ContainsAppend(Strip(Concat(outputs)), Strip(prose), "\n");
    ContainsAppend(Strip(Concat(outputs)), prose, "\n");
  }

  lemma EmptyIsContained(s: string)
    ensures Contains(s, "")
  {
    assert s[0..0] == "";
    assert OccursAt(s, "", 0);
  }

  lemma BlankStays(before: string, blank: string, after: string)
    requires !AllSpace(before) && !AllSpace(after)
    ensures Contains(Strip(before + blank + after), blank)
  {
    var all := before + blank + after;
    var at, end := |before|, |before| + |blank|;
    assert all[0..at] == before && all[at..end] == blank && all[end..|all|] == after;
    hide Strip, AllSpace, Contains;
    StripKeepsMiddle(all, at, end);
  }

  /** A document without fences is what the passes make of it, stripped and ended by a newline. */
  lemma {:induction false} WithoutFences(text: string, passes: string -> string, clean: string)
    requires IsCleaned(text, passes, clean) && forall l :: l in SplitLines(text) ==> Opener(l).None?
    ensures clean == Strip(passes(text)) + "\n"
  {
    hide Strip, Opener, IsSpace;
    var blocks :| SplitsInto(text, blocks) && clean == Strip(Concat(AllCleaned(blocks, passes))) + "\n";
    if text != "" {
      hide WellSplit, AllLines;
      OneOpenBlock(text, blocks);
    }
    assert blocks == [Block(false, text)];
    OneOutput(passes, text);
  }

  lemma OneOutput(passes: string -> string, text: string)
    ensures Concat(AllCleaned([Block(false, text)], passes)) == passes(text)
  {
    var out := AllCleaned([Block(false, text)], passes);
    assert out == [passes(text)];
    assert [passes(text)][1..] == [];
  }

  lemma {:induction false} OneOpenBlock(text: string, blocks: seq<Block>)
    requires text != "" && SplitsInto(text, blocks) && forall l :: l in SplitLines(text) ==> Opener(l).None?
    ensures blocks == [Block(false, text)]
  {
    hide Opener;
    var lines := SplitLines(text);
    SplitLinesConcat(text);
    assert lines != [];
    var parts := [Part(false, lines)];
    assert parts[1..] == [];
    assert AllLines(parts) == lines + [];
    assert IsBlock(parts[0]) by {
      forall k | 0 <= k < |lines| ensures Opener(lines[k]).None? { assert lines[k] in lines; }
    }
    assert WellSplit(parts);
    assert BlocksOf(parts) == [Block(false, text)] by {
      OneBlock(parts[0]);
    }
    SplitsIntoOne(text, blocks, BlocksOf(parts));
  }

  lemma OneBlock(p: Part)
    ensures BlocksOf([p]) == [Block(p.fenced, Concat(p.lines))]
  {
    hide Concat;
    assert [p][1..] == [] && [p][..0] == [];
  }

  lemma FencedIsVisible(p: Part)
    requires IsBlock(p) && p.fenced
    ensures !AllSpace(Concat(p.lines))
  {
    hide Opener;
    OpenerIsVisible(p.lines[0]);
    AllSpaceSplit(p.lines[0], Concat(p.lines[1..]));
  }

  lemma {:induction false} ConcatAround(texts: seq<string>, i: nat)
    requires i < |texts|
    ensures Concat(texts) == Concat(texts[..i]) + texts[i] + Concat(texts[i + 1..])
  {
    assert texts == texts[..i] + texts[i..];
    ConcatAppend(texts[..i], texts[i..]);
    AppendAssoc(Concat(texts[..i]), texts[i], Concat(texts[i + 1..]));
    assert texts[i..][1..] == texts[i + 1..];
  }

  lemma ContainsAppend(s: string, t: string, tail: string)
    ensures Contains(s, t) ==> Contains(s + tail, t)
  {
    if Contains(s, t) {
      var k: nat :| OccursAt(s, t, k);
      assert (s + tail)[k..k + |t|] == s[k..k + |t|];
      assert OccursAt(s + tail, t, k);
    }
  }
}
