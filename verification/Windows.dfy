/**
  Forced token windows: the last resort of the splitter, for text that no separator cuts small
  enough. Each window is found by a binary search over prefix lengths.
 */
module Windows {
  import opened Text
  import opened Spans

  /** The prefix `text[start..e]` has at least one and at most `target` tokens. */
  predicate Fits(count: Counter, text: string, start: nat, target: nat, e: nat)
    requires start <= e <= |text|
  {
    0 < count(text[start..e]) <= target
  }

  function Mid(low: nat, high: nat): (mid: nat)
    requires low <= high
    ensures low <= mid <= high
  {
    (low + high) / 2
  }

  /** The binary search between `low` and `high`, with `best` the last window end that fitted. */
  function Probe(count: Counter, text: string, start: nat, target: nat, low: nat, high: nat, best: nat): (e: nat)
    requires start <= best < low && best <= high <= |text|
    ensures best <= e <= high
    decreases high + 1 - low
  {
    if low > high then best
    else
      var mid := Mid(low, high);
      if Fits(count, text, start, target, mid)
      then Probe(count, text, start, target, mid + 1, high, mid)
      else Probe(count, text, start, target, low, mid - 1, best)
  }

  function WindowEnd(count: Counter, text: string, start: nat, target: nat): (e: nat)
    requires start <= |text|
    ensures start <= e <= |text|
  {
    Probe(count, text, start, target, start + 1, |text|, start)
  }

  method BestTokenWindowEnd(count: Counter, text: string, startLocal: nat, target: nat) returns (best: nat)
    requires startLocal <= |text|
    ensures best == WindowEnd(count, text, startLocal, target)
  {
    hide Mid;
    var low, high := startLocal + 1, |text|;
    best := startLocal;
    while low <= high
      invariant startLocal <= best < low && best <= high <= |text|
      invariant Probe(count, text, startLocal, target, low, high, best) == WindowEnd(count, text, startLocal, target)
      decreases high + 1 - low
    {
      var mid := Mid(low, high);
      var tok := count(text[startLocal..mid]);
      if 0 < tok <= target {
        best := mid;
        low := mid + 1;
      } else {
        high := mid - 1;
      }
    }
  }

  /** `e` is `start`, or a window that fits; and one character more would not fit. */
  predicate LocallyMaximal(count: Counter, text: string, start: nat, target: nat, e: nat)
    requires start <= e <= |text|
  {
    && (e == start || Fits(count, text, start, target, e))
    && (e == |text| || !Fits(count, text, start, target, e + 1))
  }

  /** For every counter, the search ends at a fitting window that one more character would spoil. */
  lemma {:induction false} ProbeIsLocallyMaximal(count: Counter, text: string, start: nat, target: nat, low: nat, high: nat, best: nat)
    requires start <= best == low - 1 && best <= high <= |text|
    requires best == start || Fits(count, text, start, target, best)
    requires high == |text| || !Fits(count, text, start, target, high + 1)
    ensures LocallyMaximal(count, text, start, target, Probe(count, text, start, target, low, high, best))
    decreases high + 1 - low
  {
    hide Mid;
    if low <= high {
      var mid := Mid(low, high);
      if Fits(count, text, start, target, mid) {
        ProbeIsLocallyMaximal(count, text, start, target, mid + 1, high, mid);
      } else {
        ProbeIsLocallyMaximal(count, text, start, target, low, mid - 1, best);
      }
    }
  }

  /** A longer text never has fewer tokens than a part of it. */
  ghost predicate Monotone(count: Counter) {
    forall s: string, i: nat, j: nat :: i <= j <= |s| ==> count(s[i..j]) <= count(s)
  }

  /** Every single character has at least one token and at most `target`. */
  ghost predicate SinglesFit(count: Counter, target: nat) {
    forall c: char :: 0 < count([c]) <= target
  }

  /** With a monotone counter the binary search finds the longest prefix within the target. */
  lemma WindowIsLongest(count: Counter, text: string, start: nat, target: nat)
    requires Monotone(count) && SinglesFit(count, target) && start < |text|
    ensures start < WindowEnd(count, text, start, target)
    ensures forall e: nat :: start < e <= |text| ==>
      (count(text[start..e]) <= target <==> e <= WindowEnd(count, text, start, target))
  {
    hide Probe;
    var best := WindowEnd(count, text, start, target);
    ProbeIsLocallyMaximal(count, text, start, target, start + 1, |text|, start);
    assert text[start..start + 1] == [text[start]];
    forall e: nat | start < e <= |text|
      ensures 0 < count(text[start..e])
      ensures count(text[start..e]) <= target <==> e <= best
    {
      var s := text[start..e];
      assert s[0..1] == [text[start]];
      assert count(s[0..1]) <= count(s);
      if e <= best {
        var w := text[start..best];
        assert w[0..e - start] == s;
      } else {
        assert s[0..best + 1 - start] == text[start..best + 1];
        assert count(text[start..best + 1]) > 0 by {
          var t := text[start..best + 1];
          assert t[0..1] == [text[start]];
        }
      }
    }
  }

  /** The windows cut from `text[start..]`, whose first character sits at offset `base + start`. */
  function TokenWindows(count: Counter, text: string, base: nat, start: nat, target: nat): seq<Span>
    requires start <= |text|
    decreases |text| - start
  {
    if start == |text| then []
    else
      var best := WindowEnd(count, text, start, target);
      var e := if best <= start then start + 1 else best;
      [Span(text[start..e], base + start, base + e)] + TokenWindows(count, text, base, e, target)
  }

  lemma TokenWindowsUnfold(count: Counter, text: string, base: nat, start: nat, target: nat)
    requires start <= |text|
    ensures start == |text| ==> TokenWindows(count, text, base, start, target) == []
    ensures start < |text| ==>
      var e := WindowEnd(count, text, start, target);
      var e' := if e <= start then start + 1 else e;
      TokenWindows(count, text, base, start, target)
        == [Span(text[start..e'], base + start, base + e')] + TokenWindows(count, text, base, e', target)
  {
  }

  method SplitForceTokenWindows(count: Counter, span: Span, target: nat) returns (out: seq<Span>)
    ensures out == TokenWindows(count, span.text, span.start, 0, target)
  {
    hide Probe, WindowEnd, TokenWindows;
    var text := span.text;
    out := [];
    TokenWindowsUnfold(count, text, span.start, |text|, target);
    if text == "" { return; }
    var startLocal := 0;
    while startLocal < |text|
      invariant startLocal <= |text|
      invariant out + TokenWindows(count, text, span.start, startLocal, target) == TokenWindows(count, text, span.start, 0, target)
    {
      TokenWindowsUnfold(count, text, span.start, startLocal, target);
      var bestEnd := BestTokenWindowEnd(count, text, startLocal, target);
      if bestEnd <= startLocal {
        bestEnd := startLocal + 1;
      }
      var window := Span(text[startLocal..bestEnd], span.start + startLocal, span.start + bestEnd);
      AppendOne(out, window, TokenWindows(count, text, span.start, bestEnd, target));
      out := out + [window];
      startLocal := bestEnd;
    }
  }

  lemma {:induction false} WindowsTile(count: Counter, text: string, base: nat, start: nat, target: nat)
    requires start <= |text|
    ensures Tiles(TokenWindows(count, text, base, start, target), text, base, base + start, base + |text|)
    decreases |text| - start
  {
    hide Probe;
    if start < |text| {
      var best := WindowEnd(count, text, start, target);
      WindowsTile(count, text, base, if best <= start then start + 1 else best, target);
    }
  }

  /** A window that fits and cannot grow by one character, or a single character that does not fit. */
  ghost predicate FullWindow(count: Counter, text: string, base: nat, target: nat, w: Span) {
    && base <= w.start < w.end <= base + |text|
    && w.text == text[w.start - base..w.end - base]
    && var s, e := w.start - base, w.end - base;
      if Fits(count, text, s, target, e) then e == |text| || !Fits(count, text, s, target, e + 1)
      else e == s + 1
  }

  /** For every counter, each window is full; in particular it is within the target or one character long. */
  lemma {:induction false} WindowsAreFull(count: Counter, text: string, base: nat, start: nat, target: nat)
    requires start <= |text|
    ensures forall w :: w in TokenWindows(count, text, base, start, target) ==> FullWindow(count, text, base, target, w)
    decreases |text| - start
  {
    if start < |text| {
      FirstWindowIsFull(count, text, base, start, target);
      var first := TokenWindows(count, text, base, start, target)[0];
      WindowsAreFull(count, text, base, first.end - base, target);
    }
  }

  lemma FirstWindowIsFull(count: Counter, text: string, base: nat, start: nat, target: nat)
    requires start < |text|
    ensures var ws := TokenWindows(count, text, base, start, target);
      && ws != [] && FullWindow(count, text, base, target, ws[0])
      && start < ws[0].end - base
      && ws[1..] == TokenWindows(count, text, base, ws[0].end - base, target)
  {
    hide Probe;
    ProbeIsLocallyMaximal(count, text, start, target, start + 1, |text|, start);
    TokenWindowsUnfold(count, text, base, start, target);
  }

  /** For every counter, each window is within the target or a single character. */
  lemma WindowsBounded(count: Counter, text: string, base: nat, target: nat)
    ensures forall w :: w in TokenWindows(count, text, base, 0, target) ==> count(w.text) <= target || |w.text| == 1
  {
    WindowsAreFull(count, text, base, 0, target);
  }

  /** No way of cutting the text into pieces within the target uses fewer pieces than the windows. */
  lemma {:induction false} WindowsAreFewest(count: Counter, text: string, base: nat, target: nat, cut: seq<string>)
    requires Monotone(count) && SinglesFit(count, target)
    requires Concat(cut) == text
    requires forall i :: 0 <= i < |cut| ==> count(cut[i]) <= target
    ensures |TokenWindows(count, text, base, 0, target)| <= |cut|
  {
    GreedyStaysAhead(count, text, base, 0, 0, target, cut);
  }

  /** And the windows are themselves such a way, when every single character fits. */
  lemma WindowsFit(count: Counter, text: string, base: nat, target: nat)
    requires SinglesFit(count, target)
    ensures forall w :: w in TokenWindows(count, text, base, 0, target) ==> count(w.text) <= target
  {
    WindowsBounded(count, text, base, target);
    forall w | w in TokenWindows(count, text, base, 0, target)
      ensures count(w.text) <= target
    {
      if |w.text| == 1 { assert w.text == [w.text[0]]; }
    }
  }

  /** If the windows have already reached `b` where the cut is only at `a <= b`, they need no more pieces. */
  lemma {:induction false} GreedyStaysAhead(count: Counter, text: string, base: nat, a: nat, b: nat, target: nat, cut: seq<string>)
    requires Monotone(count) && SinglesFit(count, target)
    requires a <= b <= |text| && Concat(cut) == text[a..]
    requires forall i :: 0 <= i < |cut| ==> count(cut[i]) <= target
    ensures |TokenWindows(count, text, base, b, target)| <= |cut|
    decreases |cut|
  {
    if b < |text| {
      assert cut != [];
      var q := cut[0];
      var a' := a + |q|;
      assert text[a..] == q + Concat(cut[1..]);
      assert q == text[a..a'] && Concat(cut[1..]) == text[a'..];
      WindowIsLongest(count, text, b, target);
      var e := WindowEnd(count, text, b, target);
      if a' > b {
        assert q[b - a..|q|] == text[b..a'];
        assert count(q[b - a..|q|]) <= count(q);
      }
      GreedyStaysAhead(count, text, base, a', e, target, cut[1..]);
    }
  }
}
