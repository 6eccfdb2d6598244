/** Text segments tied to offsets of a source document, and what it means for them to tile a range. */
module Spans {
  import opened Text

  /** A tokenizer is only known through the number of tokens it assigns to a text. */
  type Counter = string -> nat

  datatype Span = Span(text: string, start: nat, end: nat)

  function Texts(ps: seq<Span>): (r: seq<string>)
    ensures |r| == |ps|
    ensures forall i :: 0 <= i < |ps| ==> r[i] == ps[i].text
  {
    seq(|ps|, i requires 0 <= i < |ps| => ps[i].text)
  }

  /**
    The spans follow each other without gap or overlap from offset `lo` to offset `hi`, and each
    one carries exactly the characters of `src` between its offsets. `off` is the offset of `src[0]`.
   */
  ghost predicate Tiles(ps: seq<Span>, src: string, off: nat, lo: nat, hi: nat)
    decreases |ps|
  {
    if ps == [] then lo == hi
    else
      && off <= lo == ps[0].start < ps[0].end <= hi
      && ps[0].end - off <= |src|
      && ps[0].text == src[lo - off..ps[0].end - off]
      && Tiles(ps[1..], src, off, ps[0].end, hi)
  }

  lemma {:induction false} TilesAppend(a: seq<Span>, b: seq<Span>, src: string, off: nat, lo: nat, mid: nat, hi: nat)
    requires Tiles(a, src, off, lo, mid) && Tiles(b, src, off, mid, hi)
    ensures lo <= mid <= hi
    ensures Tiles(a + b, src, off, lo, hi)
    decreases |a|
  {
    TilesOrdered(b, src, off, mid, hi);
    if a == [] {
      assert a + b == b;
    } else {
      assert (a + b)[1..] == a[1..] + b;
      TilesAppend(a[1..], b, src, off, a[0].end, mid, hi);
    }
  }

  lemma {:induction false} TilesOrdered(ps: seq<Span>, src: string, off: nat, lo: nat, hi: nat)
    requires Tiles(ps, src, off, lo, hi)
    ensures lo <= hi
    ensures ps != [] ==> off <= lo < hi <= off + |src|
    ensures forall p :: p in ps ==> p.text != ""
    decreases |ps|
  {
    if ps != [] {
      TilesOrdered(ps[1..], src, off, ps[0].end, hi);
    }
  }

  /** Joining tiles gives back the text they tile. */
  lemma {:induction false} TilesConcat(ps: seq<Span>, src: string, off: nat, lo: nat, hi: nat)
    requires Tiles(ps, src, off, lo, hi) && ps != []
    ensures off <= lo < hi <= off + |src|
    ensures Concat(Texts(ps)) == src[lo - off..hi - off]
    ensures ps[0].start == lo && ps[|ps| - 1].end == hi
    decreases |ps|
  {
    TilesOrdered(ps, src, off, lo, hi);
    assert Texts(ps)[1..] == Texts(ps[1..]);
    if |ps| > 1 {
      TilesConcat(ps[1..], src, off, ps[0].end, hi);
      assert src[lo - off..hi - off] == src[lo - off..ps[0].end - off] + src[ps[0].end - off..hi - off];
    } else {
      assert Texts(ps[1..]) == [];
    }
  }

  /** Tiles of a piece of a text are tiles of the text. */
  lemma {:induction false} TilesRebase(ps: seq<Span>, piece: string, base: nat, lo: nat, hi: nat, src: string, off: nat)
    requires Tiles(ps, piece, base, lo, hi)
    requires off <= base && base - off + |piece| <= |src|
    requires piece == src[base - off..base - off + |piece|]
    ensures Tiles(ps, src, off, lo, hi)
    decreases |ps|
  {
    if ps != [] {
      TilesOrdered(ps, piece, base, lo, hi);
      SliceOfSlice(src, base - off, base - off + |piece|, lo - base, ps[0].end - base);
      TilesRebase(ps[1..], piece, base, ps[0].end, hi, src, off);
    }
  }
}
