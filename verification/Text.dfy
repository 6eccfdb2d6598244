/** Optional values, as returned by lookups that may find nothing. */
module Options {
  datatype Option<+T> = None | Some(value: T)
}

/**
  The string operations the Python code relies on: whitespace in the sense of `str.isspace`,
  stripping, clamped slicing, leftmost search and newline replacement.
 */
module Text {
  import opened Options

  /** The characters `str.isspace`, `str.strip` and the regular-expression class `\s` agree on. */
  predicate IsSpace(c: char) {
    || '\t' <= c <= '\r'
    || '\U{1C}' <= c <= ' '
    || c == '\U{85}' || c == '\U{A0}' || c == '\U{1680}'
    || '\U{2000}' <= c <= '\U{200A}'
    || c == '\U{2028}' || c == '\U{2029}' || c == '\U{202F}' || c == '\U{205F}' || c == '\U{3000}'
  }

  predicate AllSpace(s: string) {
    forall i :: 0 <= i < |s| ==> IsSpace(s[i])
  }

  /** How many characters `lstrip` removes. */
  function Leading(s: string): (n: nat)
    ensures n <= |s|
    ensures forall i :: 0 <= i < n ==> IsSpace(s[i])
    ensures n < |s| ==> !IsSpace(s[n])
  {
    if s != "" && IsSpace(s[0]) then 1 + Leading(s[1..]) else 0
  }

  /** How many characters `rstrip` removes. */
  function Trailing(s: string): (n: nat)
    ensures n <= |s|
    ensures forall i :: |s| - n <= i < |s| ==> IsSpace(s[i])
    ensures n < |s| ==> !IsSpace(s[|s| - n - 1])
  {
    if s != "" && IsSpace(s[|s| - 1]) then 1 + Trailing(s[..|s| - 1]) else 0
  }

  function Strip(s: string): string {
    if AllSpace(s) then "" else
      assert Leading(s) + Trailing(s) <= |s| by { EndsMeet(s); }
      s[Leading(s)..|s| - Trailing(s)]
  }

  /** In a string that is not all whitespace, the two strips do not overlap. */
  lemma EndsMeet(s: string)
    requires !AllSpace(s)
    ensures Leading(s) + Trailing(s) < |s|
  {
    var i :| 0 <= i < |s| && !IsSpace(s[i]);
    assert Leading(s) <= i < |s| - Trailing(s);
  }

  /** What stripping a visible text leaves, and that it starts and ends with visible characters. */
  lemma {:induction false} StripIs(s: string)
    requires !AllSpace(s)
    ensures Leading(s) + Trailing(s) < |s| && Strip(s) == s[Leading(s)..|s| - Trailing(s)]
    ensures !IsSpace(s[Leading(s)]) && !IsSpace(s[|s| - Trailing(s) - 1])
  {
    hide IsSpace, Leading, Trailing;
    EndsMeet(s);
  }

  /** Where visible text starts and ends is where stripping stops. */
  lemma StripsTo(s: string, a: nat, b: nat)
    requires a < b <= |s| && !IsSpace(s[a]) && !IsSpace(s[b - 1])
    requires (forall i :: 0 <= i < a ==> IsSpace(s[i])) && forall i :: b <= i < |s| ==> IsSpace(s[i])
    ensures !AllSpace(s) && Leading(s) == a && Trailing(s) == |s| - b && Strip(s) == s[a..b]
  {
    hide IsSpace;
    StripIs(s);
  }

  /** Leading whitespace ends at or before any visible character, trailing whitespace starts after it. */
  lemma VisibleCharacter(s: string, i: nat)
    requires i < |s| && !IsSpace(s[i])
    ensures !AllSpace(s) && Leading(s) <= i < |s| - Trailing(s)
  {
    hide IsSpace;
  }

  /** `s[i:j]` for non-negative bounds: the bounds are clamped, never an error. */
  function PySlice(s: string, i: nat, j: nat): (r: string)
    ensures i <= j <= |s| ==> r == s[i..j]
    ensures i <= j ==> |r| <= j - i
    ensures i > j ==> r == ""
  {
    var hi := if j <= |s| then j else |s|;
    if i >= hi then "" else s[i..hi]
  }

  lemma SliceOfSlice<T>(s: seq<T>, i: nat, j: nat, k: nat, l: nat)
    requires i <= j <= |s| && k <= l <= j - i
    ensures s[i..j][k..l] == s[i + k..i + l]
  {
    forall m | 0 <= m < l - k ensures s[i..j][k..l][m] == s[i + k..i + l][m] {
      assert s[i..j][k + m] == s[i + k + m];
    }
  }

  lemma AppendAssoc<T>(a: seq<T>, b: seq<T>, c: seq<T>)
    ensures (a + b) + c == a + (b + c)
  {
  }

  lemma AppendOne<T>(done: seq<T>, x: T, rest: seq<T>)
    ensures (done + [x]) + rest == done + ([x] + rest)
  {
  }

  /** `s.find(pat)`: the leftmost occurrence, if there is one. */
  function Find<T(==)>(s: seq<T>, pat: seq<T>): (r: Option<nat>)
    ensures r.Some? ==> r.value + |pat| <= |s|
  {
    if pat <= s then Some(0)
    else if s == [] then None
    else
      match Find(s[1..], pat)
      case None => None
      case Some(k) => Some(k + 1)
  }

  lemma {:induction false} FindIsLeftmost<T>(s: seq<T>, pat: seq<T>)
    ensures var r := Find(s, pat);
      && (r.Some? ==> OccursAt(s, pat, r.value))
      && forall k: nat :: (r.Some? ==> k < r.value) ==> !OccursAt(s, pat, k)
  {
    if pat <= s {
      assert s[0..0 + |pat|] == pat;
    } else if s != [] {
      FindIsLeftmost(s[1..], pat);
      forall k: nat | k > 0 ensures OccursAt(s, pat, k) <==> OccursAt(s[1..], pat, k - 1) {
        if k + |pat| <= |s| { assert s[k..k + |pat|] == s[1..][k - 1..k - 1 + |pat|]; }
      }
    }
  }

  /** An occurrence with none before it is the one `Find` reports. */
  lemma FindIsUnique<T>(s: seq<T>, pat: seq<T>, k: nat)
    requires OccursAt(s, pat, k)
    requires forall m: nat :: m < k ==> !OccursAt(s, pat, m)
    ensures Find(s, pat) == Some(k)
  {
    FindIsLeftmost(s, pat);
  }

  predicate OccursAt<T(==)>(s: seq<T>, pat: seq<T>, k: nat) {
    k + |pat| <= |s| && s[k..k + |pat|] == pat
  }

  function Concat(parts: seq<string>): string {
    if parts == [] then "" else parts[0] + Concat(parts[1..])
  }

  lemma {:induction false} ConcatAppend(a: seq<string>, b: seq<string>)
    ensures Concat(a + b) == Concat(a) + Concat(b)
  {
    if a == [] {
      assert a + b == b;
    } else {
      assert (a + b)[1..] == a[1..] + b;
      ConcatAppend(a[1..], b);
    }
  }

  /** `s.split(c)` for a single character. */
  function SplitAt(s: string, c: char): (r: seq<string>)
    ensures r != []
  {
    if s == "" then [""]
    else
      var rest := SplitAt(s[1..], c);
      if s[0] == c then [""] + rest else [s[..1] + rest[0]] + rest[1..]
  }

  lemma {:induction false} SplitAtLeavesNone(s: string, c: char)
    ensures forall i :: 0 <= i < |SplitAt(s, c)| ==> c !in SplitAt(s, c)[i]
    decreases |s|
  {
    if s != "" {
      SplitAtLeavesNone(s[1..], c);
    }
  }

  /** The first piece ends at the first separator. */
  lemma {:induction false} SplitAtFirst(piece: string, c: char, rest: string)
    requires c !in piece
    ensures SplitAt(piece, c) == [piece]
    ensures SplitAt(piece + [c] + rest, c) == [piece] + SplitAt(rest, c)
    decreases |piece|
  {
    var s := piece + [c] + rest;
    if piece == "" {
      assert s[0] == c && s[1..] == rest;
    } else {
      var s' := piece[1..] + [c] + rest;
      SplitAtFirst(piece[1..], c, rest);
      assert s[0] == piece[0] && s[1..] == s' && s[..1] == piece[..1];
      assert piece == piece[..1] + piece[1..];
      assert SplitAt(s', c)[0] == piece[1..] && SplitAt(s', c)[1..] == SplitAt(rest, c);
    }
  }

  /** `text.replace("\r\n", "\n")`. */
  function ReplaceCrLf(s: string): (r: string)
    ensures |r| <= |s|
  {
    if |s| >= 2 && s[0] == '\r' && s[1] == '\n' then "\n" + ReplaceCrLf(s[2..])
    else if s == "" then ""
    else s[..1] + ReplaceCrLf(s[1..])
  }

  /** `text.replace("\r", "\n")`. */
  function ReplaceCr(s: string): (r: string)
    ensures |r| == |s|
    ensures forall i :: 0 <= i < |s| ==> r[i] == if s[i] == '\r' then '\n' else s[i]
  {
    if s == "" then "" else [if s[0] == '\r' then '\n' else s[0]] + ReplaceCr(s[1..])
  }

  function NormalizeNewlines(s: string): string {
    ReplaceCr(ReplaceCrLf(s))
  }

  predicate NoCrLf(s: string) {
    forall i :: 0 <= i < |s| - 1 ==> !(s[i] == '\r' && s[i + 1] == '\n')
  }

  lemma {:induction false} NoCrLfUnchanged(s: string)
    requires NoCrLf(s)
    ensures ReplaceCrLf(s) == s
  {
    if s != "" {
      NoCrLfUnchanged(s[1..]);
      assert s == s[..1] + s[1..];
    }
  }

  lemma NoCrUnchanged(s: string)
    requires '\r' !in s
    ensures NormalizeNewlines(s) == s
  {
    NoCrLfUnchanged(s);
  }

  /** Without a CR LF pair the normalisation works character by character, so it commutes with slicing. */
  lemma NormalizeSlice(s: string, i: nat, j: nat)
    requires NoCrLf(s) && i <= j <= |s|
    ensures |NormalizeNewlines(s)| == |s|
    ensures NormalizeNewlines(s[i..j]) == NormalizeNewlines(s)[i..j]
  {
    NoCrLfUnchanged(s);
    NoCrLfUnchanged(s[i..j]);
  }

  /** Newline normalisation neither makes nor removes visible text. */
  lemma {:induction false} ReplaceCrLfSpace(s: string)
    ensures AllSpace(ReplaceCrLf(s)) <==> AllSpace(s)
    ensures ReplaceCrLf(s) == "" <==> s == ""
    decreases |s|
  {
    if |s| >= 2 && s[0] == '\r' && s[1] == '\n' {
      ReplaceCrLfSpace(s[2..]);
      AllSpaceSplit("\n", ReplaceCrLf(s[2..]));
      AllSpaceSplit(s[..2], s[2..]);
      assert s == s[..2] + s[2..];
    } else if s != "" {
      ReplaceCrLfSpace(s[1..]);
      AllSpaceSplit(s[..1], ReplaceCrLf(s[1..]));
      AllSpaceSplit(s[..1], s[1..]);
      assert s == s[..1] + s[1..];
    }
  }

  lemma AllSpaceSplit(a: string, b: string)
    ensures AllSpace(a + b) <==> AllSpace(a) && AllSpace(b)
  {
    if AllSpace(a + b) {
      forall i | 0 <= i < |b| ensures IsSpace(b[i]) { assert (a + b)[|a| + i] == b[i]; }
      forall i | 0 <= i < |a| ensures IsSpace(a[i]) { assert (a + b)[i] == a[i]; }
    }
  }

  lemma NormalizeSpace(s: string)
    ensures AllSpace(NormalizeNewlines(s)) <==> AllSpace(s)
    ensures NormalizeNewlines(s) == "" <==> s == ""
  {
    ReplaceCrLfSpace(s);
    var t := ReplaceCrLf(s);
    var r := ReplaceCr(t);
    assert forall i :: 0 <= i < |t| ==> (IsSpace(r[i]) <==> IsSpace(t[i]));
  }

  /**
    Normalising, from the first CR on: a CR LF pair becomes one LF, and so does a CR on its own. With
    `NoCrUnchanged` this is all there is to know about it.
   */
  lemma {:induction false} NormalizeAtFirstCr(a: string, b: string)
    requires '\r' !in a
    ensures NormalizeNewlines(a + "\r\n" + b) == a + "\n" + NormalizeNewlines(b)
    ensures b == "" || b[0] != '\n' ==> NormalizeNewlines(a + "\r" + b) == a + "\n" + NormalizeNewlines(b)
    decreases |a|
  {
    hide NormalizeNewlines;
    var s, t := a + "\r\n" + b, a + "\r" + b;
    if a == "" {
      NormalizeCr(b);
      assert s == "\r\n" + b && t == "\r" + b;
    } else {
      NormalizeAtFirstCr(a[1..], b);
      assert a[0] != '\r';
      assert s[0] == a[0] && s[1..] == a[1..] + "\r\n" + b;
      assert t[0] == a[0] && t[1..] == a[1..] + "\r" + b;
      NormalizeStep(s);
      NormalizeStep(t);
    }
  }

  lemma NormalizeCr(b: string)
    ensures NormalizeNewlines("\r\n" + b) == "\n" + NormalizeNewlines(b)
    ensures b == "" || b[0] != '\n' ==> NormalizeNewlines("\r" + b) == "\n" + NormalizeNewlines(b)
  {
    assert ("\r\n" + b)[2..] == b && ("\r" + b)[1..] == b;
    assert ReplaceCrLf("\r\n" + b) == "\n" + ReplaceCrLf(b);
    assert ("\n" + ReplaceCrLf(b))[1..] == ReplaceCrLf(b);
    if b == "" || b[0] != '\n' {
      assert ReplaceCrLf("\r" + b) == "\r" + ReplaceCrLf(b);
      assert ("\r" + ReplaceCrLf(b))[1..] == ReplaceCrLf(b);
    }
  }

  lemma NormalizeStep(s: string)
    requires s != "" && s[0] != '\r'
    ensures NormalizeNewlines(s) == [s[0]] + NormalizeNewlines(s[1..])
  {
    assert ReplaceCrLf(s) == s[..1] + ReplaceCrLf(s[1..]);
    assert (s[..1] + ReplaceCrLf(s[1..]))[1..] == ReplaceCrLf(s[1..]);
  }
}
