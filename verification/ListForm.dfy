/** The list repair in closed form: what happens to each line, by its visible neighbours in the document as it was. */
module ListForm {
  import opened Options
  import opened Text
  import opened Lines
  import opened ListRepair

  function VisibleLines(lines: seq<string>): seq<string> {
    if lines == [] then []
    else (if Visible(lines[0]) then [lines[0]] else []) + VisibleLines(lines[1..])
  }

  /** How many visible lines come before line `i`. */
  function Rank(lines: seq<string>, i: nat): nat
    requires i <= |lines|
  {
    |VisibleLines(lines[..i])|
  }

  /** Visible line `k` stands between two items and is neither an item nor indented nor a boundary. */
  predicate Continues(digit: char -> bool, visible: seq<string>, k: nat) {
    && 0 < k < |visible| - 1
    && IsItem(digit, visible[k - 1]) && IsItem(digit, visible[k + 1]) && !IsItem(digit, visible[k])
    && !(" " <= visible[k]) && !("\t" <= visible[k]) && !IsBoundary(visible[k])
  }

  /** Where it does, it moves two columns beyond the indentation of the item before it. */
  function Shown(digit: char -> bool, visible: seq<string>, k: nat): string
    requires k < |visible|
  {
    if Continues(digit, visible, k) then Spaces(Leading(visible[k - 1]) + 2) + Strip(visible[k]) else visible[k]
  }

  /** Blank lines go exactly where the next visible line is one that moves. */
  function Reference(digit: char -> bool, lines: seq<string>, i: nat): seq<string>
    requires i <= |lines|
    decreases |lines| - i
  {
    if i == |lines| then []
    else
      var visible, k := VisibleLines(lines), Rank(lines, i);
      (if Visible(lines[i]) && k < |visible| then [Shown(digit, visible, k)]
       else if Continues(digit, visible, k) then [] else [lines[i]])
      + Reference(digit, lines, i + 1)
  }

  lemma {:induction false} VisibleConcat(a: seq<string>, b: seq<string>)
    ensures VisibleLines(a + b) == VisibleLines(a) + VisibleLines(b)
    decreases |a|
  {
    hide Visible;
    if a == [] {
      assert a + b == b;
    } else {
      VisibleConcat(a[1..], b);
      assert (a + b)[0] == a[0] && (a + b)[1..] == a[1..] + b;
    }
  }

  /** The visible lines from `i` on are those from rank `i` on. */
  lemma FromRank(lines: seq<string>, i: nat)
    requires i <= |lines|
    ensures var k := Rank(lines, i);
      k <= |VisibleLines(lines)| && VisibleLines(lines[i..]) == VisibleLines(lines)[k..]
  {
    VisibleConcat(lines[..i], lines[i..]);
    assert lines[..i] + lines[i..] == lines;
  }

  lemma RankStep(lines: seq<string>, i: nat)
    requires i < |lines|
    ensures Rank(lines, i + 1) == Rank(lines, i) + if Visible(lines[i]) then 1 else 0
    ensures Visible(lines[i]) ==> Rank(lines, i) < |VisibleLines(lines)| && VisibleLines(lines)[Rank(lines, i)] == lines[i]
  {
    hide Visible;
    assert lines[..i + 1] == lines[..i] + [lines[i]];
    VisibleConcat(lines[..i], [lines[i]]);
    assert [lines[i]][1..] == [];
    assert VisibleLines([lines[i]]) == if Visible(lines[i]) then [lines[i]] else [];
    FromRank(lines, i + 1);
    VisibleConcat(lines[..i + 1], lines[i + 1..]);
    assert lines[..i + 1] + lines[i + 1..] == lines;
  }

  /** The next visible line, and the one after it. */
  lemma {:induction false} NextVisible(lines: seq<string>)
    ensures var v := VisibleLines(lines);
      && FirstVisible(lines) == (if v == [] then None else Some(v[0]))
      && VisibleLines(AfterVisible(lines)) == (if v == [] then [] else v[1..])
    decreases |lines|
  {
    hide Visible;
    if lines != [] {
      NextVisible(lines[1..]);
    }
  }

  lemma FirstFrom(lines: seq<string>, i: nat)
    requires i <= |lines|
    ensures var v, k := VisibleLines(lines), Rank(lines, i);
      && FirstVisible(lines[i..]) == (if k < |v| then Some(v[k]) else None)
      && FirstVisible(AfterVisible(lines[i..])) == (if k + 1 < |v| then Some(v[k + 1]) else None)
  {
    FromRank(lines, i);
    NextVisible(lines[i..]);
    NextVisible(AfterVisible(lines[i..]));
  }

  /** A line that moves was no item and is none; one that stays is what it was. */
  lemma ShownIsItem(digit: char -> bool, visible: seq<string>, k: nat)
    requires k < |visible| && Visible(visible[k])
    ensures IsItem(digit, Shown(digit, visible, k)) == IsItem(digit, visible[k])
    ensures IsItem(digit, visible[k]) ==> Shown(digit, visible, k) == visible[k]
  {
    hide IsItem, Visible, IsBoundary;
    if Continues(digit, visible, k) {
      MovedIsNoItem(digit, Leading(visible[k - 1]) + 2, visible[k]);
    }
  }

  lemma {:induction false} AllVisible(lines: seq<string>, k: nat)
    requires k < |VisibleLines(lines)|
    ensures Visible(VisibleLines(lines)[k])
    decreases |lines|
  {
    hide Visible;
    if Visible(lines[0]) {
      if k > 0 { AllVisible(lines[1..], k - 1); }
    } else {
      AllVisible(lines[1..], k);
    }
  }

  /** The last visible line so far, as the repair has placed it. */
  function Before(digit: char -> bool, visible: seq<string>, k: nat): Option<string>
    requires k <= |visible|
  {
    if k == 0 then None else Some(Shown(digit, visible, k - 1))
  }

  /** What the repair sees at visible line `k` is what the closed form asks. */
  lemma IndentIs(digit: char -> bool, visible: seq<string>, k: nat)
    requires k < |visible| && forall i :: 0 <= i < |visible| ==> Visible(visible[i])
    ensures var next := if k + 1 < |visible| then Some(visible[k + 1]) else None;
      Indent(digit, Before(digit, visible, k), visible[k], next)
      == if Continues(digit, visible, k) then Some(Leading(visible[k - 1]) + 2) else None
  {
    hide IsItem, IsBoundary, Visible, Shown, Leading;
    if k > 0 {
      ShownIsItem(digit, visible, k - 1);
    }
  }

  lemma DropsIs(digit: char -> bool, lines: seq<string>, i: nat)
    requires i < |lines| && !Visible(lines[i])
    ensures var visible, k := VisibleLines(lines), Rank(lines, i);
      k <= |visible| && (DropsBlank(digit, Before(digit, visible, k), lines[i + 1..]) <==> Continues(digit, visible, k))
  {
    hide IsItem, IsBoundary, Visible, Indent, Shown, VisibleLines, FirstVisible, AfterVisible, Rank;
    var visible, k := VisibleLines(lines), Rank(lines, i);
    FromRank(lines, i);
    RankStep(lines, i);
    FirstFrom(lines, i + 1);
    forall m | 0 <= m < |visible| ensures Visible(visible[m]) {
      AllVisible(lines, m);
    }
    if k < |visible| {
      IndentIs(digit, visible, k);
      if k > 0 {
        ShownIsItem(digit, visible, k - 1);
      }
    }
  }

  /** The repair, from line `i` on, is the closed form from line `i` on. */
  lemma {:induction false} RepairedFrom(digit: char -> bool, lines: seq<string>, i: nat)
    requires i <= |lines|
    ensures Rank(lines, i) <= |VisibleLines(lines)|
    ensures Repaired(digit, Before(digit, VisibleLines(lines), Rank(lines, i)), lines[i..]) == Reference(digit, lines, i)
    decreases |lines| - i
  {
    hide IsItem, IsBoundary, Visible, Indent, Shown, VisibleLines, FirstVisible, AfterVisible, Rank, DropsBlank, Continues;
    FromRank(lines, i);
    if i < |lines| {
      var visible, k := VisibleLines(lines), Rank(lines, i);
      RankStep(lines, i);
      RepairedFrom(digit, lines, i + 1);
      assert lines[i..][1..] == lines[i + 1..];
      if Visible(lines[i]) {
        forall m | 0 <= m < |visible| ensures Visible(visible[m]) {
          AllVisible(lines, m);
        }
        FirstFrom(lines, i + 1);
        IndentIs(digit, visible, k);
        ShownUnfold(digit, visible, k);
      } else {
        DropsIs(digit, lines, i);
      }
    }
  }

  lemma ShownUnfold(digit: char -> bool, visible: seq<string>, k: nat)
    requires k < |visible|
    ensures Shown(digit, visible, k)
         == if Continues(digit, visible, k) then Spaces(Leading(visible[k - 1]) + 2) + Strip(visible[k]) else visible[k]
  {
  }

  /**
    The repair of a document, line by line and without recursion on what was repaired before: a line moves exactly
    when it continues an item, to two columns beyond that item's indentation, and takes no blank line along.
   */
  lemma {:induction false} RepairedIsReference(digit: char -> bool, lines: seq<string>)
    ensures Repaired(digit, None, lines) == Reference(digit, lines, 0)
  {
    hide VisibleLines, Repaired, Reference, Shown;
    RepairedFrom(digit, lines, 0);
    assert lines[..0] == [] && lines[0..] == lines;
    NoneBefore();
  }

  lemma NoneBefore()
    ensures VisibleLines([]) == []
  {
  }
}
