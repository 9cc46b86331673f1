/** The constant digit-to-segment table both drivers share, and the wiring of
    the seven segment lines to GPIO numbers. */
module SegmentTable {
  import opened KernelTypes

  /** A 7-segment digit has seven lines; logical line i is GPIO Symbols[i]. */
  const Lines := 7

  type Row = r: seq<byte> | |r| == Lines witness [0, 0, 0, 0, 0, 0, 0]

  /** The value that means "nothing shown". */
  const Blank := -1

  /** Row d holds, for each logical line, whether digit d lights it (non-zero). */
  const Mask: seq<Row> := [
    [1, 1, 0, 1, 1, 1, 1],
    [0, 0, 0, 1, 0, 0, 1],
    [0, 1, 1, 0, 1, 1, 1],
    [1, 1, 1, 0, 1, 1, 0],
    [1, 0, 1, 1, 1, 0, 0],
    [1, 1, 1, 1, 0, 1, 0],
    [1, 1, 1, 1, 0, 1, 1],
    [1, 0, 0, 0, 1, 1, 0],
    [1, 1, 1, 1, 1, 1, 1],
    [1, 1, 1, 1, 1, 1, 0]
  ]

  /** GPIO numbers of the seven lines, in logical order. */
  const Symbols: seq<nat> := [5, 17, 22, 23, 24, 25, 27]

  /** Values the display can show: a digit or Blank. */
  predicate Showable(d: int) {
    Blank <= d <= 9
  }

  /** The levels of the seven lines while `d` is displayed (true is high). */
  function Pattern(d: int): (p: seq<bool>)
    requires Showable(d)
    ensures |p| == Lines
  {
    if d == Blank then seq(Lines, _ => false)
    else seq(Lines, i requires 0 <= i < Lines => Mask[d][i] != 0)
  }

  /** The table has ten rows of seven entries, and every entry is 0 or 1. */
  lemma MaskShape()
    ensures |Mask| == 10
    ensures forall d, i :: 0 <= d < 10 && 0 <= i < Lines ==> Mask[d][i] <= 1
  {
  }

  /** No two digits share a row, and 8 lights every segment. */
  lemma MaskRowsDistinct()
    ensures forall d, e :: 0 <= d < e < 10 ==> Mask[d] != Mask[e]
    ensures Mask[8] == [1, 1, 1, 1, 1, 1, 1]
  {
  }

  /** The line levels identify what is displayed: different values (a digit or
      Blank) never drive the same levels. */
  lemma PatternsDistinct(d: int, e: int)
    requires Showable(d) && Showable(e) && d != e
    ensures Pattern(d) != Pattern(e)
  {
    MaskShape();
    MaskRowsDistinct();
    var dark: Row := [0, 0, 0, 0, 0, 0, 0];
    if d == Blank || e == Blank {
      var x := if d == Blank then e else d;
      assert Mask[x] != dark;
      var i :| 0 <= i < Lines && Mask[x][i] != dark[i];
      assert Pattern(x)[i] != Pattern(Blank)[i];
    } else {
      assert Mask[d] != Mask[e] by {
        if d > e { assert Mask[e] != Mask[d]; }
      }
      var i :| 0 <= i < Lines && Mask[d][i] != Mask[e][i];
      assert Pattern(d)[i] != Pattern(e)[i];
    }
  }

  /** The seven lines are seven different GPIOs. */
  lemma SymbolsDistinct()
    ensures |Symbols| == Lines
    ensures forall i, j :: 0 <= i < j < Lines ==> Symbols[i] != Symbols[j]
  {
  }

  /** The levels for 7 and 3 and for a blank display, line by line. */
  lemma SamplePatterns()
    ensures Pattern(7) == [true, false, false, false, true, true, false]
    ensures Pattern(3) == [true, true, true, false, true, true, false]
    ensures Pattern(Blank) == [false, false, false, false, false, false, false]
  {
  }
}
