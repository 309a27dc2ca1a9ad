/**
 * What the two aligners share: the source tag of a cell, the traceback
 * cursor with its two aligned strings, and the single traceback step.
 */
module Traceback {
  import opened Alphabet

  /** Which recurrence branch produced a cell; Default marks a cell never filled. */
  datatype Source = Default | MatchMismatch | Insertion | Deletion

  /** The column a traceback step emits and the cell it moves to. */
  datatype Move = Move(sym1: Sym, sym2: Sym, row: nat, col: nat)

  /**
   * One traceback step from cell (r, c) under tag t: a match/mismatch
   * consumes a byte of both inputs, an insertion one of s2, a deletion one
   * of s1.  The requires are the cursor's underflow checks.
   */
  function StepFrom(t: Source, s1: seq<byte>, s2: seq<byte>, r: nat, c: nat): (m: Move)
    requires r <= |s1| && c <= |s2|
    requires t != Default
    requires t == MatchMismatch ==> r >= 1 && c >= 1
    requires t == Insertion ==> c >= 1
    requires t == Deletion ==> r >= 1
    ensures m.row + m.col < r + c
    ensures !(m.sym1.Gap? && m.sym2.Gap?)
    ensures m.sym1.Gap? ==> m.row == r
    ensures !m.sym1.Gap? ==> m.row == r - 1 && m.sym1 == Base(s1[r - 1])
    ensures m.sym2.Gap? ==> m.col == c
    ensures !m.sym2.Gap? ==> m.col == c - 1 && m.sym2 == Base(s2[c - 1])
  {
    match t
    case MatchMismatch => Move(Base(s1[r - 1]), Base(s2[c - 1]), r - 1, c - 1)
    case Insertion => Move(Gap, Base(s2[c - 1]), r, c - 1)
    case Deletion => Move(Base(s1[r - 1]), Gap, r - 1, c)
  }

  /**
   * The strips of two aligned strings grow by a step's column exactly as
   * the covered input slices grow when the cursor moves back from
   * (m.row, m.col) to (r, c).
   */
  lemma StepStrip(m: Move, s1: seq<byte>, s2: seq<byte>, r: nat, c: nat, lo1: nat, lo2: nat, a1: seq<Sym>, a2: seq<Sym>)
    requires r <= |s1| && c <= |s2|
    requires m.sym1.Gap? ==> m.row == r
    requires !m.sym1.Gap? ==> m.row == r - 1 && m.sym1 == Base(s1[r - 1])
    requires m.sym2.Gap? ==> m.col == c
    requires !m.sym2.Gap? ==> m.col == c - 1 && m.sym2 == Base(s2[c - 1])
    requires lo1 <= m.row && lo2 <= m.col
    requires Strip(a1) == s1[lo1..m.row] && Strip(a2) == s2[lo2..m.col]
    ensures Strip(a1 + [m.sym1]) == s1[lo1..r]
    ensures Strip(a2 + [m.sym2]) == s2[lo2..c]
  {
    StripSnoc(a1, m.sym1);
    StripSnoc(a2, m.sym2);
    if !m.sym1.Gap? { assert s1[lo1..r] == s1[lo1..r - 1] + [s1[r - 1]]; }
    if !m.sym2.Gap? { assert s2[lo2..c] == s2[lo2..c - 1] + [s2[c - 1]]; }
  }

  /**
   * The traceback cursor: the two aligned strings, built back to front, and
   * the cell the cursor stands on.
   */
  class Aligner {
    var alignment1: seq<Sym>
    var alignment2: seq<Sym>
    var row: nat
    var col: nat

    constructor (length1: nat, length2: nat)
      ensures alignment1 == [] && alignment2 == []
      ensures row == length1 && col == length2
    {
      alignment1, alignment2 := [], [];
      row, col := length1, length2;
    }

    method ShiftMatchMismatch()
      requires row >= 1 && col >= 1
      modifies this
      ensures row == old(row) - 1 && col == old(col) - 1
      ensures alignment1 == old(alignment1) && alignment2 == old(alignment2)
    {
      row := row - 1;
      col := col - 1;
    }

    method ShiftInsertion()
      requires col >= 1
      modifies this
      ensures row == old(row) && col == old(col) - 1
      ensures alignment1 == old(alignment1) && alignment2 == old(alignment2)
    {
      col := col - 1;
    }

    method ShiftDeletion()
      requires row >= 1
      modifies this
      ensures row == old(row) - 1 && col == old(col)
      ensures alignment1 == old(alignment1) && alignment2 == old(alignment2)
    {
      row := row - 1;
    }
  }
}
