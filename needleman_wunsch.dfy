/**
 * Space-optimised Needleman-Wunsch global alignment.  The longer input
 * indexes the rows.  Costs: a mismatch 1, the first step of a run of
 * insertions or of deletions 1, each further step of the same run 0; the
 * boundary cells cost their index.  Scores live in two rolling rows, the
 * source tag of every cell in a full grid, and the traceback replays the
 * tags from the bottom-right cell to the origin.
 */
module NeedlemanWunsch {
  import opened Alphabet
  import opened Traceback

  /** A score together with the recurrence branch that produced it. */
  datatype Entry = Entry(value: nat, source: Source)

  function Penalty(b: bool): nat
  {
    if b then 1 else 0
  }

  /**
   * The cheapest of the three candidates; on a tie match/mismatch wins over
   * deletion, and deletion over insertion.
   */
  function Choose(mm: nat, ins: nat, del: nat): (e: Entry)
    ensures e.value <= mm && e.value <= ins && e.value <= del
    ensures e.source != Default
    ensures e.source == MatchMismatch ==> e.value == mm
    ensures e.source == Deletion ==> e.value == del < mm
    ensures e.source == Insertion ==> e.value == ins < mm && ins < del
  {
    if mm <= ins && mm <= del then Entry(mm, MatchMismatch)
    else if del <= ins then Entry(del, Deletion)
    else Entry(ins, Insertion)
  }

  /**
   * Cell (r, c) of the grid over s1 (rows) and s2 (columns): row 0 holds
   * (c, Insertion), column 0 below it (r, Deletion), and an interior cell
   * the choice among its diagonal, insertion and deletion candidates.
   */
  function Cell(s1: seq<byte>, s2: seq<byte>, r: nat, c: nat): Entry
    requires r <= |s1| && c <= |s2|
    decreases r + c, |s1|
  {
    if r == 0 then Entry(c, Insertion)
    else if c == 0 then Entry(r, Deletion)
    else
      var diag, left, up := Cell(s1, s2, r - 1, c - 1), Cell(s1, s2, r, c - 1), Cell(s1, s2, r - 1, c);
      Choose(diag.value + Penalty(s1[r - 1] != s2[c - 1]),
             left.value + Penalty(left.source != Insertion),
             up.value + Penalty(up.source != Deletion))
  }

  /**
   * The tag grid: row 0 is all Insertion, column 0 below it all Deletion,
   * and no cell other than the origin is Default.
   */
  lemma TagGridShape(s1: seq<byte>, s2: seq<byte>)
    ensures forall c :: 0 <= c <= |s2| ==> Cell(s1, s2, 0, c) == Entry(c, Insertion)
    ensures forall r :: 1 <= r <= |s1| ==> Cell(s1, s2, r, 0) == Entry(r, Deletion)
    ensures forall r, c :: 1 <= r <= |s1| && 1 <= c <= |s2| ==> Cell(s1, s2, r, c).source != Default
  {
  }

  /**
   * The aligned pair the traceback builds from cell (r, c) back to the
   * origin, in output order (the source pushes and then reverses).
   */
  function Trace(s1: seq<byte>, s2: seq<byte>, r: nat, c: nat): (t: (seq<Sym>, seq<Sym>))
    requires r <= |s1| && c <= |s2|
    decreases r + c, |s1|
  {
    if r == 0 && c == 0 then ([], [])
    else
      var m := StepFrom(Cell(s1, s2, r, c).source, s1, s2, r, c);
      var t := Trace(s1, s2, m.row, m.col);
      (t.0 + [m.sym1], t.1 + [m.sym2])
  }

  /**
   * The traceback from (r, c) is an alignment of s1[..r] with s2[..c]: both
   * strings equally long, no column a gap in both, gaps removed each gives
   * back its input prefix, and it takes at most r + c steps.
   */
  lemma {:induction false} TraceCorrect(s1: seq<byte>, s2: seq<byte>, r: nat, c: nat)
    requires r <= |s1| && c <= |s2|
    ensures Aligned(Trace(s1, s2, r, c).0, Trace(s1, s2, r, c).1)
    ensures Strip(Trace(s1, s2, r, c).0) == s1[..r]
    ensures Strip(Trace(s1, s2, r, c).1) == s2[..c]
    ensures |Trace(s1, s2, r, c).0| <= r + c
    decreases r + c
  {
    if r != 0 || c != 0 {
      var m := StepFrom(Cell(s1, s2, r, c).source, s1, s2, r, c);
      var t := Trace(s1, s2, m.row, m.col);
      TraceCorrect(s1, s2, m.row, m.col);
      StepStrip(m, s1, s2, r, c, 0, 0, t.0, t.1);
      AlignedSnoc(t.0, t.1, m.sym1, m.sym2);
    }
  }

  /** needleman_wunsch(seq1, seq2): the longer input is aligned as the first (row) string. */
  function GlobalAlignment(s1: seq<byte>, s2: seq<byte>): (seq<Sym>, seq<Sym>)
    decreases if |s1| < |s2| then 1 else 0
  {
    if |s1| < |s2| then GlobalAlignment(s2, s1) else Trace(s1, s2, |s1|, |s2|)
  }

  /** A shorter first argument is swapped; equal lengths are not. */
  lemma GlobalAlignmentSwap(s1: seq<byte>, s2: seq<byte>)
    requires |s1| < |s2|
    ensures GlobalAlignment(s1, s2) == GlobalAlignment(s2, s1)
  {
  }

  /**
   * Whatever the argument order, the result aligns the longer input (first)
   * with the shorter one (second), and gaps removed gives each back exactly.
   */
  lemma GlobalAlignmentCorrect(s1: seq<byte>, s2: seq<byte>)
    ensures Aligned(GlobalAlignment(s1, s2).0, GlobalAlignment(s1, s2).1)
    ensures Strip(GlobalAlignment(s1, s2).0) == if |s1| < |s2| then s2 else s1
    ensures Strip(GlobalAlignment(s1, s2).1) == if |s1| < |s2| then s1 else s2
    ensures |GlobalAlignment(s1, s2).0| <= |s1| + |s2|
  {
    if |s1| < |s2| {
      TraceCorrect(s2, s1, |s2|, |s1|);
      assert s2[..|s2|] == s2 && s1[..|s1|] == s1;
    } else {
      TraceCorrect(s1, s2, |s1|, |s2|);
      assert s1[..|s1|] == s1 && s2[..|s2|] == s2;
    }
  }

  /** An interior cell computed from the values of its three neighbours. */
  lemma CellFrom(s1: seq<byte>, s2: seq<byte>, r: nat, c: nat, diag: Entry, left: Entry, up: Entry)
    requires 1 <= r <= |s1| && 1 <= c <= |s2|
    requires Cell(s1, s2, r - 1, c - 1) == diag && Cell(s1, s2, r, c - 1) == left && Cell(s1, s2, r - 1, c) == up
    ensures Cell(s1, s2, r, c) == Choose(diag.value + Penalty(s1[r - 1] != s2[c - 1]),
                                         left.value + Penalty(left.source != Insertion),
                                         up.value + Penalty(up.source != Deletion))
  {
  }

  /** One traceback step from (r, c), given the traceback of the cell it moves to. */
  lemma TraceFrom(s1: seq<byte>, s2: seq<byte>, r: nat, c: nat, rest1: seq<Sym>, rest2: seq<Sym>, sym1: Sym, sym2: Sym)
    requires r <= |s1| && c <= |s2| && (r > 0 || c > 0)
    requires var m := StepFrom(Cell(s1, s2, r, c).source, s1, s2, r, c);
      Trace(s1, s2, m.row, m.col).0 == rest1 && Trace(s1, s2, m.row, m.col).1 == rest2 && m.sym1 == sym1 && m.sym2 == sym2
    ensures Trace(s1, s2, r, c).0 == rest1 + [sym1] && Trace(s1, s2, r, c).1 == rest2 + [sym2]
  {
  }

  /** Aligning a string with itself costs nothing along the diagonal, every diagonal cell a match. */
  lemma {:induction false} DiagonalCells(s: seq<byte>, k: nat)
    requires k <= |s|
    ensures Cell(s, s, k, k) == Entry(0, if k == 0 then Insertion else MatchMismatch)
  {
    if k > 0 {
      DiagonalCells(s, k - 1);
    }
  }

  /** The traceback along the diagonal pairs every symbol with itself. */
  lemma {:induction false} TraceSelf(s: seq<byte>, k: nat)
    requires k <= |s|
    ensures Trace(s, s, k, k) == (Syms(s[..k]), Syms(s[..k]))
  {
    if k > 0 {
      DiagonalCells(s, k);
      TraceSelf(s, k - 1);
      assert s[..k][..k - 1] == s[..k - 1];
    }
  }

  /** A string aligned with itself comes back unchanged and gap-free on both sides. */
  lemma GlobalAlignmentSelf(s: seq<byte>)
    ensures GlobalAlignment(s, s) == (Syms(s), Syms(s))
  {
    TraceSelf(s, |s|);
    assert s[..|s|] == s;
  }

  /**
   * The events of column i of an alignment under the documented cost model:
   * 1 for a mismatch, 1 for the first gap of a run in either string, 0 for
   * a match or a gap that extends a run.
   */
  function ColumnEvents(a1: seq<Sym>, a2: seq<Sym>, i: nat): nat
    requires i < |a1| == |a2|
  {
    match (a1[i], a2[i])
    case (Base(x), Base(y)) => if x != y then 1 else 0
    case (Gap, _) => if i == 0 || !a1[i - 1].Gap? then 1 else 0
    case (Base(_), Gap) => if i == 0 || !a2[i - 1].Gap? then 1 else 0
  }

  /** The mutation events of the first k columns: mismatches plus runs of insertions or deletions. */
  function EventsUpTo(a1: seq<Sym>, a2: seq<Sym>, k: nat): nat
    requires k <= |a1| == |a2|
  {
    if k == 0 then 0 else EventsUpTo(a1, a2, k - 1) + ColumnEvents(a1, a2, k - 1)
  }

  /** The mutation events of a whole alignment. */
  function MutationEvents(a1: seq<Sym>, a2: seq<Sym>): nat
    requires |a1| == |a2|
  {
    EventsUpTo(a1, a2, |a1|)
  }

  /** k gap symbols. */
  function Gaps(k: nat): (r: seq<Sym>)
    ensures |r| == k
  {
    seq(k, _ => Gap)
  }

  /** Against an empty second input the traceback runs down column 0, pairing every byte with a gap. */
  lemma {:induction false} TraceColumn(s: seq<byte>, k: nat)
    requires k <= |s|
    ensures Trace(s, [], k, 0) == (Syms(s[..k]), Gaps(k))
  {
    if k > 0 {
      TraceColumn(s, k - 1);
      SymsPrefix(s, k);
      assert Gaps(k) == Gaps(k - 1) + [Gap];
    }
  }

  /** A string paired with gaps holds a single run of deletions. */
  lemma {:induction false} DeletionRunEvents(s: seq<byte>, k: nat)
    requires 1 <= k <= |s|
    ensures EventsUpTo(Syms(s), Gaps(|s|), k) == 1
  {
    if k > 1 {
      DeletionRunEvents(s, k - 1);
      assert Gaps(|s|)[k - 2] == Gap;
    }
  }

  /**
   * The boundary departs from the documented cost model, under which a run
   * of deletions is one event: aligned with the empty string, a string of
   * length n >= 1 has one event, yet the grid scores it n.
   */
  lemma BoundaryRunCost(s: seq<byte>)
    requires |s| >= 1
    ensures Cell(s, [], |s|, 0).value == |s|
    ensures var g := GlobalAlignment(s, []); |g.0| == |g.1| && MutationEvents(g.0, g.1) == 1
  {
    TraceColumn(s, |s|);
    assert s[..|s|] == s;
    DeletionRunEvents(s, |s|);
  }

  /** Row 1 of the grid of SimilarityMolarity. */
  lemma SimilarityMolarityRow1(s1: seq<byte>, s2: seq<byte>)
    requires |s1| == 10 && s1[0] == 115 && s1[1] == 105 && s1[2] == 109 && s1[3] == 105 && s1[4] == 108 && s1[5] == 97 && s1[6] == 114 && s1[7] == 105 && s1[8] == 116 && s1[9] == 121
    requires |s2| == 8 && s2[0] == 109 && s2[1] == 111 && s2[2] == 108 && s2[3] == 97 && s2[4] == 114 && s2[5] == 105 && s2[6] == 116 && s2[7] == 121
    ensures Cell(s1, s2, 1, 1) == Entry(1, MatchMismatch) && Cell(s1, s2, 1, 2) == Entry(2, MatchMismatch) && Cell(s1, s2, 1, 3) == Entry(3, MatchMismatch) && Cell(s1, s2, 1, 4) == Entry(4, MatchMismatch) && Cell(s1, s2, 1, 5) == Entry(5, MatchMismatch) && Cell(s1, s2, 1, 6) == Entry(6, MatchMismatch) && Cell(s1, s2, 1, 7) == Entry(7, MatchMismatch) && Cell(s1, s2, 1, 8) == Entry(8, MatchMismatch)
  {
    CellFrom(s1, s2, 1, 1, Entry(0, Insertion), Entry(1, Deletion), Entry(1, Insertion));
    CellFrom(s1, s2, 1, 2, Entry(1, Insertion), Entry(1, MatchMismatch), Entry(2, Insertion));
    CellFrom(s1, s2, 1, 3, Entry(2, Insertion), Entry(2, MatchMismatch), Entry(3, Insertion));
    CellFrom(s1, s2, 1, 4, Entry(3, Insertion), Entry(3, MatchMismatch), Entry(4, Insertion));
    CellFrom(s1, s2, 1, 5, Entry(4, Insertion), Entry(4, MatchMismatch), Entry(5, Insertion));
    CellFrom(s1, s2, 1, 6, Entry(5, Insertion), Entry(5, MatchMismatch), Entry(6, Insertion));
    CellFrom(s1, s2, 1, 7, Entry(6, Insertion), Entry(6, MatchMismatch), Entry(7, Insertion));
    CellFrom(s1, s2, 1, 8, Entry(7, Insertion), Entry(7, MatchMismatch), Entry(8, Insertion));
  }

  /** Row 2 of the grid of SimilarityMolarity. */
  lemma SimilarityMolarityRow2(s1: seq<byte>, s2: seq<byte>)
    requires |s1| == 10 && s1[0] == 115 && s1[1] == 105 && s1[2] == 109 && s1[3] == 105 && s1[4] == 108 && s1[5] == 97 && s1[6] == 114 && s1[7] == 105 && s1[8] == 116 && s1[9] == 121
    requires |s2| == 8 && s2[0] == 109 && s2[1] == 111 && s2[2] == 108 && s2[3] == 97 && s2[4] == 114 && s2[5] == 105 && s2[6] == 116 && s2[7] == 121
    requires Cell(s1, s2, 1, 1) == Entry(1, MatchMismatch) && Cell(s1, s2, 1, 2) == Entry(2, MatchMismatch) && Cell(s1, s2, 1, 3) == Entry(3, MatchMismatch) && Cell(s1, s2, 1, 4) == Entry(4, MatchMismatch) && Cell(s1, s2, 1, 5) == Entry(5, MatchMismatch) && Cell(s1, s2, 1, 6) == Entry(6, MatchMismatch) && Cell(s1, s2, 1, 7) == Entry(7, MatchMismatch) && Cell(s1, s2, 1, 8) == Entry(8, MatchMismatch)
    ensures Cell(s1, s2, 2, 1) == Entry(2, MatchMismatch) && Cell(s1, s2, 2, 2) == Entry(2, MatchMismatch) && Cell(s1, s2, 2, 3) == Entry(3, MatchMismatch) && Cell(s1, s2, 2, 4) == Entry(4, MatchMismatch) && Cell(s1, s2, 2, 5) == Entry(5, MatchMismatch) && Cell(s1, s2, 2, 6) == Entry(5, MatchMismatch) && Cell(s1, s2, 2, 7) == Entry(6, Insertion) && Cell(s1, s2, 2, 8) == Entry(6, Insertion)
  {
    CellFrom(s1, s2, 2, 1, Entry(1, Deletion), Entry(2, Deletion), Entry(1, MatchMismatch));
    CellFrom(s1, s2, 2, 2, Entry(1, MatchMismatch), Entry(2, MatchMismatch), Entry(2, MatchMismatch));
    CellFrom(s1, s2, 2, 3, Entry(2, MatchMismatch), Entry(2, MatchMismatch), Entry(3, MatchMismatch));
    CellFrom(s1, s2, 2, 4, Entry(3, MatchMismatch), Entry(3, MatchMismatch), Entry(4, MatchMismatch));
    CellFrom(s1, s2, 2, 5, Entry(4, MatchMismatch), Entry(4, MatchMismatch), Entry(5, MatchMismatch));
    CellFrom(s1, s2, 2, 6, Entry(5, MatchMismatch), Entry(5, MatchMismatch), Entry(6, MatchMismatch));
    CellFrom(s1, s2, 2, 7, Entry(6, MatchMismatch), Entry(5, MatchMismatch), Entry(7, MatchMismatch));
    CellFrom(s1, s2, 2, 8, Entry(7, MatchMismatch), Entry(6, Insertion), Entry(8, MatchMismatch));
  }

  /** Row 3 of the grid of SimilarityMolarity. */
  lemma SimilarityMolarityRow3(s1: seq<byte>, s2: seq<byte>)
    requires |s1| == 10 && s1[0] == 115 && s1[1] == 105 && s1[2] == 109 && s1[3] == 105 && s1[4] == 108 && s1[5] == 97 && s1[6] == 114 && s1[7] == 105 && s1[8] == 116 && s1[9] == 121
    requires |s2| == 8 && s2[0] == 109 && s2[1] == 111 && s2[2] == 108 && s2[3] == 97 && s2[4] == 114 && s2[5] == 105 && s2[6] == 116 && s2[7] == 121
    requires Cell(s1, s2, 2, 1) == Entry(2, MatchMismatch) && Cell(s1, s2, 2, 2) == Entry(2, MatchMismatch) && Cell(s1, s2, 2, 3) == Entry(3, MatchMismatch) && Cell(s1, s2, 2, 4) == Entry(4, MatchMismatch) && Cell(s1, s2, 2, 5) == Entry(5, MatchMismatch) && Cell(s1, s2, 2, 6) == Entry(5, MatchMismatch) && Cell(s1, s2, 2, 7) == Entry(6, Insertion) && Cell(s1, s2, 2, 8) == Entry(6, Insertion)
    ensures Cell(s1, s2, 3, 1) == Entry(2, MatchMismatch) && Cell(s1, s2, 3, 2) == Entry(3, MatchMismatch) && Cell(s1, s2, 3, 3) == Entry(3, MatchMismatch) && Cell(s1, s2, 3, 4) == Entry(4, MatchMismatch) && Cell(s1, s2, 3, 5) == Entry(5, MatchMismatch) && Cell(s1, s2, 3, 6) == Entry(6, MatchMismatch) && Cell(s1, s2, 3, 7) == Entry(6, MatchMismatch) && Cell(s1, s2, 3, 8) == Entry(7, MatchMismatch)
  {
    CellFrom(s1, s2, 3, 1, Entry(2, Deletion), Entry(3, Deletion), Entry(2, MatchMismatch));
    CellFrom(s1, s2, 3, 2, Entry(2, MatchMismatch), Entry(2, MatchMismatch), Entry(2, MatchMismatch));
    CellFrom(s1, s2, 3, 3, Entry(2, MatchMismatch), Entry(3, MatchMismatch), Entry(3, MatchMismatch));
    CellFrom(s1, s2, 3, 4, Entry(3, MatchMismatch), Entry(3, MatchMismatch), Entry(4, MatchMismatch));
    CellFrom(s1, s2, 3, 5, Entry(4, MatchMismatch), Entry(4, MatchMismatch), Entry(5, MatchMismatch));
    CellFrom(s1, s2, 3, 6, Entry(5, MatchMismatch), Entry(5, MatchMismatch), Entry(5, MatchMismatch));
    CellFrom(s1, s2, 3, 7, Entry(5, MatchMismatch), Entry(6, MatchMismatch), Entry(6, Insertion));
    CellFrom(s1, s2, 3, 8, Entry(6, Insertion), Entry(6, MatchMismatch), Entry(6, Insertion));
  }

  /** Row 4 of the grid of SimilarityMolarity. */
  lemma SimilarityMolarityRow4(s1: seq<byte>, s2: seq<byte>)
    requires |s1| == 10 && s1[0] == 115 && s1[1] == 105 && s1[2] == 109 && s1[3] == 105 && s1[4] == 108 && s1[5] == 97 && s1[6] == 114 && s1[7] == 105 && s1[8] == 116 && s1[9] == 121
    requires |s2| == 8 && s2[0] == 109 && s2[1] == 111 && s2[2] == 108 && s2[3] == 97 && s2[4] == 114 && s2[5] == 105 && s2[6] == 116 && s2[7] == 121
    requires Cell(s1, s2, 3, 1) == Entry(2, MatchMismatch) && Cell(s1, s2, 3, 2) == Entry(3, MatchMismatch) && Cell(s1, s2, 3, 3) == Entry(3, MatchMismatch) && Cell(s1, s2, 3, 4) == Entry(4, MatchMismatch) && Cell(s1, s2, 3, 5) == Entry(5, MatchMismatch) && Cell(s1, s2, 3, 6) == Entry(6, MatchMismatch) && Cell(s1, s2, 3, 7) == Entry(6, MatchMismatch) && Cell(s1, s2, 3, 8) == Entry(7, MatchMismatch)
    ensures Cell(s1, s2, 4, 1) == Entry(3, Deletion) && Cell(s1, s2, 4, 2) == Entry(3, MatchMismatch) && Cell(s1, s2, 4, 3) == Entry(4, MatchMismatch) && Cell(s1, s2, 4, 4) == Entry(4, MatchMismatch) && Cell(s1, s2, 4, 5) == Entry(5, MatchMismatch) && Cell(s1, s2, 4, 6) == Entry(5, MatchMismatch) && Cell(s1, s2, 4, 7) == Entry(6, Insertion) && Cell(s1, s2, 4, 8) == Entry(6, Insertion)
  {
    CellFrom(s1, s2, 4, 1, Entry(3, Deletion), Entry(4, Deletion), Entry(2, MatchMismatch));
    CellFrom(s1, s2, 4, 2, Entry(2, MatchMismatch), Entry(3, Deletion), Entry(3, MatchMismatch));
    CellFrom(s1, s2, 4, 3, Entry(3, MatchMismatch), Entry(3, MatchMismatch), Entry(3, MatchMismatch));
    CellFrom(s1, s2, 4, 4, Entry(3, MatchMismatch), Entry(4, MatchMismatch), Entry(4, MatchMismatch));
    CellFrom(s1, s2, 4, 5, Entry(4, MatchMismatch), Entry(4, MatchMismatch), Entry(5, MatchMismatch));
    CellFrom(s1, s2, 4, 6, Entry(5, MatchMismatch), Entry(5, MatchMismatch), Entry(6, MatchMismatch));
    CellFrom(s1, s2, 4, 7, Entry(6, MatchMismatch), Entry(5, MatchMismatch), Entry(6, MatchMismatch));
    CellFrom(s1, s2, 4, 8, Entry(6, MatchMismatch), Entry(6, Insertion), Entry(7, MatchMismatch));
  }

  /** Row 5 of the grid of SimilarityMolarity. */
  lemma SimilarityMolarityRow5(s1: seq<byte>, s2: seq<byte>)
    requires |s1| == 10 && s1[0] == 115 && s1[1] == 105 && s1[2] == 109 && s1[3] == 105 && s1[4] == 108 && s1[5] == 97 && s1[6] == 114 && s1[7] == 105 && s1[8] == 116 && s1[9] == 121
    requires |s2| == 8 && s2[0] == 109 && s2[1] == 111 && s2[2] == 108 && s2[3] == 97 && s2[4] == 114 && s2[5] == 105 && s2[6] == 116 && s2[7] == 121
    requires Cell(s1, s2, 4, 1) == Entry(3, Deletion) && Cell(s1, s2, 4, 2) == Entry(3, MatchMismatch) && Cell(s1, s2, 4, 3) == Entry(4, MatchMismatch) && Cell(s1, s2, 4, 4) == Entry(4, MatchMismatch) && Cell(s1, s2, 4, 5) == Entry(5, MatchMismatch) && Cell(s1, s2, 4, 6) == Entry(5, MatchMismatch) && Cell(s1, s2, 4, 7) == Entry(6, Insertion) && Cell(s1, s2, 4, 8) == Entry(6, Insertion)
    ensures Cell(s1, s2, 5, 1) == Entry(3, Deletion) && Cell(s1, s2, 5, 2) == Entry(4, MatchMismatch) && Cell(s1, s2, 5, 3) == Entry(3, MatchMismatch) && Cell(s1, s2, 5, 4) == Entry(4, Insertion) && Cell(s1, s2, 5, 5) == Entry(4, Insertion) && Cell(s1, s2, 5, 6) == Entry(4, Insertion) && Cell(s1, s2, 5, 7) == Entry(4, Insertion) && Cell(s1, s2, 5, 8) == Entry(4, Insertion)
  {
    CellFrom(s1, s2, 5, 1, Entry(4, Deletion), Entry(5, Deletion), Entry(3, Deletion));
    CellFrom(s1, s2, 5, 2, Entry(3, Deletion), Entry(3, Deletion), Entry(3, MatchMismatch));
    CellFrom(s1, s2, 5, 3, Entry(3, MatchMismatch), Entry(4, MatchMismatch), Entry(4, MatchMismatch));
    CellFrom(s1, s2, 5, 4, Entry(4, MatchMismatch), Entry(3, MatchMismatch), Entry(4, MatchMismatch));
    CellFrom(s1, s2, 5, 5, Entry(4, MatchMismatch), Entry(4, Insertion), Entry(5, MatchMismatch));
    CellFrom(s1, s2, 5, 6, Entry(5, MatchMismatch), Entry(4, Insertion), Entry(5, MatchMismatch));
    CellFrom(s1, s2, 5, 7, Entry(5, MatchMismatch), Entry(4, Insertion), Entry(6, Insertion));
    CellFrom(s1, s2, 5, 8, Entry(6, Insertion), Entry(4, Insertion), Entry(6, Insertion));
  }

  /** Row 6 of the grid of SimilarityMolarity. */
  lemma SimilarityMolarityRow6(s1: seq<byte>, s2: seq<byte>)
    requires |s1| == 10 && s1[0] == 115 && s1[1] == 105 && s1[2] == 109 && s1[3] == 105 && s1[4] == 108 && s1[5] == 97 && s1[6] == 114 && s1[7] == 105 && s1[8] == 116 && s1[9] == 121
    requires |s2| == 8 && s2[0] == 109 && s2[1] == 111 && s2[2] == 108 && s2[3] == 97 && s2[4] == 114 && s2[5] == 105 && s2[6] == 116 && s2[7] == 121
    requires Cell(s1, s2, 5, 1) == Entry(3, Deletion) && Cell(s1, s2, 5, 2) == Entry(4, MatchMismatch) && Cell(s1, s2, 5, 3) == Entry(3, MatchMismatch) && Cell(s1, s2, 5, 4) == Entry(4, Insertion) && Cell(s1, s2, 5, 5) == Entry(4, Insertion) && Cell(s1, s2, 5, 6) == Entry(4, Insertion) && Cell(s1, s2, 5, 7) == Entry(4, Insertion) && Cell(s1, s2, 5, 8) == Entry(4, Insertion)
    ensures Cell(s1, s2, 6, 1) == Entry(3, Deletion) && Cell(s1, s2, 6, 2) == Entry(4, MatchMismatch) && Cell(s1, s2, 6, 3) == Entry(4, Deletion) && Cell(s1, s2, 6, 4) == Entry(3, MatchMismatch) && Cell(s1, s2, 6, 5) == Entry(4, Insertion) && Cell(s1, s2, 6, 6) == Entry(4, Insertion) && Cell(s1, s2, 6, 7) == Entry(4, Insertion) && Cell(s1, s2, 6, 8) == Entry(4, Insertion)
  {
    CellFrom(s1, s2, 6, 1, Entry(5, Deletion), Entry(6, Deletion), Entry(3, Deletion));
    CellFrom(s1, s2, 6, 2, Entry(3, Deletion), Entry(3, Deletion), Entry(4, MatchMismatch));
    CellFrom(s1, s2, 6, 3, Entry(4, MatchMismatch), Entry(4, MatchMismatch), Entry(3, MatchMismatch));
    CellFrom(s1, s2, 6, 4, Entry(3, MatchMismatch), Entry(4, Deletion), Entry(4, Insertion));
    CellFrom(s1, s2, 6, 5, Entry(4, Insertion), Entry(3, MatchMismatch), Entry(4, Insertion));
    CellFrom(s1, s2, 6, 6, Entry(4, Insertion), Entry(4, Insertion), Entry(4, Insertion));
    CellFrom(s1, s2, 6, 7, Entry(4, Insertion), Entry(4, Insertion), Entry(4, Insertion));
    CellFrom(s1, s2, 6, 8, Entry(4, Insertion), Entry(4, Insertion), Entry(4, Insertion));
  }

  /** Row 7 of the grid of SimilarityMolarity. */
  lemma SimilarityMolarityRow7(s1: seq<byte>, s2: seq<byte>)
    requires |s1| == 10 && s1[0] == 115 && s1[1] == 105 && s1[2] == 109 && s1[3] == 105 && s1[4] == 108 && s1[5] == 97 && s1[6] == 114 && s1[7] == 105 && s1[8] == 116 && s1[9] == 121
    requires |s2| == 8 && s2[0] == 109 && s2[1] == 111 && s2[2] == 108 && s2[3] == 97 && s2[4] == 114 && s2[5] == 105 && s2[6] == 116 && s2[7] == 121
    requires Cell(s1, s2, 6, 1) == Entry(3, Deletion) && Cell(s1, s2, 6, 2) == Entry(4, MatchMismatch) && Cell(s1, s2, 6, 3) == Entry(4, Deletion) && Cell(s1, s2, 6, 4) == Entry(3, MatchMismatch) && Cell(s1, s2, 6, 5) == Entry(4, Insertion) && Cell(s1, s2, 6, 6) == Entry(4, Insertion) && Cell(s1, s2, 6, 7) == Entry(4, Insertion) && Cell(s1, s2, 6, 8) == Entry(4, Insertion)
    ensures Cell(s1, s2, 7, 1) == Entry(3, Deletion) && Cell(s1, s2, 7, 2) == Entry(4, MatchMismatch) && Cell(s1, s2, 7, 3) == Entry(4, Deletion) && Cell(s1, s2, 7, 4) == Entry(4, Deletion) && Cell(s1, s2, 7, 5) == Entry(3, MatchMismatch) && Cell(s1, s2, 7, 6) == Entry(4, Insertion) && Cell(s1, s2, 7, 7) == Entry(4, Insertion) && Cell(s1, s2, 7, 8) == Entry(4, Insertion)
  {
    CellFrom(s1, s2, 7, 1, Entry(6, Deletion), Entry(7, Deletion), Entry(3, Deletion));
    CellFrom(s1, s2, 7, 2, Entry(3, Deletion), Entry(3, Deletion), Entry(4, MatchMismatch));
    CellFrom(s1, s2, 7, 3, Entry(4, MatchMismatch), Entry(4, MatchMismatch), Entry(4, Deletion));
    CellFrom(s1, s2, 7, 4, Entry(4, Deletion), Entry(4, Deletion), Entry(3, MatchMismatch));
    CellFrom(s1, s2, 7, 5, Entry(3, MatchMismatch), Entry(4, Deletion), Entry(4, Insertion));
    CellFrom(s1, s2, 7, 6, Entry(4, Insertion), Entry(3, MatchMismatch), Entry(4, Insertion));
    CellFrom(s1, s2, 7, 7, Entry(4, Insertion), Entry(4, Insertion), Entry(4, Insertion));
    CellFrom(s1, s2, 7, 8, Entry(4, Insertion), Entry(4, Insertion), Entry(4, Insertion));
  }

  /** Row 8 of the grid of SimilarityMolarity. */
  lemma SimilarityMolarityRow8(s1: seq<byte>, s2: seq<byte>)
    requires |s1| == 10 && s1[0] == 115 && s1[1] == 105 && s1[2] == 109 && s1[3] == 105 && s1[4] == 108 && s1[5] == 97 && s1[6] == 114 && s1[7] == 105 && s1[8] == 116 && s1[9] == 121
    requires |s2| == 8 && s2[0] == 109 && s2[1] == 111 && s2[2] == 108 && s2[3] == 97 && s2[4] == 114 && s2[5] == 105 && s2[6] == 116 && s2[7] == 121
    requires Cell(s1, s2, 7, 1) == Entry(3, Deletion) && Cell(s1, s2, 7, 2) == Entry(4, MatchMismatch) && Cell(s1, s2, 7, 3) == Entry(4, Deletion) && Cell(s1, s2, 7, 4) == Entry(4, Deletion) && Cell(s1, s2, 7, 5) == Entry(3, MatchMismatch) && Cell(s1, s2, 7, 6) == Entry(4, Insertion) && Cell(s1, s2, 7, 7) == Entry(4, Insertion) && Cell(s1, s2, 7, 8) == Entry(4, Insertion)
    ensures Cell(s1, s2, 8, 1) == Entry(3, Deletion) && Cell(s1, s2, 8, 2) == Entry(4, MatchMismatch) && Cell(s1, s2, 8, 3) == Entry(4, Deletion) && Cell(s1, s2, 8, 4) == Entry(4, Deletion) && Cell(s1, s2, 8, 5) == Entry(4, Deletion) && Cell(s1, s2, 8, 6) == Entry(3, MatchMismatch) && Cell(s1, s2, 8, 7) == Entry(4, Insertion) && Cell(s1, s2, 8, 8) == Entry(4, Insertion)
  {
    CellFrom(s1, s2, 8, 1, Entry(7, Deletion), Entry(8, Deletion), Entry(3, Deletion));
    CellFrom(s1, s2, 8, 2, Entry(3, Deletion), Entry(3, Deletion), Entry(4, MatchMismatch));
    CellFrom(s1, s2, 8, 3, Entry(4, MatchMismatch), Entry(4, MatchMismatch), Entry(4, Deletion));
    CellFrom(s1, s2, 8, 4, Entry(4, Deletion), Entry(4, Deletion), Entry(4, Deletion));
    CellFrom(s1, s2, 8, 5, Entry(4, Deletion), Entry(4, Deletion), Entry(3, MatchMismatch));
    CellFrom(s1, s2, 8, 6, Entry(3, MatchMismatch), Entry(4, Deletion), Entry(4, Insertion));
    CellFrom(s1, s2, 8, 7, Entry(4, Insertion), Entry(3, MatchMismatch), Entry(4, Insertion));
    CellFrom(s1, s2, 8, 8, Entry(4, Insertion), Entry(4, Insertion), Entry(4, Insertion));
  }

  /** Row 9 of the grid of SimilarityMolarity. */
  lemma SimilarityMolarityRow9(s1: seq<byte>, s2: seq<byte>)
    requires |s1| == 10 && s1[0] == 115 && s1[1] == 105 && s1[2] == 109 && s1[3] == 105 && s1[4] == 108 && s1[5] == 97 && s1[6] == 114 && s1[7] == 105 && s1[8] == 116 && s1[9] == 121
    requires |s2| == 8 && s2[0] == 109 && s2[1] == 111 && s2[2] == 108 && s2[3] == 97 && s2[4] == 114 && s2[5] == 105 && s2[6] == 116 && s2[7] == 121
    requires Cell(s1, s2, 8, 1) == Entry(3, Deletion) && Cell(s1, s2, 8, 2) == Entry(4, MatchMismatch) && Cell(s1, s2, 8, 3) == Entry(4, Deletion) && Cell(s1, s2, 8, 4) == Entry(4, Deletion) && Cell(s1, s2, 8, 5) == Entry(4, Deletion) && Cell(s1, s2, 8, 6) == Entry(3, MatchMismatch) && Cell(s1, s2, 8, 7) == Entry(4, Insertion) && Cell(s1, s2, 8, 8) == Entry(4, Insertion)
    ensures Cell(s1, s2, 9, 1) == Entry(3, Deletion) && Cell(s1, s2, 9, 2) == Entry(4, MatchMismatch) && Cell(s1, s2, 9, 3) == Entry(4, Deletion) && Cell(s1, s2, 9, 4) == Entry(4, Deletion) && Cell(s1, s2, 9, 5) == Entry(4, Deletion) && Cell(s1, s2, 9, 6) == Entry(4, Deletion) && Cell(s1, s2, 9, 7) == Entry(3, MatchMismatch) && Cell(s1, s2, 9, 8) == Entry(4, Insertion)
  {
    CellFrom(s1, s2, 9, 1, Entry(8, Deletion), Entry(9, Deletion), Entry(3, Deletion));
    CellFrom(s1, s2, 9, 2, Entry(3, Deletion), Entry(3, Deletion), Entry(4, MatchMismatch));
    CellFrom(s1, s2, 9, 3, Entry(4, MatchMismatch), Entry(4, MatchMismatch), Entry(4, Deletion));
    CellFrom(s1, s2, 9, 4, Entry(4, Deletion), Entry(4, Deletion), Entry(4, Deletion));
    CellFrom(s1, s2, 9, 5, Entry(4, Deletion), Entry(4, Deletion), Entry(4, Deletion));
    CellFrom(s1, s2, 9, 6, Entry(4, Deletion), Entry(4, Deletion), Entry(3, MatchMismatch));
    CellFrom(s1, s2, 9, 7, Entry(3, MatchMismatch), Entry(4, Deletion), Entry(4, Insertion));
    CellFrom(s1, s2, 9, 8, Entry(4, Insertion), Entry(3, MatchMismatch), Entry(4, Insertion));
  }

  /** Row 10 of the grid of SimilarityMolarity. */
  lemma SimilarityMolarityRow10(s1: seq<byte>, s2: seq<byte>)
    requires |s1| == 10 && s1[0] == 115 && s1[1] == 105 && s1[2] == 109 && s1[3] == 105 && s1[4] == 108 && s1[5] == 97 && s1[6] == 114 && s1[7] == 105 && s1[8] == 116 && s1[9] == 121
    requires |s2| == 8 && s2[0] == 109 && s2[1] == 111 && s2[2] == 108 && s2[3] == 97 && s2[4] == 114 && s2[5] == 105 && s2[6] == 116 && s2[7] == 121
    requires Cell(s1, s2, 9, 1) == Entry(3, Deletion) && Cell(s1, s2, 9, 2) == Entry(4, MatchMismatch) && Cell(s1, s2, 9, 3) == Entry(4, Deletion) && Cell(s1, s2, 9, 4) == Entry(4, Deletion) && Cell(s1, s2, 9, 5) == Entry(4, Deletion) && Cell(s1, s2, 9, 6) == Entry(4, Deletion) && Cell(s1, s2, 9, 7) == Entry(3, MatchMismatch) && Cell(s1, s2, 9, 8) == Entry(4, Insertion)
    ensures Cell(s1, s2, 10, 1) == Entry(3, Deletion) && Cell(s1, s2, 10, 2) == Entry(4, MatchMismatch) && Cell(s1, s2, 10, 3) == Entry(4, Deletion) && Cell(s1, s2, 10, 4) == Entry(4, Deletion) && Cell(s1, s2, 10, 5) == Entry(4, Deletion) && Cell(s1, s2, 10, 6) == Entry(4, Deletion) && Cell(s1, s2, 10, 7) == Entry(4, Deletion) && Cell(s1, s2, 10, 8) == Entry(3, MatchMismatch)
  {
    CellFrom(s1, s2, 10, 1, Entry(9, Deletion), Entry(10, Deletion), Entry(3, Deletion));
    CellFrom(s1, s2, 10, 2, Entry(3, Deletion), Entry(3, Deletion), Entry(4, MatchMismatch));
    CellFrom(s1, s2, 10, 3, Entry(4, MatchMismatch), Entry(4, MatchMismatch), Entry(4, Deletion));
    CellFrom(s1, s2, 10, 4, Entry(4, Deletion), Entry(4, Deletion), Entry(4, Deletion));
    CellFrom(s1, s2, 10, 5, Entry(4, Deletion), Entry(4, Deletion), Entry(4, Deletion));
    CellFrom(s1, s2, 10, 6, Entry(4, Deletion), Entry(4, Deletion), Entry(4, Deletion));
    CellFrom(s1, s2, 10, 7, Entry(4, Deletion), Entry(4, Deletion), Entry(3, MatchMismatch));
    CellFrom(s1, s2, 10, 8, Entry(3, MatchMismatch), Entry(4, Deletion), Entry(4, Insertion));
  }

  /** The tags along the traceback path of SimilarityMolarity. */
  lemma SimilarityMolarityPathTags(s1: seq<byte>, s2: seq<byte>)
    requires |s1| == 10 && s1[0] == 115 && s1[1] == 105 && s1[2] == 109 && s1[3] == 105 && s1[4] == 108 && s1[5] == 97 && s1[6] == 114 && s1[7] == 105 && s1[8] == 116 && s1[9] == 121
    requires |s2| == 8 && s2[0] == 109 && s2[1] == 111 && s2[2] == 108 && s2[3] == 97 && s2[4] == 114 && s2[5] == 105 && s2[6] == 116 && s2[7] == 121
    ensures Cell(s1, s2, 3, 1).source == MatchMismatch && Cell(s1, s2, 4, 2).source == MatchMismatch && Cell(s1, s2, 5, 3).source == MatchMismatch && Cell(s1, s2, 6, 4).source == MatchMismatch && Cell(s1, s2, 7, 5).source == MatchMismatch && Cell(s1, s2, 8, 6).source == MatchMismatch && Cell(s1, s2, 9, 7).source == MatchMismatch && Cell(s1, s2, 10, 8).source == MatchMismatch
  {
    SimilarityMolarityRow1(s1, s2);
    SimilarityMolarityRow2(s1, s2);
    SimilarityMolarityRow3(s1, s2);
    SimilarityMolarityRow4(s1, s2);
    SimilarityMolarityRow5(s1, s2);
    SimilarityMolarityRow6(s1, s2);
    SimilarityMolarityRow7(s1, s2);
    SimilarityMolarityRow8(s1, s2);
    SimilarityMolarityRow9(s1, s2);
    SimilarityMolarityRow10(s1, s2);
  }

  /** Traceback steps 1 to 3 of SimilarityMolarity. */
  lemma SimilarityMolarityPath1(s1: seq<byte>, s2: seq<byte>)
    requires |s1| == 10 && s1[0] == 115 && s1[1] == 105 && s1[2] == 109 && s1[3] == 105 && s1[4] == 108 && s1[5] == 97 && s1[6] == 114 && s1[7] == 105 && s1[8] == 116 && s1[9] == 121
    requires |s2| == 8 && s2[0] == 109 && s2[1] == 111 && s2[2] == 108 && s2[3] == 97 && s2[4] == 114 && s2[5] == 105 && s2[6] == 116 && s2[7] == 121
    requires Cell(s1, s2, 3, 1).source == MatchMismatch && Cell(s1, s2, 4, 2).source == MatchMismatch && Cell(s1, s2, 5, 3).source == MatchMismatch && Cell(s1, s2, 6, 4).source == MatchMismatch && Cell(s1, s2, 7, 5).source == MatchMismatch && Cell(s1, s2, 8, 6).source == MatchMismatch && Cell(s1, s2, 9, 7).source == MatchMismatch && Cell(s1, s2, 10, 8).source == MatchMismatch
    ensures Trace(s1, s2, 3, 1).0 == [Base(115), Base(105), Base(109)]
    ensures Trace(s1, s2, 3, 1).1 == [Gap, Gap, Base(109)]
  {
    assert Trace(s1, s2, 0, 0).0 == [] && Trace(s1, s2, 0, 0).1 == [];
    TraceFrom(s1, s2, 1, 0, [], [], Base(115), Gap);
    TraceFrom(s1, s2, 2, 0, [Base(115)], [Gap], Base(105), Gap);
    TraceFrom(s1, s2, 3, 1, [Base(115), Base(105)], [Gap, Gap], Base(109), Base(109));
  }

  /** Traceback steps 4 to 6 of SimilarityMolarity. */
  lemma SimilarityMolarityPath2(s1: seq<byte>, s2: seq<byte>)
    requires |s1| == 10 && s1[0] == 115 && s1[1] == 105 && s1[2] == 109 && s1[3] == 105 && s1[4] == 108 && s1[5] == 97 && s1[6] == 114 && s1[7] == 105 && s1[8] == 116 && s1[9] == 121
    requires |s2| == 8 && s2[0] == 109 && s2[1] == 111 && s2[2] == 108 && s2[3] == 97 && s2[4] == 114 && s2[5] == 105 && s2[6] == 116 && s2[7] == 121
    requires Cell(s1, s2, 3, 1).source == MatchMismatch && Cell(s1, s2, 4, 2).source == MatchMismatch && Cell(s1, s2, 5, 3).source == MatchMismatch && Cell(s1, s2, 6, 4).source == MatchMismatch && Cell(s1, s2, 7, 5).source == MatchMismatch && Cell(s1, s2, 8, 6).source == MatchMismatch && Cell(s1, s2, 9, 7).source == MatchMismatch && Cell(s1, s2, 10, 8).source == MatchMismatch
    requires Trace(s1, s2, 3, 1).0 == [Base(115), Base(105), Base(109)] && Trace(s1, s2, 3, 1).1 == [Gap, Gap, Base(109)]
    ensures Trace(s1, s2, 6, 4).0 == [Base(115), Base(105), Base(109), Base(105), Base(108), Base(97)]
    ensures Trace(s1, s2, 6, 4).1 == [Gap, Gap, Base(109), Base(111), Base(108), Base(97)]
  {
    TraceFrom(s1, s2, 4, 2, [Base(115), Base(105), Base(109)], [Gap, Gap, Base(109)], Base(105), Base(111));
    TraceFrom(s1, s2, 5, 3, [Base(115), Base(105), Base(109), Base(105)], [Gap, Gap, Base(109), Base(111)], Base(108), Base(108));
    TraceFrom(s1, s2, 6, 4, [Base(115), Base(105), Base(109), Base(105), Base(108)], [Gap, Gap, Base(109), Base(111), Base(108)], Base(97), Base(97));
  }

  /** Traceback steps 7 to 9 of SimilarityMolarity. */
  lemma SimilarityMolarityPath3(s1: seq<byte>, s2: seq<byte>)
    requires |s1| == 10 && s1[0] == 115 && s1[1] == 105 && s1[2] == 109 && s1[3] == 105 && s1[4] == 108 && s1[5] == 97 && s1[6] == 114 && s1[7] == 105 && s1[8] == 116 && s1[9] == 121
    requires |s2| == 8 && s2[0] == 109 && s2[1] == 111 && s2[2] == 108 && s2[3] == 97 && s2[4] == 114 && s2[5] == 105 && s2[6] == 116 && s2[7] == 121
    requires Cell(s1, s2, 3, 1).source == MatchMismatch && Cell(s1, s2, 4, 2).source == MatchMismatch && Cell(s1, s2, 5, 3).source == MatchMismatch && Cell(s1, s2, 6, 4).source == MatchMismatch && Cell(s1, s2, 7, 5).source == MatchMismatch && Cell(s1, s2, 8, 6).source == MatchMismatch && Cell(s1, s2, 9, 7).source == MatchMismatch && Cell(s1, s2, 10, 8).source == MatchMismatch
    requires Trace(s1, s2, 6, 4).0 == [Base(115), Base(105), Base(109), Base(105), Base(108), Base(97)] && Trace(s1, s2, 6, 4).1 == [Gap, Gap, Base(109), Base(111), Base(108), Base(97)]
    ensures Trace(s1, s2, 9, 7).0 == [Base(115), Base(105), Base(109), Base(105), Base(108), Base(97), Base(114), Base(105), Base(116)]
    ensures Trace(s1, s2, 9, 7).1 == [Gap, Gap, Base(109), Base(111), Base(108), Base(97), Base(114), Base(105), Base(116)]
  {
    TraceFrom(s1, s2, 7, 5, [Base(115), Base(105), Base(109), Base(105), Base(108), Base(97)], [Gap, Gap, Base(109), Base(111), Base(108), Base(97)], Base(114), Base(114));
    TraceFrom(s1, s2, 8, 6, [Base(115), Base(105), Base(109), Base(105), Base(108), Base(97), Base(114)], [Gap, Gap, Base(109), Base(111), Base(108), Base(97), Base(114)], Base(105), Base(105));
    TraceFrom(s1, s2, 9, 7, [Base(115), Base(105), Base(109), Base(105), Base(108), Base(97), Base(114), Base(105)], [Gap, Gap, Base(109), Base(111), Base(108), Base(97), Base(114), Base(105)], Base(116), Base(116));
  }

  /** Traceback steps 10 to 10 of SimilarityMolarity. */
  lemma SimilarityMolarityPath4(s1: seq<byte>, s2: seq<byte>)
    requires |s1| == 10 && s1[0] == 115 && s1[1] == 105 && s1[2] == 109 && s1[3] == 105 && s1[4] == 108 && s1[5] == 97 && s1[6] == 114 && s1[7] == 105 && s1[8] == 116 && s1[9] == 121
    requires |s2| == 8 && s2[0] == 109 && s2[1] == 111 && s2[2] == 108 && s2[3] == 97 && s2[4] == 114 && s2[5] == 105 && s2[6] == 116 && s2[7] == 121
    requires Cell(s1, s2, 3, 1).source == MatchMismatch && Cell(s1, s2, 4, 2).source == MatchMismatch && Cell(s1, s2, 5, 3).source == MatchMismatch && Cell(s1, s2, 6, 4).source == MatchMismatch && Cell(s1, s2, 7, 5).source == MatchMismatch && Cell(s1, s2, 8, 6).source == MatchMismatch && Cell(s1, s2, 9, 7).source == MatchMismatch && Cell(s1, s2, 10, 8).source == MatchMismatch
    requires Trace(s1, s2, 9, 7).0 == [Base(115), Base(105), Base(109), Base(105), Base(108), Base(97), Base(114), Base(105), Base(116)] && Trace(s1, s2, 9, 7).1 == [Gap, Gap, Base(109), Base(111), Base(108), Base(97), Base(114), Base(105), Base(116)]
    ensures Trace(s1, s2, 10, 8).0 == [Base(115), Base(105), Base(109), Base(105), Base(108), Base(97), Base(114), Base(105), Base(116), Base(121)]
    ensures Trace(s1, s2, 10, 8).1 == [Gap, Gap, Base(109), Base(111), Base(108), Base(97), Base(114), Base(105), Base(116), Base(121)]
  {
    TraceFrom(s1, s2, 10, 8, [Base(115), Base(105), Base(109), Base(105), Base(108), Base(97), Base(114), Base(105), Base(116)], [Gap, Gap, Base(109), Base(111), Base(108), Base(97), Base(114), Base(105), Base(116)], Base(121), Base(121));
  }

  /** The aligned strings of SimilarityMolarity, printed with '-' for gaps. */
  lemma SimilarityMolarityRendered()
    ensures Render([Base(115), Base(105), Base(109), Base(105), Base(108), Base(97), Base(114), Base(105), Base(116), Base(121)]) == Ascii("similarity")
    ensures Render([Gap, Gap, Base(109), Base(111), Base(108), Base(97), Base(114), Base(105), Base(116), Base(121)]) == Ascii("--molarity")
  {
  }

  /** The first documented example: ("similarity", "molarity") aligns as ("similarity", "--molarity"). */
  lemma SimilarityMolarity(s1: seq<byte>, s2: seq<byte>)
    requires s1 == Ascii("similarity") && s2 == Ascii("molarity")
    ensures Render(GlobalAlignment(s1, s2).0) == Ascii("similarity")
    ensures Render(GlobalAlignment(s1, s2).1) == Ascii("--molarity")
  {
    assert |s1| == 10 && s1[0] == 115 && s1[1] == 105 && s1[2] == 109 && s1[3] == 105 && s1[4] == 108 && s1[5] == 97 && s1[6] == 114 && s1[7] == 105 && s1[8] == 116 && s1[9] == 121;
    assert |s2| == 8 && s2[0] == 109 && s2[1] == 111 && s2[2] == 108 && s2[3] == 97 && s2[4] == 114 && s2[5] == 105 && s2[6] == 116 && s2[7] == 121;
    SimilarityMolarityPathTags(s1, s2);
    SimilarityMolarityPath1(s1, s2);
    SimilarityMolarityPath2(s1, s2);
    SimilarityMolarityPath3(s1, s2);
    SimilarityMolarityPath4(s1, s2);
    SimilarityMolarityRendered();
  }

  /** The score of the bottom-right cell of SimilarityMolarity. */
  lemma SimilarityMolarityScore(s1: seq<byte>, s2: seq<byte>)
    requires |s1| == 10 && s1[0] == 115 && s1[1] == 105 && s1[2] == 109 && s1[3] == 105 && s1[4] == 108 && s1[5] == 97 && s1[6] == 114 && s1[7] == 105 && s1[8] == 116 && s1[9] == 121
    requires |s2| == 8 && s2[0] == 109 && s2[1] == 111 && s2[2] == 108 && s2[3] == 97 && s2[4] == 114 && s2[5] == 105 && s2[6] == 116 && s2[7] == 121
    ensures Cell(s1, s2, 10, 8).value == 3
  {
    SimilarityMolarityRow1(s1, s2);
    SimilarityMolarityRow2(s1, s2);
    SimilarityMolarityRow3(s1, s2);
    SimilarityMolarityRow4(s1, s2);
    SimilarityMolarityRow5(s1, s2);
    SimilarityMolarityRow6(s1, s2);
    SimilarityMolarityRow7(s1, s2);
    SimilarityMolarityRow8(s1, s2);
    SimilarityMolarityRow9(s1, s2);
    SimilarityMolarityRow10(s1, s2);
  }

  /** The traceback of SimilarityMolarity, as aligned symbols. */
  lemma SimilarityMolarityTrace(s1: seq<byte>, s2: seq<byte>)
    requires |s1| == 10 && s1[0] == 115 && s1[1] == 105 && s1[2] == 109 && s1[3] == 105 && s1[4] == 108 && s1[5] == 97 && s1[6] == 114 && s1[7] == 105 && s1[8] == 116 && s1[9] == 121
    requires |s2| == 8 && s2[0] == 109 && s2[1] == 111 && s2[2] == 108 && s2[3] == 97 && s2[4] == 114 && s2[5] == 105 && s2[6] == 116 && s2[7] == 121
    ensures Trace(s1, s2, 10, 8) == ([Base(115), Base(105), Base(109), Base(105), Base(108), Base(97), Base(114), Base(105), Base(116), Base(121)], [Gap, Gap, Base(109), Base(111), Base(108), Base(97), Base(114), Base(105), Base(116), Base(121)])
  {
    SimilarityMolarityPathTags(s1, s2);
    SimilarityMolarityPath1(s1, s2);
    SimilarityMolarityPath2(s1, s2);
    SimilarityMolarityPath3(s1, s2);
    SimilarityMolarityPath4(s1, s2);
  }

  /** ("similarity", "--molarity") holds one mismatch (i/o) and one run of deletions. */
  lemma SimilarityMolarityEventCount()
    ensures MutationEvents([Base(115), Base(105), Base(109), Base(105), Base(108), Base(97), Base(114), Base(105), Base(116), Base(121)], [Gap, Gap, Base(109), Base(111), Base(108), Base(97), Base(114), Base(105), Base(116), Base(121)]) == 2
  {
    var a1: seq<Sym>, a2: seq<Sym> := [Base(115), Base(105), Base(109), Base(105), Base(108), Base(97), Base(114), Base(105), Base(116), Base(121)], [Gap, Gap, Base(109), Base(111), Base(108), Base(97), Base(114), Base(105), Base(116), Base(121)];
    assert EventsUpTo(a1, a2, 1) == 1;
    assert EventsUpTo(a1, a2, 2) == 1;
    assert EventsUpTo(a1, a2, 3) == 1;
    assert EventsUpTo(a1, a2, 4) == 2;
    assert EventsUpTo(a1, a2, 5) == 2;
    assert EventsUpTo(a1, a2, 6) == 2;
    assert EventsUpTo(a1, a2, 7) == 2;
    assert EventsUpTo(a1, a2, 8) == 2;
    assert EventsUpTo(a1, a2, 9) == 2;
    assert EventsUpTo(a1, a2, 10) == 2;
  }

  /**
   * ("similarity", "molarity") scores 3, while its alignment ("similarity",
   * "--molarity") holds 2 mutation events: the leading run of two deletions
   * lies on column 0, which costs its row index.
   */
  lemma SimilarityMolarityEvents(s1: seq<byte>, s2: seq<byte>)
    requires s1 == Ascii("similarity") && s2 == Ascii("molarity")
    ensures Cell(s1, s2, |s1|, |s2|).value == 3
    ensures var g := GlobalAlignment(s1, s2); |g.0| == |g.1| && MutationEvents(g.0, g.1) == 2
  {
    assert |s1| == 10 && s1[0] == 115 && s1[1] == 105 && s1[2] == 109 && s1[3] == 105 && s1[4] == 108 && s1[5] == 97 && s1[6] == 114 && s1[7] == 105 && s1[8] == 116 && s1[9] == 121;
    assert |s2| == 8 && s2[0] == 109 && s2[1] == 111 && s2[2] == 108 && s2[3] == 97 && s2[4] == 114 && s2[5] == 105 && s2[6] == 116 && s2[7] == 121;
    SimilarityMolarityScore(s1, s2);
    SimilarityMolarityTrace(s1, s2);
    SimilarityMolarityEventCount();
  }

  /** Row 1 of the grid of LeadingGuanine. */
  lemma LeadingGuanineRow1(s1: seq<byte>, s2: seq<byte>)
    requires |s1| == 10 && s1[0] == 71 && s1[1] == 65 && s1[2] == 65 && s1[3] == 65 && s1[4] == 65 && s1[5] == 84 && s1[6] == 65 && s1[7] == 65 && s1[8] == 65 && s1[9] == 84
    requires |s2| == 6 && s2[0] == 71 && s2[1] == 65 && s2[2] == 84 && s2[3] == 65 && s2[4] == 65 && s2[5] == 84
    ensures Cell(s1, s2, 1, 1) == Entry(0, MatchMismatch) && Cell(s1, s2, 1, 2) == Entry(1, Insertion) && Cell(s1, s2, 1, 3) == Entry(1, Insertion) && Cell(s1, s2, 1, 4) == Entry(1, Insertion) && Cell(s1, s2, 1, 5) == Entry(1, Insertion) && Cell(s1, s2, 1, 6) == Entry(1, Insertion)
  {
    CellFrom(s1, s2, 1, 1, Entry(0, Insertion), Entry(1, Deletion), Entry(1, Insertion));
    CellFrom(s1, s2, 1, 2, Entry(1, Insertion), Entry(0, MatchMismatch), Entry(2, Insertion));
    CellFrom(s1, s2, 1, 3, Entry(2, Insertion), Entry(1, Insertion), Entry(3, Insertion));
    CellFrom(s1, s2, 1, 4, Entry(3, Insertion), Entry(1, Insertion), Entry(4, Insertion));
    CellFrom(s1, s2, 1, 5, Entry(4, Insertion), Entry(1, Insertion), Entry(5, Insertion));
    CellFrom(s1, s2, 1, 6, Entry(5, Insertion), Entry(1, Insertion), Entry(6, Insertion));
  }

  /** Row 2 of the grid of LeadingGuanine. */
  lemma LeadingGuanineRow2(s1: seq<byte>, s2: seq<byte>)
    requires |s1| == 10 && s1[0] == 71 && s1[1] == 65 && s1[2] == 65 && s1[3] == 65 && s1[4] == 65 && s1[5] == 84 && s1[6] == 65 && s1[7] == 65 && s1[8] == 65 && s1[9] == 84
    requires |s2| == 6 && s2[0] == 71 && s2[1] == 65 && s2[2] == 84 && s2[3] == 65 && s2[4] == 65 && s2[5] == 84
    requires Cell(s1, s2, 1, 1) == Entry(0, MatchMismatch) && Cell(s1, s2, 1, 2) == Entry(1, Insertion) && Cell(s1, s2, 1, 3) == Entry(1, Insertion) && Cell(s1, s2, 1, 4) == Entry(1, Insertion) && Cell(s1, s2, 1, 5) == Entry(1, Insertion) && Cell(s1, s2, 1, 6) == Entry(1, Insertion)
    ensures Cell(s1, s2, 2, 1) == Entry(1, Deletion) && Cell(s1, s2, 2, 2) == Entry(0, MatchMismatch) && Cell(s1, s2, 2, 3) == Entry(1, Insertion) && Cell(s1, s2, 2, 4) == Entry(1, MatchMismatch) && Cell(s1, s2, 2, 5) == Entry(1, MatchMismatch) && Cell(s1, s2, 2, 6) == Entry(2, MatchMismatch)
  {
    CellFrom(s1, s2, 2, 1, Entry(1, Deletion), Entry(2, Deletion), Entry(0, MatchMismatch));
    CellFrom(s1, s2, 2, 2, Entry(0, MatchMismatch), Entry(1, Deletion), Entry(1, Insertion));
    CellFrom(s1, s2, 2, 3, Entry(1, Insertion), Entry(0, MatchMismatch), Entry(1, Insertion));
    CellFrom(s1, s2, 2, 4, Entry(1, Insertion), Entry(1, Insertion), Entry(1, Insertion));
    CellFrom(s1, s2, 2, 5, Entry(1, Insertion), Entry(1, MatchMismatch), Entry(1, Insertion));
    CellFrom(s1, s2, 2, 6, Entry(1, Insertion), Entry(1, MatchMismatch), Entry(1, Insertion));
  }

  /** Row 3 of the grid of LeadingGuanine. */
  lemma LeadingGuanineRow3(s1: seq<byte>, s2: seq<byte>)
    requires |s1| == 10 && s1[0] == 71 && s1[1] == 65 && s1[2] == 65 && s1[3] == 65 && s1[4] == 65 && s1[5] == 84 && s1[6] == 65 && s1[7] == 65 && s1[8] == 65 && s1[9] == 84
    requires |s2| == 6 && s2[0] == 71 && s2[1] == 65 && s2[2] == 84 && s2[3] == 65 && s2[4] == 65 && s2[5] == 84
    requires Cell(s1, s2, 2, 1) == Entry(1, Deletion) && Cell(s1, s2, 2, 2) == Entry(0, MatchMismatch) && Cell(s1, s2, 2, 3) == Entry(1, Insertion) && Cell(s1, s2, 2, 4) == Entry(1, MatchMismatch) && Cell(s1, s2, 2, 5) == Entry(1, MatchMismatch) && Cell(s1, s2, 2, 6) == Entry(2, MatchMismatch)
    ensures Cell(s1, s2, 3, 1) == Entry(1, Deletion) && Cell(s1, s2, 3, 2) == Entry(1, MatchMismatch) && Cell(s1, s2, 3, 3) == Entry(1, MatchMismatch) && Cell(s1, s2, 3, 4) == Entry(1, MatchMismatch) && Cell(s1, s2, 3, 5) == Entry(1, MatchMismatch) && Cell(s1, s2, 3, 6) == Entry(2, MatchMismatch)
  {
    CellFrom(s1, s2, 3, 1, Entry(2, Deletion), Entry(3, Deletion), Entry(1, Deletion));
    CellFrom(s1, s2, 3, 2, Entry(1, Deletion), Entry(1, Deletion), Entry(0, MatchMismatch));
    CellFrom(s1, s2, 3, 3, Entry(0, MatchMismatch), Entry(1, MatchMismatch), Entry(1, Insertion));
    CellFrom(s1, s2, 3, 4, Entry(1, Insertion), Entry(1, MatchMismatch), Entry(1, MatchMismatch));
    CellFrom(s1, s2, 3, 5, Entry(1, MatchMismatch), Entry(1, MatchMismatch), Entry(1, MatchMismatch));
    CellFrom(s1, s2, 3, 6, Entry(1, MatchMismatch), Entry(1, MatchMismatch), Entry(2, MatchMismatch));
  }

  /** Row 4 of the grid of LeadingGuanine. */
  lemma LeadingGuanineRow4(s1: seq<byte>, s2: seq<byte>)
    requires |s1| == 10 && s1[0] == 71 && s1[1] == 65 && s1[2] == 65 && s1[3] == 65 && s1[4] == 65 && s1[5] == 84 && s1[6] == 65 && s1[7] == 65 && s1[8] == 65 && s1[9] == 84
    requires |s2| == 6 && s2[0] == 71 && s2[1] == 65 && s2[2] == 84 && s2[3] == 65 && s2[4] == 65 && s2[5] == 84
    requires Cell(s1, s2, 3, 1) == Entry(1, Deletion) && Cell(s1, s2, 3, 2) == Entry(1, MatchMismatch) && Cell(s1, s2, 3, 3) == Entry(1, MatchMismatch) && Cell(s1, s2, 3, 4) == Entry(1, MatchMismatch) && Cell(s1, s2, 3, 5) == Entry(1, MatchMismatch) && Cell(s1, s2, 3, 6) == Entry(2, MatchMismatch)
    ensures Cell(s1, s2, 4, 1) == Entry(1, Deletion) && Cell(s1, s2, 4, 2) == Entry(1, MatchMismatch) && Cell(s1, s2, 4, 3) == Entry(2, MatchMismatch) && Cell(s1, s2, 4, 4) == Entry(1, MatchMismatch) && Cell(s1, s2, 4, 5) == Entry(1, MatchMismatch) && Cell(s1, s2, 4, 6) == Entry(2, MatchMismatch)
  {
    CellFrom(s1, s2, 4, 1, Entry(3, Deletion), Entry(4, Deletion), Entry(1, Deletion));
    CellFrom(s1, s2, 4, 2, Entry(1, Deletion), Entry(1, Deletion), Entry(1, MatchMismatch));
    CellFrom(s1, s2, 4, 3, Entry(1, MatchMismatch), Entry(1, MatchMismatch), Entry(1, MatchMismatch));
    CellFrom(s1, s2, 4, 4, Entry(1, MatchMismatch), Entry(2, MatchMismatch), Entry(1, MatchMismatch));
    CellFrom(s1, s2, 4, 5, Entry(1, MatchMismatch), Entry(1, MatchMismatch), Entry(1, MatchMismatch));
    CellFrom(s1, s2, 4, 6, Entry(1, MatchMismatch), Entry(1, MatchMismatch), Entry(2, MatchMismatch));
  }

  /** Row 5 of the grid of LeadingGuanine. */
  lemma LeadingGuanineRow5(s1: seq<byte>, s2: seq<byte>)
    requires |s1| == 10 && s1[0] == 71 && s1[1] == 65 && s1[2] == 65 && s1[3] == 65 && s1[4] == 65 && s1[5] == 84 && s1[6] == 65 && s1[7] == 65 && s1[8] == 65 && s1[9] == 84
    requires |s2| == 6 && s2[0] == 71 && s2[1] == 65 && s2[2] == 84 && s2[3] == 65 && s2[4] == 65 && s2[5] == 84
    requires Cell(s1, s2, 4, 1) == Entry(1, Deletion) && Cell(s1, s2, 4, 2) == Entry(1, MatchMismatch) && Cell(s1, s2, 4, 3) == Entry(2, MatchMismatch) && Cell(s1, s2, 4, 4) == Entry(1, MatchMismatch) && Cell(s1, s2, 4, 5) == Entry(1, MatchMismatch) && Cell(s1, s2, 4, 6) == Entry(2, MatchMismatch)
    ensures Cell(s1, s2, 5, 1) == Entry(1, Deletion) && Cell(s1, s2, 5, 2) == Entry(1, MatchMismatch) && Cell(s1, s2, 5, 3) == Entry(2, MatchMismatch) && Cell(s1, s2, 5, 4) == Entry(2, MatchMismatch) && Cell(s1, s2, 5, 5) == Entry(1, MatchMismatch) && Cell(s1, s2, 5, 6) == Entry(2, MatchMismatch)
  {
    CellFrom(s1, s2, 5, 1, Entry(4, Deletion), Entry(5, Deletion), Entry(1, Deletion));
    CellFrom(s1, s2, 5, 2, Entry(1, Deletion), Entry(1, Deletion), Entry(1, MatchMismatch));
    CellFrom(s1, s2, 5, 3, Entry(1, MatchMismatch), Entry(1, MatchMismatch), Entry(2, MatchMismatch));
    CellFrom(s1, s2, 5, 4, Entry(2, MatchMismatch), Entry(2, MatchMismatch), Entry(1, MatchMismatch));
    CellFrom(s1, s2, 5, 5, Entry(1, MatchMismatch), Entry(2, MatchMismatch), Entry(1, MatchMismatch));
    CellFrom(s1, s2, 5, 6, Entry(1, MatchMismatch), Entry(1, MatchMismatch), Entry(2, MatchMismatch));
  }

  /** Row 6 of the grid of LeadingGuanine. */
  lemma LeadingGuanineRow6(s1: seq<byte>, s2: seq<byte>)
    requires |s1| == 10 && s1[0] == 71 && s1[1] == 65 && s1[2] == 65 && s1[3] == 65 && s1[4] == 65 && s1[5] == 84 && s1[6] == 65 && s1[7] == 65 && s1[8] == 65 && s1[9] == 84
    requires |s2| == 6 && s2[0] == 71 && s2[1] == 65 && s2[2] == 84 && s2[3] == 65 && s2[4] == 65 && s2[5] == 84
    requires Cell(s1, s2, 5, 1) == Entry(1, Deletion) && Cell(s1, s2, 5, 2) == Entry(1, MatchMismatch) && Cell(s1, s2, 5, 3) == Entry(2, MatchMismatch) && Cell(s1, s2, 5, 4) == Entry(2, MatchMismatch) && Cell(s1, s2, 5, 5) == Entry(1, MatchMismatch) && Cell(s1, s2, 5, 6) == Entry(2, MatchMismatch)
    ensures Cell(s1, s2, 6, 1) == Entry(1, Deletion) && Cell(s1, s2, 6, 2) == Entry(2, MatchMismatch) && Cell(s1, s2, 6, 3) == Entry(1, MatchMismatch) && Cell(s1, s2, 6, 4) == Entry(2, Insertion) && Cell(s1, s2, 6, 5) == Entry(2, Deletion) && Cell(s1, s2, 6, 6) == Entry(1, MatchMismatch)
  {
    CellFrom(s1, s2, 6, 1, Entry(5, Deletion), Entry(6, Deletion), Entry(1, Deletion));
    CellFrom(s1, s2, 6, 2, Entry(1, Deletion), Entry(1, Deletion), Entry(1, MatchMismatch));
    CellFrom(s1, s2, 6, 3, Entry(1, MatchMismatch), Entry(2, MatchMismatch), Entry(2, MatchMismatch));
    CellFrom(s1, s2, 6, 4, Entry(2, MatchMismatch), Entry(1, MatchMismatch), Entry(2, MatchMismatch));
    CellFrom(s1, s2, 6, 5, Entry(2, MatchMismatch), Entry(2, Insertion), Entry(1, MatchMismatch));
    CellFrom(s1, s2, 6, 6, Entry(1, MatchMismatch), Entry(2, Deletion), Entry(2, MatchMismatch));
  }

  /** Row 7 of the grid of LeadingGuanine. */
  lemma LeadingGuanineRow7(s1: seq<byte>, s2: seq<byte>)
    requires |s1| == 10 && s1[0] == 71 && s1[1] == 65 && s1[2] == 65 && s1[3] == 65 && s1[4] == 65 && s1[5] == 84 && s1[6] == 65 && s1[7] == 65 && s1[8] == 65 && s1[9] == 84
    requires |s2| == 6 && s2[0] == 71 && s2[1] == 65 && s2[2] == 84 && s2[3] == 65 && s2[4] == 65 && s2[5] == 84
    requires Cell(s1, s2, 6, 1) == Entry(1, Deletion) && Cell(s1, s2, 6, 2) == Entry(2, MatchMismatch) && Cell(s1, s2, 6, 3) == Entry(1, MatchMismatch) && Cell(s1, s2, 6, 4) == Entry(2, Insertion) && Cell(s1, s2, 6, 5) == Entry(2, Deletion) && Cell(s1, s2, 6, 6) == Entry(1, MatchMismatch)
    ensures Cell(s1, s2, 7, 1) == Entry(1, Deletion) && Cell(s1, s2, 7, 2) == Entry(1, MatchMismatch) && Cell(s1, s2, 7, 3) == Entry(2, Deletion) && Cell(s1, s2, 7, 4) == Entry(1, MatchMismatch) && Cell(s1, s2, 7, 5) == Entry(2, MatchMismatch) && Cell(s1, s2, 7, 6) == Entry(2, Deletion)
  {
    CellFrom(s1, s2, 7, 1, Entry(6, Deletion), Entry(7, Deletion), Entry(1, Deletion));
    CellFrom(s1, s2, 7, 2, Entry(1, Deletion), Entry(1, Deletion), Entry(2, MatchMismatch));
    CellFrom(s1, s2, 7, 3, Entry(2, MatchMismatch), Entry(1, MatchMismatch), Entry(1, MatchMismatch));
    CellFrom(s1, s2, 7, 4, Entry(1, MatchMismatch), Entry(2, Deletion), Entry(2, Insertion));
    CellFrom(s1, s2, 7, 5, Entry(2, Insertion), Entry(1, MatchMismatch), Entry(2, Deletion));
    CellFrom(s1, s2, 7, 6, Entry(2, Deletion), Entry(2, MatchMismatch), Entry(1, MatchMismatch));
  }

  /** Row 8 of the grid of LeadingGuanine. */
  lemma LeadingGuanineRow8(s1: seq<byte>, s2: seq<byte>)
    requires |s1| == 10 && s1[0] == 71 && s1[1] == 65 && s1[2] == 65 && s1[3] == 65 && s1[4] == 65 && s1[5] == 84 && s1[6] == 65 && s1[7] == 65 && s1[8] == 65 && s1[9] == 84
    requires |s2| == 6 && s2[0] == 71 && s2[1] == 65 && s2[2] == 84 && s2[3] == 65 && s2[4] == 65 && s2[5] == 84
    requires Cell(s1, s2, 7, 1) == Entry(1, Deletion) && Cell(s1, s2, 7, 2) == Entry(1, MatchMismatch) && Cell(s1, s2, 7, 3) == Entry(2, Deletion) && Cell(s1, s2, 7, 4) == Entry(1, MatchMismatch) && Cell(s1, s2, 7, 5) == Entry(2, MatchMismatch) && Cell(s1, s2, 7, 6) == Entry(2, Deletion)
    ensures Cell(s1, s2, 8, 1) == Entry(1, Deletion) && Cell(s1, s2, 8, 2) == Entry(1, MatchMismatch) && Cell(s1, s2, 8, 3) == Entry(2, MatchMismatch) && Cell(s1, s2, 8, 4) == Entry(2, MatchMismatch) && Cell(s1, s2, 8, 5) == Entry(1, MatchMismatch) && Cell(s1, s2, 8, 6) == Entry(2, Deletion)
  {
    CellFrom(s1, s2, 8, 1, Entry(7, Deletion), Entry(8, Deletion), Entry(1, Deletion));
    CellFrom(s1, s2, 8, 2, Entry(1, Deletion), Entry(1, Deletion), Entry(1, MatchMismatch));
    CellFrom(s1, s2, 8, 3, Entry(1, MatchMismatch), Entry(1, MatchMismatch), Entry(2, Deletion));
    CellFrom(s1, s2, 8, 4, Entry(2, Deletion), Entry(2, MatchMismatch), Entry(1, MatchMismatch));
    CellFrom(s1, s2, 8, 5, Entry(1, MatchMismatch), Entry(2, MatchMismatch), Entry(2, MatchMismatch));
    CellFrom(s1, s2, 8, 6, Entry(2, MatchMismatch), Entry(1, MatchMismatch), Entry(2, Deletion));
  }

  /** Row 9 of the grid of LeadingGuanine. */
  lemma LeadingGuanineRow9(s1: seq<byte>, s2: seq<byte>)
    requires |s1| == 10 && s1[0] == 71 && s1[1] == 65 && s1[2] == 65 && s1[3] == 65 && s1[4] == 65 && s1[5] == 84 && s1[6] == 65 && s1[7] == 65 && s1[8] == 65 && s1[9] == 84
    requires |s2| == 6 && s2[0] == 71 && s2[1] == 65 && s2[2] == 84 && s2[3] == 65 && s2[4] == 65 && s2[5] == 84
    requires Cell(s1, s2, 8, 1) == Entry(1, Deletion) && Cell(s1, s2, 8, 2) == Entry(1, MatchMismatch) && Cell(s1, s2, 8, 3) == Entry(2, MatchMismatch) && Cell(s1, s2, 8, 4) == Entry(2, MatchMismatch) && Cell(s1, s2, 8, 5) == Entry(1, MatchMismatch) && Cell(s1, s2, 8, 6) == Entry(2, Deletion)
    ensures Cell(s1, s2, 9, 1) == Entry(1, Deletion) && Cell(s1, s2, 9, 2) == Entry(1, MatchMismatch) && Cell(s1, s2, 9, 3) == Entry(2, MatchMismatch) && Cell(s1, s2, 9, 4) == Entry(2, MatchMismatch) && Cell(s1, s2, 9, 5) == Entry(2, MatchMismatch) && Cell(s1, s2, 9, 6) == Entry(2, MatchMismatch)
  {
    CellFrom(s1, s2, 9, 1, Entry(8, Deletion), Entry(9, Deletion), Entry(1, Deletion));
    CellFrom(s1, s2, 9, 2, Entry(1, Deletion), Entry(1, Deletion), Entry(1, MatchMismatch));
    CellFrom(s1, s2, 9, 3, Entry(1, MatchMismatch), Entry(1, MatchMismatch), Entry(2, MatchMismatch));
    CellFrom(s1, s2, 9, 4, Entry(2, MatchMismatch), Entry(2, MatchMismatch), Entry(2, MatchMismatch));
    CellFrom(s1, s2, 9, 5, Entry(2, MatchMismatch), Entry(2, MatchMismatch), Entry(1, MatchMismatch));
    CellFrom(s1, s2, 9, 6, Entry(1, MatchMismatch), Entry(2, MatchMismatch), Entry(2, Deletion));
  }

  /** Row 10 of the grid of LeadingGuanine. */
  lemma LeadingGuanineRow10(s1: seq<byte>, s2: seq<byte>)
    requires |s1| == 10 && s1[0] == 71 && s1[1] == 65 && s1[2] == 65 && s1[3] == 65 && s1[4] == 65 && s1[5] == 84 && s1[6] == 65 && s1[7] == 65 && s1[8] == 65 && s1[9] == 84
    requires |s2| == 6 && s2[0] == 71 && s2[1] == 65 && s2[2] == 84 && s2[3] == 65 && s2[4] == 65 && s2[5] == 84
    requires Cell(s1, s2, 9, 1) == Entry(1, Deletion) && Cell(s1, s2, 9, 2) == Entry(1, MatchMismatch) && Cell(s1, s2, 9, 3) == Entry(2, MatchMismatch) && Cell(s1, s2, 9, 4) == Entry(2, MatchMismatch) && Cell(s1, s2, 9, 5) == Entry(2, MatchMismatch) && Cell(s1, s2, 9, 6) == Entry(2, MatchMismatch)
    ensures Cell(s1, s2, 10, 1) == Entry(1, Deletion) && Cell(s1, s2, 10, 2) == Entry(2, MatchMismatch) && Cell(s1, s2, 10, 3) == Entry(1, MatchMismatch) && Cell(s1, s2, 10, 4) == Entry(2, Insertion) && Cell(s1, s2, 10, 5) == Entry(2, Insertion) && Cell(s1, s2, 10, 6) == Entry(2, MatchMismatch)
  {
    CellFrom(s1, s2, 10, 1, Entry(9, Deletion), Entry(10, Deletion), Entry(1, Deletion));
    CellFrom(s1, s2, 10, 2, Entry(1, Deletion), Entry(1, Deletion), Entry(1, MatchMismatch));
    CellFrom(s1, s2, 10, 3, Entry(1, MatchMismatch), Entry(2, MatchMismatch), Entry(2, MatchMismatch));
    CellFrom(s1, s2, 10, 4, Entry(2, MatchMismatch), Entry(1, MatchMismatch), Entry(2, MatchMismatch));
    CellFrom(s1, s2, 10, 5, Entry(2, MatchMismatch), Entry(2, Insertion), Entry(2, MatchMismatch));
    CellFrom(s1, s2, 10, 6, Entry(2, MatchMismatch), Entry(2, Insertion), Entry(2, MatchMismatch));
  }

  /** The tags along the traceback path of LeadingGuanine. */
  lemma LeadingGuaninePathTags(s1: seq<byte>, s2: seq<byte>)
    requires |s1| == 10 && s1[0] == 71 && s1[1] == 65 && s1[2] == 65 && s1[3] == 65 && s1[4] == 65 && s1[5] == 84 && s1[6] == 65 && s1[7] == 65 && s1[8] == 65 && s1[9] == 84
    requires |s2| == 6 && s2[0] == 71 && s2[1] == 65 && s2[2] == 84 && s2[3] == 65 && s2[4] == 65 && s2[5] == 84
    ensures Cell(s1, s2, 1, 1).source == MatchMismatch && Cell(s1, s2, 2, 1).source == Deletion && Cell(s1, s2, 3, 1).source == Deletion && Cell(s1, s2, 4, 1).source == Deletion && Cell(s1, s2, 5, 2).source == MatchMismatch && Cell(s1, s2, 6, 3).source == MatchMismatch && Cell(s1, s2, 7, 3).source == Deletion && Cell(s1, s2, 8, 4).source == MatchMismatch && Cell(s1, s2, 9, 5).source == MatchMismatch && Cell(s1, s2, 10, 6).source == MatchMismatch
  {
    LeadingGuanineRow1(s1, s2);
    LeadingGuanineRow2(s1, s2);
    LeadingGuanineRow3(s1, s2);
    LeadingGuanineRow4(s1, s2);
    LeadingGuanineRow5(s1, s2);
    LeadingGuanineRow6(s1, s2);
    LeadingGuanineRow7(s1, s2);
    LeadingGuanineRow8(s1, s2);
    LeadingGuanineRow9(s1, s2);
    LeadingGuanineRow10(s1, s2);
  }

  /** Traceback steps 1 to 3 of LeadingGuanine. */
  lemma LeadingGuaninePath1(s1: seq<byte>, s2: seq<byte>)
    requires |s1| == 10 && s1[0] == 71 && s1[1] == 65 && s1[2] == 65 && s1[3] == 65 && s1[4] == 65 && s1[5] == 84 && s1[6] == 65 && s1[7] == 65 && s1[8] == 65 && s1[9] == 84
    requires |s2| == 6 && s2[0] == 71 && s2[1] == 65 && s2[2] == 84 && s2[3] == 65 && s2[4] == 65 && s2[5] == 84
    requires Cell(s1, s2, 1, 1).source == MatchMismatch && Cell(s1, s2, 2, 1).source == Deletion && Cell(s1, s2, 3, 1).source == Deletion && Cell(s1, s2, 4, 1).source == Deletion && Cell(s1, s2, 5, 2).source == MatchMismatch && Cell(s1, s2, 6, 3).source == MatchMismatch && Cell(s1, s2, 7, 3).source == Deletion && Cell(s1, s2, 8, 4).source == MatchMismatch && Cell(s1, s2, 9, 5).source == MatchMismatch && Cell(s1, s2, 10, 6).source == MatchMismatch
    ensures Trace(s1, s2, 3, 1).0 == [Base(71), Base(65), Base(65)]
    ensures Trace(s1, s2, 3, 1).1 == [Base(71), Gap, Gap]
  {
    assert Trace(s1, s2, 0, 0).0 == [] && Trace(s1, s2, 0, 0).1 == [];
    TraceFrom(s1, s2, 1, 1, [], [], Base(71), Base(71));
    TraceFrom(s1, s2, 2, 1, [Base(71)], [Base(71)], Base(65), Gap);
    TraceFrom(s1, s2, 3, 1, [Base(71), Base(65)], [Base(71), Gap], Base(65), Gap);
  }

  /** Traceback steps 4 to 6 of LeadingGuanine. */
  lemma LeadingGuaninePath2(s1: seq<byte>, s2: seq<byte>)
    requires |s1| == 10 && s1[0] == 71 && s1[1] == 65 && s1[2] == 65 && s1[3] == 65 && s1[4] == 65 && s1[5] == 84 && s1[6] == 65 && s1[7] == 65 && s1[8] == 65 && s1[9] == 84
    requires |s2| == 6 && s2[0] == 71 && s2[1] == 65 && s2[2] == 84 && s2[3] == 65 && s2[4] == 65 && s2[5] == 84
    requires Cell(s1, s2, 1, 1).source == MatchMismatch && Cell(s1, s2, 2, 1).source == Deletion && Cell(s1, s2, 3, 1).source == Deletion && Cell(s1, s2, 4, 1).source == Deletion && Cell(s1, s2, 5, 2).source == MatchMismatch && Cell(s1, s2, 6, 3).source == MatchMismatch && Cell(s1, s2, 7, 3).source == Deletion && Cell(s1, s2, 8, 4).source == MatchMismatch && Cell(s1, s2, 9, 5).source == MatchMismatch && Cell(s1, s2, 10, 6).source == MatchMismatch
    requires Trace(s1, s2, 3, 1).0 == [Base(71), Base(65), Base(65)] && Trace(s1, s2, 3, 1).1 == [Base(71), Gap, Gap]
    ensures Trace(s1, s2, 6, 3).0 == [Base(71), Base(65), Base(65), Base(65), Base(65), Base(84)]
    ensures Trace(s1, s2, 6, 3).1 == [Base(71), Gap, Gap, Gap, Base(65), Base(84)]
  {
    TraceFrom(s1, s2, 4, 1, [Base(71), Base(65), Base(65)], [Base(71), Gap, Gap], Base(65), Gap);
    TraceFrom(s1, s2, 5, 2, [Base(71), Base(65), Base(65), Base(65)], [Base(71), Gap, Gap, Gap], Base(65), Base(65));
    TraceFrom(s1, s2, 6, 3, [Base(71), Base(65), Base(65), Base(65), Base(65)], [Base(71), Gap, Gap, Gap, Base(65)], Base(84), Base(84));
  }

  /** Traceback steps 7 to 9 of LeadingGuanine. */
  lemma LeadingGuaninePath3(s1: seq<byte>, s2: seq<byte>)
    requires |s1| == 10 && s1[0] == 71 && s1[1] == 65 && s1[2] == 65 && s1[3] == 65 && s1[4] == 65 && s1[5] == 84 && s1[6] == 65 && s1[7] == 65 && s1[8] == 65 && s1[9] == 84
    requires |s2| == 6 && s2[0] == 71 && s2[1] == 65 && s2[2] == 84 && s2[3] == 65 && s2[4] == 65 && s2[5] == 84
    requires Cell(s1, s2, 1, 1).source == MatchMismatch && Cell(s1, s2, 2, 1).source == Deletion && Cell(s1, s2, 3, 1).source == Deletion && Cell(s1, s2, 4, 1).source == Deletion && Cell(s1, s2, 5, 2).source == MatchMismatch && Cell(s1, s2, 6, 3).source == MatchMismatch && Cell(s1, s2, 7, 3).source == Deletion && Cell(s1, s2, 8, 4).source == MatchMismatch && Cell(s1, s2, 9, 5).source == MatchMismatch && Cell(s1, s2, 10, 6).source == MatchMismatch
    requires Trace(s1, s2, 6, 3).0 == [Base(71), Base(65), Base(65), Base(65), Base(65), Base(84)] && Trace(s1, s2, 6, 3).1 == [Base(71), Gap, Gap, Gap, Base(65), Base(84)]
    ensures Trace(s1, s2, 9, 5).0 == [Base(71), Base(65), Base(65), Base(65), Base(65), Base(84), Base(65), Base(65), Base(65)]
    ensures Trace(s1, s2, 9, 5).1 == [Base(71), Gap, Gap, Gap, Base(65), Base(84), Gap, Base(65), Base(65)]
  {
    TraceFrom(s1, s2, 7, 3, [Base(71), Base(65), Base(65), Base(65), Base(65), Base(84)], [Base(71), Gap, Gap, Gap, Base(65), Base(84)], Base(65), Gap);
    TraceFrom(s1, s2, 8, 4, [Base(71), Base(65), Base(65), Base(65), Base(65), Base(84), Base(65)], [Base(71), Gap, Gap, Gap, Base(65), Base(84), Gap], Base(65), Base(65));
    TraceFrom(s1, s2, 9, 5, [Base(71), Base(65), Base(65), Base(65), Base(65), Base(84), Base(65), Base(65)], [Base(71), Gap, Gap, Gap, Base(65), Base(84), Gap, Base(65)], Base(65), Base(65));
  }

  /** Traceback steps 10 to 10 of LeadingGuanine. */
  lemma LeadingGuaninePath4(s1: seq<byte>, s2: seq<byte>)
    requires |s1| == 10 && s1[0] == 71 && s1[1] == 65 && s1[2] == 65 && s1[3] == 65 && s1[4] == 65 && s1[5] == 84 && s1[6] == 65 && s1[7] == 65 && s1[8] == 65 && s1[9] == 84
    requires |s2| == 6 && s2[0] == 71 && s2[1] == 65 && s2[2] == 84 && s2[3] == 65 && s2[4] == 65 && s2[5] == 84
    requires Cell(s1, s2, 1, 1).source == MatchMismatch && Cell(s1, s2, 2, 1).source == Deletion && Cell(s1, s2, 3, 1).source == Deletion && Cell(s1, s2, 4, 1).source == Deletion && Cell(s1, s2, 5, 2).source == MatchMismatch && Cell(s1, s2, 6, 3).source == MatchMismatch && Cell(s1, s2, 7, 3).source == Deletion && Cell(s1, s2, 8, 4).source == MatchMismatch && Cell(s1, s2, 9, 5).source == MatchMismatch && Cell(s1, s2, 10, 6).source == MatchMismatch
    requires Trace(s1, s2, 9, 5).0 == [Base(71), Base(65), Base(65), Base(65), Base(65), Base(84), Base(65), Base(65), Base(65)] && Trace(s1, s2, 9, 5).1 == [Base(71), Gap, Gap, Gap, Base(65), Base(84), Gap, Base(65), Base(65)]
    ensures Trace(s1, s2, 10, 6).0 == [Base(71), Base(65), Base(65), Base(65), Base(65), Base(84), Base(65), Base(65), Base(65), Base(84)]
    ensures Trace(s1, s2, 10, 6).1 == [Base(71), Gap, Gap, Gap, Base(65), Base(84), Gap, Base(65), Base(65), Base(84)]
  {
    TraceFrom(s1, s2, 10, 6, [Base(71), Base(65), Base(65), Base(65), Base(65), Base(84), Base(65), Base(65), Base(65)], [Base(71), Gap, Gap, Gap, Base(65), Base(84), Gap, Base(65), Base(65)], Base(84), Base(84));
  }

  /** The aligned strings of LeadingGuanine, printed with '-' for gaps. */
  lemma LeadingGuanineRendered()
    ensures Render([Base(71), Base(65), Base(65), Base(65), Base(65), Base(84), Base(65), Base(65), Base(65), Base(84)]) == Ascii("GAAAATAAAT")
    ensures Render([Base(71), Gap, Gap, Gap, Base(65), Base(84), Gap, Base(65), Base(65), Base(84)]) == Ascii("G---AT-AAT")
  {
  }

  /** The second documented example: ("GAAAATAAAT", "GATAAT") aligns as ("GAAAATAAAT", "G---AT-AAT"). */
  lemma LeadingGuanine(s1: seq<byte>, s2: seq<byte>)
    requires s1 == Ascii("GAAAATAAAT") && s2 == Ascii("GATAAT")
    ensures Render(GlobalAlignment(s1, s2).0) == Ascii("GAAAATAAAT")
    ensures Render(GlobalAlignment(s1, s2).1) == Ascii("G---AT-AAT")
  {
    assert |s1| == 10 && s1[0] == 71 && s1[1] == 65 && s1[2] == 65 && s1[3] == 65 && s1[4] == 65 && s1[5] == 84 && s1[6] == 65 && s1[7] == 65 && s1[8] == 65 && s1[9] == 84;
    assert |s2| == 6 && s2[0] == 71 && s2[1] == 65 && s2[2] == 84 && s2[3] == 65 && s2[4] == 65 && s2[5] == 84;
    LeadingGuaninePathTags(s1, s2);
    LeadingGuaninePath1(s1, s2);
    LeadingGuaninePath2(s1, s2);
    LeadingGuaninePath3(s1, s2);
    LeadingGuaninePath4(s1, s2);
    LeadingGuanineRendered();
  }

  /** Row r of the tag grid holds the tags of cells (r, 0) .. (r, upto - 1). */
  ghost predicate RowHolds(matrix: array2<Source>, s1: seq<byte>, s2: seq<byte>, r: nat, upto: nat)
    reads matrix
    requires r < matrix.Length0 == |s1| + 1 && upto <= matrix.Length1 == |s2| + 1
  {
    forall c :: 0 <= c < upto ==> matrix[r, c] == Cell(s1, s2, r, c).source
  }

  /** Rows 0 .. upto - 1 of the tag grid are complete. */
  ghost predicate RowsHold(matrix: array2<Source>, s1: seq<byte>, s2: seq<byte>, upto: nat)
    reads matrix
    requires upto <= matrix.Length0 == |s1| + 1 && matrix.Length1 == |s2| + 1
  {
    forall r, c :: 0 <= r < upto && 0 <= c <= |s2| ==> matrix[r, c] == Cell(s1, s2, r, c).source
  }

  /** An array of entries holds cells (r, 0) .. (r, upto - 1). */
  ghost predicate EntriesHold(a: seq<Entry>, s1: seq<byte>, s2: seq<byte>, r: nat, upto: nat)
    requires r <= |s1| && upto <= |a| == |s2| + 1
  {
    forall c :: 0 <= c < upto ==> a[c] == Cell(s1, s2, r, c)
  }

  /**
   * Copies the tags of a computed row r into row r of the grid, which then
   * holds rows 0 .. r.
   */
  method StoreRow(matrix: array2<Source>, seq1: seq<byte>, seq2: seq<byte>, r: nat, entries: array<Entry>)
    requires r < matrix.Length0 == |seq1| + 1 && matrix.Length1 == |seq2| + 1 == entries.Length
    requires RowsHold(matrix, seq1, seq2, r)
    requires EntriesHold(entries[..], seq1, seq2, r, |seq2| + 1)
    modifies matrix
    ensures RowsHold(matrix, seq1, seq2, r + 1)
  {
    for col := 0 to |seq2| + 1
      invariant RowsHold(matrix, seq1, seq2, r)
      invariant RowHolds(matrix, seq1, seq2, r, col)
    {
      matrix[r, col] := entries[col].source;
    }
  }

  /**
   * One row of the recurrence: given row r - 1 in prev, a fresh array holding
   * row r, each interior cell the cheapest of its three candidates.
   */
  method ComputeRow(seq1: seq<byte>, seq2: seq<byte>, prev: array<Entry>, row: nat) returns (curr: array<Entry>)
    requires 1 <= row <= |seq1| && prev.Length == |seq2| + 1
    requires EntriesHold(prev[..], seq1, seq2, row - 1, |seq2| + 1)
    ensures fresh(curr) && curr.Length == |seq2| + 1
    ensures EntriesHold(curr[..], seq1, seq2, row, |seq2| + 1)
  {
    var cols := |seq2| + 1;
    curr := new Entry[cols](_ => Entry(0, Default));
    curr[0] := Entry(row, Deletion);
    for col := 1 to cols
      invariant EntriesHold(curr[..], seq1, seq2, row, col)
    {
      var matchmismatch := Entry(prev[col - 1].value + Penalty(seq1[row - 1] != seq2[col - 1]), MatchMismatch);
      var insertion := Entry(curr[col - 1].value + Penalty(curr[col - 1].source != Insertion), Insertion);
      var deletion := Entry(prev[col].value + Penalty(prev[col].source != Deletion), Deletion);
      if matchmismatch.value <= insertion.value && matchmismatch.value <= deletion.value {
        curr[col] := matchmismatch;
      } else if deletion.value <= insertion.value {
        curr[col] := deletion;
      } else {
        curr[col] := insertion;
      }
      assert curr[col] == Cell(seq1, seq2, row, col);
    }
  }

  /**
   * The fill phase: the rolling rows compute every cell, and every row's
   * tags are copied into the grid (the last row as soon as it is ready).
   */
  method FillTags(seq1: seq<byte>, seq2: seq<byte>) returns (matrix: array2<Source>)
    ensures fresh(matrix)
    ensures matrix.Length0 == |seq1| + 1 && matrix.Length1 == |seq2| + 1
    ensures |seq1| >= 1 ==> RowsHold(matrix, seq1, seq2, |seq1| + 1)
  {
    var rows, cols := |seq1| + 1, |seq2| + 1;
    matrix := new Source[rows, cols]((_, _) => Default);
    var prev := new Entry[cols](_ => Entry(0, Default));
    for col := 0 to cols
      modifies prev
      invariant EntriesHold(prev[..], seq1, seq2, 0, col)
    {
      prev[col] := Entry(col, Insertion);
    }
    for row := 1 to rows
      invariant prev.Length == cols
      invariant EntriesHold(prev[..], seq1, seq2, row - 1, cols)
      invariant RowsHold(matrix, seq1, seq2, row - 1)
      invariant row == rows && rows >= 2 ==> RowsHold(matrix, seq1, seq2, rows)
    {
      prev := AdvanceRow(matrix, seq1, seq2, prev, row);
    }
  }

  /**
   * One pass of the fill loop: compute row `row` from `prev`, copy the tags
   * of `prev` into the grid, and those of the new row too when it is the
   * last one.
   */
  method AdvanceRow(matrix: array2<Source>, seq1: seq<byte>, seq2: seq<byte>, prev: array<Entry>, row: nat)
    returns (curr: array<Entry>)
    requires 1 <= row <= |seq1|
    requires matrix.Length0 == |seq1| + 1 && matrix.Length1 == |seq2| + 1 == prev.Length
    requires EntriesHold(prev[..], seq1, seq2, row - 1, |seq2| + 1)
    requires RowsHold(matrix, seq1, seq2, row - 1)
    modifies matrix
    ensures fresh(curr) && curr.Length == |seq2| + 1
    ensures EntriesHold(curr[..], seq1, seq2, row, |seq2| + 1)
    ensures RowsHold(matrix, seq1, seq2, row)
    ensures row == |seq1| ==> RowsHold(matrix, seq1, seq2, row + 1)
  {
    curr := ComputeRow(seq1, seq2, prev, row);
    StoreRow(matrix, seq1, seq2, row - 1, prev);
    if row == |seq1| {
      StoreRow(matrix, seq1, seq2, row, curr);
    }
  }

  /**
   * Traceback progress: the pushed strings reversed, after the traceback
   * still to be done from (r, c), make up the whole traceback w.
   */
  ghost predicate Pending(w: (seq<Sym>, seq<Sym>), s1: seq<byte>, s2: seq<byte>, r: nat, c: nat, a1: seq<Sym>, a2: seq<Sym>)
    requires r <= |s1| && c <= |s2|
  {
    w.0 == Trace(s1, s2, r, c).0 + Reverse(a1) && w.1 == Trace(s1, s2, r, c).1 + Reverse(a2)
  }

  lemma PendingStart(s1: seq<byte>, s2: seq<byte>)
    ensures Pending(Trace(s1, s2, |s1|, |s2|), s1, s2, |s1|, |s2|, [], [])
  {
    var t := Trace(s1, s2, |s1|, |s2|);
    PendingEmpty(t.0);
    PendingEmpty(t.1);
  }

  /** One traceback step pushes the step's symbols and moves to its predecessor cell. */
  lemma PendingStep(w: (seq<Sym>, seq<Sym>), s1: seq<byte>, s2: seq<byte>, r: nat, c: nat, a1: seq<Sym>, a2: seq<Sym>)
    requires r <= |s1| && c <= |s2| && (r > 0 || c > 0)
    requires Pending(w, s1, s2, r, c, a1, a2)
    ensures var m := StepFrom(Cell(s1, s2, r, c).source, s1, s2, r, c);
      Pending(w, s1, s2, m.row, m.col, a1 + [m.sym1], a2 + [m.sym2])
  {
    var m := StepFrom(Cell(s1, s2, r, c).source, s1, s2, r, c);
    var t := Trace(s1, s2, m.row, m.col);
    assert Trace(s1, s2, r, c).0 == t.0 + [m.sym1] && Trace(s1, s2, r, c).1 == t.1 + [m.sym2];
    PendingShift(w.0, t.0, a1, m.sym1);
    PendingShift(w.1, t.1, a2, m.sym2);
  }

  lemma PendingDone(w: (seq<Sym>, seq<Sym>), s1: seq<byte>, s2: seq<byte>, a1: seq<Sym>, a2: seq<Sym>)
    requires Pending(w, s1, s2, 0, 0, a1, a2)
    ensures w == (Reverse(a1), Reverse(a2))
  {
    assert Trace(s1, s2, 0, 0) == ([], []);
    assert w.0 == [] + Reverse(a1) && w.1 == [] + Reverse(a2);
    assert w.0 == Reverse(a1) && w.1 == Reverse(a2);
  }

  /**
   * needleman_wunsch: a global alignment of the two inputs, the longer one
   * first; it is the traceback of the cost grid, so gaps removed it gives
   * back both inputs.
   */
  method NeedlemanWunsch(seq1: seq<byte>, seq2: seq<byte>) returns (alignment1: seq<Sym>, alignment2: seq<Sym>)
    ensures (alignment1, alignment2) == GlobalAlignment(seq1, seq2)
    ensures Aligned(alignment1, alignment2)
    ensures Strip(alignment1) == (if |seq1| < |seq2| then seq2 else seq1)
    ensures Strip(alignment2) == (if |seq1| < |seq2| then seq1 else seq2)
    decreases if |seq1| < |seq2| then 1 else 0
  {
    GlobalAlignmentCorrect(seq1, seq2);
    if |seq1| < |seq2| {
      alignment1, alignment2 := NeedlemanWunsch(seq2, seq1);
      return;
    }
    var matrix := FillTags(seq1, seq2);
    TagGridShape(seq1, seq2);
    alignment1, alignment2 := TraceTags(seq1, seq2, matrix);
  }

  /**
   * One arm of the traceback's match: push the column the source tag names
   * and move the cursor back.
   */
  method TraceStep(aligner: Aligner, seq1: seq<byte>, seq2: seq<byte>, source: Source)
    requires aligner.row <= |seq1| && aligner.col <= |seq2|
    requires source != Default
    requires source == MatchMismatch ==> aligner.row >= 1 && aligner.col >= 1
    requires source == Insertion ==> aligner.col >= 1
    requires source == Deletion ==> aligner.row >= 1
    modifies aligner
    ensures var m := StepFrom(source, seq1, seq2, old(aligner.row), old(aligner.col));
      && aligner.alignment1 == old(aligner.alignment1) + [m.sym1]
      && aligner.alignment2 == old(aligner.alignment2) + [m.sym2]
      && aligner.row == m.row && aligner.col == m.col
  {
    match source {
      case MatchMismatch =>
        aligner.alignment1 := aligner.alignment1 + [Base(seq1[aligner.row - 1])];
        aligner.alignment2 := aligner.alignment2 + [Base(seq2[aligner.col - 1])];
        aligner.ShiftMatchMismatch();
      case Insertion =>
        aligner.alignment1 := aligner.alignment1 + [Gap];
        aligner.alignment2 := aligner.alignment2 + [Base(seq2[aligner.col - 1])];
        aligner.ShiftInsertion();
      case Deletion =>
        aligner.alignment1 := aligner.alignment1 + [Base(seq1[aligner.row - 1])];
        aligner.alignment2 := aligner.alignment2 + [Gap];
        aligner.ShiftDeletion();
    }
  }

  /**
   * The traceback: from the bottom-right cell, follow the recorded tags to
   * the origin, pushing one column of the alignment per step, then reverse.
   */
  method TraceTags(seq1: seq<byte>, seq2: seq<byte>, matrix: array2<Source>) returns (alignment1: seq<Sym>, alignment2: seq<Sym>)
    requires matrix.Length0 == |seq1| + 1 && matrix.Length1 == |seq2| + 1
    requires |seq1| >= 1 ==> RowsHold(matrix, seq1, seq2, |seq1| + 1)
    requires |seq2| <= |seq1|
    ensures (alignment1, alignment2) == Trace(seq1, seq2, |seq1|, |seq2|)
  {
    TagGridShape(seq1, seq2);
    var aligner := new Aligner(|seq1|, |seq2|);
    ghost var whole := Trace(seq1, seq2, |seq1|, |seq2|);
    ghost var r, c, a1, a2 := |seq1|, |seq2|, [], [];
    PendingStart(seq1, seq2);
    while aligner.row > 0 || aligner.col > 0
      invariant aligner.row == r <= |seq1| && aligner.col == c <= |seq2|
      invariant aligner.alignment1 == a1 && aligner.alignment2 == a2
      invariant Pending(whole, seq1, seq2, r, c, a1, a2)
      decreases r + c
      modifies aligner
    {
      var source := matrix[aligner.row, aligner.col];
      assert source == Cell(seq1, seq2, r, c).source;
      ghost var m := StepFrom(source, seq1, seq2, r, c);
      PendingStep(whole, seq1, seq2, r, c, a1, a2);
      r, c, a1, a2 := m.row, m.col, a1 + [m.sym1], a2 + [m.sym2];
      TraceStep(aligner, seq1, seq2, source);
    }
    PendingDone(whole, seq1, seq2, aligner.alignment1, aligner.alignment2);
    alignment1, alignment2 := Reverse(aligner.alignment1), Reverse(aligner.alignment2);
  }
}
