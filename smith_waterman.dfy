/**
 * Smith-Waterman local alignment over a full score-and-tag grid.  The
 * longer input indexes the rows.  Scores: a match +3, a mismatch -3, the
 * first step of a run of insertions or of deletions -2, each further step
 * of the same run 0; row 0 and column 0 score 0 and nothing is clamped at
 * 0.  The best score is tracked during the fill with `>=`, so the last
 * best cell in row-major order is the anchor; the traceback runs from the
 * anchor to the first cell scoring exactly 0.
 */
module SmithWaterman {
  import opened Alphabet
  import opened Traceback
  import opened Wrappers

  /** A score together with the recurrence branch that produced it. */
  datatype Entry = Entry(value: int, source: Source)

  /**
   * The highest of the three candidates; on a tie match/mismatch wins over
   * deletion, and deletion over insertion.
   */
  function ChooseMax(mm: int, ins: int, del: int): (e: Entry)
    ensures e.value >= mm && e.value >= ins && e.value >= del
    ensures e.source != Default
    ensures e.source == MatchMismatch ==> e.value == mm
    ensures e.source == Deletion ==> e.value == del > mm
    ensures e.source == Insertion ==> e.value == ins > mm && ins > del
  {
    if mm >= ins && mm >= del then Entry(mm, MatchMismatch)
    else if del >= ins then Entry(del, Deletion)
    else Entry(ins, Insertion)
  }

  /** The diagonal score change: +3 for equal bytes, -3 otherwise. */
  function Similarity(x: byte, y: byte): int
  {
    if x == y then 3 else -3
  }

  /** The gap cost of extending from a neighbour: 0 inside a run of the same kind, -2 to open one. */
  function GapOpen(b: bool): int
  {
    if b then -2 else 0
  }

  /**
   * Cell (r, c) of the grid over s1 (rows) and s2 (columns): row 0 right of
   * the origin holds (0, Insertion), column 0 (the origin included, which
   * the second boundary loop overwrites) holds (0, Deletion), and an
   * interior cell the choice among its three candidates.  (The second
   * decreases component only names s1, so that cells of symbolic strings
   * are not evaluated eagerly.)
   */
  function Cell(s1: seq<byte>, s2: seq<byte>, r: nat, c: nat): Entry
    requires r <= |s1| && c <= |s2|
    decreases r + c, |s1|
  {
    if c == 0 then Entry(0, Deletion)
    else if r == 0 then Entry(0, Insertion)
    else
      var diag, left, up := Cell(s1, s2, r - 1, c - 1), Cell(s1, s2, r, c - 1), Cell(s1, s2, r - 1, c);
      ChooseMax(diag.value + Similarity(s1[r - 1], s2[c - 1]),
                left.value + GapOpen(left.source != Insertion),
                up.value + GapOpen(up.source != Deletion))
  }

  /** The boundary: every row-0 and column-0 cell scores 0, tagged as the boundary loops leave it. */
  lemma BoundaryCells(s1: seq<byte>, s2: seq<byte>)
    ensures forall c :: 1 <= c <= |s2| ==> Cell(s1, s2, 0, c) == Entry(0, Insertion)
    ensures forall r :: 0 <= r <= |s1| ==> Cell(s1, s2, r, 0) == Entry(0, Deletion)
  {
  }

  /** The running maximum of the fill: its score and where it was last reached. */
  datatype Best = Best(value: int, row: nat, col: nat)

  /** One cell of the scan: a score at least the running maximum replaces it. */
  function Update(b: Best, v: int, r: nat, c: nat): Best
  {
    if v >= b.value then Best(v, r, c) else b
  }

  /** The scores of the grid, 0 off it. */
  function Scores(s1: seq<byte>, s2: seq<byte>): (nat, nat) -> int
  {
    (i: nat, j: nat) => if i <= |s1| && j <= |s2| then Cell(s1, s2, i, j).value else 0
  }

  /** The scan of row r of the grid, columns 1 .. c, starting from b. */
  function ScanRow(s1: seq<byte>, s2: seq<byte>, r: nat, c: nat, b: Best): Best
    requires 1 <= r <= |s1| && c <= |s2|
  {
    if c == 0 then b else Update(ScanRow(s1, s2, r, c - 1, b), Cell(s1, s2, r, c).value, r, c)
  }

  /** The scan of rows 1 .. r in row-major order, from maximum 0 at the origin. */
  function ScanRows(s1: seq<byte>, s2: seq<byte>, r: nat): Best
    requires r <= |s1|
  {
    if r == 0 then Best(0, 0, 0) else ScanRow(s1, s2, r, |s2|, ScanRows(s1, s2, r - 1))
  }

  /** The anchor: where the fill leaves the running maximum. */
  function Anchor(s1: seq<byte>, s2: seq<byte>): Best
  {
    ScanRows(s1, s2, |s1|)
  }

  /** The same scan over any scores g, row r, columns 1 .. c. */
  function ScoreScanRow(g: (nat, nat) -> int, r: nat, c: nat, b: Best): Best
  {
    if c == 0 then b else Update(ScoreScanRow(g, r, c - 1, b), g(r, c), r, c)
  }

  /** The same scan over any scores g, rows 1 .. r of width n. */
  function ScoreScanRows(g: (nat, nat) -> int, n: nat, r: nat): Best
  {
    if r == 0 then Best(0, 0, 0) else ScoreScanRow(g, r, n, ScoreScanRows(g, n, r - 1))
  }

  lemma {:induction false} ScanRowAgrees(s1: seq<byte>, s2: seq<byte>, g: (nat, nat) -> int, r: nat, c: nat, b: Best)
    requires 1 <= r <= |s1| && c <= |s2|
    requires forall j: nat :: 1 <= j <= c ==> g(r, j) == Cell(s1, s2, r, j).value
    ensures ScanRow(s1, s2, r, c, b) == ScoreScanRow(g, r, c, b)
  {
    if c > 0 {
      ScanRowAgrees(s1, s2, g, r, c - 1, b);
    }
  }

  /** The grid's scan is the scan of any scores that agree with the grid inside it. */
  lemma {:induction false} ScanRowsAgree(s1: seq<byte>, s2: seq<byte>, g: (nat, nat) -> int, r: nat)
    requires r <= |s1|
    requires forall i: nat, j: nat :: 1 <= i <= r && 1 <= j <= |s2| ==> g(i, j) == Cell(s1, s2, i, j).value
    ensures ScanRows(s1, s2, r) == ScoreScanRows(g, |s2|, r)
  {
    if r > 0 {
      ScanRowsAgree(s1, s2, g, r - 1);
      ScanRowAgrees(s1, s2, g, r, |s2|, ScanRows(s1, s2, r - 1));
    }
  }

  /** Interior cell (i, j) of rows of width n comes no later than (r, c) in row-major order. */
  predicate Scanned(n: nat, i: nat, j: nat, r: nat, c: nat)
  {
    1 <= i && 1 <= j <= n && (i < r || (i == r && j <= c))
  }

  /** Every interior cell scanned up to (r, c) scores below 0. */
  ghost predicate AllNegative(g: (nat, nat) -> int, n: nat, r: nat, c: nat)
  {
    forall i: nat, j: nat :: Scanned(n, i, j, r, c) ==> g(i, j) < 0
  }

  /**
   * What the running maximum knows after the scan reached (r, c): it is at
   * least 0 and at least every scanned score; it stays at the origin only
   * while every scanned score is negative; otherwise it sits on a scanned
   * cell holding its score, and every cell scanned after that one scores
   * less.
   */
  ghost predicate ScanInv(g: (nat, nat) -> int, n: nat, b: Best, r: nat, c: nat)
  {
    && b.value >= 0
    && (forall i: nat, j: nat :: Scanned(n, i, j, r, c) ==> g(i, j) <= b.value)
    && (b.row == 0 ==> b.col == 0 && b.value == 0 && AllNegative(g, n, r, c))
    && (b.row != 0 ==>
          && Scanned(n, b.row, b.col, r, c)
          && g(b.row, b.col) == b.value
          && (forall i: nat, j: nat :: Scanned(n, i, j, r, c) && !Scanned(n, i, j, b.row, b.col) ==>
                g(i, j) < b.value))
  }

  lemma {:induction false} ScanRowInv(g: (nat, nat) -> int, n: nat, r: nat, c: nat, b: Best)
    requires 1 <= r && c <= n
    requires ScanInv(g, n, b, r - 1, n)
    ensures ScanInv(g, n, ScoreScanRow(g, r, c, b), r, c)
  {
    if c == 0 {
      assert forall i, j :: Scanned(n, i, j, r, 0) <==> Scanned(n, i, j, r - 1, n);
    } else {
      ScanRowInv(g, n, r, c - 1, b);
    }
  }

  lemma {:induction false} ScanRowsInv(g: (nat, nat) -> int, n: nat, r: nat)
    ensures ScanInv(g, n, ScoreScanRows(g, n, r), r, n)
  {
    if r > 0 {
      ScanRowsInv(g, n, r - 1);
      ScanRowInv(g, n, r, n, ScoreScanRows(g, n, r - 1));
    }
  }

  /**
   * The anchor is 0 at the origin or an interior cell; its score is at least
   * 0 and at least every interior score; an interior anchor holds that
   * score, and every cell after it in row-major order scores less.
   */
  lemma AnchorMaximal(s1: seq<byte>, s2: seq<byte>)
    ensures var b := Anchor(s1, s2);
      && b.value >= 0
      && (b.row == 0 ==> b == Best(0, 0, 0))
      && (b.row != 0 ==> 1 <= b.row <= |s1| && 1 <= b.col <= |s2| && Cell(s1, s2, b.row, b.col).value == b.value)
      && (forall i: nat, j: nat :: 1 <= i <= |s1| && 1 <= j <= |s2| ==> Cell(s1, s2, i, j).value <= b.value)
      && (forall i: nat, j: nat :: 1 <= i <= |s1| && 1 <= j <= |s2| && (i > b.row || (i == b.row && j > b.col)) ==>
            Cell(s1, s2, i, j).value < b.value)
  {
    var g := Scores(s1, s2);
    ScanRowsAgree(s1, s2, g, |s1|);
    ScanRowsInv(g, |s2|, |s1|);
    var b := Anchor(s1, s2);
    if b.row != 0 {
      assert g(b.row, b.col) == Cell(s1, s2, b.row, b.col).value;
    }
    forall i: nat, j: nat | 1 <= i <= |s1| && 1 <= j <= |s2|
      ensures Cell(s1, s2, i, j).value <= b.value
    {
      assert Scanned(|s2|, i, j, |s1|, |s2|) && g(i, j) == Cell(s1, s2, i, j).value;
    }
    forall i: nat, j: nat | 1 <= i <= |s1| && 1 <= j <= |s2| && (i > b.row || (i == b.row && j > b.col))
      ensures Cell(s1, s2, i, j).value < b.value
    {
      assert Scanned(|s2|, i, j, |s1|, |s2|) && g(i, j) == Cell(s1, s2, i, j).value;
      assert !Scanned(|s2|, i, j, b.row, b.col);
    }
  }

  /** The interior scores of the whole grid are all negative exactly when the anchor stays at the origin. */
  lemma AnchorOrigin(s1: seq<byte>, s2: seq<byte>)
    ensures var b := Anchor(s1, s2);
      b.row == 0 <==> forall i: nat, j: nat :: 1 <= i <= |s1| && 1 <= j <= |s2| ==> Cell(s1, s2, i, j).value < 0
  {
    AnchorMaximal(s1, s2);
    var b := Anchor(s1, s2);
    if b.row != 0 {
      assert Cell(s1, s2, b.row, b.col).value >= 0;
    }
  }

  /** A traceback: the two aligned strings in output order and the cell it stopped on. */
  datatype Path = Path(alignment1: seq<Sym>, alignment2: seq<Sym>, row: nat, col: nat)

  /**
   * The traceback from interior cell (r, c): take the step the tag names,
   * then stop if the cell reached scores exactly 0, otherwise go on from it.
   */
  function TraceFrom(s1: seq<byte>, s2: seq<byte>, r: nat, c: nat): Path
    requires 1 <= r <= |s1| && 1 <= c <= |s2|
    decreases r + c, |s1|
  {
    var m := StepFrom(Cell(s1, s2, r, c).source, s1, s2, r, c);
    if Cell(s1, s2, m.row, m.col).value == 0 then Path([m.sym1], [m.sym2], m.row, m.col)
    else
      var p := TraceFrom(s1, s2, m.row, m.col);
      Path(p.alignment1 + [m.sym1], p.alignment2 + [m.sym2], p.row, p.col)
  }

  /**
   * The traceback from (r, c) ends on a cell scoring 0 strictly before
   * (r, c), takes at least one step, and aligns the slices s1[row..r] and
   * s2[col..c] between that cell and (r, c).
   */
  lemma {:induction false} TraceFromCorrect(s1: seq<byte>, s2: seq<byte>, r: nat, c: nat)
    requires 1 <= r <= |s1| && 1 <= c <= |s2|
    ensures var p := TraceFrom(s1, s2, r, c);
      && p.row <= r && p.col <= c && p.row + p.col < r + c
      && Cell(s1, s2, p.row, p.col).value == 0
      && |p.alignment1| >= 1
      && Aligned(p.alignment1, p.alignment2)
      && Strip(p.alignment1) == s1[p.row..r]
      && Strip(p.alignment2) == s2[p.col..c]
    decreases r + c
  {
    var m := StepFrom(Cell(s1, s2, r, c).source, s1, s2, r, c);
    var p := TraceFrom(s1, s2, r, c);
    if Cell(s1, s2, m.row, m.col).value == 0 {
      assert Strip([]) == [];
      StepStrip(m, s1, s2, r, c, m.row, m.col, [], []);
      AlignedSnoc([], [], m.sym1, m.sym2);
    } else {
      var q := TraceFrom(s1, s2, m.row, m.col);
      TraceFromCorrect(s1, s2, m.row, m.col);
      StepStrip(m, s1, s2, r, c, q.row, q.col, q.alignment1, q.alignment2);
      AlignedSnoc(q.alignment1, q.alignment2, m.sym1, m.sym2);
    }
  }

  /** What a local alignment reports: the aligned strings, where the traceback stopped, and the anchor. */
  datatype LocalAlignment = LocalAlignment(alignment1: seq<Sym>, alignment2: seq<Sym>,
                                           startRow: nat, startCol: nat, endRow: nat, endCol: nat)

  /**
   * The failure of the source: with the anchor still at the origin the
   * traceback reads the origin's Deletion tag and decrements row 0.
   */
  datatype LocalError = OriginUnderflow

  /** smith_waterman(seq1, seq2), returning what the source prints. */
  function LocalAlign(s1: seq<byte>, s2: seq<byte>): Result<LocalAlignment, LocalError>
    decreases if |s1| < |s2| then 1 else 0
  {
    if |s1| < |s2| then LocalAlign(s2, s1)
    else
      var b := Anchor(s1, s2);
      if b.row == 0 then Err(OriginUnderflow)
      else
        AnchorMaximal(s1, s2);
        var p := TraceFrom(s1, s2, b.row, b.col);
        Ok(LocalAlignment(p.alignment1, p.alignment2, p.row, p.col, b.row, b.col))
  }

  /** A shorter first argument is swapped; equal lengths are not. */
  lemma LocalAlignSwap(s1: seq<byte>, s2: seq<byte>)
    requires |s1| < |s2|
    ensures LocalAlign(s1, s2) == LocalAlign(s2, s1)
  {
  }

  /**
   * Whatever the argument order, with t1 the longer input (rows) and t2 the
   * other: the alignment fails exactly when every interior score is
   * negative; otherwise it ends on the anchor, a best interior cell with no
   * equal score after it in row-major order, starts on a cell scoring 0
   * before it, and aligns the slices of t1 and t2 between the two.
   */
  lemma LocalAlignCorrect(s1: seq<byte>, s2: seq<byte>)
    ensures var t1, t2 := (if |s1| < |s2| then s2 else s1), (if |s1| < |s2| then s1 else s2);
      && |t1| >= |t2|
      && (LocalAlign(s1, s2).Err? <==>
            forall i: nat, j: nat :: 1 <= i <= |t1| && 1 <= j <= |t2| ==> Cell(t1, t2, i, j).value < 0)
      && (LocalAlign(s1, s2).Ok? ==>
            var a := LocalAlign(s1, s2).value;
            && 1 <= a.endRow <= |t1| && 1 <= a.endCol <= |t2|
            && Cell(t1, t2, a.endRow, a.endCol).value >= 0
            && (forall i: nat, j: nat :: 1 <= i <= |t1| && 1 <= j <= |t2| ==>
                  Cell(t1, t2, i, j).value <= Cell(t1, t2, a.endRow, a.endCol).value)
            && (forall i: nat, j: nat :: 1 <= i <= |t1| && 1 <= j <= |t2| && (i > a.endRow || (i == a.endRow && j > a.endCol)) ==>
                  Cell(t1, t2, i, j).value < Cell(t1, t2, a.endRow, a.endCol).value)
            && a.startRow <= a.endRow && a.startCol <= a.endCol && a.startRow + a.startCol < a.endRow + a.endCol
            && Cell(t1, t2, a.startRow, a.startCol).value == 0
            && |a.alignment1| >= 1
            && Aligned(a.alignment1, a.alignment2)
            && Strip(a.alignment1) == t1[a.startRow..a.endRow]
            && Strip(a.alignment2) == t2[a.startCol..a.endCol])
  {
    var t1, t2 := (if |s1| < |s2| then s2 else s1), (if |s1| < |s2| then s1 else s2);
    assert LocalAlign(s1, s2) == LocalAlign(t1, t2);
    AnchorOrigin(t1, t2);
    AnchorMaximal(t1, t2);
    var b := Anchor(t1, t2);
    if b.row != 0 {
      TraceFromCorrect(t1, t2, b.row, b.col);
    }
  }

  /** An empty input leaves no interior cell, so the anchor stays at the origin and the traceback fails. */
  lemma LocalAlignEmpty(s: seq<byte>)
    ensures LocalAlign(s, []) == Err(OriginUnderflow)
    ensures LocalAlign([], s) == Err(OriginUnderflow)
  {
    AnchorOrigin(s, []);
    AnchorOrigin([], s);
  }

  /** ("A", "C"): the only interior cell scores -2, so the traceback fails. */
  lemma LocalAlignMismatchedPair(s1: seq<byte>, s2: seq<byte>)
    requires s1 == Ascii("A") && s2 == Ascii("C")
    ensures Cell(s1, s2, 1, 1) == Entry(-2, Deletion)
    ensures LocalAlign(s1, s2) == Err(OriginUnderflow)
  {
    assert s1 == [65] && s2 == [67];
    AnchorOrigin(s1, s2);
  }

  /** An interior score gains at most 3 over its diagonal neighbour and nothing over the other two. */
  lemma CellStepBound(s1: seq<byte>, s2: seq<byte>, r: nat, c: nat)
    requires 1 <= r <= |s1| && 1 <= c <= |s2|
    ensures var v := Cell(s1, s2, r, c).value;
      || v <= Cell(s1, s2, r - 1, c - 1).value + 3
      || v <= Cell(s1, s2, r, c - 1).value
      || v <= Cell(s1, s2, r - 1, c).value
  {
    var diag, left, up := Cell(s1, s2, r - 1, c - 1), Cell(s1, s2, r, c - 1), Cell(s1, s2, r - 1, c);
    var e := ChooseMax(diag.value + Similarity(s1[r - 1], s2[c - 1]),
                       left.value + GapOpen(left.source != Insertion),
                       up.value + GapOpen(up.source != Deletion));
    assert Cell(s1, s2, r, c).value == e.value;
  }

  /** No cell scores more than 3 per row: only matches raise the score. */
  lemma {:induction false} CellBoundRows(s1: seq<byte>, s2: seq<byte>, r: nat, c: nat)
    requires r <= |s1| && c <= |s2|
    ensures Cell(s1, s2, r, c).value <= 3 * r
    decreases r + c
  {
    if r > 0 && c > 0 {
      CellStepBound(s1, s2, r, c);
      CellBoundRows(s1, s2, r - 1, c - 1);
      CellBoundRows(s1, s2, r, c - 1);
      CellBoundRows(s1, s2, r - 1, c);
    }
  }

  /** No cell scores more than 3 per column: only matches raise the score. */
  lemma {:induction false} CellBoundCols(s1: seq<byte>, s2: seq<byte>, r: nat, c: nat)
    requires r <= |s1| && c <= |s2|
    ensures Cell(s1, s2, r, c).value <= 3 * c
    decreases r + c
  {
    if r > 0 && c > 0 {
      CellStepBound(s1, s2, r, c);
      CellBoundCols(s1, s2, r - 1, c - 1);
      CellBoundCols(s1, s2, r, c - 1);
      CellBoundCols(s1, s2, r - 1, c);
    }
  }

  /** No cell scores more than 3 per step of the shorter side. */
  lemma CellBound(s1: seq<byte>, s2: seq<byte>, r: nat, c: nat)
    requires r <= |s1| && c <= |s2|
    ensures Cell(s1, s2, r, c).value <= 3 * r && Cell(s1, s2, r, c).value <= 3 * c
  {
    CellBoundRows(s1, s2, r, c);
    CellBoundCols(s1, s2, r, c);
  }

  /** Aligning a string with itself scores 3 per diagonal step, every diagonal cell a match. */
  lemma {:induction false} DiagonalSelf(s: seq<byte>, k: nat)
    requires k <= |s|
    ensures Cell(s, s, k, k) == Entry(3 * k, if k == 0 then Deletion else MatchMismatch)
  {
    if k > 0 {
      DiagonalSelf(s, k - 1);
      CellBound(s, s, k, k - 1);
      CellBound(s, s, k - 1, k);
    }
  }

  /** For a non-empty string aligned with itself the anchor is the bottom-right cell. */
  lemma AnchorSelf(s: seq<byte>)
    requires |s| >= 1
    ensures Anchor(s, s) == Best(3 * |s|, |s|, |s|)
  {
    var n, b := |s|, Anchor(s, s);
    AnchorMaximal(s, s);
    DiagonalSelf(s, n);
    assert b.row != 0;
    CellBound(s, s, b.row, b.col);
  }

  /** The traceback along the diagonal pairs every symbol with itself and stops at the origin. */
  lemma {:induction false} TraceSelf(s: seq<byte>, k: nat)
    requires 1 <= k <= |s|
    ensures TraceFrom(s, s, k, k) == Path(Syms(s[..k]), Syms(s[..k]), 0, 0)
  {
    DiagonalSelf(s, k);
    DiagonalSelf(s, k - 1);
    SymsPrefix(s, k);
    var x := Base(s[k - 1]);
    if k > 1 {
      TraceSelf(s, k - 1);
      var p := TraceFrom(s, s, k - 1, k - 1);
      assert TraceFrom(s, s, k, k) == Path(p.alignment1 + [x], p.alignment2 + [x], p.row, p.col);
    } else {
      assert TraceFrom(s, s, k, k) == Path([x], [x], 0, 0);
    }
  }

  /** A non-empty string aligned with itself comes back whole, from the origin to the last cell. */
  lemma LocalAlignSelf(s: seq<byte>)
    requires |s| >= 1
    ensures LocalAlign(s, s) == Ok(LocalAlignment(Syms(s), Syms(s), 0, 0, |s|, |s|))
  {
    AnchorSelf(s);
    TraceSelf(s, |s|);
    assert s[..|s|] == s;
  }

  /** Rows 0 .. upto - 1 of the grid are complete. */
  ghost predicate RowsHold(matrix: array2<Entry>, s1: seq<byte>, s2: seq<byte>, upto: nat)
    reads matrix
    requires upto <= matrix.Length0 == |s1| + 1 && matrix.Length1 == |s2| + 1
  {
    forall i, j :: 0 <= i < upto && 0 <= j <= |s2| ==> matrix[i, j] == Cell(s1, s2, i, j)
  }

  /** Row r of the grid holds cells (r, 0) .. (r, upto - 1). */
  ghost predicate RowHolds(matrix: array2<Entry>, s1: seq<byte>, s2: seq<byte>, r: nat, upto: nat)
    reads matrix
    requires r < matrix.Length0 == |s1| + 1 && upto <= matrix.Length1 == |s2| + 1
  {
    forall j :: 0 <= j < upto ==> matrix[r, j] == Cell(s1, s2, r, j)
  }

  /** Column 0 of the grid is complete. */
  ghost predicate ColumnHolds(matrix: array2<Entry>, s1: seq<byte>, s2: seq<byte>)
    reads matrix
    requires matrix.Length0 == |s1| + 1 && matrix.Length1 == |s2| + 1
  {
    forall i :: 0 <= i <= |s1| ==> matrix[i, 0] == Cell(s1, s2, i, 0)
  }

  /**
   * One row of the fill: every interior cell of row r takes the best of its
   * three candidates, and each one at least the running maximum replaces it.
   */
  method FillRow(matrix: array2<Entry>, seq1: seq<byte>, seq2: seq<byte>, row: nat, maxvalue: int, maxvalposition: (nat, nat))
    returns (maxvalue': int, maxvalposition': (nat, nat))
    requires 1 <= row < matrix.Length0 == |seq1| + 1 && matrix.Length1 == |seq2| + 1
    requires RowsHold(matrix, seq1, seq2, row) && ColumnHolds(matrix, seq1, seq2)
    modifies matrix
    ensures RowsHold(matrix, seq1, seq2, row + 1) && ColumnHolds(matrix, seq1, seq2)
    ensures Best(maxvalue', maxvalposition'.0, maxvalposition'.1)
         == ScanRow(seq1, seq2, row, |seq2|, Best(maxvalue, maxvalposition.0, maxvalposition.1))
  {
    maxvalue', maxvalposition' := maxvalue, maxvalposition;
    for col := 1 to |seq2| + 1
      invariant RowsHold(matrix, seq1, seq2, row) && ColumnHolds(matrix, seq1, seq2)
      invariant RowHolds(matrix, seq1, seq2, row, col)
      invariant Best(maxvalue', maxvalposition'.0, maxvalposition'.1)
             == ScanRow(seq1, seq2, row, col - 1, Best(maxvalue, maxvalposition.0, maxvalposition.1))
    {
      var matchmismatch := Entry(matrix[row - 1, col - 1].value + Similarity(seq1[row - 1], seq2[col - 1]), MatchMismatch);
      var insertion := Entry(matrix[row, col - 1].value + GapOpen(matrix[row, col - 1].source != Insertion), Insertion);
      var deletion := Entry(matrix[row - 1, col].value + GapOpen(matrix[row - 1, col].source != Deletion), Deletion);
      var chosen;
      if matchmismatch.value >= insertion.value && matchmismatch.value >= deletion.value {
        chosen := matchmismatch;
      } else if deletion.value >= insertion.value {
        chosen := deletion;
      } else {
        chosen := insertion;
      }
      assert chosen == Cell(seq1, seq2, row, col);
      ghost var before := Best(maxvalue', maxvalposition'.0, maxvalposition'.1);
      if chosen.value >= maxvalue' {
        maxvalue', maxvalposition' := chosen.value, (row, col);
      }
      assert Best(maxvalue', maxvalposition'.0, maxvalposition'.1) == Update(before, chosen.value, row, col);
      matrix[row, col] := chosen;
    }
  }

  /**
   * The fill phase: the boundary loops, then every row in turn, leaving the
   * whole grid and the anchor of the scan.
   */
  method FillGrid(seq1: seq<byte>, seq2: seq<byte>) returns (matrix: array2<Entry>, maxvalue: int, maxvalposition: (nat, nat))
    ensures fresh(matrix)
    ensures matrix.Length0 == |seq1| + 1 && matrix.Length1 == |seq2| + 1
    ensures RowsHold(matrix, seq1, seq2, |seq1| + 1)
    ensures Best(maxvalue, maxvalposition.0, maxvalposition.1) == Anchor(seq1, seq2)
  {
    var rows, cols := |seq1| + 1, |seq2| + 1;
    matrix := new Entry[rows, cols]((_, _) => Entry(0, Default));
    for col := 0 to cols
      modifies matrix
      invariant forall j :: 0 <= j < col ==> matrix[0, j] == Entry(0, Insertion)
    {
      matrix[0, col] := Entry(0, Insertion);
    }
    for row := 0 to rows
      modifies matrix
      invariant forall j :: 1 <= j < cols ==> matrix[0, j] == Cell(seq1, seq2, 0, j)
      invariant forall i :: 0 <= i < row ==> matrix[i, 0] == Cell(seq1, seq2, i, 0)
    {
      matrix[row, 0] := Entry(0, Deletion);
    }
    maxvalue, maxvalposition := 0, (0, 0);
    for row := 1 to rows
      invariant RowsHold(matrix, seq1, seq2, row) && ColumnHolds(matrix, seq1, seq2)
      invariant Best(maxvalue, maxvalposition.0, maxvalposition.1) == ScanRows(seq1, seq2, row - 1)
    {
      maxvalue, maxvalposition := FillRow(matrix, seq1, seq2, row, maxvalue, maxvalposition);
    }
  }

  /**
   * Traceback bookkeeping: the symbols pushed so far (in reverse), after the
   * traceback still to be done from (r, c), make up the whole path w, which
   * stops where that remaining traceback stops.
   */
  ghost predicate LocalPending(w: Path, s1: seq<byte>, s2: seq<byte>, r: nat, c: nat, a1: seq<Sym>, a2: seq<Sym>)
    requires 1 <= r <= |s1| && 1 <= c <= |s2|
  {
    var p := TraceFrom(s1, s2, r, c);
    && w.alignment1 == p.alignment1 + Reverse(a1) && w.alignment2 == p.alignment2 + Reverse(a2)
    && w.row == p.row && w.col == p.col
  }

  /** A traceback step landing on a score of 0 completes the path. */
  lemma LocalPendingLast(w: Path, s1: seq<byte>, s2: seq<byte>, r: nat, c: nat, a1: seq<Sym>, a2: seq<Sym>)
    requires 1 <= r <= |s1| && 1 <= c <= |s2|
    requires LocalPending(w, s1, s2, r, c, a1, a2)
    ensures var m := StepFrom(Cell(s1, s2, r, c).source, s1, s2, r, c);
      Cell(s1, s2, m.row, m.col).value == 0 ==>
        && w.alignment1 == Reverse(a1 + [m.sym1]) && w.alignment2 == Reverse(a2 + [m.sym2])
        && w.row == m.row && w.col == m.col
  {
    var m := StepFrom(Cell(s1, s2, r, c).source, s1, s2, r, c);
    ReverseSnoc(a1, m.sym1);
    ReverseSnoc(a2, m.sym2);
  }

  /** A traceback step landing on any other score stays inside the grid, the rest still pending. */
  lemma LocalPendingStep(w: Path, s1: seq<byte>, s2: seq<byte>, r: nat, c: nat, a1: seq<Sym>, a2: seq<Sym>)
    requires 1 <= r <= |s1| && 1 <= c <= |s2|
    requires LocalPending(w, s1, s2, r, c, a1, a2)
    ensures var m := StepFrom(Cell(s1, s2, r, c).source, s1, s2, r, c);
      Cell(s1, s2, m.row, m.col).value != 0 ==>
        1 <= m.row && 1 <= m.col && LocalPending(w, s1, s2, m.row, m.col, a1 + [m.sym1], a2 + [m.sym2])
  {
    var m := StepFrom(Cell(s1, s2, r, c).source, s1, s2, r, c);
    if Cell(s1, s2, m.row, m.col).value != 0 {
      var p := TraceFrom(s1, s2, m.row, m.col);
      assert TraceFrom(s1, s2, r, c) == Path(p.alignment1 + [m.sym1], p.alignment2 + [m.sym2], p.row, p.col);
      PendingShift(w.alignment1, p.alignment1, a1, m.sym1);
      PendingShift(w.alignment2, p.alignment2, a2, m.sym2);
    }
  }

  /**
   * One arm of the traceback's match: push the column the source tag names
   * and move the cursor back, except that a deletion on row 0 underflows and
   * changes nothing.
   */
  method TraceStep(aligner: Aligner, seq1: seq<byte>, seq2: seq<byte>, source: Source) returns (underflow: bool)
    requires aligner.row <= |seq1| && aligner.col <= |seq2|
    requires source != Default
    requires source == MatchMismatch ==> aligner.row >= 1 && aligner.col >= 1
    requires source == Insertion ==> aligner.col >= 1
    modifies aligner
    ensures underflow <==> source == Deletion && old(aligner.row) == 0
    ensures underflow ==> unchanged(aligner)
    ensures !underflow ==>
      var m := StepFrom(source, seq1, seq2, old(aligner.row), old(aligner.col));
      && aligner.alignment1 == old(aligner.alignment1) + [m.sym1]
      && aligner.alignment2 == old(aligner.alignment2) + [m.sym2]
      && aligner.row == m.row && aligner.col == m.col
  {
    underflow := false;
    match source {
      case MatchMismatch =>
        aligner.alignment1 := aligner.alignment1 + [Base(seq1[aligner.row - 1])];
        aligner.alignment2 := aligner.alignment2 + [Base(seq2[aligner.col - 1])];
        aligner.ShiftMatchMismatch();
      case Insertion =>
        aligner.alignment1 := aligner.alignment1 + [Gap];
        aligner.alignment2 := aligner.alignment2 + [Base(seq2[aligner.col - 1])];
        aligner.ShiftInsertion();
      case Deletion =>
        if aligner.row == 0 {
          underflow := true;
          return;
        }
        aligner.alignment1 := aligner.alignment1 + [Base(seq1[aligner.row - 1])];
        aligner.alignment2 := aligner.alignment2 + [Gap];
        aligner.ShiftDeletion();
    }
  }

  /** A finished traceback from the anchor is the local alignment. */
  lemma LocalAlignFrom(s1: seq<byte>, s2: seq<byte>, a1: seq<Sym>, a2: seq<Sym>, row: nat, col: nat)
    requires |s2| <= |s1|
    requires Anchor(s1, s2).row != 0
    requires 1 <= Anchor(s1, s2).row <= |s1| && 1 <= Anchor(s1, s2).col <= |s2|
    requires var p := TraceFrom(s1, s2, Anchor(s1, s2).row, Anchor(s1, s2).col);
      p.alignment1 == Reverse(a1) && p.alignment2 == Reverse(a2) && p.row == row && p.col == col
    ensures LocalAlign(s1, s2) == Ok(LocalAlignment(Reverse(a1), Reverse(a2), row, col, Anchor(s1, s2).row, Anchor(s1, s2).col))
  {
  }

  /**
   * The traceback: from the anchor, follow the recorded sources, pushing one
   * column per step, until a cell scoring 0 is reached; a deletion step on
   * row 0 (only possible when the anchor is the origin) underflows.
   */
  method TraceLocal(seq1: seq<byte>, seq2: seq<byte>, matrix: array2<Entry>, maxvalposition: (nat, nat))
    returns (result: Result<LocalAlignment, LocalError>)
    requires matrix.Length0 == |seq1| + 1 && matrix.Length1 == |seq2| + 1
    requires RowsHold(matrix, seq1, seq2, |seq1| + 1)
    requires |seq2| <= |seq1|
    requires maxvalposition == (Anchor(seq1, seq2).row, Anchor(seq1, seq2).col)
    ensures result == LocalAlign(seq1, seq2)
  {
    ghost var b := Anchor(seq1, seq2);
    AnchorMaximal(seq1, seq2);
    BoundaryCells(seq1, seq2);
    var aligner := new Aligner(maxvalposition.0, maxvalposition.1);
    ghost var whole := if b.row == 0 then Path([], [], 0, 0) else TraceFrom(seq1, seq2, b.row, b.col);
    ghost var r, c, a1, a2 := b.row, b.col, [], [];
    assert Reverse<Sym>([]) == [];
    while true
      invariant aligner.row == r <= |seq1| && aligner.col == c <= |seq2|
      invariant aligner.alignment1 == a1 && aligner.alignment2 == a2
      invariant b.row == 0 ==> r == 0 && c == 0
      invariant b.row != 0 ==> 1 <= r && 1 <= c && LocalPending(whole, seq1, seq2, r, c, a1, a2)
      decreases r + c
      modifies aligner
    {
      var source := matrix[aligner.row, aligner.col].source;
      assert source == Cell(seq1, seq2, r, c).source;
      var underflow := TraceStep(aligner, seq1, seq2, source);
      if underflow {
        result := Err(OriginUnderflow);
        return;
      }
      ghost var m := StepFrom(source, seq1, seq2, r, c);
      LocalPendingLast(whole, seq1, seq2, r, c, a1, a2);
      LocalPendingStep(whole, seq1, seq2, r, c, a1, a2);
      r, c, a1, a2 := m.row, m.col, a1 + [m.sym1], a2 + [m.sym2];
      if matrix[aligner.row, aligner.col].value == 0 {
        break;
      }
    }
    LocalAlignFrom(seq1, seq2, aligner.alignment1, aligner.alignment2, aligner.row, aligner.col);
    result := Ok(LocalAlignment(Reverse(aligner.alignment1), Reverse(aligner.alignment2),
                                aligner.row, aligner.col, maxvalposition.0, maxvalposition.1));
  }

  /**
   * smith_waterman: the best local alignment of the two inputs, the longer
   * one first, together with where it starts and ends in the grid; it fails
   * exactly when every interior cell scores below 0, where the source's
   * traceback underflows.
   */
  method SmithWaterman(seq1: seq<byte>, seq2: seq<byte>) returns (result: Result<LocalAlignment, LocalError>)
    ensures result == LocalAlign(seq1, seq2)
    decreases if |seq1| < |seq2| then 1 else 0
  {
    if |seq1| < |seq2| {
      result := SmithWaterman(seq2, seq1);
      return;
    }
    var matrix, maxvalue, maxvalposition := FillGrid(seq1, seq2);
    result := TraceLocal(seq1, seq2, matrix, maxvalposition);
  }
}
