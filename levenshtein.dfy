/**
 * The Levenshtein-style distance of the source: a rolling two-row dynamic
 * program over string1 (columns), one row per symbol of string2.  The
 * source's loop bound and substitution term are modelled as written; the
 * textbook edit distance is defined beside them for comparison.
 */
module LevenshteinDistance {
  import opened Alphabet

  /**
   * The substitution term: as written it charges 1 when the two symbols
   * are equal; the textbook recurrence charges 1 when they differ.
   */
  datatype Costs = AsWritten | Intended

  function Substitution(v: Costs, x: byte, y: byte): nat
  {
    match v
    case AsWritten => if x == y then 1 else 0
    case Intended => if x == y then 0 else 1
  }

  function Min(a: nat, b: nat): nat
  {
    if a <= b then a else b
  }

  /**
   * Cell j of the row that holds once k symbols of s2 have been processed:
   * row 0 is [0, 1, ..., |s1|], cell 0 of row k is k, and every other cell
   * is the least of the deletion, insertion and substitution candidates.
   */
  function Dist(v: Costs, s1: seq<byte>, s2: seq<byte>, k: nat, j: nat): nat
    requires k <= |s2| && j <= |s1|
    decreases k + j
  {
    if k == 0 then j
    else if j == 0 then k
    else Min(Dist(v, s1, s2, k - 1, j) + 1,
             Min(Dist(v, s1, s2, k, j - 1) + 1,
                 Dist(v, s1, s2, k - 1, j - 1) + Substitution(v, s1[j - 1], s2[k - 1])))
  }

  /** levenshtein(string1, string2) as written: only |string2| - 1 rows are processed. */
  function LiteralDistance(s1: seq<byte>, s2: seq<byte>): nat
    requires |s2| >= 1
  {
    Dist(AsWritten, s1, s2, |s2| - 1, |s1|)
  }

  /** The textbook edit distance: every row, cost 1 on different symbols. */
  function EditDistance(s1: seq<byte>, s2: seq<byte>): nat
  {
    Dist(Intended, s1, s2, |s2|, |s1|)
  }

  /** Array a holds row k of the grid under costs v. */
  ghost predicate RowIs(a: array<nat>, v: Costs, s1: seq<byte>, s2: seq<byte>, k: nat)
    reads a
    requires k <= |s2|
  {
    a.Length == |s1| + 1 && forall j :: 0 <= j <= |s1| ==> a[j] == Dist(v, s1, s2, k, j)
  }

  /**
   * One processed row of the source's levenshtein: a fresh `curr` whose
   * cell 0 is the row number and whose cell column + 1 takes the least of
   * the deletion, insertion and substitution costs (the substitution term
   * charged as costs v say).
   */
  method NextRow(v: Costs, string1: seq<byte>, string2: seq<byte>, prev: array<nat>, row: nat) returns (curr: array<nat>)
    requires row < |string2|
    requires RowIs(prev, v, string1, string2, row)
    ensures fresh(curr)
    ensures RowIs(curr, v, string1, string2, row + 1)
  {
    var n := |string1|;
    curr := new nat[n + 1];
    curr[0] := row + 1;
    for column := 0 to n
      invariant forall j :: 0 <= j <= column ==> curr[j] == Dist(v, string1, string2, row + 1, j)
    {
      var deletionCost := prev[column + 1] + 1;
      var insertionCost := curr[column] + 1;
      var substitutionCost := prev[column] + Substitution(v, string1[column], string2[row]);
      curr[column + 1] := Min(deletionCost, Min(insertionCost, substitutionCost));
    }
  }

  /**
   * The source's levenshtein: `prev` starts as [0..|string1|]; each processed
   * row builds `curr` from it, and then prev becomes curr.
   */
  method Levenshtein(string1: seq<byte>, string2: seq<byte>) returns (distance: nat)
    requires |string2| >= 1
    ensures distance == LiteralDistance(string1, string2)
    ensures distance <= |string1| + |string2| - 1
  {
    var n := |string1|;
    var prev := new nat[n + 1](i => i);
    for row := 0 to |string2| - 1
      invariant RowIs(prev, AsWritten, string1, string2, row)
    {
      prev := NextRow(AsWritten, string1, string2, prev, row);
    }
    distance := prev[n];
    LiteralDistanceBounded(string1, string2);
  }

  /**
   * The evidently intended levenshtein: the same rolling rows, but every
   * symbol of string2 gets its row and a substitution costs 1 only when the
   * symbols differ.  An empty string2 is then no error.
   */
  method CorrectedLevenshtein(string1: seq<byte>, string2: seq<byte>) returns (distance: nat)
    ensures distance == EditDistance(string1, string2)
    ensures distance <= if |string1| <= |string2| then |string2| else |string1|
    ensures distance >= if |string1| <= |string2| then |string2| - |string1| else |string1| - |string2|
    ensures string1 == string2 ==> distance == 0
  {
    var n := |string1|;
    var prev := new nat[n + 1](i => i);
    for row := 0 to |string2|
      invariant RowIs(prev, Intended, string1, string2, row)
    {
      prev := NextRow(Intended, string1, string2, prev, row);
    }
    distance := prev[n];
    EditDistanceBounds(string1, string2);
    if string1 == string2 { EditDistanceSelf(string1); }
  }

  /** Every cell is at most its column plus its row: D(k, j) <= j + k. */
  lemma {:induction false} DistBounded(v: Costs, s1: seq<byte>, s2: seq<byte>, k: nat, j: nat)
    requires k <= |s2| && j <= |s1|
    ensures Dist(v, s1, s2, k, j) <= j + k
    decreases k + j
  {
    if k >= 1 && j >= 1 { DistBounded(v, s1, s2, k - 1, j); }
  }

  lemma LiteralDistanceBounded(s1: seq<byte>, s2: seq<byte>)
    requires |s2| >= 1
    ensures LiteralDistance(s1, s2) <= |s1| + |s2| - 1
  {
    DistBounded(AsWritten, s1, s2, |s2| - 1, |s1|);
  }

  lemma {:induction false} DistDependsOnPrefix(v: Costs, s1: seq<byte>, s2: seq<byte>, t2: seq<byte>, k: nat, j: nat)
    requires k <= |s2| && k <= |t2| && j <= |s1| && s2[..k] == t2[..k]
    ensures Dist(v, s1, s2, k, j) == Dist(v, s1, t2, k, j)
    decreases k + j
  {
    if k >= 1 && j >= 1 {
      assert s2[k - 1] == s2[..k][k - 1] == t2[..k][k - 1] == t2[k - 1];
      assert s2[..k - 1] == s2[..k][..k - 1];
      assert t2[..k - 1] == t2[..k][..k - 1];
      DistDependsOnPrefix(v, s1, s2, t2, k - 1, j);
      DistDependsOnPrefix(v, s1, s2, t2, k, j - 1);
      DistDependsOnPrefix(v, s1, s2, t2, k - 1, j - 1);
    }
  }

  /** The last symbol of string2 never takes part: the result depends only on the others. */
  lemma LiteralIgnoresLastSymbol(s1: seq<byte>, s2: seq<byte>, t2: seq<byte>)
    requires |s2| == |t2| >= 1 && s2[..|s2| - 1] == t2[..|t2| - 1]
    ensures LiteralDistance(s1, s2) == LiteralDistance(s1, t2)
  {
    DistDependsOnPrefix(AsWritten, s1, s2, t2, |s2| - 1, |s1|);
  }

  /** With a one-symbol string2 no row is processed and the result is |string1|. */
  lemma LiteralSingleRow(s1: seq<byte>, s2: seq<byte>)
    requires |s2| == 1
    ensures LiteralDistance(s1, s2) == |s1|
  {
  }

  /** The first test case of the source gives 3 under the recurrence as written (cells row by row). */
  lemma KittenSitting(s1: seq<byte>, s2: seq<byte>)
    requires s1 == Ascii("kitten") && s2 == Ascii("sitting")
    ensures LiteralDistance(s1, s2) == 3
  {
    assert s1 == [107, 105, 116, 116, 101, 110] && s2 == [115, 105, 116, 116, 105, 110, 103];
    assert Dist(AsWritten, s1, s2, 1, 1) == 0; assert Dist(AsWritten, s1, s2, 1, 2) == 1; assert Dist(AsWritten, s1, s2, 1, 3) == 2; assert Dist(AsWritten, s1, s2, 1, 4) == 3; assert Dist(AsWritten, s1, s2, 1, 5) == 4; assert Dist(AsWritten, s1, s2, 1, 6) == 5;
    assert Dist(AsWritten, s1, s2, 2, 1) == 1; assert Dist(AsWritten, s1, s2, 2, 2) == 1; assert Dist(AsWritten, s1, s2, 2, 3) == 1; assert Dist(AsWritten, s1, s2, 2, 4) == 2; assert Dist(AsWritten, s1, s2, 2, 5) == 3; assert Dist(AsWritten, s1, s2, 2, 6) == 4;
    assert Dist(AsWritten, s1, s2, 3, 1) == 2; assert Dist(AsWritten, s1, s2, 3, 2) == 1; assert Dist(AsWritten, s1, s2, 3, 3) == 2; assert Dist(AsWritten, s1, s2, 3, 4) == 2; assert Dist(AsWritten, s1, s2, 3, 5) == 2; assert Dist(AsWritten, s1, s2, 3, 6) == 3;
    assert Dist(AsWritten, s1, s2, 4, 1) == 3; assert Dist(AsWritten, s1, s2, 4, 2) == 2; assert Dist(AsWritten, s1, s2, 4, 3) == 2; assert Dist(AsWritten, s1, s2, 4, 4) == 3; assert Dist(AsWritten, s1, s2, 4, 5) == 2; assert Dist(AsWritten, s1, s2, 4, 6) == 2;
    assert Dist(AsWritten, s1, s2, 5, 1) == 4; assert Dist(AsWritten, s1, s2, 5, 2) == 3; assert Dist(AsWritten, s1, s2, 5, 3) == 2; assert Dist(AsWritten, s1, s2, 5, 4) == 2; assert Dist(AsWritten, s1, s2, 5, 5) == 3; assert Dist(AsWritten, s1, s2, 5, 6) == 2;
    assert Dist(AsWritten, s1, s2, 6, 1) == 5; assert Dist(AsWritten, s1, s2, 6, 2) == 4; assert Dist(AsWritten, s1, s2, 6, 3) == 3; assert Dist(AsWritten, s1, s2, 6, 4) == 2; assert Dist(AsWritten, s1, s2, 6, 5) == 2; assert Dist(AsWritten, s1, s2, 6, 6) == 3;
  }

  /** The second test case of the source gives 3 under the recurrence as written (cells row by row). */
  lemma SaturdaySunday(s1: seq<byte>, s2: seq<byte>)
    requires s1 == Ascii("saturday") && s2 == Ascii("sunday")
    ensures LiteralDistance(s1, s2) == 3
  {
    assert s1 == [115, 97, 116, 117, 114, 100, 97, 121] && s2 == [115, 117, 110, 100, 97, 121];
    assert Dist(AsWritten, s1, s2, 1, 1) == 1; assert Dist(AsWritten, s1, s2, 1, 2) == 1; assert Dist(AsWritten, s1, s2, 1, 3) == 2; assert Dist(AsWritten, s1, s2, 1, 4) == 3; assert Dist(AsWritten, s1, s2, 1, 5) == 4; assert Dist(AsWritten, s1, s2, 1, 6) == 5; assert Dist(AsWritten, s1, s2, 1, 7) == 6; assert Dist(AsWritten, s1, s2, 1, 8) == 7;
    assert Dist(AsWritten, s1, s2, 2, 1) == 1; assert Dist(AsWritten, s1, s2, 2, 2) == 1; assert Dist(AsWritten, s1, s2, 2, 3) == 1; assert Dist(AsWritten, s1, s2, 2, 4) == 2; assert Dist(AsWritten, s1, s2, 2, 5) == 3; assert Dist(AsWritten, s1, s2, 2, 6) == 4; assert Dist(AsWritten, s1, s2, 2, 7) == 5; assert Dist(AsWritten, s1, s2, 2, 8) == 6;
    assert Dist(AsWritten, s1, s2, 3, 1) == 2; assert Dist(AsWritten, s1, s2, 3, 2) == 1; assert Dist(AsWritten, s1, s2, 3, 3) == 1; assert Dist(AsWritten, s1, s2, 3, 4) == 1; assert Dist(AsWritten, s1, s2, 3, 5) == 2; assert Dist(AsWritten, s1, s2, 3, 6) == 3; assert Dist(AsWritten, s1, s2, 3, 7) == 4; assert Dist(AsWritten, s1, s2, 3, 8) == 5;
    assert Dist(AsWritten, s1, s2, 4, 1) == 3; assert Dist(AsWritten, s1, s2, 4, 2) == 2; assert Dist(AsWritten, s1, s2, 4, 3) == 1; assert Dist(AsWritten, s1, s2, 4, 4) == 1; assert Dist(AsWritten, s1, s2, 4, 5) == 1; assert Dist(AsWritten, s1, s2, 4, 6) == 2; assert Dist(AsWritten, s1, s2, 4, 7) == 3; assert Dist(AsWritten, s1, s2, 4, 8) == 4;
    assert Dist(AsWritten, s1, s2, 5, 1) == 4; assert Dist(AsWritten, s1, s2, 5, 2) == 3; assert Dist(AsWritten, s1, s2, 5, 3) == 2; assert Dist(AsWritten, s1, s2, 5, 4) == 1; assert Dist(AsWritten, s1, s2, 5, 5) == 1; assert Dist(AsWritten, s1, s2, 5, 6) == 1; assert Dist(AsWritten, s1, s2, 5, 7) == 2; assert Dist(AsWritten, s1, s2, 5, 8) == 3;
  }

  /**
   * The two departures together on a one-symbol string: as written [x] has
   * distance 1 from itself, where the edit distance is 0.
   */
  lemma LiteralSingleSymbolSelf(x: byte)
    ensures LiteralDistance([x], [x]) == 1
    ensures EditDistance([x], [x]) == 0
  {
  }

  /**
   * The two departures together on ("ab", "abc"): as written it gives 2
   * (rows 0 and 1 only, equal symbols charged).
   */
  lemma AbAbcLiteral(s1: seq<byte>, s2: seq<byte>)
    requires s1 == Ascii("ab") && s2 == Ascii("abc")
    ensures LiteralDistance(s1, s2) == 2
  {
    assert s1 == [97, 98] && s2 == [97, 98, 99];
    assert Dist(AsWritten, s1, s2, 1, 1) == 1; assert Dist(AsWritten, s1, s2, 1, 2) == 1;
    assert Dist(AsWritten, s1, s2, 2, 1) == 1; assert Dist(AsWritten, s1, s2, 2, 2) == 2;
  }

  /** The edit distance of ("ab", "abc"), every row processed and equal symbols free, is 1. */
  lemma AbAbcEditDistance(s1: seq<byte>, s2: seq<byte>)
    requires s1 == Ascii("ab") && s2 == Ascii("abc")
    ensures EditDistance(s1, s2) == 1
  {
    assert s1 == [97, 98] && s2 == [97, 98, 99];
    assert Dist(Intended, s1, s2, 1, 1) == 0; assert Dist(Intended, s1, s2, 1, 2) == 1;
    assert Dist(Intended, s1, s2, 2, 1) == 1; assert Dist(Intended, s1, s2, 2, 2) == 0;
    assert Dist(Intended, s1, s2, 3, 1) == 2; assert Dist(Intended, s1, s2, 3, 2) == 1;
  }

  /**
   * The row bound on its own: even with the intended substitution term,
   * skipping the last row leaves any non-empty string at distance 1 from
   * itself, where processing every row gives 0.
   */
  lemma SkippedRowAlone(s: seq<byte>)
    requires |s| >= 1
    ensures Dist(Intended, s, s, |s| - 1, |s|) == 1
    ensures EditDistance(s, s) == 0
  {
    var k := |s| - 1;
    IntendedCellLower(s, s, k, k + 1);
    if k >= 1 { DiagonalZero(s, k); }
    EditDistanceSelf(s);
  }

  /**
   * The substitution term on its own: even with every row processed, the
   * term as written charges 1 for two equal symbols and nothing for two
   * different ones, the reverse of the edit distance.
   */
  lemma EqualityTermAlone(x: byte, y: byte)
    requires x != y
    ensures Dist(AsWritten, [x], [x], 1, 1) == 1 && EditDistance([x], [x]) == 0
    ensures Dist(AsWritten, [x], [y], 1, 1) == 0 && EditDistance([x], [y]) == 1
  {
  }

  lemma {:induction false} DiagonalZero(s: seq<byte>, k: nat)
    requires k <= |s|
    ensures Dist(Intended, s, s, k, k) == 0
  {
    if k >= 1 { DiagonalZero(s, k - 1); }
  }

  /** The corrected distance of a string from itself is 0. */
  lemma EditDistanceSelf(s: seq<byte>)
    ensures EditDistance(s, s) == 0
  {
    DiagonalZero(s, |s|);
  }

  /** A corrected cell is at most the longer of its two prefix lengths. */
  lemma {:induction false} IntendedCellUpper(s1: seq<byte>, s2: seq<byte>, k: nat, j: nat)
    requires k <= |s2| && j <= |s1|
    ensures Dist(Intended, s1, s2, k, j) <= if j <= k then k else j
    decreases k + j
  {
    if k >= 1 && j >= 1 {
      assert Substitution(Intended, s1[j - 1], s2[k - 1]) <= 1;
      IntendedCellUpper(s1, s2, k - 1, j - 1);
      IntendedCellUpper(s1, s2, k - 1, j);
      IntendedCellUpper(s1, s2, k, j - 1);
    }
  }

  /** A corrected cell is at least the difference of its two prefix lengths. */
  lemma {:induction false} IntendedCellLower(s1: seq<byte>, s2: seq<byte>, k: nat, j: nat)
    requires k <= |s2| && j <= |s1|
    ensures Dist(Intended, s1, s2, k, j) >= if j <= k then k - j else j - k
    decreases k + j
  {
    if k >= 1 && j >= 1 {
      IntendedCellLower(s1, s2, k - 1, j - 1);
      IntendedCellLower(s1, s2, k - 1, j);
      IntendedCellLower(s1, s2, k, j - 1);
    }
  }

  /** The corrected distance lies between the length difference and the longer length. */
  lemma EditDistanceBounds(s1: seq<byte>, s2: seq<byte>)
    ensures EditDistance(s1, s2) <= if |s1| <= |s2| then |s2| else |s1|
    ensures EditDistance(s1, s2) >= if |s1| <= |s2| then |s2| - |s1| else |s1| - |s2|
  {
    IntendedCellUpper(s1, s2, |s2|, |s1|);
    IntendedCellLower(s1, s2, |s2|, |s1|);
  }
}
