# Pairwise sequence comparison: a verified model

This project models the sequence-comparison core of a small Rust
bioinformatics library in Dafny, and proves properties of the model. The core has
two distances and two dynamic-programming aligners over byte strings:

- `hamming`: mismatching positions of two equally long strings.
- `levenshtein`: a rolling two-row dynamic program. It is modelled exactly as
  written, with its loop bound and its substitution term (see Findings).
- `needleman_wunsch`: space-optimised global alignment. The longer input
  indexes the rows. A mismatch costs 1, and so does the first step of a run of
  insertions or deletions. Each further step of the same run costs 0. Scores
  live in two rolling rows, source tags in a full grid, and a traceback
  replays the tags from the bottom-right cell to the origin.
- `smith_waterman`: local alignment over a full score and tag grid. A match
  scores +3, a mismatch -3, and opening a gap -2. There is no zero floor. The
  fill tracks the running maximum with `>=`. The traceback runs from that
  anchor to the first cell that scores exactly 0.

Each file is modelled in the form the source takes:
- `hamming` is a total function returning a `Result`.
- The other three are imperative methods over arrays:
  - `NextRow` and `Levenshtein` roll `prev`/`curr`.
  - `ComputeRow`, `StoreRow`, `AdvanceRow` and `FillTags` fill the rolling
    rows and the tag grid.
  - `FillRow` and `FillGrid` fill the score grid and track the anchor.
  - `TraceTags` and `TraceLocal` drive an `Aligner` object whose `row`/`col`
    fields and aligned strings change in place.

Each method is proved against a recursive specification function:
- `Dist` for Levenshtein.
- `Cell` and `Trace` for Needleman-Wunsch.
- `Cell`, `Anchor`, `TraceFrom` and `LocalAlign` for Smith-Waterman.

The properties of the source are then proved about those functions.

Modules and files:
- `wrappers.dfy`: `Result`.
- `alphabet.dfy`: bytes, and aligned symbols `Sym = Base(b) | Gap`. Also holds:
  - stripping gaps
  - reversal
  - printing, with `'-'` for a gap
- `traceback.dfy`: the parts both aligners share:
  - `Source`
  - the `Aligner` cursor class
  - the single traceback step `StepFrom`

  `smith_waterman.rs` declares its own copies of `Source` and `Aligner`
  (lines 7-60). They are identical to those of `needleman_wunsch.rs` and are
  modelled once.
- `hamming.dfy`, `levenshtein.dfy`, `needleman_wunsch.dfy` and
  `smith_waterman.dfy`: one module per source file.

Errors and panics are handled as follows:
- Hamming's unequal lengths are an `Err` that carries both lengths.
- Levenshtein's `usize` underflow on an empty `string2` is a precondition.
- Smith-Waterman's underflow at an origin anchor is an `Err(OriginUnderflow)`.
- The Needleman-Wunsch `Default` panic is proved unreachable.

`smith_waterman` prints its result. The model returns it instead: the two
aligned strings, the cell where the traceback stopped, and the anchor.

In four places the code departs from the algorithms it evidently intends, or
from its own comments. The model follows the code in each:
- The anchor tie-break. The code uses `>=`, so the last best cell in row-major
  order wins, not the first.
- Levenshtein distance. Textbook Levenshtein is symmetric, zero exactly on
  equal strings, and processes every row. The code skips the last row and
  inverts the substitution term (see Findings).
- No zero floor. Classical Smith-Waterman clamps every score at 0. The code
  does not, so scores can go negative.
- Gap runs on the boundary. The comment at needleman_wunsch.rs:67-68 says a
  run of insertions or deletions counts as one mutation event. But row 0 and
  column 0 cost their index (lines 101-103 and 107), so a run along the
  boundary costs its length. The grid score is then more than the number of
  mismatches plus gap runs. `BoundaryRunCost` proves this for every string
  aligned with the empty one. `SimilarityMolarityEvents` proves it for the doc
  example: a score of 3 against 2 events.

## Model

| member | source | states |
|---|---|---|
| `HammingDistance.MismatchSum` | src/alignment/distance/hamming.rs:3-7 | definition: the sum over positions from k on of 1 where the strings differ, 0 elsewhere; `SumCountsMismatches` proves it counts the differing positions |
| `HammingDistance.Hamming` | src/alignment/distance/hamming.rs:1-15 | fails exactly when the lengths differ, reporting both lengths; otherwise the number of positions where the strings differ |
| `HammingDistance.SumCountsMismatches` | src/alignment/distance/hamming.rs:3-7 | the zip/map/sum of the per-position `a != b` indicator equals the size of the set of differing positions |
| `HammingDistance.HammingSymmetric` | src/alignment/distance/hamming.rs:3-7 | for equal lengths, swapping the arguments does not change the result |
| `HammingDistance.HammingSelf` | src/alignment/distance/hamming.rs:3-7 | a string has distance 0 from itself |
| `HammingDistance.HammingBounded` | src/alignment/distance/hamming.rs:2-7 | for equal lengths the result is defined and at most the length |
| `HammingDistance.HammingWikiExamples` | src/alignment/distance/hamming.rs:23-25 | karolin/kathrin 3, karolin/kerstin 3, kathrin/kerstin 4 |
| `HammingDistance.HammingDigitExamples` | src/alignment/distance/hamming.rs:26-27 | 0000/1111 4, 2173896/2233796 3 |
| `LevenshteinDistance.Dist` | src/alignment/distance/levenshtein.rs:5-13 | definition of cell j after k rows. Row 0 is j. Cell 0 of row k is k. Any other cell is the least of deletion `+1`, insertion `+1` and the diagonal plus the substitution term. The term is charged as written (1 on equal symbols) or as intended (1 on different symbols); its properties are `DistBounded` and `DistDependsOnPrefix` |
| `LevenshteinDistance.LiteralDistance` | src/alignment/distance/levenshtein.rs:3-18 | definition of `levenshtein` as written: cell `|string1|` after `|string2| - 1` rows, with the as-written term; `Levenshtein` computes it, `LiteralDistanceBounded` and `LiteralIgnoresLastSymbol` state its properties |
| `LevenshteinDistance.EditDistance` | src/alignment/distance/levenshtein.rs:5-13 | definition of the intended distance: cell `|string1|` after all `|string2|` rows (the last row included), with substitution cost 1 only on different symbols; `CorrectedLevenshtein` computes it, `EditDistanceSelf` and `EditDistanceBounds` state its properties |
| `LevenshteinDistance.NextRow` | src/alignment/distance/levenshtein.rs:7-15 | given row `row` of the grid in `prev`, returns a fresh array that holds row `row + 1`: cell 0 is `row + 1`, and each later cell is the least of the deletion, insertion and substitution costs |
| `LevenshteinDistance.Levenshtein` | src/alignment/distance/levenshtein.rs:3-18 | requires a non-empty `string2` (otherwise `len() - 1` underflows); processes only rows `0 .. len - 2`; returns cell `|string1|` of the last processed row, which is at most `|string1| + |string2| - 1` |
| `LevenshteinDistance.DistBounded` | src/alignment/distance/levenshtein.rs:5-13 | every cell satisfies `D(k, j) <= j + k` |
| `LevenshteinDistance.LiteralDistanceBounded` | src/alignment/distance/levenshtein.rs:5-17 | the result is at most `|string1| + |string2| - 1` |
| `LevenshteinDistance.DistDependsOnPrefix` | src/alignment/distance/levenshtein.rs:6-13 | row k depends only on the first k symbols of `string2` |
| `LevenshteinDistance.LiteralIgnoresLastSymbol` | src/alignment/distance/levenshtein.rs:6 | two `string2`s that differ only in their last symbol give the same result |
| `LevenshteinDistance.LiteralSingleRow` | src/alignment/distance/levenshtein.rs:5-17 | with a one-symbol `string2` no row is processed and the result is `|string1|` |
| `LevenshteinDistance.KittenSitting` | src/alignment/distance/levenshtein.rs:26 | ("kitten", "sitting") gives 3 under the recurrence as written |
| `LevenshteinDistance.SaturdaySunday` | src/alignment/distance/levenshtein.rs:27 | ("saturday", "sunday") gives 3 under the recurrence as written |
| `LevenshteinDistance.LiteralSingleSymbolSelf` | src/alignment/distance/levenshtein.rs:6-12 | both departures together: as written `[x]` has distance 1 from itself, where the edit distance is 0 |
| `LevenshteinDistance.AbAbcLiteral` | src/alignment/distance/levenshtein.rs:6-12 | both departures together: as written ("ab", "abc") gives 2 |
| `LevenshteinDistance.AbAbcEditDistance` | src/alignment/distance/levenshtein.rs:6-12 | with every row processed and equal symbols free, ("ab", "abc") gives 1 |
| `LevenshteinDistance.SkippedRowAlone` | src/alignment/distance/levenshtein.rs:6 | the row bound on its own: with the intended term but the last row skipped, every non-empty string has distance 1 from itself; with every row processed it is 0 |
| `LevenshteinDistance.EqualityTermAlone` | src/alignment/distance/levenshtein.rs:12 | the term on its own: with every row processed, the as-written term gives `[x]` against `[x]` 1 and `[x]` against a different `[y]` 0; the edit distance gives 0 and 1 |
| `LevenshteinDistance.EditDistanceSelf` | src/alignment/distance/levenshtein.rs:6-13 | once every row is processed and equal symbols are free, a string has distance 0 from itself |
| `LevenshteinDistance.EditDistanceBounds` | src/alignment/distance/levenshtein.rs:6-13 | the corrected distance lies between the difference of the lengths and the longer length |
| `LevenshteinDistance.CorrectedLevenshtein` | src/alignment/distance/levenshtein.rs:3-18 | the same rolling-row loop with every row processed and the intended substitution term: it accepts an empty `string2`, returns the edit distance, stays within the length bounds, and gives 0 on equal strings |
| `Alphabet.Render` | src/alignment/global/needleman_wunsch.rs:144-155 | an aligned string as the source prints it: one byte per symbol, the input byte itself or `'-'` for a gap |
| `Alphabet.Reverse` | src/alignment/global/needleman_wunsch.rs:163-166 | `chars().rev()`: same length, position i holds the symbol at `|s| - 1 - i` |
| `Traceback.StepFrom` | src/alignment/global/needleman_wunsch.rs:142-161 | one traceback arm: MatchMismatch consumes a byte of both inputs, Insertion one of `seq2` under a gap, Deletion one of `seq1` over a gap. It never emits a gap in both strings and always lowers `row + col`. Its requires are the cursor's underflow guards |
| `Traceback.StepStrip` | src/alignment/global/needleman_wunsch.rs:143-157 | a step extends the de-gapped strings by exactly the input bytes its move consumes |
| `Traceback.Aligner.constructor` | src/alignment/global/needleman_wunsch.rs:36-43 | empty aligned strings, cursor on `(length1, length2)` |
| `Traceback.Aligner.ShiftMatchMismatch` | src/alignment/global/needleman_wunsch.rs:44-47 | decrements `row` and `col` (both at least 1), strings unchanged |
| `Traceback.Aligner.ShiftInsertion` | src/alignment/global/needleman_wunsch.rs:48-50 | decrements `col` (at least 1), the rest unchanged |
| `Traceback.Aligner.ShiftDeletion` | src/alignment/global/needleman_wunsch.rs:51-53 | decrements `row` (at least 1), the rest unchanged |
| `NeedlemanWunsch.Penalty` | src/alignment/global/needleman_wunsch.rs:110-118 | definition: a `bool as u32` term, 1 when the condition holds |
| `NeedlemanWunsch.Choose` | src/alignment/global/needleman_wunsch.rs:121-127 | the cell is the least candidate; MatchMismatch wins every tie, Deletion wins ties with Insertion, and Insertion is chosen only when strictly cheapest |
| `NeedlemanWunsch.Cell` | src/alignment/global/needleman_wunsch.rs:101-127 | definition of the grid. Row 0 is `(c, Insertion)` and column 0 below it is `(r, Deletion)`. An interior cell is `Choose` of three candidates: the diagonal plus 1 on a mismatch, the left cell plus 1 unless its tag is Insertion, and the upper cell plus 1 unless its tag is Deletion; `TagGridShape` states its tag structure and `FillTags`/`AdvanceRow` compute it |
| `NeedlemanWunsch.TagGridShape` | src/alignment/global/needleman_wunsch.rs:101-107 | row 0 is `(c, Insertion)`, column 0 below it is `(r, Deletion)`, and no interior cell is `Default` |
| `NeedlemanWunsch.Trace` | src/alignment/global/needleman_wunsch.rs:141-166 | definition of the traceback from `(r, c)`: follow the cell's tag one `StepFrom` back until the origin, with the pushed columns in output (reversed) order; `TraceCorrect` states what it returns and `TraceTags` computes it |
| `NeedlemanWunsch.TraceCorrect` | src/alignment/global/needleman_wunsch.rs:141-162 | the traceback from `(r, c)` reaches the origin in at most `r + c` steps. Its two strings have equal length and no column with a gap in both. With gaps removed they are exactly `seq1[..r]` and `seq2[..c]` |
| `NeedlemanWunsch.GlobalAlignment` | src/alignment/global/needleman_wunsch.rs:83-166 | definition of `needleman_wunsch`: the swapped call when the first input is shorter, otherwise the traceback from the bottom-right cell; `GlobalAlignmentCorrect` states its properties |
| `NeedlemanWunsch.GlobalAlignmentSwap` | src/alignment/global/needleman_wunsch.rs:84-87 | a strictly shorter first argument gives the result of the swapped call |
| `NeedlemanWunsch.GlobalAlignmentCorrect` | src/alignment/global/needleman_wunsch.rs:83-166 | for either argument order, the output aligns the longer input (first) with the shorter one (second). It gives both back exactly once gaps are removed and is at most `|seq1| + |seq2|` long |
| `NeedlemanWunsch.DiagonalCells` | src/alignment/global/needleman_wunsch.rs:105-128 | a string against itself: every diagonal cell costs 0 and is a match |
| `NeedlemanWunsch.TraceSelf` | src/alignment/global/needleman_wunsch.rs:141-162 | along the diagonal the traceback pairs every byte with itself |
| `NeedlemanWunsch.GlobalAlignmentSelf` | src/alignment/global/needleman_wunsch.rs:83-166 | a string aligned with itself comes back unchanged and gap-free on both sides |
| `NeedlemanWunsch.SimilarityMolarity` | src/alignment/global/needleman_wunsch.rs:74-76 | ("similarity", "molarity") prints as ("similarity", "--molarity") |
| `NeedlemanWunsch.LeadingGuanine` | src/alignment/global/needleman_wunsch.rs:79-81 | ("GAAAATAAAT", "GATAAT") prints as ("GAAAATAAAT", "G---AT-AAT") |
| `NeedlemanWunsch.MutationEvents` | src/alignment/global/needleman_wunsch.rs:67-68 | definition of the cost the comment describes: one event per mismatched column and per run of gaps in either string |
| `NeedlemanWunsch.BoundaryRunCost` | src/alignment/global/needleman_wunsch.rs:101-107 | a non-empty string aligned with the empty one has one event (a single run of deletions), yet its grid score is its length |
| `NeedlemanWunsch.SimilarityMolarityEvents` | src/alignment/global/needleman_wunsch.rs:67-76 | ("similarity", "molarity") scores 3, while its alignment ("similarity", "--molarity") holds 2 events |
| `NeedlemanWunsch.ComputeRow` | src/alignment/global/needleman_wunsch.rs:106-128 | from DP row `row - 1` in `prev`, a fresh `curr` holding row `row`: `curr[0] = (row, Deletion)`, and each interior cell as the recurrence chooses it |
| `NeedlemanWunsch.StoreRow` | src/alignment/global/needleman_wunsch.rs:129-136 | copying the tags of a computed row into grid row r extends the complete rows to 0 .. r |
| `NeedlemanWunsch.AdvanceRow` | src/alignment/global/needleman_wunsch.rs:105-137 | one pass of the fill loop: grid row `row - 1` gets the tags of `prev`, and on the last pass grid row `rows - 1` gets those of `curr` |
| `NeedlemanWunsch.FillTags` | src/alignment/global/needleman_wunsch.rs:97-138 | after the fill, every grid cell holds the tag of the recurrence (when `seq1` is non-empty) |
| `NeedlemanWunsch.TraceStep` | src/alignment/global/needleman_wunsch.rs:142-161 | one arm of the traceback match pushes the step's column and moves the cursor as `StepFrom` says |
| `NeedlemanWunsch.TraceTags` | src/alignment/global/needleman_wunsch.rs:140-166 | the `while` loop terminates and never meets `Default`. It ends at the origin, and the reversed strings are the traceback of the grid |
| `NeedlemanWunsch.NeedlemanWunsch` | src/alignment/global/needleman_wunsch.rs:83-167 | the returned pair is the global alignment: aligned, the longer input first, and with gaps removed exactly the two inputs |
| `SmithWaterman.Similarity` | src/alignment/local/smith_waterman.rs:87-88 | definition: +3 for equal bytes, -3 otherwise |
| `SmithWaterman.GapOpen` | src/alignment/local/smith_waterman.rs:91-99 | definition: -2 when a gap opens, 0 when it extends a run of the same kind |
| `SmithWaterman.ChooseMax` | src/alignment/local/smith_waterman.rs:101-119 | the cell is the greatest candidate; MatchMismatch wins every tie, Deletion wins ties with Insertion, and Insertion is chosen only when strictly greatest |
| `SmithWaterman.BoundaryCells` | src/alignment/local/smith_waterman.rs:76-81 | row-0 cells right of the origin are `(0, Insertion)`, and every column-0 cell, the origin included, is `(0, Deletion)` |
| `SmithWaterman.Cell` | src/alignment/local/smith_waterman.rs:76-119 | definition of the grid. Column 0 (the origin included) is `(0, Deletion)` and row 0 to its right is `(0, Insertion)`. An interior cell is `ChooseMax` of three candidates: the diagonal `+3`/`-3`, the left cell `-2` unless its tag is Insertion, and the upper cell `-2` unless its tag is Deletion; nothing is clamped; `CellBound` and `BoundaryCells` state its properties and `FillGrid` computes it |
| `SmithWaterman.Update` | src/alignment/local/smith_waterman.rs:102-117 | definition: a cell whose score is `>=` the running maximum replaces it and its position |
| `SmithWaterman.ScanRow` | src/alignment/local/smith_waterman.rs:85-120 | definition: `Update` over columns 1 .. c of row r in order |
| `SmithWaterman.ScanRows` | src/alignment/local/smith_waterman.rs:82-121 | definition: starting from `(0, (0, 0))`, `ScanRow` over rows 1 .. r in order |
| `SmithWaterman.Anchor` | src/alignment/local/smith_waterman.rs:82-121 | definition: `(maxvalue, maxvalposition)` after the whole fill; `AnchorMaximal` and `AnchorOrigin` state its properties |
| `SmithWaterman.ScanRowsInv` | src/alignment/local/smith_waterman.rs:82-119 | the running maximum after each row is at least 0 and at least every scanned score. It stays at the origin only while all scanned scores are negative; otherwise it sits on its score, and every later cell scores less |
| `SmithWaterman.AnchorMaximal` | src/alignment/local/smith_waterman.rs:82-119 | the anchor's score is at least 0 and at least every interior score. An interior anchor holds that score, and every interior cell after it in row-major order scores strictly less, so the last best cell wins |
| `SmithWaterman.AnchorOrigin` | src/alignment/local/smith_waterman.rs:82-83 | the anchor stays at `(0, 0)` exactly when every interior score is negative |
| `SmithWaterman.TraceFrom` | src/alignment/local/smith_waterman.rs:125-149 | definition of the traceback from an interior cell: take the tag's `StepFrom` step, stop if the cell reached scores 0, otherwise continue from it; `TraceFromCorrect` states what it returns and `TraceLocal` computes it |
| `SmithWaterman.TraceFromCorrect` | src/alignment/local/smith_waterman.rs:125-149 | from an interior cell the traceback takes at least one step and stops on a cell scoring 0 strictly before it. The two strings are aligned, and with gaps removed they are the slices `seq1[row..r]` and `seq2[col..c]` |
| `SmithWaterman.LocalAlign` | src/alignment/local/smith_waterman.rs:62-151 | definition of `smith_waterman`: the swapped call when the first input is shorter. Otherwise it is the underflow error when the anchor is the origin, or else the traceback from the anchor with its start and end cells; `LocalAlignCorrect` states its properties and `SmithWaterman` computes it |
| `SmithWaterman.LocalAlignSwap` | src/alignment/local/smith_waterman.rs:63-66 | a strictly shorter first argument gives the result of the swapped call |
| `SmithWaterman.LocalAlignCorrect` | src/alignment/local/smith_waterman.rs:62-151 | for either argument order, with the longer input as rows: fails exactly when every interior score is negative. Otherwise the result ends on the (last) best cell, starts on a zero-score cell before it, and aligns the contiguous slices between the two |
| `SmithWaterman.LocalAlignEmpty` | src/alignment/local/smith_waterman.rs:124-140 | an empty input leaves the anchor at the origin, so the traceback underflows |
| `SmithWaterman.LocalAlignMismatchedPair` | src/alignment/local/smith_waterman.rs:86-140 | ("A", "C"): cell (1, 1) is `(-2, Deletion)`, so the traceback underflows |
| `SmithWaterman.CellBound` | src/alignment/local/smith_waterman.rs:86-100 | no cell scores more than `3 * r` or `3 * c`, since only a match raises a score |
| `SmithWaterman.DiagonalSelf` | src/alignment/local/smith_waterman.rs:86-106 | a string against itself: diagonal cell k scores `3k` and is a match |
| `SmithWaterman.AnchorSelf` | src/alignment/local/smith_waterman.rs:101-119 | for a non-empty string against itself, the anchor is the bottom-right cell with score `3n` |
| `SmithWaterman.TraceSelf` | src/alignment/local/smith_waterman.rs:125-149 | along the diagonal the traceback pairs every byte with itself and stops at the origin |
| `SmithWaterman.LocalAlignSelf` | src/alignment/local/smith_waterman.rs:62-151 | a non-empty string aligned with itself comes back whole and gap-free, from `(0, 0)` to `(n, n)` |
| `SmithWaterman.FillRow` | src/alignment/local/smith_waterman.rs:85-120 | one pass of the row loop writes every interior cell of the row as the recurrence chooses it. It moves the running maximum exactly as the row-major scan with `>=` does |
| `SmithWaterman.FillGrid` | src/alignment/local/smith_waterman.rs:67-121 | the boundary loops and the fill leave every cell as the recurrence defines it, with `(maxvalue, maxvalposition)` on the anchor |
| `SmithWaterman.TraceStep` | src/alignment/local/smith_waterman.rs:126-145 | one arm of the traceback match: underflows exactly on a Deletion at row 0, leaving the cursor unchanged; otherwise pushes the step's column and moves as `StepFrom` says |
| `SmithWaterman.TraceLocal` | src/alignment/local/smith_waterman.rs:124-149 | the `loop` from the anchor terminates, and its result is the local alignment: the reversed strings, the stopping cell and the anchor, or the underflow error |
| `SmithWaterman.SmithWaterman` | src/alignment/local/smith_waterman.rs:62-151 | after the swap, the fill and the traceback, the result is the local alignment of the inputs, whose properties `LocalAlignCorrect` states |

## Left out

- The FM-index (`src/data_structures/fmindex.rs`) is a separate component. It depends on the external `hashbag` crate, and no aligner uses it.
- Console output is not modelled:
  - `Aligner::print` (needleman_wunsch.rs:54-57, smith_waterman.rs:56-59)
  - the call at smith_waterman.rs:150
  - the matrix dump at smith_waterman.rs:122

  `SmithWaterman.SmithWaterman` returns the alignment the source prints.
- Character and `String` handling is not modelled. The source pushes each byte onto a `String` `as char` (needleman_wunsch.rs:144-154, smith_waterman.rs:128-138). There:
  - a byte of 0x80 or more comes back as a two-byte UTF-8 character;
  - an input `'-'` prints exactly like a gap.

  For such inputs the source's own output strings do not give the inputs back once gaps are removed. The model keeps bytes and a separate `Gap` symbol, and its round-trip lemmas are about those. `Render` models the `'-'` printing, but not the UTF-8 encoding of high bytes. `Ascii` is meant for ASCII test strings only.
- The contiguous `Vec` behind the grids and its `chunks_mut` row views are not modelled; the grids are `array2`.
- `String::with_capacity` in the `Aligner` constructors is not modelled, because capacity is not observable.
- Fixed-width integers are not modelled. `u32`, `i32` and `usize` are unbounded `nat`/`int`, so overflow on very long inputs is not captured. Each `usize` underflow site is handled instead:
  - Levenshtein's empty `string2` is a precondition.
  - Smith-Waterman's origin anchor is an `Err(OriginUnderflow)`.
  - The other sites are proved unreachable.
- `LevenshteinDistance.Levenshtein`: the precondition `|string2| >= 1` replaces the panic or wrap-around of `string2.len() - 1` on an empty `string2`.
- The textbook metric properties of `levenshtein` (symmetry, zero exactly on equal strings, the triangle inequality) are not proved. The code as written lacks them (see Findings).
- A zero floor and a first-occurrence anchor for Smith-Waterman are not modelled; the code has neither.
- A Needleman-Wunsch grid whose score is the number of mutation events, as the comment at needleman_wunsch.rs:67-68 describes, is not modelled. The model scores with the code's grid, where boundary runs cost their length. `MutationEvents` exists only to state the gap between the two (`BoundaryRunCost`, `SimilarityMolarityEvents`).

## Findings

| source | as written | input that shows it | evidently intended | confidence | as-written member | corrected member |
|---|---|---|---|---|---|---|
| src/alignment/distance/levenshtein.rs:6 | the row loop runs `0..string2.len() - 1`, so the last symbol of `string2` never gets a row | any non-empty string against itself, e.g. ("a", "a"), with the substitution term already corrected: gives 1 | one row per symbol of `string2`, giving 0 | not executed | `LevenshteinDistance.SkippedRowAlone` | `LevenshteinDistance.CorrectedLevenshtein` |
| src/alignment/distance/levenshtein.rs:12 | the substitution term is `(string1[column] == string2[row])`, charging 1 for equal symbols and 0 for different ones | ("a", "a") with every row processed: gives 1; ("a", "b"): gives 0 | charge 1 only for different symbols, giving 0 and 1 | not executed | `LevenshteinDistance.EqualityTermAlone` | `LevenshteinDistance.CorrectedLevenshtein` |
