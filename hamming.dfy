/** Hamming distance between two byte strings of equal length. */
module HammingDistance {
  import opened Alphabet
  import opened Wrappers

  /** The failure of a call on strings of different lengths; it reports both lengths. */
  datatype LengthMismatch = LengthMismatch(len1: nat, len2: nat)

  /**
   * The zip/map/sum of the source over positions k.. of the strings: one for
   * every position where they differ.
   */
  function MismatchSum(a: seq<byte>, b: seq<byte>, k: nat): nat
    requires |a| == |b| && k <= |a|
    decreases |a| - k
  {
    if k == |a| then 0
    else (if a[k] != b[k] then 1 else 0) + MismatchSum(a, b, k + 1)
  }

  /** The positions from k on where the two strings differ. */
  function MismatchIndices(a: seq<byte>, b: seq<byte>, k: nat): set<nat>
    requires |a| == |b|
  {
    set i: nat | k <= i < |a| && a[i] != b[i]
  }

  lemma {:induction false} SumCountsMismatches(a: seq<byte>, b: seq<byte>, k: nat)
    requires |a| == |b| && k <= |a|
    ensures MismatchSum(a, b, k) == |MismatchIndices(a, b, k)|
    decreases |a| - k
  {
    if k < |a| {
      SumCountsMismatches(a, b, k + 1);
      var rest := MismatchIndices(a, b, k + 1);
      if a[k] != b[k] {
        assert MismatchIndices(a, b, k) == rest + {k};
        assert k !in rest;
      } else {
        assert MismatchIndices(a, b, k) == rest;
      }
    }
  }

  /**
   * hamming(string1, string2): the number of positions where the strings
   * differ, or a LengthMismatch carrying both lengths.
   */
  function Hamming(a: seq<byte>, b: seq<byte>): (r: Result<nat, LengthMismatch>)
    ensures r.Err? <==> |a| != |b|
    ensures r.Err? ==> r.error == LengthMismatch(|a|, |b|)
    ensures r.Ok? ==> r.value == |MismatchIndices(a, b, 0)|
  {
    if |a| == |b| then
      SumCountsMismatches(a, b, 0);
      Ok(MismatchSum(a, b, 0))
    else
      Err(LengthMismatch(|a|, |b|))
  }

  lemma {:induction false} MismatchSumSymmetric(a: seq<byte>, b: seq<byte>, k: nat)
    requires |a| == |b| && k <= |a|
    ensures MismatchSum(a, b, k) == MismatchSum(b, a, k)
    decreases |a| - k
  {
    if k < |a| { MismatchSumSymmetric(a, b, k + 1); }
  }

  /** For equal lengths, swapping the arguments does not change the result. */
  lemma HammingSymmetric(a: seq<byte>, b: seq<byte>)
    requires |a| == |b|
    ensures Hamming(a, b) == Hamming(b, a)
  {
    MismatchSumSymmetric(a, b, 0);
  }

  lemma {:induction false} MismatchSumSelf(a: seq<byte>, k: nat)
    requires k <= |a|
    ensures MismatchSum(a, a, k) == 0
    decreases |a| - k
  {
    if k < |a| { MismatchSumSelf(a, k + 1); }
  }

  lemma HammingSelf(a: seq<byte>)
    ensures Hamming(a, a) == Ok(0)
  {
    MismatchSumSelf(a, 0);
  }

  lemma {:induction false} MismatchSumBounded(a: seq<byte>, b: seq<byte>, k: nat)
    requires |a| == |b| && k <= |a|
    ensures MismatchSum(a, b, k) <= |a| - k
    decreases |a| - k
  {
    if k < |a| { MismatchSumBounded(a, b, k + 1); }
  }

  lemma HammingBounded(a: seq<byte>, b: seq<byte>)
    requires |a| == |b|
    ensures Hamming(a, b).Ok? && Hamming(a, b).value <= |a|
  {
    MismatchSumBounded(a, b, 0);
  }

  /** The first three test cases of the source, from the Wikipedia article. */
  lemma HammingWikiExamples()
    ensures Hamming(Ascii("karolin"), Ascii("kathrin")) == Ok(3)
    ensures Hamming(Ascii("karolin"), Ascii("kerstin")) == Ok(3)
    ensures Hamming(Ascii("kathrin"), Ascii("kerstin")) == Ok(4)
  {
  }

  /** The remaining two test cases of the source, on digit strings. */
  lemma HammingDigitExamples()
    ensures Hamming(Ascii("0000"), Ascii("1111")) == Ok(4)
    ensures Hamming(Ascii("2173896"), Ascii("2233796")) == Ok(3)
  {
  }
}
