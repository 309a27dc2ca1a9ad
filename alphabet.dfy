/**
 * Symbols of the compared sequences and of the aligned strings the two
 * aligners build.  Inputs are byte strings; an aligned string holds input
 * bytes and gap markers (printed as '-').
 */
module Alphabet {
  type byte = x: int | 0 <= x < 256

  /** One position of an aligned string: an input byte or the gap marker. */
  datatype Sym = Base(b: byte) | Gap

  /** The byte that stands for a gap when an aligned string is printed. */
  const GapByte: byte := 45

  /** The input bytes of an aligned string, gaps removed. */
  function Strip(s: seq<Sym>): (r: seq<byte>)
    ensures |r| <= |s|
  {
    if s == [] then []
    else Strip(s[..|s| - 1]) + (match s[|s| - 1] case Gap => [] case Base(b) => [b])
  }

  lemma StripSnoc(s: seq<Sym>, x: Sym)
    ensures Strip(s + [x]) == Strip(s) + (match x case Gap => [] case Base(b) => [b])
  {
    assert (s + [x])[..|s|] == s;
  }

  /** A byte string written as an aligned string without gaps. */
  function Syms(s: seq<byte>): (r: seq<Sym>)
    ensures |r| == |s|
    ensures forall i :: 0 <= i < |s| ==> r[i] == Base(s[i])
  {
    if s == [] then [] else Syms(s[..|s| - 1]) + [Base(s[|s| - 1])]
  }

  /** The gap-free aligned string of a prefix grows by one symbol per byte. */
  lemma SymsPrefix(s: seq<byte>, k: nat)
    requires 1 <= k <= |s|
    ensures Syms(s[..k]) == Syms(s[..k - 1]) + [Base(s[k - 1])]
  {
    assert s[..k][..k - 1] == s[..k - 1];
  }

  /** The byte a symbol prints as: its own byte, or '-' for a gap. */
  function Glyph(x: Sym): byte
  {
    match x
    case Gap => GapByte
    case Base(b) => b
  }

  /** An aligned string as the source prints it, with '-' for every gap. */
  function Render(s: seq<Sym>): (r: seq<byte>)
    ensures |r| == |s|
  {
    seq(|s|, i requires 0 <= i < |s| => Glyph(s[i]))
  }


  /** The bytes of an ASCII text: each character's code (taken modulo 256 beyond ASCII). */
  function Ascii(s: string): (r: seq<byte>)
    ensures |r| == |s|
  {
    seq(|s|, i requires 0 <= i < |s| => (s[i] as int) % 256)
  }


  /** A sequence read back to front. */
  function Reverse<T>(s: seq<T>): (r: seq<T>)
    ensures |r| == |s|
    ensures forall i :: 0 <= i < |s| ==> r[i] == s[|s| - 1 - i]
  {
    if s == [] then [] else [s[|s| - 1]] + Reverse(s[..|s| - 1])
  }

  lemma ReverseSnoc<T>(s: seq<T>, x: T)
    ensures Reverse(s + [x]) == [x] + Reverse(s)
  {
    assert (s + [x])[..|s|] == s;
  }

  /** Nothing pushed yet: the pending part is the whole. */
  lemma PendingEmpty<T>(w: seq<T>)
    ensures w == w + Reverse<T>([])
  {
    assert Reverse<T>([]) == [];
  }

  /**
   * Traceback bookkeeping: moving the last symbol x of the pending part p
   * onto the stack a of pushed symbols (kept in reverse) leaves the whole w
   * as it was.
   */
  lemma PendingShift<T>(w: seq<T>, p: seq<T>, a: seq<T>, x: T)
    requires w == p + [x] + Reverse(a)
    ensures w == p + Reverse(a + [x])
  {
    ReverseSnoc(a, x);
  }

  /** Two aligned strings: equally long, and no column is a gap in both. */
  predicate Aligned(a1: seq<Sym>, a2: seq<Sym>)
  {
    |a1| == |a2| && forall i :: 0 <= i < |a1| ==> !(a1[i].Gap? && a2[i].Gap?)
  }

  lemma AlignedSnoc(a1: seq<Sym>, a2: seq<Sym>, x: Sym, y: Sym)
    requires Aligned(a1, a2) && !(x.Gap? && y.Gap?)
    ensures Aligned(a1 + [x], a2 + [y])
  {
  }
}
