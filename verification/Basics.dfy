/** Types shared by the models. */
module Basics {

  type Byte = x: int | 0 <= x < 256

  /** C's 32-bit unsigned int. */
  type Uint = x: int | 0 <= x < 0x1_0000_0000

  datatype Option<T> = None | Some(value: T)

  /** The most blocks one file-system operation may log. */
  const MAXOPBLOCKS: nat := 10

  predicate Distinct(s: seq<nat>) {
    forall i, j :: 0 <= i < j < |s| ==> s[i] != s[j]
  }

  function Interval(lo: nat, hi: nat): set<nat>
    decreases hi - lo
  {
    if lo >= hi then {} else {lo} + Interval(lo + 1, hi)
  }

  lemma {:induction false} IntervalHas(lo: nat, hi: nat, x: nat)
    ensures x in Interval(lo, hi) <==> lo <= x < hi
    decreases hi - lo
  {
    if lo < hi { IntervalHas(lo + 1, hi, x); }
  }

  lemma {:induction false} IntervalSize(lo: nat, hi: nat)
    ensures |Interval(lo, hi)| == if lo < hi then hi - lo else 0
    decreases hi - lo
  {
    if lo < hi {
      IntervalSize(lo + 1, hi);
      IntervalHas(lo + 1, hi, lo);
    }
  }
}
