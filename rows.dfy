/** Rows of integer token ids and the sequence helpers that the windower, the
    batcher and the alignment share. */
module Rows {

  /** A row of token ids, as the pipeline hands it to the model. */
  type Row = seq<int>

  /** The padding id. */
  const PAD: int := 0

  /** Python's `[0] * n`: n padding ids, and none at all when n is not positive. */
  function Zeros(n: int): (r: Row)
    ensures |r| == if n > 0 then n else 0
    ensures forall k :: 0 <= k < |r| ==> r[k] == PAD
    decreases n
  {
    if n <= 0 then [] else Zeros(n - 1) + [PAD]
  }

  /** The concatenation of a sequence of sequences. */
  function Concat<T>(ss: seq<seq<T>>): seq<T>
  {
    if ss == [] then [] else ss[0] + Concat(ss[1..])
  }
}
