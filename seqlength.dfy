/** The "true length" of a row, `get_sequence_length` in main.py:
    `reduce_sum(sign(seq), reduction_indices=1)` on a batch. */
module SequenceLength {

  import opened Rows

  /** `tf.sign` on one id. */
  function Sign(x: int): int
  {
    if x > 0 then 1 else if x < 0 then -1 else 0
  }

  /** The sum of the signs of the ids of one row. */
  function TrueLength(row: seq<int>): int
    decreases |row|
  {
    if row == [] then 0 else TrueLength(row[..|row| - 1]) + Sign(row[|row| - 1])
  }

  /** `get_sequence_length` on a batch: one true length per row, in row order. */
  function SequenceLengths(batch: seq<seq<int>>): seq<int>
  {
    seq(|batch|, i requires 0 <= i < |batch| => TrueLength(batch[i]))
  }

  /** True when no id of the row is negative, as for every id the windower emits. */
  ghost predicate NonNegative(row: seq<int>)
  {
    forall k :: 0 <= k < |row| ==> row[k] >= 0
  }

  /** The positions of the row that hold something other than padding. */
  ghost function NonPadPositions(row: seq<int>): set<int>
  {
    set k | 0 <= k < |row| && row[k] != PAD
  }

  /** The true length is additive over concatenation. */
  lemma {:induction false} TrueLengthAppend(a: seq<int>, b: seq<int>)
    ensures TrueLength(a + b) == TrueLength(a) + TrueLength(b)
    decreases |b|
  {
    if b == [] {
      assert a + b == a;
    } else {
      var b' := b[..|b| - 1];
      assert (a + b)[..|a + b| - 1] == a + b';
      TrueLengthAppend(a, b');
    }
  }

  /** Padding contributes nothing to the true length. */
  lemma {:induction false} TrueLengthZeros(n: int)
    ensures TrueLength(Zeros(n)) == 0
    decreases n
  {
    if n > 0 {
      assert Zeros(n)[..n - 1] == Zeros(n - 1);
      TrueLengthZeros(n - 1);
    }
  }

  /** For non-negative ids the true length counts the non-padding ids. */
  lemma {:induction false} TrueLengthCountsNonPad(row: seq<int>)
    requires NonNegative(row)
    ensures TrueLength(row) == |NonPadPositions(row)|
    decreases |row|
  {
    if row != [] {
      var n := |row| - 1;
      var init := row[..n];
      assert forall k :: 0 <= k < n ==> init[k] == row[k];
      TrueLengthCountsNonPad(init);
      var before, after := NonPadPositions(init), NonPadPositions(row);
      assert n !in before;
      if row[n] != PAD {
        assert after == before + {n};
        assert |after| == |before| + 1;
      } else {
        assert after == before;
      }
    }
  }

  /** For non-negative ids the true length lies between 0 and the row length. */
  lemma {:induction false} TrueLengthBounds(row: seq<int>)
    requires NonNegative(row)
    ensures 0 <= TrueLength(row) <= |row|
    decreases |row|
  {
    if row != [] {
      TrueLengthBounds(row[..|row| - 1]);
    }
  }

  /** A row with no padding id and no negative id has its full length as true length. */
  lemma {:induction false} TrueLengthOfPositive(row: seq<int>)
    requires forall k :: 0 <= k < |row| ==> row[k] > 0
    ensures TrueLength(row) == |row|
    decreases |row|
  {
    if row != [] {
      TrueLengthOfPositive(row[..|row| - 1]);
    }
  }

  /** On a batch of rows of `maxLength` non-negative ids, every row's sequence
      length counts its non-padding ids and lies in [0, maxLength]. */
  lemma SequenceLengthsBounded(batch: seq<seq<int>>, maxLength: nat)
    requires forall i :: 0 <= i < |batch| ==> |batch[i]| == maxLength && NonNegative(batch[i])
    ensures |SequenceLengths(batch)| == |batch|
    ensures forall i :: 0 <= i < |batch| ==>
      SequenceLengths(batch)[i] == |NonPadPositions(batch[i])| && 0 <= SequenceLengths(batch)[i] <= maxLength
  {
    forall i | 0 <= i < |batch|
      ensures SequenceLengths(batch)[i] == |NonPadPositions(batch[i])| && 0 <= SequenceLengths(batch)[i] <= maxLength
    {
      TrueLengthCountsNonPad(batch[i]);
      TrueLengthBounds(batch[i]);
    }
  }
}
