/** The batcher, `batches` in main.py: sentences are grouped into batches of
    exactly `batchSize` rows, and a final partial batch is padded with
    all-padding rows of `maxLength` ids. */
module Batcher {

  import opened Rows

  /** A batch of rows, as fed to one placeholder of the model. */
  type Batch = seq<Row>

  /** n rows of padding, each `[0] * maxLength`. */
  function ZeroRows(n: nat, maxLength: int): seq<Row>
  {
    seq(n, _ => Zeros(maxLength))
  }

  /** What `batches` yields for the given rows. A batch size that is not
      positive is never reached by the buffer, so all rows form one batch. */
  function Batching(rows: seq<Row>, batchSize: int, maxLength: int): seq<Batch>
    decreases |rows|
  {
    if rows == [] then []
    else if batchSize <= 0 then [rows]
    else if |rows| < batchSize then [rows + ZeroRows(batchSize - |rows|, maxLength)]
    else [rows[..batchSize]] + Batching(rows[batchSize..], batchSize, maxLength)
  }

  /** Appending input row i to a buffer below the batch size: a buffer that
      becomes full is yielded as one batch, otherwise nothing is. */
  lemma Push(buffer: seq<Row>, seqs: seq<Row>, i: nat, batchSize: int, maxLength: int)
    requires batchSize >= 1 && |buffer| < batchSize && i < |seqs|
    ensures |buffer + [seqs[i]]| == batchSize ==>
      Batching(buffer + seqs[i..], batchSize, maxLength) == [buffer + [seqs[i]]] + Batching(seqs[i + 1..], batchSize, maxLength)
    ensures |buffer + [seqs[i]]| < batchSize ==>
      Batching(buffer + seqs[i..], batchSize, maxLength) == Batching((buffer + [seqs[i]]) + seqs[i + 1..], batchSize, maxLength)
  {
    var full := buffer + [seqs[i]];
    assert buffer + seqs[i..] == full + seqs[i + 1..];
    if |full| == batchSize {
      assert (full + seqs[i + 1..])[..batchSize] == full;
      assert (full + seqs[i + 1..])[batchSize..] == seqs[i + 1..];
    }
  }

  /** A remainder below the batch size is yielded padded with padding rows. */
  lemma Remainder(remainder: seq<Row>, batchSize: int, maxLength: int)
    requires 0 < |remainder| < batchSize
    ensures Batching(remainder, batchSize, maxLength) == [remainder + ZeroRows(batchSize - |remainder|, maxLength)]
  {
  }

  /** `batches(seqs)`: the batches of the rows, in order. */
  method Batches(seqs: seq<Row>, batchSize: int, maxLength: int) returns (out: seq<Batch>)
    ensures out == Batching(seqs, batchSize, maxLength)
  {
    var buffer: seq<Row> := [];
    out := [];
    assert [] + seqs[0..] == seqs;
    for i := 0 to |seqs|
      invariant batchSize >= 1 ==> |buffer| < batchSize
      invariant batchSize >= 1 ==> out + Batching(buffer + seqs[i..], batchSize, maxLength) == Batching(seqs, batchSize, maxLength)
      invariant batchSize < 1 ==> out == [] && buffer == seqs[..i]
    {
      if batchSize >= 1 {
        Push(buffer, seqs, i, batchSize, maxLength);
      }
      buffer := buffer + [seqs[i]];
      if |buffer| == batchSize {
        out := out + [buffer];
        buffer := [];
        assert [] + seqs[i + 1..] == seqs[i + 1..];
      }
    }
    assert seqs[|seqs|..] == [] && buffer + [] == buffer;
    assert batchSize < 1 ==> buffer == seqs;
    if |buffer| > 0 {
      ghost var remainder := buffer;
      while |buffer| < batchSize
        invariant |remainder| <= |buffer| && (|buffer| <= batchSize || buffer == remainder)
        invariant buffer == remainder + ZeroRows(|buffer| - |remainder|, maxLength)
        decreases batchSize - |buffer|
      {
        buffer := buffer + [Zeros(maxLength)];
      }
      if batchSize >= 1 {
        Remainder(remainder, batchSize, maxLength);
        assert buffer == remainder + ZeroRows(batchSize - |remainder|, maxLength);
      } else {
        assert Batching(seqs, batchSize, maxLength) == [buffer];
      }
      out := out + [buffer];
    } else {
      assert out + Batching(buffer, batchSize, maxLength) == out;
    }
  }

  // ---------------------------------------------------------------------
  // Properties of the batching

  /** Every batch has exactly batchSize rows. */
  lemma {:induction false} BatchingRows(rows: seq<Row>, batchSize: int, maxLength: int)
    requires batchSize >= 1
    ensures forall k :: 0 <= k < |Batching(rows, batchSize, maxLength)| ==> |Batching(rows, batchSize, maxLength)[k]| == batchSize
    decreases |rows|
  {
    if |rows| >= batchSize {
      BatchingRows(rows[batchSize..], batchSize, maxLength);
    }
  }

  /** The number of batches q is the least with q * batchSize >= n rows; there
      are none for no rows. */
  lemma {:induction false} BatchingCount(rows: seq<Row>, batchSize: int, maxLength: int)
    requires batchSize >= 1
    ensures var q := |Batching(rows, batchSize, maxLength)|;
      && (q == 0 <==> rows == [])
      && (q - 1) * batchSize < |rows| <= q * batchSize
    decreases |rows|
  {
    var q := |Batching(rows, batchSize, maxLength)|;
    if |rows| >= batchSize {
      var rest := rows[batchSize..];
      BatchingCount(rest, batchSize, maxLength);
      var q' := |Batching(rest, batchSize, maxLength)|;
      assert q == q' + 1;
      assert q * batchSize == q' * batchSize + batchSize;
      assert (q - 1) * batchSize == q' * batchSize;
    }
  }

  /** There are ceil(n / batchSize) batches for n rows. */
  lemma BatchingCountIsCeiling(rows: seq<Row>, batchSize: int, maxLength: int)
    requires batchSize >= 1
    ensures |Batching(rows, batchSize, maxLength)| == (|rows| + batchSize - 1) / batchSize
  {
    var q := |Batching(rows, batchSize, maxLength)|;
    BatchingCount(rows, batchSize, maxLength);
    var x := |rows| + batchSize - 1;
    assert q * batchSize == (q - 1) * batchSize + batchSize;
    DivUnique(x, batchSize, q, x - q * batchSize);
  }

  /** Division is determined by a quotient and a remainder in [0, d). */
  lemma DivUnique(x: int, d: int, q: int, r: int)
    requires d >= 1 && x == q * d + r && 0 <= r < d
    ensures x / d == q
  {
    var q0, r0 := x / d, x % d;
    assert q0 * d + r0 == x;
    assert (q0 - q) * d == r - r0;
    ProductBelow(q0 - q, d);
    ProductBelow(q - q0, d);
  }

  /** A multiple of d that lies strictly between -d and d is 0. */
  lemma ProductBelow(a: int, d: int)
    requires d >= 1
    ensures a * d < d ==> a <= 0
  {
    if a >= 1 {
      assert a * d == (a - 1) * d + d;
      assert (a - 1) * d >= 0;
    }
  }

  /** Row r of batch k is row k * batchSize + r of the input, or padding past
      the end of the input. */
  lemma {:induction false} BatchingRowAt(rows: seq<Row>, batchSize: int, maxLength: int, k: nat, r: nat)
    requires batchSize >= 1 && k < |Batching(rows, batchSize, maxLength)| && r < batchSize
    ensures r < |Batching(rows, batchSize, maxLength)[k]|
    ensures Batching(rows, batchSize, maxLength)[k][r]
            == if k * batchSize + r < |rows| then rows[k * batchSize + r] else Zeros(maxLength)
    decreases |rows|
  {
    BatchingRows(rows, batchSize, maxLength);
    if |rows| >= batchSize && k > 0 {
      var rest := rows[batchSize..];
      BatchingRowAt(rest, batchSize, maxLength, k - 1, r);
      assert (k - 1) * batchSize + r + batchSize == k * batchSize + r;
    }
  }

  /** Concatenating all batches gives the rows followed by fewer than
      batchSize all-padding rows. */
  lemma {:induction false} BatchingConcat(rows: seq<Row>, batchSize: int, maxLength: int)
    requires batchSize >= 1
    ensures var extra := |Batching(rows, batchSize, maxLength)| * batchSize - |rows|;
      && 0 <= extra < batchSize
      && Concat(Batching(rows, batchSize, maxLength)) == rows + ZeroRows(extra, maxLength)
    decreases |rows|
  {
    BatchingCount(rows, batchSize, maxLength);
    var b := Batching(rows, batchSize, maxLength);
    if rows == [] {
    } else if |rows| < batchSize {
      assert |b| == 1;
      assert b[1..] == [];
      assert Concat(b) == b[0] + [];
    } else {
      var rest := rows[batchSize..];
      var b' := Batching(rest, batchSize, maxLength);
      BatchingConcat(rest, batchSize, maxLength);
      assert b[1..] == b';
      assert |b| == |b'| + 1;
      assert |b| * batchSize - |rows| == |b'| * batchSize - |rest|;
      assert Concat(b) == rows[..batchSize] + Concat(b');
      assert rows == rows[..batchSize] + rest;
    }
  }
}
