/** Triple alignment in the training loop of main.py: the sentences of one
    document are sliced three ways, `seqs[1:-1]`, `seqs[2:]` and `seqs[:-2]`,
    each slice is batched on its own, and the three batch streams are zipped
    into training steps. */
module Alignment {

  import opened Rows
  import opened Batcher

  /** Python's normalisation of a slice bound i against a length n: a
      negative bound counts from the end, and the result is clamped to
      [0, n]. */
  function SliceBound(i: int, n: nat): (b: nat)
    ensures b <= n
  {
    if i < 0 then (if n + i < 0 then 0 else n + i) else if i > n then n else i
  }

  /** Python's `s[lo:hi]`; an omitted bound is written as 0 or `|s|`. */
  function Slice<T>(s: seq<T>, lo: int, hi: int): seq<T>
  {
    var a, b := SliceBound(lo, |s|), SliceBound(hi, |s|);
    if a < b then s[a..b] else []
  }

  /** `seqs[1:-1]`: the sentences the encoder reads. */
  function InputSentences(seqs: seq<Row>): seq<Row>
  {
    Slice(seqs, 1, -1)
  }

  /** `seqs[2:]`: the sentences the forward decoder must produce. */
  function ForwardLabels(seqs: seq<Row>): seq<Row>
  {
    Slice(seqs, 2, |seqs|)
  }

  /** `seqs[:-2]`: the sentences the backward decoder must produce. */
  function BackwardLabels(seqs: seq<Row>): seq<Row>
  {
    Slice(seqs, 0, -2)
  }

  /** The three batches fed to one training step. */
  datatype Step = Step(inputs: Batch, fwLabels: Batch, bwLabels: Batch)

  /** Python's `zip` of three streams: it stops at the shortest. */
  function Zip3(a: seq<Batch>, b: seq<Batch>, c: seq<Batch>): (z: seq<Step>)
  {
    var n := if |a| <= |b| && |a| <= |c| then |a| else if |b| <= |c| then |b| else |c|;
    seq(n, k requires 0 <= k < n => Step(a[k], b[k], c[k]))
  }

  /** The training steps of one document. */
  function TrainingSteps(seqs: seq<Row>, batchSize: int, maxLength: int): seq<Step>
  {
    Zip3(Batching(InputSentences(seqs), batchSize, maxLength),
         Batching(ForwardLabels(seqs), batchSize, maxLength),
         Batching(BackwardLabels(seqs), batchSize, maxLength))
  }

  /** For n >= 3 sentences each slice has n - 2 of them, and position j of
      the slices holds sentences j + 1, j + 2 and j; for fewer than 3
      sentences all three slices are empty. */
  lemma SliceAlignment(seqs: seq<Row>)
    ensures |seqs| < 3 ==> InputSentences(seqs) == [] && ForwardLabels(seqs) == [] && BackwardLabels(seqs) == []
    ensures |seqs| >= 3 ==>
      && |InputSentences(seqs)| == |seqs| - 2
      && |ForwardLabels(seqs)| == |seqs| - 2
      && |BackwardLabels(seqs)| == |seqs| - 2
      && forall j :: 0 <= j < |seqs| - 2 ==>
        && InputSentences(seqs)[j] == seqs[j + 1]
        && ForwardLabels(seqs)[j] == seqs[j + 2]
        && BackwardLabels(seqs)[j] == seqs[j]
  {
  }

  /** A document with fewer than 3 sentences yields no training step. */
  lemma ShortDocumentHasNoSteps(seqs: seq<Row>, batchSize: int, maxLength: int)
    requires |seqs| < 3
    ensures TrainingSteps(seqs, batchSize, maxLength) == []
  {
    SliceAlignment(seqs);
  }

  /** For n >= 3 sentences there are ceil((n - 2) / batchSize) steps, and in
      every step the three batches have batchSize rows. */
  lemma TrainingStepsCount(seqs: seq<Row>, batchSize: int, maxLength: int)
    requires batchSize >= 1 && |seqs| >= 3
    ensures var steps := TrainingSteps(seqs, batchSize, maxLength);
      && |steps| == (|seqs| - 2 + batchSize - 1) / batchSize
      && forall k :: 0 <= k < |steps| ==>
        && |steps[k].inputs| == batchSize
        && |steps[k].fwLabels| == batchSize
        && |steps[k].bwLabels| == batchSize
  {
    var ins, fws, bws := InputSentences(seqs), ForwardLabels(seqs), BackwardLabels(seqs);
    SliceAlignment(seqs);
    BatchingCountIsCeiling(ins, batchSize, maxLength);
    BatchingCountIsCeiling(fws, batchSize, maxLength);
    BatchingCountIsCeiling(bws, batchSize, maxLength);
    BatchingRows(ins, batchSize, maxLength);
    BatchingRows(fws, batchSize, maxLength);
    BatchingRows(bws, batchSize, maxLength);
  }

  /** Row r of batch k of a shifted slice: the sentence at position
      k * batchSize + r + shift while the slice lasts, padding beyond. */
  lemma ShiftedRowAt(part: seq<Row>, seqs: seq<Row>, shift: nat, batchSize: int, maxLength: int, k: nat, r: nat)
    requires |part| + shift <= |seqs| && forall j :: 0 <= j < |part| ==> part[j] == seqs[j + shift]
    requires batchSize >= 1 && k < |Batching(part, batchSize, maxLength)| && r < batchSize
    ensures r < |Batching(part, batchSize, maxLength)[k]|
    ensures Batching(part, batchSize, maxLength)[k][r]
            == if k * batchSize + r < |part| then seqs[k * batchSize + r + shift] else Zeros(maxLength)
  {
    BatchingRowAt(part, batchSize, maxLength, k, r);
  }

  /** For n >= 3 sentences, row r of step k holds, for j = k * batchSize + r,
      the sentences j + 1 (input), j + 2 (forward label) and j (backward
      label) while j < n - 2, and padding in all three beyond. */
  lemma TrainingStepsAligned(seqs: seq<Row>, batchSize: int, maxLength: int, k: nat, r: nat)
    requires batchSize >= 1 && |seqs| >= 3
    requires k < |TrainingSteps(seqs, batchSize, maxLength)| && r < batchSize
    ensures var step := TrainingSteps(seqs, batchSize, maxLength)[k];
            var j := k * batchSize + r;
      && r < |step.inputs| && r < |step.fwLabels| && r < |step.bwLabels|
      && (j < |seqs| - 2 ==>
            step.inputs[r] == seqs[j + 1] && step.fwLabels[r] == seqs[j + 2] && step.bwLabels[r] == seqs[j])
      && (j >= |seqs| - 2 ==>
            step.inputs[r] == Zeros(maxLength) && step.fwLabels[r] == Zeros(maxLength) && step.bwLabels[r] == Zeros(maxLength))
  {
    var ins, fws, bws := InputSentences(seqs), ForwardLabels(seqs), BackwardLabels(seqs);
    SliceAlignment(seqs);
    ShiftedRowAt(ins, seqs, 1, batchSize, maxLength, k, r);
    ShiftedRowAt(fws, seqs, 2, batchSize, maxLength, k, r);
    ShiftedRowAt(bws, seqs, 0, batchSize, maxLength, k, r);
  }

  /** With a batch size that is not positive, a document of n >= 3 sentences
      yields one step holding the three whole slices. */
  lemma TrainingStepsUnbatched(seqs: seq<Row>, batchSize: int, maxLength: int)
    requires batchSize <= 0 && |seqs| >= 3
    ensures TrainingSteps(seqs, batchSize, maxLength)
            == [Step(InputSentences(seqs), ForwardLabels(seqs), BackwardLabels(seqs))]
  {
    SliceAlignment(seqs);
  }
}
