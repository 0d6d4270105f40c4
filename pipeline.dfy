/** The data path of main.py end to end: the windower's sentences batched
    for inference (`batches(sequences(fp))`) and aligned for training. The
    model's three inputs are placeholders of shape [batchSize, maxLength];
    these lemmas show that every batch fits them. */
module Pipeline {

  import opened Words
  import opened Windower
  import opened Batcher
  import opened Alignment

  /** Inference: each batch has batchSize rows of maxLength ids. */
  lemma InferenceBatchesFit(lines: seq<string>, toId: Word -> nat, maxLength: int, encode: string, eosToken: bool,
                            batchSize: int)
    requires batchSize >= 1 && Cap(maxLength, AppendEos(encode, eosToken)) >= 1
    ensures var batches := Batching(Windowed(lines, toId, maxLength, encode, eosToken), batchSize, maxLength);
      forall k :: 0 <= k < |batches| ==>
        |batches[k]| == batchSize && forall r :: 0 <= r < batchSize ==> |batches[k][r]| == maxLength
  {
    var sentences := Windowed(lines, toId, maxLength, encode, eosToken);
    var batches := Batching(sentences, batchSize, maxLength);
    WindowedShape(lines, toId, maxLength, encode, eosToken);
    BatchingRows(sentences, batchSize, maxLength);
    forall k, r | 0 <= k < |batches| && 0 <= r < batchSize
      ensures |batches[k][r]| == maxLength
    {
      BatchingRowAt(sentences, batchSize, maxLength, k, r);
    }
  }

  /** Training (no file to encode, so the end-of-sequence id is appended):
      with maxLength >= 3, every step's three batches have batchSize rows of
      maxLength ids. */
  lemma TrainingBatchesFit(lines: seq<string>, toId: Word -> nat, maxLength: int, eosToken: bool, batchSize: int)
    requires batchSize >= 1 && maxLength >= 3
    ensures var steps := TrainingSteps(Windowed(lines, toId, maxLength, "", eosToken), batchSize, maxLength);
      forall k :: 0 <= k < |steps| ==>
        && |steps[k].inputs| == batchSize && |steps[k].fwLabels| == batchSize && |steps[k].bwLabels| == batchSize
        && forall r :: 0 <= r < batchSize ==>
          |steps[k].inputs[r]| == maxLength && |steps[k].fwLabels[r]| == maxLength && |steps[k].bwLabels[r]| == maxLength
  {
    var seqs := Windowed(lines, toId, maxLength, "", eosToken);
    var steps := TrainingSteps(seqs, batchSize, maxLength);
    WindowedShape(lines, toId, maxLength, "", eosToken);
    if |seqs| < 3 {
      ShortDocumentHasNoSteps(seqs, batchSize, maxLength);
    } else {
      TrainingStepsCount(seqs, batchSize, maxLength);
      forall k, r | 0 <= k < |steps| && 0 <= r < batchSize
        ensures |steps[k].inputs[r]| == maxLength && |steps[k].fwLabels[r]| == maxLength && |steps[k].bwLabels[r]| == maxLength
      {
        TrainingStepsAligned(seqs, batchSize, maxLength, k, r);
      }
    }
  }
}
