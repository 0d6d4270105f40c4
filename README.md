# Skip-thoughts data pipeline in Dafny

This project models the data-preparation pipeline of a skip-thought sentence
embedding trainer. Words read from the corpus are mapped to integer ids. The
ids are cut into fixed-length padded sentences (`sequences`). The sentences are
grouped into fixed-size batches (`batches`). For training, three batch streams
come from one document's sentences: the encoder input, the forward-decoder
labels and the backward-decoder labels. Row j of the three streams holds
sentences j+1, j+2 and j. The model also takes each row's "true length"
(`get_sequence_length`).

Modules, one file each:

- `Rows` (rows.dfy): `Row = seq<int>`, the padding id 0, `Zeros(n)` (Python's `[0] * n`), `Concat`.
- `Words` (words.dfy): `line.split()`, using the exact character set of Python's `str.isspace()`.
- `SequenceLength` (seqlength.dfy): the sum of signs of a row, which is the count of its non-padding ids when no id is negative.
- `Windower` (windower.dfy): the method `Sequences` (generator `sequences`) and the helper method `Close` (EOS and padding loop). `Sequences` is proved equal to the function `Windowed`, and `Close` to `Finish`. `Windowed` is described by a segmentation of the word stream: a segment ends at the word that reaches the cap or at a `"."`. The lemmas prove this segmentation exists and is unique.
- `Batcher` (batcher.dfy): the method `Batches` (generator `batches`), proved equal to the function `Batching`.
- `Alignment` (alignment.dfy): Python slicing with negative bounds, `zip` of three streams, and the training steps of one document.
- `Pipeline` (pipeline.dfy): the batches fed to the model fit its `[batch_size, max_length]` placeholders, in inference and in training.

Configuration flags are parameters: `maxLength`, `batchSize`, `encode` (a path string; empty means training) and `eosToken`. The methods have no preconditions on them. A cap below 1 and a batch size below 1 are modelled as the code behaves. With a cap below 1, only `"."` flushes and sentences can exceed `maxLength`. With a batch size below 1, all rows form one batch. Properties that need sane values say so in their `requires`.

The model follows main.py on these points:
- A sentence ends early only at the word `"."`.
- A partly filled buffer at the end of the input is always dropped.
- Every sentence is guaranteed to have exactly `max_length` ids only when the cap is at least 1, which `max_length >= 3` ensures. With a smaller cap, a sentence is longer than `max_length` whenever its words plus EOS exceed `max_length`.
- The true length of a row is the sum of the signs of its ids. It equals the count of non-zero ids when no id is negative.
- The word-to-id mapping is not assumed to avoid the ids 0, 2 and 3. Lemmas that need such an assumption state it.
- The three-way alignment of sentences happens in the training loop (main.py:205-210), on the list of one document's sentences.

## Model

| member | source | states |
|---|---|---|
| Rows.Zeros | main.py:161 | `[0] * n` has `max(n, 0)` elements, all of them the padding id |
| Words.Split | main.py:137 | every word that `line.split()` yields is non-empty and contains no whitespace character |
| Words.SplitKeepsText | main.py:137 | splitting loses only whitespace: the words yielded, concatenated, are the line's non-whitespace characters in order, and no word is empty |
| Words.SplitInterleave | main.py:137 | any non-empty whitespace run (spaces, tabs, newlines, ...) separates two words, and whitespace at either end, such as a line's trailing newline, yields nothing: splitting words interleaved with such runs gives back exactly the words |
| Words.SplitJoin | main.py:137 | splitting undoes joining by single spaces, for any list of non-empty whitespace-free words |
| SequenceLength.TrueLengthCountsNonPad | main.py:47-50 | for a row with no negative id, the sum of signs equals the number of positions holding a non-zero id |
| SequenceLength.TrueLengthBounds | main.py:47-50 | for a row with no negative id, the true length lies in [0, row length] |
| SequenceLength.TrueLengthAppend | main.py:50 | the sum of signs is additive over concatenation of rows |
| SequenceLength.TrueLengthZeros | main.py:47-50 | an all-padding row has true length 0 |
| SequenceLength.TrueLengthOfPositive | main.py:47-50 | a row of positive ids has its full length as true length |
| SequenceLength.SequenceLengthsBounded | main.py:47-50 | on a batch of rows of `maxLength` non-negative ids, each row's length is its non-padding count and lies in [0, maxLength] |
| Windower.Finish | main.py:141-145 | a flushed buffer is its content, then EOS (id 3) when enabled, then padding (id 0) up to `maxLength`; longer buffers are not cut |
| Windower.Close | main.py:141-145 | the EOS append and the padding `while` loop produce exactly `Finish` of the buffer |
| Windower.Sequences | main.py:128-147 | the generator's whole output over all lines equals `Windowed`: cap `maxLength - 1`, one less with EOS; EOS enabled when no encode path is given or `eosToken` is set |
| Windower.SegmentValid | main.py:136-147 | the windower's split of the word stream is a segmentation: each segment has exactly one flushing word, its last, and the dropped tail never flushes |
| Windower.SegmentationUnique | main.py:140 | a word stream has at most one segmentation, so the flush points are fixed by the rule "buffer length reaches the cap or the word is `.`" |
| Windower.WindowedIsSegmentation | main.py:136-147 | for ANY segmentation of the word stream, the output has one sentence per segment, each `Finish` of that segment's ids |
| Windower.SegmentsWithinCap | main.py:132-140 | no `.` stands before the last word of a segment or in the dropped tail; with a positive cap, segments have at most cap words and the tail fewer than cap |
| Windower.WindowedShape | main.py:132-146 | with a positive cap, every sentence has exactly `maxLength` ids: 1 to cap content ids, EOS right after them when enabled, only padding after that, and padding in the last position |
| Windower.WindowedIdsInRange | main.py:139-145 | if the word mapping lands in [0, V) and V > 3, every emitted id lies in [0, V) |
| Windower.EmittedContentIsPrefix | main.py:136-147 | the content ids of all sentences, concatenated, are the id stream minus a dropped tail; the tail has no `.` and, with a positive cap, fewer than cap words |
| Windower.FinishTrueLength | main.py:141-145 | the true length of a finished sentence is that of its content plus 1 when EOS is appended |
| Windower.WindowedTrueLength | main.py:139-145 | if the word mapping never yields 0, each sentence's true length is its word count plus 1 when EOS is appended |
| Batcher.Batches | main.py:150-162 | the generator's whole output equals `Batching`: full batches as the buffer fills, then the remainder padded with `[0] * maxLength` rows |
| Batcher.BatchingRows | main.py:153-162 | with a positive batch size, every batch has exactly batchSize rows |
| Batcher.BatchingCount | main.py:155-159 | the number q of batches is the least with q * batchSize >= n; it is 0 exactly when there are no rows |
| Batcher.BatchingCountIsCeiling | main.py:155-159 | there are ceil(n / batchSize) batches |
| Batcher.BatchingRowAt | main.py:153-161 | row r of batch k is input row k * batchSize + r, or an all-padding row past the end of the input |
| Batcher.BatchingConcat | main.py:153-162 | the batches, concatenated, are the input rows followed by k all-padding rows, 0 <= k < batchSize |
| Alignment.SliceAlignment | main.py:207-209 | for n >= 3 sentences, `seqs[1:-1]`, `seqs[2:]` and `seqs[:-2]` each have n-2 elements, and position j holds sentences j+1, j+2 and j; for n < 3 all three are empty |
| Alignment.ShortDocumentHasNoSteps | main.py:205-210 | a document with fewer than 3 sentences gives no training step, for any batch size |
| Alignment.TrainingStepsCount | main.py:207-210 | for n >= 3, the zip has ceil((n-2) / batchSize) steps, and every batch of every step has batchSize rows |
| Alignment.TrainingStepsAligned | main.py:207-210 | row r of step k, with j = k * batchSize + r, is sentence j+1 (input), j+2 (forward label) and j (backward label) while j < n-2, and padding in all three otherwise |
| Alignment.TrainingStepsUnbatched | main.py:207-210 | with a batch size below 1, a document of n >= 3 sentences gives one step holding the three whole slices |
| Pipeline.InferenceBatchesFit | main.py:190 | in inference, with a positive cap and batch size, each batch of `batches(sequences(fp))` has batchSize rows of maxLength ids |
| Pipeline.TrainingBatchesFit | main.py:205-212 | in training, with maxLength >= 3, every step feeds three batches of batchSize rows of maxLength ids |

## Left out

- The TensorFlow graph is not modelled: encoder, decoders, scheduled sampling, loss masking, gradient clipping and the Adam step (main.py:53-125). These are floating-point computations, random choices and library calls.
- The decoder label shift (main.py:72), the backward decoder built on `fw_labels` (main.py:109), the undefined `fw_length`/`bw_length` (main.py:113-114) and the undefined `global_step` (main.py:180) are not modelled. They belong to that graph, and as written they cannot run.
- Argument parsing (main.py:10-44) is not modelled; its flags are parameters instead.
- Loading the embeddings, saving and restoring checkpoints, listing and opening files, and `random.shuffle` are not modelled (main.py:100, 174-185, 189, 200-203). These are I/O and randomness. The file's lines are a `seq<string>` input.
- Session runs and the printing of `VEC` lines and step logs are not modelled (main.py:191-194, 211-213). These are I/O. Inference encodes every row of every batch, padding rows included. By `Batcher.BatchingConcat` that is the sentences in order, then fewer than batchSize padding rows.
- The mapping from words to ids is elided in the source (main.py:139). It is a parameter `toId: Word -> nat`.
- Laziness is not modelled: `sequences` and `batches` are generators, and the methods return their whole output as one sequence. Training already materialises the sentences with `list(...)` (main.py:205).
- The ids are unbounded integers, not 32-bit placeholder integers. No windower input can produce an id outside the mapping's range, 0 and 3.
- The epoch and file loops around the alignment are not modelled (main.py:198-203). Each document's steps are `Alignment.TrainingSteps`.
