/** The sequence windower, `sequences` in main.py: the words of the input
    lines are mapped to ids and collected in a buffer; the buffer is flushed
    when it reaches a length cap or when the word "." is read; a flushed
    buffer gets the end-of-sequence id when that is enabled and is padded
    with 0 to `maxLength`. A partly filled buffer at the end of the input is
    dropped. */
module Windower {

  import opened Rows
  import opened Words
  import SequenceLength

  /** The end-of-sequence id. */
  const EOS: int := 3

  /** Whether flushed sentences get the end-of-sequence id: always when
      training (no file to encode was given), and on request when encoding. */
  function AppendEos(encode: string, eosToken: bool): bool
  {
    encode == [] || eosToken
  }

  /** The buffer length at which the buffer is flushed: one less than
      `maxLength` to leave room for the start id the decoder prepends, and one
      less again when the end-of-sequence id is appended. */
  function Cap(maxLength: int, appendEos: bool): int
  {
    if appendEos then maxLength - 2 else maxLength - 1
  }

  /** The number of ids the end-of-sequence marker adds. */
  function EosLength(appendEos: bool): nat
  {
    if appendEos then 1 else 0
  }

  /** The flush test made after a word is appended, the buffer then holding
      `bufferLength` ids. */
  predicate Flushes(word: Word, bufferLength: int, cap: int)
  {
    bufferLength == cap || word == "."
  }

  /** The words of all lines of the input, in order. */
  function StreamWords(lines: seq<string>): seq<Word>
  {
    if lines == [] then [] else Split(lines[0]) + StreamWords(lines[1..])
  }

  /** The ids of a run of words. */
  function Ids(ws: seq<Word>, toId: Word -> nat): seq<int>
  {
    seq(|ws|, k requires 0 <= k < |ws| => toId(ws[k]) as int)
  }

  /** A flushed buffer: its content, then the end-of-sequence id when that is
      enabled, then padding up to `maxLength`. */
  function Finish(content: seq<int>, appendEos: bool, maxLength: int): (s: Row)
    ensures |s| == if |content| + EosLength(appendEos) <= maxLength then maxLength else |content| + EosLength(appendEos)
    ensures s[..|content|] == content
    ensures forall k :: 0 <= k < |s| ==>
      s[k] == if k < |content| then content[k] else if appendEos && k == |content| then EOS else PAD
  {
    var closed := content + (if appendEos then [EOS] else []);
    closed + Zeros(maxLength - |closed|)
  }

  // ---------------------------------------------------------------------
  // Segmentation of the word stream

  /** The segments of the word stream, one per flush, and the words of the
      buffer that is dropped at the end. */
  datatype Segmentation = Segmentation(segments: seq<seq<Word>>, dropped: seq<Word>)

  /** Segments the words, `run` being the words already in the buffer. */
  function SegmentFrom(run: seq<Word>, words: seq<Word>, cap: int): Segmentation
    decreases |words|
  {
    if words == [] then
      Segmentation([], run)
    else
      var run' := run + [words[0]];
      if Flushes(words[0], |run'|, cap) then
        var rest := SegmentFrom([], words[1..], cap);
        Segmentation([run'] + rest.segments, rest.dropped)
      else
        SegmentFrom(run', words[1..], cap)
  }

  /** The segmentation the windower makes of a word stream. */
  function Segment(words: seq<Word>, cap: int): Segmentation
  {
    SegmentFrom([], words, cap)
  }

  /** The sentences made from a sequence of segments. */
  function Sentences(segs: seq<seq<Word>>, toId: Word -> nat, appendEos: bool, maxLength: int): seq<Row>
  {
    if segs == [] then [] else [Finish(Ids(segs[0], toId), appendEos, maxLength)] + Sentences(segs[1..], toId, appendEos, maxLength)
  }

  /** What `sequences` yields for the given lines and configuration. */
  function Windowed(lines: seq<string>, toId: Word -> nat, maxLength: int, encode: string, eosToken: bool): seq<Row>
  {
    var eos := AppendEos(encode, eosToken);
    Sentences(Segment(StreamWords(lines), Cap(maxLength, eos)).segments, toId, eos, maxLength)
  }

  /** The sentences still to come when the buffer holds `run` and `words`
      are yet to be read. */
  function Pending(run: seq<Word>, words: seq<Word>, toId: Word -> nat, appendEos: bool, maxLength: int): seq<Row>
  {
    Sentences(SegmentFrom(run, words, Cap(maxLength, appendEos)).segments, toId, appendEos, maxLength)
  }

  /** Reading word j of a line: the buffer grows by the word's id, and the
      pending sentences either start with the finished buffer (the word
      flushes) or are those of the longer buffer (it does not). */
  lemma ReadWord(run: seq<Word>, words: seq<Word>, j: nat, later: seq<Word>, toId: Word -> nat, appendEos: bool, maxLength: int)
    requires j < |words|
    ensures Ids(run + [words[j]], toId) == Ids(run, toId) + [toId(words[j]) as int]
    ensures Flushes(words[j], |run| + 1, Cap(maxLength, appendEos)) ==>
      Pending(run, words[j..] + later, toId, appendEos, maxLength)
      == [Finish(Ids(run + [words[j]], toId), appendEos, maxLength)] + Pending([], words[j + 1..] + later, toId, appendEos, maxLength)
    ensures !Flushes(words[j], |run| + 1, Cap(maxLength, appendEos)) ==>
      Pending(run, words[j..] + later, toId, appendEos, maxLength)
      == Pending(run + [words[j]], words[j + 1..] + later, toId, appendEos, maxLength)
  {
    var rest := words[j..] + later;
    assert rest[0] == words[j] && rest[1..] == words[j + 1..] + later;
    var run' := run + [words[j]];
    var cap := Cap(maxLength, appendEos);
    if Flushes(words[j], |run'|, cap) {
      var next := SegmentFrom([], rest[1..], cap);
      assert SegmentFrom(run, rest, cap).segments == [run'] + next.segments;
      assert ([run'] + next.segments)[1..] == next.segments;
    }
  }

  /** The words of the lines from i on are those of line i followed by the
      rest. */
  lemma StreamWordsFrom(lines: seq<string>, i: nat)
    requires i < |lines|
    ensures StreamWords(lines[i..]) == Split(lines[i]) + StreamWords(lines[i + 1..])
  {
    assert lines[i..][1..] == lines[i + 1..];
  }

  // ---------------------------------------------------------------------
  // The windower itself

  /** The flush step of `sequences`: appends the end-of-sequence id when
      enabled, then pads with 0 while the buffer is shorter than `maxLength`. */
  method Close(content: seq<int>, appendEos: bool, maxLength: int) returns (sentence: Row)
    ensures sentence == Finish(content, appendEos, maxLength)
  {
    sentence := content;
    if appendEos {
      sentence := sentence + [EOS];
    }
    ghost var closed := sentence;
    while |sentence| < maxLength
      invariant sentence == closed + Zeros(|sentence| - |closed|)
      invariant |closed| <= |sentence|
      invariant |sentence| <= maxLength || |sentence| == |closed|
      decreases maxLength - |sentence|
    {
      sentence := sentence + [PAD];
    }
  }

  /** `sequences(fp)`: the sentences of the lines, in order. */
  method Sequences(lines: seq<string>, toId: Word -> nat, maxLength: int, encode: string, eosToken: bool)
    returns (out: seq<Row>)
    ensures out == Windowed(lines, toId, maxLength, encode, eosToken)
  {
    var buffer: seq<int> := [];
    ghost var run: seq<Word> := [];
    var appendEos := encode == [] || eosToken;
    var cap := maxLength - 1;
    if appendEos {
      cap := cap - 1;
    }
    assert cap == Cap(maxLength, appendEos);
    ghost var target := Windowed(lines, toId, maxLength, encode, eosToken);
    out := [];
    for i := 0 to |lines|
      invariant buffer == Ids(run, toId)
      invariant out + Pending(run, StreamWords(lines[i..]), toId, appendEos, maxLength) == target
    {
      StreamWordsFrom(lines, i);
      var words := Split(lines[i]);
      ghost var later := StreamWords(lines[i + 1..]);
      for j := 0 to |words|
        invariant buffer == Ids(run, toId)
        invariant out + Pending(run, words[j..] + later, toId, appendEos, maxLength) == target
      {
        var word := words[j];
        ReadWord(run, words, j, later, toId, appendEos, maxLength);
        buffer := buffer + [toId(word)];
        if |buffer| == cap || word == "." {
          buffer := Close(buffer, appendEos, maxLength);
          out := out + [buffer];
          buffer := [];
          run := [];
        } else {
          run := run + [word];
        }
      }
      assert words[|words|..] + later == later;
    }
  }

  // ---------------------------------------------------------------------
  // What a segmentation is, independently of how the windower finds it

  /** No word of ws triggers a flush when read into a buffer that held the
      words before it. */
  ghost predicate NoFlush(ws: seq<Word>, cap: int)
  {
    forall k :: 0 <= k < |ws| ==> !Flushes(ws[k], k + 1, cap)
  }

  /** The words of one sentence: only the last of them triggers a flush. */
  ghost predicate IsSegment(seg: seq<Word>, cap: int)
  {
    seg != [] && NoFlush(seg[..|seg| - 1], cap) && Flushes(seg[|seg| - 1], |seg|, cap)
  }

  /** The words are the segments followed by a dropped run that never
      triggers a flush. */
  ghost predicate IsSegmentation(words: seq<Word>, segs: seq<seq<Word>>, dropped: seq<Word>, cap: int)
  {
    && words == Concat(segs) + dropped
    && (forall i :: 0 <= i < |segs| ==> IsSegment(segs[i], cap))
    && NoFlush(dropped, cap)
  }

  lemma {:induction false} SegmentFromValid(run: seq<Word>, words: seq<Word>, cap: int)
    requires NoFlush(run, cap)
    ensures IsSegmentation(run + words, SegmentFrom(run, words, cap).segments, SegmentFrom(run, words, cap).dropped, cap)
    decreases |words|
  {
    if words == [] {
      assert run + words == run;
    } else {
      var run' := run + [words[0]];
      assert run + words == run' + words[1..];
      if Flushes(words[0], |run'|, cap) {
        SegmentFromValid([], words[1..], cap);
        var rest := SegmentFrom([], words[1..], cap);
        assert run'[..|run'| - 1] == run;
        assert ([run'] + rest.segments)[0] == run';
        assert ([run'] + rest.segments)[1..] == rest.segments;
        assert [] + words[1..] == words[1..];
      } else {
        assert NoFlush(run', cap);
        SegmentFromValid(run', words[1..], cap);
      }
    }
  }

  /** The windower's segmentation is a segmentation of the word stream. */
  lemma SegmentValid(words: seq<Word>, cap: int)
    ensures IsSegmentation(words, Segment(words, cap).segments, Segment(words, cap).dropped, cap)
  {
    SegmentFromValid([], words, cap);
    assert [] + words == words;
  }

  /** A segment at the front of the words ends no later than any flush in them. */
  lemma FlushBound(g: seq<Word>, words: seq<Word>, m: nat, cap: int)
    requires IsSegment(g, cap) && |g| <= |words| && g == words[..|g|]
    requires m < |words| && Flushes(words[m], m + 1, cap)
    ensures |g| <= m + 1
  {
    assert forall k :: 0 <= k < |g| - 1 ==> g[..|g| - 1][k] == words[k];
  }

  /** There are no segments exactly when no word of the stream triggers a flush. */
  lemma NoSegmentsIff(words: seq<Word>, segs: seq<seq<Word>>, dropped: seq<Word>, cap: int)
    requires IsSegmentation(words, segs, dropped, cap)
    ensures segs == [] <==> NoFlush(words, cap)
  {
    if segs != [] {
      var g := segs[0];
      assert words == g + (Concat(segs[1..]) + dropped);
      assert IsSegment(g, cap);
      assert words[|g| - 1] == g[|g| - 1];
    } else {
      assert words == dropped;
    }
  }

  /** A word stream has one segmentation only: the flushes are forced. */
  lemma {:induction false} SegmentationUnique(words: seq<Word>, s1: seq<seq<Word>>, d1: seq<Word>, s2: seq<seq<Word>>, d2: seq<Word>, cap: int)
    requires IsSegmentation(words, s1, d1, cap) && IsSegmentation(words, s2, d2, cap)
    ensures s1 == s2 && d1 == d2
    decreases |s1|
  {
    NoSegmentsIff(words, s1, d1, cap);
    NoSegmentsIff(words, s2, d2, cap);
    if s1 == [] {
      assert words == d1 && words == d2;
    } else {
      var g1, g2 := s1[0], s2[0];
      assert words == g1 + (Concat(s1[1..]) + d1);
      assert words == g2 + (Concat(s2[1..]) + d2);
      assert IsSegment(g1, cap) && IsSegment(g2, cap);
      assert words[|g2| - 1] == g2[|g2| - 1];
      assert words[|g1| - 1] == g1[|g1| - 1];
      FlushBound(g1, words, |g2| - 1, cap);
      FlushBound(g2, words, |g1| - 1, cap);
      assert g1 == g2;
      var rest := words[|g1|..];
      assert rest == Concat(s1[1..]) + d1 && rest == Concat(s2[1..]) + d2;
      SegmentationUnique(rest, s1[1..], d1, s2[1..], d2, cap);
      assert s1 == [g1] + s1[1..] && s2 == [g2] + s2[1..];
    }
  }

  /** A run that triggers no flush stays below a positive cap. */
  lemma {:induction false} NoFlushBelowCap(ws: seq<Word>, cap: int)
    requires NoFlush(ws, cap) && cap >= 1
    ensures |ws| < cap
    decreases |ws|
  {
    if ws != [] {
      var init := ws[..|ws| - 1];
      assert forall k :: 0 <= k < |init| ==> init[k] == ws[k];
      NoFlushBelowCap(init, cap);
      assert !Flushes(ws[|ws| - 1], |ws|, cap);
    }
  }

  /** With a positive cap, no segment exceeds the cap and the dropped words
      never reach it; a "." never stands inside a segment or in the dropped
      words. */
  lemma SegmentsWithinCap(words: seq<Word>, segs: seq<seq<Word>>, dropped: seq<Word>, cap: int)
    requires IsSegmentation(words, segs, dropped, cap)
    ensures forall i :: 0 <= i < |segs| ==> "." !in segs[i][..|segs[i]| - 1]
    ensures "." !in dropped
    ensures cap >= 1 ==> |dropped| < cap && forall i :: 0 <= i < |segs| ==> |segs[i]| <= cap
  {
    forall i | 0 <= i < |segs|
      ensures "." !in segs[i][..|segs[i]| - 1]
      ensures cap >= 1 ==> |segs[i]| <= cap
    {
      var g := segs[i];
      assert IsSegment(g, cap);
      if cap >= 1 {
        NoFlushBelowCap(g[..|g| - 1], cap);
      }
    }
    if cap >= 1 {
      NoFlushBelowCap(dropped, cap);
    }
  }

  // ---------------------------------------------------------------------
  // Properties of what the windower yields

  lemma {:induction false} SentencesAt(segs: seq<seq<Word>>, toId: Word -> nat, appendEos: bool, maxLength: int)
    ensures |Sentences(segs, toId, appendEos, maxLength)| == |segs|
    ensures forall i :: 0 <= i < |segs| ==>
      Sentences(segs, toId, appendEos, maxLength)[i] == Finish(Ids(segs[i], toId), appendEos, maxLength)
    decreases |segs|
  {
    if segs != [] {
      SentencesAt(segs[1..], toId, appendEos, maxLength);
    }
  }

  /** The windower's output is the sentences of THE segmentation of the word
      stream: any segmentation of the stream yields exactly these sentences. */
  lemma WindowedIsSegmentation(lines: seq<string>, toId: Word -> nat, maxLength: int, encode: string, eosToken: bool,
                               segs: seq<seq<Word>>, dropped: seq<Word>)
    requires IsSegmentation(StreamWords(lines), segs, dropped, Cap(maxLength, AppendEos(encode, eosToken)))
    ensures |Windowed(lines, toId, maxLength, encode, eosToken)| == |segs|
    ensures forall i :: 0 <= i < |segs| ==>
      Windowed(lines, toId, maxLength, encode, eosToken)[i] == Finish(Ids(segs[i], toId), AppendEos(encode, eosToken), maxLength)
  {
    var eos := AppendEos(encode, eosToken);
    var cap := Cap(maxLength, eos);
    var words := StreamWords(lines);
    SegmentValid(words, cap);
    SegmentationUnique(words, segs, dropped, Segment(words, cap).segments, Segment(words, cap).dropped, cap);
    SentencesAt(segs, toId, eos, maxLength);
  }

  /** With a positive cap (maxLength >= 3 suffices) every sentence has exactly
      maxLength ids: its 1 to cap content ids, the end-of-sequence id when
      enabled, then padding only, so that the last id is always padding. */
  lemma WindowedShape(lines: seq<string>, toId: Word -> nat, maxLength: int, encode: string, eosToken: bool)
    requires Cap(maxLength, AppendEos(encode, eosToken)) >= 1
    ensures var out := Windowed(lines, toId, maxLength, encode, eosToken);
      forall i :: 0 <= i < |out| ==> |out[i]| == maxLength && out[i][maxLength - 1] == PAD
    ensures var out := Windowed(lines, toId, maxLength, encode, eosToken);
            var segs := Segment(StreamWords(lines), Cap(maxLength, AppendEos(encode, eosToken))).segments;
      |out| == |segs| &&
      forall i :: 0 <= i < |out| ==>
        && 1 <= |segs[i]| <= Cap(maxLength, AppendEos(encode, eosToken))
        && out[i][..|segs[i]|] == Ids(segs[i], toId)
        && (AppendEos(encode, eosToken) ==> out[i][|segs[i]|] == EOS)
        && forall k :: |segs[i]| + EosLength(AppendEos(encode, eosToken)) <= k < maxLength ==> out[i][k] == PAD
  {
    var eos := AppendEos(encode, eosToken);
    var cap := Cap(maxLength, eos);
    var r := Segment(StreamWords(lines), cap);
    SegmentValid(StreamWords(lines), cap);
    SegmentsWithinCap(StreamWords(lines), r.segments, r.dropped, cap);
    SentencesAt(r.segments, toId, eos, maxLength);
  }

  /** Every id the windower emits is in [0, vocabularySize), given a word
      mapping into that range and a vocabulary that holds the end-of-sequence
      id. */
  lemma WindowedIdsInRange(lines: seq<string>, toId: Word -> nat, maxLength: int, encode: string, eosToken: bool,
                           vocabularySize: int)
    requires EOS < vocabularySize && forall w :: toId(w) < vocabularySize
    ensures var out := Windowed(lines, toId, maxLength, encode, eosToken);
      forall i, k :: 0 <= i < |out| && 0 <= k < |out[i]| ==> 0 <= out[i][k] < vocabularySize
  {
    var eos := AppendEos(encode, eosToken);
    var r := Segment(StreamWords(lines), Cap(maxLength, eos));
    SentencesAt(r.segments, toId, eos, maxLength);
  }

  /** The content ids of each segment, in order. */
  function Contents(segs: seq<seq<Word>>, toId: Word -> nat): seq<seq<int>>
  {
    seq(|segs|, i requires 0 <= i < |segs| => Ids(segs[i], toId))
  }

  lemma {:induction false} IdsConcat(segs: seq<seq<Word>>, toId: Word -> nat)
    ensures Ids(Concat(segs), toId) == Concat(Contents(segs, toId))
    decreases |segs|
  {
    if segs != [] {
      IdsConcat(segs[1..], toId);
      assert Contents(segs, toId)[1..] == Contents(segs[1..], toId);
      assert Ids(segs[0] + Concat(segs[1..]), toId) == Ids(segs[0], toId) + Ids(Concat(segs[1..]), toId);
    }
  }

  /** The content of the emitted sentences, put together, is the id stream
      without its dropped tail; that tail holds no "." and, with a positive
      cap, fewer words than the cap. */
  lemma EmittedContentIsPrefix(words: seq<Word>, toId: Word -> nat, cap: int)
    ensures var r := Segment(words, cap);
      && |r.dropped| <= |words|
      && Concat(Contents(r.segments, toId)) == Ids(words, toId)[..|words| - |r.dropped|]
      && "." !in r.dropped
      && (cap >= 1 ==> |r.dropped| < cap)
  {
    var r := Segment(words, cap);
    SegmentValid(words, cap);
    SegmentsWithinCap(words, r.segments, r.dropped, cap);
    IdsConcat(r.segments, toId);
    assert Ids(words, toId) == Ids(Concat(r.segments), toId) + Ids(r.dropped, toId);
  }

  /** The true length of a finished sentence counts its content and the
      end-of-sequence id; padding contributes nothing. */
  lemma FinishTrueLength(content: seq<int>, appendEos: bool, maxLength: int)
    ensures SequenceLength.TrueLength(Finish(content, appendEos, maxLength))
            == SequenceLength.TrueLength(content) + EosLength(appendEos)
  {
    var tail := if appendEos then [EOS] else [];
    var closed := content + tail;
    SequenceLength.TrueLengthAppend(closed, Zeros(maxLength - |closed|));
    SequenceLength.TrueLengthAppend(content, tail);
    SequenceLength.TrueLengthZeros(maxLength - |closed|);
    if appendEos {
      assert tail[..0] == [];
    }
  }

  /** When the word mapping never yields the padding id, the true length of
      each emitted sentence is its number of words plus the end-of-sequence
      id. */
  lemma WindowedTrueLength(lines: seq<string>, toId: Word -> nat, maxLength: int, encode: string, eosToken: bool)
    requires forall w :: toId(w) != 0
    ensures var out := Windowed(lines, toId, maxLength, encode, eosToken);
            var segs := Segment(StreamWords(lines), Cap(maxLength, AppendEos(encode, eosToken))).segments;
      |out| == |segs| &&
      forall i :: 0 <= i < |out| ==>
        SequenceLength.TrueLength(out[i]) == |segs[i]| + EosLength(AppendEos(encode, eosToken))
  {
    var eos := AppendEos(encode, eosToken);
    var segs := Segment(StreamWords(lines), Cap(maxLength, eos)).segments;
    SentencesAt(segs, toId, eos, maxLength);
    forall i | 0 <= i < |segs|
      ensures SequenceLength.TrueLength(Finish(Ids(segs[i], toId), eos, maxLength)) == |segs[i]| + EosLength(eos)
    {
      FinishTrueLength(Ids(segs[i], toId), eos, maxLength);
      SequenceLength.TrueLengthOfPositive(Ids(segs[i], toId));
    }
  }
}
