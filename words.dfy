/** Whitespace splitting of one input line, as Python's `str.split()` without
    arguments does it: runs of whitespace separate words, and whitespace at
    either end yields no empty word. */
module Words {

  import opened Rows

  /** A word of the corpus. */
  type Word = string

  /** The characters for which Python's `str.isspace()` holds. */
  predicate IsSpace(c: char)
  {
    || ('\U{9}' <= c <= '\U{D}')
    || ('\U{1C}' <= c <= '\U{20}')
    || c == '\U{85}' || c == '\U{A0}' || c == '\U{1680}'
    || ('\U{2000}' <= c <= '\U{200A}')
    || c == '\U{2028}' || c == '\U{2029}' || c == '\U{202F}' || c == '\U{205F}' || c == '\U{3000}'
  }

  /** True when s holds no whitespace character. */
  ghost predicate Spaceless(s: string)
  {
    forall k :: 0 <= k < |s| ==> !IsSpace(s[k])
  }

  /** A word as `str.split()` yields it: non-empty and free of whitespace. */
  ghost predicate IsWord(w: string)
  {
    w != [] && Spaceless(w)
  }

  /** Splits s, where cur is the word read so far. */
  function SplitFrom(cur: Word, s: string): (ws: seq<Word>)
    requires Spaceless(cur)
    ensures forall i :: 0 <= i < |ws| ==> IsWord(ws[i])
    decreases |s|
  {
    if s == [] then
      (if cur == [] then [] else [cur])
    else if IsSpace(s[0]) then
      (if cur == [] then [] else [cur]) + SplitFrom([], s[1..])
    else
      SplitFrom(cur + [s[0]], s[1..])
  }

  /** `line.split()`. */
  function Split(line: string): (ws: seq<Word>)
    ensures forall i :: 0 <= i < |ws| ==> IsWord(ws[i])
  {
    SplitFrom([], line)
  }

  /** The characters of s that are not whitespace, in order. */
  function NonSpace(s: string): string
  {
    if s == [] then [] else (if IsSpace(s[0]) then [] else [s[0]]) + NonSpace(s[1..])
  }

  /** The words joined by single spaces: `' '.join(ws)`. */
  function Join(ws: seq<Word>): string
  {
    if ws == [] then [] else if |ws| == 1 then ws[0] else ws[0] + " " + Join(ws[1..])
  }

  lemma {:induction false} SplitFromKeepsText(cur: Word, s: string)
    requires Spaceless(cur)
    ensures [] !in SplitFrom(cur, s)
    ensures Concat(SplitFrom(cur, s)) == cur + NonSpace(s)
    decreases |s|
  {
    if s == [] {
    } else if IsSpace(s[0]) {
      SplitFromKeepsText([], s[1..]);
      assert NonSpace(s) == NonSpace(s[1..]);
      if cur != [] {
        assert ([cur] + SplitFrom([], s[1..]))[1..] == SplitFrom([], s[1..]);
      } else {
        assert [] + SplitFrom([], s[1..]) == SplitFrom([], s[1..]);
      }
    } else {
      assert Spaceless(cur + [s[0]]);
      SplitFromKeepsText(cur + [s[0]], s[1..]);
      assert NonSpace(s) == [s[0]] + NonSpace(s[1..]);
    }
  }

  /** Splitting loses exactly the whitespace: the words, put back together,
      are the line's non-whitespace characters. */
  lemma SplitKeepsText(line: string)
    ensures [] !in Split(line)
    ensures Concat(Split(line)) == NonSpace(line)
  {
    SplitFromKeepsText([], line);
  }

  lemma {:induction false} SplitFromWord(cur: Word, w: Word, rest: string)
    requires Spaceless(cur) && Spaceless(w)
    ensures Spaceless(cur + w)
    ensures SplitFrom(cur, w + rest) == SplitFrom(cur + w, rest)
    decreases |w|
  {
    if w == [] {
      assert w + rest == rest;
      assert cur + w == cur;
    } else {
      assert (w + rest)[0] == w[0];
      assert (w + rest)[1..] == w[1..] + rest;
      assert Spaceless(cur + [w[0]]);
      SplitFromWord(cur + [w[0]], w[1..], rest);
      assert cur + [w[0]] + w[1..] == cur + w;
    }
  }

  /** Splitting undoes joining with single spaces. */
  lemma {:induction false} SplitJoin(ws: seq<Word>)
    requires forall i :: 0 <= i < |ws| ==> IsWord(ws[i])
    ensures Split(Join(ws)) == ws
    decreases |ws|
  {
    if ws == [] {
    } else if |ws| == 1 {
      SplitFromWord([], ws[0], []);
      assert ws[0] + [] == ws[0];
      assert [] + ws[0] == ws[0];
    } else {
      var rest := Join(ws[1..]);
      SplitFromWord([], ws[0], " " + rest);
      assert [] + ws[0] == ws[0];
      assert ws[0] + " " + rest == ws[0] + (" " + rest);
      assert (" " + rest)[1..] == rest;
      SplitJoin(ws[1..]);
      assert ws == [ws[0]] + ws[1..];
    }
  }

  /** True when every character of s is whitespace. */
  ghost predicate AllSpace(s: string)
  {
    forall k :: 0 <= k < |s| ==> IsSpace(s[k])
  }

  /** The line seps[0] + ws[0] + seps[1] + ... + ws[n-1] + seps[n]. */
  function Interleave(seps: seq<string>, ws: seq<Word>): string
    requires |seps| == |ws| + 1
    decreases |ws|
  {
    if ws == [] then seps[0] else seps[0] + (ws[0] + Interleave(seps[1..], ws[1..]))
  }

  /** Whitespace before the next word is skipped. */
  lemma {:induction false} SplitSkipsSpace(sep: string, rest: string)
    requires AllSpace(sep)
    ensures SplitFrom([], sep + rest) == SplitFrom([], rest)
    decreases |sep|
  {
    if sep != [] {
      assert (sep + rest)[0] == sep[0];
      assert (sep + rest)[1..] == sep[1..] + rest;
      SplitSkipsSpace(sep[1..], rest);
    } else {
      assert sep + rest == rest;
    }
  }

  /** Whitespace after a word ends it. */
  lemma SplitEndsWord(cur: Word, sep: string, rest: string)
    requires IsWord(cur) && AllSpace(sep) && sep != []
    ensures SplitFrom(cur, sep + rest) == [cur] + SplitFrom([], rest)
  {
    assert (sep + rest)[0] == sep[0];
    assert (sep + rest)[1..] == sep[1..] + rest;
    SplitSkipsSpace(sep[1..], rest);
  }

  lemma {:induction false} SplitInterleaveFrom(seps: seq<string>, ws: seq<Word>)
    requires |seps| == |ws| + 1 && |ws| > 0
    requires forall i :: 0 <= i < |ws| ==> IsWord(ws[i])
    requires forall i :: 0 <= i < |seps| ==> AllSpace(seps[i])
    requires forall i :: 0 < i < |ws| ==> seps[i] != []
    ensures IsWord(ws[0]) && SplitFrom(ws[0], Interleave(seps[1..], ws[1..])) == ws
    decreases |ws|
  {
    assert IsWord(ws[0]);
    var w, tail := ws[0], Interleave(seps[1..], ws[1..]);
    if |ws| == 1 {
      assert tail == seps[1];
      if seps[1] == [] {
      } else {
        SplitEndsWord(w, seps[1], []);
        assert seps[1] + [] == seps[1];
      }
    } else {
      var next := ws[1] + Interleave(seps[2..], ws[2..]);
      assert seps[1..][1..] == seps[2..] && ws[1..][1..] == ws[2..];
      assert tail == seps[1] + next;
      SplitEndsWord(w, seps[1], next);
      SplitFromWord([], ws[1], Interleave(seps[2..], ws[2..]));
      assert [] + ws[1] == ws[1];
      SplitInterleaveFrom(seps[1..], ws[1..]);
      assert ws == [w] + ws[1..];
    }
  }

  /** Any whitespace separates words: splitting a line made of the words with
      whitespace runs between them (non-empty ones inside, possibly empty
      ones at either end, such as a trailing newline) gives back exactly the
      words. */
  lemma SplitInterleave(seps: seq<string>, ws: seq<Word>)
    requires |seps| == |ws| + 1
    requires forall i :: 0 <= i < |ws| ==> IsWord(ws[i])
    requires forall i :: 0 <= i < |seps| ==> AllSpace(seps[i])
    requires forall i :: 0 < i < |ws| ==> seps[i] != []
    ensures Split(Interleave(seps, ws)) == ws
  {
    if ws == [] {
      SplitSkipsSpace(seps[0], []);
      assert seps[0] + [] == seps[0];
    } else {
      var rest := Interleave(seps[1..], ws[1..]);
      SplitSkipsSpace(seps[0], ws[0] + rest);
      SplitFromWord([], ws[0], rest);
      assert [] + ws[0] == ws[0];
      SplitInterleaveFrom(seps, ws);
    }
  }
}
