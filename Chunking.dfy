/** Splitting long text for translation: the sentence split
    `text.split(/(?<=[.!?])\s+/)`, the paragraph split `content.split(/\n\s*\n/)`,
    and the sentence/word chunker `splitTextIntoChunks`. */
module Chunking {
  import opened JsStrings
  import opened Seqs

  // ---------------------------------------------------------------------
  // Regular-expression splits, written out
  // ---------------------------------------------------------------------

  predicate IsSentenceEnd(c: char)
  {
    c == '.' || c == '!' || c == '?'
  }

  /** End of the whitespace run of `t` that starts at `i` (greedy `\s+` / `\s*`). */
  function SpaceRunEnd(t: string, i: nat): (e: nat)
    requires i <= |t|
    ensures i <= e <= |t|
    ensures forall k :: i <= k < e ==> IsSpace(t[k])
    ensures e < |t| ==> !IsSpace(t[e])
    ensures i < |t| && IsSpace(t[i]) ==> e > i
    decreases |t| - i
  {
    if i < |t| && IsSpace(t[i]) then SpaceRunEnd(t, i + 1) else i
  }

  /** `(?<=[.!?])\s+` can start at `q`. */
  predicate SentenceBreakAt(t: string, q: nat)
  {
    1 <= q < |t| && IsSentenceEnd(t[q - 1]) && IsSpace(t[q])
  }

  /** The first position at or after `i` where a sentence break starts, or `|t|`. */
  function SentenceBreakFrom(t: string, i: nat): (q: nat)
    requires 1 <= i
    ensures q == |t| || (i <= q < |t| && SentenceBreakAt(t, q))
    ensures forall k :: i <= k < q && k < |t| ==> !SentenceBreakAt(t, k)
    decreases |t| - i
  {
    if i >= |t| then |t|
    else if SentenceBreakAt(t, i) then i
    else SentenceBreakFrom(t, i + 1)
  }

  /** `t.split(/(?<=[.!?])\s+/)`: cut after every `.`, `!` or `?` that is
      followed by whitespace, dropping the whitespace run. A text that ends in
      such a run yields a trailing empty piece. */
  function SplitSentences(t: string): (r: seq<string>)
    ensures |r| >= 1
    decreases |t|
  {
    var q := SentenceBreakFrom(t, 1);
    if q == |t| then [t]
    else [t[..q]] + SplitSentences(t[SpaceRunEnd(t, q)..])
  }

  /** One past the last `\n` in `t[lo..hi]`, or `lo` when there is none. */
  function AfterLastNewline(t: string, lo: nat, hi: nat): (m: nat)
    requires lo <= hi <= |t|
    ensures lo <= m <= hi
    ensures m > lo ==> t[m - 1] == '\n'
    ensures forall k :: m <= k < hi ==> t[k] != '\n'
    decreases hi
  {
    if hi == lo then lo
    else if t[hi - 1] == '\n' then hi
    else AfterLastNewline(t, lo, hi - 1)
  }

  /** Where a match of `\n\s*\n` starting at `q` ends: greedy `\s*` backs off
      to the last newline of the whitespace run after the first `\n`. The
      result is `q` when no match starts at `q`. */
  function ParagraphMatchEnd(t: string, q: nat): (m: nat)
    requires q < |t|
    ensures m == q || (q + 2 <= m <= |t| && forall k :: q <= k < m ==> IsSpace(t[k]))
  {
    if t[q] != '\n' then q
    else
      var e := SpaceRunEnd(t, q + 1);
      var m := AfterLastNewline(t, q + 1, e);
      if m == q + 1 then q
      else
        assert forall k :: q <= k < m ==> IsSpace(t[k]) by {
          forall k | q <= k < m ensures IsSpace(t[k]) {
            if k > q { assert q + 1 <= k < e; }
          }
        }
        m
  }

  /** The first position at or after `i` where `\n\s*\n` matches, or `|t|`. */
  function ParagraphBreakFrom(t: string, i: nat): (q: nat)
    requires i <= |t|
    ensures i <= q <= |t|
    ensures q < |t| ==> ParagraphMatchEnd(t, q) > q
    ensures forall k :: i <= k < q ==> ParagraphMatchEnd(t, k) == k
    decreases |t| - i
  {
    if i == |t| then |t|
    else if ParagraphMatchEnd(t, i) > i then i
    else ParagraphBreakFrom(t, i + 1)
  }

  /** `t.split(/\n\s*\n/)`: cut at every blank line. */
  function SplitParagraphs(t: string): (r: seq<string>)
    ensures |r| >= 1
    decreases |t|
  {
    var q := ParagraphBreakFrom(t, 0);
    if q == |t| then [t]
    else [t[..q]] + SplitParagraphs(t[ParagraphMatchEnd(t, q)..])
  }

  /** The sentence split loses only whitespace: the words of the pieces are
      the words of the text. */
  lemma {:induction false} TokensOfSentences(t: string)
    ensures TokensOfAll(SplitSentences(t)) == Tokens(t)
    decreases |t|
  {
    var q := SentenceBreakFrom(t, 1);
    if q == |t| {
      assert SplitSentences(t) == [t];
      assert TokensOfAll([t]) == Tokens(t) + TokensOfAll([]);
    } else {
      var e := SpaceRunEnd(t, q);
      var rest := t[e..];
      var r := SplitSentences(t);
      assert r == [t[..q]] + SplitSentences(rest);
      TokensOfSentences(rest);
      assert r[1..] == SplitSentences(rest);
      assert TokensOfAll(r) == Tokens(t[..q]) + TokensOfAll(SplitSentences(rest));
      TokensAroundGap(t, q, e);
    }
  }

  /** The paragraph split loses only whitespace. */
  lemma {:induction false} TokensOfParagraphs(t: string)
    ensures TokensOfAll(SplitParagraphs(t)) == Tokens(t)
    decreases |t|
  {
    var q := ParagraphBreakFrom(t, 0);
    if q == |t| {
      assert SplitParagraphs(t) == [t];
      assert TokensOfAll([t]) == Tokens(t) + TokensOfAll([]);
    } else {
      var m := ParagraphMatchEnd(t, q);
      var rest := t[m..];
      var r := SplitParagraphs(t);
      assert r == [t[..q]] + SplitParagraphs(rest);
      TokensOfParagraphs(rest);
      assert r[1..] == SplitParagraphs(rest);
      assert TokensOfAll(r) == Tokens(t[..q]) + TokensOfAll(SplitParagraphs(rest));
      TokensAroundGap(t, q, m);
    }
  }

  /** Only the last sentence piece can be empty (when the text ends in a
      sentence break). */
  lemma {:induction false} SentencePiecesNonEmpty(t: string)
    ensures var r := SplitSentences(t);
            forall i :: 0 <= i < |r| - 1 ==> r[i] != ""
    decreases |t|
  {
    var q := SentenceBreakFrom(t, 1);
    if q < |t| {
      var rest := t[SpaceRunEnd(t, q)..];
      SentencePiecesNonEmpty(rest);
      var r := SplitSentences(t);
      assert r == [t[..q]] + SplitSentences(rest);
      assert |t[..q]| == q;
      forall i | 1 <= i < |r| - 1 ensures r[i] != "" {
        assert r[i] == SplitSentences(rest)[i - 1];
      }
    }
  }

  /** Rejoining the sentences with single spaces never makes the text longer. */
  lemma {:induction false} JoinedSentencesNoLonger(t: string)
    ensures JsLength(Join(SplitSentences(t), " ")) <= JsLength(t)
    decreases |t|
  {
    var q := SentenceBreakFrom(t, 1);
    if q < |t| {
      var e := SpaceRunEnd(t, q);
      var rest := t[e..];
      JoinedSentencesNoLonger(rest);
      SentencesJoinStep(t);
      SliceThree(t, q, e);
      RejoinNoLonger(t[..q], t[q..e], rest, Join(SplitSentences(rest), " "));
    }
  }

  /** The first sentence, a single space, and the rejoined rest. */
  lemma SentencesJoinStep(t: string)
    requires SentenceBreakFrom(t, 1) < |t|
    ensures var q := SentenceBreakFrom(t, 1);
            var e := SpaceRunEnd(t, q);
            q < e && Join(SplitSentences(t), " ") == t[..q] + " " + Join(SplitSentences(t[e..]), " ")
  {
    var q := SentenceBreakFrom(t, 1);
    var tail := SplitSentences(t[SpaceRunEnd(t, q)..]);
    assert SplitSentences(t) == [t[..q]] + tail;
    assert ([t[..q]] + tail)[1..] == tail;
  }

  /** Replacing a non-empty gap by one space, and a rest by something no
      longer, does not make a string longer. */
  lemma RejoinNoLonger(x: string, gap: string, rest: string, j: string)
    requires |gap| >= 1 && JsLength(j) <= JsLength(rest)
    ensures JsLength(x + " " + j) <= JsLength(x + gap + rest)
  {
    JsLengthAppend(x + " ", j);
    JsLengthAppend(x, " ");
    JsLengthAppend(x + gap, rest);
    JsLengthAppend(x, gap);
    JsLengthBasicPlane(" ");
  }

  // ---------------------------------------------------------------------
  // splitTextIntoChunks, as a specification
  // ---------------------------------------------------------------------

  /** The chunker's state: the chunks pushed so far and the chunk being built
      (`currentChunk` in the sentence loop, `tempChunk` in the word loop). */
  datatype Acc = Acc(chunks: seq<string>, pending: string)

  /** `(chunk ? ' ' : '')`. */
  function Gap(chunk: string): string
  {
    if chunk != "" then " " else ""
  }

  /** One iteration of the word loop. */
  function WordStep(a: Acc, word: string, maxLength: nat): Acc
  {
    if JsLength(a.pending + word) > maxLength then
      if a.pending != "" then Acc(a.chunks + [Trim(a.pending)], word)
      else Acc(a.chunks + [word], a.pending)
    else Acc(a.chunks, a.pending + Gap(a.pending) + word)
  }

  function WordsFold(a: Acc, words: seq<string>, maxLength: nat): Acc
  {
    if words == [] then a
    else WordStep(WordsFold(a, words[..|words| - 1], maxLength), words[|words| - 1], maxLength)
  }

  /** One iteration of the sentence loop. A sentence that does not fit next to
      a non-empty chunk starts a new chunk whole; one that does not fit on its
      own is split on spaces. */
  function SentenceStep(a: Acc, sentence: string, maxLength: nat): Acc
  {
    if JsLength(a.pending + sentence) > maxLength then
      if a.pending != "" then Acc(a.chunks + [Trim(a.pending)], sentence)
      else
        var w := WordsFold(Acc(a.chunks, ""), Split(sentence, ' '), maxLength);
        Acc(w.chunks, if !IsBlank(w.pending) then Trim(w.pending) else a.pending)
    else Acc(a.chunks, a.pending + Gap(a.pending) + sentence)
  }

  function SentencesFold(a: Acc, sentences: seq<string>, maxLength: nat): Acc
  {
    if sentences == [] then a
    else SentenceStep(SentencesFold(a, sentences[..|sentences| - 1], maxLength), sentences[|sentences| - 1], maxLength)
  }

  /** The chunk that is still pending at the end, if it is not blank. */
  function Flush(a: Acc): seq<string>
  {
    if !IsBlank(a.pending) then a.chunks + [Trim(a.pending)] else a.chunks
  }

  /** The chunks `splitTextIntoChunks(text, maxLength)` returns. */
  function ChunksOf(text: string, maxLength: nat): seq<string>
  {
    Flush(SentencesFold(Acc([], ""), SplitSentences(text), maxLength))
  }

  /** `splitTextIntoChunks`: the sentence loop, whose body is
      `PlaceSentence`. */
  method SplitTextIntoChunks(text: string, maxLength: nat) returns (chunks: seq<string>)
    ensures chunks == ChunksOf(text, maxLength)
  {
    chunks := [];
    var currentChunk := "";
    var sentences := SplitSentences(text);
    for i := 0 to |sentences|
      invariant Acc(chunks, currentChunk) == SentencesFold(Acc([], ""), sentences[..i], maxLength)
    {
      assert sentences[..i + 1][..i] == sentences[..i];
      chunks, currentChunk := PlaceSentence(chunks, currentChunk, sentences[i], maxLength);
    }
    assert sentences[..|sentences|] == sentences;
    if !IsBlank(currentChunk) {
      chunks := chunks + [Trim(currentChunk)];
    }
  }

  /** One pass of the sentence loop: the sentence joins the current chunk,
      starts a new one, or is split on spaces by `SplitOnSpaces`. */
  method PlaceSentence(before: seq<string>, current: string, sentence: string, maxLength: nat)
    returns (chunks: seq<string>, currentChunk: string)
    ensures Acc(chunks, currentChunk) == SentenceStep(Acc(before, current), sentence, maxLength)
  {
    chunks, currentChunk := before, current;
    if JsLength(currentChunk + sentence) > maxLength {
      if currentChunk != "" {
        chunks := chunks + [Trim(currentChunk)];
        currentChunk := sentence;
      } else {
        var tempChunk;
        chunks, tempChunk := SplitOnSpaces(chunks, sentence, maxLength);
        if !IsBlank(tempChunk) {
          currentChunk := Trim(tempChunk);
        }
      }
    } else {
      currentChunk := currentChunk + Gap(currentChunk) + sentence;
    }
  }

  /** The word loop of `splitTextIntoChunks`, run on a sentence too long to
      fit on its own: it appends to `chunks` and leaves the pending words
      in `tempChunk`. Its body is `PlaceWord`. */
  method SplitOnSpaces(before: seq<string>, sentence: string, maxLength: nat)
    returns (chunks: seq<string>, tempChunk: string)
    ensures Acc(chunks, tempChunk) == WordsFold(Acc(before, ""), Split(sentence, ' '), maxLength)
  {
    chunks := before;
    tempChunk := "";
    var words := Split(sentence, ' ');
    for j := 0 to |words|
      invariant Acc(chunks, tempChunk) == WordsFold(Acc(before, ""), words[..j], maxLength)
    {
      assert words[..j + 1][..j] == words[..j];
      chunks, tempChunk := PlaceWord(chunks, tempChunk, words[j], maxLength);
    }
    assert words[..|words|] == words;
  }

  /** One pass of the word loop: the word joins the pending words, or the
      pending words become a chunk, or an overlong word becomes a chunk of
      its own. */
  method PlaceWord(before: seq<string>, pending: string, word: string, maxLength: nat)
    returns (chunks: seq<string>, tempChunk: string)
    ensures Acc(chunks, tempChunk) == WordStep(Acc(before, pending), word, maxLength)
  {
    chunks, tempChunk := before, pending;
    if JsLength(tempChunk + word) > maxLength {
      if tempChunk != "" {
        chunks := chunks + [Trim(tempChunk)];
        tempChunk := word;
      } else {
        chunks := chunks + [word];
      }
    } else {
      tempChunk := tempChunk + Gap(tempChunk) + word;
    }
  }

  // ---------------------------------------------------------------------
  // Properties of the chunker
  // ---------------------------------------------------------------------

  /** The words of an accumulator: those of its chunks, then those of the
      pending chunk. */
  function AccTokens(a: Acc): seq<string>
  {
    TokensOfAll(a.chunks) + Tokens(a.pending)
  }

  lemma AppendWithGap(pending: string, x: string)
    ensures Tokens(pending + Gap(pending) + x) == Tokens(pending) + Tokens(x)
  {
    if pending == "" {
      assert pending + Gap(pending) + x == x;
    } else {
      TokensSeparated(pending, " ", x);
    }
  }

  lemma WordStepTokens(a: Acc, word: string, maxLength: nat)
    ensures AccTokens(WordStep(a, word, maxLength)) == AccTokens(a) + Tokens(word)
  {
    if JsLength(a.pending + word) > maxLength {
      if a.pending != "" {
        TokensOfAllSnoc(a.chunks, Trim(a.pending));
        TokensOfTrim(a.pending);
      } else {
        TokensOfAllSnoc(a.chunks, word);
      }
    } else {
      AppendWithGap(a.pending, word);
    }
  }

  lemma {:induction false} WordsFoldTokens(a: Acc, words: seq<string>, maxLength: nat)
    ensures AccTokens(WordsFold(a, words, maxLength)) == AccTokens(a) + TokensOfAll(words)
  {
    if words == [] {
      assert TokensOfAll(words) == [];
    } else {
      var front := words[..|words| - 1];
      var last := words[|words| - 1];
      var mid := WordsFold(a, front, maxLength);
      assert WordsFold(a, words, maxLength) == WordStep(mid, last, maxLength);
      WordsFoldTokens(a, front, maxLength);
      WordStepTokens(mid, last, maxLength);
      TokensOfAllLast(words);
    }
  }

  /** Splitting on spaces keeps the words. */
  lemma TokensOfSpaceSplit(s: string)
    ensures TokensOfAll(Split(s, ' ')) == Tokens(s)
  {
    JoinSplit(s, ' ');
    TokensOfJoin(Split(s, ' '), " ");
  }

  lemma SentenceStepTokens(a: Acc, sentence: string, maxLength: nat)
    ensures AccTokens(SentenceStep(a, sentence, maxLength)) == AccTokens(a) + Tokens(sentence)
  {
    if JsLength(a.pending + sentence) > maxLength {
      if a.pending != "" {
        TokensOfAllSnoc(a.chunks, Trim(a.pending));
        TokensOfTrim(a.pending);
      } else {
        var words := Split(sentence, ' ');
        var w := WordsFold(Acc(a.chunks, ""), words, maxLength);
        WordsFoldTokens(Acc(a.chunks, ""), words, maxLength);
        TokensOfSpaceSplit(sentence);
        if !IsBlank(w.pending) {
          TokensOfTrim(w.pending);
        } else {
          TokensEmptyIffBlank(w.pending);
        }
      }
    } else {
      AppendWithGap(a.pending, sentence);
    }
  }

  lemma {:induction false} SentencesFoldTokens(a: Acc, sentences: seq<string>, maxLength: nat)
    ensures AccTokens(SentencesFold(a, sentences, maxLength)) == AccTokens(a) + TokensOfAll(sentences)
  {
    if sentences == [] {
      assert TokensOfAll(sentences) == [];
    } else {
      var front := sentences[..|sentences| - 1];
      var last := sentences[|sentences| - 1];
      var mid := SentencesFold(a, front, maxLength);
      assert SentencesFold(a, sentences, maxLength) == SentenceStep(mid, last, maxLength);
      SentencesFoldTokens(a, front, maxLength);
      SentenceStepTokens(mid, last, maxLength);
      TokensOfAllLast(sentences);
    }
  }

  lemma FlushTokens(a: Acc)
    ensures TokensOfAll(Flush(a)) == AccTokens(a)
  {
    if !IsBlank(a.pending) {
      TokensOfAllSnoc(a.chunks, Trim(a.pending));
      TokensOfTrim(a.pending);
    } else {
      TokensEmptyIffBlank(a.pending);
    }
  }

  /** The chunks hold exactly the words of the text, in order: the chunker
      never drops, duplicates or reorders a word, whatever `maxLength` is. */
  lemma ChunksKeepTokens(text: string, maxLength: nat)
    ensures TokensOfAll(ChunksOf(text, maxLength)) == Tokens(text)
  {
    var ss := SplitSentences(text);
    var a := SentencesFold(Acc([], ""), ss, maxLength);
    assert ChunksOf(text, maxLength) == Flush(a);
    FlushTokens(a);
    SentencesFoldTokens(Acc([], ""), ss, maxLength);
    assert AccTokens(Acc([], "")) == [];
    TokensOfSentences(text);
  }

  /** Joining one more piece adds a gap only when the join so far is non-empty. */
  lemma JoinPrefixStep(ss: seq<string>, i: nat)
    requires 1 <= i <= |ss|
    requires i >= 2 ==> ss[0] != ""
    ensures Join(ss[..i], " ") == Join(ss[..i - 1], " ") + Gap(Join(ss[..i - 1], " ")) + ss[i - 1]
  {
    var prefix := ss[..i - 1];
    var joined := Join(prefix, " ");
    if i == 1 {
      assert ss[..i] == [ss[0]];
      assert joined == "";
    } else {
      assert ss[..i] == prefix + [ss[i - 1]];
      JoinSnoc(prefix, ss[i - 1], " ");
      assert prefix[0] == ss[0];
      assert |joined| >= |prefix[0]|;
    }
  }

  /** A join of a prefix is no longer than the join of the whole sequence. */
  lemma JoinPrefixNoLonger(ss: seq<string>, i: nat)
    requires 1 <= i <= |ss|
    ensures JsLength(Join(ss[..i], " ")) <= JsLength(Join(ss, " "))
  {
    if i < |ss| {
      JoinAtSplit(ss, i);
      JsLengthAppend(Join(ss[..i], " "), " " + Join(ss[i..], " "));
    } else {
      assert ss[..i] == ss;
    }
  }

  lemma JoinAtSplit(ss: seq<string>, i: nat)
    requires 1 <= i < |ss|
    ensures Join(ss, " ") == Join(ss[..i], " ") + (" " + Join(ss[i..], " "))
  {
    JoinAppend(ss[..i], ss[i..], " ");
    TakeDrop(ss, i);
    AppendAssoc(Join(ss[..i], " "), " ", Join(ss[i..], " "));
  }

  lemma GapNoShorter(joined: string, x: string)
    ensures JsLength(joined + x) <= JsLength(joined + Gap(joined) + x)
  {
    JsLengthAppend(joined, x);
    JsLengthAppend(joined + Gap(joined), x);
    JsLengthAppend(joined, Gap(joined));
  }

  /** While everything fits, the sentence loop only glues sentences together
      with single spaces. */
  lemma {:induction false} FoldWhileFitting(ss: seq<string>, i: nat, maxLength: nat)
    requires 1 <= |ss| && i <= |ss|
    requires forall k :: 0 <= k < |ss| - 1 ==> ss[k] != ""
    requires JsLength(Join(ss, " ")) <= maxLength
    ensures SentencesFold(Acc([], ""), ss[..i], maxLength) == Acc([], Join(ss[..i], " "))
  {
    if i == 0 {
      assert ss[..i] == [];
    } else {
      FoldWhileFitting(ss, i - 1, maxLength);
      var prefix := ss[..i - 1];
      var joined := Join(prefix, " ");
      assert ss[..i][..i - 1] == prefix;
      assert ss[..i][i - 1] == ss[i - 1];
      assert SentencesFold(Acc([], ""), ss[..i], maxLength)
          == SentenceStep(Acc([], joined), ss[i - 1], maxLength);
      JoinPrefixStep(ss, i);
      JoinPrefixNoLonger(ss, i);
      GapNoShorter(joined, ss[i - 1]);
    }
  }

  /** A text no longer than `maxLength` gives no chunk when it is blank, and
      otherwise exactly one: its sentences rejoined by single spaces, trimmed. */
  lemma ShortTextIsOneChunk(text: string, maxLength: nat)
    requires JsLength(text) <= maxLength
    ensures ChunksOf(text, maxLength) ==
            if IsBlank(text) then [] else [Trim(Join(SplitSentences(text), " "))]
  {
    var ss := SplitSentences(text);
    var joined := Join(ss, " ");
    SentencePiecesNonEmpty(text);
    JoinedSentencesNoLonger(text);
    FoldWhileFitting(ss, |ss|, maxLength);
    assert ss[..|ss|] == ss;
    assert ChunksOf(text, maxLength) == Flush(Acc([], joined));
    RejoinedBlankIffBlank(text);
  }

  /** Rejoining the sentences keeps a text blank or non-blank. */
  lemma RejoinedBlankIffBlank(text: string)
    ensures IsBlank(Join(SplitSentences(text), " ")) <==> IsBlank(text)
  {
    var joined := Join(SplitSentences(text), " ");
    TokensOfJoin(SplitSentences(text), " ");
    TokensOfSentences(text);
    TokensEmptyIffBlank(joined);
    TokensEmptyIffBlank(text);
  }

  /** A blank text longer than `maxLength` with no space character in it is
      emitted as one chunk: the word loop pushes an overlong word untrimmed. */
  lemma OverlongBlankWordIsKept()
    ensures ChunksOf("\t\t", 1) == ["\t\t"]
  {
    var t := "\t\t";
    assert !SentenceBreakAt(t, 1);
    assert SentenceBreakFrom(t, 2) == 2;
    assert SplitSentences(t) == [t];
    assert FirstIndexOf(t[1..], ' ') == 1;
    assert FirstIndexOf(t, ' ') == 2;
    assert Split(t, ' ') == [t];
    assert JsLength(t) == 2 by { JsLengthBasicPlane(t); }
    assert "" + t == t;
    assert WordStep(Acc([], ""), t, 1) == Acc([t], "");
    WordsFoldSingle(Acc([], ""), t, 1);
    SentencesFoldSingle(Acc([], ""), t, 1);
  }

  lemma WordsFoldSingle(a: Acc, word: string, maxLength: nat)
    ensures WordsFold(a, [word], maxLength) == WordStep(a, word, maxLength)
  {
    assert [word][..0] == [];
  }

  lemma SentencesFoldSingle(a: Acc, sentence: string, maxLength: nat)
    ensures SentencesFold(a, [sentence], maxLength) == SentenceStep(a, sentence, maxLength)
  {
    assert [sentence][..0] == [];
  }

  lemma WordsFoldPair(a: Acc, w1: string, w2: string, maxLength: nat)
    ensures WordsFold(a, [w1, w2], maxLength) == WordStep(WordStep(a, w1, maxLength), w2, maxLength)
  {
    assert [w1, w2][..1] == [w1];
    WordsFoldSingle(a, w1, maxLength);
  }

  lemma SplitOfTabSpaceWord()
    ensures SplitSentences("\t xx") == ["\t xx"]
    ensures Split("\t xx", ' ') == ["\t", "xx"]
  {
    var t := "\t xx";
    assert !SentenceBreakAt(t, 1) && !SentenceBreakAt(t, 2) && !SentenceBreakAt(t, 3);
    assert SentenceBreakFrom(t, 4) == 4;
    assert FirstIndexOf(t, ' ') == 1;
    assert t[2..] == "xx";
    assert FirstIndexOf("xx"[1..], ' ') == 1;
    assert FirstIndexOf("xx", ' ') == 2;
    assert Split("xx", ' ') == ["xx"];
    assert t[..1] == "\t";
  }

  /** The word loop on `"\t"` then `"xx"` with room for one unit: the tab
      fits, and is trimmed away when `xx` overflows. */
  lemma TabThenWordFold()
    ensures WordsFold(Acc([], ""), ["\t", "xx"], 1) == Acc([""], "xx")
  {
    WordsFoldPair(Acc([], ""), "\t", "xx", 1);
    TabWordFits();
    WordOverflowsTab();
  }

  lemma TabWordFits()
    ensures WordStep(Acc([], ""), "\t", 1) == Acc([], "\t")
  {
    assert "" + "\t" == "\t";
    assert JsLength("\t") == 1 by { JsLengthBasicPlane("\t"); }
    assert "" + Gap("") + "\t" == "\t";
  }

  lemma WordOverflowsTab()
    ensures WordStep(Acc([], "\t"), "xx", 1) == Acc([""], "xx")
  {
    assert JsLength("\t" + "xx") == 3 by { JsLengthBasicPlane("\t" + "xx"); }
    assert Trim("\t") == "" by { assert IsBlank("\t") by { assert IsSpace("\t"[0]); } TrimEmptyIffBlank("\t"); }
    assert [] + [Trim("\t")] == [""];
  }
  lemma OverlongSentenceStep(sentence: string, maxLength: nat)
    requires JsLength(sentence) > maxLength
    ensures SentenceStep(Acc([], ""), sentence, maxLength) ==
            var w := WordsFold(Acc([], ""), Split(sentence, ' '), maxLength);
            Acc(w.chunks, if !IsBlank(w.pending) then Trim(w.pending) else "")
  {
    assert "" + sentence == sentence;
  }

  /** A chunk can be empty: a whitespace-only word that still fitted is
      trimmed away when the next word overflows. */
  lemma TabSentenceStep()
    ensures SentenceStep(Acc([], ""), "\t xx", 1) == Acc([""], "xx")
  {
    SplitOfTabSpaceWord();
    TabSpaceWordLength();
    OverlongSentenceStep("\t xx", 1);
    TabThenWordFold();
    WordIsChunk();
  }

  lemma TabSpaceWordLength()
    ensures JsLength("\t xx") == 4
  {
    JsLengthBasicPlane("\t xx");
  }

  lemma WordIsChunk()
    ensures !IsBlank("xx") && Trim("xx") == "xx"
  {
    assert !IsSpace("xx"[0]);
    TrimOfTrimmed("xx");
  }
  lemma PairOfSingletons<T>(x: T, y: T)
    ensures [x] + [y] == [x, y]
  {
  }

  lemma EmptyChunkIsPossible()
    ensures ChunksOf("\t xx", 1) == ["", "xx"]
  {
    var a := Acc([""], "xx");
    assert SentencesFold(Acc([], ""), ["\t xx"], 1) == a by {
      SentencesFoldSingle(Acc([], ""), "\t xx", 1);
      TabSentenceStep();
    }
    assert Flush(a) == ["", "xx"] by {
      assert !IsBlank(a.pending) by { assert !IsSpace(a.pending[0]); }
      assert Trim(a.pending) == "xx" by { TrimOfTrimmed(a.pending); }
      PairOfSingletons(a.chunks[0], a.pending);
    }
    SplitOfTabSpaceWord();
  }


}
