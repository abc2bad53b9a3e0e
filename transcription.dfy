/**
 * The timeline and phrase bookkeeping of the Google transcription service:
 * the chunk timeline of `chunk_audio`, the offset shift of `transcribe_chunk`,
 * the pause-based grouping of `build_phrases`, and the pipeline of
 * `process_audio`. Audio decoding, silence splitting and the speech API are
 * inputs: each chunk arrives with its length and the words recognised in it.
 * Times are exact reals in seconds.
 */
module Transcription {
  import Strings
  import Sequences

  /** A recognised word with its start and end time. */
  datatype Word = Word(start: real, end: real, text: string)

  /** A phrase of `build_phrases`. */
  datatype Phrase = Phrase(start: real, end: real, text: string)

  /**
   * An audio chunk after silence splitting: its length in milliseconds, the
   * temporary file it was exported to, and what the recognizer returned for it
   * (per result, the words of the first alternative, timed from the chunk start).
   */
  datatype Chunk = Chunk(lengthMs: nat, exportPath: string, results: seq<seq<Word>>)

  /** An entry of `chunk_info`. */
  datatype ChunkInfo = ChunkInfo(file: string, start: real, end: real)

  /** An entry of the formatted transcript. */
  datatype Segment = Segment(start: string, end: string, text: string)

  /** `build_phrases`' default `pause_threshold`, in seconds. */
  const DefaultPauseThreshold: real := 0.4

  /** The silence between two words. */
  function Pause(prev: Word, next: Word): real
  {
    next.start - prev.end
  }

  /**
   * The words cut into runs: a run ends where the pause before the next word is
   * strictly greater than `threshold`.
   */
  function Runs(words: seq<Word>, threshold: real): (runs: seq<seq<Word>>)
    ensures |runs| == 0 <==> |words| == 0
    ensures forall k :: 0 <= k < |runs| ==> |runs[k]| > 0
    ensures |words| > 0 ==> runs[|runs| - 1][|runs[|runs| - 1]| - 1] == words[|words| - 1]
    decreases |words|
  {
    if |words| == 0 then []
    else if |words| == 1 then [[words[0]]]
    else
      var init := Runs(words[..|words| - 1], threshold);
      var w := words[|words| - 1];
      if Pause(words[|words| - 2], w) > threshold then init + [[w]]
      else init[..|init| - 1] + [init[|init| - 1] + [w]]
  }

  /** One step of `Runs` where the pause before the last word is long: that word opens a run. */
  lemma RunsBreak(words: seq<Word>, threshold: real)
    requires |words| > 1
    requires Pause(words[|words| - 2], words[|words| - 1]) > threshold
    ensures Runs(words, threshold) == Runs(words[..|words| - 1], threshold) + [[words[|words| - 1]]]
  {
  }

  /** One step of `Runs` where the pause before the last word is short: that word joins the last run. */
  lemma RunsExtend(words: seq<Word>, threshold: real)
    requires |words| > 1
    requires Pause(words[|words| - 2], words[|words| - 1]) <= threshold
    ensures var init := Runs(words[..|words| - 1], threshold);
      Runs(words, threshold) == init[..|init| - 1] + [init[|init| - 1] + [words[|words| - 1]]]
  {
  }

  /** A single word is a single run, which lays out to the word. */
  lemma RunsSingle(words: seq<Word>, threshold: real)
    requires |words| == 1
    ensures Runs(words, threshold) == [[words[0]]]
    ensures Sequences.Concat(Runs(words, threshold)) == words
  {
    Sequences.ConcatAppend<Word>([], [words[0]]);
    assert [] + [[words[0]]] == [[words[0]]];
  }

  /** The runs partition the words: laid end to end, they are the input, in order. */
  lemma {:induction false} RunsPartition(words: seq<Word>, threshold: real)
    ensures Sequences.Concat(Runs(words, threshold)) == words
    decreases |words|
  {
    var n := |words|;
    if n == 0 {
      assert Runs(words, threshold) == [];
    } else if n == 1 {
      RunsSingle(words, threshold);
    } else {
      var prefix := words[..n - 1];
      var w := words[n - 1];
      var init := Runs(prefix, threshold);
      RunsPartition(prefix, threshold);
      assert prefix + [w] == words;
      if Pause(words[n - 2], w) > threshold {
        RunsBreak(words, threshold);
        Sequences.ConcatAppend(init, [w]);
      } else {
        RunsExtend(words, threshold);
        var m := |init|;
        assert init == init[..m - 1] + [init[m - 1]];
        Sequences.ConcatExtend(init[..m - 1], init[m - 1], w);
      }
    }
  }

  /** The last word of the last run. */
  function LastWord(runs: seq<seq<Word>>): Word
    requires |runs| > 0 && |runs[|runs| - 1]| > 0
  {
    runs[|runs| - 1][|runs[|runs| - 1]| - 1]
  }

  /** Between two consecutive runs the pause exceeds the threshold. */
  predicate BreaksBetween(runs: seq<seq<Word>>, threshold: real)
    requires forall k :: 0 <= k < |runs| ==> |runs[k]| > 0
  {
    forall k :: 0 <= k < |runs| - 1 ==> Pause(runs[k][|runs[k]| - 1], runs[k + 1][0]) > threshold
  }

  /** Inside a run no pause exceeds the threshold. */
  predicate NoBreakInside(runs: seq<seq<Word>>, threshold: real)
  {
    forall k, j :: 0 <= k < |runs| && 0 < j < |runs[k]| ==> Pause(runs[k][j - 1], runs[k][j]) <= threshold
  }

  /** Opening a new run after a long pause keeps both break properties. */
  lemma BreakStep(init: seq<seq<Word>>, w: Word, threshold: real)
    requires |init| > 0 && forall k :: 0 <= k < |init| ==> |init[k]| > 0
    requires BreaksBetween(init, threshold) && NoBreakInside(init, threshold)
    requires Pause(LastWord(init), w) > threshold
    ensures var runs := init + [[w]];
      (forall k :: 0 <= k < |runs| ==> |runs[k]| > 0) &&
      BreaksBetween(runs, threshold) && NoBreakInside(runs, threshold)
  {
    var runs := init + [[w]];
    var m := |init|;
    forall k, j | 0 <= k < |runs| && 0 < j < |runs[k]|
      ensures Pause(runs[k][j - 1], runs[k][j]) <= threshold
    {
      assert k < m && runs[k] == init[k];
    }
    forall k | 0 <= k < |runs| - 1
      ensures Pause(runs[k][|runs[k]| - 1], runs[k + 1][0]) > threshold
    {
      if k < m - 1 {
        assert runs[k] == init[k] && runs[k + 1] == init[k + 1];
      }
    }
  }

  /** Extending the last run after a short pause keeps both break properties. */
  lemma ExtendStep(init: seq<seq<Word>>, w: Word, threshold: real)
    requires |init| > 0 && forall k :: 0 <= k < |init| ==> |init[k]| > 0
    requires BreaksBetween(init, threshold) && NoBreakInside(init, threshold)
    requires Pause(LastWord(init), w) <= threshold
    ensures var runs := init[..|init| - 1] + [init[|init| - 1] + [w]];
      (forall k :: 0 <= k < |runs| ==> |runs[k]| > 0) &&
      BreaksBetween(runs, threshold) && NoBreakInside(runs, threshold)
  {
    var m := |init|;
    var last := init[m - 1] + [w];
    var runs := init[..m - 1] + [last];
    forall k, j | 0 <= k < |runs| && 0 < j < |runs[k]|
      ensures Pause(runs[k][j - 1], runs[k][j]) <= threshold
    {
      if k < m - 1 {
        assert runs[k] == init[k];
      } else if j < |last| - 1 {
        assert runs[k][j - 1] == init[m - 1][j - 1] && runs[k][j] == init[m - 1][j];
      } else {
        assert runs[k][j - 1] == LastWord(init) && runs[k][j] == w;
      }
    }
    forall k | 0 <= k < |runs| - 1
      ensures Pause(runs[k][|runs[k]| - 1], runs[k + 1][0]) > threshold
    {
      assert runs[k] == init[k];
      if k + 1 < m - 1 {
        assert runs[k + 1] == init[k + 1];
      } else {
        assert runs[k + 1][0] == init[m - 1][0];
      }
    }
  }

  /**
   * Runs break exactly at the long pauses: between two consecutive runs the
   * pause exceeds the threshold, inside a run no pause does.
   */
  lemma {:induction false} RunsBreakAtPauses(words: seq<Word>, threshold: real)
    ensures BreaksBetween(Runs(words, threshold), threshold)
    ensures NoBreakInside(Runs(words, threshold), threshold)
    decreases |words|
  {
    var n := |words|;
    if n == 0 {
      assert Runs(words, threshold) == [];
    } else if n == 1 {
      assert Runs(words, threshold) == [[words[0]]];
    } else {
      var prefix := words[..n - 1];
      var init := Runs(prefix, threshold);
      RunsBreakAtPauses(prefix, threshold);
      assert LastWord(init) == words[n - 2];
      if Pause(words[n - 2], words[n - 1]) > threshold {
        RunsBreak(words, threshold);
        BreakStep(init, words[n - 1], threshold);
      } else {
        RunsExtend(words, threshold);
        ExtendStep(init, words[n - 1], threshold);
      }
    }
  }

  /** How many pauses between consecutive words exceed the threshold. */
  function LongPauses(words: seq<Word>, threshold: real): (c: nat)
    ensures |words| > 0 ==> c < |words|
    decreases |words|
  {
    if |words| <= 1 then 0
    else
      LongPauses(words[..|words| - 1], threshold)
        + (if Pause(words[|words| - 2], words[|words| - 1]) > threshold then 1 else 0)
  }

  /** There is one run more than there are long pauses, so never more runs than words. */
  lemma {:induction false} RunCount(words: seq<Word>, threshold: real)
    requires |words| > 0
    ensures |Runs(words, threshold)| == 1 + LongPauses(words, threshold)
    ensures |Runs(words, threshold)| <= |words|
    decreases |words|
  {
    if |words| > 1 {
      RunCount(words[..|words| - 1], threshold);
    }
  }

  /** The texts of a run's words. */
  function Texts(run: seq<Word>): (texts: seq<string>)
    ensures |texts| == |run| && forall i :: 0 <= i < |run| ==> texts[i] == run[i].text
  {
    seq(|run|, i requires 0 <= i < |run| => run[i].text)
  }

  /** A run as a phrase: from its first word's start to its last word's end, texts joined by single spaces. */
  function PhraseOf(run: seq<Word>): (phrase: Phrase)
    requires |run| > 0
    ensures phrase.start == run[0].start && phrase.end == run[|run| - 1].end
    ensures |run| == 1 ==> phrase.text == run[0].text
  {
    Phrase(run[0].start, run[|run| - 1].end, Strings.Join(Texts(run), " "))
  }

  /** A phrase's text splits back into its words' texts when no word holds a space. */
  lemma PhraseWords(run: seq<Word>)
    requires |run| > 0 && forall i :: 0 <= i < |run| ==> ' ' !in run[i].text
    ensures Strings.Split(PhraseOf(run).text, " ") == Texts(run)
  {
    Strings.SplitJoin(Texts(run), " ");
  }

  /** One phrase per run, in order. */
  function PhrasesOf(runs: seq<seq<Word>>): (phrases: seq<Phrase>)
    requires forall k :: 0 <= k < |runs| ==> |runs[k]| > 0
    ensures |phrases| == |runs| && forall k :: 0 <= k < |runs| ==> phrases[k] == PhraseOf(runs[k])
  {
    seq(|runs|, k requires 0 <= k < |runs| => PhraseOf(runs[k]))
  }

  /** What `build_phrases(words, threshold)` returns. */
  function Phrases(words: seq<Word>, threshold: real): (phrases: seq<Phrase>)
    ensures |phrases| == 0 <==> |words| == 0
    ensures |words| > 0 ==> phrases[|phrases| - 1].end == words[|words| - 1].end
  {
    PhrasesOf(Runs(words, threshold))
  }

  /** No words, no phrases; otherwise one phrase per long pause plus one, at most one per word. */
  lemma PhraseCount(words: seq<Word>, threshold: real)
    ensures |words| == 0 ==> Phrases(words, threshold) == []
    ensures |words| > 0 ==> |Phrases(words, threshold)| == 1 + LongPauses(words, threshold) <= |words|
  {
    if |words| > 0 {
      RunCount(words, threshold);
    }
  }

  /**
   * The state of `build_phrases` after its first `i` words: `done` are the
   * runs already emitted as `transcript`, `current` is the open run whose
   * texts and start are `currentPhrase` and `currentStart`.
   */
  ghost predicate PhraseLoop(words: seq<Word>, threshold: real, i: nat, done: seq<seq<Word>>, current: seq<Word>,
                             currentPhrase: seq<string>, currentStart: real, transcript: seq<Phrase>)
  {
    && i <= |words|
    && (forall k :: 0 <= k < |done| ==> |done[k]| > 0)
    && transcript == PhrasesOf(done)
    && (currentPhrase == [] <==> i == 0)
    && (i == 0 ==> done == [])
    && (i > 0 ==> && |current| > 0 && current[|current| - 1] == words[i - 1]
                  && Runs(words[..i], threshold) == done + [current]
                  && currentPhrase == Texts(current) && currentStart == current[0].start)
  }

  /** The first word opens the first run. */
  lemma PhraseLoopFirst(words: seq<Word>, threshold: real)
    requires |words| > 0
    ensures PhraseLoop(words, threshold, 1, [], [words[0]], [words[0].text], words[0].start, [])
  {
    assert words[..1] == [words[0]];
  }

  /** A long pause before word `i` emits the open run and opens a new one. */
  lemma PhraseLoopBreak(words: seq<Word>, threshold: real, i: nat, done: seq<seq<Word>>, current: seq<Word>,
                        currentPhrase: seq<string>, currentStart: real, transcript: seq<Phrase>)
    requires PhraseLoop(words, threshold, i, done, current, currentPhrase, currentStart, transcript)
    requires 0 < i < |words| && Pause(words[i - 1], words[i]) > threshold
    ensures PhraseLoop(words, threshold, i + 1, done + [current], [words[i]], [words[i].text], words[i].start,
                       transcript + [Phrase(currentStart, words[i - 1].end, Strings.Join(currentPhrase, " "))])
  {
    var prefix := words[..i + 1];
    assert prefix[..i] == words[..i] && prefix[i] == words[i] && prefix[i - 1] == words[i - 1];
    RunsBreak(prefix, threshold);
    PhrasesOfAppend(done, current);
  }

  /** A short pause before word `i` adds it to the open run. */
  lemma PhraseLoopExtend(words: seq<Word>, threshold: real, i: nat, done: seq<seq<Word>>, current: seq<Word>,
                         currentPhrase: seq<string>, currentStart: real, transcript: seq<Phrase>)
    requires PhraseLoop(words, threshold, i, done, current, currentPhrase, currentStart, transcript)
    requires 0 < i < |words| && Pause(words[i - 1], words[i]) <= threshold
    ensures PhraseLoop(words, threshold, i + 1, done, current + [words[i]], currentPhrase + [words[i].text],
                       currentStart, transcript)
  {
    var prefix := words[..i + 1];
    assert prefix[..i] == words[..i] && prefix[i] == words[i] && prefix[i - 1] == words[i - 1];
    RunsExtend(prefix, threshold);
    LastRunExtended(done, current, words[i]);
    TextsAppend(current, words[i]);
  }

  /** After the last word, emitting the open run gives every phrase. */
  lemma PhraseLoopDone(words: seq<Word>, threshold: real, done: seq<seq<Word>>, current: seq<Word>,
                       currentPhrase: seq<string>, currentStart: real, transcript: seq<Phrase>)
    requires PhraseLoop(words, threshold, |words|, done, current, currentPhrase, currentStart, transcript)
    requires |words| > 0
    ensures transcript + [Phrase(currentStart, words[|words| - 1].end, Strings.Join(currentPhrase, " "))]
              == Phrases(words, threshold)
  {
    assert words[..|words|] == words;
    PhrasesOfAppend(done, current);
  }

  /**
   * `build_phrases(words, pause_threshold)`: walks the words once, closing the
   * current phrase whenever the pause before a word exceeds the threshold.
   */
  method BuildPhrases(words: seq<Word>, pauseThreshold: real) returns (transcript: seq<Phrase>)
    ensures transcript == Phrases(words, pauseThreshold)
  {
    transcript := [];
    var currentPhrase: seq<string> := [];
    var currentStart: real := 0.0;
    ghost var done: seq<seq<Word>> := [];
    ghost var current: seq<Word> := [];
    for i := 0 to |words|
      invariant PhraseLoop(words, pauseThreshold, i, done, current, currentPhrase, currentStart, transcript)
    {
      var word := words[i];
      if currentPhrase == [] {
        PhraseLoopFirst(words, pauseThreshold);
        currentStart := word.start;
        currentPhrase := currentPhrase + [word.text];
        current := [word];
      } else {
        var prevEnd := words[i - 1].end;
        var pauseDuration := word.start - prevEnd;
        if pauseDuration > pauseThreshold {
          PhraseLoopBreak(words, pauseThreshold, i, done, current, currentPhrase, currentStart, transcript);
          transcript := transcript + [Phrase(currentStart, prevEnd, Strings.Join(currentPhrase, " "))];
          done := done + [current];
          currentPhrase := [word.text];
          currentStart := word.start;
          current := [word];
        } else {
          PhraseLoopExtend(words, pauseThreshold, i, done, current, currentPhrase, currentStart, transcript);
          currentPhrase := currentPhrase + [word.text];
          current := current + [word];
        }
      }
    }
    if currentPhrase != [] {
      PhraseLoopDone(words, pauseThreshold, done, current, currentPhrase, currentStart, transcript);
      transcript := transcript + [Phrase(currentStart, words[|words| - 1].end, Strings.Join(currentPhrase, " "))];
    }
  }

  /** One more run adds its phrase at the end. */
  lemma PhrasesOfAppend(runs: seq<seq<Word>>, run: seq<Word>)
    requires forall k :: 0 <= k < |runs| ==> |runs[k]| > 0
    requires |run| > 0
    ensures PhrasesOf(runs + [run]) == PhrasesOf(runs) + [PhraseOf(run)]
  {
  }

  /** Extending the last of `done + [current]` by a word. */
  lemma LastRunExtended(done: seq<seq<Word>>, current: seq<Word>, w: Word)
    ensures var init := done + [current];
      init[..|init| - 1] + [init[|init| - 1] + [w]] == done + [current + [w]]
  {
    var init := done + [current];
    assert init[..|init| - 1] == done;
  }

  /** The texts of a run extended by a word. */
  lemma TextsAppend(run: seq<Word>, w: Word)
    ensures Texts(run + [w]) == Texts(run) + [w.text]
  {
  }

  /** A chunk's duration in seconds (`len(chunk) / 1000`). */
  function Duration(c: Chunk): (d: real)
    ensures d >= 0.0 && d * 1000.0 == c.lengthMs as real
  {
    c.lengthMs as real / 1000.0
  }

  /** The summed duration of the chunks. */
  function TotalDuration(chunks: seq<Chunk>): (t: real)
    ensures t >= 0.0
    decreases |chunks|
  {
    if |chunks| == 0 then 0.0 else TotalDuration(chunks[..|chunks| - 1]) + Duration(chunks[|chunks| - 1])
  }

  /**
   * The timeline loop of `chunk_audio`: one entry per chunk, the first starting
   * at 0, each ending at its start plus its duration, the next starting where
   * the previous one ended.
   */
  method ChunkTimeline(chunks: seq<Chunk>) returns (chunkInfo: seq<ChunkInfo>)
    ensures |chunkInfo| == |chunks|
    ensures forall i :: 0 <= i < |chunks| ==>
              chunkInfo[i] == ChunkInfo(chunks[i].exportPath, TotalDuration(chunks[..i]),
                                        TotalDuration(chunks[..i]) + Duration(chunks[i]))
    ensures |chunks| > 0 ==> chunkInfo[0].start == 0.0
    ensures forall i :: 0 < i < |chunks| ==> chunkInfo[i].start == chunkInfo[i - 1].end
  {
    chunkInfo := [];
    var totalDuration: real := 0.0;
    for i := 0 to |chunks|
      invariant |chunkInfo| == i && totalDuration == TotalDuration(chunks[..i])
      invariant forall k :: 0 <= k < i ==>
                  chunkInfo[k] == ChunkInfo(chunks[k].exportPath, TotalDuration(chunks[..k]),
                                            TotalDuration(chunks[..k]) + Duration(chunks[k]))
    {
      var duration := Duration(chunks[i]);
      chunkInfo := chunkInfo + [ChunkInfo(chunks[i].exportPath, totalDuration, totalDuration + duration)];
      totalDuration := totalDuration + duration;
      TotalDurationStep(chunks, i);
    }
    forall i | 0 < i < |chunks| ensures chunkInfo[i].start == chunkInfo[i - 1].end {
      TotalDurationStep(chunks, i - 1);
    }
  }

  /** The duration up to chunk `i` included adds chunk `i`'s duration. */
  lemma TotalDurationStep(chunks: seq<Chunk>, i: nat)
    requires i < |chunks|
    ensures TotalDuration(chunks[..i + 1]) == TotalDuration(chunks[..i]) + Duration(chunks[i])
  {
    assert chunks[..i + 1][..i] == chunks[..i];
  }

  /** A word moved by `offset` seconds. */
  function ShiftWord(w: Word, offset: real): Word
  {
    Word(w.start + offset, w.end + offset, w.text)
  }

  /** Every word moved by `offset` seconds, in order. */
  function Shifted(words: seq<Word>, offset: real): (r: seq<Word>)
    ensures |r| == |words| && forall i :: 0 <= i < |words| ==> r[i] == ShiftWord(words[i], offset)
  {
    seq(|words|, i requires 0 <= i < |words| => ShiftWord(words[i], offset))
  }

  /** Every run moved by `offset` seconds. */
  function ShiftedRuns(runs: seq<seq<Word>>, offset: real): (r: seq<seq<Word>>)
    ensures |r| == |runs| && forall k :: 0 <= k < |runs| ==> r[k] == Shifted(runs[k], offset)
  {
    seq(|runs|, k requires 0 <= k < |runs| => Shifted(runs[k], offset))
  }

  /** Shifting a run opened by one word. */
  lemma ShiftedRunsBreak(init: seq<seq<Word>>, w: Word, offset: real)
    ensures ShiftedRuns(init + [[w]], offset) == ShiftedRuns(init, offset) + [[ShiftWord(w, offset)]]
  {
    assert Shifted([w], offset) == [ShiftWord(w, offset)];
  }

  /** Shifting runs whose last run was extended by one word. */
  lemma ShiftedRunsExtend(init: seq<seq<Word>>, w: Word, offset: real)
    requires |init| > 0
    ensures var s := ShiftedRuns(init, offset);
      ShiftedRuns(init[..|init| - 1] + [init[|init| - 1] + [w]], offset)
        == s[..|s| - 1] + [s[|s| - 1] + [ShiftWord(w, offset)]]
  {
    var m := |init|;
    assert Shifted(init[m - 1] + [w], offset) == Shifted(init[m - 1], offset) + [ShiftWord(w, offset)];
  }

  /** Shifting every word by one offset leaves every pause, hence every phrase break, as it was. */
  lemma {:induction false} ShiftKeepsRuns(words: seq<Word>, threshold: real, offset: real)
    ensures Runs(Shifted(words, offset), threshold) == ShiftedRuns(Runs(words, threshold), offset)
    decreases |words|
  {
    var n := |words|;
    var s := Shifted(words, offset);
    if n == 0 {
      assert Runs(words, threshold) == [] && Runs(s, threshold) == [];
    } else if n == 1 {
      assert Runs(words, threshold) == [[words[0]]];
      assert Runs(s, threshold) == [[s[0]]];
      assert Shifted([words[0]], offset) == [s[0]];
    } else {
      assert s[..n - 1] == Shifted(words[..n - 1], offset);
      ShiftKeepsRuns(words[..n - 1], threshold, offset);
      var init := Runs(words[..n - 1], threshold);
      assert Pause(s[n - 2], s[n - 1]) == Pause(words[n - 2], words[n - 1]);
      if Pause(words[n - 2], words[n - 1]) > threshold {
        RunsBreak(words, threshold);
        RunsBreak(s, threshold);
        ShiftedRunsBreak(init, words[n - 1], offset);
      } else {
        RunsExtend(words, threshold);
        RunsExtend(s, threshold);
        ShiftedRunsExtend(init, words[n - 1], offset);
      }
    }
  }

  /**
   * `transcribe_chunk`: the words of every result, in order, each moved by the
   * chunk's start time.
   */
  method TranscribeChunk(results: seq<seq<Word>>, chunkStart: real) returns (words: seq<Word>)
    ensures words == Shifted(Sequences.Concat(results), chunkStart)
  {
    words := [];
    for r := 0 to |results|
      invariant words == Shifted(Sequences.Concat(results[..r]), chunkStart)
    {
      var before := words;
      for j := 0 to |results[r]|
        invariant words == before + Shifted(results[r][..j], chunkStart)
      {
        var wordInfo := results[r][j];
        words := words + [Word(wordInfo.start + chunkStart, wordInfo.end + chunkStart, wordInfo.text)];
        assert results[r][..j + 1] == results[r][..j] + [wordInfo];
      }
      assert results[r][..|results[r]|] == results[r];
      assert results[..r + 1][..r] == results[..r];
      assert Sequences.Concat(results[..r + 1]) == Sequences.Concat(results[..r]) + results[r];
    }
    assert results[..|results|] == results;
  }

  /** All words of the chunks on one timeline: each chunk's words moved by the chunk's start. */
  function AllWords(chunks: seq<Chunk>): (words: seq<Word>)
    ensures |chunks| == 0 ==> words == []
    ensures |chunks| == 1 ==> words == Sequences.Concat(chunks[0].results)
    decreases |chunks|
  {
    if |chunks| == 0 then []
    else
      var prefix := chunks[..|chunks| - 1];
      AllWords(prefix) + Shifted(Sequences.Concat(chunks[|chunks| - 1].results), TotalDuration(prefix))
  }

  /** The words up to chunk `i` included add chunk `i`'s words, moved by its start. */
  lemma AllWordsStep(chunks: seq<Chunk>, i: nat)
    requires i < |chunks|
    ensures AllWords(chunks[..i + 1])
              == AllWords(chunks[..i]) + Shifted(Sequences.Concat(chunks[i].results), TotalDuration(chunks[..i]))
  {
    assert chunks[..i + 1][..i] == chunks[..i];
  }

  /**
   * `process_audio`: chunk, transcribe each chunk at its start time, build
   * phrases with the default threshold, and emit one segment per phrase, in
   * order, with its text unchanged and its times formatted by `formatTimestamp`.
   */
  method ProcessAudio(chunks: seq<Chunk>, formatTimestamp: real -> string) returns (formatted: seq<Segment>)
    ensures var phrases := Phrases(AllWords(chunks), DefaultPauseThreshold);
            && |formatted| == |phrases|
            && forall i :: 0 <= i < |phrases| ==>
                 formatted[i] == Segment(formatTimestamp(phrases[i].start), formatTimestamp(phrases[i].end), phrases[i].text)
  {
    var chunkInfo := ChunkTimeline(chunks);
    var allWords: seq<Word> := [];
    for i := 0 to |chunkInfo|
      invariant allWords == AllWords(chunks[..i])
    {
      var words := TranscribeChunk(chunks[i].results, chunkInfo[i].start);
      allWords := allWords + words;
      AllWordsStep(chunks, i);
    }
    assert chunks[..|chunks|] == chunks;
    var transcript := BuildPhrases(allWords, DefaultPauseThreshold);
    formatted := FormatTranscript(transcript, formatTimestamp);
  }

  /** Step 4 of `process_audio`: one segment per phrase, times formatted, text unchanged. */
  method FormatTranscript(transcript: seq<Phrase>, formatTimestamp: real -> string) returns (formatted: seq<Segment>)
    ensures |formatted| == |transcript|
    ensures forall i :: 0 <= i < |transcript| ==>
              formatted[i] == Segment(formatTimestamp(transcript[i].start), formatTimestamp(transcript[i].end), transcript[i].text)
  {
    formatted := [];
    for i := 0 to |transcript|
      invariant |formatted| == i
      invariant forall k :: 0 <= k < i ==>
                  formatted[k] == Segment(formatTimestamp(transcript[k].start), formatTimestamp(transcript[k].end), transcript[k].text)
    {
      var segment := transcript[i];
      formatted := formatted + [Segment(formatTimestamp(segment.start), formatTimestamp(segment.end), segment.text)];
    }
  }
}
