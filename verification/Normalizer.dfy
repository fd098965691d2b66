/** The loops that normalize a transcript (packages/core/src/normalize.ts). */
module Normalizer {
  import opened Common
  import opened Transcript
  import opened Normalize
  import Edits

  /** Push a long token chunk by chunk. */
  method PushChunks(rules: Rules, merged: seq<Raw>, w: Raw, text: string) returns (r: seq<Raw>)
    ensures r == merged + Pieces(rules, w, Chunks(text), |Chunks(text)|)
  {
    var chunks := Chunks(text);
    r := merged;
    for i := 0 to |chunks|
      invariant r == merged + Pieces(rules, w, chunks, i)
    {
      r := r + [Raw(chunks[i], CutAt(rules, w, i, |chunks|), CutAt(rules, w, i + 1, |chunks|), w.speaker)];
    }
  }

  method MergeWords(rules: Rules, raw: seq<Raw>) returns (merged: seq<Raw>)
    ensures merged == Merged(rules, raw)
  {
    merged := [];
    for k := 0 to |raw|
      invariant merged == Merged(rules, raw[..k])
    {
      assert raw[..k + 1][..k] == raw[..k];
      var w := raw[k];
      var text := Clean(rules.isSpace, w.text);
      if text == "" {
        continue;
      }
      if rules.isPunctuation(text) && merged != [] {
        var prev := merged[|merged| - 1];
        merged := merged[|merged| - 1 := prev.(text := prev.text + text, endMs := Later(prev.endMs, w.endMs))];
        continue;
      }
      if |text| > MAX_TEXT {
        merged := PushChunks(rules, merged, w, text);
        continue;
      }
      merged := merged + [w.(text := text)];
    }
    assert raw[..|raw|] == raw;
  }

  /** One word of the timing loop, the words before it ending at `cursor`. */
  method TimeWord(rules: Rules, w: Raw, i: nat, cursor: int) returns (word: Word)
    ensures word == Timed(rules, w, i, cursor)
  {
    var start := Max(0, Round(if w.startMs.Some? then w.startMs.value else cursor as real));
    var end := if w.endMs.Some? then Round(w.endMs.value) else start + rules.minWordMs;
    if start < cursor {
      start := cursor;
    }
    if end < start + rules.minWordMs {
      end := start + rules.minWordMs;
    }
    word := Word(rules.wordId(i), w.text, start, end, SpeakerOf(w), false);
  }

  /** Put the words in time one after the other, each for its least length. */
  method RepairWords(rules: Rules, merged: seq<Raw>) returns (words: seq<Word>)
    ensures words == Repaired(rules, merged) && Spaced(words, rules.minWordMs)
  {
    words := [];
    var cursor := 0;
    for i := 0 to |merged|
      invariant words == Repaired(rules, merged[..i]) && cursor == CursorOf(words)
    {
      RepairedNext(rules, merged, i);
      var word := TimeWord(rules, merged[i], i, cursor);
      words := words + [word];
      cursor := word.endMs;
    }
    assert merged[..|merged|] == merged;
    RepairedIsSpaced(rules, merged);
  }

  /** One word of the compression loop, the words before it ending at `cursor`. */
  method FitWord(w: Word, max: int, last: int, latestStart: int, latestEnd: int, cursor: int) returns (word: Word)
    requires last > 0
    ensures word == FittedWord(w, max, last, latestStart, latestEnd, cursor)
  {
    var start := Min(latestStart, Max(cursor, Edits.RoundRatio(w.startMs * max, last)));
    var end := Min(latestEnd, Max(start + 1, Edits.RoundRatio(w.endMs * max, last)));
    word := w.(startMs := start, endMs := end);
  }

  /** Keep every word inside the media, compressing all timings when the last word runs past it. */
  method FitToDuration(words: seq<Word>, durationMs: real) returns (out: seq<Word>)
    ensures out == Fitted(words, durationMs)
  {
    var n := |words|;
    if n == 0 {
      return [];
    }
    var max := MediaMs(durationMs);
    var last := words[n - 1].endMs;
    if last <= max {
      return words;
    }
    var slot := Max(1, max / n);
    out := [];
    var cursor := 0;
    for i := 0 to n
      invariant out == Compressed(words, max, slot, i) && cursor == CursorOf(out)
    {
      var latestStart, latestEnd := max - slot * (n - i), max - slot * (n - i - 1);
      CompressedNext(words, max, slot, i, latestStart, latestEnd);
      var word := FitWord(words[i], max, last, latestStart, latestEnd, cursor);
      out := out + [word];
      cursor := word.endMs;
    }
  }

  method NormalizeWords(rules: Rules, raw: seq<Raw>, durationMs: Option<real>) returns (words: seq<Word>)
    ensures words == Normalized(rules, raw, durationMs)
  {
    var merged := MergeWords(rules, raw);
    words := RepairWords(rules, merged);
    if durationMs.Some? {
      words := FitToDuration(words, durationMs.value);
    }
  }

  /** Timing repair only, after edits; ids and text are kept. */
  method RepairTimings(words: seq<Word>, minWordMs: nat) returns (out: seq<Word>)
    ensures out == RepairedTimings(words, minWordMs) && Spaced(out, minWordMs)
  {
    out := [];
    var cursor := 0;
    for i := 0 to |words|
      invariant out == RepairedTimings(words[..i], minWordMs) && cursor == CursorOf(out)
    {
      assert words[..i + 1][..i] == words[..i];
      var w := words[i];
      var start := Max(cursor, w.startMs);
      var end := w.endMs;
      if end < start + minWordMs {
        end := start + minWordMs;
      }
      if start < 0 {
        start := 0;
      }
      cursor := end;
      out := out + [w.(startMs := start, endMs := end)];
    }
    assert words[..|words|] == words;
    RepairSpaces(words, minWordMs);
  }
}
