/** Provider words made into transcript words: text kept, timings repaired (packages/core/src/normalize.ts). */
module Normalize {
  import opened Common
  import opened Transcript
  import Edits

  const MAX_TEXT := 120
  const MAX_SPEAKER := 64

  /** Provider output; a time of None is not a number. */
  datatype Raw = Raw(text: string, startMs: Option<real>, endMs: Option<real>, speaker: Option<string>)

  /** What counts as white space and as punctuation, the shortest word, and the ids of new words. */
  datatype Rules = Rules(isSpace: char -> bool, isPunctuation: string -> bool, minWordMs: nat, wordId: nat -> string)

  // ---------------------------------------------------------------- text

  /** Every run of white space becomes one blank. */
  function Collapse(isSpace: char -> bool, s: string): string {
    if s == [] then []
    else
      var front, c := Collapse(isSpace, s[..|s| - 1]), s[|s| - 1];
      if !isSpace(c) then front + [c]
      else if front != [] && isSpace(front[|front| - 1]) then front
      else front + [' ']
  }

  function TrimStart(isSpace: char -> bool, s: string): string {
    if s != [] && isSpace(s[0]) then TrimStart(isSpace, s[1..]) else s
  }

  function TrimEnd(isSpace: char -> bool, s: string): string {
    if s != [] && isSpace(s[|s| - 1]) then TrimEnd(isSpace, s[..|s| - 1]) else s
  }

  function Clean(isSpace: char -> bool, s: string): string {
    TrimEnd(isSpace, TrimStart(isSpace, Collapse(isSpace, s)))
  }

  /** The characters that are not white space, in order. */
  function Visible(isSpace: char -> bool, s: string): string {
    if s == [] then []
    else Visible(isSpace, s[..|s| - 1]) + (if isSpace(s[|s| - 1]) then [] else [s[|s| - 1]])
  }

  lemma {:induction false} VisibleConcat(isSpace: char -> bool, a: string, b: string)
    ensures Visible(isSpace, a + b) == Visible(isSpace, a) + Visible(isSpace, b)
  {
    if b == [] {
      assert a + b == a;
    } else {
      VisibleConcat(isSpace, a, b[..|b| - 1]);
      assert (a + b)[..|a + b| - 1] == a + b[..|b| - 1];
    }
  }

  lemma VisibleOne(isSpace: char -> bool, c: char)
    ensures Visible(isSpace, [c]) == if isSpace(c) then [] else [c]
  {
    assert [c][..0] == [];
  }

  lemma {:induction false} CollapseKeepsVisible(isSpace: char -> bool, s: string)
    requires isSpace(' ')
    ensures Visible(isSpace, Collapse(isSpace, s)) == Visible(isSpace, s)
  {
    if s != [] {
      var front, c := Collapse(isSpace, s[..|s| - 1]), s[|s| - 1];
      CollapseKeepsVisible(isSpace, s[..|s| - 1]);
      VisibleConcat(isSpace, front, [c]);
      VisibleConcat(isSpace, front, [' ']);
      VisibleOne(isSpace, c);
      VisibleOne(isSpace, ' ');
    }
  }

  lemma {:induction false} TrimStartKeepsVisible(isSpace: char -> bool, s: string)
    ensures Visible(isSpace, TrimStart(isSpace, s)) == Visible(isSpace, s)
  {
    if s != [] && isSpace(s[0]) {
      TrimStartKeepsVisible(isSpace, s[1..]);
      assert s == [s[0]] + s[1..];
      VisibleConcat(isSpace, [s[0]], s[1..]);
      VisibleOne(isSpace, s[0]);
    }
  }

  lemma {:induction false} TrimEndKeepsVisible(isSpace: char -> bool, s: string)
    ensures Visible(isSpace, TrimEnd(isSpace, s)) == Visible(isSpace, s)
  {
    if s != [] && isSpace(s[|s| - 1]) {
      TrimEndKeepsVisible(isSpace, s[..|s| - 1]);
    }
  }

  /** Cleaning drops and reorders nothing but white space. */
  lemma CleanKeepsVisible(isSpace: char -> bool, s: string)
    requires isSpace(' ')
    ensures Visible(isSpace, Clean(isSpace, s)) == Visible(isSpace, s)
  {
    var c := Collapse(isSpace, s);
    CollapseKeepsVisible(isSpace, s);
    TrimStartKeepsVisible(isSpace, c);
    TrimEndKeepsVisible(isSpace, TrimStart(isSpace, c));
  }

  /** White space is single blanks only. */
  ghost predicate SingleBlanks(isSpace: char -> bool, s: string) {
    && (forall k :: 0 <= k < |s| && isSpace(s[k]) ==> s[k] == ' ')
    && (forall j, k :: 0 <= j < k == j + 1 < |s| ==> !(isSpace(s[j]) && isSpace(s[k])))
  }

  lemma {:induction false} CollapseLeavesBlanks(isSpace: char -> bool, s: string)
    ensures SingleBlanks(isSpace, Collapse(isSpace, s))
  {
    if s != [] {
      CollapseLeavesBlanks(isSpace, s[..|s| - 1]);
    }
  }

  lemma {:induction false} TrimStartLeavesBlanks(isSpace: char -> bool, s: string)
    requires SingleBlanks(isSpace, s)
    ensures var t := TrimStart(isSpace, s); SingleBlanks(isSpace, t) && (t != [] ==> !isSpace(t[0]))
  {
    if s != [] && isSpace(s[0]) {
      assert forall k :: 0 <= k < |s| - 1 ==> s[1..][k] == s[k + 1];
      TrimStartLeavesBlanks(isSpace, s[1..]);
    }
  }

  lemma {:induction false} TrimEndLeavesBlanks(isSpace: char -> bool, s: string)
    requires SingleBlanks(isSpace, s) && (s != [] ==> !isSpace(s[0]))
    ensures var t := TrimEnd(isSpace, s);
            SingleBlanks(isSpace, t) && (t != [] ==> !isSpace(t[0]) && !isSpace(t[|t| - 1]))
  {
    if s != [] && isSpace(s[|s| - 1]) {
      TrimEndLeavesBlanks(isSpace, s[..|s| - 1]);
    }
  }

  /** Cleaned text has single blanks between visible characters, and none at its ends. */
  lemma CleanIsTrimmed(isSpace: char -> bool, s: string)
    ensures var t := Clean(isSpace, s);
            SingleBlanks(isSpace, t) && (t != [] ==> !isSpace(t[0]) && !isSpace(t[|t| - 1]))
  {
    CollapseLeavesBlanks(isSpace, s);
    TrimStartLeavesBlanks(isSpace, Collapse(isSpace, s));
    TrimEndLeavesBlanks(isSpace, TrimStart(isSpace, Collapse(isSpace, s)));
  }

  // ---------------------------------------------------------------- merging and splitting

  function Chunks(text: string): (r: seq<string>)
    ensures |r| >= 1
  {
    if |text| <= MAX_TEXT then [text] else [text[..MAX_TEXT]] + Chunks(text[MAX_TEXT..])
  }

  /** Math.max of two times; NaN if either is. */
  function Later(a: Option<real>, b: Option<real>): Option<real> {
    if a.None? || b.None? then None else if a.value >= b.value then a else b
  }

  /** Where chunk boundary i of n lies when a word is cut up. */
  function CutAt(rules: Rules, w: Raw, i: nat, n: nat): Option<real>
    requires n > 0
  {
    if w.startMs.None? || w.endMs.None? then None
    else
      var natural, least := w.endMs.value - w.startMs.value, (rules.minWordMs * n) as real;
      var span := if natural >= least then natural else least;
      Some(w.startMs.value + Round(span * i as real / n as real) as real)
  }

  /** The first i chunks of a word, each with its share of the time. */
  function Pieces(rules: Rules, w: Raw, chunks: seq<string>, i: nat): (r: seq<Raw>)
    requires i <= |chunks|
    ensures |r| == i
  {
    if i == 0 then []
    else
      Pieces(rules, w, chunks, i - 1) +
      [Raw(chunks[i - 1], CutAt(rules, w, i - 1, |chunks|), CutAt(rules, w, i, |chunks|), w.speaker)]
  }

  /** One more provider word: nothing, punctuation glued to the previous word, a word, or the pieces of a long one. */
  function MergedWith(rules: Rules, merged: seq<Raw>, w: Raw): seq<Raw> {
    var text := Clean(rules.isSpace, w.text);
    if text == "" then merged
    else if rules.isPunctuation(text) && merged != [] then
      var prev := merged[|merged| - 1];
      merged[|merged| - 1 := prev.(text := prev.text + text, endMs := Later(prev.endMs, w.endMs))]
    else if |text| > MAX_TEXT then merged + Pieces(rules, w, Chunks(text), |Chunks(text)|)
    else merged + [w.(text := text)]
  }

  function Merged(rules: Rules, raw: seq<Raw>): seq<Raw> {
    if raw == [] then [] else MergedWith(rules, Merged(rules, raw[..|raw| - 1]), raw[|raw| - 1])
  }

  function TextsTo(raw: seq<Raw>, n: nat): string
    requires n <= |raw|
  {
    if n == 0 then "" else TextsTo(raw, n - 1) + raw[n - 1].text
  }

  function Texts(raw: seq<Raw>): string {
    TextsTo(raw, |raw|)
  }

  lemma {:induction false} TextsPrefix(a: seq<Raw>, b: seq<Raw>, n: nat)
    requires n <= |a| && n <= |b| && forall i :: 0 <= i < n ==> a[i] == b[i]
    ensures TextsTo(a, n) == TextsTo(b, n)
  {
    if n > 0 {
      TextsPrefix(a, b, n - 1);
    }
  }

  lemma TextsSnoc(front: seq<Raw>, w: Raw)
    ensures Texts(front + [w]) == Texts(front) + w.text
  {
    TextsPrefix(front + [w], front, |front|);
  }

  lemma {:induction false} TextsToConcat(a: seq<Raw>, b: seq<Raw>, n: nat)
    requires n <= |b|
    ensures TextsTo(a + b, |a| + n) == Texts(a) + TextsTo(b, n)
  {
    if n == 0 {
      TextsPrefix(a + b, a, |a|);
    } else {
      TextsToConcat(a, b, n - 1);
      assert Texts(a) + TextsTo(b, n - 1) + b[n - 1].text == Texts(a) + (TextsTo(b, n - 1) + b[n - 1].text);
    }
  }

  lemma TextsConcat(a: seq<Raw>, b: seq<Raw>)
    ensures Texts(a + b) == Texts(a) + Texts(b)
  {
    TextsToConcat(a, b, |b|);
  }

  function ConcatTo(parts: seq<string>, n: nat): string
    requires n <= |parts|
  {
    if n == 0 then "" else ConcatTo(parts, n - 1) + parts[n - 1]
  }

  function Concat(parts: seq<string>): string {
    ConcatTo(parts, |parts|)
  }

  lemma {:induction false} ConcatPrepend(first: string, parts: seq<string>, n: nat)
    requires n <= |parts|
    ensures ConcatTo([first] + parts, n + 1) == first + ConcatTo(parts, n)
  {
    if n > 0 {
      ConcatPrepend(first, parts, n - 1);
      assert first + ConcatTo(parts, n - 1) + parts[n - 1] == first + (ConcatTo(parts, n - 1) + parts[n - 1]);
    } else {
      assert ConcatTo([first] + parts, 0) == "";
    }
  }

  /** Cutting a text up loses nothing; no piece is empty or too long. */
  lemma {:induction false} ChunksConcat(text: string)
    requires text != ""
    ensures Concat(Chunks(text)) == text
    ensures forall k :: 0 <= k < |Chunks(text)| ==> 1 <= |Chunks(text)[k]| <= MAX_TEXT
  {
    if |text| > MAX_TEXT {
      ChunksConcat(text[MAX_TEXT..]);
      var rest := Chunks(text[MAX_TEXT..]);
      ConcatPrepend(text[..MAX_TEXT], rest, |rest|);
    } else {
      assert ConcatTo([text], 0) == "";
    }
  }

  lemma {:induction false} TextsAre(raw: seq<Raw>, parts: seq<string>, n: nat)
    requires n <= |raw| && n <= |parts| && forall k :: 0 <= k < n ==> raw[k].text == parts[k]
    ensures TextsTo(raw, n) == ConcatTo(parts, n)
  {
    if n > 0 {
      TextsAre(raw, parts, n - 1);
    }
  }

  lemma {:induction false} PiecesTexts(rules: Rules, w: Raw, chunks: seq<string>, i: nat)
    requires i <= |chunks|
    ensures Texts(Pieces(rules, w, chunks, i)) == ConcatTo(chunks, i)
    ensures forall k :: 0 <= k < i ==> Pieces(rules, w, chunks, i)[k].text == chunks[k]
  {
    if i > 0 {
      PiecesTexts(rules, w, chunks, i - 1);
    }
    TextsAre(Pieces(rules, w, chunks, i), chunks, i);
  }

  ghost predicate NoneEmpty(merged: seq<Raw>) {
    forall k :: 0 <= k < |merged| ==> merged[k].text != ""
  }

  lemma GluedTexts(merged: seq<Raw>, text: string, end: Option<real>)
    requires NoneEmpty(merged) && merged != []
    ensures var n := |merged| - 1;
            var r := merged[n := merged[n].(text := merged[n].text + text, endMs := end)];
            Texts(r) == Texts(merged) + text && NoneEmpty(r)
  {
    var n := |merged| - 1;
    var r := merged[n := merged[n].(text := merged[n].text + text, endMs := end)];
    TextsPrefix(r, merged, n);
    assert TextsTo(merged, n) + merged[n].text + text == TextsTo(merged, n) + (merged[n].text + text);
  }

  lemma CutTexts(rules: Rules, merged: seq<Raw>, w: Raw, text: string)
    requires NoneEmpty(merged) && text != ""
    ensures var r := merged + Pieces(rules, w, Chunks(text), |Chunks(text)|);
            Texts(r) == Texts(merged) + text && NoneEmpty(r)
  {
    var pieces := Pieces(rules, w, Chunks(text), |Chunks(text)|);
    ChunksConcat(text);
    PiecesTexts(rules, w, Chunks(text), |Chunks(text)|);
    TextsConcat(merged, pieces);
  }

  lemma AppendedTexts(merged: seq<Raw>, w: Raw)
    requires NoneEmpty(merged) && w.text != ""
    ensures Texts(merged + [w]) == Texts(merged) + w.text && NoneEmpty(merged + [w])
  {
    TextsSnoc(merged, w);
  }

  lemma MergedWithTexts(rules: Rules, merged: seq<Raw>, w: Raw)
    requires NoneEmpty(merged)
    ensures var r := MergedWith(rules, merged, w);
            Texts(r) == Texts(merged) + Clean(rules.isSpace, w.text) && NoneEmpty(r)
  {
    var text := Clean(rules.isSpace, w.text);
    if text == "" {
    } else if rules.isPunctuation(text) && merged != [] {
      GluedTexts(merged, text, Later(merged[|merged| - 1].endMs, w.endMs));
    } else if |text| > MAX_TEXT {
      CutTexts(rules, merged, w, text);
    } else {
      AppendedTexts(merged, w.(text := text));
    }
  }

  /** Merging and splitting keep every visible character, in order. */
  lemma {:induction false} MergingKeepsText(rules: Rules, raw: seq<Raw>)
    requires rules.isSpace(' ')
    ensures Visible(rules.isSpace, Texts(Merged(rules, raw))) == Visible(rules.isSpace, Texts(raw)) && NoneEmpty(Merged(rules, raw))
  {
    if raw != [] {
      var before, w := raw[..|raw| - 1], raw[|raw| - 1];
      MergingKeepsText(rules, before);
      TextsPrefix(raw, before, |before|);
      MergedWithTexts(rules, Merged(rules, before), w);
      CleanKeepsVisible(rules.isSpace, w.text);
      VisibleConcat(rules.isSpace, Texts(Merged(rules, before)), Clean(rules.isSpace, w.text));
      VisibleConcat(rules.isSpace, Texts(before), w.text);
    }
  }

  // ---------------------------------------------------------------- timing repair

  /** The start before it is moved past the previous word; a word without an end is measured from here. */
  function NaturalStart(w: Raw, cursor: int): int {
    Max(0, Round(if w.startMs.Some? then w.startMs.value else cursor as real))
  }

  function EndOf(w: Raw, start: int, natural: int, minWordMs: nat): int {
    Max(start + minWordMs, if w.endMs.Some? then Round(w.endMs.value) else natural + minWordMs)
  }

  function CursorOf(words: seq<Word>): int {
    if words == [] then 0 else words[|words| - 1].endMs
  }

  function SpeakerOf(w: Raw): Option<string> {
    if w.speaker.Some? && w.speaker.value != "" then Some(w.speaker.value[..Min(|w.speaker.value|, MAX_SPEAKER)]) else None
  }

  function Timed(rules: Rules, w: Raw, i: nat, cursor: int): Word {
    var start := Max(cursor, NaturalStart(w, cursor));
    Word(rules.wordId(i), w.text, start, EndOf(w, start, NaturalStart(w, cursor), rules.minWordMs), SpeakerOf(w), false)
  }

  function Repaired(rules: Rules, merged: seq<Raw>): (words: seq<Word>)
    ensures |words| == |merged|
  {
    if merged == [] then []
    else
      var i := |merged| - 1;
      var before := Repaired(rules, merged[..i]);
      before + [Timed(rules, merged[i], i, CursorOf(before))]
  }

  lemma RepairedNext(rules: Rules, merged: seq<Raw>, i: nat)
    requires i < |merged|
    ensures var before := Repaired(rules, merged[..i]);
            Repaired(rules, merged[..i + 1]) == before + [Timed(rules, merged[i], i, CursorOf(before))]
  {
    assert merged[..i + 1][..i] == merged[..i];
  }

  /** Words in order, none before time zero, none overlapping, each of the given length at least. */
  ghost predicate Spaced(words: seq<Word>, minMs: int) {
    && (forall k :: 0 <= k < |words| ==> 0 <= words[k].startMs <= words[k].endMs - minMs)
    && (forall j, k :: 0 <= j < k == j + 1 < |words| ==> words[j].endMs <= words[k].startMs)
  }

  lemma SpacedSnoc(words: seq<Word>, w: Word, minMs: nat)
    ensures Spaced(words + [w], minMs) <==>
            Spaced(words, minMs) && 0 <= w.startMs <= w.endMs - minMs && CursorOf(words) <= w.startMs
  {
    var r := words + [w];
    assert r[|words|] == w;
    assert forall k :: 0 <= k < |words| ==> r[k] == words[k];
    if Spaced(words, minMs) && 0 <= w.startMs <= w.endMs - minMs && CursorOf(words) <= w.startMs {
      assert forall j, k :: 0 <= j < k == j + 1 < |r| && k < |words| ==> words[j].endMs <= words[k].startMs;
    }
    if Spaced(r, minMs) {
      assert forall j, k :: 0 <= j < k == j + 1 < |words| ==> r[j].endMs <= r[k].startMs;
    }
  }

  lemma {:induction false} RepairedIsSpaced(rules: Rules, merged: seq<Raw>)
    ensures Spaced(Repaired(rules, merged), rules.minWordMs)
    ensures forall k :: 0 <= k < |merged| ==> Repaired(rules, merged)[k].text == merged[k].text && Repaired(rules, merged)[k].id == rules.wordId(k)
  {
    if merged != [] {
      var before := Repaired(rules, merged[..|merged| - 1]);
      RepairedIsSpaced(rules, merged[..|merged| - 1]);
      SpacedSnoc(before, Timed(rules, merged[|merged| - 1], |merged| - 1, CursorOf(before)), rules.minWordMs);
    }
  }

  /** The provider word carries these times. */
  ghost predicate TimesOf(w: Raw, word: Word) {
    w.startMs == Some(word.startMs as real) && w.endMs == Some(word.endMs as real)
  }

  lemma WholeTimesKept(w: Raw, word: Word, cursor: int, rules: Rules, i: nat)
    requires TimesOf(w, word) && 0 <= word.startMs <= word.endMs - rules.minWordMs && 0 <= cursor <= word.startMs
    ensures Timed(rules, w, i, cursor).startMs == word.startMs && Timed(rules, w, i, cursor).endMs == word.endMs
  {
  }

  /** Times that need no repair are kept as they are. */
  lemma {:induction false} GoodTimesAreKept(rules: Rules, merged: seq<Raw>, words: seq<Word>)
    requires |merged| == |words| && Spaced(words, rules.minWordMs)
    requires forall k :: 0 <= k < |words| ==> TimesOf(merged[k], words[k])
    ensures forall k :: 0 <= k < |words| ==>
              Repaired(rules, merged)[k].startMs == words[k].startMs && Repaired(rules, merged)[k].endMs == words[k].endMs
  {
    if words != [] {
      var i := |words| - 1;
      assert words == words[..i] + [words[i]];
      SpacedSnoc(words[..i], words[i], rules.minWordMs);
      GoodTimesAreKept(rules, merged[..i], words[..i]);
      var before := Repaired(rules, merged[..i]);
      assert CursorOf(before) == CursorOf(words[..i]);
      RepairedIsSpaced(rules, merged[..i]);
      WholeTimesKept(merged[i], words[i], CursorOf(before), rules, i);
    }
  }

  // ---------------------------------------------------------------- fitting into the media

  function MediaMs(durationMs: real): int {
    Max(1, Round(durationMs))
  }

  function Slot(max: int, n: nat): int
    requires n > 0
  {
    Max(1, max / n)
  }

  function FitStart(w: Word, max: int, last: int, latest: int, cursor: int): int
    requires last > 0
  {
    Min(latest, Max(cursor, Edits.RoundRatio(w.startMs * max, last)))
  }

  function FitEnd(w: Word, max: int, last: int, latest: int, start: int): int
    requires last > 0
  {
    Min(latest, Max(start + 1, Edits.RoundRatio(w.endMs * max, last)))
  }

  function FittedWord(w: Word, max: int, last: int, latestStart: int, latestEnd: int, cursor: int): Word
    requires last > 0
  {
    var start := FitStart(w, max, last, latestStart, cursor);
    w.(startMs := start, endMs := FitEnd(w, max, last, latestEnd, start))
  }

  /** The first i words compressed; each leaves one slot for every word after it. */
  function Compressed(words: seq<Word>, max: int, slot: int, i: nat): (out: seq<Word>)
    requires i <= |words| && words != [] && words[|words| - 1].endMs > 0
    ensures |out| == i
  {
    if i == 0 then []
    else
      var before := Compressed(words, max, slot, i - 1);
      var (n, w, last) := (|words|, words[i - 1], words[|words| - 1].endMs);
      before + [FittedWord(w, max, last, max - slot * (n - i + 1), max - slot * (n - i), CursorOf(before))]
  }

  lemma CompressedNext(words: seq<Word>, max: int, slot: int, i: nat, latestStart: int, latestEnd: int)
    requires i < |words| && words[|words| - 1].endMs > 0
    requires latestStart == max - slot * (|words| - i) && latestEnd == max - slot * (|words| - i - 1)
    ensures var (before, last) := (Compressed(words, max, slot, i), words[|words| - 1].endMs);
            Compressed(words, max, slot, i + 1) == before + [FittedWord(words[i], max, last, latestStart, latestEnd, CursorOf(before))]
  {
  }

  function Fitted(words: seq<Word>, durationMs: real): (out: seq<Word>)
    ensures |out| == |words|
  {
    if words == [] || words[|words| - 1].endMs <= MediaMs(durationMs) then words
    else Compressed(words, MediaMs(durationMs), Slot(MediaMs(durationMs), |words|), |words|)
  }

  /** Same words but for their times. */
  ghost predicate SameWords(a: seq<Word>, b: seq<Word>) {
    |a| == |b| && forall k :: 0 <= k < |a| ==> a[k].(startMs := b[k].startMs, endMs := b[k].endMs) == b[k]
  }

  lemma SlotsFit(max: int, n: nat)
    requires 0 < n <= max
    ensures 1 <= Slot(max, n) && Slot(max, n) * n <= max
  {
    assert max == max / n * n + max % n;
    assert max / n >= 1;
  }

  /** One more compressed word, whatever its rounded times are. */
  lemma FitsInSlot(before: seq<Word>, w: Word, max: int, last: int, latestStart: int, latestEnd: int)
    requires last > 0 && Spaced(before, 1) && 0 <= CursorOf(before) <= latestStart < latestEnd
    ensures var out := before + [FittedWord(w, max, last, latestStart, latestEnd, CursorOf(before))];
            Spaced(out, 1) && 0 <= CursorOf(out) <= latestEnd
  {
    SpacedSnoc(before, FittedWord(w, max, last, latestStart, latestEnd, CursorOf(before)), 1);
  }

  /** However the words were rounded, each compressed word has its millisecond and leaves room for the rest. */
  lemma {:induction false} CompressedFits(words: seq<Word>, max: int, slot: int, i: nat, left: int)
    requires i <= |words| && words != [] && words[|words| - 1].endMs > 0 && slot >= 1 && slot * |words| <= max
    requires left == |words| - i
    ensures var out := Compressed(words, max, slot, i); Spaced(out, 1) && 0 <= CursorOf(out) <= max - slot * left
    decreases i
  {
    if i > 0 {
      CompressedFits(words, max, slot, i - 1, left + 1);
      var latestEnd := max - slot * left;
      var latestStart := latestEnd - slot;
      assert latestStart == max - slot * (left + 1);
      CompressedNext(words, max, slot, i - 1, latestStart, latestEnd);
      FitsInSlot(Compressed(words, max, slot, i - 1), words[i - 1], max, words[|words| - 1].endMs, latestStart, latestEnd);
    }
  }

  lemma {:induction false} CompressedSame(words: seq<Word>, max: int, slot: int, i: nat, k: nat)
    requires k < i <= |words| && words[|words| - 1].endMs > 0
    ensures var w := Compressed(words, max, slot, i)[k]; words[k].(startMs := w.startMs, endMs := w.endMs) == w
  {
    if k < i - 1 {
      CompressedSame(words, max, slot, i - 1, k);
    }
  }

  lemma CompressedAll(words: seq<Word>, max: int, slot: int)
    requires words != [] && words[|words| - 1].endMs > 0 && slot >= 1 && slot * |words| <= max
    ensures var out := Compressed(words, max, slot, |words|); Spaced(out, 1) && CursorOf(out) <= max && SameWords(words, out)
  {
    var n := |words|;
    CompressedFits(words, max, slot, n, 0);
    forall k: nat | k < n
      ensures var w := Compressed(words, max, slot, n)[k]; words[k].(startMs := w.startMs, endMs := w.endMs) == w
    {
      CompressedSame(words, max, slot, n, k);
    }
  }

  /** Inside the media: ordered, apart, none lost. */
  ghost predicate Fits(words: seq<Word>, out: seq<Word>, max: int) {
    Spaced(out, 1) && CursorOf(out) <= max && SameWords(words, out)
  }

  /**
   * Words that run past the media are compressed into it, none lost and each at least a millisecond long, exactly when the
   * media has a millisecond for each of them.
   */
  lemma FittingIsExact(words: seq<Word>, durationMs: real)
    requires words != [] && words[|words| - 1].endMs > MediaMs(durationMs)
    ensures Fits(words, Fitted(words, durationMs), MediaMs(durationMs)) <==> MediaMs(durationMs) >= |words|
  {
    var max, n := MediaMs(durationMs), |words|;
    if max >= n {
      SlotsFit(max, n);
      CompressedAll(words, max, Slot(max, n));
    } else {
      assert max / n == 0;
      NegativeStart(words, max, n);
    }
  }

  lemma {:induction false} NegativeStart(words: seq<Word>, max: int, i: nat)
    requires 0 < i <= |words| && max < |words| && words[|words| - 1].endMs > 0
    ensures Compressed(words, max, 1, i)[0].startMs < 0
  {
    if i > 1 {
      NegativeStart(words, max, i - 1);
    }
  }

  /** Fitting again into the same media changes nothing. */
  lemma FittingTwice(words: seq<Word>, durationMs: real)
    requires MediaMs(durationMs) >= |words|
    ensures Fitted(Fitted(words, durationMs), durationMs) == Fitted(words, durationMs)
  {
    if words != [] && words[|words| - 1].endMs > MediaMs(durationMs) {
      FittingIsExact(words, durationMs);
    }
  }

  // ---------------------------------------------------------------- normalizing

  function Normalized(rules: Rules, raw: seq<Raw>, durationMs: Option<real>): seq<Word> {
    var words := Repaired(rules, Merged(rules, raw));
    if durationMs.None? then words else Fitted(words, durationMs.value)
  }

  function WordTextsTo(words: seq<Word>, n: nat): string
    requires n <= |words|
  {
    if n == 0 then "" else WordTextsTo(words, n - 1) + words[n - 1].text
  }

  function WordTexts(words: seq<Word>): string {
    WordTextsTo(words, |words|)
  }

  lemma {:induction false} SameTexts(words: seq<Word>, merged: seq<Raw>, n: nat)
    requires n <= |words| && n <= |merged| && forall k :: 0 <= k < n ==> words[k].text == merged[k].text
    ensures WordTextsTo(words, n) == TextsTo(merged, n)
  {
    if n > 0 {
      SameTexts(words, merged, n - 1);
    }
  }

  lemma FittedKeepsText(words: seq<Word>, durationMs: real, k: nat)
    requires k < |words|
    ensures Fitted(words, durationMs)[k].text == words[k].text
  {
    if words[|words| - 1].endMs > MediaMs(durationMs) {
      CompressedSame(words, MediaMs(durationMs), Slot(MediaMs(durationMs), |words|), |words|, k);
    }
  }

  /** No visible character is dropped, added or moved, whatever the timings and the duration. */
  lemma NormalizingKeepsText(rules: Rules, raw: seq<Raw>, durationMs: Option<real>)
    requires rules.isSpace(' ')
    ensures var words := Normalized(rules, raw, durationMs);
            && Visible(rules.isSpace, WordTexts(words)) == Visible(rules.isSpace, Texts(raw))
            && forall k :: 0 <= k < |words| ==> words[k].text != ""
  {
    var merged := Merged(rules, raw);
    var words := Repaired(rules, merged);
    MergingKeepsText(rules, raw);
    RepairedIsSpaced(rules, merged);
    if durationMs.Some? {
      forall k: nat | k < |words|
        ensures Fitted(words, durationMs.value)[k].text == words[k].text
      {
        FittedKeepsText(words, durationMs.value, k);
      }
    }
    SameTexts(Normalized(rules, raw, durationMs), merged, |merged|);
  }

  /** Words come out ordered and apart: of the minimum length without a duration, inside the media with one that can hold them. */
  lemma NormalizedIsSpaced(rules: Rules, raw: seq<Raw>, durationMs: Option<real>)
    requires rules.minWordMs >= 1
    requires durationMs.Some? ==> MediaMs(durationMs.value) >= |Merged(rules, raw)|
    ensures var words := Normalized(rules, raw, durationMs);
            && Spaced(words, 1) && |words| == |Merged(rules, raw)|
            && (durationMs.None? ==> Spaced(words, rules.minWordMs))
            && (durationMs.Some? ==> CursorOf(words) <= MediaMs(durationMs.value))
  {
    var words := Repaired(rules, Merged(rules, raw));
    RepairedIsSpaced(rules, Merged(rules, raw));
    if durationMs.Some? && words != [] && words[|words| - 1].endMs > MediaMs(durationMs.value) {
      FittingIsExact(words, durationMs.value);
    }
  }

  // ---------------------------------------------------------------- repairing edited words

  function RepairedTimings(words: seq<Word>, minWordMs: nat): (out: seq<Word>)
    ensures |out| == |words|
  {
    if words == [] then []
    else
      var (before, w) := (RepairedTimings(words[..|words| - 1], minWordMs), words[|words| - 1]);
      var start := Max(CursorOf(before), w.startMs);
      before + [w.(startMs := Max(0, start), endMs := Max(w.endMs, start + minWordMs))]
  }

  lemma RepairSnoc(front: seq<Word>, w: Word, minWordMs: nat)
    ensures var before := RepairedTimings(front, minWordMs);
            var start := Max(CursorOf(before), w.startMs);
            RepairedTimings(front + [w], minWordMs) ==
            before + [w.(startMs := Max(0, start), endMs := Max(w.endMs, start + minWordMs))]
  {
    assert (front + [w])[..|front|] == front;
  }

  lemma {:induction false} RepairSpaces(words: seq<Word>, minWordMs: nat)
    ensures Spaced(RepairedTimings(words, minWordMs), minWordMs)
  {
    if words != [] {
      var front, w := words[..|words| - 1], words[|words| - 1];
      var before := RepairedTimings(front, minWordMs);
      RepairSpaces(front, minWordMs);
      var start := Max(CursorOf(before), w.startMs);
      CursorNonNegative(before, minWordMs);
      SpacedSnoc(before, w.(startMs := Max(0, start), endMs := Max(w.endMs, start + minWordMs)), minWordMs);
    }
  }

  lemma RepairKeepsLast(front: seq<Word>, w: Word, minWordMs: nat)
    requires Spaced(front + [w], minWordMs) && RepairedTimings(front, minWordMs) == front
    ensures RepairedTimings(front + [w], minWordMs) == front + [w]
  {
    SpacedSnoc(front, w, minWordMs);
    CursorNonNegative(front, minWordMs);
    RepairSnoc(front, w, minWordMs);
  }

  lemma SpacedFront(words: seq<Word>, minMs: nat)
    requires Spaced(words, minMs) && words != []
    ensures Spaced(words[..|words| - 1], minMs)
  {
  }

  lemma {:induction false} RepairKeepsSpaced(words: seq<Word>, minWordMs: nat)
    requires Spaced(words, minWordMs)
    ensures RepairedTimings(words, minWordMs) == words
  {
    if words != [] {
      var front, w := words[..|words| - 1], words[|words| - 1];
      SpacedFront(words, minWordMs);
      RepairKeepsSpaced(front, minWordMs);
      assert words == front + [w];
      RepairKeepsLast(front, w, minWordMs);
    }
  }

  /** Repair spaces the words, and touches nothing exactly when they are spaced already. */
  lemma RepairIsExact(words: seq<Word>, minWordMs: nat)
    ensures Spaced(RepairedTimings(words, minWordMs), minWordMs)
    ensures RepairedTimings(words, minWordMs) == words <==> Spaced(words, minWordMs)
  {
    RepairSpaces(words, minWordMs);
    if Spaced(words, minWordMs) {
      RepairKeepsSpaced(words, minWordMs);
    }
  }

  lemma CursorNonNegative(words: seq<Word>, minMs: nat)
    requires Spaced(words, minMs)
    ensures CursorOf(words) >= 0
  {
  }

  /** So repairing a normalized transcript changes nothing. */
  lemma RepairOfNormalized(rules: Rules, raw: seq<Raw>)
    ensures RepairedTimings(Normalized(rules, raw, None), rules.minWordMs) == Normalized(rules, raw, None)
  {
    RepairedIsSpaced(rules, Merged(rules, raw));
    RepairIsExact(Normalized(rules, raw, None), rules.minWordMs);
  }
}
