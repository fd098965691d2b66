/** Constrained edits of a caption state (packages/core/src/patch.ts). */
module Edits {
  import opened Common
  import opened Transcript
  import opened StylePatch
  import opened Captions

  // ---------------------------------------------------------------- edits

  /** Segmentation parameters of which any may be left out. */
  datatype ParamsPatch = ParamsPatch(maxCharsPerPage: Option<int>, maxLinesPerPage: Option<int>, maxCharsPerLine: Option<int>,
                                     maxPageDurationMs: Option<int>, minPageDurationMs: Option<int>,
                                     maxWordsPerPage: Option<int>, pauseBreakMs: Option<int>, targetCps: Option<real>,
                                     maxCps: Option<real>, tailPaddingMs: Option<int>)

  function Or<T>(o: Option<T>, d: T): T {
    if o.Some? then o.value else d
  }

  function Overridden(p: Params, q: ParamsPatch): Params {
    Params(Or(q.maxCharsPerPage, p.maxCharsPerPage), Or(q.maxLinesPerPage, p.maxLinesPerPage),
           Or(q.maxCharsPerLine, p.maxCharsPerLine), Or(q.maxPageDurationMs, p.maxPageDurationMs),
           Or(q.minPageDurationMs, p.minPageDurationMs), Or(q.maxWordsPerPage, p.maxWordsPerPage),
           Or(q.pauseBreakMs, p.pauseBreakMs), Or(q.targetCps, p.targetCps), Or(q.maxCps, p.maxCps),
           Or(q.tailPaddingMs, p.tailPaddingMs))
  }

  /**
   * The edit operations. Replacement and inserted text arrive as the tokens between white space: an inserted text is
   * one word exactly when it is one token.
   */
  datatype Op =
    | SetTitle(title: string)
    | SetLanguage(language: string)
    | ReplaceWordText(wordId: string, tokens: seq<string>)
    | SetWordTiming(wordId: string, startMs: int, endMs: int)
    | DeleteWord(wordId: string)
    | InsertWord(afterWordId: Option<string>, tokens: seq<string>, startMs: int, endMs: int)
    | SplitPage(pageId: string, beforeWordId: string)
    | MergePageWithNext(pageId: string)
    | Resegment(segmentation: ParamsPatch)
    | SetStyle(patch: Patch)
    | SetPreset(preset: string)
    | SetPosition(position: string)

  /** What the request schema checks before an edit gets here. */
  predicate ValidOp(cfg: Config, op: Op) {
    match op
    case SetWordTiming(_, s, e) => 0 <= s < e
    case InsertWord(_, tokens, s, e) => 0 <= s < e && forall k :: 0 <= k < |tokens| ==> tokens[k] != ""
    case ReplaceWordText(_, tokens) => forall k :: 0 <= k < |tokens| ==> tokens[k] != ""
    case SetPreset(id) => id in cfg.presets
    case SetPosition(pos) => pos in cfg.positions
    case _ => true
  }

  datatype Code = NOT_FOUND | VALIDATION_FAILED

  /** An error names the field it is about, relative to the operation. */
  datatype Fault = Fault(code: Code, field: string)

  /** The loop variables of applyPatchOps; `issued` counts the ids taken from the id source. */
  datatype Work = Work(state: State, issued: nat, transcriptChanged: bool, pagesChanged: bool, styleChanged: bool,
                       metaChanged: bool)

  // ---------------------------------------------------------------- replacing a word by several

  /** The characters of the first n tokens. */
  function CharsTo(tokens: seq<string>, n: nat): nat
    requires n <= |tokens|
  {
    if n == 0 then 0 else CharsTo(tokens, n - 1) + |tokens[n - 1]|
  }

  function TotalChars(tokens: seq<string>): nat {
    CharsTo(tokens, |tokens|)
  }

  /** Math.round(a / b), computed on integers. */
  function RoundRatio(a: int, b: int): int
    requires b > 0
    decreases if a >= 0 then a else -a
  {
    if a >= b then 1 + RoundRatio(a - b, b)
    else if a <= -b then RoundRatio(a + b, b) - 1
    else if 2 * a >= b then 1
    else if 2 * a < -b then -1
    else 0
  }

  lemma QuotientIs(x: real, b: real, q: real)
    requires b > 0.0 && x == q * b
    ensures x / b == q
  {
  }

  lemma QuotientShift(a: int, b: int)
    requires b > 0
    ensures (a - b) as real / b as real == a as real / b as real - 1.0
    ensures (a + b) as real / b as real == a as real / b as real + 1.0
  {
    var q := a as real / b as real;
    assert q * b as real == a as real;
    QuotientIs((a - b) as real, b as real, q - 1.0);
    QuotientIs((a + b) as real, b as real, q + 1.0);
  }

  lemma QuotientOrder(x: real, b: real, q: real)
    requires b > 0.0
    ensures x < q * b <==> x / b < q
  {
    var r := x / b;
    assert r * b == x;
    assert r < q ==> r * b < q * b;
    assert q <= r ==> q * b <= r * b;
  }

  lemma QuotientBounds(a: int, b: int)
    requires -b < a < b
    ensures var x := a as real / b as real;
            -1.0 <= x < 1.0 && (2 * a >= b <==> x >= 0.5) && (2 * a < -b <==> x < -0.5)
  {
    QuotientOrder(a as real, b as real, 1.0);
    QuotientOrder(a as real, b as real, -1.0);
    QuotientOrder(a as real, b as real, 0.5);
    QuotientOrder(a as real, b as real, -0.5);
  }

  lemma {:induction false} RoundRatioIsRound(a: int, b: int)
    requires b > 0
    ensures RoundRatio(a, b) == Round(a as real / b as real)
    decreases if a >= 0 then a else -a
  {
    QuotientShift(a, b);
    if a >= b {
      RoundRatioIsRound(a - b, b);
    } else if a <= -b {
      RoundRatioIsRound(a + b, b);
    } else {
      QuotientBounds(a, b);
    }
  }

  /** The length of each piece but the last: its rounded share of the span, at least 1 ms. */
  function PieceLength(span: int, token: string, total: nat): (length: int)
    requires total > 0
    ensures length >= 1
  {
    Max(1, RoundRatio(span * |token|, total))
  }

  function PieceLengths(span: int, tokens: seq<string>, total: nat): (lens: seq<int>)
    requires total > 0
    ensures |lens| == |tokens| && forall t :: 0 <= t < |lens| ==> lens[t] == PieceLength(span, tokens[t], total)
  {
    seq(|tokens|, t requires 0 <= t < |tokens| => PieceLength(span, tokens[t], total))
  }

  /** Where piece n starts: every piece follows its predecessor, and the last one reaches at least the word's end. */
  function Cursor(original: Word, lens: seq<int>, n: nat): int
    requires n <= |lens|
  {
    if n == 0 then original.startMs
    else
      var cursor := Cursor(original, lens, n - 1);
      Max(if n == |lens| then original.endMs else cursor + lens[n - 1], cursor + 1)
  }

  /** The pieces that replace a word; the first keeps the word's id, the others take fresh ids. */
  function Pieces(original: Word, tokens: seq<string>, lens: seq<int>, newId: nat -> string, issued: nat): (pieces: seq<Word>)
    requires |lens| == |tokens|
    ensures |pieces| == |tokens|
  {
    seq(|tokens|, t requires 0 <= t < |tokens| =>
      original.(id := if t == 0 then original.id else newId(issued + t - 1), text := tokens[t],
                startMs := Cursor(original, lens, t), endMs := Cursor(original, lens, t + 1), edited := true))
  }

  function Lengths(original: Word, tokens: seq<string>): (lens: seq<int>)
    requires TotalChars(tokens) > 0
    ensures |lens| == |tokens|
  {
    PieceLengths(original.endMs - original.startMs, tokens, TotalChars(tokens))
  }

  method SplitWord(original: Word, tokens: seq<string>, newId: nat -> string, issued: nat) returns (pieces: seq<Word>)
    requires |tokens| > 0 && TotalChars(tokens) > 0
    ensures pieces == Pieces(original, tokens, Lengths(original, tokens), newId, issued)
  {
    var span := original.endMs - original.startMs;
    var totalChars := TotalChars(tokens);
    ghost var lens := Lengths(original, tokens);
    ghost var all := Pieces(original, tokens, lens, newId, issued);
    pieces := [];
    var cursor := original.startMs;
    for t := 0 to |tokens|
      invariant pieces == all[..t]
      invariant cursor == Cursor(original, lens, t)
    {
      assert lens[t] == PieceLength(span, tokens[t], totalChars);
      var isLast := t == |tokens| - 1;
      var end := if isLast then original.endMs else cursor + PieceLength(span, tokens[t], totalChars);
      var word := original.(id := if t == 0 then original.id else newId(issued + t - 1), text := tokens[t],
                            startMs := cursor, endMs := Max(end, cursor + 1), edited := true);
      assert word == all[t];
      pieces := pieces + [word];
      cursor := word.endMs;
    }
  }

  lemma {:induction false} CharsToRise(tokens: seq<string>, k: nat, n: nat)
    requires k <= n <= |tokens| && forall i :: 0 <= i < |tokens| ==> tokens[i] != ""
    ensures CharsTo(tokens, n) >= CharsTo(tokens, k) + n - k
    decreases n
  {
    if k < n {
      CharsToRise(tokens, k, n - 1);
    }
  }

  lemma TotalCharsPositive(tokens: seq<string>)
    requires |tokens| > 0 && forall k :: 0 <= k < |tokens| ==> tokens[k] != ""
    ensures TotalChars(tokens) >= |tokens|
  {
    CharsToRise(tokens, 0, |tokens|);
  }

  /** Rounding up to at least one gives away at most one unit. */
  lemma {:induction false} RoundedUpToOne(a: nat, b: nat)
    requires b > 0
    ensures Max(1, RoundRatio(a, b)) * b <= a + b
    decreases a
  {
    if a >= b {
      RoundedUpToOne(a - b, b);
    }
  }

  lemma NextPiece(original: Word, tokens: seq<string>, n: nat)
    requires original.startMs < original.endMs && TotalChars(tokens) > 0 && n < |tokens|
    ensures Lengths(original, tokens)[n] * TotalChars(tokens) <=
            (original.endMs - original.startMs) * |tokens[n]| + TotalChars(tokens)
    ensures Lengths(original, tokens)[n] >= 1
  {
    var span, total := original.endMs - original.startMs, TotalChars(tokens);
    assert span * |tokens[n]| >= 0;
    RoundedUpToOne(span * |tokens[n]|, total);
  }

  /** The first n pieces, not the last one, end within their share of the span plus a millisecond each. */
  lemma {:induction false} CursorWithinShare(original: Word, tokens: seq<string>, lens: seq<int>, n: nat)
    requires original.startMs < original.endMs
    requires TotalChars(tokens) > 0 && lens == Lengths(original, tokens)
    requires n < |tokens|
    ensures (Cursor(original, lens, n) - original.startMs) * TotalChars(tokens) <=
            (original.endMs - original.startMs) * CharsTo(tokens, n) + n * TotalChars(tokens)
  {
    if n > 0 {
      var span, total := original.endMs - original.startMs, TotalChars(tokens);
      var len, used := |tokens[n - 1]|, CharsTo(tokens, n - 1);
      var before := Cursor(original, lens, n - 1);
      CursorWithinShare(original, tokens, lens, n - 1);
      NextPiece(original, tokens, n - 1);
      AddShare(before - original.startMs, lens[n - 1], span, used, len, n - 1, total);
      assert Cursor(original, lens, n) == before + lens[n - 1];
    }
  }

  lemma AddShare(x: int, piece: int, span: int, used: nat, len: nat, n: nat, total: nat)
    requires x * total <= span * used + n * total && piece * total <= span * len + total
    ensures (x + piece) * total <= span * (used + len) + (n + 1) * total
  {
  }

  lemma WithinSpan(x: int, span: int, used: nat, m: nat, total: nat)
    requires span > 0 && used < total && x * total <= span * used + m * total
    ensures x <= span + m - 1
  {
    assert span * used < span * total;
    assert x * total < (span + m) * total;
  }

  lemma LastStart(original: Word, tokens: seq<string>, lens: seq<int>)
    requires original.startMs < original.endMs && |tokens| > 0
    requires forall k :: 0 <= k < |tokens| ==> tokens[k] != ""
    requires TotalChars(tokens) > 0 && lens == Lengths(original, tokens)
    ensures Cursor(original, lens, |tokens| - 1) <= original.endMs + |tokens| - 2
  {
    var m := |tokens| - 1;
    CharsToRise(tokens, m, m + 1);
    CursorWithinShare(original, tokens, lens, m);
    WithinSpan(Cursor(original, lens, m) - original.startMs, original.endMs - original.startMs, CharsTo(tokens, m), m,
               TotalChars(tokens));
  }

  lemma {:induction false} CursorAdvances(original: Word, lens: seq<int>, n: nat)
    requires n < |lens|
    ensures Cursor(original, lens, n) < Cursor(original, lens, n + 1)
    ensures original.endMs <= Cursor(original, lens, |lens|)
  {
  }

  ghost predicate Chained(pieces: seq<Word>, original: Word, tokens: seq<string>)
    requires |pieces| == |tokens| > 0
  {
    && pieces[0].startMs == original.startMs && pieces[0].id == original.id
    && (forall k :: 0 <= k < |pieces| ==> pieces[k].startMs < pieces[k].endMs && pieces[k].text == tokens[k])
    && (forall j, k :: 0 <= j < k == j + 1 < |pieces| ==> pieces[j].endMs == pieces[k].startMs)
  }

  ghost predicate WellSplit(pieces: seq<Word>, original: Word, tokens: seq<string>) {
    && |pieces| == |tokens| > 0
    && Chained(pieces, original, tokens)
    && original.endMs <= pieces[|pieces| - 1].endMs <= original.endMs + |tokens| - 1
  }

  /** Whatever the lengths, the pieces abut; the last one ends at the word's end or 1 ms after its own start. */
  lemma PiecesAreWellSplit(original: Word, tokens: seq<string>, lens: seq<int>, newId: nat -> string, issued: nat)
    requires |lens| == |tokens| > 0
    requires Cursor(original, lens, |lens| - 1) <= original.endMs + |tokens| - 2
    ensures WellSplit(Pieces(original, tokens, lens, newId, issued), original, tokens)
  {
    forall k | 0 <= k < |tokens|
      ensures Cursor(original, lens, k) < Cursor(original, lens, k + 1)
    {
      CursorAdvances(original, lens, k);
    }
  }

  /**
   * Splitting a word of positive length into k tokens gives k abutting words of at least 1 ms, from the word's start to
   * between its end and k - 1 ms later.
   */
  lemma SplitTiming(original: Word, tokens: seq<string>, newId: nat -> string, issued: nat)
    requires original.startMs < original.endMs
    requires |tokens| > 0 && forall k :: 0 <= k < |tokens| ==> tokens[k] != ""
    ensures TotalChars(tokens) > 0
    ensures WellSplit(Pieces(original, tokens, Lengths(original, tokens), newId, issued), original, tokens)
  {
    TotalCharsPositive(tokens);
    LastStart(original, tokens, Lengths(original, tokens));
    PiecesAreWellSplit(original, tokens, Lengths(original, tokens), newId, issued);
  }

  // ---------------------------------------------------------------- one operation

  function Without(ids: seq<string>, id: string): (r: seq<string>)
    ensures forall x :: x in r <==> x in ids && x != id
  {
    if ids == [] then []
    else
      var rest := Without(ids[..|ids| - 1], id);
      if ids[|ids| - 1] == id then rest else rest + [ids[|ids| - 1]]
  }

  function With(ids: seq<string>, id: string): (r: seq<string>)
    ensures forall x :: x in r <==> x in ids || x == id
  {
    if id in ids then ids else ids + [id]
  }

  function PageIndex(pages: seq<Page>, id: string): (r: Option<nat>)
    ensures r.Some? ==> r.value < |pages| && pages[r.value].id == id
    ensures r.None? ==> forall k :: 0 <= k < |pages| ==> pages[k].id != id
  {
    if pages == [] then None
    else if pages[0].id == id then Some(0)
    else var rest := PageIndex(pages[1..], id); if rest.Some? then Some(rest.value + 1) else None
  }

  /** The timing checks against the neighbours of a word that is to stand at position `at`, next one at `next`. */
  function TimingFault(words: seq<Word>, at: nat, next: nat, startMs: int, endMs: int): Option<Fault>
    requires at <= |words|
  {
    if at > 0 && startMs < words[at - 1].endMs then Some(Fault(VALIDATION_FAILED, "startMs"))
    else if next < |words| && endMs > words[next].startMs then Some(Fault(VALIDATION_FAILED, "endMs"))
    else None
  }

  function Replacement(original: Word, tokens: seq<string>, newId: nat -> string, issued: nat): (pieces: seq<Word>)
    requires |tokens| > 0 && forall k :: 0 <= k < |tokens| ==> tokens[k] != ""
    ensures |pieces| == |tokens|
  {
    TotalCharsPositive(tokens);
    Pieces(original, tokens, Lengths(original, tokens), newId, issued)
  }

  ghost predicate Ready(cfg: Config, w: Work) {
    ValidConfig(cfg) && ValidStyle(cfg, w.state.style) && Usable(w.state.segmentation)
  }

  function SetStyleStep(cfg: Config, w: Work, patch: Patch): Result<Work, Fault>
    requires Ready(cfg, w)
  {
    var st := w.state;
    var r := ApplyStylePatch(s => ValidStyle(cfg, s), st.style, patch);
    if r.None? then Err(Fault(VALIDATION_FAILED, "style"))
    else
      var style := r.value;
      var limitsChanged :=
        MaxLines(cfg, style) != MaxLines(cfg, st.style) || MaxCharsPerLine(cfg, style) != MaxCharsPerLine(cfg, st.style);
      var segmentation := if limitsChanged then SegmentationForStyle(cfg, style, st.segmentation) else st.segmentation;
      Ok(w.(state := st.(style := style, segmentation := segmentation), styleChanged := true,
            pagesChanged := w.pagesChanged || limitsChanged))
  }

  function SplitPageStep(w: Work, pageId: string, wordId: string): Result<Work, Fault> {
    var st := w.state;
    var p := PageIndex(st.pages, pageId);
    if p.None? then Err(Fault(NOT_FOUND, ""))
    else
      var i := IndexOf(st.words, wordId);
      if i.None? then Err(Fault(NOT_FOUND, ""))
      else if i.value <= st.pages[p.value].startWordIndex || i.value > st.pages[p.value].endWordIndex then
        Err(Fault(VALIDATION_FAILED, "beforeWordId"))
      else
        Ok(w.(state := st.(manualBreaks := With(st.manualBreaks, wordId), manualJoins := Without(st.manualJoins, wordId)),
              pagesChanged := true))
  }

  function MergeStep(w: Work, pageId: string): Result<Work, Fault> {
    var st := w.state;
    var p := PageIndex(st.pages, pageId);
    if p.None? then Err(Fault(NOT_FOUND, ""))
    else if p.value + 1 >= |st.pages| || st.pages[p.value + 1].startWordIndex >= |st.words| then Err(Fault(VALIDATION_FAILED, ""))
    else
      var first := st.words[st.pages[p.value + 1].startWordIndex].id;
      Ok(w.(state := st.(manualJoins := With(st.manualJoins, first), manualBreaks := Without(st.manualBreaks, first)),
            pagesChanged := true))
  }

  function InsertStep(w: Work, newId: nat -> string, after: Option<string>, tokens: seq<string>, startMs: int, endMs: int): Result<Work, Fault> {
    var st := w.state;
    var i := if after.None? then None else IndexOf(st.words, after.value);
    if after.Some? && i.None? then Err(Fault(NOT_FOUND, ""))
    else
      var at := if after.None? then 0 else i.value + 1;
      var fault := TimingFault(st.words, at, at, startMs, endMs);
      if fault.Some? then Err(fault.value)
      else if |tokens| != 1 then Err(Fault(VALIDATION_FAILED, "text"))
      else
        var word := Word(newId(w.issued), tokens[0], startMs, endMs, None, true);
        Ok(w.(state := st.(words := st.words[..at] + [word] + st.words[at..]), issued := w.issued + 1,
              transcriptChanged := true))
  }

  function ReplaceStep(w: Work, newId: nat -> string, id: string, tokens: seq<string>): Result<Work, Fault>
    requires forall k :: 0 <= k < |tokens| ==> tokens[k] != ""
  {
    var (st, i) := (w.state, IndexOf(w.state.words, id));
    if i.None? then Err(Fault(NOT_FOUND, ""))
    else if tokens == [] then Err(Fault(VALIDATION_FAILED, ""))
    else
      var pieces := Replacement(st.words[i.value], tokens, newId, w.issued);
      Ok(w.(state := st.(words := st.words[..i.value] + pieces + st.words[i.value + 1..]),
            issued := w.issued + |tokens| - 1, transcriptChanged := true))
  }

  function TimingStep(w: Work, id: string, startMs: int, endMs: int): Result<Work, Fault> {
    var (st, i) := (w.state, IndexOf(w.state.words, id));
    if i.None? then Err(Fault(NOT_FOUND, ""))
    else
      var fault := TimingFault(st.words, i.value, i.value + 1, startMs, endMs);
      if fault.Some? then Err(fault.value)
      else
        var word := st.words[i.value].(startMs := startMs, endMs := endMs, edited := true);
        Ok(w.(state := st.(words := st.words[i.value := word]), transcriptChanged := true))
  }

  function DeleteStep(w: Work, id: string): Result<Work, Fault> {
    var (st, i) := (w.state, IndexOf(w.state.words, id));
    if i.None? then Err(Fault(NOT_FOUND, ""))
    else
      Ok(w.(state := st.(words := st.words[..i.value] + st.words[i.value + 1..],
                         manualBreaks := Without(st.manualBreaks, id), manualJoins := Without(st.manualJoins, id)),
            transcriptChanged := true))
  }

  function ResegmentStep(w: Work, q: ParamsPatch): Result<Work, Fault> {
    var merged := Overridden(w.state.segmentation, q);
    if !ValidParams(merged) then Err(Fault(VALIDATION_FAILED, "segmentation"))
    else Ok(w.(state := w.state.(segmentation := merged, manualBreaks := [], manualJoins := []), pagesChanged := true))
  }

  function PresetStep(cfg: Config, w: Work, id: string): Work
    requires Ready(cfg, w) && id in cfg.presets
  {
    var (st, style) := (w.state, cfg.presets[id]);
    w.(state := st.(style := style, segmentation := SegmentationForStyle(cfg, style, st.segmentation)),
       styleChanged := true, pagesChanged := true)
  }

  function PositionStep(cfg: Config, w: Work, position: string): Work
    requires Ready(cfg, w)
  {
    w.(state := w.state.(style := WithPosition(w.state.style, position)), styleChanged := true)
  }

  function Step(cfg: Config, newId: nat -> string, w: Work, op: Op): Result<Work, Fault>
    requires Ready(cfg, w) && ValidOp(cfg, op)
  {
    match op
    case SetTitle(title) => Ok(w.(state := w.state.(title := title), metaChanged := true))
    case SetLanguage(language) => Ok(w.(state := w.state.(language := Some(language)), metaChanged := true))
    case ReplaceWordText(id, tokens) => ReplaceStep(w, newId, id, tokens)
    case SetWordTiming(id, s, e) => TimingStep(w, id, s, e)
    case DeleteWord(id) => DeleteStep(w, id)
    case InsertWord(after, tokens, s, e) => InsertStep(w, newId, after, tokens, s, e)
    case SplitPage(pageId, wordId) => SplitPageStep(w, pageId, wordId)
    case MergePageWithNext(pageId) => MergeStep(w, pageId)
    case Resegment(q) => ResegmentStep(w, q)
    case SetStyle(patch) => SetStyleStep(cfg, w, patch)
    case SetPreset(id) => Ok(PresetStep(cfg, w, id))
    case SetPosition(position) => Ok(PositionStep(cfg, w, position))
  }

  // ---------------------------------------------------------------- what every operation keeps

  /** What holds between operations of one request, started from a consistent state. */
  ghost predicate Sound(cfg: Config, w: Work) {
    Marked(cfg, w) && (!w.transcriptChanged && !w.pagesChanged ==> Resegmented(cfg, w.state) == w.state)
  }

  /** Marks are disjoint and name words. */
  ghost predicate Marked(cfg: Config, w: Work) {
    && Ready(cfg, w)
    && Disjoint(w.state.manualBreaks, w.state.manualJoins)
    && Named(w.state.manualBreaks, w.state.words) && Named(w.state.manualJoins, w.state.words)
  }

  /** Pages are recomputed from words, parameters, constraints and seed alone. */
  lemma ResegmentedReadsOnly(cfg: Config, a: State, b: State)
    requires Usable(a.segmentation) && Resegmented(cfg, a) == a
    requires b == a.(title := b.title, language := b.language, style := b.style)
    ensures Resegmented(cfg, b) == b
  {
  }

  lemma SplicedKeeps(words: seq<Word>, i: nat, pieces: seq<Word>, ids: seq<string>)
    requires i < |words| && Named(ids, words)
    requires (|pieces| > 0 && pieces[0].id == words[i].id) || words[i].id !in ids
    ensures Named(ids, words[..i] + pieces + words[i + 1..])
  {
    var words' := words[..i] + pieces + words[i + 1..];
    forall id | id in ids
      ensures exists q :: 0 <= q < |words'| && words'[q].id == id
    {
      var k :| 0 <= k < |words| && words[k].id == id;
      var q := if k <= i then k else k - 1 + |pieces|;
      assert words'[q].id == id;
    }
  }

  lemma InsertedKeeps(words: seq<Word>, at: nat, word: Word, ids: seq<string>)
    requires at <= |words| && Named(ids, words)
    ensures Named(ids, words[..at] + [word] + words[at..])
  {
    var words' := words[..at] + [word] + words[at..];
    forall id | id in ids
      ensures exists q :: 0 <= q < |words'| && words'[q].id == id
    {
      var k :| 0 <= k < |words| && words[k].id == id;
      var q := if k < at then k else k + 1;
      assert words'[q].id == id;
    }
  }

  lemma ReplacementKeepsId(original: Word, tokens: seq<string>, newId: nat -> string, issued: nat)
    requires |tokens| > 0 && forall k :: 0 <= k < |tokens| ==> tokens[k] != ""
    ensures Replacement(original, tokens, newId, issued)[0].id == original.id
  {
    TotalCharsPositive(tokens);
  }

  /** Any change of words and constraints that keeps the constraints disjoint and naming words. */
  lemma ChangeIsMarked(cfg: Config, w: Work, words: seq<Word>, breaks: seq<string>, joins: seq<string>, issued: nat,
                      transcriptChanged: bool, pagesChanged: bool)
    requires Marked(cfg, w)
    requires Disjoint(breaks, joins) && Named(breaks, words) && Named(joins, words)
    ensures Marked(cfg, w.(state := w.state.(words := words, manualBreaks := breaks, manualJoins := joins), issued := issued,
                          transcriptChanged := transcriptChanged, pagesChanged := pagesChanged))
  {
  }

  lemma ReplaceKeepsMarks(cfg: Config, newId: nat -> string, w: Work, id: string, tokens: seq<string>)
    requires Marked(cfg, w) && forall k :: 0 <= k < |tokens| ==> tokens[k] != ""
    ensures var r := ReplaceStep(w, newId, id, tokens); r.Ok? ==> Marked(cfg, r.value) && r.value.transcriptChanged
  {
    var st := w.state;
    var i := IndexOf(st.words, id);
    if i.Some? && tokens != [] {
      ReplacementKeepsId(st.words[i.value], tokens, newId, w.issued);
      var pieces := Replacement(st.words[i.value], tokens, newId, w.issued);
      SplicedKeeps(st.words, i.value, pieces, st.manualBreaks);
      SplicedKeeps(st.words, i.value, pieces, st.manualJoins);
      ChangeIsMarked(cfg, w, st.words[..i.value] + pieces + st.words[i.value + 1..], st.manualBreaks, st.manualJoins,
                    w.issued + |tokens| - 1, true, w.pagesChanged);
    }
  }

  lemma UpdatedKeeps(words: seq<Word>, i: nat, word: Word, ids: seq<string>)
    requires i < |words| && word.id == words[i].id && Named(ids, words)
    ensures Named(ids, words[i := word])
  {
    assert words[i := word] == words[..i] + [word] + words[i + 1..];
    SplicedKeeps(words, i, [word], ids);
  }

  lemma TimingKeepsMarks(cfg: Config, w: Work, id: string, startMs: int, endMs: int)
    requires Marked(cfg, w)
    ensures var r := TimingStep(w, id, startMs, endMs); r.Ok? ==> Marked(cfg, r.value) && r.value.transcriptChanged
  {
    var st := w.state;
    var i := IndexOf(st.words, id);
    if i.Some? {
      var word := st.words[i.value].(startMs := startMs, endMs := endMs, edited := true);
      UpdatedKeeps(st.words, i.value, word, st.manualBreaks);
      UpdatedKeeps(st.words, i.value, word, st.manualJoins);
      ChangeIsMarked(cfg, w, st.words[i.value := word], st.manualBreaks, st.manualJoins, w.issued, true, w.pagesChanged);
    }
  }

  lemma RemovedKeeps(words: seq<Word>, i: nat, ids: seq<string>)
    requires i < |words| && Named(ids, words) && words[i].id !in ids
    ensures Named(ids, words[..i] + words[i + 1..])
  {
    SplicedKeeps(words, i, [], ids);
    assert words[..i] + [] + words[i + 1..] == words[..i] + words[i + 1..];
  }

  lemma RemovalKeepsMarks(cfg: Config, w: Work, i: nat, breaks: seq<string>, joins: seq<string>)
    requires Marked(cfg, w) && i < |w.state.words|
    requires breaks == Without(w.state.manualBreaks, w.state.words[i].id) && joins == Without(w.state.manualJoins, w.state.words[i].id)
    ensures var words' := w.state.words[..i] + w.state.words[i + 1..];
            Marked(cfg, w.(state := w.state.(words := words', manualBreaks := breaks, manualJoins := joins), transcriptChanged := true))
  {
    var words := w.state.words;
    assert Named(breaks, words) && Named(joins, words);
    RemovedKeeps(words, i, breaks);
    RemovedKeeps(words, i, joins);
    ChangeIsMarked(cfg, w, words[..i] + words[i + 1..], breaks, joins, w.issued, true, w.pagesChanged);
  }

  lemma DeleteKeepsMarks(cfg: Config, w: Work, id: string)
    requires Marked(cfg, w)
    ensures var r := DeleteStep(w, id); r.Ok? ==> Marked(cfg, r.value) && r.value.transcriptChanged
  {
    var st := w.state;
    var i := IndexOf(st.words, id);
    if i.Some? {
      RemovalKeepsMarks(cfg, w, i.value, Without(st.manualBreaks, id), Without(st.manualJoins, id));
    }
  }

  lemma InsertKeepsMarks(cfg: Config, w: Work, newId: nat -> string, after: Option<string>, tokens: seq<string>, startMs: int, endMs: int)
    requires Marked(cfg, w)
    ensures var r := InsertStep(w, newId, after, tokens, startMs, endMs); r.Ok? ==> Marked(cfg, r.value) && r.value.transcriptChanged
  {
    var st := w.state;
    if InsertStep(w, newId, after, tokens, startMs, endMs).Ok? {
      var at := if after.None? then 0 else IndexOf(st.words, after.value).value + 1;
      var word := Word(newId(w.issued), tokens[0], startMs, endMs, None, true);
      InsertedKeeps(st.words, at, word, st.manualBreaks);
      InsertedKeeps(st.words, at, word, st.manualJoins);
      ChangeIsMarked(cfg, w, st.words[..at] + [word] + st.words[at..], st.manualBreaks, st.manualJoins, w.issued + 1, true,
                    w.pagesChanged);
    }
  }

  lemma MarkKeepsMarks(cfg: Config, w: Work, id: string, breaks: seq<string>, joins: seq<string>, i: nat)
    requires Marked(cfg, w) && i < |w.state.words| && w.state.words[i].id == id
    requires (breaks == With(w.state.manualBreaks, id) && joins == Without(w.state.manualJoins, id)) ||
             (joins == With(w.state.manualJoins, id) && breaks == Without(w.state.manualBreaks, id))
    ensures Marked(cfg, w.(state := w.state.(manualBreaks := breaks, manualJoins := joins), pagesChanged := true))
  {
    ChangeIsMarked(cfg, w, w.state.words, breaks, joins, w.issued, w.transcriptChanged, true);
  }

  lemma SplitPageKeepsMarks(cfg: Config, w: Work, pageId: string, wordId: string)
    requires Marked(cfg, w)
    ensures var r := SplitPageStep(w, pageId, wordId); r.Ok? ==> Marked(cfg, r.value) && r.value.pagesChanged
  {
    var st := w.state;
    if SplitPageStep(w, pageId, wordId).Ok? {
      MarkKeepsMarks(cfg, w, wordId, With(st.manualBreaks, wordId), Without(st.manualJoins, wordId), IndexOf(st.words, wordId).value);
    }
  }

  lemma MergeKeepsMarks(cfg: Config, w: Work, pageId: string)
    requires Marked(cfg, w)
    ensures var r := MergeStep(w, pageId); r.Ok? ==> Marked(cfg, r.value) && r.value.pagesChanged
  {
    var st := w.state;
    if MergeStep(w, pageId).Ok? {
      var i := st.pages[PageIndex(st.pages, pageId).value + 1].startWordIndex;
      MarkKeepsMarks(cfg, w, st.words[i].id, Without(st.manualBreaks, st.words[i].id), With(st.manualJoins, st.words[i].id), i);
    }
  }

  lemma ResegmentKeepsMarks(cfg: Config, w: Work, q: ParamsPatch)
    requires Marked(cfg, w)
    ensures var r := ResegmentStep(w, q); r.Ok? ==> Marked(cfg, r.value) && r.value.pagesChanged
  {
  }

  /** Operations that leave words and marks alone. */
  lemma RestyledIsSound(cfg: Config, w: Work, w': Work)
    requires Sound(cfg, w) && Ready(cfg, w') && w'.transcriptChanged == w.transcriptChanged
    requires w'.state == w.state.(title := w'.state.title, language := w'.state.language, style := w'.state.style,
                                  segmentation := w'.state.segmentation)
    requires w'.pagesChanged || (!w.pagesChanged && w'.state.segmentation == w.state.segmentation)
    ensures Sound(cfg, w')
  {
    if !w'.transcriptChanged && !w'.pagesChanged {
      ResegmentedReadsOnly(cfg, w.state, w'.state);
    }
  }

  lemma SetStyleIsSound(cfg: Config, w: Work, patch: Patch)
    requires Sound(cfg, w)
    ensures var r := SetStyleStep(cfg, w, patch); r.Ok? ==> Sound(cfg, r.value)
  {
    var r := SetStyleStep(cfg, w, patch);
    if r.Ok? {
      StyleKeepsUsable(cfg, r.value.state.style, w.state.segmentation);
      RestyledIsSound(cfg, w, r.value);
    }
  }

  lemma PresetIsSound(cfg: Config, w: Work, id: string)
    requires Sound(cfg, w) && id in cfg.presets
    ensures Sound(cfg, PresetStep(cfg, w, id))
  {
    StyleKeepsUsable(cfg, cfg.presets[id], w.state.segmentation);
    RestyledIsSound(cfg, w, PresetStep(cfg, w, id));
  }

  lemma PositionStaysValid(cfg: Config, style: Style, position: string)
    requires ValidConfig(cfg) && ValidStyle(cfg, style) && position in cfg.positions
    ensures ValidStyle(cfg, WithPosition(style, position))
  {
  }

  lemma StepIsSound(cfg: Config, newId: nat -> string, w: Work, op: Op)
    requires Sound(cfg, w) && ValidOp(cfg, op)
    ensures var r := Step(cfg, newId, w, op); r.Ok? ==> Sound(cfg, r.value)
  {
    match op {
      case SetTitle(title) => RestyledIsSound(cfg, w, w.(state := w.state.(title := title), metaChanged := true));
      case SetLanguage(language) => RestyledIsSound(cfg, w, w.(state := w.state.(language := Some(language)), metaChanged := true));
      case ReplaceWordText(id, tokens) => ReplaceKeepsMarks(cfg, newId, w, id, tokens);
      case SetWordTiming(id, s, e) => TimingKeepsMarks(cfg, w, id, s, e);
      case DeleteWord(id) => DeleteKeepsMarks(cfg, w, id);
      case InsertWord(after, tokens, s, e) => InsertKeepsMarks(cfg, w, newId, after, tokens, s, e);
      case SplitPage(pageId, wordId) => SplitPageKeepsMarks(cfg, w, pageId, wordId);
      case MergePageWithNext(pageId) => MergeKeepsMarks(cfg, w, pageId);
      case Resegment(q) => ResegmentKeepsMarks(cfg, w, q);
      case SetStyle(patch) => SetStyleIsSound(cfg, w, patch);
      case SetPreset(id) => PresetIsSound(cfg, w, id);
      case SetPosition(position) =>
        PositionStaysValid(cfg, w.state.style, position);
        RestyledIsSound(cfg, w, PositionStep(cfg, w, position));
    }
  }

  // ---------------------------------------------------------------- one request

  datatype PatchError = PatchError(code: Code, op: nat, field: string)

  datatype Outcome = Outcome(state: State, issued: nat, applied: nat, transcriptChanged: bool, pagesChanged: bool,
                             styleChanged: bool, metaChanged: bool)

  ghost predicate Request(cfg: Config, st: State, ops: seq<Op>) {
    && ValidConfig(cfg) && Consistent(cfg, st)
    && Named(st.manualBreaks, st.words) && Named(st.manualJoins, st.words)
    && ValidOps(cfg, ops)
  }

  function Start(st: State, issued: nat): Work {
    Work(st, issued, false, false, false, false)
  }

  ghost predicate ValidOps(cfg: Config, ops: seq<Op>) {
    forall k :: 0 <= k < |ops| ==> ValidOp(cfg, ops[k])
  }

  function SoundStep(cfg: Config, newId: nat -> string, w: Work, op: Op): (r: Result<Work, Fault>)
    requires Sound(cfg, w) && ValidOp(cfg, op)
    ensures r == Step(cfg, newId, w, op) && (r.Ok? ==> Sound(cfg, r.value))
  {
    StepIsSound(cfg, newId, w, op);
    Step(cfg, newId, w, op)
  }

  /** The operations from position i on, stopping at the first invalid one. */
  function RunFrom(cfg: Config, newId: nat -> string, w: Work, ops: seq<Op>, i: nat): (r: Result<Work, PatchError>)
    requires Sound(cfg, w) && ValidOps(cfg, ops) && i <= |ops|
    ensures r.Ok? ==> Sound(cfg, r.value)
    decreases |ops| - i
  {
    if i == |ops| then Ok(w)
    else
      var r := SoundStep(cfg, newId, w, ops[i]);
      if r.Err? then Err(PatchError(r.error.code, i, r.error.field)) else RunFrom(cfg, newId, r.value, ops, i + 1)
  }

  function Finished(cfg: Config, w: Work, applied: nat): Outcome
    requires Usable(w.state.segmentation)
  {
    var changed := w.transcriptChanged || w.pagesChanged;
    Outcome(if changed then Resegmented(cfg, w.state) else w.state, w.issued, applied, w.transcriptChanged, changed,
            w.styleChanged, w.metaChanged)
  }

  function Patched(cfg: Config, newId: nat -> string, st: State, issued: nat, ops: seq<Op>): Result<Outcome, PatchError>
    requires Request(cfg, st, ops)
  {
    var r := RunFrom(cfg, newId, Start(st, issued), ops, 0);
    if r.Err? then Err(r.error) else Ok(Finished(cfg, r.value, |ops|))
  }

  method ApplyPatchOps(cfg: Config, newId: nat -> string, initial: State, issued: nat, ops: seq<Op>)
    returns (r: Result<Outcome, PatchError>)
    requires Request(cfg, initial, ops)
    ensures r == Patched(cfg, newId, initial, issued, ops)
  {
    var w := Start(initial, issued);
    for i := 0 to |ops|
      invariant Sound(cfg, w)
      invariant RunFrom(cfg, newId, w, ops, i) == RunFrom(cfg, newId, Start(initial, issued), ops, 0)
    {
      var step := ApplyOp(cfg, newId, w, ops[i]);
      assert step == SoundStep(cfg, newId, w, ops[i]);
      if step.Err? {
        return Err(PatchError(step.error.code, i, step.error.field));
      }
      w := step.value;
    }
    var pagesChanged := w.pagesChanged;
    var state := w.state;
    if w.transcriptChanged || w.pagesChanged {
      state := ResegmentState(cfg, state);
      pagesChanged := true;
    }
    r := Ok(Outcome(state, w.issued, |ops|, w.transcriptChanged, pagesChanged, w.styleChanged, w.metaChanged));
  }

  /** One operation: a replacement splices the pieces into the words, the others are expressions. */
  method ApplyOp(cfg: Config, newId: nat -> string, w: Work, op: Op) returns (r: Result<Work, Fault>)
    requires Ready(cfg, w) && ValidOp(cfg, op)
    ensures r == Step(cfg, newId, w, op)
  {
    if op.ReplaceWordText? {
      var words := w.state.words;
      var i := IndexOf(words, op.wordId);
      if i.None? {
        return Err(Fault(NOT_FOUND, ""));
      }
      if |op.tokens| == 0 {
        return Err(Fault(VALIDATION_FAILED, ""));
      }
      TotalCharsPositive(op.tokens);
      var pieces := SplitWord(words[i.value], op.tokens, newId, w.issued);
      words := words[..i.value] + pieces + words[i.value + 1..];
      r := Ok(w.(state := w.state.(words := words), issued := w.issued + |op.tokens| - 1, transcriptChanged := true));
    } else {
      r := Step(cfg, newId, w, op);
    }
  }

  // ---------------------------------------------------------------- main results

  /** After any accepted request pages are what a recomputation gives, and constraints are disjoint and name words. */
  lemma PatchKeepsConsistent(cfg: Config, newId: nat -> string, st: State, issued: nat, ops: seq<Op>)
    requires Request(cfg, st, ops)
    ensures var r := Patched(cfg, newId, st, issued, ops);
            r.Ok? ==>
              && Consistent(cfg, r.value.state)
              && Named(r.value.state.manualBreaks, r.value.state.words)
              && Named(r.value.state.manualJoins, r.value.state.words)
  {
    var run := RunFrom(cfg, newId, Start(st, issued), ops, 0);
    if run.Ok? {
      var st' := Finished(cfg, run.value, |ops|).state;
      if run.value.transcriptChanged || run.value.pagesChanged {
        ResegmentedIsIdempotent(cfg, run.value.state);
      }
      ConsistentNames(cfg, st');
    }
  }

  const KEEP := ParamsPatch(None, None, None, None, None, None, None, None, None, None)

  /**
   * After a style has set the line limits, a `resegment` that changes no parameter is refused exactly when a page could hold
   * fewer than 12 characters: the parameters the style left are then outside the schema they are checked against.
   */
  lemma StyleBlocksResegment(cfg: Config, newId: nat -> string, w: Work, op: Op)
    requires Ready(cfg, w) && ValidOp(cfg, op) && (op.SetPreset? || op.SetStyle?) && Step(cfg, newId, w, op).Ok?
    requires var style := Step(cfg, newId, w, op).value.state.style;
             op.SetStyle? ==> MaxLines(cfg, style) != MaxLines(cfg, w.state.style) || MaxCharsPerLine(cfg, style) != MaxCharsPerLine(cfg, w.state.style)
    ensures var styled := Step(cfg, newId, w, op).value;
            && Ready(cfg, styled)
            && (Step(cfg, newId, styled, Resegment(KEEP)).Ok? <==>
                MaxCharsPerLine(cfg, styled.state.style) * MaxLines(cfg, styled.state.style) >= 12)
  {
    var styled := Step(cfg, newId, w, op).value;
    StyleKeepsUsable(cfg, styled.state.style, w.state.segmentation);
    StyleKeepsSchemaBounds(cfg, styled.state.style, w.state.segmentation);
    assert styled.state.segmentation == SegmentationForStyle(cfg, styled.state.style, w.state.segmentation);
    assert Overridden(styled.state.segmentation, KEEP) == styled.state.segmentation;
  }

  /** A request that only merges a page with the next one. */
  lemma MergeRequest(cfg: Config, newId: nat -> string, st: State, pageId: string, w: Work)
    requires Request(cfg, st, [MergePageWithNext(pageId)]) && MergeStep(Start(st, 0), pageId) == Ok(w)
    ensures Usable(w.state.segmentation)
    ensures var r := Patched(cfg, newId, st, 0, [MergePageWithNext(pageId)]);
            r.Ok? && r.value.state == Resegmented(cfg, w.state)
  {
    var ops := [MergePageWithNext(pageId)];
    assert ValidOp(cfg, ops[0]);
    assert SoundStep(cfg, newId, Start(st, 0), ops[0]) == Ok(w);
    assert RunFrom(cfg, newId, w, ops, 1) == Ok(w);
    assert RunFrom(cfg, newId, Start(st, 0), ops, 0) == Ok(w);
  }

  /**
   * A case where an accepted merge has no effect on the pages: with one word to a page the second of two words is joined to
   * the first, and still starts a page.
   */
  lemma MergeCanBeIgnored(cfg: Config, newId: nat -> string, title: string, words: seq<Word>, style: Style,
                          segmentation: Params, language: Option<string>, seed: string)
    requires ValidConfig(cfg) && ValidStyle(cfg, style) && Usable(segmentation) && segmentation.maxWordsPerPage == 1
    requires |words| == 2 && words[0].id != words[1].id
    ensures var st := Created(cfg, title, words, style, segmentation, language, seed);
            && |st.pages| == 2 && Request(cfg, st, [MergePageWithNext(st.pages[0].id)])
            && var r := Patched(cfg, newId, st, 0, [MergePageWithNext(st.pages[0].id)]);
               r.Ok? && JoinedAt(r.value.state, 1) && StartsPage(r.value.state.pages, 1)
  {
    var st := Created(cfg, title, words, style, segmentation, language, seed);
    CreatedIsConsistent(cfg, title, words, style, segmentation, language, seed);
    ConsistentNames(cfg, st);
    TwoPages(cfg, st);
    var w := MergeStep(Start(st, 0), st.pages[0].id).value;
    assert ValidOp(cfg, MergePageWithNext(st.pages[0].id));
    SecondIsJoined(st);
    MergeRequest(cfg, newId, st, st.pages[0].id, w);
    MergedStaysApart(cfg, w.state);
  }

  lemma SecondIsJoined(st: State)
    requires |st.words| == |st.pages| == 2 && st.pages[1].startWordIndex == 1
    ensures var r := MergeStep(Start(st, 0), st.pages[0].id);
            && r.Ok? && r.value.state.words == st.words && r.value.state.segmentation == st.segmentation
            && st.words[1].id in r.value.state.manualJoins && st.words[1].id !in r.value.state.manualBreaks
  {
    assert PageIndex(st.pages, st.pages[0].id) == Some(0);
  }

  lemma MergedStaysApart(cfg: Config, st: State)
    requires Usable(st.segmentation) && st.segmentation.maxWordsPerPage == 1 && |st.words| == 2 && st.words[0].id != st.words[1].id
    requires st.words[1].id in st.manualJoins && st.words[1].id !in st.manualBreaks
    ensures JoinedAt(Resegmented(cfg, st), 1) && StartsPage(Resegmented(cfg, st).pages, 1)
  {
    ResegmentedIsIdempotent(cfg, st);
    var st' := Resegmented(cfg, st);
    TwoPages(cfg, st');
    assert st'.pages[1].startWordIndex == 1;
    assert LastIndexOf(st.words, st.words[1].id) == Some(1);
  }

  /** A history of requests: a rejected one leaves the state as it was. */
  function History(cfg: Config, newId: nat -> string, st: State, issued: nat, requests: seq<seq<Op>>, n: nat): (r: (State, nat))
    requires n <= |requests| && Request(cfg, st, [])
    requires forall k :: 0 <= k < |requests| ==> ValidOps(cfg, requests[k])
    ensures Request(cfg, r.0, [])
  {
    if n == 0 then (st, issued)
    else
      var (s, i) := History(cfg, newId, st, issued, requests, n - 1);
      PatchKeepsConsistent(cfg, newId, s, i, requests[n - 1]);
      var r := Patched(cfg, newId, s, i, requests[n - 1]);
      if r.Ok? then (r.value.state, r.value.issued) else (s, i)
  }
}
