/** Which edits keep words from overlapping in time (packages/core/src/patch.ts). */
module EditTiming {
  import opened Common
  import opened Sums
  import opened Transcript
  import opened Captions
  import opened Edits

  /** Every word lasts at least 1 ms and ends before the next one starts. */
  ghost predicate Ordered(words: seq<Word>) {
    && (forall k :: 0 <= k < |words| ==> words[k].startMs < words[k].endMs)
    && (forall j, k :: 0 <= j < k == j + 1 < |words| ==> words[j].endMs <= words[k].startMs)
  }

  lemma OrderedDoNotOverlap(words: seq<Word>)
    requires Ordered(words)
    ensures NonOverlapping(words)
  {
  }

  lemma JoinIsOrdered(front: seq<Word>, back: seq<Word>)
    requires Ordered(front) && Ordered(back) && |front| > 0
    ensures Ordered(front + back) <==> (|back| > 0 ==> front[|front| - 1].endMs <= back[0].startMs)
  {
    var words := front + back;
    if |back| > 0 {
      assert words[|front| - 1] == front[|front| - 1] && words[|front|] == back[0];
    }
    if |back| > 0 ==> front[|front| - 1].endMs <= back[0].startMs {
      forall j, k | 0 <= j < k == j + 1 < |words|
        ensures words[j].endMs <= words[k].startMs
      {
        if k < |front| {
          assert front[j].endMs <= front[k].startMs;
        } else if j >= |front| {
          assert back[j - |front|].endMs <= back[k - |front|].startMs;
        }
      }
    }
  }

  lemma PartIsOrdered(words: seq<Word>, lo: nat, hi: nat)
    requires Ordered(words) && lo <= hi <= |words|
    ensures Ordered(words[lo..hi])
  {
    forall j, k | 0 <= j < k == j + 1 < hi - lo
      ensures words[lo..hi][j].endMs <= words[lo..hi][k].startMs
    {
      assert words[lo + j].endMs <= words[lo + k].startMs;
    }
  }

  lemma JoinThree(front: seq<Word>, middle: seq<Word>, back: seq<Word>)
    requires Ordered(front) && Ordered(middle) && Ordered(back) && |middle| > 0
    requires |front| > 0 ==> front[|front| - 1].endMs <= middle[0].startMs
    ensures Ordered(front + middle + back) <==> (|back| > 0 ==> middle[|middle| - 1].endMs <= back[0].startMs)
  {
    if |front| > 0 {
      JoinIsOrdered(front, middle);
    } else {
      assert front + middle == middle;
    }
    JoinIsOrdered(front + middle, back);
  }

  /** Ordered words stay ordered when a stretch [lo, hi) is replaced by ordered words that fit between its neighbours. */
  lemma SpliceIsOrdered(words: seq<Word>, lo: nat, hi: nat, middle: seq<Word>)
    requires Ordered(words) && lo <= hi <= |words| && Ordered(middle) && |middle| > 0
    requires lo > 0 ==> words[lo - 1].endMs <= middle[0].startMs
    ensures Ordered(words[..lo] + middle + words[hi..]) <==>
            (hi < |words| ==> middle[|middle| - 1].endMs <= words[hi].startMs)
  {
    PartIsOrdered(words, 0, lo);
    PartIsOrdered(words, hi, |words|);
    assert words[0..lo] == words[..lo] && words[hi..|words|] == words[hi..];
    JoinThree(words[..lo], middle, words[hi..]);
  }

  /** Where the last piece of a split ends. */
  function SplitEnd(original: Word, tokens: seq<string>): int
    requires TotalChars(tokens) > 0
  {
    var lens := Lengths(original, tokens);
    Cursor(original, lens, |lens|)
  }

  /**
   * When the last token can end at the earliest: after the shares of all tokens before it (each its share of the span by
   * length, rounded, at least 1 ms), and one millisecond for itself.
   */
  function NeededEnd(word: Word, tokens: seq<string>): int
    requires |tokens| > 0 && TotalChars(tokens) > 0
  {
    word.startMs + SumTo(Lengths(word, tokens), |tokens| - 1) + 1
  }

  /** The shares written out. */
  function FrontLength(span: int, tokens: seq<string>, total: nat, n: nat): int
    requires n <= |tokens| && total > 0
  {
    if n == 0 then 0
    else FrontLength(span, tokens, total, n - 1) + Max(1, RoundRatio(span * |tokens[n - 1]|, total))
  }

  lemma {:induction false} SharesWrittenOut(span: int, tokens: seq<string>, total: nat, n: nat)
    requires n <= |tokens| && total > 0
    ensures SumTo(PieceLengths(span, tokens, total), n) == FrontLength(span, tokens, total, n)
  {
    if n > 0 {
      SharesWrittenOut(span, tokens, total, n - 1);
    }
  }

  /** That is over before the next word starts. */
  predicate Fits(words: seq<Word>, i: nat, tokens: seq<string>)
    requires i < |words| && |tokens| > 0 && TotalChars(tokens) > 0
  {
    i + 1 < |words| ==> NeededEnd(words[i], tokens) <= words[i + 1].startMs
  }

  /** The condition in terms of the word, the tokens and the next start alone. */
  lemma FitsWrittenOut(words: seq<Word>, i: nat, tokens: seq<string>, span: int, total: nat)
    requires i < |words| && |tokens| > 0 && total == TotalChars(tokens) > 0 && span == words[i].endMs - words[i].startMs
    ensures Fits(words, i, tokens) <==>
            (i + 1 < |words| ==> words[i].startMs + FrontLength(span, tokens, total, |tokens| - 1) + 1 <= words[i + 1].startMs)
  {
    SharesWrittenOut(span, tokens, total, |tokens| - 1);
  }

  lemma {:induction false} CursorIsSum(original: Word, lens: seq<int>, n: nat)
    requires n < |lens| && forall t :: 0 <= t < |lens| ==> lens[t] >= 1
    ensures Cursor(original, lens, n) == original.startMs + SumTo(lens, n)
  {
    if n > 0 {
      CursorIsSum(original, lens, n - 1);
    }
  }

  lemma LastEnd(original: Word, lens: seq<int>)
    requires |lens| > 0 && forall t :: 0 <= t < |lens| ==> lens[t] >= 1
    ensures Cursor(original, lens, |lens|) == Max(original.endMs, original.startMs + SumTo(lens, |lens| - 1) + 1)
  {
    CursorIsSum(original, lens, |lens| - 1);
  }

  /** The last piece ends with the word, or a millisecond after its own start if that is later. */
  lemma SplitEndIs(original: Word, tokens: seq<string>)
    requires |tokens| > 0 && TotalChars(tokens) > 0
    ensures SplitEnd(original, tokens) == Max(original.endMs, NeededEnd(original, tokens))
  {
    LastEnd(original, Lengths(original, tokens));
  }

  lemma SplitIsOrdered(original: Word, tokens: seq<string>, newId: nat -> string, issued: nat)
    requires original.startMs < original.endMs
    requires |tokens| > 0 && forall k :: 0 <= k < |tokens| ==> tokens[k] != ""
    ensures TotalChars(tokens) > 0
    ensures var pieces := Pieces(original, tokens, Lengths(original, tokens), newId, issued);
            && Ordered(pieces) && pieces[0].startMs == original.startMs
            && pieces[|pieces| - 1].endMs == SplitEnd(original, tokens) <= original.endMs + |tokens| - 1
  {
    SplitTiming(original, tokens, newId, issued);
    var lens := Lengths(original, tokens);
  }

  // ---------------------------------------------------------------- main results

  /** Ordered words stay ordered around the pieces of word i exactly when these fit. */
  lemma PiecesKeepOrder(words: seq<Word>, i: nat, tokens: seq<string>, newId: nat -> string, issued: nat)
    requires Ordered(words) && i < |words| && |tokens| > 0 && forall k :: 0 <= k < |tokens| ==> tokens[k] != ""
    ensures TotalChars(tokens) > 0
    ensures var pieces := Replacement(words[i], tokens, newId, issued);
            Ordered(words[..i] + pieces + words[i + 1..]) <==> Fits(words, i, tokens)
  {
    SplitIsOrdered(words[i], tokens, newId, issued);
    SplitEndIs(words[i], tokens);
    var pieces := Replacement(words[i], tokens, newId, issued);
    SpliceIsOrdered(words, i, i + 1, pieces);
  }

  lemma ReplaceKeepsOrder(cfg: Config, newId: nat -> string, w: Work, op: Op)
    requires Ready(cfg, w) && ValidOp(cfg, op) && Ordered(w.state.words) && op.ReplaceWordText?
    requires Step(cfg, newId, w, op).Ok?
    ensures |op.tokens| > 0 && TotalChars(op.tokens) > 0
    ensures Ordered(Step(cfg, newId, w, op).value.state.words) <==>
            Fits(w.state.words, IndexOf(w.state.words, op.wordId).value, op.tokens)
  {
    PiecesKeepOrder(w.state.words, IndexOf(w.state.words, op.wordId).value, op.tokens, newId, w.issued);
  }

  lemma SetTimingKeepsOrder(cfg: Config, newId: nat -> string, w: Work, op: Op)
    requires Ready(cfg, w) && ValidOp(cfg, op) && Ordered(w.state.words) && op.SetWordTiming?
    requires Step(cfg, newId, w, op).Ok?
    ensures Ordered(Step(cfg, newId, w, op).value.state.words)
  {
    var words := w.state.words;
    var i := IndexOf(words, op.wordId).value;
    var word := words[i].(startMs := op.startMs, endMs := op.endMs, edited := true);
    assert words[i := word] == words[..i] + [word] + words[i + 1..];
    SpliceIsOrdered(words, i, i + 1, [word]);
  }

  lemma DeleteKeepsOrder(cfg: Config, newId: nat -> string, w: Work, op: Op)
    requires Ready(cfg, w) && ValidOp(cfg, op) && Ordered(w.state.words) && op.DeleteWord?
    requires Step(cfg, newId, w, op).Ok?
    ensures Ordered(Step(cfg, newId, w, op).value.state.words)
  {
    var words := w.state.words;
    var i := IndexOf(words, op.wordId).value;
    if 0 < i && i + 1 < |words| {
      assert words[i - 1].endMs <= words[i].startMs < words[i].endMs <= words[i + 1].startMs;
    }
    var words' := words[..i] + words[i + 1..];
    forall j, k | 0 <= j < k == j + 1 < |words'|
      ensures words'[j].endMs <= words'[k].startMs
    {
      if i <= j {
        assert words[j + 1].endMs <= words[k + 1].startMs;
      }
    }
  }

  lemma InsertKeepsOrder(cfg: Config, newId: nat -> string, w: Work, op: Op)
    requires Ready(cfg, w) && ValidOp(cfg, op) && Ordered(w.state.words) && op.InsertWord?
    requires Step(cfg, newId, w, op).Ok?
    ensures Ordered(Step(cfg, newId, w, op).value.state.words)
  {
    var words := w.state.words;
    var at := if op.afterWordId.None? then 0 else IndexOf(words, op.afterWordId.value).value + 1;
    var word := Word(newId(w.issued), op.tokens[0], op.startMs, op.endMs, None, true);
    SpliceIsOrdered(words, at, at, [word]);
  }

  /**
   * Every accepted edit keeps words ordered, except a replacement by several words that need more time than there is
   * before the next word starts.
   */
  lemma EditKeepsOrder(cfg: Config, newId: nat -> string, w: Work, op: Op)
    requires Ready(cfg, w) && ValidOp(cfg, op) && Ordered(w.state.words)
    requires Step(cfg, newId, w, op).Ok?
    ensures op.ReplaceWordText? ==> |op.tokens| > 0 && TotalChars(op.tokens) > 0
    ensures Ordered(Step(cfg, newId, w, op).value.state.words) <==>
            (op.ReplaceWordText? ==> Fits(w.state.words, IndexOf(w.state.words, op.wordId).value, op.tokens))
  {
    match op {
      case ReplaceWordText(_, _) => ReplaceKeepsOrder(cfg, newId, w, op);
      case SetWordTiming(_, _, _) => SetTimingKeepsOrder(cfg, newId, w, op);
      case DeleteWord(_) => DeleteKeepsOrder(cfg, newId, w, op);
      case InsertWord(_, _, _, _) => InsertKeepsOrder(cfg, newId, w, op);
      case _ =>
    }
  }

  /** A silence of k - 1 ms after the word is always enough for k tokens; none is needed for one token. */
  lemma SilenceSuffices(words: seq<Word>, i: nat, tokens: seq<string>)
    requires Ordered(words) && i < |words|
    requires |tokens| > 0 && forall k :: 0 <= k < |tokens| ==> tokens[k] != ""
    requires i + 1 < |words| ==> words[i + 1].startMs - words[i].endMs >= |tokens| - 1
    ensures TotalChars(tokens) > 0 && Fits(words, i, tokens)
  {
    SplitIsOrdered(words[i], tokens, _ => "", 0);
    SplitEndIs(words[i], tokens);
  }

  /** Without it the check can fail: three tokens in two milliseconds run into a word that follows at once. */
  lemma SplitCanOverlap(original: Word, next: Word)
    requires original.startMs == 0 && original.endMs == 2 && next.startMs == 2 && next.endMs == 3
    ensures Ordered([original, next])
    ensures TotalChars(["a", "b", "c"]) == 3 && SplitEnd(original, ["a", "b", "c"]) == 3
    ensures !Fits([original, next], 0, ["a", "b", "c"])
  {
    var tokens := ["a", "b", "c"];
    assert CharsTo(tokens, 1) == 1 && CharsTo(tokens, 2) == 2;
    var lens := Lengths(original, tokens);
    assert RoundRatio(2 * 1, 3) == 1;
    assert Cursor(original, lens, 1) == 1;
    assert Cursor(original, lens, 2) == 2;
    SplitEndIs(original, tokens);
  }
}
