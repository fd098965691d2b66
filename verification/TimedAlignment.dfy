/** Timing for plain text from any timed reference (packages/transcription/src/align.ts). */
module TimedAlignment {
  import opened Common
  import opened Alignment

  datatype TimedToken = TimedToken(text: string, startMs: int, endMs: int)

  type Anchors = seq<Option<TimedToken>>

  // ---------------------------------------------------------------- anchors

  /** The anchor a step gives to its hypothesis token: the timing of the reference token, the text of the token. */
  function Anchor(step: AlignStep, tokens: seq<string>, timed: seq<TimedToken>): Option<TimedToken>
    requires (step.Match? || step.Sub?) ==> step.ref < |timed| && step.hyp < |tokens|
  {
    if step.Match? || step.Sub? then
      Some(TimedToken(tokens[step.hyp], timed[step.ref].startMs, timed[step.ref].endMs))
    else None
  }

  ghost predicate InRange(steps: seq<AlignStep>, n: nat, m: nat) {
    forall s :: s in steps ==> (s.Match? || s.Sub? ==> s.ref < n && s.hyp < m)
  }

  lemma {:induction false} AlignmentInRange(steps: seq<AlignStep>, a: seq<string>, b: seq<string>, i: nat, j: nat)
    requires Aligns(steps, a, b, i, j)
    ensures InRange(steps, |a|, |b|)
    ensures forall s :: s in steps && (s.Match? || s.Sub?) ==> i <= s.ref && j <= s.hyp
    decreases |steps|
  {
    if steps != [] {
      var i' := if steps[0].Ins? then i else i + 1;
      var j' := if steps[0].Del? then j else j + 1;
      AlignmentInRange(steps[1..], a, b, i', j');
      assert steps == [steps[0]] + steps[1..];
    }
  }

  /** Every anchor carries its own token's text and the timing of a reference token the alignment paired with it. */
  ghost predicate Anchored(anchors: Anchors, steps: seq<AlignStep>, tokens: seq<string>, timed: seq<TimedToken>)
    requires InRange(steps, |timed|, |tokens|)
  {
    && |anchors| == |tokens|
    && (forall k :: 0 <= k < |anchors| && anchors[k].Some? ==>
          exists s :: s in steps && (s.Match? || s.Sub?) && s.hyp == k && anchors[k] == Anchor(s, tokens, timed))
    && (forall s :: s in steps && (s.Match? || s.Sub?) ==> anchors[s.hyp].Some?)
  }

  method SetAnchors(steps: seq<AlignStep>, tokens: seq<string>, timed: seq<TimedToken>) returns (anchors: Anchors)
    requires InRange(steps, |timed|, |tokens|)
    ensures Anchored(anchors, steps, tokens, timed)
  {
    anchors := seq(|tokens|, _ => None);
    for q := 0 to |steps|
      invariant |anchors| == |tokens|
      invariant forall k :: 0 <= k < |anchors| && anchors[k].Some? ==>
        exists s :: s in steps && (s.Match? || s.Sub?) && s.hyp == k && anchors[k] == Anchor(s, tokens, timed)
      invariant forall r :: 0 <= r < q && (steps[r].Match? || steps[r].Sub?) ==> anchors[steps[r].hyp].Some?
    {
      var step := steps[q];
      if step.Match? || step.Sub? {
        assert step in steps;
        anchors := anchors[step.hyp := Anchor(step, tokens, timed)];
      }
    }
  }

  // ---------------------------------------------------------------- interpolation

  ghost predicate KeepsText(out: seq<TimedToken>, tokens: seq<string>) {
    |out| <= |tokens| && forall k :: 0 <= k < |out| ==> out[k].text == tokens[k]
  }

  ghost predicate KeepsAnchors(out: seq<TimedToken>, anchors: Anchors) {
    |out| <= |anchors| && forall k :: 0 <= k < |out| && anchors[k].Some? ==> out[k] == anchors[k].value
  }

  /** Tokens a .. b-1 are without anchors, and no longer run of such tokens contains them. */
  predicate IsRun(anchors: Anchors, a: int, b: int) {
    && 0 <= a < b <= |anchors| && (forall k :: a <= k < b ==> anchors[k].None?)
    && (a == 0 || anchors[a - 1].Some?) && (b == |anchors| || anchors[b].Some?)
  }

  /** Where the time of a run starts: at the end of the token before it. */
  function RunStart(out: seq<TimedToken>, a: nat): int
    requires a <= |out|
  {
    if a == 0 then 0 else out[a - 1].endMs
  }

  /** How much time a run gets: up to the next anchor or the end, but at least 60 ms for each token. */
  function RunSpan(anchors: Anchors, durationMs: int, start: int, a: nat, b: nat): int
    requires a <= b <= |anchors| && (b == |anchors| || anchors[b].Some?)
  {
    Max((b - a) * 60, (if b < |anchors| then anchors[b].value.startMs else durationMs) - start)
  }

  /** `d` is one of n even parts of the span, to less than a millisecond. */
  predicate Share(d: int, span: int, n: int)
    requires n > 0
  {
    span as real / n as real - 1.0 < d as real < span as real / n as real + 1.0
  }

  /** The tokens of a run abut, fill its time, and share it evenly, to less than a millisecond each. */
  ghost predicate Filled(out: seq<TimedToken>, a: int, b: int, start: int, span: int) {
    && 0 <= a < b <= |out| && out[a].startMs == start && out[b - 1].endMs == start + span
    && (forall j, k :: a <= j < k == j + 1 < b ==> out[j].endMs == out[k].startMs)
    && (forall k :: a <= k < b ==> Share(out[k].endMs - out[k].startMs, span, b - a))
  }

  ghost predicate RunFilled(out: seq<TimedToken>, anchors: Anchors, durationMs: int, a: int, b: int) {
    IsRun(anchors, a, b) && b <= |out| ==>
      Filled(out, a, b, RunStart(out, a), RunSpan(anchors, durationMs, RunStart(out, a), a, b))
  }

  /** Every run of tokens without anchors is filled evenly. */
  ghost predicate Even(out: seq<TimedToken>, anchors: Anchors, durationMs: int) {
    forall a, b :: RunFilled(out, anchors, durationMs, a, b)
  }

  lemma FilledPrefix(out: seq<TimedToken>, more: seq<TimedToken>, anchors: Anchors, durationMs: int, a: int, b: int)
    requires RunFilled(out, anchors, durationMs, a, b) && b <= |out|
    ensures RunFilled(out + more, anchors, durationMs, a, b)
  {
    if IsRun(anchors, a, b) {
      assert forall k :: 0 <= k < |out| ==> (out + more)[k] == out[k];
    }
  }

  /** Where token i of a run starts. */
  function Mark(start: int, per: real, i: int): int {
    Round(start as real + i as real * per)
  }

  lemma PerTokenAtLeast(per: real, len: real, span: real)
    requires len > 0.0 && per * len == span && span >= 60.0 * len
    ensures per >= 60.0
  {
    assert (60.0 - per) * len == 60.0 * len - span;
    assert per < 60.0 ==> (60.0 - per) * len > 0.0;
  }

  lemma RoundStep(x: real, per: real)
    requires per >= 60.0
    ensures per - 1.0 < (Round(x + per) - Round(x)) as real < per + 1.0
    ensures Round(x + per) >= Round(x) + 20
  {
  }

  lemma QuotientTimes(span: int, len: int)
    requires len > 0
    ensures span as real / len as real * len as real == span as real
  {
  }

  /** One token of a run. */
  lemma MarkStep(start: int, span: int, len: int, per: real, i: nat)
    requires len > 0 && per == span as real / len as real && per * len as real == span as real && span >= 60 * len
    ensures Mark(start, per, i + 1) >= Mark(start, per, i) + 20
    ensures Share(Mark(start, per, i + 1) - Mark(start, per, i), span, len)
  {
    PerTokenAtLeast(per, len as real, span as real);
    var x := start as real + i as real * per;
    MarkNext(start, per, i);
    RoundStep(x, per);
  }

  lemma MarkNext(start: int, per: real, i: nat)
    ensures Mark(start, per, i + 1) == Round((start as real + i as real * per) + per)
  {
    assert (i + 1) as real * per == i as real * per + per;
  }

  lemma MarkEnds(start: int, span: int, len: int, per: real)
    requires len > 0 && per * len as real == span as real
    ensures Mark(start, per, 0) == start && Mark(start, per, len) == start + span
  {
    assert len as real * per == span as real;
    assert 0 as real * per == 0.0;
  }

  /** Tokens between consecutive marks fill their run. */
  lemma MarksFill(out: seq<TimedToken>, a: int, b: int, start: int, span: int, per: real)
    requires 0 <= a < b <= |out| && per == span as real / (b - a) as real && per * (b - a) as real == span as real && span >= 60 * (b - a)
    requires forall j :: a <= j < b ==> out[j].startMs == Mark(start, per, j - a) && out[j].endMs == Mark(start, per, j - a + 1)
    ensures Filled(out, a, b, start, span)
  {
    MarkEnds(start, span, b - a, per);
    forall k | a <= k < b
      ensures Share(out[k].endMs - out[k].startMs, span, b - a)
    {
      MarkStep(start, span, b - a, per, k - a);
    }
  }

  /** Push the tokens of a run, each from its mark to the next. */
  method PushMarks(tokens: seq<string>, out: seq<TimedToken>, runEnd: nat, prevEnd: int, span: int)
    returns (r: seq<TimedToken>)
    requires |out| < runEnd <= |tokens| && span >= 60 * (runEnd - |out|)
    ensures |r| == runEnd && r[..|out|] == out && forall k :: |out| <= k < runEnd ==> r[k].text == tokens[k]
    ensures Filled(r, |out|, runEnd, prevEnd, span)
  {
    var idx := |out|;
    QuotientTimes(span, runEnd - idx);
    var per := span as real / (runEnd - idx) as real;
    r := out;
    for k := idx to runEnd
      invariant |r| == k && r[..idx] == out
      invariant forall j :: idx <= j < k ==>
        r[j].text == tokens[j] && r[j].startMs == Mark(prevEnd, per, j - idx) && r[j].endMs == Mark(prevEnd, per, j - idx + 1)
    {
      MarkStep(prevEnd, span, runEnd - idx, per, k - idx);
      var s := Mark(prevEnd, per, k - idx);
      var e := Mark(prevEnd, per, k - idx + 1);
      r := r + [TimedToken(tokens[k], s, Max(e, s + 20))];
    }
    MarksFill(r, idx, runEnd, prevEnd, span, per);
  }

  /** Give a run of tokens without anchors its share of the time. */
  method FillRun(tokens: seq<string>, out: seq<TimedToken>, anchors: Anchors, durationMs: int, runEnd: nat) returns (r: seq<TimedToken>)
    requires |out| < runEnd <= |tokens| == |anchors| && IsRun(anchors, |out|, runEnd)
    ensures |r| == runEnd && r[..|out|] == out && forall k :: |out| <= k < runEnd ==> r[k].text == tokens[k]
    ensures Filled(r, |out|, runEnd, RunStart(out, |out|), RunSpan(anchors, durationMs, RunStart(out, |out|), |out|, runEnd))
  {
    var idx := |out|;
    var prevEnd := if |out| > 0 then out[|out| - 1].endMs else 0;
    var nextStart := if runEnd < |tokens| then anchors[runEnd].value.startMs else durationMs;
    var span := Max((runEnd - idx) * 60, nextStart - prevEnd);
    assert span == RunSpan(anchors, durationMs, prevEnd, idx, runEnd) && prevEnd == RunStart(out, idx);
    r := PushMarks(tokens, out, runEnd, prevEnd, span);
  }

  method Interpolate(tokens: seq<string>, anchors: Anchors, durationMs: int) returns (out: seq<TimedToken>)
    requires |anchors| == |tokens|
    requires forall k :: 0 <= k < |anchors| && anchors[k].Some? ==> anchors[k].value.text == tokens[k]
    ensures |out| == |tokens| && KeepsText(out, tokens) && KeepsAnchors(out, anchors) && Even(out, anchors, durationMs)
  {
    out := [];
    var idx := 0;
    while idx < |tokens|
      invariant 0 <= idx == |out| <= |tokens|
      invariant idx == 0 || idx == |tokens| || anchors[idx - 1].Some? || anchors[idx].Some?
      invariant KeepsText(out, tokens) && KeepsAnchors(out, anchors) && Even(out, anchors, durationMs)
    {
      ghost var before := out;
      if anchors[idx].Some? {
        out := out + [anchors[idx].value];
        idx := idx + 1;
        EvenAfter(before, out, anchors, durationMs);
        continue;
      }
      var runEnd := idx;
      while runEnd < |tokens| && anchors[runEnd].None?
        invariant idx <= runEnd <= |tokens|
        invariant forall k :: idx <= k < runEnd ==> anchors[k].None?
      {
        runEnd := runEnd + 1;
      }
      out := FillRun(tokens, out, anchors, durationMs, runEnd);
      idx := runEnd;
      EvenAfter(before, out, anchors, durationMs);
    }
  }

  /** Runs that ended earlier stay filled; a run ending in the new part is the new part. */
  lemma EvenAfter(before: seq<TimedToken>, out: seq<TimedToken>, anchors: Anchors, durationMs: int)
    requires Even(before, anchors, durationMs) && |before| < |out| <= |anchors| && out[..|before|] == before
    requires || (|out| == |before| + 1 && anchors[|before|].Some?)
             || (IsRun(anchors, |before|, |out|) && RunFilled(out, anchors, durationMs, |before|, |out|))
    ensures Even(out, anchors, durationMs)
  {
    forall a, b
      ensures RunFilled(out, anchors, durationMs, a, b)
    {
      assert RunFilled(before, anchors, durationMs, a, b);
      if IsRun(anchors, a, b) && b <= |before| {
        FilledPrefix(before, out[|before|..], anchors, durationMs, a, b);
        assert before + out[|before|..] == out;
      } else if IsRun(anchors, a, b) && b <= |out| {
        assert anchors[b - 1].None?;
      }
    }
  }

  // ---------------------------------------------------------------- the monotonic pass

  /** Where the token after out[..k] may start at the earliest. */
  function CursorAt(out: seq<TimedToken>, k: nat): int
    requires k <= |out|
  {
    if k == 0 then 0 else out[k - 1].endMs
  }

  /** Strictly positive, ordered, non-overlapping timings from 0 on. */
  ghost predicate Monotonic(out: seq<TimedToken>) {
    forall k :: 0 <= k < |out| ==> CursorAt(out, k) <= out[k].startMs < out[k].endMs
  }

  method EnforceMonotonic(raw: seq<TimedToken>) returns (out: seq<TimedToken>)
    ensures Monotonic(out) && Pushed(out, raw)
  {
    out := raw;
    var cursor := 0;
    for i := 0 to |raw|
      invariant |out| == |raw| && cursor == CursorAt(out, i)
      invariant out[i..] == raw[i..]
      invariant forall k :: 0 <= k < i ==>
        && CursorAt(out, k) <= out[k].startMs < out[k].endMs
        && out[k].text == raw[k].text
        && out[k].startMs == Max(raw[k].startMs, CursorAt(out, k))
        && (out[k].endMs == if raw[k].endMs > out[k].startMs then raw[k].endMs else out[k].startMs + 20)
    {
      assert out[i] == out[i..][0] == raw[i];
      var t := out[i];
      if t.startMs < cursor {
        t := t.(startMs := cursor);
      }
      if t.endMs <= t.startMs {
        t := t.(endMs := t.startMs + 20);
      }
      ghost var before := out;
      out := out[i := t];
      cursor := t.endMs;
      assert forall k :: 0 <= k <= i ==> CursorAt(out, k) == CursorAt(before, k);
      assert out[i + 1..] == before[i..][1..] == raw[i..][1..];
    }
  }

  // ---------------------------------------------------------------- the whole function

  /** A token keeps its timing unless an earlier token pushes it later. */
  ghost predicate Pushed(out: seq<TimedToken>, raw: seq<TimedToken>) {
    && |out| == |raw|
    && forall k :: 0 <= k < |raw| ==>
                     && out[k].text == raw[k].text && out[k].startMs == Max(raw[k].startMs, CursorAt(out, k))
                     && out[k].endMs == if raw[k].endMs > out[k].startMs then raw[k].endMs else out[k].startMs + 20
  }

  /** In particular an anchored token. */
  ghost predicate PushedOnly(out: seq<TimedToken>, anchors: Anchors)
    requires |out| == |anchors|
  {
    forall k :: 0 <= k < |out| && anchors[k].Some? ==>
                  var t := anchors[k].value;
                  && out[k].startMs == Max(t.startMs, CursorAt(out, k))
                  && (out[k].startMs < t.endMs ==> out[k].endMs == t.endMs)
  }

  /**
   * The text is never changed and the timing is monotonic: anchors come from a cheapest alignment, runs between them are
   * filled evenly, and what overlaps is pushed later.
   */
  ghost predicate TimedBy(out: seq<TimedToken>, raw: seq<TimedToken>, steps: seq<AlignStep>, anchors: Anchors, norm: string -> string,
                          tokens: seq<string>, timed: seq<TimedToken>, durationMs: int) {
    && |out| == |tokens| && KeepsText(out, tokens) && Monotonic(out)
    && CheapestWalk(steps, Normalized(norm, Texts(timed)), Normalized(norm, tokens), 0, 0)
    && InRange(steps, |timed|, |tokens|) && Anchored(anchors, steps, tokens, timed)
    && |anchors| == |raw| && KeepsAnchors(raw, anchors) && Even(raw, anchors, durationMs) && Pushed(out, raw)
  }

  /** The timing comes from the anchors of some cheapest alignment. */
  ghost predicate Timed(out: seq<TimedToken>, norm: string -> string, tokens: seq<string>, timed: seq<TimedToken>, durationMs: int) {
    exists raw, steps, anchors :: TimedBy(out, raw, steps, anchors, norm, tokens, timed, durationMs)
  }

  method AlignTextToTimedWords(norm: string -> string, tokens: seq<string>, timed: seq<TimedToken>, durationMs: int)
    returns (out: seq<TimedToken>)
    ensures |out| == |tokens| && KeepsText(out, tokens) && Monotonic(out)
    ensures Timed(out, norm, tokens, timed, durationMs)
  {
    var walk := AlignTokens(norm, Texts(timed), tokens);
    AlignmentInRange(walk, Normalized(norm, Texts(timed)), Normalized(norm, tokens), 0, 0);
    var anchors := SetAnchors(walk, tokens, timed);
    var raw := Interpolate(tokens, anchors, durationMs);
    out := EnforceMonotonic(raw);
    assert TimedBy(out, raw, walk, anchors, norm, tokens, timed, durationMs);
  }

  function Texts(timed: seq<TimedToken>): (r: seq<string>)
    ensures |r| == |timed| && forall k :: 0 <= k < |r| ==> r[k] == timed[k].text
  {
    seq(|timed|, k requires 0 <= k < |timed| => timed[k].text)
  }

  // ---------------------------------------------------------------- a perfect transcript keeps every timing

  lemma {:induction false} DiagonalCostsNothing(steps: seq<AlignStep>, a: seq<string>, i: nat)
    requires i <= |a| && steps == seq(|a| - i, k requires k >= 0 => Match(i + k, i + k))
    ensures Aligns(steps, a, a, i, i) && Cost(steps) == 0
    decreases |a| - i
  {
    if i < |a| {
      var rest := seq(|a| - (i + 1), k requires k >= 0 => Match(i + 1 + k, i + 1 + k));
      assert steps[1..] == rest;
      DiagonalCostsNothing(rest, a, i + 1);
    }
  }

  lemma {:induction false} FreeWalkIsDiagonal(steps: seq<AlignStep>, a: seq<string>, b: seq<string>, i: nat)
    requires Aligns(steps, a, b, i, i) && Cost(steps) == 0
    ensures forall s :: s in steps ==> s.Match? && s.ref == s.hyp
    ensures forall k :: i <= k < |b| ==> Match(k, k) in steps
    decreases |steps|
  {
    if steps != [] {
      FreeWalkIsDiagonal(steps[1..], a, b, i + 1);
      assert steps == [steps[0]] + steps[1..];
    }
  }

  lemma PerfectAnchors(steps: seq<AlignStep>, anchors: Anchors, norm: string -> string, tokens: seq<string>,
                       timed: seq<TimedToken>)
    requires Normalized(norm, tokens) == Normalized(norm, Texts(timed))
    requires CheapestWalk(steps, Normalized(norm, Texts(timed)), Normalized(norm, tokens), 0, 0)
    requires InRange(steps, |timed|, |tokens|) && Anchored(anchors, steps, tokens, timed)
    ensures |timed| == |tokens|
    ensures forall k :: 0 <= k < |tokens| ==>
                          anchors[k] == Some(TimedToken(tokens[k], timed[k].startMs, timed[k].endMs))
  {
    var a := Normalized(norm, tokens);
    DiagonalCostsNothing(seq(|a| - 0, k requires k >= 0 => Match(0 + k, 0 + k)), a, 0);
    CheapestWalkIsOptimal(steps, a, a);
    FreeWalkIsDiagonal(steps, a, a, 0);
    forall k | 0 <= k < |tokens|
      ensures anchors[k] == Some(TimedToken(tokens[k], timed[k].startMs, timed[k].endMs))
    {
      assert Match(k, k) in steps;
    }
  }

  /** When the text is the reference, word for word, an ordered reference passes its timing through unchanged. */
  lemma PerfectTranscriptKeepsTimings(out: seq<TimedToken>, norm: string -> string, tokens: seq<string>, timed: seq<TimedToken>,
                                      durationMs: int)
    requires Normalized(norm, tokens) == Normalized(norm, Texts(timed))
    requires Monotonic(timed)
    requires Timed(out, norm, tokens, timed, durationMs)
    ensures |out| == |timed|
    ensures forall k :: 0 <= k < |out| ==> out[k] == TimedToken(tokens[k], timed[k].startMs, timed[k].endMs)
  {
    var raw, steps, anchors :| TimedBy(out, raw, steps, anchors, norm, tokens, timed, durationMs);
    PerfectAnchors(steps, anchors, norm, tokens, timed);
    Passthrough(out, anchors, tokens, timed, |out|);
  }

  lemma {:induction false} Passthrough(out: seq<TimedToken>, anchors: Anchors, tokens: seq<string>,
                                       timed: seq<TimedToken>, n: nat)
    requires |out| == |anchors| == |tokens| == |timed| && n <= |out|
    requires Monotonic(timed) && KeepsText(out, tokens) && PushedOnly(out, anchors)
    requires forall k :: 0 <= k < |tokens| ==>
                           anchors[k] == Some(TimedToken(tokens[k], timed[k].startMs, timed[k].endMs))
    ensures forall k :: 0 <= k < n ==> out[k] == TimedToken(tokens[k], timed[k].startMs, timed[k].endMs)
  {
    if n > 0 {
      Passthrough(out, anchors, tokens, timed, n - 1);
      assert CursorAt(out, n - 1) == CursorAt(timed, n - 1);
      assert anchors[n - 1].Some?;
    }
  }
}
