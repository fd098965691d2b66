/** Which caption is on screen when (packages/core/src/state.ts, packages/render/src/states.ts). */
module Timeline {
  import opened Common
  import opened Transcript

  // ---------------------------------------------------------------- lookups at one instant

  predicate Contains(page: Page, t: int) {
    page.startMs <= t < page.endMs
  }

  /** Pages in time order, none starting before the previous one ended. */
  ghost predicate OrderedPages(pages: seq<Page>) {
    && (forall k :: 0 <= k < |pages| ==> pages[k].startMs <= pages[k].endMs)
    && (forall j, k :: 0 <= j < k < |pages| ==> pages[j].endMs <= pages[k].startMs)
  }

  /** Page visible at `ms`, by binary search for the last page that has started. */
  method PageAtMs(pages: seq<Page>, ms: int) returns (r: Option<nat>)
    requires OrderedPages(pages)
    ensures r.Some? ==> r.value < |pages| && Contains(pages[r.value], ms)
    ensures r.None? ==> forall k :: 0 <= k < |pages| ==> !Contains(pages[k], ms)
    ensures forall k :: 0 <= k < |pages| && Contains(pages[k], ms) ==> r == Some(k)
  {
    var lo, hi := 0, |pages| - 1;
    var found := -1;
    while lo <= hi
      invariant 0 <= lo <= hi + 1 <= |pages|
      invariant found == lo - 1
      invariant forall k :: 0 <= k < lo ==> pages[k].startMs <= ms
      invariant forall k :: hi < k < |pages| ==> pages[k].startMs > ms
    {
      var mid := (lo + hi) / 2;
      if pages[mid].startMs <= ms {
        assert forall k :: 0 <= k < mid ==> pages[k].endMs <= pages[mid].startMs;
        found := mid;
        lo := mid + 1;
      } else {
        assert forall k :: mid < k < |pages| ==> pages[mid].endMs <= pages[k].startMs;
        hi := mid - 1;
      }
    }
    if found < 0 {
      return None;
    }
    assert forall k :: 0 <= k < found ==> pages[k].endMs <= pages[found].startMs;
    r := if ms < pages[found].endMs then Some(found) else None;
  }

  /** Words start in order. */
  ghost predicate OrderedStarts(words: seq<Word>) {
    forall j, k :: 0 <= j < k < |words| ==> words[j].startMs <= words[k].startMs
  }

  /** Word i is the last one that has started at `ms`. */
  ghost predicate LastStarted(words: seq<Word>, ms: int, i: nat) {
    i < |words| && words[i].startMs <= ms && forall k :: i < k < |words| ==> words[k].startMs > ms
  }

  method ActiveWordIndexAt(words: seq<Word>, ms: int, graceMs: int) returns (r: Option<nat>)
    requires OrderedStarts(words)
    ensures r.Some? ==> LastStarted(words, ms, r.value) && ms < words[r.value].endMs + graceMs
    ensures forall i: nat :: LastStarted(words, ms, i) && ms < words[i].endMs + graceMs ==> r == Some(i)
  {
    if |words| == 0 {
      return None;
    }
    var lo, hi := 0, |words| - 1;
    var found := -1;
    while lo <= hi
      invariant 0 <= lo <= hi + 1 <= |words|
      invariant found == lo - 1
      invariant forall k :: 0 <= k < lo ==> words[k].startMs <= ms
      invariant forall k :: hi < k < |words| ==> words[k].startMs > ms
    {
      var mid := (lo + hi) / 2;
      if words[mid].startMs <= ms {
        found := mid;
        lo := mid + 1;
      } else {
        hi := mid - 1;
      }
    }
    if found < 0 {
      return None;
    }
    r := if ms < words[found].endMs + graceMs then Some(found) else None;
  }

  // ---------------------------------------------------------------- what has to be shown at an instant

  /** An image key: identical page and word states share one image. */
  datatype Key = Blank | Shown(pageId: string, active: Option<nat>)

  /** Word i of the page is the last of the page's words that has started at t. */
  ghost predicate ActiveIn(words: seq<Word>, page: Page, t: int, i: nat) {
    && page.startWordIndex <= i <= page.endWordIndex < |words|
    && words[i].startMs <= t
    && forall q :: i < q <= page.endWordIndex ==> words[q].startMs > t
  }

  ghost predicate Shows(words: seq<Word>, page: Page, highlightWords: bool, t: int, active: Option<nat>) {
    && Contains(page, t)
    && (if highlightWords then active.Some? && ActiveIn(words, page, t, active.value) else active.None?)
  }

  /** The key agrees with the page lookup, and in word mode with the word lookup within that page. */
  ghost predicate RightKey(words: seq<Word>, pages: seq<Page>, highlightWords: bool, t: int, key: Key) {
    match key
    case Blank => forall k :: 0 <= k < |pages| ==> !Contains(pages[k], t)
    case Shown(id, active) => exists k :: 0 <= k < |pages| && pages[k].id == id && Shows(words, pages[k], highlightWords, t, active)
  }

  // ---------------------------------------------------------------- intervals

  datatype VisualState = VisualState(startMs: int, endMs: int, page: Page, active: Option<nat>)

  ghost predicate Spans(s: VisualState, t: int) {
    s.startMs <= t < s.endMs
  }

  /** The page starts with its first word and lasts at least until its last word starts. */
  ghost predicate PageOverWords(words: seq<Word>, page: Page) {
    && page.startWordIndex <= page.endWordIndex < |words|
    && page.startMs == words[page.startWordIndex].startMs
    && words[page.endWordIndex].startMs <= page.endMs
  }

  ghost predicate Playable(words: seq<Word>, pages: seq<Page>) {
    && OrderedStarts(words)
    && OrderedPages(pages)
    && forall k :: 0 <= k < |pages| ==> PageOverWords(words, pages[k])
  }

  /** States in time order, each right at every instant it spans. */
  ghost predicate OrderedStates(states: seq<VisualState>) {
    && (forall k :: 0 <= k < |states| ==> states[k].startMs <= states[k].endMs)
    && (forall j, k :: 0 <= j < k < |states| ==> states[j].endMs <= states[k].startMs)
  }

  ghost predicate RightState(words: seq<Word>, highlightWords: bool, s: VisualState) {
    forall t :: Spans(s, t) ==> Shows(words, s.page, highlightWords, t, s.active)
  }

  ghost predicate Covered(states: seq<VisualState>, t: int) {
    exists k :: 0 <= k < |states| && Spans(states[k], t)
  }

  /** States that show one page over [startMs, cursor). */
  ghost predicate PageStates(words: seq<Word>, page: Page, highlightWords: bool, states: seq<VisualState>, cursor: int) {
    && OrderedStates(states)
    && (forall k :: 0 <= k < |states| ==>
          && states[k].page == page && RightState(words, highlightWords, states[k])
          && page.startMs <= states[k].startMs && states[k].endMs <= cursor)
    && (forall t :: page.startMs <= t < cursor ==> Covered(states, t))
  }

  lemma AppendState(words: seq<Word>, page: Page, highlightWords: bool, states: seq<VisualState>, cursor: int, s: VisualState)
    requires PageStates(words, page, highlightWords, states, cursor) && page.startMs <= cursor
    requires s.page == page && s.startMs == cursor <= s.endMs && RightState(words, highlightWords, s)
    ensures PageStates(words, page, highlightWords, states + [s], s.endMs)
  {
    var states' := states + [s];
    forall t | page.startMs <= t < s.endMs
      ensures Covered(states', t)
    {
      if t < cursor {
        assert Covered(states, t);
        var k :| 0 <= k < |states| && Spans(states[k], t);
        assert states'[k] == states[k];
      } else {
        assert states'[|states|] == s;
      }
    }
  }

  method StatesOfPage(words: seq<Word>, page: Page, highlightWords: bool) returns (states: seq<VisualState>)
    requires OrderedStarts(words) && PageOverWords(words, page)
    ensures PageStates(words, page, highlightWords, states, page.endMs)
  {
    states := [];
    assert page.startMs <= page.endMs;
    if !highlightWords {
      var s := VisualState(page.startMs, page.endMs, page, None);
      AppendState(words, page, highlightWords, states, page.startMs, s);
      assert [] + [s] == [s];
      return [s];
    }
    var cursor := page.startMs;
    var i := page.startWordIndex;
    while i <= page.endWordIndex
      invariant page.startWordIndex <= i <= page.endWordIndex + 1
      invariant cursor == if i <= page.endWordIndex then words[i].startMs else page.endMs
      invariant PageStates(words, page, highlightWords, states, cursor)
    {
      var wordEnd := if i == page.endWordIndex then page.endMs else Min(page.endMs, words[i + 1].startMs);
      assert i < page.endWordIndex ==> words[i + 1].startMs <= words[page.endWordIndex].startMs;
      if wordEnd > cursor {
        var s := VisualState(cursor, wordEnd, page, Some(i));
        AppendState(words, page, highlightWords, states, cursor, s);
        states := states + [s];
        cursor := wordEnd;
      }
      i := i + 1;
    }
    assert cursor == page.endMs;  // the last word reaches the end of the page, so nothing is left to fill up
    var rest := VisualState(cursor, page.endMs, page, Some(page.endWordIndex));
    if cursor < page.endMs {
      states := states + [rest];
    }
  }

  /** The raw intervals of all pages: ordered, right, and covering every instant at which a page is visible. */
  method VisualStates(words: seq<Word>, pages: seq<Page>, highlightWords: bool) returns (states: seq<VisualState>)
    requires Playable(words, pages)
    ensures OrderedStates(states)
    ensures forall k :: 0 <= k < |states| ==> states[k].page in pages && RightState(words, highlightWords, states[k])
    ensures forall k, t :: 0 <= k < |pages| && Contains(pages[k], t) ==> Covered(states, t)
  {
    states := [];
    for p := 0 to |pages|
      invariant OrderedStates(states)
      invariant forall k :: 0 <= k < |states| ==> states[k].page in pages && RightState(words, highlightWords, states[k])
      invariant forall k :: 0 <= k < |states| && p < |pages| ==> states[k].endMs <= pages[p].startMs
      invariant forall k, t :: 0 <= k < p && Contains(pages[k], t) ==> Covered(states, t)
    {
      var page := pages[p];
      var more := StatesOfPage(words, page, highlightWords);
      ConcatStates(states, more, page.startMs);
      ghost var before := states;
      states := states + more;
      forall k, t | 0 <= k <= p && Contains(pages[k], t)
        ensures Covered(states, t)
      {
        assert k < p ==> Covered(before, t);
        assert k == p ==> Covered(more, t);
      }
      assert p + 1 < |pages| ==> page.startMs <= page.endMs <= pages[p + 1].startMs;
    }
  }

  lemma ConcatStates(a: seq<VisualState>, b: seq<VisualState>, t0: int)
    requires OrderedStates(a) && OrderedStates(b)
    requires forall k :: 0 <= k < |a| ==> a[k].endMs <= t0
    requires forall k :: 0 <= k < |b| ==> t0 <= b[k].startMs
    ensures OrderedStates(a + b)
    ensures forall t :: Covered(a, t) || Covered(b, t) ==> Covered(a + b, t)
  {
    forall t | Covered(a, t) || Covered(b, t)
      ensures Covered(a + b, t)
    {
      if Covered(a, t) {
        var k :| 0 <= k < |a| && Spans(a[k], t);
        assert (a + b)[k] == a[k];
      } else {
        var k :| 0 <= k < |b| && Spans(b[k], t);
        assert (a + b)[|a| + k] == b[k];
      }
    }
  }

  // ---------------------------------------------------------------- the gap-free plan

  datatype Segment = Segment(startMs: int, endMs: int, key: Key)

  datatype Planned = Planned(page: Option<Page>, active: Option<nat>)

  /** Non-empty segments that follow each other from `from` to `to` without gap. */
  ghost predicate Contiguous(timeline: seq<Segment>, from: int, to: int) {
    && (forall k :: 0 <= k < |timeline| ==> timeline[k].startMs < timeline[k].endMs)
    && (forall j, k :: 0 <= j < k == j + 1 < |timeline| ==> timeline[j].endMs == timeline[k].startMs)
    && (if timeline == [] then from == to
        else timeline[0].startMs == from && timeline[|timeline| - 1].endMs == to)
  }

  ghost predicate RightSegment(words: seq<Word>, pages: seq<Page>, highlightWords: bool, s: Segment) {
    forall t :: s.startMs <= t < s.endMs ==> RightKey(words, pages, highlightWords, t, s.key)
  }

  /** Every key has the page and the word it names. */
  ghost predicate KeysPlanned(states: map<Key, Planned>, pages: seq<Page>) {
    && Blank in states && states[Blank] == Planned(None, None)
    && forall key :: key in states && key.Shown? ==>
                       && states[key].page.Some? && states[key].page.value in pages
                       && states[key].page.value.id == key.pageId && states[key].active == key.active
  }

  lemma AppendSegment(timeline: seq<Segment>, from: int, to: int, s: Segment)
    requires Contiguous(timeline, from, to) && s.startMs == to < s.endMs
    ensures Contiguous(timeline + [s], from, s.endMs)
  {
  }

  lemma GapIsBlank(words: seq<Word>, pages: seq<Page>, highlightWords: bool, raw: seq<VisualState>, from: int, to: int)
    requires forall t :: from <= t < to ==> !Covered(raw, t)
    requires forall k, t :: 0 <= k < |pages| && Contains(pages[k], t) ==> Covered(raw, t)
    ensures RightSegment(words, pages, highlightWords, Segment(from, to, Blank))
  {
    forall t | from <= t < to
      ensures RightKey(words, pages, highlightWords, t, Blank)
    {
      assert !Covered(raw, t);
    }
  }

  lemma StateIsRight(words: seq<Word>, pages: seq<Page>, highlightWords: bool, s: VisualState, start: int, end: int)
    requires s.page in pages && RightState(words, highlightWords, s) && s.startMs <= start && end <= s.endMs
    ensures RightSegment(words, pages, highlightWords, Segment(start, end, Shown(s.page.id, s.active)))
  {
    var k :| 0 <= k < |pages| && pages[k] == s.page;
    forall t | start <= t < end
      ensures RightKey(words, pages, highlightWords, t, Shown(s.page.id, s.active))
    {
      assert Shows(words, pages[k], highlightWords, t, s.active);
    }
  }

  /** No state from r on spans an instant before r's start, and none before r an instant from `cursor` on. */
  lemma NothingBetween(raw: seq<VisualState>, r: nat, cursor: int, start: int)
    requires OrderedStates(raw) && r < |raw| && start <= raw[r].startMs
    requires forall q, t :: 0 <= q < r && cursor <= t < start ==> !Spans(raw[q], t)
    ensures forall t :: cursor <= t < start ==> !Covered(raw, t)
  {
  }

  /** A right, contiguous timeline over [from, to) whose keys are planned. */
  ghost predicate Plan(words: seq<Word>, pages: seq<Page>, highlightWords: bool, timeline: seq<Segment>,
                       states: map<Key, Planned>, from: int, to: int) {
    && Contiguous(timeline, from, to)
    && (forall k :: 0 <= k < |timeline| ==> RightSegment(words, pages, highlightWords, timeline[k]))
    && (forall k :: 0 <= k < |timeline| ==> timeline[k].key in states)
    && KeysPlanned(states, pages)
  }

  lemma ExtendPlan(words: seq<Word>, pages: seq<Page>, highlightWords: bool, timeline: seq<Segment>, states: map<Key, Planned>,
                   states': map<Key, Planned>, from: int, s: Segment)
    requires Plan(words, pages, highlightWords, timeline, states, from, s.startMs) && s.startMs < s.endMs
    requires RightSegment(words, pages, highlightWords, s)
    requires states.Keys <= states'.Keys && s.key in states' && KeysPlanned(states', pages)
    ensures Plan(words, pages, highlightWords, timeline + [s], states', from, s.endMs)
  {
    AppendSegment(timeline, from, s.startMs, s);
  }

  /** The states before r are behind the cursor, those from r on are not. */
  ghost predicate Reached(raw: seq<VisualState>, r: nat, cursor: int, windowStartMs: int, windowEndMs: int)
    requires r <= |raw|
  {
    && windowStartMs <= cursor && (cursor == windowStartMs || cursor <= windowEndMs)
    && (forall q :: r <= q < |raw| ==> cursor == windowStartMs || cursor <= raw[q].startMs)
    && (forall q, t :: 0 <= q < r && cursor <= t < windowEndMs ==> !Spans(raw[q], t))
  }

  lemma AdvanceReached(raw: seq<VisualState>, r: nat, cursor: int, windowStartMs: int, windowEndMs: int)
    requires OrderedStates(raw) && r < |raw| && Reached(raw, r, cursor, windowStartMs, windowEndMs)
    ensures var start, end := Max(raw[r].startMs, windowStartMs), Min(raw[r].endMs, windowEndMs);
            if end <= start then Reached(raw, r + 1, cursor, windowStartMs, windowEndMs)
            else
              && cursor <= start && Reached(raw, r + 1, end, windowStartMs, windowEndMs)
              && forall t :: cursor <= t < start ==> !Covered(raw, t)
  {
    var start, end := Max(raw[r].startMs, windowStartMs), Min(raw[r].endMs, windowEndMs);
    if start < end {
      if cursor < start {
        NothingBetween(raw, r, cursor, start);
      }
    }
  }

  /** Plan the segments of a window: each interval of the pages clipped to it, with empty segments in between. */
  method PlanStates(words: seq<Word>, pages: seq<Page>, highlightWords: bool, windowStartMs: int, windowEndMs: int)
    returns (timeline: seq<Segment>, states: map<Key, Planned>)
    requires Playable(words, pages)
    ensures Plan(words, pages, highlightWords, timeline, states, windowStartMs, Max(windowStartMs, windowEndMs))
  {
    var raw := VisualStates(words, pages, highlightWords);
    states := map[Blank := Planned(None, None)];
    timeline := [];
    var cursor := windowStartMs;
    for r := 0 to |raw|
      invariant Reached(raw, r, cursor, windowStartMs, windowEndMs)
      invariant Plan(words, pages, highlightWords, timeline, states, windowStartMs, cursor)
    {
      var s := raw[r];
      var start := Max(s.startMs, windowStartMs);
      var end := Min(s.endMs, windowEndMs);
      AdvanceReached(raw, r, cursor, windowStartMs, windowEndMs);
      if end <= start {
        continue;
      }
      if start > cursor {
        var gap := Segment(cursor, start, Blank);
        GapIsBlank(words, pages, highlightWords, raw, cursor, start);
        ExtendPlan(words, pages, highlightWords, timeline, states, states, windowStartMs, gap);
        timeline := timeline + [gap];
      }
      var key := Shown(s.page.id, s.active);
      ghost var planned := states;
      if key !in states {
        states := states[key := Planned(Some(s.page), s.active)];
      }
      StateIsRight(words, pages, highlightWords, s, start, end);
      ExtendPlan(words, pages, highlightWords, timeline, planned, states, windowStartMs, Segment(start, end, key));
      timeline := timeline + [Segment(start, end, key)];
      cursor := end;
    }
    if cursor < windowEndMs {
      var gap := Segment(cursor, windowEndMs, Blank);
      assert forall t :: cursor <= t < windowEndMs ==> !Covered(raw, t);
      GapIsBlank(words, pages, highlightWords, raw, cursor, windowEndMs);
      ExtendPlan(words, pages, highlightWords, timeline, states, states, windowStartMs, gap);
      timeline := timeline + [gap];
    }
  }

  /** At every instant of the window exactly one segment is on, and its key is the one the lookups ask for. */
  lemma {:induction false} OneSegmentAt(timeline: seq<Segment>, from: int, to: int, t: int) returns (k: nat)
    requires Contiguous(timeline, from, to) && from <= t < to
    ensures k < |timeline| && timeline[k].startMs <= t < timeline[k].endMs
    ensures forall q :: 0 <= q < |timeline| && timeline[q].startMs <= t < timeline[q].endMs ==> q == k
  {
    var last := timeline[|timeline| - 1];
    var front := timeline[..|timeline| - 1];
    if front != [] {
      assert front[|front| - 1].endMs == last.startMs;
    }
    if last.startMs <= t {
      k := |timeline| - 1;
      SegmentsBefore(front, from, last.startMs);
    } else {
      k := OneSegmentAt(front, from, last.startMs, t);
    }
  }

  lemma {:induction false} SegmentsBefore(timeline: seq<Segment>, from: int, to: int)
    requires Contiguous(timeline, from, to)
    ensures forall q :: 0 <= q < |timeline| ==> timeline[q].endMs <= to
  {
    if timeline != [] {
      var front := timeline[..|timeline| - 1];
      var last := timeline[|timeline| - 1];
      if front != [] {
        assert front[|front| - 1].endMs == last.startMs;
        SegmentsBefore(front, from, last.startMs);
      }
      forall q | 0 <= q < |timeline|
        ensures timeline[q].endMs <= to
      {
        assert q < |front| ==> timeline[q] == front[q];
      }
    }
  }
}
