/** Word ranges, and what it means for them to cover words exactly once. */
module Ranges {
  /** Word positions, both inclusive. */
  datatype Range = Range(start: nat, end: int)

  /** The ranges cover words [0, n) in order, each at least one word. */
  ghost predicate Tiles(ranges: seq<Range>, n: nat) {
    if ranges == [] then n == 0
    else
      var last := ranges[|ranges| - 1];
      last.end == n - 1 && last.start < n && Tiles(ranges[..|ranges| - 1], last.start)
  }

  lemma {:induction false} RangesNeedWords(ranges: seq<Range>, n: nat)
    requires Tiles(ranges, n)
    ensures |ranges| <= n && (n > 0 ==> |ranges| > 0)
  {
    if ranges != [] {
      RangesNeedWords(ranges[..|ranges| - 1], ranges[|ranges| - 1].start);
    }
  }

  /** The same property read from the front: the first range starts at 0, each next one right after its predecessor. */
  lemma {:induction false} TilesFromFront(ranges: seq<Range>, n: nat)
    requires Tiles(ranges, n)
    ensures forall k :: 0 <= k < |ranges| ==> ranges[k].start <= ranges[k].end < n
    ensures forall j, k :: 0 <= j < k == j + 1 < |ranges| ==> ranges[k].start == ranges[j].end + 1
    ensures ranges != [] ==> ranges[0].start == 0 && ranges[|ranges| - 1].end == n - 1
  {
    if ranges != [] {
      var front := ranges[..|ranges| - 1];
      var last := ranges[|ranges| - 1];
      TilesFromFront(front, last.start);
      forall j, k | 0 <= j < k == j + 1 < |ranges|
        ensures ranges[k].start == ranges[j].end + 1
      {
        assert ranges[j] == front[j];
        assert k < |front| ==> ranges[k] == front[k];
      }
      forall k | 0 <= k < |ranges|
        ensures ranges[k].start <= ranges[k].end < n
      {
        assert k < |front| ==> ranges[k] == front[k];
      }
    }
  }

  /** Every word lies in some range. */
  lemma {:induction false} RangeOf(ranges: seq<Range>, n: nat, w: nat) returns (k: nat)
    requires Tiles(ranges, n) && w < n
    ensures k < |ranges| && ranges[k].start <= w <= ranges[k].end
  {
    var last := ranges[|ranges| - 1];
    if last.start <= w {
      k := |ranges| - 1;
    } else {
      k := RangeOf(ranges[..|ranges| - 1], last.start, w);
    }
  }
}
