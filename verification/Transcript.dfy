/** Words, pages and segmentation parameters (packages/contracts/src). */
module Transcript {
  import opened Common

  /** Timings are integer milliseconds. */
  datatype Word = Word(id: string, text: string, startMs: int, endMs: int, speaker: Option<string>, edited: bool)

  datatype Line = Line(startWordIndex: nat, endWordIndex: int, text: string)

  datatype Page = Page(id: string, index: nat, startWordIndex: nat, endWordIndex: int, startMs: int, endMs: int,
                       lines: seq<Line>, text: string, manual: bool)

  datatype Params = Params(maxCharsPerPage: int, maxLinesPerPage: int, maxCharsPerLine: int, maxPageDurationMs: int,
                           minPageDurationMs: int, maxWordsPerPage: int, pauseBreakMs: int, targetCps: real,
                           maxCps: real, tailPaddingMs: int)

  /** The bounds of the segmentation schema. */
  predicate ValidParams(p: Params) {
    p.maxCharsPerPage >= 12 && Usable(p)
  }

  /** What parameters derived from a valid style satisfy: the schema, but for the lower bound on a page. */
  predicate Usable(p: Params) {
    && 10 <= p.maxCharsPerPage <= 120 && 1 <= p.maxLinesPerPage <= 3 && 10 <= p.maxCharsPerLine <= 60
    && 800 <= p.maxPageDurationMs <= 10000 && 200 <= p.minPageDurationMs <= 3000 && 1 <= p.maxWordsPerPage <= 30
    && 80 <= p.pauseBreakMs <= 2000 && 8.0 <= p.targetCps <= 30.0 && 10.0 <= p.maxCps <= 40.0
    && 0 <= p.tailPaddingMs <= 1000
  }

  /**
   * What the engine takes from outside: the boundary score before a word (word lists and regular expressions in the
   * source) and the page id derived from seed, first and last word (a hash in the source).
   */
  datatype Oracle = Oracle(boundary: (seq<Word>, nat, Params) -> real, pageId: (string, nat, int) -> string)

  function Texts(words: seq<Word>): (r: seq<string>)
    ensures |r| == |words| && forall k :: 0 <= k < |r| ==> r[k] == words[k].text
  {
    seq(|words|, k requires 0 <= k < |words| => words[k].text)
  }

  /** Texts joined by single spaces. */
  function Join(texts: seq<string>): string {
    if texts == [] then ""
    else if |texts| == 1 then texts[0]
    else Join(texts[..|texts| - 1]) + " " + texts[|texts| - 1]
  }

  /** Words follow each other without overlap, none ending before it starts. */
  ghost predicate NonOverlapping(words: seq<Word>) {
    && (forall k :: 0 <= k < |words| ==> words[k].startMs <= words[k].endMs)
    && (forall j, k :: 0 <= j < k == j + 1 < |words| ==> words[j].endMs <= words[k].startMs)
  }
}
