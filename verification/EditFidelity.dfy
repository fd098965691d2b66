/** Edits that leave room for split words keep captions faithful (packages/core/src/patch.ts, packages/core/src/qa.ts). */
module EditFidelity {
  import opened Common
  import opened Transcript
  import opened StylePatch
  import opened Captions
  import opened Edits
  import opened EditTiming
  import opened Qa

  /** A split leaves room for its pieces before the next word; other operations need nothing. */
  predicate OpFits(words: seq<Word>, op: Op) {
    op.ReplaceWordText? && IndexOf(words, op.wordId).Some? && |op.tokens| > 0 && TotalChars(op.tokens) > 0 ==>
      Fits(words, IndexOf(words, op.wordId).value, op.tokens)
  }

  /** So does every operation from position i on, where it is applied. */
  ghost predicate AllFit(cfg: Config, newId: nat -> string, w: Work, ops: seq<Op>, i: nat)
    requires Sound(cfg, w) && ValidOps(cfg, ops) && i <= |ops|
    decreases |ops| - i
  {
    i < |ops| ==>
      && OpFits(w.state.words, ops[i])
      && var r := SoundStep(cfg, newId, w, ops[i]);
         r.Ok? ==> AllFit(cfg, newId, r.value, ops, i + 1)
  }

  /** And in every request of a history. */
  ghost predicate HistoryFits(cfg: Config, newId: nat -> string, st: State, issued: nat, requests: seq<seq<Op>>, n: nat)
    requires n <= |requests| && Request(cfg, st, []) && forall k :: 0 <= k < |requests| ==> ValidOps(cfg, requests[k])
  {
    n > 0 ==>
      && HistoryFits(cfg, newId, st, issued, requests, n - 1)
      && var (s, next) := History(cfg, newId, st, issued, requests, n - 1);
         AllFit(cfg, newId, Start(s, next), requests[n - 1], 0)
  }

  lemma StepKeepsOrder(cfg: Config, newId: nat -> string, w: Work, op: Op)
    requires Sound(cfg, w) && ValidOp(cfg, op) && Ordered(w.state.words) && OpFits(w.state.words, op)
    ensures var r := SoundStep(cfg, newId, w, op); r.Ok? ==> Ordered(r.value.state.words)
  {
    if Step(cfg, newId, w, op).Ok? {
      EditKeepsOrder(cfg, newId, w, op);
    }
  }

  lemma {:induction false} RunKeepsOrder(cfg: Config, newId: nat -> string, w: Work, ops: seq<Op>, i: nat)
    requires Sound(cfg, w) && ValidOps(cfg, ops) && i <= |ops| && Ordered(w.state.words) && AllFit(cfg, newId, w, ops, i)
    ensures var r := RunFrom(cfg, newId, w, ops, i); r.Ok? ==> Ordered(r.value.state.words)
    decreases |ops| - i
  {
    if i < |ops| {
      StepKeepsOrder(cfg, newId, w, ops[i]);
      var r := SoundStep(cfg, newId, w, ops[i]);
      if r.Ok? {
        RunKeepsOrder(cfg, newId, r.value, ops, i + 1);
      }
    }
  }

  lemma RequestKeepsOrder(cfg: Config, newId: nat -> string, st: State, issued: nat, ops: seq<Op>)
    requires Request(cfg, st, ops) && Ordered(st.words) && AllFit(cfg, newId, Start(st, issued), ops, 0)
    ensures var r := Patched(cfg, newId, st, issued, ops); r.Ok? ==> Ordered(r.value.state.words)
  {
    RunKeepsOrder(cfg, newId, Start(st, issued), ops, 0);
  }

  lemma {:induction false} HistoryKeepsOrder(cfg: Config, newId: nat -> string, st: State, issued: nat, requests: seq<seq<Op>>, n: nat)
    requires n <= |requests| && Request(cfg, st, []) && (forall k :: 0 <= k < |requests| ==> ValidOps(cfg, requests[k]))
    requires Ordered(st.words) && HistoryFits(cfg, newId, st, issued, requests, n)
    ensures Ordered(History(cfg, newId, st, issued, requests, n).0.words)
  {
    if n > 0 {
      HistoryKeepsOrder(cfg, newId, st, issued, requests, n - 1);
      var (s, next) := History(cfg, newId, st, issued, requests, n - 1);
      RequestKeepsOrder(cfg, newId, s, next, requests[n - 1]);
    }
  }

  lemma CreatedCanBeEdited(cfg: Config, title: string, words: seq<Word>, style: Style, segmentation: Params,
                           language: Option<string>, seed: string)
    requires ValidConfig(cfg) && ValidStyle(cfg, style) && Usable(segmentation)
    ensures Request(cfg, Created(cfg, title, words, style, segmentation, language, seed), [])
  {
    CreatedIsConsistent(cfg, title, words, style, segmentation, language, seed);
    ConsistentNames(cfg, Created(cfg, title, words, style, segmentation, language, seed));
  }

  /**
   * From a new state with ordered words, any history of requests in which every split leaves room ends with ordered words
   * and faithful captions; requests that are rejected on the way do not matter.
   */
  lemma FittingHistoryIsFaithful(cfg: Config, newId: nat -> string, title: string, words: seq<Word>, style: Style,
                                 segmentation: Params, language: Option<string>, seed: string, requests: seq<seq<Op>>)
    requires ValidConfig(cfg) && ValidStyle(cfg, style) && Usable(segmentation) && Ordered(words)
    requires forall k :: 0 <= k < |requests| ==> ValidOps(cfg, requests[k])
    requires (CreatedCanBeEdited(cfg, title, words, style, segmentation, language, seed);
             HistoryFits(cfg, newId, Created(cfg, title, words, style, segmentation, language, seed), 0, requests, |requests|))
    ensures var st := History(cfg, newId, Created(cfg, title, words, style, segmentation, language, seed), 0, requests, |requests|).0;
            Ordered(st.words) && SchemaPages(st.pages) && Faithful(st.words, st.pages)
  {
    var st0 := Created(cfg, title, words, style, segmentation, language, seed);
    HistoryKeepsOrder(cfg, newId, st0, 0, requests, |requests|);
    OrderedDoNotOverlap(History(cfg, newId, st0, 0, requests, |requests|).0.words);
    HistoryIsFaithful(cfg, newId, title, words, style, segmentation, language, seed, requests);
  }
}
