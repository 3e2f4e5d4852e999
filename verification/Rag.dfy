/**
 * The retrieval-and-assembly step of answering a question: choose between the
 * ranked path and the fallback, select record indices, extract their
 * contents, join them with newlines and fill in the prompt. The call to the
 * answer generator that follows is not part of this model; GetRagPrompt
 * returns everything that is sent to it.
 */
module Rag {
  import opened Wrappers
  import opened Selection
  import opened KnowledgeBase
  import opened Assembly
  import opened Prompt

  datatype Path = Ranked | Fallback

  /** The loaded sentence-embedding model; only its presence matters here. */
  datatype EmbeddingModel = EmbeddingModel(name: string)

  const ModelName: string := "all-MiniLM-L6-v2"

  /**
   * The model as set up at startup: loaded only when the embedding library
   * could be imported and loading it raised nothing; absent otherwise.
   */
  function LoadModel(transformerImported: bool, loadSucceeded: bool): (m: Option<EmbeddingModel>)
    ensures m.Some? <==> transformerImported && loadSucceeded
    ensures m.Some? ==> m.value.name == ModelName
  {
    if transformerImported && loadSucceeded then Some(EmbeddingModel(ModelName)) else None
  }

  /** The ranked path is taken exactly when the library imported and a model is present. */
  function ChoosePath(transformerImported: bool, model: Option<EmbeddingModel>): (p: Path)
    ensures p == Ranked <==> transformerImported && model.Some?
  {
    if transformerImported && model.Some? then Ranked else Fallback
  }

  /** From startup state: ranked retrieval happens exactly when import and model load both succeeded. */
  lemma StartupPath(transformerImported: bool, loadSucceeded: bool)
    ensures ChoosePath(transformerImported, LoadModel(transformerImported, loadSucceeded)) == Ranked
      <==> transformerImported && loadSucceeded
  {
  }

  /**
   * What the numeric library yields for one query: a similarity score per
   * record and an ascending argsort of those scores (ties in any order).
   */
  datatype Ranking = Ranking(scores: seq<real>, order: seq<nat>)

  /** A ranking for a non-empty store of `n` records. */
  predicate ValidRanking(ranking: Ranking, n: nat)
  {
    n >= 1 && |ranking.scores| == n && IsAscendingArgsort(ranking.scores, ranking.order)
  }

  /**
   * The selected record indices: the ranked path gives a top-3 selection by
   * score, the fallback the indices 0 .. min(3, n)-1 in store order.
   */
  function SelectIndices(path: Path, n: nat, ranking: Ranking): (sel: seq<nat>)
    requires path == Ranked ==> ValidRanking(ranking, n)
    ensures |sel| == Min(TopK, n) && InRange(sel, n) && Distinct(sel)
    ensures path == Ranked ==> IsTopK(ranking.scores, sel, TopK)
    ensures path == Fallback ==> forall k :: 0 <= k < |sel| ==> sel[k] == k
  {
    match path
    case Ranked =>
      RankedSelectionIsTopK(ranking.scores, ranking.order);
      RankedSelection(ranking.order)
    case Fallback =>
      FallbackSelection(n)
  }

  /** The intermediate values of one retrieval and the prompt built from them. */
  datatype RagPrompt = RagPrompt(selected: seq<nat>, contexts: seq<string>, combined: string, prompt: string)

  /**
   * The prompt for `query`. The selection is a top-3 by score on the ranked
   * path and the store's first records on the fallback; the contexts are the
   * selected records' contents in selection order; the combined context is
   * their newline join, whose lines are the contexts when none holds a
   * newline; the prompt carries that combined context and the query unchanged.
   */
  function GetRagPrompt(query: string, kb: seq<Record>, transformerImported: bool,
                        model: Option<EmbeddingModel>, ranking: Ranking): (r: RagPrompt)
    requires ChoosePath(transformerImported, model) == Ranked ==> ValidRanking(ranking, |kb|)
    ensures |r.selected| == Min(TopK, |kb|) && InRange(r.selected, |kb|) && Distinct(r.selected)
    ensures ChoosePath(transformerImported, model) == Ranked ==> IsTopK(ranking.scores, r.selected, TopK)
    ensures ChoosePath(transformerImported, model) == Fallback ==> r.contexts == Contents(kb[..Min(TopK, |kb|)])
    ensures |r.contexts| == |r.selected|
    ensures forall k :: 0 <= k < |r.selected| ==> r.contexts[k] == kb[r.selected[k]].content
    ensures r.combined == Join(r.contexts)
    ensures |r.contexts| >= 1 && NoNewlines(r.contexts) ==> Split(r.combined) == r.contexts
    ensures ParsePrompt(r.prompt, |r.combined|) == Some((r.combined, query))
  {
    var path := ChoosePath(transformerImported, model);
    var selected := SelectIndices(path, |kb|, ranking);
    var contexts := Contexts(kb, selected);
    var combined := Join(contexts);
    var prompt := BuildPrompt(combined, ActualQuery(query));
    assert path == Fallback ==> contexts == Contents(kb[..Min(TopK, |kb|)]) by {
      if path == Fallback {
        LeadingContexts(kb, selected);
      }
    }
    assert |contexts| >= 1 && NoNewlines(contexts) ==> Split(combined) == contexts by {
      if |contexts| >= 1 && NoNewlines(contexts) {
        SplitJoin(contexts);
      }
    }
    ParseBuild(combined, query);
    RagPrompt(selected, contexts, combined, prompt)
  }

  /**
   * Two records, the first scoring strictly higher: whichever argsort the
   * library returns, the ranked selection is [0, 1] and the combined context is
   * the first record's content, a newline, then the second's.
   */
  lemma TwoRecordExample(scores: seq<real>, order: seq<nat>, first: Record, second: Record)
    requires |scores| == 2 && scores[0] > scores[1] && IsAscendingArgsort(scores, order)
    ensures RankedSelection(order) == [0, 1]
    ensures Join(Contexts([first, second], RankedSelection(order))) == first.content + [Newline] + second.content
  {
    TwoRecordOrder(scores, order);
    var c := Contexts([first, second], RankedSelection(order));
    assert c[1..] == [second.content];
  }

  /** With two scores, the first strictly higher, the only ascending argsort is [1, 0]. */
  lemma TwoRecordOrder(scores: seq<real>, order: seq<nat>)
    requires |scores| == 2 && scores[0] > scores[1] && IsAscendingArgsort(scores, order)
    ensures order == [1, 0]
  {
    assert 0 in order && 1 in order;
    assert order[0] != order[1];
    assert scores[order[0]] <= scores[order[1]];
  }
}
