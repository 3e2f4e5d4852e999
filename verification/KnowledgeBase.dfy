/**
 * The knowledge base: an ordered sequence of records loaded once at startup
 * and only read afterwards, and the extraction of the selected records'
 * contents.
 */
module KnowledgeBase {
  import opened Selection

  /** One entry of the knowledge base; its identity is its position in the store. */
  datatype Record = Record(content: string, vector: seq<real>)

  /** The contents of all records, in store order. */
  function Contents(kb: seq<Record>): (r: seq<string>)
    ensures |r| == |kb|
    ensures forall k :: 0 <= k < |kb| ==> r[k] == kb[k].content
  {
    if kb == [] then [] else [kb[0].content] + Contents(kb[1..])
  }

  /**
   * The contexts handed to the prompt: the content of each selected record,
   * in selection order (duplicates and all; nothing is reordered or dropped).
   */
  function Contexts(kb: seq<Record>, sel: seq<nat>): (r: seq<string>)
    requires InRange(sel, |kb|)
    ensures |r| == |sel|
    ensures forall k :: 0 <= k < |sel| ==> r[k] == kb[sel[k]].content
  {
    if sel == [] then [] else [kb[sel[0]].content] + Contexts(kb, sel[1..])
  }

  /**
   * In the fallback path the contexts are exactly the contents of the first
   * min(3, n) records of the store, so an empty store gives no contexts.
   */
  lemma FallbackContextsArePrefix(kb: seq<Record>)
    ensures Contexts(kb, FallbackSelection(|kb|)) == Contents(kb[..Min(TopK, |kb|)])
    ensures kb == [] ==> Contexts(kb, FallbackSelection(|kb|)) == []
  {
    LeadingContexts(kb, FallbackSelection(|kb|));
  }

  /** Selecting the indices 0, 1, ..., m-1 gives the contents of the first m records. */
  lemma LeadingContexts(kb: seq<Record>, sel: seq<nat>)
    requires |sel| <= |kb| && forall k :: 0 <= k < |sel| ==> sel[k] == k
    ensures Contexts(kb, sel) == Contents(kb[..|sel|])
  {
    var c := Contexts(kb, sel);
    var p := Contents(kb[..|sel|]);
    forall k | 0 <= k < |sel|
      ensures c[k] == p[k]
    {
    }
  }
}
