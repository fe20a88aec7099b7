/** The retrieval tool exposed to the agent (src/rag/toolset.py): it runs the vector
    search and records one citation per retrieved fragment in the turn's quote list. */
module RagToolset {
  import opened Types
  import opened VectorRag

  /** One citation per pair, in order: the fragment's document id as author and its
      text as text. The distance is not used. */
  function CitationsOf(result: seq<(DocumentFragment, real)>): seq<Quote> {
    seq(|result|, i requires 0 <= i < |result| => Citation(result[i].0.documentId, result[i].0.fragmentText))
  }

  /** The citations depend only on the fragments: results that differ only in their
      distances give the same citations. */
  lemma CitationsIgnoreDistance(r1: seq<(DocumentFragment, real)>, r2: seq<(DocumentFragment, real)>)
    requires |r1| == |r2|
    requires forall i :: 0 <= i < |r1| ==> r1[i].0 == r2[i].0
    ensures CitationsOf(r1) == CitationsOf(r2)
  {
  }

  /** The citation loop: appends, never rewrites, the quotes already recorded. */
  method AppendCitations(deps: Dependencies, result: seq<(DocumentFragment, real)>)
    modifies deps
    ensures deps.quotes == old(deps.quotes) + CitationsOf(result)
  {
    var i := 0;
    while i < |result|
      invariant 0 <= i <= |result|
      invariant deps.quotes == old(deps.quotes) + CitationsOf(result[..i])
    {
      var document := result[i].0;
      assert CitationsOf(result[..i + 1]) == CitationsOf(result[..i]) + [Citation(document.documentId, document.fragmentText)];
      deps.quotes := deps.quotes + [Citation(document.documentId, document.fragmentText)];
      i := i + 1;
    }
    assert result[..|result|] == result;
  }

  /** `query_rag`: the search result is returned unchanged, and the quote list grows by
      exactly one citation per pair, after the quotes it already held. */
  method QueryRag(deps: Dependencies, input: SearchQuery, embed: string -> EmbedResponse,
                  run: SearchRequest -> seq<ResultRow>)
    returns (result: seq<(DocumentFragment, real)>, issued: seq<SearchRequest>)
    modifies deps
    ensures result == SearchResult(deps.env, input, embed, run)
    ensures |deps.quotes| == |old(deps.quotes)| + |result|
    ensures deps.quotes[..|old(deps.quotes)|] == old(deps.quotes)
    ensures forall i :: 0 <= i < |result| ==>
              deps.quotes[|old(deps.quotes)| + i] == Citation(result[i].0.documentId, result[i].0.fragmentText)
  {
    result, issued := RetrieveWithVectorSearch(deps.env, input, embed, run);
    AppendCitations(deps, result);
  }
}
