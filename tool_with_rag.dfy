/** The in-memory retrieval tool (src/tools/tool_with_RAG.py): fragments loaded from the
    warehouse into a list of documents, ranked against a query by an external similarity
    score, filtered by a threshold, sorted by descending score with a stable sort and cut
    to `top_k`; the selected fragments are numbered into a context prompt for generation.

    The embedding service, the similarity measure and the generation model are
    parameters: `embed` maps a query to its vector, `sim` scores two vectors, `generate`
    returns the text of a generation (None when the response has no text). */
module InMemoryRag {
  import opened Wrappers
  import opened Strings
  import StableSort

  datatype Metadata = Metadata(documentId: string, createdAt: Option<string>)

  datatype Document = Document(
    id: string,
    content: string,
    embedding: Option<seq<real>>,
    metadata: Metadata)

  /** One row of the fragments query; `createdAt` is already in ISO form when present. */
  datatype FragmentRow = FragmentRow(
    documentId: string,
    fragmentText: string,
    embedding: Option<seq<real>>,
    createdAt: Option<string>)

  datatype RAGQuery = RAGQuery(query: string, topK: int, similarityThreshold: real)

  datatype RAGResponse = RAGResponse(
    answer: string,
    relevantDocuments: seq<Document>,
    similarityScores: seq<real>,
    contextUsed: string)

  /** The sampling settings every generation request carries. */
  datatype GenerationConfig = GenerationConfig(temperature: real, topP: real, topK: int, maxOutputTokens: int)

  const Generation := GenerationConfig(0.3, 0.8, 40, 1024)

  const NoAnswer := "No se pudo generar una respuesta."

  // ---------------------------------------------------------------------------
  // Loading

  /** The document the load builds from the row at index `count`. */
  function DocumentOfRow(row: FragmentRow, count: nat): Document {
    Document(row.documentId + "_" + NatToString(count), row.fragmentText, row.embedding,
             Metadata(row.documentId, row.createdAt))
  }

  function DocumentsOfRows(rows: seq<FragmentRow>): seq<Document> {
    seq(|rows|, i requires 0 <= i < |rows| => DocumentOfRow(rows[i], i))
  }

  /** The ids of one load are pairwise distinct, whatever the document ids: the number
      after the last `_` is the row index. */
  lemma LoadedIdsDistinct(rows: seq<FragmentRow>, i: nat, j: nat)
    requires i < |rows| && j < |rows| && i != j
    ensures DocumentsOfRows(rows)[i].id != DocumentsOfRows(rows)[j].id
  {
    var a, b := NatToString(i), NatToString(j);
    assert '_' !in a by {
      forall k | 0 <= k < |a| ensures a[k] != '_' { }
    }
    assert '_' !in b by {
      forall k | 0 <= k < |b| ensures b[k] != '_' { }
    }
    LastSegmentAfter(rows[i].documentId, '_', a);
    LastSegmentAfter(rows[j].documentId, '_', b);
    assert DocumentsOfRows(rows)[i].id == rows[i].documentId + ['_'] + a;
    assert DocumentsOfRows(rows)[j].id == rows[j].documentId + ['_'] + b;
    if a == b {
      NatToStringInjective(i, j);
    }
  }

  // ---------------------------------------------------------------------------
  // Ranking

  /** Python truthiness of the embedding: present and non-empty. */
  predicate HasEmbedding(d: Document) {
    d.embedding.Some? && |d.embedding.value| > 0
  }

  /** The (document, score) pairs of the similarity loop, in document order. */
  function Scored(ds: seq<Document>, qe: seq<real>, sim: (seq<real>, seq<real>) -> real): seq<(Document, real)>
    decreases |ds|
  {
    if |ds| == 0 then []
    else
      var last := ds[|ds| - 1];
      Scored(ds[..|ds| - 1], qe, sim)
        + (if HasEmbedding(last) then [(last, sim(qe, last.embedding.value))] else [])
  }

  /** The pairs whose score reaches the threshold, in order. */
  function AboveThreshold(ps: seq<(Document, real)>, threshold: real): seq<(Document, real)>
    decreases |ps|
  {
    if |ps| == 0 then []
    else (if ps[0].1 >= threshold then [ps[0]] else []) + AboveThreshold(ps[1..], threshold)
  }

  /** Sorting by this key ascending is sorting by score descending. */
  function ScoreKey(p: (Document, real)): real {
    -p.1
  }

  /** Python's `s[:k]`: a negative `k` counts from the end. */
  function PySliceTo<T>(s: seq<T>, k: int): (r: seq<T>)
    ensures |r| <= |s| && r == s[..|r|]
    ensures k >= 0 ==> |r| == (if k <= |s| then k else |s|)
    ensures k < 0 ==> |r| == (if |s| + k >= 0 then |s| + k else 0)
  {
    if k >= 0 then s[..if k <= |s| then k else |s|]
    else s[..if |s| + k >= 0 then |s| + k else 0]
  }

  /** The scored documents that reach the threshold. */
  function Candidates(ds: seq<Document>, qe: seq<real>, threshold: real,
                      sim: (seq<real>, seq<real>) -> real): seq<(Document, real)>
  {
    AboveThreshold(Scored(ds, qe, sim), threshold)
  }

  /** The candidates by descending score (stable), cut to `topK`. */
  function Selected(ds: seq<Document>, qe: seq<real>, topK: int, threshold: real,
                    sim: (seq<real>, seq<real>) -> real): seq<(Document, real)>
  {
    PySliceTo(StableSort.SortBy(Candidates(ds, qe, threshold, sim), ScoreKey), topK)
  }

  function Firsts(ps: seq<(Document, real)>): seq<Document> {
    seq(|ps|, i requires 0 <= i < |ps| => ps[i].0)
  }

  function Seconds(ps: seq<(Document, real)>): seq<real> {
    seq(|ps|, i requires 0 <= i < |ps| => ps[i].1)
  }

  lemma {:induction false} ScoredMember(ds: seq<Document>, qe: seq<real>, sim: (seq<real>, seq<real>) -> real,
                                        p: (Document, real))
    ensures p in Scored(ds, qe, sim)
            <==> p.0 in ds && HasEmbedding(p.0) && p.1 == sim(qe, p.0.embedding.value)
    decreases |ds|
  {
    if |ds| > 0 {
      var init := ds[..|ds| - 1];
      ScoredMember(init, qe, sim, p);
      assert ds == init + [ds[|ds| - 1]];
    }
  }

  lemma {:induction false} AboveThresholdMember(ps: seq<(Document, real)>, threshold: real, p: (Document, real))
    ensures p in AboveThreshold(ps, threshold) <==> p in ps && p.1 >= threshold
    decreases |ps|
  {
    if |ps| > 0 {
      AboveThresholdMember(ps[1..], threshold, p);
      assert ps == [ps[0]] + ps[1..];
    }
  }

  /** A pair is a candidate exactly when it scores a loaded document with an embedding
      and reaches the threshold: no such document is missed, and no other gets in. */
  lemma CandidateIff(ds: seq<Document>, qe: seq<real>, threshold: real,
                     sim: (seq<real>, seq<real>) -> real, p: (Document, real))
    ensures p in Candidates(ds, qe, threshold, sim)
            <==> && p.0 in ds && HasEmbedding(p.0)
                 && p.1 == sim(qe, p.0.embedding.value) && p.1 >= threshold
  {
    AboveThresholdMember(Scored(ds, qe, sim), threshold, p);
    ScoredMember(ds, qe, sim, p);
  }

  /** Every selected pair is a candidate: a loaded document with an embedding, its
      score, and a score at or above the threshold. */
  lemma SelectedSound(ds: seq<Document>, qe: seq<real>, topK: int, threshold: real,
                      sim: (seq<real>, seq<real>) -> real)
    ensures forall p :: p in Selected(ds, qe, topK, threshold, sim) ==>
              && p.0 in ds && HasEmbedding(p.0)
              && p.1 == sim(qe, p.0.embedding.value) && p.1 >= threshold
  {
    var cands := Candidates(ds, qe, threshold, sim);
    var sorted := StableSort.SortBy(cands, ScoreKey);
    StableSort.SortByOrderedPermutation(cands, ScoreKey);
    forall p | p in Selected(ds, qe, topK, threshold, sim)
      ensures && p.0 in ds && HasEmbedding(p.0)
              && p.1 == sim(qe, p.0.embedding.value) && p.1 >= threshold
    {
      assert p in sorted;
      assert p in multiset(sorted);
      CandidateIff(ds, qe, threshold, sim, p);
    }
  }

  /** The selection is in non-increasing score order and holds at most `topK` pairs
      (for a negative `topK`, all but the last `-topK` candidates). */
  lemma SelectedOrderedAndBounded(ds: seq<Document>, qe: seq<real>, topK: int, threshold: real,
                                  sim: (seq<real>, seq<real>) -> real)
    ensures var sel := Selected(ds, qe, topK, threshold, sim);
            var n := |Candidates(ds, qe, threshold, sim)|;
            && (forall i, j :: 0 <= i < j < |sel| ==> sel[i].1 >= sel[j].1)
            && (topK >= 0 ==> |sel| == if topK <= n then topK else n)
            && (topK < 0 ==> |sel| == if n + topK >= 0 then n + topK else 0)
  {
    var cands := Candidates(ds, qe, threshold, sim);
    var sorted := StableSort.SortBy(cands, ScoreKey);
    StableSort.SortByOrderedPermutation(cands, ScoreKey);
    assert |sorted| == |cands| by {
      assert |multiset(sorted)| == |multiset(cands)|;
    }
    var sel := Selected(ds, qe, topK, threshold, sim);
    forall i, j | 0 <= i < j < |sel| ensures sel[i].1 >= sel[j].1 {
      assert sel[i] == sorted[i] && sel[j] == sorted[j];
      assert ScoreKey(sorted[i]) <= ScoreKey(sorted[j]);
    }
  }

  /** The selection is a top-k: every candidate left out scores no higher than any
      selected pair. */
  lemma SelectedIsTopK(ds: seq<Document>, qe: seq<real>, topK: int, threshold: real,
                       sim: (seq<real>, seq<real>) -> real)
    ensures var cands := Candidates(ds, qe, threshold, sim);
            var sel := Selected(ds, qe, topK, threshold, sim);
            && multiset(sel) <= multiset(cands)
            && forall p: (Document, real), q: (Document, real) ::
                 p in multiset(cands) - multiset(sel) && q in sel ==> p.1 <= q.1
  {
    var cands := Candidates(ds, qe, threshold, sim);
    var sorted := StableSort.SortBy(cands, ScoreKey);
    var sel := Selected(ds, qe, topK, threshold, sim);
    StableSort.SortByOrderedPermutation(cands, ScoreKey);
    PrefixIsTop(sorted, |sel|);
    assert sel == sorted[..|sel|];
  }

  /** In a sequence sorted by descending score, a prefix holds the highest scores. */
  lemma PrefixIsTop(sorted: seq<(Document, real)>, n: nat)
    requires StableSort.Sorted(sorted, ScoreKey)
    requires n <= |sorted|
    ensures multiset(sorted[..n]) <= multiset(sorted)
    ensures forall p: (Document, real), q: (Document, real) ::
              p in multiset(sorted) - multiset(sorted[..n]) && q in sorted[..n] ==> p.1 <= q.1
  {
    var sel, rest := sorted[..n], sorted[n..];
    assert sorted == sel + rest;
    assert multiset(sorted) == multiset(sel) + multiset(rest);
    forall p: (Document, real), q: (Document, real) | p in multiset(sorted) - multiset(sel) && q in sel
      ensures p.1 <= q.1
    {
      assert p in multiset(rest);
      var a :| 0 <= a < |rest| && rest[a] == p;
      var b :| 0 <= b < |sel| && sel[b] == q;
      assert sorted[b] == q && sorted[n + a] == p;
      assert ScoreKey(sorted[b]) <= ScoreKey(sorted[n + a]);
    }
  }

  /** Ties keep load order: for every score, the selected pairs with that score are the
      first ones with that score among the candidates, in candidate order. */
  lemma SelectedStable(ds: seq<Document>, qe: seq<real>, topK: int, threshold: real,
                       sim: (seq<real>, seq<real>) -> real, score: real)
    ensures var cands := Candidates(ds, qe, threshold, sim);
            var sel := Selected(ds, qe, topK, threshold, sim);
            var tied := StableSort.KeyClass(sel, ScoreKey, -score);
            && |tied| <= |StableSort.KeyClass(cands, ScoreKey, -score)|
            && tied == StableSort.KeyClass(cands, ScoreKey, -score)[..|tied|]
  {
    var cands := Candidates(ds, qe, threshold, sim);
    var sorted := StableSort.SortBy(cands, ScoreKey);
    var sel := Selected(ds, qe, topK, threshold, sim);
    StableSort.SortByStable(cands, ScoreKey, -score);
    StableSort.KeyClassOfPrefix(sorted, |sel|, ScoreKey, -score);
  }

  // ---------------------------------------------------------------------------
  // Prompt

  /** The fixed text of a context prompt: what comes before the numbered documents,
      between them and the query, after the query, and what follows the query when no
      document was retrieved. */
  datatype PromptTemplate = PromptTemplate(head: string, beforeQuery: string, tail: string,
                                           noDocsHead: string, noDocsNote: string)

  /** The template of `_create_context_prompt`, word for word. */
  const RagPrompt := PromptTemplate(
    "Basándote en los siguientes documentos, responde la consulta del usuario de manera precisa y completa. \nSi la información no está en los documentos, indícalo claramente.\n\nDocumentos de referencia:\n",
    "\n\nConsulta del usuario: ",
    "\n\nInstrucciones:\n1. Responde únicamente basándote en la información proporcionada en los documentos\n2. Cita específicamente qué documentos usaste para cada parte de tu respuesta\n3. Si la consulta no puede ser respondida con los documentos disponibles, indícalo claramente\n4. Proporciona una respuesta estructurada y bien organizada\n\nRespuesta:",
    "Consulta: ",
    "\n\nNo se encontraron documentos relevantes para responder esta consulta.")

  /** The numbered block for the document at 1-based position `n`. */
  function ContextPart(n: nat, d: Document): string {
    "Documento " + NatToString(n) + ":\n" + d.content + "\n"
  }

  function ContextParts(docs: seq<Document>): seq<string> {
    seq(|docs|, i requires 0 <= i < |docs| => ContextPart(i + 1, docs[i]))
  }

  /** `_create_context_prompt` over a template: the query with the no-documents note,
      or the numbered documents joined with newlines between the head and the query. */
  function CreateContextPrompt(t: PromptTemplate, query: string, docs: seq<Document>): string {
    if |docs| == 0 then t.noDocsHead + query + t.noDocsNote
    else t.head + Join("\n", ContextParts(docs)) + t.beforeQuery + query + t.tail
  }

  /** Whatever the template and the documents, the prompt contains the query, right
      after the fixed text that introduces it. */
  lemma PromptHasQuery(t: PromptTemplate, query: string, docs: seq<Document>)
    ensures |docs| == 0 ==> OccursAt(CreateContextPrompt(t, query, docs), query, |t.noDocsHead|)
    ensures |docs| > 0 ==>
              OccursAt(CreateContextPrompt(t, query, docs), query,
                       |t.head| + |Join("\n", ContextParts(docs))| + |t.beforeQuery|)
    ensures Contains(CreateContextPrompt(t, query, docs), query)
  {
    assert OccursAt(query, query, 0);
    if |docs| == 0 {
      OccursAtShift(t.noDocsHead, query, query, 0);
      OccursAtExtend(t.noDocsHead + query, query, |t.noDocsHead|, t.noDocsNote);
    } else {
      var a := t.head + Join("\n", ContextParts(docs)) + t.beforeQuery;
      OccursAtShift(a, query, query, 0);
      OccursAtExtend(a + query, query, |a|, t.tail);
    }
  }

  /** An occurrence inside the middle piece of a prompt laid out as head, body, middle,
      query and tail, for any pieces. */
  lemma PromptOccursAt(head: string, body: string, mid: string, query: string, tail: string, t: string, k: int)
    requires OccursAt(body, t, k)
    ensures OccursAt(head + body + mid + query + tail, t, |head| + k)
  {
    OccursAtShift(head, body, t, k);
    OccursAtExtend(head + body, t, |head| + k, mid);
    OccursAtExtend(head + body + mid, t, |head| + k, query);
    OccursAtExtend(head + body + mid + query, t, |head| + k, tail);
  }

  /** With documents, the prompt holds the block "Documento i:", newline, the i-th
      content, newline, for every i from 1, at its offset in the join. */
  lemma PromptNumbersDocuments(t: PromptTemplate, query: string, docs: seq<Document>, i: nat)
    requires i < |docs|
    ensures ContextParts(docs)[i] == "Documento " + NatToString(i + 1) + ":\n" + docs[i].content + "\n"
    ensures OccursAt(CreateContextPrompt(t, query, docs), ContextParts(docs)[i],
                     |t.head| + JoinOffset("\n", ContextParts(docs), i))
  {
    var parts := ContextParts(docs);
    JoinPartAt("\n", parts, i);
    PromptOccursAt(t.head, Join("\n", parts), t.beforeQuery, query, t.tail, parts[i], JoinOffset("\n", parts, i));
  }

  /** The blocks come in input order, consecutive blocks one newline apart. */
  lemma PromptDocumentsInOrder(docs: seq<Document>, i: nat)
    requires i + 1 < |docs|
    ensures JoinOffset("\n", ContextParts(docs), i + 1)
            == JoinOffset("\n", ContextParts(docs), i) + |ContextPart(i + 1, docs[i])| + 1
    ensures OccursAt(Join("\n", ContextParts(docs)), "\n", JoinOffset("\n", ContextParts(docs), i) + |ContextPart(i + 1, docs[i])|)
  {
    JoinOffsetNext("\n", ContextParts(docs), i);
    JoinSeparatorAt("\n", ContextParts(docs), i);
  }

  // ---------------------------------------------------------------------------
  // The tool

  class RAGTool {
    var documents: seq<Document>

    /** The template every query's prompt is built from. */
    const prompt: PromptTemplate

    constructor()
      ensures documents == [] && prompt == RagPrompt
    {
      documents := [];
      prompt := RagPrompt;
    }

    /** Appends one document per row, in row order, numbered from 0 within this load. */
    method LoadDocumentsFromBigQuery(rows: seq<FragmentRow>)
      modifies this
      ensures documents == old(documents) + DocumentsOfRows(rows)
    {
      var count := 0;
      while count < |rows|
        invariant 0 <= count <= |rows|
        invariant documents == old(documents) + DocumentsOfRows(rows)[..count]
      {
        var row := rows[count];
        documents := documents + [DocumentOfRow(row, count)];
        count := count + 1;
      }
    }

    /** The similarity loop over the loaded documents. */
    method ScoreDocuments(qe: seq<real>, sim: (seq<real>, seq<real>) -> real)
      returns (similarities: seq<(Document, real)>)
      ensures similarities == Scored(documents, qe, sim)
    {
      similarities := [];
      var i := 0;
      while i < |documents|
        invariant 0 <= i <= |documents|
        invariant similarities == Scored(documents[..i], qe, sim)
      {
        var doc := documents[i];
        assert documents[..i + 1][..i] == documents[..i];
        if HasEmbedding(doc) {
          similarities := similarities + [(doc, sim(qe, doc.embedding.value))];
        }
        i := i + 1;
      }
      assert documents[..|documents|] == documents;
    }

    /** `_retrieve_relevant_documents`. With no documents loaded it returns two empty
        lists without asking for an embedding; otherwise it embeds the query once and
        returns the selection as index-aligned documents and scores. `embedCalls` lists
        the texts sent to the embedding service. */
    method RetrieveRelevantDocuments(query: string, topK: int, threshold: real,
                                     embed: string -> seq<real>, sim: (seq<real>, seq<real>) -> real)
      returns (docs: seq<Document>, scores: seq<real>, embedCalls: seq<string>)
      ensures documents == [] ==> docs == [] && scores == [] && embedCalls == []
      ensures documents != [] ==> embedCalls == [query]
      ensures var sel := if documents == [] then [] else Selected(documents, embed(query), topK, threshold, sim);
              && |docs| == |sel| && |scores| == |sel|
              && forall i :: 0 <= i < |sel| ==> docs[i] == sel[i].0 && scores[i] == sel[i].1
    {
      if |documents| == 0 {
        return [], [], [];
      }
      embedCalls := [query];
      var qe := embed(query);
      var similarities := ScoreDocuments(qe, sim);
      var filtered := AboveThreshold(similarities, threshold);
      filtered := StableSort.SortBy(filtered, ScoreKey);
      var top := PySliceTo(filtered, topK);
      if |top| == 0 {
        return [], [], embedCalls;
      }
      docs, scores := Firsts(top), Seconds(top);
    }

    /** `query`: retrieval, the context prompt over the retrieved documents, and the
        generated text, or a fixed apology when the generation has no text. */
    method Query(rq: RAGQuery, embed: string -> seq<real>, sim: (seq<real>, seq<real>) -> real,
                 generate: (string, GenerationConfig) -> Option<string>)
      returns (response: RAGResponse, embedCalls: seq<string>)
      ensures response.contextUsed == CreateContextPrompt(prompt, rq.query, response.relevantDocuments)
      ensures |response.relevantDocuments| == |response.similarityScores|
      ensures var g := generate(response.contextUsed, Generation);
              response.answer == if g.Some? && g.value != "" then g.value else NoAnswer
      ensures |response.answer| > 0
      ensures documents != [] ==> embedCalls == [rq.query]
      ensures documents == [] ==> embedCalls == []
      ensures var sel := if documents == [] then [] else Selected(documents, embed(rq.query), rq.topK, rq.similarityThreshold, sim);
              response.relevantDocuments == Firsts(sel) && response.similarityScores == Seconds(sel)
    {
      var docs, scores;
      docs, scores, embedCalls := RetrieveRelevantDocuments(rq.query, rq.topK, rq.similarityThreshold, embed, sim);
      var text := CreateContextPrompt(prompt, rq.query, docs);
      var g := generate(text, Generation);
      var answer := if g.Some? && g.value != "" then g.value else NoAnswer;
      response := RAGResponse(answer, docs, scores, text);
    }
  }
}
