/** The warehouse vector search (src/rag/rag.py): the query is embedded once, and when
    an embedding comes back a VECTOR_SEARCH query is issued whose text names only the
    table; the embedding, `top_k` and the threshold travel as typed query parameters.
    Each result row becomes a (fragment, distance) pair.

    The embedding service and the warehouse are parameters: `embed` maps a text to the
    service's response, `run` maps an issued request to its result rows. */
module VectorRag {
  import opened Wrappers
  import opened Types

  datatype DocumentFragment = DocumentFragment(documentId: string, fragmentText: string, createdAt: Timestamp)

  datatype SearchQuery = SearchQuery(query: string, topK: int, similarityThreshold: real)

  /** The embedding response: its list of embeddings may be missing or empty. */
  datatype EmbedResponse = EmbedResponse(embeddings: Option<seq<seq<real>>>)

  /** The SQL text as the f-string builds it: literal text, the interpolated table
      name, and named placeholders that the warehouse binds to parameters. */
  datatype SqlPiece =
    | Text(text: string)
    | TableName(projectId: string, dataset: string, table: string)
    | Placeholder(name: string)

  datatype ScalarValue = IntValue(i: int) | FloatValue(r: real)

  datatype QueryParameter =
    | ArrayQueryParameter(name: string, elementType: string, values: seq<real>)
    | ScalarQueryParameter(name: string, typeName: string, value: ScalarValue)

  /** A query sent to the warehouse: its text and its bound parameters. */
  datatype SearchRequest = SearchRequest(sql: string, parameters: seq<QueryParameter>)

  /** One result row: the stored fragment columns and the search distance. */
  datatype ResultRow = ResultRow(base: DocumentFragment, distance: real)

  /** `_get_embedding`: the first embedding of the response, or None when the response
      has none. */
  function GetEmbedding(response: EmbedResponse): (r: Option<seq<real>>)
    ensures r.None? <==> response.embeddings.None? || response.embeddings.value == []
    ensures r.Some? ==> r.value == response.embeddings.value[0]
  {
    if response.embeddings.Some? && |response.embeddings.value| > 0
    then Some(response.embeddings.value[0]) else None
  }

  function Render(pieces: seq<SqlPiece>): string
    decreases |pieces|
  {
    if |pieces| == 0 then ""
    else
      var head := match pieces[0]
        case Text(t) => t
        case TableName(p, d, t) => p + "." + d + "." + t
        case Placeholder(n) => "@" + n;
      head + Render(pieces[1..])
  }

  const SqlSelect := "\n        SELECT base.*, distance\n        FROM VECTOR_SEARCH(\n            TABLE `"
  const SqlColumn := "`, 'embedding',\n            (SELECT "
  const SqlTopK := " AS embedding),\n            top_k => "
  const SqlWhere := ", distance_type => 'COSINE'\n        ) AS base\n        WHERE 1 - distance >= "
  const SqlEnd := "\n        "

  /** The query text. Only the environment's table coordinates are interpolated. */
  function SearchSql(env: Environment): seq<SqlPiece> {
    [ Text(SqlSelect), TableName(env.projectId, env.dataset, env.table),
      Text(SqlColumn), Placeholder("embedding"),
      Text(SqlTopK), Placeholder("top_k"),
      Text(SqlWhere), Placeholder("similarity_threshold"),
      Text(SqlEnd) ]
  }

  function SearchParameters(rq: SearchQuery, embedding: seq<real>): seq<QueryParameter> {
    [ ArrayQueryParameter("embedding", "FLOAT64", embedding),
      ScalarQueryParameter("top_k", "INT64", IntValue(rq.topK)),
      ScalarQueryParameter("similarity_threshold", "FLOAT64", FloatValue(rq.similarityThreshold)) ]
  }

  function BuildSearch(env: Environment, rq: SearchQuery, embedding: seq<real>): SearchRequest {
    SearchRequest(Render(SearchSql(env)), SearchParameters(rq, embedding))
  }

  function PlaceholderNames(pieces: seq<SqlPiece>): seq<string>
    decreases |pieces|
  {
    if |pieces| == 0 then []
    else (if pieces[0].Placeholder? then [pieces[0].name] else []) + PlaceholderNames(pieces[1..])
  }

  function ParameterName(p: QueryParameter): string {
    match p
    case ArrayQueryParameter(n, _, _) => n
    case ScalarQueryParameter(n, _, _) => n
  }

  /** The SQL text is the same for every query text, embedding, `top_k` and threshold:
      none of them reaches the text. Only the project, dataset and table do. */
  lemma SqlIndependentOfValues(env1: Environment, env2: Environment, rq1: SearchQuery, rq2: SearchQuery,
                               e1: seq<real>, e2: seq<real>)
    requires env1.projectId == env2.projectId && env1.dataset == env2.dataset && env1.table == env2.table
    ensures BuildSearch(env1, rq1, e1).sql == BuildSearch(env2, rq2, e2).sql
  {
  }

  /** Exactly three parameters are bound, one per placeholder of the text and in the
      same order: the embedding as a FLOAT64 array, `top_k` as INT64 and the threshold
      as FLOAT64, each carrying the query's value. */
  lemma ParametersMatchPlaceholders(env: Environment, rq: SearchQuery, embedding: seq<real>)
    ensures var ps := SearchParameters(rq, embedding);
            && |ps| == 3
            && PlaceholderNames(SearchSql(env)) == [ParameterName(ps[0]), ParameterName(ps[1]), ParameterName(ps[2])]
            && ps[0] == ArrayQueryParameter("embedding", "FLOAT64", embedding)
            && ps[1] == ScalarQueryParameter("top_k", "INT64", IntValue(rq.topK))
            && ps[2] == ScalarQueryParameter("similarity_threshold", "FLOAT64", FloatValue(rq.similarityThreshold))
  {
    var pieces := SearchSql(env);
    var names := ["embedding", "top_k", "similarity_threshold"];
    assert pieces[9..] == [];
    PlaceholderNamesStep(pieces, 8);
    assert PlaceholderNames(pieces[8..]) == [];
    PlaceholderNamesStep(pieces, 7);
    assert PlaceholderNames(pieces[7..]) == names[2..];
    PlaceholderNamesStep(pieces, 6);
    PlaceholderNamesStep(pieces, 5);
    assert PlaceholderNames(pieces[5..]) == names[1..];
    PlaceholderNamesStep(pieces, 4);
    PlaceholderNamesStep(pieces, 3);
    assert PlaceholderNames(pieces[3..]) == names;
    PlaceholderNamesStep(pieces, 2);
    PlaceholderNamesStep(pieces, 1);
    PlaceholderNamesStep(pieces, 0);
    assert pieces[0..] == pieces;
  }

  lemma PlaceholderNamesStep(pieces: seq<SqlPiece>, i: nat)
    requires i < |pieces|
    ensures PlaceholderNames(pieces[i..])
            == (if pieces[i].Placeholder? then [pieces[i].name] else []) + PlaceholderNames(pieces[i + 1..])
  {
    assert pieces[i..][1..] == pieces[i + 1..];
  }

  function Pairs(rows: seq<ResultRow>): seq<(DocumentFragment, real)> {
    seq(|rows|, i requires 0 <= i < |rows| => (rows[i].base, rows[i].distance))
  }

  /** What `retrieve_with_vector_search` returns: nothing without an embedding, else one
      pair per result row of the issued search, in row order. */
  function SearchResult(env: Environment, rq: SearchQuery, embed: string -> EmbedResponse,
                        run: SearchRequest -> seq<ResultRow>): seq<(DocumentFragment, real)>
  {
    var e := GetEmbedding(embed(rq.query));
    if e.None? then [] else Pairs(run(BuildSearch(env, rq, e.value)))
  }

  /** The row loop. */
  method CollectRows(rows: seq<ResultRow>) returns (documents: seq<(DocumentFragment, real)>)
    ensures documents == Pairs(rows)
  {
    documents := [];
    var i := 0;
    while i < |rows|
      invariant 0 <= i <= |rows|
      invariant documents == Pairs(rows[..i])
    {
      documents := documents + [(rows[i].base, rows[i].distance)];
      i := i + 1;
    }
    assert rows[..|rows|] == rows;
  }

  /** `retrieve_with_vector_search`. `issued` lists the requests sent to the warehouse:
      none when no embedding came back, otherwise the one parameterised search. */
  method RetrieveWithVectorSearch(env: Environment, rq: SearchQuery, embed: string -> EmbedResponse,
                                  run: SearchRequest -> seq<ResultRow>)
    returns (result: seq<(DocumentFragment, real)>, issued: seq<SearchRequest>)
    ensures result == SearchResult(env, rq, embed, run)
    ensures GetEmbedding(embed(rq.query)).None? ==> result == [] && issued == []
    ensures GetEmbedding(embed(rq.query)).Some? ==>
              && issued == [BuildSearch(env, rq, GetEmbedding(embed(rq.query)).value)]
              && |result| == |run(issued[0])|
              && forall i :: 0 <= i < |result| ==>
                   result[i].0 == run(issued[0])[i].base && result[i].1 == run(issued[0])[i].distance
  {
    var e := GetEmbedding(embed(rq.query));
    if e.None? {
      return [], [];
    }
    var request := BuildSearch(env, rq, e.value);
    issued := [request];
    result := CollectRows(run(request));
  }
}
