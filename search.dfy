/** Sparse retrieval (search-api/api/search.py): one boosted `rank_feature` clause per entry of the
    query's sparse vector, combined as a `bool` query of `should` clauses, and the store's hits
    mapped one to one, in order, to ranked passages. */
module Search {
  import opened Wrappers
  import opened Models

  /** Prefix of the indexed field that holds each document's sparse vector. */
  const FieldPrefix := "sparse_vector."

  /** The `top_k` used when the caller gives none. */
  const DefaultTopK := 5

  /** `{"rank_feature": {"field": field, "boost": boost}}` */
  datatype Clause = RankFeature(field: string, boost: real)

  /** `{"bool": {"should": should}}` */
  datatype Query = Bool(should: seq<Clause>)

  /** The one request sent to the store: the index, the query and the number of hits wanted. */
  datatype StoreRequest = StoreRequest(index: string, query: Query, size: int)

  /** A hit: its `_source` fields and its `_score`. */
  datatype Hit = Hit(text: string, title: string, url: string, score: real)

  /** The store's answer: its hits, or the error it raised. */
  datatype StoreReply = Hits(hits: seq<Hit>) | StoreError(error: string)

  /** One clause per vector entry, in the vector's order, on the entry's token field and boosted
      by its weight. */
  function ShouldClauses(v: SparseVector): (cs: seq<Clause>)
    ensures |cs| == |v|
    ensures forall i :: 0 <= i < |cs| ==> FieldPrefix <= cs[i].field
  {
    seq(|v|, i requires 0 <= i < |v| => RankFeature(FieldPrefix + v[i].token, v[i].weight))
  }

  /** The vector entry a clause stands for. */
  function EntryOf(c: Clause): Entry
    requires FieldPrefix <= c.field
  {
    Entry(c.field[|FieldPrefix|..], c.boost)
  }

  /** The clauses give back the vector they were built from, entry by entry and in order. */
  lemma ClausesRoundTrip(v: SparseVector)
    ensures forall i :: 0 <= i < |v| ==> EntryOf(ShouldClauses(v)[i]) == v[i]
  {
    forall i | 0 <= i < |v| ensures EntryOf(ShouldClauses(v)[i]) == v[i] {
      var f := ShouldClauses(v)[i].field;
      assert f == FieldPrefix + v[i].token;
      assert f[|FieldPrefix|..] == v[i].token;
    }
  }

  function ToResult(hit: Hit): SearchResult {
    SearchResult(hit.text, hit.title, hit.url, hit.score)
  }

  function HitScores(hits: seq<Hit>): seq<real> {
    seq(|hits|, i requires 0 <= i < |hits| => hits[i].score)
  }

  function ResultScores(results: seq<SearchResult>): seq<real> {
    seq(|results|, i requires 0 <= i < |results| => results[i].score)
  }

  /** One result per hit, in the hits' order, with text, title and URL from the hit's source and
      the hit's score; so the store's ranking is kept as it is. */
  method CollectResults(hits: seq<Hit>) returns (results: seq<SearchResult>)
    ensures |results| == |hits|
    ensures forall i :: 0 <= i < |hits| ==>
      && results[i].text == hits[i].text && results[i].title == hits[i].title
      && results[i].url == hits[i].url && results[i].score == hits[i].score
    ensures ResultScores(results) == HitScores(hits)
  {
    results := [];
    for i := 0 to |hits|
      invariant |results| == i
      invariant forall k :: 0 <= k < i ==> results[k] == ToResult(hits[k])
    {
      results := results + [ToResult(hits[i])];
    }
  }

  /** Searches `index` for the passages that best match `vector`. An empty vector gives no
      results and no request; otherwise exactly one request is made, and the store's error, if
      any, is passed on unchanged with no partial result. */
  method Search(vector: SparseVector, topK: int, index: string, store: StoreRequest -> StoreReply)
    returns (outcome: Result<seq<SearchResult>, string>, request: Option<StoreRequest>)
    ensures |vector| == 0 ==> outcome == Success([]) && request == None
    ensures |vector| > 0 ==> request == Some(StoreRequest(index, Bool(ShouldClauses(vector)), topK))
    ensures |vector| > 0 && store(request.value).StoreError? ==>
      outcome == Failure(store(request.value).error)
    ensures |vector| > 0 && store(request.value).Hits? ==>
      && outcome.Success?
      && |outcome.value| == |store(request.value).hits|
      && forall i :: 0 <= i < |outcome.value| ==> outcome.value[i] == ToResult(store(request.value).hits[i])
  {
    if |vector| == 0 {
      return Success([]), None;
    }
    var query := Bool(ShouldClauses(vector));
    var req := StoreRequest(index, query, topK);
    request := Some(req);
    match store(req)
    case StoreError(e) =>
      outcome := Failure(e);
    case Hits(hits) =>
      var results := CollectResults(hits);
      outcome := Success(results);
  }

  /** A search with the default `top_k`: the store is asked for 5 hits. */
  method SearchDefault(vector: SparseVector, index: string, store: StoreRequest -> StoreReply)
    returns (outcome: Result<seq<SearchResult>, string>, request: Option<StoreRequest>)
    ensures |vector| == 0 ==> outcome == Success([]) && request == None
    ensures |vector| > 0 ==> request.Some? && request.value.size == DefaultTopK
  {
    outcome, request := Search(vector, DefaultTopK, index, store);
  }
}
