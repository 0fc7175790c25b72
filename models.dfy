/** Records shared by ingestion and search. */
module Models {
  /** One (token, weight) entry of a sparse vector. Weights are opaque floats: they are copied
      through and compared, never computed on. */
  datatype Entry = Entry(token: string, weight: real)

  /** A sparse vector in the iteration order of the dictionary it comes from. */
  type SparseVector = seq<Entry>

  /** One ranked passage returned by search (search-api/api/models.py). */
  datatype SearchResult = SearchResult(text: string, title: string, url: string, score: real)
}
