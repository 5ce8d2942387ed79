/** The two data-transfer shapes of the search pipeline: the request a caller
    posts and the flat record returned for every document found. */
module Dto {
  import opened Wrappers

  /** A Java `int`: the request's page bounds are 32-bit signed integers. */
  type Int32 = x: int | -0x8000_0000 <= x < 0x8000_0000

  /** The request of an advanced search. `parameters`, `propertiesToInclude`
      and `orderBy` are nullable references in the service, hence `Option`.
      The base query text is a non-null string: the service hands it to a
      string builder, which rejects a null reference. */
  datatype SearchRequest<V> = SearchRequest(
    sqlQuery: string,
    maxResults: Int32,
    offset: Int32,
    parameters: Option<map<string, V>>,
    propertiesToInclude: Option<seq<string>>,
    orderBy: Option<string>,
    ascending: bool
  )

  /** A request for `sqlQuery` whose other fields carry their declared defaults:
      at most 100 results, no offset, no parameters, no whitelist, no ordering,
      ascending direction. */
  function DefaultRequest<V>(sqlQuery: string): SearchRequest<V>
  {
    SearchRequest(sqlQuery, 100, 0, None, None, None, true)
  }

  /** The record built for one document. Dates and property values are opaque
      to the service, hence the type parameters `D` and `V`. */
  datatype DocumentProperties<D, V> = DocumentProperties(
    id: string,
    name: string,
    documentClass: string,
    mimeType: string,
    dateCreated: D,
    dateLastModified: D,
    creator: string,
    lastModifier: string,
    customProperties: map<string, V>
  )
}
