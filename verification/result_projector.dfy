/** The paginated result projector: clamp the page bounds, skip `offset`
    entries of the store's cursor, map the following ones into records until
    the page is full, and narrow each record's custom properties to the
    caller's whitelist. */
module ResultProjector {
  import opened Wrappers
  import opened Dto
  import opened SystemProperties
  import opened DocumentMapper
  import opened QueryComposer

  /** The hard ceiling on the page size. */
  const MaxPageSize: Int32 := 1000

  /** The page size actually used: the requested one, lowered to the ceiling.
      It is not raised: a non-positive request stays non-positive. */
  function EffectivePageSize(maxResults: Int32): (size: Int32)
    ensures size <= MaxPageSize && size <= maxResults
    ensures size == maxResults || size == MaxPageSize
  {
    if maxResults < MaxPageSize then maxResults else MaxPageSize
  }

  /** The offset actually used: a negative offset counts as zero. */
  function EffectiveOffset(offset: Int32): (off: Int32)
    ensures 0 <= off && offset <= off
    ensures off == offset || off == 0
  {
    if 0 < offset then offset else 0
  }

  /** The entries of `s` that the skip-then-collect traversal keeps: those at
      positions `off`, `off + 1`, ... while fewer than `size` are kept. */
  function Window<T>(s: seq<T>, off: nat, size: int): (w: seq<T>)
    ensures |w| == if off >= |s| || size <= 0 then 0
                   else if size < |s| - off then size else |s| - off
    ensures forall i :: 0 <= i < |w| ==> w[i] == s[off + i]
  {
    if off >= |s| || size <= 0 then []
    else if size < |s| - off then s[off..off + size]
    else s[off..]
  }

  /** Whether the request narrows the custom properties: only a non-null,
      non-empty whitelist does. */
  predicate Narrows(whitelist: Option<seq<string>>) {
    whitelist.Some? && |whitelist.value| > 0
  }

  /** Replace a record's custom properties by those whose key is whitelisted,
      when the whitelist narrows; every other field is kept. */
  function FilterProperties<D, V>(whitelist: Option<seq<string>>, rec: DocumentProperties<D, V>)
    : (r: DocumentProperties<D, V>)
    ensures r.(customProperties := rec.customProperties) == rec
    ensures !Narrows(whitelist) ==> r == rec
    ensures Narrows(whitelist) ==>
              && (forall k :: k in r.customProperties <==> k in rec.customProperties && k in whitelist.value)
              && (forall k :: k in r.customProperties ==> r.customProperties[k] == rec.customProperties[k])
  {
    if Narrows(whitelist) then
      var m := rec.customProperties;
      rec.(customProperties := map k | k in m && k in whitelist.value :: m[k])
    else rec
  }

  /** Narrowing twice is narrowing once. */
  lemma FilterIsIdempotent<D, V>(whitelist: Option<seq<string>>, rec: DocumentProperties<D, V>)
    ensures FilterProperties(whitelist, FilterProperties(whitelist, rec)) == FilterProperties(whitelist, rec)
  {
    var once := FilterProperties(whitelist, rec);
    var twice := FilterProperties(whitelist, once);
    if Narrows(whitelist) {
      assert twice.customProperties == once.customProperties;
    }
  }

  /** A record with custom properties {a:1, b:2, c:3} narrowed to {a, c}
      keeps {a:1, c:3}; narrowed to {z} it keeps nothing. */
  lemma FilterExample<D>(rec: DocumentProperties<D, int>)
    requires rec.customProperties == map["a" := 1, "b" := 2, "c" := 3]
    ensures FilterProperties(Some(["a", "c"]), rec).customProperties == map["a" := 1, "c" := 3]
    ensures FilterProperties(Some(["z"]), rec).customProperties == map[]
  {
  }

  /** One record of the advanced search: the mapped document, narrowed. */
  function Project<D, V>(names: SystemNames, whitelist: Option<seq<string>>, doc: Document<D, V>)
    : DocumentProperties<D, V>
  {
    FilterProperties(whitelist, MapDocument(names, doc))
  }

  /** Every document of `docs` projected, in order. */
  function ProjectAll<D, V>(names: SystemNames, whitelist: Option<seq<string>>, docs: seq<Document<D, V>>)
    : (records: seq<DocumentProperties<D, V>>)
    ensures |records| == |docs|
    ensures forall i :: 0 <= i < |docs| ==> records[i] == Project(names, whitelist, docs[i])
  {
    seq(|docs|, i requires 0 <= i < |docs| => Project(names, whitelist, docs[i]))
  }

  /** Projecting one more document appends its record. */
  lemma ProjectAllSnoc<D, V>(names: SystemNames, whitelist: Option<seq<string>>, docs: seq<Document<D, V>>, doc: Document<D, V>)
    ensures ProjectAll(names, whitelist, docs + [doc])
            == ProjectAll(names, whitelist, docs) + [Project(names, whitelist, doc)]
  {
  }

  /** The page of records the advanced search returns for the documents
      `fetched` from the store: the projected form of the clamped window. */
  function Page<D, V>(names: SystemNames, req: SearchRequest<V>, fetched: seq<Document<D, V>>)
    : (page: seq<DocumentProperties<D, V>>)
    ensures var w := Window(fetched, EffectiveOffset(req.offset), EffectivePageSize(req.maxResults));
            |page| == |w| && forall i :: 0 <= i < |w| ==> page[i] == Project(names, req.propertiesToInclude, w[i])
  {
    ProjectAll(names, req.propertiesToInclude,
               Window(fetched, EffectiveOffset(req.offset), EffectivePageSize(req.maxResults)))
  }

  /** One record per document, in order, with no skipping or narrowing. */
  function MapAll<D, V>(names: SystemNames, docs: seq<Document<D, V>>): (records: seq<DocumentProperties<D, V>>)
    ensures |records| == |docs|
    ensures forall i :: 0 <= i < |docs| ==> records[i] == MapDocument(names, docs[i])
  {
    seq(|docs|, i requires 0 <= i < |docs| => MapDocument(names, docs[i]))
  }

  /** The traversal of the store's cursor: skip `offset` entries, stopping
      early if the cursor runs out, then collect projected records while
      fewer than `pageSize` have been collected. */
  method Paginate<D, V>(names: SystemNames, req: SearchRequest<V>, fetched: seq<Document<D, V>>)
    returns (results: seq<DocumentProperties<D, V>>)
    ensures results == Page(names, req, fetched)
  {
    var pageSize := EffectivePageSize(req.maxResults);
    var offset := EffectiveOffset(req.offset);

    var pos := 0;
    while pos < offset && pos < |fetched|
      invariant 0 <= pos <= offset && pos <= |fetched|
    {
      pos := pos + 1;
    }

    var start := pos;
    assert start == offset || start == |fetched|;
    results := [];
    while pos < |fetched| && |results| < pageSize
      invariant start <= pos <= |fetched|
      invariant |results| == pos - start
      invariant pos == start || pos - start <= pageSize
      invariant results == ProjectAll(names, req.propertiesToInclude, fetched[start..pos])
    {
      ProjectAllSnoc(names, req.propertiesToInclude, fetched[start..pos], fetched[pos]);
      assert fetched[start..pos + 1] == fetched[start..pos] + [fetched[pos]];
      results := results + [Project(names, req.propertiesToInclude, fetched[pos])];
      pos := pos + 1;
    }
    if offset < |fetched| && 0 < pageSize {
      assert pos == |fetched| || pos == offset + pageSize;
    }
    assert fetched[start..pos] == Window(fetched, offset, pageSize);
  }

  /** The advanced search: compose the query, fetch from `store` with the
      clamped page size, and traverse the cursor. The store is any function
      of the query and the requested page size; nothing is assumed about how
      many documents it yields. */
  method SearchDocumentsAdvanced<D, V>(
    names: SystemNames,
    req: SearchRequest<V>,
    store: (Query<V>, int) -> seq<Document<D, V>>
  ) returns (query: Query<V>, results: seq<DocumentProperties<D, V>>)
    ensures query.text == QueryText(req) && query.parameters == req.parameters.GetOr(map[])
    ensures results == Page(names, req, store(query, EffectivePageSize(req.maxResults)))
  {
    query := ComposeQuery(req);
    var fetched := store(query, EffectivePageSize(req.maxResults));
    results := Paginate(names, req, fetched);
  }

  /** The simple search: fetch with the caller's `maxResults` and map every
      document the store yields. */
  method SearchDocuments<D, V>(
    names: SystemNames,
    sqlQuery: string,
    maxResults: Int32,
    store: (Query<V>, int) -> seq<Document<D, V>>
  ) returns (results: seq<DocumentProperties<D, V>>)
    ensures results == MapAll(names, store(Query(sqlQuery, map[]), maxResults))
  {
    var fetched := store(Query(sqlQuery, map[]), maxResults);
    results := [];
    var i := 0;
    while i < |fetched|
      invariant i <= |fetched|
      invariant results == MapAll(names, fetched[..i])
    {
      results := results + [MapDocument(names, fetched[i])];
      i := i + 1;
    }
    assert fetched[..i] == fetched;
  }

  /** Consecutive windows tile the sequence: the window of `n` entries at
      `off` followed by the window of `m` entries at `off + n` is the window
      of `n + m` entries at `off`. */
  lemma WindowsTile<T>(s: seq<T>, off: nat, n: nat, m: nat)
    ensures Window(s, off, n) + Window(s, off + n, m) == Window(s, off, n + m)
  {
    var a, b, c := Window(s, off, n), Window(s, off + n, m), Window(s, off, n + m);
    assert |a| + |b| == |c|;
    forall i | 0 <= i < |c|
      ensures (a + b)[i] == c[i]
    {
      if i >= |a| {
        assert (a + b)[i] == b[i - |a|] == s[off + n + (i - |a|)];
      }
    }
  }

  /** The five-entry cursor [A, B, C, D, E]: offset 2 with page size 2 keeps
      [C, D]; offset 10 keeps nothing. */
  lemma WindowExample<T>(a: T, b: T, c: T, d: T, e: T)
    ensures Window([a, b, c, d, e], 2, 2) == [c, d]
    ensures Window([a, b, c, d, e], 10, 2) == []
  {
  }

  /** A page never holds more than the ceiling, more than a positive
      `maxResults`, or more documents than the cursor yields past the
      offset. */
  lemma PageIsBounded<D, V>(names: SystemNames, req: SearchRequest<V>, fetched: seq<Document<D, V>>)
    ensures |Page(names, req, fetched)| <= MaxPageSize
    ensures |Page(names, req, fetched)| <= if req.maxResults < 0 then 0 else req.maxResults
    ensures |Page(names, req, fetched)| <= |fetched|
    ensures EffectiveOffset(req.offset) <= |fetched| ==>
              |Page(names, req, fetched)| <= |fetched| - EffectiveOffset(req.offset)
    ensures req.offset >= |fetched| ==> Page(names, req, fetched) == []
    ensures req.maxResults <= 0 ==> Page(names, req, fetched) == []
  {
  }

  /** A full page: when the cursor holds enough documents past the offset,
      the page has exactly the clamped page size. */
  lemma PageIsFullWhenCursorSuffices<D, V>(names: SystemNames, req: SearchRequest<V>, fetched: seq<Document<D, V>>)
    requires 0 < req.maxResults
    requires EffectiveOffset(req.offset) + EffectivePageSize(req.maxResults) <= |fetched|
    ensures |Page(names, req, fetched)| == EffectivePageSize(req.maxResults)
  {
  }

  /** A request above the ceiling behaves as a request for exactly 1000, and
      a negative offset behaves as offset zero. */
  lemma ClampingIsTransparent<D, V>(names: SystemNames, req: SearchRequest<V>, fetched: seq<Document<D, V>>)
    ensures MaxPageSize < req.maxResults ==>
              Page(names, req, fetched) == Page(names, req.(maxResults := MaxPageSize), fetched)
    ensures req.offset < 0 ==>
              Page(names, req, fetched) == Page(names, req.(offset := 0), fetched)
  {
  }

  /** `r` is `full` with its custom properties narrowed: the eight fixed
      fields agree, the custom properties form a sub-map with unchanged
      values, whitelisted keys only when the whitelist narrows, and all of
      them when it does not. */
  ghost predicate NarrowedFrom<D, V>(whitelist: Option<seq<string>>, r: DocumentProperties<D, V>, full: DocumentProperties<D, V>) {
    && r.(customProperties := full.customProperties) == full
    && r.customProperties.Keys <= full.customProperties.Keys
    && (forall k :: k in r.customProperties ==> r.customProperties[k] == full.customProperties[k])
    && (Narrows(whitelist) ==> forall k :: k in r.customProperties ==> k in whitelist.value)
    && (!Narrows(whitelist) ==> r == full)
  }

  /** Every record of a page comes from the document at the matching cursor
      position past the offset, and differs from that document's mapped
      record in nothing but the narrowing of its custom properties. */
  lemma PageRecordsComeFromTheWindow<D, V>(names: SystemNames, req: SearchRequest<V>, fetched: seq<Document<D, V>>, i: int)
    requires 0 <= i < |Page(names, req, fetched)|
    ensures EffectiveOffset(req.offset) + i < |fetched|
    ensures NarrowedFrom(req.propertiesToInclude, Page(names, req, fetched)[i],
                         MapDocument(names, fetched[EffectiveOffset(req.offset) + i]))
  {
  }

  /** The simple search is the advanced one without skipping or narrowing:
      with a non-positive offset, no non-empty whitelist and a cursor no
      longer than the clamped page size, the page maps every document. */
  lemma SimpleSearchIsUnwindowedPage<D, V>(names: SystemNames, req: SearchRequest<V>, fetched: seq<Document<D, V>>)
    requires req.offset <= 0 && !Narrows(req.propertiesToInclude)
    requires |fetched| <= EffectivePageSize(req.maxResults)
    ensures Page(names, req, fetched) == MapAll(names, fetched)
  {
  }

  /** A request carrying only a query text and the declared defaults sends
      the text unchanged with no parameters and returns the first (at most
      100) documents, mapped and unfiltered. */
  lemma DefaultRequestPage<D, V>(names: SystemNames, sqlQuery: string, fetched: seq<Document<D, V>>)
    ensures QueryText(DefaultRequest<V>(sqlQuery)) == sqlQuery
    ensures DefaultRequest<V>(sqlQuery).parameters.GetOr(map[]) == map[]
    ensures Page(names, DefaultRequest<V>(sqlQuery), fetched)
            == MapAll(names, fetched[..if |fetched| < 100 then |fetched| else 100])
  {
  }

  /** If the store caps its cursor at the requested page size, the offset is
      taken out of that same page: at most `pageSize - offset` records come
      back, and none once the offset reaches the page size. */
  lemma CappedCursorUnderfills<D, V>(names: SystemNames, req: SearchRequest<V>, fetched: seq<Document<D, V>>)
    requires |fetched| <= EffectivePageSize(req.maxResults)
    ensures EffectiveOffset(req.offset) >= EffectivePageSize(req.maxResults) ==> Page(names, req, fetched) == []
    ensures |Page(names, req, fetched)| <= EffectivePageSize(req.maxResults) - EffectiveOffset(req.offset)
              || Page(names, req, fetched) == []
  {
  }
}
