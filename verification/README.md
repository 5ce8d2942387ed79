# Document search pipeline of a REST façade over a FileNet content store

This project models, in Dafny, the search pipeline of `DocumentService`, the one
part of the service with logic of its own. The rest of the service passes calls
through to the FileNet SDK. The pipeline has four pieces:

- **Property classifier** (`SystemProperties`). A property name is a system
  property when it starts with `F_` (case-sensitive) or is one of seven
  reserved names. The string values of those seven `PropertyNames` constants
  belong to the SDK. The model is therefore parametric in them (`SystemNames`),
  and every property holds whatever they are.
- **Document-to-record mapper** (`DocumentMapper`). The eight fixed fields of
  a document are copied into a `DocumentProperties` record. The document's
  property list is folded, in order, into the map of custom properties, and
  system properties are skipped. A repeated name keeps its last value, as
  repeated `HashMap.put` calls do.
- **Query composer** (`QueryComposer`). The base query text is used verbatim.
  When `orderBy` is non-null and non-empty, ` ORDER BY <column> ASC|DESC` is
  appended. The request's named parameters are bound one entry at a time; a
  null map binds nothing.
- **Paginated projector** (`ResultProjector`). The page size is clamped to
  `min(maxResults, 1000)` and the offset to `max(0, offset)`. The first
  `offset` entries of the store's cursor are skipped. Mapped records are then
  collected while fewer than the page size have been collected. When the
  whitelist is non-null and non-empty, each record's custom properties are
  narrowed to the whitelisted keys. The simple search maps every fetched
  document, with no skipping and no narrowing.

The request and record shapes mirror `SearchRequestDTO` and
`DocumentPropertiesDTO` (module `Dto`). The nullable `orderBy`, `parameters`
and `propertiesToInclude` fields become `Option`s. Java `int` fields are
32-bit (`Int32`). Nothing in the pipeline can overflow, since only `min`,
`max` and counters bounded by those values are computed. Dates and property
values are opaque type parameters.

The content store is a parameter `store: (Query, int) -> seq<Document>`. It is
given the composed query and the requested page size, and nothing is assumed
about the length of the cursor it returns. The functional definitions
(`Window`, `Page`, `MapAll`) are the reference for the result pages. The
methods `Paginate`, `SearchDocumentsAdvanced` and `SearchDocuments` follow the
service's loops and are proved equal to that reference. `BindParameters`
follows the service's binding loop and is proved to bind exactly the
request's parameter map.

The clamped page size is not forced positive. A `maxResults` of zero or less
gives a page size of zero or less, and the collecting loop then returns an
empty page (`PageIsBounded`).

## Model

| member | source | states |
|---|---|---|
| SystemProperties.IsSystemProperty | src/main/java/com/example/filenetapi/service/DocumentService.java:149-158 | a name is a system property exactly when its first two characters are 'F' and '_' or it equals one of the seven reserved names |
| SystemProperties.PrefixedNamesAreSystem | src/main/java/com/example/filenetapi/service/DocumentService.java:150 | every name beginning with "F_" is a system property, for any values of the reserved names |
| SystemProperties.LowerCasePrefixIsNotSystem | src/main/java/com/example/filenetapi/service/DocumentService.java:150 | no case folding: a name beginning with "f_" is a system property only if it is literally a reserved name |
| SystemProperties.UserPropertyExamples | src/main/java/com/example/filenetapi/service/DocumentService.java:149-158 | "f_x", "F" and "_F" are user properties unless reserved; "F_Status" is a system property |
| DocumentMapper.CustomProperties | src/main/java/com/example/filenetapi/service/DocumentService.java:125-134 | the map's keys are exactly the non-system names in the property list, and each key holds the value of that name's last occurrence |
| DocumentMapper.LastOccurrenceExists | src/main/java/com/example/filenetapi/service/DocumentService.java:129-133 | every name in the property list has a last occurrence, so every key's value is determined |
| DocumentMapper.CustomMapIsUnique | src/main/java/com/example/filenetapi/service/DocumentService.java:125-134 | a map has exactly those keys and last-occurrence values if and only if it is the map the mapper builds, so that description is complete |
| DocumentMapper.CustomKeysAreUserProperties | src/main/java/com/example/filenetapi/service/DocumentService.java:131-132 | no custom-property key of any property list starts with "F_" or is a reserved name |
| DocumentMapper.MapDocument | src/main/java/com/example/filenetapi/service/DocumentService.java:124-147 | the record's eight fixed fields equal the document's; its custom properties meet the last-occurrence description of the document's non-system properties |
| DocumentMapper.MapperExample | src/main/java/com/example/filenetapi/service/DocumentService.java:129-134 | properties F_Status, Name (reserved) and Title give custom properties {Title} |
| QueryComposer.QueryText | src/main/java/com/example/filenetapi/service/DocumentService.java:70-77 | the base query is always a prefix of the text; with orderBy absent or empty the text is the base query; otherwise it is base + " ORDER BY " + column + " ASC" or " DESC" as ascending says |
| QueryComposer.DirectionIsRecoverable | src/main/java/com/example/filenetapi/service/DocumentService.java:76 | the appended clause ends in " ASC" exactly when the ordering is ascending |
| QueryComposer.OrderingIsRecoverable | src/main/java/com/example/filenetapi/service/DocumentService.java:73-77 | for a fixed base query, equal composed texts with non-empty columns come from the same column and the same direction |
| QueryComposer.BindParameters | src/main/java/com/example/filenetapi/service/DocumentService.java:82-87 | binding entry by entry, in any order, yields exactly the request's parameter map, or the empty map when it is null |
| QueryComposer.ComposeQuery | src/main/java/com/example/filenetapi/service/DocumentService.java:69-87 | the query handed to the store carries the composed text and exactly the request's parameters (none when null) |
| ResultProjector.EffectivePageSize | src/main/java/com/example/filenetapi/service/DocumentService.java:90 | the page size is at most 1000 and at most maxResults, and equals one of them: maxResults when it is at most 1000 |
| ResultProjector.EffectiveOffset | src/main/java/com/example/filenetapi/service/DocumentService.java:91 | the offset is non-negative and at least the requested one; it equals the request when that is non-negative, zero otherwise |
| ResultProjector.Window | src/main/java/com/example/filenetapi/service/DocumentService.java:95-102 | the skip-then-collect window has min(size, remaining) entries past the offset (none when the offset passes the end or size ≤ 0), each being the cursor entry at offset + i |
| ResultProjector.WindowsTile | src/main/java/com/example/filenetapi/service/DocumentService.java:95-102 | consecutive windows at off and off + n, of n and m entries, concatenate to the window of n + m entries at off |
| ResultProjector.WindowExample | src/main/java/com/example/filenetapi/service/DocumentService.java:95-102 | cursor [A,B,C,D,E]: offset 2, size 2 keeps [C,D]; offset 10 keeps nothing |
| ResultProjector.FilterProperties | src/main/java/com/example/filenetapi/service/DocumentService.java:106-116 | a non-empty whitelist keeps exactly the custom keys that are whitelisted, with unchanged values; a null or empty whitelist changes nothing; the eight fixed fields are never changed |
| ResultProjector.FilterIsIdempotent | src/main/java/com/example/filenetapi/service/DocumentService.java:107-116 | narrowing twice gives the same record as narrowing once |
| ResultProjector.FilterExample | src/main/java/com/example/filenetapi/service/DocumentService.java:107-116 | {a:1,b:2,c:3} narrowed to [a,c] is {a:1,c:3}; narrowed to [z] it is empty |
| ResultProjector.ProjectAll | src/main/java/com/example/filenetapi/service/DocumentService.java:101-119 | one projected record per document, in order |
| ResultProjector.Page | src/main/java/com/example/filenetapi/service/DocumentService.java:89-119 | the page is the projected form of the window at the clamped offset with the clamped page size, in cursor order |
| ResultProjector.MapAll | src/main/java/com/example/filenetapi/service/DocumentService.java:60-64 | one mapped record per document, in order |
| ResultProjector.Paginate | src/main/java/com/example/filenetapi/service/DocumentService.java:95-119 | the two cursor loops (skip while below the offset and the cursor has more; collect while the cursor has more and the page is not full) return exactly the reference page |
| ResultProjector.SearchDocumentsAdvanced | src/main/java/com/example/filenetapi/service/DocumentService.java:69-122 | the store receives the composed query and the clamped page size, and the result is the page of whatever cursor the store returns |
| ResultProjector.SearchDocuments | src/main/java/com/example/filenetapi/service/DocumentService.java:55-67 | the store receives the query text with no parameters and the caller's maxResults; every fetched document is mapped, in order, with no skipping or narrowing |
| ResultProjector.PageIsBounded | src/main/java/com/example/filenetapi/service/DocumentService.java:90-102 | a page holds at most 1000 records, at most max(maxResults, 0), at most the cursor's length; it is empty when the offset reaches the cursor's end or maxResults ≤ 0 |
| ResultProjector.PageIsFullWhenCursorSuffices | src/main/java/com/example/filenetapi/service/DocumentService.java:102 | when the cursor extends at least a page past the offset, the page has exactly the clamped page size |
| ResultProjector.ClampingIsTransparent | src/main/java/com/example/filenetapi/service/DocumentService.java:90-91 | a request for more than 1000 results pages like a request for 1000; a negative offset pages like offset 0 |
| ResultProjector.PageRecordsComeFromTheWindow | src/main/java/com/example/filenetapi/service/DocumentService.java:103-118 | record i of a page comes from cursor entry offset + i and differs from its mapped record only in narrowed custom properties: sub-map, same values, whitelisted keys only, unchanged without a whitelist |
| ResultProjector.SimpleSearchIsUnwindowedPage | src/main/java/com/example/filenetapi/service/DocumentService.java:55-67 | with offset ≤ 0, no non-empty whitelist and a cursor no longer than the page size, the advanced page is the simple search's mapping of every document |
| ResultProjector.DefaultRequestPage | src/main/java/com/example/filenetapi/dto/SearchRequestDTO.java:9-14 | a request with only a query text sends that text unchanged and returns the first min(n, 100) fetched documents, mapped and not narrowed |
| ResultProjector.CappedCursorUnderfills | src/main/java/com/example/filenetapi/service/DocumentService.java:93-99 | if the store caps its cursor at the page size, at most pageSize − offset records come back, and none once the offset reaches the page size |

## Left out

- `createDocument`, `getDocument` and `deleteDocument` are not modelled. They only call the SDK (`Factory.*`, `checkin`, `save`, `delete`) and have no logic of their own.
- Query execution (`SearchScope.fetchObjects`, `SearchSQL`) is not modelled. How the store pages, caps or continues its cursor is SDK behaviour, so the store is an arbitrary function parameter.
- Connection set-up, authentication and the HTTP controller's mapping of exceptions to 400/404 responses are not modelled. They are I/O and framework plumbing.
- Failures are not modelled. A failure of an accessor while mapping, or of the store while executing the query, aborts the Java call with an exception; the model's mapper and store are total.
- A null `sqlQuery` is not modelled. The service hands it to `StringBuilder`, which throws; in the model a string cannot be null, so the type carries that precondition.
- Null strings and null entries are not modelled. This covers null fixed fields of a document and null elements of the whitelist array.
- Concrete dates, property values and the string values of the `PropertyNames` constants are left abstract, as type parameters and the `SystemNames` parameter.
- The iteration order of Java's hash maps is not modelled, because Dafny maps are unordered. Binding is by name, and the model proves that binding order does not change the bound parameters.
