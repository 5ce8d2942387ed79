/** The document-to-record mapper: copies a document's fixed fields and folds
    its property list into the map of custom (non-system) properties. */
module DocumentMapper {
  import opened Dto
  import opened SystemProperties

  /** A document as the content store hands it over: the fixed accessors plus
      the enumerable property list, in the store's enumeration order. */
  datatype Document<D, V> = Document(
    id: string,
    name: string,
    documentClass: string,
    mimeType: string,
    dateCreated: D,
    dateLastModified: D,
    creator: string,
    lastModifier: string,
    properties: seq<(string, V)>
  )

  /** The names occurring in a property list. */
  function NamesOf<V>(props: seq<(string, V)>): set<string> {
    set i | 0 <= i < |props| :: props[i].0
  }

  /** Position `i` holds the last occurrence of its name in `props`. */
  predicate IsLastOccurrence<V>(props: seq<(string, V)>, i: int) {
    0 <= i < |props| && forall j :: i < j < |props| ==> props[j].0 != props[i].0
  }

  /** Reference description of the custom-property map of a property list:
      its keys are exactly the non-system names in the list, and each key
      holds the value of that name's last occurrence. */
  ghost predicate IsCustomMap<V>(names: SystemNames, props: seq<(string, V)>, m: map<string, V>) {
    && (forall k :: k in m <==> k in NamesOf(props) && !IsSystemProperty(names, k))
    && (forall i :: IsLastOccurrence(props, i) && !IsSystemProperty(names, props[i].0) ==>
          props[i].0 in m && m[props[i].0] == props[i].1)
  }

  /** The enumeration loop of the mapper: visit the properties in order and
      put every non-system one into the map, so a repeated name keeps the
      value it was last put with. */
  function CustomProperties<V>(names: SystemNames, props: seq<(string, V)>): (m: map<string, V>)
    ensures IsCustomMap(names, props, m)
    decreases |props|
  {
    if |props| == 0 then map[]
    else
      var init := props[..|props| - 1];
      var rest := CustomProperties(names, init);
      var (k, v) := props[|props| - 1];
      assert NamesOf(props) == NamesOf(init) + {k} by {
        assert props == init + [(k, v)];
      }
      assert forall i :: IsLastOccurrence(props, i) && i < |props| - 1 ==>
        IsLastOccurrence(init, i) && props[i].0 != k;
      if IsSystemProperty(names, k) then rest else rest[k := v]
  }

  /** The name at position `j` occurs for the last time at `j` or later. */
  lemma {:induction false} LastOccurrenceFrom<V>(props: seq<(string, V)>, j: int)
    requires 0 <= j < |props|
    ensures exists i :: j <= i && IsLastOccurrence(props, i) && props[i].0 == props[j].0
    decreases |props| - j
  {
    if IsLastOccurrence(props, j) {
    } else {
      var m :| j < m < |props| && props[m].0 == props[j].0;
      LastOccurrenceFrom(props, m);
    }
  }

  /** Every name in a list has a last occurrence. */
  lemma LastOccurrenceExists<V>(props: seq<(string, V)>, k: string)
    requires k in NamesOf(props)
    ensures exists i :: IsLastOccurrence(props, i) && props[i].0 == k
  {
    var j :| 0 <= j < |props| && props[j].0 == k;
    LastOccurrenceFrom(props, j);
  }

  /** The reference description determines the map: a map meets it exactly
      when it is the one the mapper builds. */
  lemma CustomMapIsUnique<V>(names: SystemNames, props: seq<(string, V)>, m: map<string, V>)
    ensures IsCustomMap(names, props, m) <==> m == CustomProperties(names, props)
  {
    var c := CustomProperties(names, props);
    if IsCustomMap(names, props, m) {
      assert m.Keys == c.Keys;
      forall k | k in m
        ensures m[k] == c[k]
      {
        LastOccurrenceExists(props, k);
      }
    }
  }

  /** No custom-property key is a system property: nothing starting with "F_"
      and none of the reserved names survives the mapping. */
  lemma CustomKeysAreUserProperties<V>(names: SystemNames, props: seq<(string, V)>)
    ensures forall k :: k in CustomProperties(names, props) ==>
              !StartsWith(k, SystemPrefix) && k !in names.Reserved()
  {
  }

  /** Build the record of one document: the eight fixed fields are copied as
      they are, and the custom properties are the folded property list. */
  function MapDocument<D, V>(names: SystemNames, doc: Document<D, V>): (r: DocumentProperties<D, V>)
    ensures r.id == doc.id && r.name == doc.name && r.documentClass == doc.documentClass
    ensures r.mimeType == doc.mimeType && r.creator == doc.creator && r.lastModifier == doc.lastModifier
    ensures r.dateCreated == doc.dateCreated && r.dateLastModified == doc.dateLastModified
    ensures IsCustomMap(names, doc.properties, r.customProperties)
  {
    DocumentProperties(
      doc.id, doc.name, doc.documentClass, doc.mimeType,
      doc.dateCreated, doc.dateLastModified, doc.creator, doc.lastModifier,
      CustomProperties(names, doc.properties))
  }

  /** A document listing a system-prefixed property, a reserved name and one
      user property yields a record whose only custom property is the user
      one. */
  lemma MapperExample<D, V>(names: SystemNames, doc: Document<D, V>, x: V, dup: V, t: V)
    requires names.name == "Name" && "Title" !in names.Reserved()
    requires doc.properties == [("F_Status", x), ("Name", dup), ("Title", t)]
    ensures MapDocument(names, doc).customProperties == map["Title" := t]
  {
    var m := MapDocument(names, doc).customProperties;
    assert IsSystemProperty(names, "F_Status");
    assert !IsSystemProperty(names, "Title") by {
      assert "Title"[0] != 'F';
    }
    var ps := doc.properties;
    assert ps[0].0 == "F_Status" && ps[1].0 == "Name" && ps[2].0 == "Title";
    assert NamesOf(ps) == {"F_Status", "Name", "Title"};
    assert IsLastOccurrence(doc.properties, 2);
    assert m.Keys == {"Title"};
  }
}
