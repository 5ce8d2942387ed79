/** The property classifier: which property names of a document are
    administrative ones that never appear among a record's custom properties. */
module SystemProperties {

  /** The prefix every store-internal property name carries. */
  const SystemPrefix: string := "F_"

  /** The seven well-known property names the record already carries as fixed
      fields. Their string values belong to the content store's SDK, so the
      model is parametric in them. */
  datatype SystemNames = SystemNames(
    id: string,
    name: string,
    mimeType: string,
    dateCreated: string,
    dateLastModified: string,
    creator: string,
    lastModifier: string
  ) {
    function Reserved(): set<string> {
      {id, name, mimeType, dateCreated, dateLastModified, creator, lastModifier}
    }
  }

  /** Java's `String.startsWith`: `p` is a prefix of `s`, compared character
      by character. */
  predicate StartsWith(s: string, p: string) {
    p <= s
  }

  /** Exact, case-sensitive test: the name begins with the characters 'F' and
      '_', or it is one of the seven reserved names. */
  predicate IsSystemProperty(names: SystemNames, n: string)
    ensures IsSystemProperty(names, n) <==>
              (2 <= |n| && n[0] == 'F' && n[1] == '_')
              || n == names.id || n == names.name || n == names.mimeType
              || n == names.dateCreated || n == names.dateLastModified
              || n == names.creator || n == names.lastModifier
  {
    StartsWith(n, SystemPrefix) || n in names.Reserved()
  }

  /** Every name that extends the system prefix is a system property,
      whatever the reserved names are. */
  lemma PrefixedNamesAreSystem(names: SystemNames, suffix: string)
    ensures IsSystemProperty(names, SystemPrefix + suffix)
  {
  }

  /** The prefix test does no case folding: a name starting with a lower-case
      "f_" is a system property only when it is literally a reserved name. */
  lemma LowerCasePrefixIsNotSystem(names: SystemNames, n: string)
    requires StartsWith(n, "f_")
    ensures IsSystemProperty(names, n) <==> n in names.Reserved()
  {
    assert n[0] == 'f';
  }

  /** A name that neither starts with "F_" nor is reserved is a user property;
      in particular "f_x" and "F" and "_F" are user properties whenever they
      are not reserved. */
  lemma UserPropertyExamples(names: SystemNames)
    ensures "f_x" !in names.Reserved() ==> !IsSystemProperty(names, "f_x")
    ensures "F" !in names.Reserved() ==> !IsSystemProperty(names, "F")
    ensures "_F" !in names.Reserved() ==> !IsSystemProperty(names, "_F")
    ensures IsSystemProperty(names, "F_Status")
  {
    assert "f_x"[0] == 'f';
    assert "_F"[0] == '_';
  }
}
