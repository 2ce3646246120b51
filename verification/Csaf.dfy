/** The parts of a CSAF document that ingestion, the generated columns and the triggers read. */
module Csaf {
  import opened Text

  datatype Status = Draft | Final | Interim

  // One node of product_tree.branches.
  datatype Branch = Branch(category: Option<string>, name: Option<string>, children: seq<Branch>)

  // A parsed document. An optional field is None when the JSON path is absent or NULL.
  // `castable` says whether every generated column and trigger expression evaluates without an SQL
  // error (a status outside the enum or an unparsable date, for example, makes it false).
  datatype Document = Document(
    trackingId: Option<string>,
    publisher: Option<string>,
    tlp: Option<string>,
    version: Option<string>,
    revLength: Option<int>,
    status: Option<Status>,
    released: Option<int>,
    critical: Option<real>,
    category: Option<string>,
    lang: Option<string>,
    body: string,
    cves: seq<string>,
    branches: seq<Branch>,
    fullNames: seq<Option<string>>,
    castable: bool)

  // The natural key of an advisory.
  datatype Key = Key(trackingId: string, publisher: string)

  // advisoryKey: both parts must be present and non-blank.
  function AdvisoryKey(doc: Document): (r: Option<Key>)
    ensures r.None? <==> doc.trackingId.None? || doc.publisher.None?
                         || TrimSpace(doc.trackingId.value) == "" || TrimSpace(doc.publisher.value) == ""
    ensures r.Some? ==> TrimSpace(doc.trackingId.value) == r.value.trackingId != ""
    ensures r.Some? ==> TrimSpace(doc.publisher.value) == r.value.publisher != ""
  {
    var id := TrimSpace(doc.trackingId.GetOr(""));
    var publisher := TrimSpace(doc.publisher.GetOr(""));
    if doc.publisher.None? || id == "" || publisher == "" then None else Some(Key(id, publisher))
  }

  // The two tracking fields that rank a revision are there; section 3.2.1.12 of CSAF 2.0 makes them mandatory.
  predicate Ranked(doc: Document) {
    doc.released.Some? && doc.revLength.Some?
  }

  // An INSERT of this document passes NOT NULL on version and all casts.
  predicate Insertable(doc: Document) {
    doc.version.Some? && doc.castable
  }
}
