/** The Document record the outbox page keeps and its add and inline edit
    modals fill: a numeric id and twenty-one text fields
    (frontend/src/pages/Outbox.tsx). */
module Documents {
  import opened Forms

  /** The names of the twenty-one text fields. */
  const KEYS: set<string> := {
    "documentControlNo", "routeNo", "officeControlNo", "subject", "documentType", "sourceType",
    "internalOriginatingOffice", "internalOriginatingEmployee", "externalOriginatingOffice",
    "externalOriginatingEmployee", "noOfPages", "attachedDocumentFilename", "attachmentList", "userid",
    "inSequence", "remarks", "referenceDocumentControlNo1", "referenceDocumentControlNo2",
    "referenceDocumentControlNo3", "referenceDocumentControlNo4", "referenceDocumentControlNo5"}

  datatype Document = Document(id: int, fields: Form)

  function IdOf(d: Document): int {
    d.id
  }

  /** A document carrying every field, as the interface declares it. */
  predicate Complete(d: Document) {
    d.fields.Keys == KEYS
  }

  /** An object carrying the given id and the given fields, each read with
      `|| ''`: the shape handleAddDocument builds. */
  function Filled(id: int, given: Form): (d: Document)
    ensures Complete(d) && d.id == id
    ensures forall k :: k in KEYS ==> d.fields[k] == Field(given, k)
  {
    Document(id, Pick(given, KEYS))
  }

  /** Filling a complete document again changes nothing. */
  lemma FilledComplete(d: Document)
    requires Complete(d)
    ensures Filled(d.id, d.fields) == d
  {
    assert Pick(d.fields, KEYS) == d.fields;
  }
}
