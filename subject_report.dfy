/** frontend/src/pages/reports/DocumentBySubject.tsx: the CSV export of the
    report and its page state. The export quotes every field as section 2
    item 7 of RFC 4180 describes, but separates records with a bare line feed
    and not the CRLF of section 2 item 1, and starts with a byte order mark. */
module SubjectReport {
  import opened Text

  datatype Document = Document(
    id: int, documentNumber: string, subject: string, recipient: string,
    dateSent: string, status: string, priority: string)

  const HEADERS: seq<string> := [
    "Subject", "Doc Type", "Releasing Officer", "Originating Office", "Date", "Action Officer",
    "Office", "Action Taken", "Doc. Control No.", "Remarks", "Status"]

  const BOM: char := '﻿'

  /** `"${value.replace(/"/g, '""')}"` */
  function Quote(s: string): (r: string)
    ensures |r| >= 2 && r[0] == '"' && r[|r| - 1] == '"'
  {
    "\"" + DoubleQuotes(s) + "\""
  }

  /** Reading a quoted field back: drop the outer quotes, then "" to ". */
  function Unquote(f: string): string {
    if |f| >= 2 && f[0] == '"' && f[|f| - 1] == '"' then UndoubleQuotes(f[1..|f| - 1]) else f
  }

  /** A quoted field reads back as the value it was made from. */
  lemma QuoteRoundTrip(s: string)
    ensures Unquote(Quote(s)) == s
  {
    var r := Quote(s);
    assert r[1..|r| - 1] == DoubleQuotes(s);
    UndoubleDoubleQuotes(s);
  }

  /** A quoted field holds no lone quote between its outer ones, so a comma
      inside it never ends the field. */
  lemma QuotedFieldIsClosed(s: string)
    ensures QuotesPaired(Quote(s)[1..|Quote(s)| - 1])
  {
    var r := Quote(s);
    assert r[1..|r| - 1] == DoubleQuotes(s);
    DoubledQuotesComeInPairs(s);
  }

  /** The literal '""' of the six empty columns. */
  const EMPTY: string := "\"\""

  lemma EmptyIsQuotedBlank()
    ensures EMPTY == Quote("") && Unquote(EMPTY) == ""
  {
    QuoteRoundTrip("");
  }

  /** The eleven fields of one document's record, in the order written: the
      first four columns carry documentNumber, subject, recipient and
      dateSent, six are empty, and the last carries status. */
  function Fields(doc: Document): (r: seq<string>)
    ensures |r| == |HEADERS|
  {
    [Quote(doc.documentNumber), Quote(doc.subject), Quote(doc.recipient), Quote(doc.dateSent),
     EMPTY, EMPTY, EMPTY, EMPTY, EMPTY, EMPTY, Quote(doc.status)]
  }

  /** The document value the record carries in column k, "" for the six
      empty columns. */
  function Column(doc: Document, k: nat): string {
    if k == 0 then doc.documentNumber
    else if k == 1 then doc.subject
    else if k == 2 then doc.recipient
    else if k == 3 then doc.dateSent
    else if k == 10 then doc.status
    else ""
  }

  /** The quoted columns hold their document value, quoted. */
  lemma QuotedColumn(doc: Document, k: nat)
    requires k < 4 || k == 10
    ensures Fields(doc)[k] == Quote(Column(doc, k))
  {
  }

  /** Each field of a record reads back as the document value it carries. */
  lemma FieldReadBack(doc: Document, k: nat)
    requires k < |HEADERS|
    ensures Unquote(Fields(doc)[k]) == Column(doc, k)
  {
    if k < 4 || k == 10 {
      QuotedColumn(doc, k);
      QuoteRoundTrip(Column(doc, k));
    } else {
      EmptyColumn(doc, k);
      EmptyIsQuotedBlank();
    }
  }

  lemma EmptyColumn(doc: Document, k: nat)
    requires 4 <= k < 10
    ensures Fields(doc)[k] == EMPTY
  {
  }

  /** One document's record: its fields joined with commas. */
  function Row(doc: Document): string {
    Join(Fields(doc), ",")
  }

  /** csvRows once the forEach has seen the documents: the header line (the
      column names joined with commas), then one record per document. */
  function Records(headers: seq<string>, docs: seq<Document>): (r: seq<string>)
    ensures |r| == 1 + |docs| && r[0] == Join(headers, ",")
    ensures forall i :: 0 <= i < |docs| ==> r[i + 1] == Row(docs[i])
  {
    [Join(headers, ",")] + seq(|docs|, i requires 0 <= i < |docs| => Row(docs[i]))
  }

  /** One more document adds its record at the end. */
  lemma RecordsSnoc(headers: seq<string>, docs: seq<Document>, d: Document)
    ensures Records(headers, docs + [d]) == Records(headers, docs) + [Row(d)]
  {
    var a := Records(headers, docs + [d]);
    var b := Records(headers, docs) + [Row(d)];
    assert |a| == |b|;
    forall i | 0 <= i < |a|
      ensures a[i] == b[i]
    {
      if 0 < i <= |docs| {
        assert (docs + [d])[i - 1] == docs[i - 1];
      }
    }
  }

  /** The file's text: the byte order mark, then the records joined with line
      feeds. */
  function Csv(rows: seq<string>): string {
    [BOM] + Join(rows, "\n")
  }

  lemma CsvStartsWithFirst(rows: seq<string>)
    requires |rows| >= 1
    ensures var c := Csv(rows);
      |c| > |rows[0]| && c[0] == BOM && c[1..1 + |rows[0]|] == rows[0]
  {
    JoinStartsWithFirst(rows, "\n");
  }

  /** handleExportToExcel up to the Blob: csvRows filled by the forEach, then
      joined. The page passes HEADERS as headers. */
  method ExportCsv(headers: seq<string>, docs: seq<Document>) returns (content: string)
    ensures content == Csv(Records(headers, docs))
  {
    var rows := [Join(headers, ",")];
    var i := 0;
    while i < |docs|
      invariant 0 <= i <= |docs|
      invariant rows == Records(headers, docs[..i])
    {
      RecordsSnoc(headers, docs[..i], docs[i]);
      assert docs[..i + 1] == docs[..i] + [docs[i]];
      rows := rows + [Row(docs[i])];
      i := i + 1;
    }
    assert docs[..i] == docs;
    content := Csv(rows);
  }

  /** Every export starts with the byte order mark and then the header line. */
  lemma ExportStartsWithHeader(headers: seq<string>, docs: seq<Document>)
    ensures var c := Csv(Records(headers, docs));
      var h := Join(headers, ",");
      |c| > |h| && c[0] == BOM && c[1..1 + |h|] == h
  {
    CsvStartsWithFirst(Records(headers, docs));
  }

  /** No header name holds a quote or a comma, so the header line needs no
      quoting. */
  lemma HeadersNeedNoQuotes()
    ensures forall i, k :: 0 <= i < |HEADERS| && 0 <= k < |HEADERS[i]| ==> HEADERS[i][k] != '"' && HEADERS[i][k] != ','
  {
  }

  /** The page's document list is the constant [], so every export is the
      byte order mark and the header line alone. */
  lemma EmptyReportExport()
    ensures Csv(Records(HEADERS, [])) == [BOM] + Join(HEADERS, ",")
  {
  }

  /** The report's page state: totalPages is the constant 1. */
  class ReportPage {
    var currentPage: int
    const totalPages: int

    constructor()
      ensures currentPage == 1 && totalPages == 1
    {
      currentPage := 1;
      totalPages := 1;
    }

    /** handlePageChange: only a page in [1, totalPages] is taken. */
    method HandlePageChange(page: int)
      modifies this
      ensures currentPage == if 1 <= page <= totalPages then page else old(currentPage)
    {
      if page >= 1 && page <= totalPages {
        currentPage := page;
      }
    }
  }
}
