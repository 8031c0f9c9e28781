/**
 * The participants API over the worksheet: list every data row as a record,
 * append one, and delete or overwrite the first data row whose
 * "Serial Number" equals the serial in the request path (404 when none does).
 */
module SheetApi {
  import opened Wrappers
  import opened Participants
  import opened Sheets

  const SerialNumberHeading := "Serial Number"
  const NameHeading := "Name"
  const ProgramEventsHeading := "Program Events"
  const IssueDateHeading := "Issue Date"
  const PositionHeading := "Position"
  const ProgramPhotoLinkHeading := "Program Photo Link"
  const CertificateUrlHeading := "Certificate URL"

  /** The key the list endpoint reads the program events under, as written (with a backslash). */
  const ProgramEventsKeyAsWritten := "Program\\ Events"

  /** The headings of columns A to G, in the order rows are written. */
  const Headings: Row := [SerialNumberHeading, NameHeading, ProgramEventsHeading, IssueDateHeading,
                          PositionHeading, ProgramPhotoLinkHeading, CertificateUrlHeading]

  /** A JSON reply: its status and its "message" or "error" text. */
  datatype Reply = Message(status: int, text: string) | Error(status: int, text: string)

  const Added := Message(201, "Participant added successfully.")
  const Deleted := Message(200, "Participant deleted.")
  const Updated := Message(200, "Participant updated.")
  const NotFound := Error(404, "Participant not found.")

  /** `rec.get(key, "")`. */
  function Lookup(rec: Record, key: string): (r: string)
    ensures key in rec ==> r == rec[key]
    ensures key !in rec ==> r == ""
  {
    if key in rec then rec[key] else ""
  }

  /** The 0-based column (A is 0) each field is written to. */
  function Column(f: Field): (c: nat)
    ensures c < 7
  {
    match f
    case SerialNumber => 0
    case Name => 1
    case ProgramEvents => 2
    case IssueDate => 3
    case Position => 4
    case ProgramPhotoLink => 5
    case CertificateUrl => 6
  }

  /** One participant read under the column headings: each field under its own column's heading, "" when absent. */
  function Clean(rec: Record): (r: Participant)
    ensures forall f :: FieldValue(r, f) == Lookup(rec, Headings[Column(f)])
  {
    Participant(
      Lookup(rec, SerialNumberHeading),
      Lookup(rec, NameHeading),
      Lookup(rec, ProgramEventsHeading),
      Lookup(rec, IssueDateHeading),
      Lookup(rec, PositionHeading),
      Lookup(rec, ProgramPhotoLinkHeading),
      Lookup(rec, CertificateUrlHeading))
  }

  /** One listed participant as the list endpoint builds it, program events read under the backslash key. */
  function CleanAsWritten(rec: Record): (r: Participant)
    ensures forall f :: f != ProgramEvents ==> FieldValue(r, f) == FieldValue(Clean(rec), f)
    ensures r.programEvents == Lookup(rec, ProgramEventsKeyAsWritten)
    ensures ProgramEventsKeyAsWritten !in rec ==> r.programEvents == ""
  {
    Clean(rec).(programEvents := Lookup(rec, ProgramEventsKeyAsWritten))
  }

  /** The seven cells written for a participant, columns A to G. */
  function RowOf(p: Participant): (r: Row)
    ensures |r| == 7
    ensures forall f :: r[Column(f)] == FieldValue(p, f)
  {
    [p.serialNumber, p.name, p.programEvents, p.issueDate, p.position, p.programPhotoLink, p.certificateUrl]
  }

  /** `row.get("Serial Number") == serial_number`: a row without the column never matches. */
  predicate MatchesSerial(rec: Record, serial: string)
    ensures MatchesSerial(rec, serial) ==> Lookup(rec, SerialNumberHeading) == serial
    ensures serial != "" && Lookup(rec, SerialNumberHeading) == serial ==> MatchesSerial(rec, serial)
  {
    SerialNumberHeading in rec && rec[SerialNumberHeading] == serial
  }

  /** The 0-based index of the first record with the serial, if any. */
  function FirstMatch(records: seq<Record>, serial: string): (r: Option<nat>)
    ensures r.Some? ==> r.value < |records| && MatchesSerial(records[r.value], serial)
    ensures r.Some? ==> forall j :: 0 <= j < r.value ==> !MatchesSerial(records[j], serial)
    ensures r.None? ==> forall j :: 0 <= j < |records| ==> !MatchesSerial(records[j], serial)
  {
    if records == [] then None
    else if MatchesSerial(records[0], serial) then Some(0)
    else
      match FirstMatch(records[1..], serial)
      case None => None
      case Some(k) => Some(k + 1)
  }

  /** The first matching index found by a scan is the one FirstMatch names. */
  lemma FirstMatchAt(records: seq<Record>, serial: string, k: nat)
    requires k < |records| && MatchesSerial(records[k], serial)
    requires forall j :: 0 <= j < k ==> !MatchesSerial(records[j], serial)
    ensures FirstMatch(records, serial) == Some(k)
  {
  }

  /** `enumerate(records, start=2)`: record `k` sits on sheet row `k + 2`, below the header. */
  function SheetRowNumber(k: nat): (n: nat)
    ensures 2 <= n
  {
    k + 2
  }

  /** The grid and reply after a DELETE for `serial`. */
  function DeleteOutcome(cells: seq<Row>, serial: string): (r: (seq<Row>, Reply))
    ensures r.1 == Deleted || r.1 == NotFound
    ensures r.1 == NotFound <==> FirstMatch(Records(cells), serial).None?
    ensures r.1 == NotFound ==> r.0 == cells
    ensures r.1 == Deleted ==> |r.0| == |cells| - 1
  {
    match FirstMatch(Records(cells), serial)
    case None => (cells, NotFound)
    case Some(k) => (DeleteRow(cells, SheetRowNumber(k)), Deleted)
  }

  /** The grid and reply after a PUT for `serial` whose body holds `fields`. */
  function UpdateOutcome(cells: seq<Row>, serial: string, fields: Participant): (r: (seq<Row>, Reply))
    ensures r.1 == Updated || r.1 == NotFound
    ensures r.1 == NotFound <==> FirstMatch(Records(cells), serial).None?
    ensures r.1 == NotFound ==> r.0 == cells
    ensures |r.0| == |cells|
  {
    match FirstMatch(Records(cells), serial)
    case None => (cells, NotFound)
    case Some(k) =>
      var n := SheetRowNumber(k);
      (cells[n - 1 := Overwrite(cells[n - 1], RowOf(fields))], Updated)
  }

  // ---------------------------------------------------------------------------
  // The endpoints
  // ---------------------------------------------------------------------------

  /**
   * GET /participants: one participant per data row, in row order, read as
   * the endpoint reads it (program events under the backslash key).
   */
  method GetParticipants(sheet: Worksheet) returns (cleaned: seq<Participant>)
    ensures |cleaned| == |Records(sheet.cells)|
    ensures forall k :: 0 <= k < |cleaned| ==> cleaned[k] == CleanAsWritten(Records(sheet.cells)[k])
  {
    var records := sheet.GetAllRecords();
    cleaned := [];
    for k := 0 to |records|
      invariant |cleaned| == k
      invariant forall j :: 0 <= j < k ==> cleaned[j] == CleanAsWritten(records[j])
    {
      cleaned := cleaned + [CleanAsWritten(records[k])];
    }
  }

  /** POST /participants: the seven fields appended as one row; 201. */
  method AddParticipant(sheet: Worksheet, data: Participant) returns (reply: Reply)
    modifies sheet
    ensures sheet.cells == old(sheet.cells) + [RowOf(data)]
    ensures reply == Added
  {
    var row := RowOf(data);
    sheet.AppendRow(row);
    reply := Added;
  }

  /** DELETE /participants/<serial>: the first matching data row is deleted; 404 when none matches. */
  method DeleteParticipant(sheet: Worksheet, serial: string) returns (reply: Reply)
    modifies sheet
    ensures (sheet.cells, reply) == DeleteOutcome(old(sheet.cells), serial)
  {
    var records := sheet.GetAllRecords();
    var k := 0;
    while k < |records|
      invariant 0 <= k <= |records|
      invariant forall j :: 0 <= j < k ==> !MatchesSerial(records[j], serial)
      invariant sheet.cells == old(sheet.cells)
    {
      var i := SheetRowNumber(k);
      if MatchesSerial(records[k], serial) {
        FirstMatchAt(records, serial, k);
        sheet.DeleteRows(i);
        return Deleted;
      }
      k := k + 1;
    }
    reply := NotFound;
  }

  /**
   * PUT /participants/<serial>: columns A to G of the first matching data row
   * are overwritten from the body; 404 when none matches. The body's password
   * is never read.
   */
  method UpdateParticipant(sheet: Worksheet, serial: string, body: Body) returns (reply: Reply)
    modifies sheet
    ensures (sheet.cells, reply) == UpdateOutcome(old(sheet.cells), serial, body.fields)
  {
    var records := sheet.GetAllRecords();
    var k := 0;
    while k < |records|
      invariant 0 <= k <= |records|
      invariant forall j :: 0 <= j < k ==> !MatchesSerial(records[j], serial)
      invariant sheet.cells == old(sheet.cells)
    {
      var i := SheetRowNumber(k);
      if MatchesSerial(records[k], serial) {
        FirstMatchAt(records, serial, k);
        sheet.UpdateRow(i, RowOf(body.fields));
        return Updated;
      }
      k := k + 1;
    }
    reply := NotFound;
  }

  // ---------------------------------------------------------------------------
  // Properties
  // ---------------------------------------------------------------------------

  /** A header whose columns A to G carry the seven headings and whose later columns repeat none of them. */
  predicate HeaderFits(header: Row)
  {
    |header| >= 7 && header[..7] == Headings &&
    forall j :: 7 <= j < |header| ==> header[j] !in Headings
  }

  /** The seven headings are pairwise different. */
  lemma HeadingsDistinct()
    ensures forall i, m :: 0 <= i < m < 7 ==> Headings[i] != Headings[m]
  {
  }

  /** Under a fitting header, heading `j` reads the cell of column `j`. */
  lemma FittedColumn(header: Row, row: Row, j: nat)
    requires HeaderFits(header) && j < 7
    ensures Headings[j] in RecordOf(header, row)
    ensures RecordOf(header, row)[Headings[j]] == Cell(row, j)
  {
    assert header[j] == header[..7][j] == Headings[j];
    forall m | j < m < |header|
      ensures header[m] != header[j]
    {
      if m < 7 {
        assert header[m] == header[..7][m] == Headings[m];
        HeadingsDistinct();
      }
    }
    RecordOfColumn(header, row, j);
  }

  /** Under a fitting header, each listed field is the cell of its own column. */
  lemma FittedRecord(header: Row, row: Row)
    requires HeaderFits(header)
    ensures Clean(RecordOf(header, row)) ==
            Participant(Cell(row, 0), Cell(row, 1), Cell(row, 2), Cell(row, 3), Cell(row, 4), Cell(row, 5), Cell(row, 6))
  {
    FittedColumn(header, row, 0);
    FittedColumn(header, row, 1);
    FittedColumn(header, row, 2);
    FittedColumn(header, row, 3);
    FittedColumn(header, row, 4);
    FittedColumn(header, row, 5);
    FittedColumn(header, row, 6);
  }

  /** A written participant reads back as itself. */
  lemma RowRoundTrip(header: Row, p: Participant)
    requires HeaderFits(header)
    ensures Clean(RecordOf(header, RowOf(p))) == p
  {
    FittedRecord(header, RowOf(p));
  }

  /** A participant written over an existing row reads back as itself, whatever the row held. */
  lemma OverwriteRoundTrip(header: Row, row: Row, p: Participant)
    requires HeaderFits(header)
    ensures Clean(RecordOf(header, Overwrite(row, RowOf(p)))) == p
  {
    FittedRecord(header, Overwrite(row, RowOf(p)));
  }

  /** After an add, the list is the old list with the new participant at the end. */
  lemma AddThenList(cells: seq<Row>, p: Participant)
    requires cells != [] && HeaderFits(cells[0])
    ensures |Records(cells + [RowOf(p)])| == |Records(cells)| + 1
    ensures Records(cells + [RowOf(p)])[..|Records(cells)|] == Records(cells)
    ensures Clean(Records(cells + [RowOf(p)])[|Records(cells)|]) == p
  {
    RecordsAppend(cells, RowOf(p));
    RowRoundTrip(cells[0], p);
  }

  /**
   * With the list endpoint's backslash key, an added participant with
   * program events comes back with them blank.
   */
  lemma AsWrittenLosesProgramEvents(cells: seq<Row>, p: Participant)
    requires cells != [] && HeaderFits(cells[0]) && ProgramEventsKeyAsWritten !in cells[0]
    requires p.programEvents != ""
    ensures CleanAsWritten(Records(cells + [RowOf(p)])[|Records(cells)|]) == p.(programEvents := "")
    ensures CleanAsWritten(Records(cells + [RowOf(p)])[|Records(cells)|]) != p
  {
    RecordsAppend(cells, RowOf(p));
    RowRoundTrip(cells[0], p);
    RecordOfKeys(cells[0], RowOf(p), ProgramEventsKeyAsWritten);
  }

  /** DELETE with a match: reply 200, and exactly the first matching record is gone, the rest keeping their order. */
  lemma DeleteRemovesFirstMatch(cells: seq<Row>, serial: string, k: nat)
    requires FirstMatch(Records(cells), serial) == Some(k)
    ensures DeleteOutcome(cells, serial).1 == Deleted
    ensures Records(DeleteOutcome(cells, serial).0) == Records(cells)[..k] + Records(cells)[k + 1..]
  {
    RecordsDelete(cells, k);
  }

  /** DELETE without a match: reply 404 and the grid unchanged. */
  lemma DeleteWithoutMatch(cells: seq<Row>, serial: string)
    requires FirstMatch(Records(cells), serial) == None
    ensures DeleteOutcome(cells, serial) == (cells, NotFound)
  {
  }

  /**
   * PUT with a match: reply 200; the first record matching the path serial
   * takes the body's fields, its serial included, and every other record is unchanged.
   */
  lemma UpdateOverwritesFirstMatch(cells: seq<Row>, serial: string, fields: Participant, k: nat)
    requires FirstMatch(Records(cells), serial) == Some(k)
    ensures UpdateOutcome(cells, serial, fields).1 == Updated
    ensures |Records(UpdateOutcome(cells, serial, fields).0)| == |Records(cells)|
    ensures forall j :: 0 <= j < |Records(cells)| && j != k ==>
              Records(UpdateOutcome(cells, serial, fields).0)[j] == Records(cells)[j]
    ensures HeaderFits(cells[0]) ==> Clean(Records(UpdateOutcome(cells, serial, fields).0)[k]) == fields
  {
    RecordsOverwrite(cells, k, RowOf(fields));
    if HeaderFits(cells[0]) {
      OverwriteRoundTrip(cells[0], cells[k + 1], fields);
    }
  }

  /**
   * With the backslash key, a record listed and then submitted back unchanged
   * as an edit has its program events erased in the sheet.
   */
  lemma EditAsListedErasesProgramEvents(cells: seq<Row>, serial: string, k: nat)
    requires cells != [] && HeaderFits(cells[0]) && ProgramEventsKeyAsWritten !in cells[0]
    requires FirstMatch(Records(cells), serial) == Some(k)
    ensures Lookup(Records(UpdateOutcome(cells, serial, CleanAsWritten(Records(cells)[k])).0)[k], ProgramEventsHeading) == ""
  {
    var listed := CleanAsWritten(Records(cells)[k]);
    RecordOfKeys(cells[0], cells[k + 1], ProgramEventsKeyAsWritten);
    UpdateOverwritesFirstMatch(cells, serial, listed, k);
  }

  /** PUT without a match: reply 404 and the grid unchanged. */
  lemma UpdateWithoutMatch(cells: seq<Row>, serial: string, fields: Participant)
    requires FirstMatch(Records(cells), serial) == None
    ensures UpdateOutcome(cells, serial, fields) == (cells, NotFound)
  {
  }
}
