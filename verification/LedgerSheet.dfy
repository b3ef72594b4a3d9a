/** The processed-files ledger spreadsheet: `write_to_google_sheet` (the
    header decision and the row it appends) and `get_first_column_values`
    (the ids already recorded), in voicy_functions.py. */
module LedgerSheet {
  import opened Basics
  import opened MappingSheet

  /** The header the ledger is expected to carry. */
  const HEADER: seq<string> := [
    "meeting_id", "meeting_name", "transcribation_text", "summary", "speech_minutes",
    "input_openai", "output_openai", "source_identifier", "date_processed"]

  /** One appended row, its cells in header order. */
  datatype LedgerRow = LedgerRow(
    meetingId: string,
    meetingName: string,
    transcription: string,
    summary: string,
    speechMinutes: real,
    inputTokens: int,
    outputTokens: int,
    sourceIdentifier: Value,
    dateProcessed: string)

  /** The first sheet of the ledger: row 1 as read back by `row_values(1)`
      (empty when the row is blank), and the rows appended below it. */
  datatype Ledger = Ledger(header: seq<string>, rows: seq<LedgerRow>)

  /** How far a `write_to_google_sheet` call got before the sheet client
      raised, if it did; every error is caught and only logged. */
  datatype WriteOutcome =
    | FailsBeforeHeader  // opening the spreadsheet, reading row 1 or writing the header raised
    | FailsAtAppend      // `append_row` raised
    | Appended

  /** Row 1 after the header decision: the header is written only into a
      blank row 1; a different, non-blank row 1 is left as it is. */
  function HeaderAfterCheck(current: seq<string>): (h: seq<string>)
    ensures h != []
    ensures current != [] ==> h == current
    ensures current == [] ==> h == HEADER
  {
    if current != HEADER then (if current == [] then HEADER else current) else current
  }

  /** Python truthiness of an optional text argument. */
  predicate TextTruthy(t: Option<string>) {
    t.Some? && t.value != ""
  }

  /** The `row_data` list: empty or missing texts become "N/A", a falsy source
      becomes the empty string. */
  function RowData(meetingId: string, meetingName: string, transcription: Option<string>, summary: Option<string>,
                   speechMinutes: real, inputTokens: int, outputTokens: int, source: Value, now: string): (row: LedgerRow)
    ensures row.meetingId == meetingId && row.meetingName == meetingName
    ensures row.transcription == (if TextTruthy(transcription) then transcription.value else "N/A")
    ensures row.summary == (if TextTruthy(summary) then summary.value else "N/A")
    ensures row.transcription != "" && row.summary != ""
    ensures row.speechMinutes == speechMinutes && row.dateProcessed == now
    ensures row.inputTokens == inputTokens && row.outputTokens == outputTokens
    ensures Truthy(source) ==> row.sourceIdentifier == source
    ensures !Truthy(source) ==> row.sourceIdentifier == Str("")
  {
    LedgerRow(
      meetingId,
      meetingName,
      if TextTruthy(transcription) then transcription.value else "N/A",
      if TextTruthy(summary) then summary.value else "N/A",
      speechMinutes,
      inputTokens,
      outputTokens,
      if Truthy(source) then source else Str(""),
      now)
  }

  /** The ledger after one `write_to_google_sheet` call: rows are only ever
      appended, one at most, and row 1 changes only by the header decision. */
  function WriteToGoogleSheet(ledger: Ledger, row: LedgerRow, outcome: WriteOutcome): (after: Ledger)
    ensures after.rows == ledger.rows + (if outcome.Appended? then [row] else [])
    ensures ledger.rows <= after.rows && |after.rows| <= |ledger.rows| + 1
    ensures after.header == if outcome.FailsBeforeHeader? then ledger.header else HeaderAfterCheck(ledger.header)
  {
    match outcome
    case FailsBeforeHeader => ledger
    case FailsAtAppend => ledger.(header := HeaderAfterCheck(ledger.header))
    case Appended => Ledger(HeaderAfterCheck(ledger.header), ledger.rows + [row])
  }

  /** The meeting ids of the rows, in order. */
  function MeetingIds(rows: seq<LedgerRow>): (ids: seq<string>)
    ensures |ids| == |rows|
    ensures forall k | 0 <= k < |rows| :: ids[k] == rows[k].meetingId
  {
    if rows == [] then [] else MeetingIds(rows[..|rows| - 1]) + [rows[|rows| - 1].meetingId]
  }

  /** `col_values(1)`: the first cell of row 1 (the header's `meeting_id`
      when the header is the expected one), then the id of every row. */
  function FirstColumn(ledger: Ledger): seq<string> {
    (if ledger.header == [] then [] else [ledger.header[0]]) + MeetingIds(ledger.rows)
  }

  /** `get_first_column_values`: the first column, or `None` when reading raised. */
  function GetFirstColumnValues(ledger: Ledger, readOk: bool): (r: Option<seq<string>>)
    ensures readOk <==> r.Some?
    ensures readOk ==> r.value == FirstColumn(ledger)
  {
    if readOk then Some(FirstColumn(ledger)) else None
  }

  /** Rows are only appended below a header: a blank row 1 means no rows. */
  predicate WellFormed(ledger: Ledger) {
    ledger.header == [] ==> ledger.rows == []
  }

  /** Every write keeps the ledger well formed, and a write that got past
      the header check leaves a non-blank row 1 behind. */
  lemma WriteKeepsWellFormed(ledger: Ledger, row: LedgerRow, outcome: WriteOutcome)
    requires WellFormed(ledger)
    ensures WellFormed(WriteToGoogleSheet(ledger, row, outcome))
    ensures !outcome.FailsBeforeHeader? ==> WriteToGoogleSheet(ledger, row, outcome).header != []
  {
  }

  /** A non-blank row 1 is never overwritten, whatever it holds. */
  lemma HeaderNeverOverwritten(ledger: Ledger, row: LedgerRow, outcome: WriteOutcome)
    requires ledger.header != []
    ensures WriteToGoogleSheet(ledger, row, outcome).header == ledger.header
  {
  }

  lemma MeetingIdsSnoc(rows: seq<LedgerRow>, row: LedgerRow)
    ensures MeetingIds(rows + [row]) == MeetingIds(rows) + [row.meetingId]
  {
    assert (rows + [row])[..|rows|] == rows;
  }

  /** A successful write records the meeting id in the first column, after
      what was there (and after the header when it was just written). */
  lemma AppendedIdIsRecorded(ledger: Ledger, row: LedgerRow)
    requires WellFormed(ledger)
    ensures FirstColumn(WriteToGoogleSheet(ledger, row, Appended))
      == (if ledger.header == [] then ["meeting_id"] else FirstColumn(ledger)) + [row.meetingId]
    ensures row.meetingId in FirstColumn(WriteToGoogleSheet(ledger, row, Appended))
  {
    MeetingIdsSnoc(ledger.rows, row);
    if ledger.header == [] {
      assert ledger.rows == [];
      assert MeetingIds([] + [row]) == [row.meetingId];
    }
  }

  /** A failed write leaves the recorded ids as they were: the file will be
      seen as new by the next cycle unless its id is there already. */
  lemma FailedWriteForgotten(ledger: Ledger, row: LedgerRow, outcome: WriteOutcome)
    requires WellFormed(ledger) && !outcome.Appended?
    ensures MeetingIds(WriteToGoogleSheet(ledger, row, outcome).rows) == MeetingIds(ledger.rows)
    ensures row.meetingId in FirstColumn(WriteToGoogleSheet(ledger, row, outcome))
      ==> row.meetingId in FirstColumn(ledger) || (ledger.header == [] && row.meetingId == "meeting_id")
  {
  }
}
