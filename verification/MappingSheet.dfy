/** `read_mapping_sheet` (voicy_functions.py): turning the records of the
    folder-to-chat mapping sheet into the list of folders to scan. */
module MappingSheet {
  import opened Basics

  /** A cell value as the sheet client returns it from `get_all_records`:
      text, or a number it recognised (integers only in this model). */
  datatype Value = Str(s: string) | Int(i: int)

  /** Python truthiness of a cell value. */
  predicate Truthy(v: Value) {
    match v
    case Str(s) => s != ""
    case Int(i) => i != 0
  }

  /** Python's `str(value)`. */
  function PyStr(v: Value): string {
    match v
    case Str(s) => s
    case Int(i) => IntToString(i)
  }

  /** One sheet row, keyed by the header cells. */
  type Record = map<string, Value>

  /** One kept mapping: the `email` value as found, and the stripped folder
      and chat ids. */
  datatype Mapping = Mapping(email: Value, folderId: string, chatId: string)

  /** The row filter: both ids present and truthy. */
  predicate IsValidRecord(r: Record) {
    "folder_id" in r && Truthy(r["folder_id"]) && "chat_id" in r && Truthy(r["chat_id"])
  }

  /** The dictionary appended for a kept row. */
  function ToMapping(r: Record): Mapping
    requires IsValidRecord(r)
  {
    Mapping(if "email" in r then r["email"] else Str(""), Strip(PyStr(r["folder_id"])), Strip(PyStr(r["chat_id"])))
  }

  /** The mappings of the valid records, in sheet order. */
  function ValidMappings(records: seq<Record>): seq<Mapping> {
    if records == [] then []
    else
      var r := records[|records| - 1];
      ValidMappings(records[..|records| - 1]) + (if IsValidRecord(r) then [ToMapping(r)] else [])
  }

  /** `read_mapping_sheet`, given the records the sheet client returned, or
      `None` when opening the spreadsheet or reading it raised (every error
      is caught and yields the empty list). */
  method ReadMappingSheet(sheet: Option<seq<Record>>) returns (mappings: seq<Mapping>)
    ensures sheet.None? ==> mappings == []
    ensures sheet.Some? ==> mappings == ValidMappings(sheet.value)
  {
    mappings := [];
    if sheet.None? {
      return;
    }
    var records := sheet.value;
    for i := 0 to |records|
      invariant mappings == ValidMappings(records[..i])
    {
      ValidMappingsStep(records, i);
      var record := records[i];
      if "folder_id" in record && Truthy(record["folder_id"]) && "chat_id" in record && Truthy(record["chat_id"]) {
        mappings := mappings + [ToMapping(record)];
      }
    }
    assert records[..|records|] == records;
  }

  lemma ValidMappingsStep(records: seq<Record>, i: nat)
    requires i < |records|
    ensures ValidMappings(records[..i + 1])
      == ValidMappings(records[..i]) + (if IsValidRecord(records[i]) then [ToMapping(records[i])] else [])
  {
    assert records[..i + 1][..i] == records[..i];
  }

  /** The filter distributes over concatenation, so sheet order is kept. */
  lemma {:induction false} ValidMappingsAppend(a: seq<Record>, b: seq<Record>)
    ensures ValidMappings(a + b) == ValidMappings(a) + ValidMappings(b)
    decreases |b|
  {
    if b == [] {
      assert a + b == a;
    } else {
      var b' := b[..|b| - 1];
      var last := b[|b| - 1];
      assert b == b' + [last];
      assert a + b == (a + b') + [last];
      ValidMappingsAppend(a, b');
      ValidMappingsSnoc(a + b', last);
      ValidMappingsSnoc(b', last);
      SeqAssoc(ValidMappings(a), ValidMappings(b'), if IsValidRecord(last) then [ToMapping(last)] else []);
    }
  }

  lemma ValidMappingsSnoc(records: seq<Record>, r: Record)
    ensures ValidMappings(records + [r]) == ValidMappings(records) + (if IsValidRecord(r) then [ToMapping(r)] else [])
  {
    assert (records + [r])[..|records|] == records;
  }


  /** A record is kept exactly when both ids are present and truthy. */
  lemma ValidMappingsSingle(r: Record)
    ensures ValidMappings([r]) == (if IsValidRecord(r) then [ToMapping(r)] else [])
  {
    var kept := if IsValidRecord(r) then [ToMapping(r)] else [];
    assert [r][..0] == [];
    assert ValidMappings([r]) == ValidMappings([]) + kept;
    assert [] + kept == kept;
  }

  /** Every kept mapping comes from a valid record, and every valid record
      gives a kept mapping. */
  lemma {:induction false} ValidMappingsExact(records: seq<Record>)
    ensures forall m | m in ValidMappings(records) :: exists r | r in records :: IsValidRecord(r) && m == ToMapping(r)
    ensures forall r | r in records && IsValidRecord(r) :: ToMapping(r) in ValidMappings(records)
    decreases |records|
  {
    if records != [] {
      var pre := records[..|records| - 1];
      ValidMappingsExact(pre);
      assert records == pre + [records[|records| - 1]];
      forall r | r in records && IsValidRecord(r) ensures ToMapping(r) in ValidMappings(records) {
        if r !in pre {
          assert r == records[|records| - 1];
        }
      }
    }
  }

  /** A folder or chat id made only of whitespace passes the truthiness check
      and then becomes the empty string. */
  lemma WhitespaceIdBecomesEmpty(r: Record, s: string)
    requires IsValidRecord(r) && r["folder_id"] == Str(s)
    requires forall i | 0 <= i < |s| :: IsSpace(s[i])
    ensures s != [] && ToMapping(r).folderId == ""
  {
    StripBlank(s);
  }

  /** A missing `email` column defaults to the empty string. */
  lemma EmailDefault(r: Record)
    requires IsValidRecord(r) && "email" !in r
    ensures ToMapping(r).email == Str("") && !Truthy(ToMapping(r).email)
  {
  }

  /** A numeric id cell is kept as its decimal text. */
  lemma NumericIdKept(r: Record, n: int)
    requires "folder_id" in r && r["folder_id"] == Int(n) && n != 0
    requires "chat_id" in r && Truthy(r["chat_id"])
    ensures IsValidRecord(r) && ToMapping(r).folderId == IntToString(n)
  {
    var t := IntToString(n);
    assert !IsSpace(t[0]) && !IsSpace(t[|t| - 1]);
    StripTrimmed(t);
  }
}
