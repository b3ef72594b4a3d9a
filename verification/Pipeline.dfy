/** One run of `check_and_process_all_mappings` (main.py) as a function of
    the state it touches and of what the outside world answers: the ledger
    ids read once per cycle, the folder-to-chat mappings, and for every new
    file the download, conversion, transcription, prompt, summary, messages,
    ledger write and temp-file cleanup. */
module Pipeline {
  import opened Basics
  import opened Diarization
  import opened DriveListing
  import opened MappingSheet
  import opened PromptDoc
  import opened LedgerSheet

  /** `model_answer` when the prompt document could not be read. */
  const PROMPT_ERROR: string := "Ошибка: Не удалось загрузить промпт для саммаризации."
  /** The ledger's transcription cell when there is no transcription. */
  const TRANSCRIPTION_SENTINEL: string := "Ошибка транскрипции"
  /** The ledger's summary cell when there is no answer. */
  const SUMMARY_SENTINEL: string := "Ошибка саммаризации"

  /** One `bot.send_message` call: the chat, the text (`None` when the
      summarizer gave no answer) and whether the call returned normally. */
  datatype Send = Send(chatId: string, text: Option<string>, delivered: bool)

  datatype SendOutcome = Delivered | SendRaised(detail: string)

  /** The triple `openai_summarizer` returns. */
  datatype SummaryResult = SummaryResult(answer: Option<string>, inputTokens: int, outputTokens: int)

  /** What the outside world does while one file is processed. */
  datatype FileOracle = FileOracle(
    timestamp: int,                     // int(time.time())
    downloadLeavesFile: bool,           // the download path exists after the download call
    convertLeavesFile: bool,            // the audio path exists after the conversion call
    transcription: TranscribeCall,      // the speech, storage and probe calls
    promptDoc: Option<Document>,        // the prompt document, or None when fetching it raised
    completion: Option<SummaryResult>,  // the chat completion, or None when the call raised
    summarySend: SendOutcome,
    errorSend: SendOutcome,
    write: WriteOutcome,
    now: string,                        // datetime.now() formatted
    removalFails: set<string>)          // paths whose os.remove raises

  /** What the outside world does during one cycle: whether the ledger's first
      column could be read, the mapping sheet's records (None when reading
      raised), the Drive service, and the oracle of the `j`-th new file of the
      `k`-th mapping entry, `fileOracles(k)(j)`. */
  datatype CycleOracle = CycleOracle(
    ledgerReadOk: bool,
    mappingSheet: Option<seq<Record>>,
    drive: Drive,
    fileOracles: nat -> nat -> FileOracle)

  /** The state a cycle reads and changes: the in-memory list of processed
      ids, the ledger sheet, the rows passed to `write_to_google_sheet`, the
      Telegram messages attempted, and the temp files that exist. */
  datatype World = World(
    processed: seq<string>,
    ledger: Ledger,
    writeCalls: seq<LedgerRow>,
    sends: seq<Send>,
    temps: set<string>)

  // ---------------------------------------------------------------------
  // One file

  /** `f"{file_audio_id}_{int(time.time())}"` */
  function TempId(fileId: string, timestamp: int): string {
    fileId + "_" + IntToString(timestamp)
  }

  function DownloadPath(tempDir: string, fileId: string, timestamp: int): string {
    PathJoin(tempDir, TempId(fileId, timestamp) + "_downloaded.mp4")
  }

  function AudioPath(tempDir: string, fileId: string, timestamp: int): string {
    PathJoin(tempDir, TempId(fileId, timestamp) + "_converted.wav")
  }

  /** The temp files after a call that leaves `path` behind, or not. */
  function Presence(temps: set<string>, path: string, present: bool): set<string> {
    if present then temps + {path} else temps - {path}
  }

  /** `openai_summarizer`: every error is caught and gives `(None, 0, 0)`. */
  function OpenAISummarizer(completion: Option<SummaryResult>): SummaryResult {
    if completion.Some? then completion.value else SummaryResult(None, 0, 0)
  }

  /** `read_google_doc` as a value: the text on success, `None` on an error. */
  function PromptOf(fetched: Option<Document>): Option<string> {
    if fetched.Some? then Some(DocText(fetched.value)) else None
  }

  /** The summary step: without a prompt the summarizer is not called and
      the answer is the prompt-error text; otherwise the summarizer's triple
      is used as it is (it is always truthy). */
  function Summarize(prompt: Option<string>, completion: Option<SummaryResult>): SummaryResult {
    if prompt.None? then SummaryResult(Some(PROMPT_ERROR), 0, 0) else OpenAISummarizer(completion)
  }

  /** The per-file locals after the `try` block, the sends it made, and the
      exception that left it, if any. */
  datatype Attempt = Attempt(
    transcribed: Option<string>,
    minutes: real,
    answer: Option<string>,
    inputTokens: int,
    outputTokens: int,
    sends: seq<Send>,
    raised: Option<string>)

  /** The `try` block once the download and conversion have run (their
      results are ignored). Only transcription set-up and the summary send
      can raise. */
  function TryBlock(o: FileOracle, chatId: string, audioExists: bool): Attempt {
    match Transcribe(o.transcription, audioExists)
    case Raised(e) => Attempt(None, 0.0, None, 0, 0, [], Some(e))
    case Returned(text, minutes) =>
      var s := Summarize(PromptOf(o.promptDoc), o.completion);
      Attempt(Some(text), minutes, s.answer, s.inputTokens, s.outputTokens,
              [Send(chatId, s.answer, o.summarySend.Delivered?)],
              if o.summarySend.Delivered? then None else Some(o.summarySend.detail))
  }

  function ErrorMessage(fileName: string, detail: string): string {
    "Не удалось обработать файл: " + fileName + "\nОшибка: " + detail
  }

  /** The sends of the `try` block, then the error message of the `except` block. */
  function Notify(a: Attempt, fileName: string, chatId: string, errorSend: SendOutcome): seq<Send> {
    a.sends + (if a.raised.Some? then [Send(chatId, Some(ErrorMessage(fileName, a.raised.value)), errorSend.Delivered?)] else [])
  }

  /** Falsy text replaced by a sentinel, as the `finally` block passes it on. */
  function OrSentinel(t: Option<string>, sentinel: string): string {
    if TextTruthy(t) then t.value else sentinel
  }

  /** The row the `finally` block asks `write_to_google_sheet` to append. */
  function FileRow(file: DriveFile, a: Attempt, email: Value, now: string): LedgerRow {
    RowData(file.id, file.name, Some(OrSentinel(a.transcribed, TRANSCRIPTION_SENTINEL)),
            Some(OrSentinel(a.answer, SUMMARY_SENTINEL)), a.minutes, a.inputTokens, a.outputTokens, email, now)
  }

  /** The cleanup loop: each path that exists is removed, unless removing it raises. */
  function Cleanup(temps: set<string>, paths: seq<string>, removalFails: set<string>): set<string> {
    if paths == [] then temps
    else
      var p := paths[|paths| - 1];
      var before := Cleanup(temps, paths[..|paths| - 1], removalFails);
      if p in before && p !in removalFails then before - {p} else before
  }

  /** The temp files once the download and the conversion have run. */
  function Fetched(temps: set<string>, tempDir: string, file: DriveFile, o: FileOracle): set<string> {
    Presence(Presence(temps, DownloadPath(tempDir, file.id, o.timestamp), o.downloadLeavesFile),
             AudioPath(tempDir, file.id, o.timestamp), o.convertLeavesFile)
  }

  function AttemptOf(w: World, tempDir: string, m: Mapping, file: DriveFile, o: FileOracle): Attempt {
    TryBlock(o, m.chatId, AudioPath(tempDir, file.id, o.timestamp) in Fetched(w.temps, tempDir, file, o))
  }

  /** One pass of the per-file loop body: `try`, `except`, `finally`. */
  function StepFile(w: World, tempDir: string, m: Mapping, file: DriveFile, o: FileOracle): World {
    var a := AttemptOf(w, tempDir, m, file, o);
    var row := FileRow(file, a, m.email, o.now);
    World(
      if file.id != "" then w.processed + [file.id] else w.processed,
      if file.id != "" then WriteToGoogleSheet(w.ledger, row, o.write) else w.ledger,
      if file.id != "" then w.writeCalls + [row] else w.writeCalls,
      w.sends + Notify(a, file.name, m.chatId, o.errorSend),
      Cleanup(Fetched(w.temps, tempDir, file, o),
              [DownloadPath(tempDir, file.id, o.timestamp), AudioPath(tempDir, file.id, o.timestamp)],
              o.removalFails))
  }

  // ---------------------------------------------------------------------
  // One mapping entry, one cycle

  /** The per-file loop over the new files of one entry. */
  function StepFiles(w: World, tempDir: string, m: Mapping, files: seq<DriveFile>, oracle: nat -> FileOracle): World {
    if files == [] then w
    else StepFile(StepFiles(w, tempDir, m, files[..|files| - 1], oracle), tempDir, m, files[|files| - 1], oracle(|files| - 1))
  }

  /** One more file of the loop is one more `StepFile`. */
  lemma StepFilesPrefix(w: World, tempDir: string, m: Mapping, files: seq<DriveFile>, oracle: nat -> FileOracle, j: nat)
    requires j < |files|
    ensures StepFiles(w, tempDir, m, files[..j + 1], oracle)
      == StepFile(StepFiles(w, tempDir, m, files[..j], oracle), tempDir, m, files[j], oracle(j))
  {
    assert files[..j + 1][..j] == files[..j];
  }

  /** The files of an entry that the per-file loop visits: the new files of
      its folder, computed once against the processed ids at the entry's start. */
  function EntryFiles(w: World, drive: Drive, mimeTypes: seq<string>, m: Mapping): seq<DriveFile> {
    var listing := ListedFiles(drive, m.folderId, mimeTypes);
    if listing == [] then [] else NewFiles(listing, w.processed)
  }

  /** One mapping entry: list the folder, keep the new files, process each. */
  function StepEntry(w: World, tempDir: string, mimeTypes: seq<string>, drive: Drive, m: Mapping,
                     oracle: nat -> FileOracle): World {
    var files := EntryFiles(w, drive, mimeTypes, m);
    if files == [] then w else StepFiles(w, tempDir, m, files, oracle)
  }

  function StepEntries(w: World, tempDir: string, mimeTypes: seq<string>, drive: Drive, ms: seq<Mapping>,
                       oracles: nat -> nat -> FileOracle): World {
    if ms == [] then w
    else
      StepEntry(StepEntries(w, tempDir, mimeTypes, drive, ms[..|ms| - 1], oracles),
                tempDir, mimeTypes, drive, ms[|ms| - 1], oracles(|ms| - 1))
  }

  /** One more mapping entry of the loop is one more `StepEntry`. */
  lemma StepEntriesPrefix(w: World, tempDir: string, mimeTypes: seq<string>, drive: Drive, ms: seq<Mapping>,
                          oracles: nat -> nat -> FileOracle, k: nat)
    requires k < |ms|
    ensures StepEntries(w, tempDir, mimeTypes, drive, ms[..k + 1], oracles)
      == StepEntry(StepEntries(w, tempDir, mimeTypes, drive, ms[..k], oracles), tempDir, mimeTypes, drive, ms[k], oracles(k))
  {
    assert ms[..k + 1][..k] == ms[..k];
  }

  /** The mapping entries of a cycle, as `read_mapping_sheet` returns them. */
  function MappingsOf(sheet: Option<seq<Record>>): seq<Mapping> {
    if sheet.Some? then ValidMappings(sheet.value) else []
  }

  /** One cycle: read the processed ids once (stop if that fails), read the
      mappings (stop if there are none), and process every entry. */
  function Cycle(w: World, tempDir: string, mimeTypes: seq<string>, o: CycleOracle): World {
    var ids := GetFirstColumnValues(w.ledger, o.ledgerReadOk);
    if ids.None? then w
    else
      var w1 := w.(processed := ids.value);
      var ms := MappingsOf(o.mappingSheet);
      if ms == [] then w1 else StepEntries(w1, tempDir, mimeTypes, o.drive, ms, o.fileOracles)
  }
}
