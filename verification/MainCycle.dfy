/** `check_and_process_all_mappings` (main.py) as the steps it takes: the
    state it keeps between and during cycles lives in a `Processor`, and
    every step is proved to agree with the cycle functions of `Pipeline`,
    about which `PipelineProperties` proves what a cycle guarantees. */
module MainCycle {
  import opened Basics
  import opened Diarization
  import opened DriveListing
  import opened MappingSheet
  import opened PromptDoc
  import opened LedgerSheet
  import opened Pipeline

  class Processor {
    /** `conf.TEMP_FOLDER_PATH` and `media_mime_types`. */
    const tempDir: string
    const mimeTypes: seq<string>

    /** `processed_media_ids`, read at the start of every cycle. */
    var processedIds: seq<string>
    /** The ledger spreadsheet, the rows given to `write_to_google_sheet`,
        the Telegram messages attempted and the files in the temp folder. */
    var ledger: Ledger
    var writeCalls: seq<LedgerRow>
    var sends: seq<Send>
    var temps: set<string>

    function State(): World
      reads this
    {
      World(processedIds, ledger, writeCalls, sends, temps)
    }

    constructor(tempDir: string, mimeTypes: seq<string>, ledger: Ledger, temps: set<string>)
      ensures this.tempDir == tempDir && this.mimeTypes == mimeTypes
      ensures State() == World([], ledger, [], [], temps)
    {
      this.tempDir := tempDir;
      this.mimeTypes := mimeTypes;
      processedIds := [];
      this.ledger := ledger;
      writeCalls := [];
      sends := [];
      this.temps := temps;
    }

    /** The cleanup loop of the `finally` block: every path that exists is
        removed; a removal that raises is logged and the loop goes on. */
    method RemoveTempFiles(paths: seq<string>, removalFails: set<string>)
      modifies this
      ensures State() == old(State()).(temps := Cleanup(old(temps), paths, removalFails))
    {
      ghost var start := temps;
      for i := 0 to |paths|
        invariant State() == old(State()).(temps := Cleanup(start, paths[..i], removalFails))
      {
        assert paths[..i + 1][..i] == paths[..i];
        var path := paths[i];
        if path in temps && path !in removalFails {
          temps := temps - {path};
        }
      }
      assert paths[..|paths|] == paths;
    }

    /** The `try` block once the download and the conversion have run:
        transcribe, read the prompt, summarise and send the summary. The
        result holds the locals it leaves behind and the exception that left
        it, if any; the sends are recorded as they happen. */
    method TryBlockSteps(chatId: string, o: FileOracle, audioExists: bool) returns (a: Attempt)
      modifies this
      ensures a == TryBlock(o, chatId, audioExists)
      ensures State() == old(State()).(sends := old(sends) + a.sends)
    {
      var transcribedText: Option<string> := None;
      var durationMinutes: real := 0.0;
      var modelAnswer: Option<string> := None;
      var inputTokens, outputTokens := 0, 0;
      var t := TranscribeAudioFile(o.transcription, audioExists);
      if t.Raised? {
        return Attempt(transcribedText, durationMinutes, modelAnswer, inputTokens, outputTokens, [], Some(t.detail));
      }
      transcribedText, durationMinutes := Some(t.text), t.minutes;
      var prompt := ReadGoogleDoc(o.promptDoc);
      if prompt.None? {
        modelAnswer := Some(PROMPT_ERROR);
      } else {
        var summary := OpenAISummarizer(o.completion);
        modelAnswer, inputTokens, outputTokens := summary.answer, summary.inputTokens, summary.outputTokens;
      }
      var sent := Send(chatId, modelAnswer, o.summarySend.Delivered?);
      sends := sends + [sent];
      var raised := if o.summarySend.SendRaised? then Some(o.summarySend.detail) else None;
      a := Attempt(transcribedText, durationMinutes, modelAnswer, inputTokens, outputTokens, [sent], raised);
    }

    /** One pass of the per-file loop: the `try` block (download, convert,
        then `TryBlockSteps`), the `except` block (send the error message)
        and the `finally` block (write the row and record the id when the
        file has an id, then remove the temp files). */
    method ProcessFile(m: Mapping, file: DriveFile, o: FileOracle)
      modifies this
      ensures State() == StepFile(old(State()), tempDir, m, file, o)
    {
      ghost var w := State();
      var downloadedFilePath := DownloadPath(tempDir, file.id, o.timestamp);
      var audioFilePath := AudioPath(tempDir, file.id, o.timestamp);

      // try
      Fetch(file, o);
      var a := TryBlockSteps(m.chatId, o, audioFilePath in temps);
      assert a == AttemptOf(w, tempDir, m, file, o);

      // except
      ghost var errors := Notify(a, file.name, m.chatId, o.errorSend)[|a.sends|..];
      ReportError(m.chatId, file.name, a.raised, o.errorSend);
      NotifySplit(a, file.name, m.chatId, o.errorSend);
      SeqAssoc(w.sends, a.sends, errors);

      // finally
      if file.id != "" {
        RecordRow(FileRow(file, a, m.email, o.now), o.write);
      }
      RemoveTempFiles([downloadedFilePath, audioFilePath], o.removalFails);
    }

    /** The `except` block: the error message names the file and the exception. */
    method ReportError(chatId: string, fileName: string, raised: Option<string>, errorSend: SendOutcome)
      modifies this
      ensures State() == old(State()).(sends := old(sends) +
        if raised.Some? then [Send(chatId, Some(ErrorMessage(fileName, raised.value)), errorSend.Delivered?)] else [])
    {
      if raised.Some? {
        sends := sends + [Send(chatId, Some(ErrorMessage(fileName, raised.value)), errorSend.Delivered?)];
      } else {
        assert sends + [] == sends;
      }
    }

    /** The download and the conversion: each leaves its file in the temp
        folder, or not; what they return is not looked at. */
    method Fetch(file: DriveFile, o: FileOracle)
      modifies this
      ensures State() == old(State()).(temps := Fetched(old(temps), tempDir, file, o))
    {
      temps := Presence(temps, DownloadPath(tempDir, file.id, o.timestamp), o.downloadLeavesFile);
      temps := Presence(temps, AudioPath(tempDir, file.id, o.timestamp), o.convertLeavesFile);
    }

    /** The ledger write of the `finally` block and the id it records. */
    method RecordRow(row: LedgerRow, outcome: WriteOutcome)
      modifies this
      ensures State() == old(State()).(processed := old(processedIds) + [row.meetingId],
                                       ledger := WriteToGoogleSheet(old(ledger), row, outcome),
                                       writeCalls := old(writeCalls) + [row])
    {
      ledger := WriteToGoogleSheet(ledger, row, outcome);
      writeCalls := writeCalls + [row];
      processedIds := processedIds + [row.meetingId];
    }

    /** The body of the loop over mapping entries: list the folder, stop if
        it holds no media, keep the new files (against the processed ids as
        they are now), stop if there are none, and process each of them. */
    method ProcessEntry(m: Mapping, drive: Drive, oracle: nat -> FileOracle)
      modifies this
      ensures State() == StepEntry(old(State()), tempDir, mimeTypes, drive, m, oracle)
    {
      var mediaInFolder := FindMediaFilesOnDrive(drive, m.folderId, mimeTypes);
      if mediaInFolder == [] {
        return;
      }
      var newFilesForFolder := FindNewMediaFiles(mediaInFolder, processedIds);
      if newFilesForFolder == [] {
        return;
      }
      ProcessFiles(m, newFilesForFolder, oracle);
    }

    /** The per-file loop over the new files of one entry. */
    method ProcessFiles(m: Mapping, files: seq<DriveFile>, oracle: nat -> FileOracle)
      modifies this
      ensures State() == StepFiles(old(State()), tempDir, m, files, oracle)
    {
      ghost var start := State();
      for j := 0 to |files|
        invariant State() == StepFiles(start, tempDir, m, files[..j], oracle)
      {
        StepFilesPrefix(start, tempDir, m, files, oracle, j);
        ProcessFile(m, files[j], oracle(j));
      }
      assert files[..|files|] == files;
    }

    /** One cycle: read the processed ids (stop if that fails), read the
        mappings (stop if there are none), and process every entry in turn. */
    method CheckAndProcessAllMappings(o: CycleOracle)
      modifies this
      ensures State() == Cycle(old(State()), tempDir, mimeTypes, o)
    {
      var ids := GetFirstColumnValues(ledger, o.ledgerReadOk);
      if ids.None? {
        return;
      }
      processedIds := ids.value;
      var mappingEntries := ReadMappingSheet(o.mappingSheet);
      if mappingEntries == [] {
        return;
      }
      ProcessEntries(mappingEntries, o.drive, o.fileOracles);
    }

    /** The loop over the mapping entries of one cycle. */
    method ProcessEntries(mappingEntries: seq<Mapping>, drive: Drive, oracles: nat -> nat -> FileOracle)
      modifies this
      ensures State() == StepEntries(old(State()), tempDir, mimeTypes, drive, mappingEntries, oracles)
    {
      ghost var start := State();
      for k := 0 to |mappingEntries|
        invariant State() == StepEntries(start, tempDir, mimeTypes, drive, mappingEntries[..k], oracles)
      {
        StepEntriesPrefix(start, tempDir, mimeTypes, drive, mappingEntries, oracles, k);
        ProcessEntry(mappingEntries[k], drive, oracles(k));
      }
      assert mappingEntries[..|mappingEntries|] == mappingEntries;
    }
  }

  lemma NotifySplit(a: Attempt, fileName: string, chatId: string, errorSend: SendOutcome)
    ensures Notify(a, fileName, chatId, errorSend)[|a.sends|..]
      == if a.raised.Some? then [Send(chatId, Some(ErrorMessage(fileName, a.raised.value)), errorSend.Delivered?)] else []
    ensures Notify(a, fileName, chatId, errorSend) == a.sends + Notify(a, fileName, chatId, errorSend)[|a.sends|..]
  {
  }
}
