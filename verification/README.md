# voicy_gmeet: a Dafny model of the meeting-recording pipeline

voicy_gmeet watches Google Drive folders for meeting recordings. A mapping
spreadsheet ties each folder to a Telegram chat (and an employee email). For
every recording whose Drive id is not yet in the ledger spreadsheet, one cycle
of `check_and_process_all_mappings` does the following:

- downloads the recording and converts it to WAV;
- transcribes it with speaker diarization;
- summarises the transcript with a prompt kept in a Google Doc;
- sends the summary (or an error message) to the folder's chat;
- appends one row to the ledger;
- removes its temp files.

This project models that cycle and the helper functions it relies on, and
proves what a cycle guarantees whatever the outside services answer.

Every call into an outside service is an input to the model (an oracle value)
rather than behaviour:

- Google Drive, Sheets, Docs, Speech and Storage;
- OpenAI;
- Telegram;
- `ffprobe` and `ffmpeg`;
- the clock and the file system.

`FileOracle` gives, for one file:

- the timestamp;
- whether the download and the conversion leave their files behind;
- what transcription does;
- the prompt document;
- the completion;
- how the two Telegram sends end;
- how far the ledger write gets;
- the date text;
- which removals raise.

`CycleOracle` gives whether the ledger can be read, the mapping records, the
Drive service (the pages it returns for each query string) and the oracle of
every file.

Modules, one per concern:

- `Basics`: `Option`, Python's `str.isspace`/`strip`, `str(int)`, `"\n".join` and POSIX `os.path.join`.
- `Diarization`: the word loop and the result-selection chain of `transcribe_audio_file`, against a reference grouping of words into speaker lines.
- `DriveListing`: the paging loop of `find_media_files_on_drive` and the dedup filter `find_new_media_files`.
- `MappingSheet`: the record filter of `read_mapping_sheet`.
- `PromptDoc`: the text flattening of `read_google_doc`.
- `LedgerSheet`: the ledger spreadsheet, covering the header decision and the row of `write_to_google_sheet`, and the first column that `get_first_column_values` reads.
- `Pipeline`: one file, one mapping entry and one cycle as functions of the state and the oracles.
- `PipelineProperties`: what those functions guarantee.
- `MainCycle`: the class `Processor`, whose methods perform the cycle step by step on its fields. Each method is proved equal to the `Pipeline` function for the same step.

## Model

| member | source | states |
|---|---|---|
| Basics.TrimEndShape | voicy_functions.py:349-350 | `rstrip` removes exactly a whitespace-only tail: the result does not end in whitespace and every removed character is whitespace |
| Basics.TrimStartShape | voicy_functions.py:349-350 | `lstrip` removes exactly a whitespace-only head: the result does not start with whitespace and every removed character is whitespace |
| Basics.StripBlank | voicy_functions.py:349-350 | a string made only of whitespace strips to the empty string |
| Basics.PathJoinInjective | main.py:87-88 | joining relative names under the same directory gives different paths for different names |
| Diarization.BuildDialogue | voicy_functions.py:235-259 | the word loop's `dialogue` list equals the rendering of the reference grouping of the words, and its tag counter equals the number of tagged words |
| Diarization.AddWord | voicy_functions.py:249-255 | one pass of the word loop keeps the loop's speaker, current line and flushed lines in step with the reference grouping after one more word |
| Diarization.GroupShape | voicy_functions.py:249-255 | the lines of the grouping, concatenated, give back the input words in order; every line is non-empty and holds consecutive words of one speaker |
| Diarization.GroupUnique | voicy_functions.py:249-255 | the grouping is the only split of the words into well-formed lines, so a new line starts exactly at each change of tag |
| Diarization.UntaggedAfterTagged | voicy_functions.py:249-255 | every untagged word that comes after a tagged word gets a line of its own, holding just that word, under "Неизвестный" |
| Diarization.LinesFit | voicy_functions.py:249-255 | an "Неизвестный" line holds exactly one word and is never the first line; a tagged line holds only words with that tag |
| Diarization.LastNotNoSpeaker | voicy_functions.py:249-252 | once a tagged word has been seen, the current speaker is never `None` again |
| Diarization.LeadingUntaggedUnderNone | voicy_functions.py:236-251 | untagged words before the first tagged word form the first line, labelled "Спикер None" |
| Diarization.AllUntaggedCount | voicy_functions.py:246-247 | words without tags leave the tag counter at zero |
| Diarization.RenderedLinesAt | voicy_functions.py:250-251 | each flushed line is "Спикер <label>: " followed by its words, each followed by a space, then stripped |
| Diarization.DiarizationFallback | voicy_functions.py:263-269 | with words, no tag at all gives the plain transcript; any tag gives the dialogue lines joined by newlines, one per group |
| Diarization.NoWordsFallback | voicy_functions.py:229-276 | no result, no alternative, or no words with an empty transcript give "Не удалось распознать речь."; no words with a transcript give the transcript |
| Diarization.OnlyLastResultCounts | voicy_functions.py:229-232 | earlier results and later alternatives do not change the outcome |
| Diarization.TwoSpeakersExample | voicy_functions.py:240-266 | two words of one speaker then one word of another, none with surrounding whitespace, give "Спикер <n1>: <x> <y>" and "Спикер <n2>: <z>" joined by "\n" (for instance hi(1) there(1) bye(2) gives "Спикер 1: hi there\nСпикер 2: bye") |
| Diarization.TranscribeAudioFile | voicy_functions.py:152-281 | the outcome of `transcribe_audio_file`, which is one of: an exception when client set-up raises; the missing-file message with 0 minutes; the recognition error text; or the selected transcript with the probed minutes |
| DriveListing.FindMediaFilesOnDrive | voicy_functions.py:378-410 | the listing is the files of every MIME type in the order of the types, each type paged until a page without a next-page token or a failed request |
| DriveListing.CollectPages | voicy_functions.py:383-407 | the paging loop of one MIME type appends, to what was collected before, the files of every page up to the first page without a next-page token, stopping early on a failed request |
| DriveListing.PagedFilesUpToStop | voicy_functions.py:384-407 | one type's files are those of all pages before the first stopping page, plus that page's own files when it succeeded; later pages are never requested |
| DriveListing.PagedFilesBefore | voicy_functions.py:384-407 | for any page that stops the loop with no stopping page before it, the files collected are those of the earlier pages followed by that page's own |
| DriveListing.PageErrorKeepsEarlierPages | voicy_functions.py:402-407 | a failed request ends only its own MIME type and keeps the files of its earlier pages |
| DriveListing.ListedFilesAppend | voicy_functions.py:381-395 | the listing is grouped by MIME type in the order of the types |
| DriveListing.ListedFilesSingle | voicy_functions.py:382-391 | one MIME type contributes exactly the pages returned for its own query |
| DriveListing.FindNewMediaFiles | voicy_functions.py:429-436 | the loop returns the dedup filter of the files against the ledger ids |
| DriveListing.NewFilesExact | voicy_functions.py:432-434 | every returned entry is the `{id, name}` projection of a listed file whose id is not in the ledger, and every such file is returned |
| DriveListing.NewFilesAppend | voicy_functions.py:432-434 | the filter keeps the input order |
| DriveListing.NewFilesIdempotent | voicy_functions.py:429-436 | filtering the output again against the same ids returns it unchanged |
| DriveListing.NewFilesMoreIds | voicy_functions.py:430-434 | filtering against a longer id list is filtering twice |
| DriveListing.NothingNewOnceRecorded | voicy_functions.py:432-434 | once every listed id is in the ledger list, nothing is new |
| MappingSheet.ReadMappingSheet | voicy_functions.py:328-363 | a failed read gives no mappings; otherwise the mappings of the valid records, in sheet order |
| MappingSheet.ValidMappingsExact | voicy_functions.py:344-351 | a mapping is kept exactly for each record with truthy `folder_id` and `chat_id` |
| MappingSheet.ValidMappingsAppend | voicy_functions.py:344-351 | the filter keeps sheet order |
| MappingSheet.ValidMappingsSingle | voicy_functions.py:345-351 | a single record is kept, converted, exactly when both ids are present and truthy |
| MappingSheet.WhitespaceIdBecomesEmpty | voicy_functions.py:345-349 | a whitespace-only folder id passes the truthiness check and becomes the empty string |
| MappingSheet.EmailDefault | voicy_functions.py:348 | a missing `email` becomes the empty (falsy) string |
| MappingSheet.NumericIdKept | voicy_functions.py:345-349 | a non-zero numeric id is kept as its decimal text |
| PromptDoc.ReadGoogleDoc | voicy_functions.py:524-553 | a failed fetch gives `None`; otherwise the flattened text, possibly empty |
| PromptDoc.AppendParagraph | voicy_functions.py:536-541 | the inner loop appends the content of every text run of one paragraph, in order, to the text read so far |
| PromptDoc.ContentTextAppend | voicy_functions.py:532-541 | the text of a body split in two is the text of the first part followed by that of the second |
| PromptDoc.ParagraphTextAppend | voicy_functions.py:537-541 | the same for the elements of one paragraph |
| PromptDoc.NonParagraphIgnored | voicy_functions.py:533 | an element that is not a paragraph contributes nothing wherever it stands |
| PromptDoc.EmptyElementsIgnored | voicy_functions.py:538-541 | elements without a text run, or runs without content, contribute nothing |
| PromptDoc.OneParagraph | voicy_functions.py:529-544 | a single paragraph reads as its runs' contents in order |
| LedgerSheet.HeaderAfterCheck | voicy_functions.py:461-466 | row 1 afterwards is never blank: a blank row 1 gets the header, a non-blank one is kept whatever it holds |
| LedgerSheet.RowData | voicy_functions.py:468-479 | nine cells in header order; an empty or missing text becomes "N/A"; a falsy source becomes the empty string |
| LedgerSheet.WriteToGoogleSheet | voicy_functions.py:445-485 | rows are only appended, at most one per call and only when the append succeeds; row 1 is left as it was on a failure before the header check and otherwise takes the header decision |
| LedgerSheet.MeetingIds | voicy_functions.py:506 | the ids of the rows, one per row, in order |
| LedgerSheet.GetFirstColumnValues | voicy_functions.py:500-517 | `None` exactly when reading fails; otherwise row 1's first cell followed by the meeting id of every row |
| LedgerSheet.WriteKeepsWellFormed | voicy_functions.py:461-480 | rows only ever sit below a non-blank row 1, and any write that gets past the header check leaves row 1 non-blank |
| LedgerSheet.HeaderNeverOverwritten | voicy_functions.py:462-466 | a non-blank row 1 is never overwritten |
| LedgerSheet.AppendedIdIsRecorded | voicy_functions.py:469-480 | a successful write adds the meeting id at the end of the first column |
| LedgerSheet.FailedWriteForgotten | voicy_functions.py:482-485 | a failed write records no id, so only the ids already there are recorded |
| PipelineProperties.FileWrittenOnce | main.py:153-175 | a file with an id gets exactly one ledger write, whichever step failed, and its id is then appended to the processed list; a file without an id gets neither |
| PipelineProperties.FileMessages | main.py:137-151 | one or two sends per file, all to the entry's chat, at most one delivered; on normal completion exactly the summary; after an exception the last send is the error message; there are two sends exactly when the summary send raised, and the first of them is that failed summary send, so exactly one error message is attempted |
| PipelineProperties.TranscriptionFailureRow | main.py:90-170 | when transcription raises, the row holds both sentinels, 0 minutes and 0 tokens, and the only send is the error message |
| PipelineProperties.PromptUnreadable | main.py:119-123 | an unreadable prompt gives the prompt-error answer with zero tokens, and the completion is never consulted |
| PipelineProperties.SummarizerFailure | main.py:125-133 | a failed completion sends `None` and writes the summary sentinel with zero tokens |
| PipelineProperties.MissingAudioIsTranscribed | main.py:98-113 | download and conversion results are not checked: missing audio gives the missing-file text, which is summarised and written |
| PipelineProperties.RecognitionErrorIsText | main.py:109-113 | a recognition error comes back as text and is summarised, sent and written like a transcript |
| PipelineProperties.FileRowSentinels | main.py:157-170 | the row carries the file's id and name; falsy transcription or answer become the two sentinels; it also carries the minutes, the tokens and the mapping's email as source |
| PipelineProperties.TempPathsDistinct | main.py:86-88 | the download and audio paths of a file differ |
| PipelineProperties.TempPathsInjective | main.py:86-88 | files with different relative ids get different temp paths |
| PipelineProperties.CleanupExact | main.py:182-188 | after cleanup a path exists exactly when it existed and either is not listed or its removal raised |
| PipelineProperties.TempFilesCleaned | main.py:181-188 | a file's temp paths are gone unless their removal raised; a failed removal does not stop the other; other files are untouched |
| PipelineProperties.FileLedger | main.py:157-175 | the ledger stays well formed, its first column only grows, and a successful write records the id |
| PipelineProperties.FilesRecorded | main.py:79-175 | the file loop makes one write per file with an id, in order, and the processed list grows by exactly those ids |
| PipelineProperties.EntryRecordsFreshIds | main.py:70-79 | an entry writes only ids absent from the processed list at its start, and records each |
| PipelineProperties.EntrySkips | main.py:59-74 | an entry whose folder lists no media, or only processed files, changes nothing |
| PipelineProperties.DuplicateListingWrittenTwice | main.py:70-79 | a new file listed twice in one folder is written twice, because the new-file set is computed once |
| PipelineProperties.EntriesRecordFreshIds | main.py:50-175 | across entries the processed list grows by exactly the ids written, none of which was processed before |
| PipelineProperties.LaterEntriesSkipWrittenFiles | main.py:50-175 | a file written for an earlier entry of a cycle is not new for any later entry |
| PipelineProperties.EarlyReturns | main.py:36-45 | an unreadable ledger leaves everything unchanged; no mappings leaves everything but the processed list unchanged |
| PipelineProperties.CycleRecordsFreshIds | main.py:36-175 | the processed list ends as the ledger's first column followed by the ids written; no id already in the ledger is written again |
| PipelineProperties.CycleKeepsLedger | main.py:50-175 | a cycle keeps the ledger well formed, and ids recorded there stay, so they are skipped by later cycles |
| PipelineProperties.FilesAppendedStay | main.py:79-175 | a file whose row was appended is still in the ledger's first column when the file loop ends |
| PipelineProperties.EntriesPrefixLedger | main.py:50-175 | the entries after the first `k` keep the ledger's first column as the first `k` left it |
| PipelineProperties.EntriesAppendedStay | main.py:50-175 | a file of any entry whose row was appended is in the ledger's first column after the last entry |
| PipelineProperties.CycleAppendedStays | main.py:36-175 | a file whose row was appended during a cycle is in the ledger's first column when the cycle ends |
| PipelineProperties.NextCycleSkipsAppended | main.py:36-79 | a file whose row was appended in one cycle is visited by no entry of the next cycle that reads the ledger, whatever the drive lists |
| MainCycle.Processor.RemoveTempFiles | main.py:181-188 | the cleanup loop leaves the temp files `Cleanup` specifies and changes nothing else |
| MainCycle.Processor.TryBlockSteps | main.py:97-142 | the `try` block's locals, sends and exception are those of `TryBlock` |
| MainCycle.Processor.Fetch | main.py:97-105 | the download and the conversion leave the temp files `Fetched` specifies and change nothing else |
| MainCycle.Processor.ReportError | main.py:144-151 | the `except` block adds one message to the entry's chat naming the file and the exception, and only when the `try` block raised |
| MainCycle.Processor.RecordRow | main.py:157-175 | the `finally` block's write changes the ledger as `WriteToGoogleSheet` does, logs the row and appends its id to the processed ids |
| MainCycle.Processor.ProcessFile | main.py:80-188 | one pass of the file loop changes the state exactly as `StepFile` |
| MainCycle.Processor.ProcessFiles | main.py:79-188 | the loop over an entry's new files changes the state exactly as `StepFiles` |
| MainCycle.Processor.ProcessEntry | main.py:59-188 | one mapping entry changes the state exactly as `StepEntry` |
| MainCycle.Processor.ProcessEntries | main.py:50-197 | the loop over the mapping entries changes the state exactly as `StepEntries` |
| MainCycle.Processor.CheckAndProcessAllMappings | main.py:26-205 | one cycle changes the state exactly as `Cycle` |

## Left out

- Network and service calls are oracle inputs: Drive, Sheets, Docs, Speech, Storage, OpenAI and Telegram. So are `ffprobe` and `ffmpeg`, the clock and `os.path.exists`/`os.remove`. Their own behaviour is not modelled.
- `authenticate`, `download_file_from_google_drive`, `convert_mp4_to_wav` and the GCS upload and delete are not modelled. Only their effect on the temp folder and on transcription is.
- Durations are left uninterpreted: `duration_seconds / 60` is floating point, and `:.2f` formatting belongs to the sheet cell. A duration is an uninterpreted `real` that defaults to 0.
- Logging, `print(mapping_entries)` and the log-only local `processed_successfully` are left out.
- The `main()` scheduler is left out. That covers the endless loop with its sleep, the temp-folder creation and the configuration module. The temp folder and the MIME types are parameters of `Processor`.
- Cell values are text or integers. Floats read from a sheet, and the `USER_ENTERED` conversion of appended cells, are not modelled.
- `col_values(1)` trimming trailing empty cells is not modelled. The first column is read as row 1's first cell followed by every row's id.
- `read_mapping_sheet` is modelled as one outcome: the records, or a failure. Opening by name before opening by key, and the worksheet choice, are not modelled.
- The listing's `None` result, the per-entry `except` and the outermost `except Exception` are not modelled. All three are unreachable: every callee inside the cycle catches its own errors. The outermost `finally` only logs the cycle's duration, and is left out with the logging.
- The `transcribed_text is None` check is not modelled, because `transcribe_audio_file` never returns `None` text.
- The `else` branch after `if summary_result` is not modelled, because the returned triple is always truthy. When the completion fails, the answer is `None` and the summary sentinel is written instead of "Ошибка: Не удалось выполнить саммаризацию.".
- The download and conversion results are ignored, so a failed download or conversion does not end a file's processing. Transcription then reports the missing audio file. This is what the code does, and `MissingAudioIsTranscribed` states it.
- `mapping.get('email', 'N/A')` always finds the key, so its default is never used. The ledger's `source_identifier` is the mapping's email; the folder text `source_id` is computed and never used.
- Whether Telegram accepts a `None` text is part of the send oracle.
- Ledger writes are modelled as three outcomes: failure before the header check, failure at the append, and success. A failure while writing the header itself is grouped with the first.
- DriveListing.FindMediaFilesOnDrive: the Drive service is assumed to stop handing out page tokens, or to fail, after finitely many pages for each query. An endless paging loop is therefore not modelled. Pages are handed out in request order, and the token sent with each request is not checked.
