/** What one cycle of `check_and_process_all_mappings` guarantees, whatever
    the outside world answers: one ledger write per new file, processed ids
    that grow in step with the writes, no file written twice across mapping
    entries or cycles, one outcome message per file, sentinels in the
    ledger row, and temp files removed. */
module PipelineProperties {
  import opened Basics
  import opened Diarization
  import opened DriveListing
  import opened MappingSheet
  import opened LedgerSheet
  import opened Pipeline

  // ---------------------------------------------------------------------
  // One file

  /** The processing of a file ran to its end without an exception. */
  predicate Completes(o: FileOracle) {
    o.transcription.Ran? && o.summarySend.Delivered?
  }

  /** The text of the exception that left the `try` block. */
  function FailureDetail(o: FileOracle): string
    requires !Completes(o)
  {
    if o.transcription.SetupRaised? then o.transcription.detail else o.summarySend.detail
  }

  /** One pass of the per-file loop body calls `write_to_google_sheet` exactly
      once when the file has an id, whichever step failed, and appends the
      id to the processed list right after; a file without an id is neither
      written nor recorded. */
  lemma FileWrittenOnce(w: World, tempDir: string, m: Mapping, file: DriveFile, o: FileOracle)
    ensures var w' := StepFile(w, tempDir, m, file, o);
      && |w'.writeCalls| == |w.writeCalls| + (if file.id != "" then 1 else 0)
      && w'.writeCalls[..|w.writeCalls|] == w.writeCalls
      && w'.processed == w.processed + (if file.id != "" then [file.id] else [])
    ensures var w' := StepFile(w, tempDir, m, file, o);
      file.id != "" ==>
        (w'.writeCalls[|w.writeCalls|].meetingId == file.id
         && w'.ledger == WriteToGoogleSheet(w.ledger, w'.writeCalls[|w.writeCalls|], o.write))
    ensures file.id == "" ==> StepFile(w, tempDir, m, file, o).ledger == w.ledger
  {
  }

  /** Messages: a file that completes gets exactly one message, its summary,
      sent to the entry's chat; a file whose processing raised gets one error
      message attempt as its last send, preceded only by the failed summary
      send when that send was what raised. At most one message per file is
      delivered. */
  lemma FileMessages(w: World, tempDir: string, m: Mapping, file: DriveFile, o: FileOracle)
    ensures var w' := StepFile(w, tempDir, m, file, o);
      |w'.sends| > |w.sends| && w'.sends[..|w.sends|] == w.sends
    ensures var sent := StepFile(w, tempDir, m, file, o).sends[|w.sends|..];
      && 1 <= |sent| <= 2
      && (forall s | s in sent :: s.chatId == m.chatId)
      && !(|sent| == 2 && sent[0].delivered && sent[1].delivered)
    ensures var sent := StepFile(w, tempDir, m, file, o).sends[|w.sends|..];
      Completes(o) ==> sent == [Send(m.chatId, AttemptOf(w, tempDir, m, file, o).answer, true)]
    ensures var sent := StepFile(w, tempDir, m, file, o).sends[|w.sends|..];
      !Completes(o) ==>
        sent[|sent| - 1] == Send(m.chatId, Some(ErrorMessage(file.name, FailureDetail(o))), o.errorSend.Delivered?)
    ensures var sent := StepFile(w, tempDir, m, file, o).sends[|w.sends|..];
      && (|sent| == 2 <==> o.transcription.Ran? && o.summarySend.SendRaised?)
      && (|sent| == 2 ==> sent[0] == Send(m.chatId, AttemptOf(w, tempDir, m, file, o).answer, false))
  {
    var a := AttemptOf(w, tempDir, m, file, o);
    var sent := Notify(a, file.name, m.chatId, o.errorSend);
    StepFileSends(w, tempDir, m, file, o);
    assert (w.sends + sent)[|w.sends|..] == sent;
    NotifyShape(o, m.chatId, file.name, AudioPath(tempDir, file.id, o.timestamp) in Fetched(w.temps, tempDir, file, o));
  }

  lemma StepFileSends(w: World, tempDir: string, m: Mapping, file: DriveFile, o: FileOracle)
    ensures StepFile(w, tempDir, m, file, o).sends == w.sends + Notify(AttemptOf(w, tempDir, m, file, o), file.name, m.chatId, o.errorSend)
  {
  }

  /** The messages of one file, as the `try` and `except` blocks send them. */
  lemma NotifyShape(o: FileOracle, chatId: string, fileName: string, audioExists: bool)
    ensures var a := TryBlock(o, chatId, audioExists);
      var sent := Notify(a, fileName, chatId, o.errorSend);
      && 1 <= |sent| <= 2
      && (forall s | s in sent :: s.chatId == chatId)
      && !(|sent| == 2 && sent[0].delivered && sent[1].delivered)
      && (Completes(o) ==> sent == [Send(chatId, a.answer, true)])
      && (!Completes(o) ==> sent[|sent| - 1] == Send(chatId, Some(ErrorMessage(fileName, FailureDetail(o))), o.errorSend.Delivered?))
      && (|sent| == 2 <==> o.transcription.Ran? && o.summarySend.SendRaised?)
      && (|sent| == 2 ==> sent[0] == Send(chatId, a.answer, false))
  {
  }

  /** The row written for a file whose transcription raised: both sentinels,
      no minutes and no tokens; the only message is the error message. */
  lemma TranscriptionFailureRow(w: World, tempDir: string, m: Mapping, file: DriveFile, o: FileOracle)
    requires o.transcription.SetupRaised?
    ensures var a := AttemptOf(w, tempDir, m, file, o);
      FileRow(file, a, m.email, o.now)
        == RowData(file.id, file.name, Some(TRANSCRIPTION_SENTINEL), Some(SUMMARY_SENTINEL), 0.0, 0, 0, m.email, o.now)
    ensures StepFile(w, tempDir, m, file, o).sends
      == w.sends + [Send(m.chatId, Some(ErrorMessage(file.name, o.transcription.detail)), o.errorSend.Delivered?)]
  {
  }

  /** Without a readable prompt the summarizer is not consulted: the
      prompt-error text is sent and written, with zero tokens. */
  lemma PromptUnreadable(w: World, tempDir: string, m: Mapping, file: DriveFile, o: FileOracle, other: Option<SummaryResult>)
    requires o.transcription.Ran? && o.promptDoc.None?
    ensures var a := AttemptOf(w, tempDir, m, file, o);
      a.answer == Some(PROMPT_ERROR) && a.inputTokens == 0 && a.outputTokens == 0
      && FileRow(file, a, m.email, o.now).summary == PROMPT_ERROR
    ensures StepFile(w, tempDir, m, file, o) == StepFile(w, tempDir, m, file, o.(completion := other))
  {
  }

  /** A failed completion leaves `model_answer` as `None`: that is what the
      summary send is given, and the ledger gets the summary sentinel. */
  lemma SummarizerFailure(w: World, tempDir: string, m: Mapping, file: DriveFile, o: FileOracle)
    requires o.transcription.Ran? && o.promptDoc.Some? && o.completion.None?
    ensures var a := AttemptOf(w, tempDir, m, file, o);
      a.answer.None? && a.inputTokens == 0 && a.outputTokens == 0
      && a.sends == [Send(m.chatId, None, o.summarySend.Delivered?)]
      && FileRow(file, a, m.email, o.now).summary == SUMMARY_SENTINEL
  {
  }

  /** The results of the download and of the conversion are not checked:
      when no converted audio is left behind, transcription still runs and
      reports the missing file, that report is summarised, and it is written
      to the ledger as the transcription. */
  lemma MissingAudioIsTranscribed(w: World, tempDir: string, m: Mapping, file: DriveFile, o: FileOracle)
    requires o.transcription.Ran? && !o.convertLeavesFile
    ensures var a := AttemptOf(w, tempDir, m, file, o);
      a.transcribed == Some(AUDIO_MISSING) && a.minutes == 0.0 && |a.sends| == 1
      && FileRow(file, a, m.email, o.now).transcription == AUDIO_MISSING
  {
  }

  /** The row written for a file: the file's id and name, the transcription
      and the answer with falsy values replaced by the sentinels (so "N/A" is
      never substituted), the minutes and tokens as the `try` block left
      them, and the mapping's email as the source when it is truthy. */
  lemma FileRowSentinels(file: DriveFile, a: Attempt, email: Value, now: string)
    ensures var row := FileRow(file, a, email, now);
      && row.meetingId == file.id && row.meetingName == file.name
      && row.transcription == (if TextTruthy(a.transcribed) then a.transcribed.value else TRANSCRIPTION_SENTINEL)
      && row.summary == (if TextTruthy(a.answer) then a.answer.value else SUMMARY_SENTINEL)
      && row.speechMinutes == a.minutes && row.inputTokens == a.inputTokens && row.outputTokens == a.outputTokens
      && row.sourceIdentifier == (if Truthy(email) then email else Str(""))
      && row.dateProcessed == now
  {
  }

  /** A failed recognition is not an exception for the caller: it comes
      back as text, which is summarised, sent and written as the
      transcription like any other. */
  lemma RecognitionErrorIsText(w: World, tempDir: string, m: Mapping, file: DriveFile, o: FileOracle, detail: string)
    requires o.transcription.Ran? && o.transcription.recognition == RecognitionFailed(detail) && o.convertLeavesFile
    ensures var a := AttemptOf(w, tempDir, m, file, o);
      a.transcribed == Some(TRANSCRIPTION_ERROR_PREFIX + detail) && |a.sends| == 1
      && FileRow(file, a, m.email, o.now).transcription == TRANSCRIPTION_ERROR_PREFIX + detail
  {
  }

  /** The two temp paths of a file differ (their last characters do). */
  lemma TempPathsDistinct(tempDir: string, fileId: string, timestamp: int)
    ensures DownloadPath(tempDir, fileId, timestamp) != AudioPath(tempDir, fileId, timestamp)
  {
    var d := TempId(fileId, timestamp) + "_downloaded.mp4";
    var a := TempId(fileId, timestamp) + "_converted.wav";
    assert d[|d| - 1] == '4' && a[|a| - 1] == 'v';
  }

  /** In `x + "_" + d`, where `d` has no underscore, the underscore after `x`
      is the last one. */
  lemma LastUnderscore(x: string, d: string)
    requires forall i | 0 <= i < |d| :: d[i] != '_'
    ensures (x + "_" + d)[|x|] == '_'
    ensures forall k | |x| < k < |x + "_" + d| :: (x + "_" + d)[k] != '_'
  {
    forall k | |x| < k < |x + "_" + d| ensures (x + "_" + d)[k] != '_' {
      assert (x + "_" + d)[k] == d[k - |x| - 1];
    }
  }

  /** `x + "_" + d` splits at its last underscore when `d` has none. */
  lemma SplitAtLastUnderscore(x: string, d: string, y: string, e: string)
    requires forall i | 0 <= i < |d| :: d[i] != '_'
    requires forall i | 0 <= i < |e| :: e[i] != '_'
    requires x + "_" + d == y + "_" + e
    ensures x == y && d == e
  {
    var s := x + "_" + d;
    LastUnderscore(x, d);
    LastUnderscore(y, e);
    assert |x| == |y|;
    assert x == s[..|x|];
    assert y == s[..|y|];
    assert d == s[|x| + 1..];
    assert e == s[|y| + 1..];
  }

  /** Temp paths of different files differ, for ids that are relative names;
      the same file processed at two different seconds also gets different paths. */
  lemma TempPathsInjective(tempDir: string, id1: string, ts1: int, id2: string, ts2: int, suffix: string)
    requires id1 == [] || id1[0] != '/'
    requires id2 == [] || id2[0] != '/'
    requires PathJoin(tempDir, TempId(id1, ts1) + suffix) == PathJoin(tempDir, TempId(id2, ts2) + suffix)
    ensures id1 == id2 && IntToString(ts1) == IntToString(ts2)
  {
    var n1, n2 := TempId(id1, ts1) + suffix, TempId(id2, ts2) + suffix;
    assert n1 == [] || n1[0] != '/' by {
      if id1 == [] { assert n1[0] == '_'; } else { assert n1[0] == id1[0]; }
    }
    assert n2 == [] || n2[0] != '/' by {
      if id2 == [] { assert n2[0] == '_'; } else { assert n2[0] == id2[0]; }
    }
    PathJoinInjective(tempDir, n1, n2);
    assert TempId(id1, ts1) == n1[..|n1| - |suffix|];
    assert TempId(id2, ts2) == n2[..|n2| - |suffix|];
    SplitAtLastUnderscore(id1, IntToString(ts1), id2, IntToString(ts2));
  }

  /** Cleanup removes exactly the listed paths that exist and can be removed. */
  lemma {:induction false} CleanupExact(temps: set<string>, paths: seq<string>, removalFails: set<string>, p: string)
    ensures p in Cleanup(temps, paths, removalFails) <==> p in temps && (p !in paths || p in removalFails)
    decreases |paths|
  {
    if paths != [] {
      CleanupExact(temps, paths[..|paths| - 1], removalFails, p);
      assert paths == paths[..|paths| - 1] + [paths[|paths| - 1]];
    }
  }

  /** After a file is processed neither of its temp files is left behind
      unless removing it raised; other files are untouched, and a failed
      removal does not stop the removal of the other path. */
  lemma TempFilesCleaned(w: World, tempDir: string, m: Mapping, file: DriveFile, o: FileOracle, p: string)
    ensures var temps' := StepFile(w, tempDir, m, file, o).temps;
      var own := {DownloadPath(tempDir, file.id, o.timestamp), AudioPath(tempDir, file.id, o.timestamp)};
      && (p in own && p !in o.removalFails ==> p !in temps')
      && (p !in own ==> (p in temps' <==> p in w.temps))
  {
    var dl, audio := DownloadPath(tempDir, file.id, o.timestamp), AudioPath(tempDir, file.id, o.timestamp);
    CleanupExact(Fetched(w.temps, tempDir, file, o), [dl, audio], o.removalFails, p);
  }

  /** The ledger stays well formed, ids recorded in its first column stay
      there, and a successful append records the file's id. */
  lemma FileLedger(w: World, tempDir: string, m: Mapping, file: DriveFile, o: FileOracle)
    requires WellFormed(w.ledger)
    ensures var l' := StepFile(w, tempDir, m, file, o).ledger;
      WellFormed(l') && FirstColumn(w.ledger) <= FirstColumn(l')
    ensures file.id != "" && o.write.Appended? ==> file.id in FirstColumn(StepFile(w, tempDir, m, file, o).ledger)
  {
    if file.id != "" {
      var row := FileRow(file, AttemptOf(w, tempDir, m, file, o), m.email, o.now);
      WriteKeepsWellFormed(w.ledger, row, o.write);
      WriteKeepsFirstColumn(w.ledger, row, o.write);
      if o.write.Appended? {
        AppendedIdIsRecorded(w.ledger, row);
      }
    }
  }

  lemma WriteKeepsFirstColumn(ledger: Ledger, row: LedgerRow, outcome: WriteOutcome)
    requires WellFormed(ledger)
    ensures FirstColumn(ledger) <= FirstColumn(WriteToGoogleSheet(ledger, row, outcome))
  {
    if outcome.Appended? {
      AppendedIdIsRecorded(ledger, row);
    }
  }

  // ---------------------------------------------------------------------
  // One mapping entry

  /** The non-empty ids of the files, in order: the ids the `finally` block records. */
  function NonEmptyIds(files: seq<DriveFile>): seq<string> {
    if files == [] then []
    else NonEmptyIds(files[..|files| - 1]) + (if files[|files| - 1].id != "" then [files[|files| - 1].id] else [])
  }

  /** `w` continues `w0`: the write calls and the sends only grow. */
  predicate Extends(w0: World, w: World) {
    && |w0.writeCalls| <= |w.writeCalls| && w.writeCalls[..|w0.writeCalls|] == w0.writeCalls
    && |w0.sends| <= |w.sends| && w.sends[..|w0.sends|] == w0.sends
  }

  /** The write calls made since `w0`. */
  function NewWrites(w0: World, w: World): seq<LedgerRow>
    requires Extends(w0, w)
  {
    w.writeCalls[|w0.writeCalls|..]
  }

  lemma MeetingIdsAppend(a: seq<LedgerRow>, b: seq<LedgerRow>)
    ensures MeetingIds(a + b) == MeetingIds(a) + MeetingIds(b)
  {
    assert |MeetingIds(a + b)| == |MeetingIds(a) + MeetingIds(b)|;
    forall k | 0 <= k < |a + b| ensures MeetingIds(a + b)[k] == (MeetingIds(a) + MeetingIds(b))[k] {
      if k >= |a| {
        assert (a + b)[k] == b[k - |a|];
      }
    }
  }

  lemma ExtendsTrans(w0: World, w1: World, w2: World)
    requires Extends(w0, w1) && Extends(w1, w2)
    ensures Extends(w0, w2)
    ensures NewWrites(w0, w2) == NewWrites(w0, w1) + NewWrites(w1, w2)
  {
    assert w2.writeCalls[..|w1.writeCalls|][..|w0.writeCalls|] == w2.writeCalls[..|w0.writeCalls|];
    assert w2.sends[..|w1.sends|][..|w0.sends|] == w2.sends[..|w0.sends|];
    assert w2.writeCalls[|w0.writeCalls|..] == w2.writeCalls[|w0.writeCalls|..|w1.writeCalls|] + w2.writeCalls[|w1.writeCalls|..];
  }

  /** From `w0` to `w` the write calls and sends only grew, the write calls
      added have the meeting ids `ids`, and `ids` were appended to the
      processed list. */
  predicate Records(w0: World, w: World, ids: seq<string>) {
    Extends(w0, w) && w.processed == w0.processed + ids && MeetingIds(NewWrites(w0, w)) == ids
  }

  /** Two stretches that each record their write ids record them together. */
  lemma RecordedCompose(w: World, w1: World, w2: World, ids1: seq<string>, ids2: seq<string>)
    requires Records(w, w1, ids1) && Records(w1, w2, ids2)
    ensures Records(w, w2, ids1 + ids2)
  {
    ExtendsTrans(w, w1, w2);
    MeetingIdsAppend(NewWrites(w, w1), NewWrites(w1, w2));
  }

  lemma FileRecords(w: World, tempDir: string, m: Mapping, file: DriveFile, o: FileOracle)
    ensures Records(w, StepFile(w, tempDir, m, file, o), if file.id != "" then [file.id] else [])
  {
    FileWrittenOnce(w, tempDir, m, file, o);
    FileMessages(w, tempDir, m, file, o);
    var w' := StepFile(w, tempDir, m, file, o);
    if file.id != "" {
      assert NewWrites(w, w') == [w'.writeCalls[|w.writeCalls|]];
      assert [w'.writeCalls[|w.writeCalls|]][..0] == [];
    }
  }

  /** The per-file loop of an entry records exactly the non-empty ids of the
      files it visits, in order, one write call each. */
  lemma {:induction false} FilesRecorded(w: World, tempDir: string, m: Mapping, files: seq<DriveFile>, oracle: nat -> FileOracle)
    ensures Records(w, StepFiles(w, tempDir, m, files, oracle), NonEmptyIds(files))
    decreases |files|
  {
    if files == [] {
      assert w.writeCalls[..|w.writeCalls|] == w.writeCalls && w.sends[..|w.sends|] == w.sends;
    } else {
      var pre := files[..|files| - 1];
      var f := files[|files| - 1];
      var w1 := StepFiles(w, tempDir, m, pre, oracle);
      FilesRecorded(w, tempDir, m, pre, oracle);
      FileRecords(w1, tempDir, m, f, oracle(|files| - 1));
      RecordedCompose(w, w1, StepFile(w1, tempDir, m, f, oracle(|files| - 1)), NonEmptyIds(pre), if f.id != "" then [f.id] else []);
    }
  }

  lemma NonEmptyIdsSnoc(files: seq<DriveFile>, f: DriveFile)
    ensures NonEmptyIds(files + [f]) == NonEmptyIds(files) + (if f.id != "" then [f.id] else [])
  {
    assert (files + [f])[..|files|] == files;
  }


  lemma {:induction false} NonEmptyIdsAppend(a: seq<DriveFile>, b: seq<DriveFile>)
    ensures NonEmptyIds(a + b) == NonEmptyIds(a) + NonEmptyIds(b)
    decreases |b|
  {
    if b == [] {
      assert a + b == a;
    } else {
      var b', last := b[..|b| - 1], b[|b| - 1];
      assert b == b' + [last];
      assert a + b == (a + b') + [last];
      NonEmptyIdsAppend(a, b');
      NonEmptyIdsSnoc(a + b', last);
      NonEmptyIdsSnoc(b', last);
      SeqAssoc(NonEmptyIds(a), NonEmptyIds(b'), if last.id != "" then [last.id] else []);
    }
  }

  lemma {:induction false} NonEmptyIdsOf(files: seq<DriveFile>, id: string)
    ensures id in NonEmptyIds(files) <==> id != "" && exists f | f in files :: f.id == id
    decreases |files|
  {
    if files != [] {
      var pre, last := files[..|files| - 1], files[|files| - 1];
      var tail := if last.id != "" then [last.id] else [];
      NonEmptyIdsOf(pre, id);
      assert files == pre + [last];
      NonEmptyIdsSnoc(pre, last);
      if id in NonEmptyIds(files) {
        if id in NonEmptyIds(pre) {
          var f :| f in pre && f.id == id;
          assert f in files;
        } else {
          assert id in tail;
          assert last in files;
        }
      }
      if id != "" && exists f | f in files :: f.id == id {
        var f :| f in files && f.id == id;
        if f !in pre {
          assert f == last;
          assert id in tail;
        }
      }
    }
  }

  /** No id in `ids` is empty or among `seen`. */
  predicate Fresh(ids: seq<string>, seen: seq<string>) {
    forall id | id in ids :: id != "" && id !in seen
  }

  /** An entry writes only files whose ids were not processed when the entry
      started (the new-file set is computed once, before the loop), and
      records every one of them. */
  lemma EntryRecordsFreshIds(w: World, tempDir: string, mimeTypes: seq<string>, drive: Drive, m: Mapping,
                             oracle: nat -> FileOracle)
    ensures var ids := NonEmptyIds(EntryFiles(w, drive, mimeTypes, m));
      Records(w, StepEntry(w, tempDir, mimeTypes, drive, m, oracle), ids) && Fresh(ids, w.processed)
  {
    var files := EntryFiles(w, drive, mimeTypes, m);
    FilesRecorded(w, tempDir, m, files, oracle);
    forall id | id in NonEmptyIds(files) ensures id != "" && id !in w.processed {
      NonEmptyIdsOf(files, id);
      var f :| f in files && f.id == id;
      NewFilesExact(ListedFiles(drive, m.folderId, mimeTypes), w.processed);
    }
  }

  /** An entry whose folder lists no media, or only files already
      processed, changes nothing. */
  lemma EntrySkips(w: World, tempDir: string, mimeTypes: seq<string>, drive: Drive, m: Mapping,
                   oracle: nat -> FileOracle)
    ensures ListedFiles(drive, m.folderId, mimeTypes) == [] ==> StepEntry(w, tempDir, mimeTypes, drive, m, oracle) == w
    ensures (forall f | f in ListedFiles(drive, m.folderId, mimeTypes) :: f.id in w.processed) ==>
      StepEntry(w, tempDir, mimeTypes, drive, m, oracle) == w
  {
    var listing := ListedFiles(drive, m.folderId, mimeTypes);
    if forall f | f in listing :: f.id in w.processed {
      NothingNewOnceRecorded(listing, w.processed);
    }
  }

  lemma DuplicateListingKept(w: World, mimeTypes: seq<string>, drive: Drive, m: Mapping, f: DriveFile)
    requires ListedFiles(drive, m.folderId, mimeTypes) == [f, f]
    requires f.id != "" && f.id !in w.processed
    ensures NonEmptyIds(EntryFiles(w, drive, mimeTypes, m)) == [f.id, f.id]
  {
    NewFilesTwice(f, w.processed);
    NonEmptyIdsTwice(Project(f));
  }

  lemma NewFilesTwice(f: DriveFile, ids: seq<string>)
    requires f.id !in ids
    ensures NewFiles([f, f], ids) == [Project(f), Project(f)]
  {
    assert [f, f][..1] == [f] && [f][..0] == [];
    assert NewFiles([f], ids) == [] + [Project(f)];
  }

  lemma NonEmptyIdsTwice(f: DriveFile)
    requires f.id != ""
    ensures NonEmptyIds([f, f]) == [f.id, f.id]
  {
    assert [f, f][..1] == [f] && [f][..0] == [];
    assert NonEmptyIds([f]) == [] + [f.id];
  }

  /** Duplicate entries within one listing are not removed: a fresh file
      listed twice is processed and written twice. */
  lemma DuplicateListingWrittenTwice(w: World, tempDir: string, mimeTypes: seq<string>, drive: Drive, m: Mapping,
                                     oracle: nat -> FileOracle, f: DriveFile)
    requires ListedFiles(drive, m.folderId, mimeTypes) == [f, f]
    requires f.id != "" && f.id !in w.processed
    ensures Records(w, StepEntry(w, tempDir, mimeTypes, drive, m, oracle), [f.id, f.id])
  {
    DuplicateListingKept(w, mimeTypes, drive, m, f);
    EntryRecordsFreshIds(w, tempDir, mimeTypes, drive, m, oracle);
  }

  // ---------------------------------------------------------------------
  // One cycle

  /** The ids the entries of a cycle write, entry after entry. */
  function EntriesIds(w: World, tempDir: string, mimeTypes: seq<string>, drive: Drive, ms: seq<Mapping>,
                      oracles: nat -> nat -> FileOracle): seq<string> {
    if ms == [] then []
    else
      var w1 := StepEntries(w, tempDir, mimeTypes, drive, ms[..|ms| - 1], oracles);
      EntriesIds(w, tempDir, mimeTypes, drive, ms[..|ms| - 1], oracles)
        + NonEmptyIds(EntryFiles(w1, drive, mimeTypes, ms[|ms| - 1]))
  }

  lemma FreshCompose(ids1: seq<string>, ids2: seq<string>, seen: seq<string>)
    requires Fresh(ids1, seen) && Fresh(ids2, seen + ids1)
    ensures Fresh(ids1 + ids2, seen)
  {
  }

  /** Across the entries of a cycle the processed list grows exactly by the
      ids written, and no id is written that was processed before the
      entries started. */
  lemma {:induction false} EntriesRecordFreshIds(w: World, tempDir: string, mimeTypes: seq<string>, drive: Drive,
                                                 ms: seq<Mapping>, oracles: nat -> nat -> FileOracle)
    ensures var ids := EntriesIds(w, tempDir, mimeTypes, drive, ms, oracles);
      Records(w, StepEntries(w, tempDir, mimeTypes, drive, ms, oracles), ids) && Fresh(ids, w.processed)
    decreases |ms|
  {
    if ms == [] {
      assert w.writeCalls[..|w.writeCalls|] == w.writeCalls && w.sends[..|w.sends|] == w.sends;
    } else {
      var pre := ms[..|ms| - 1];
      var m := ms[|ms| - 1];
      var w1 := StepEntries(w, tempDir, mimeTypes, drive, pre, oracles);
      var ids1 := EntriesIds(w, tempDir, mimeTypes, drive, pre, oracles);
      var ids2 := NonEmptyIds(EntryFiles(w1, drive, mimeTypes, m));
      EntriesRecordFreshIds(w, tempDir, mimeTypes, drive, pre, oracles);
      EntryRecordsFreshIds(w1, tempDir, mimeTypes, drive, m, oracles(|ms| - 1));
      RecordedCompose(w, w1, StepEntry(w1, tempDir, mimeTypes, drive, m, oracles(|ms| - 1)), ids1, ids2);
      FreshCompose(ids1, ids2, w.processed);
    }
  }

  /** Within a cycle, a file written for an earlier entry is not among the
      files visited for a later entry, even when both entries name the same folder. */
  lemma LaterEntriesSkipWrittenFiles(w: World, tempDir: string, mimeTypes: seq<string>, drive: Drive,
                                     ms: seq<Mapping>, oracles: nat -> nat -> FileOracle, m: Mapping, f: DriveFile)
    requires f in EntryFiles(StepEntries(w, tempDir, mimeTypes, drive, ms, oracles), drive, mimeTypes, m)
    ensures f.id !in EntriesIds(w, tempDir, mimeTypes, drive, ms, oracles)
  {
    var w' := StepEntries(w, tempDir, mimeTypes, drive, ms, oracles);
    EntriesRecordFreshIds(w, tempDir, mimeTypes, drive, ms, oracles);
    NewFilesExact(ListedFiles(drive, m.folderId, mimeTypes), w'.processed);
  }

  /** The two early returns: an unreadable ledger ends the cycle before the
      mapping sheet is read, and an empty mapping list ends it before any
      listing; neither writes, sends or touches a temp file. */
  lemma EarlyReturns(w: World, tempDir: string, mimeTypes: seq<string>, o: CycleOracle)
    ensures !o.ledgerReadOk ==> Cycle(w, tempDir, mimeTypes, o) == w
    ensures o.ledgerReadOk && MappingsOf(o.mappingSheet) == [] ==>
      Cycle(w, tempDir, mimeTypes, o) == w.(processed := FirstColumn(w.ledger))
    ensures o.mappingSheet.None? ==> MappingsOf(o.mappingSheet) == []
  {
  }

  /** The ids a cycle writes, in order. */
  function CycleIds(w: World, tempDir: string, mimeTypes: seq<string>, o: CycleOracle): seq<string> {
    var ms := MappingsOf(o.mappingSheet);
    if !o.ledgerReadOk || ms == [] then []
    else EntriesIds(w.(processed := FirstColumn(w.ledger)), tempDir, mimeTypes, o.drive, ms, o.fileOracles)
  }

  /** Over a whole cycle the write calls made have the ids `CycleIds`; the
      in-memory processed list ends as the ledger's first column followed by
      those ids; every id written is non-empty and was not in the ledger's
      first column, so a file already recorded in the ledger is never
      processed again. */
  lemma CycleRecordsFreshIds(w: World, tempDir: string, mimeTypes: seq<string>, o: CycleOracle)
    requires o.ledgerReadOk
    ensures var ids := CycleIds(w, tempDir, mimeTypes, o);
      var w' := Cycle(w, tempDir, mimeTypes, o);
      && Extends(w, w') && MeetingIds(NewWrites(w, w')) == ids
      && w'.processed == FirstColumn(w.ledger) + ids
      && Fresh(ids, FirstColumn(w.ledger))
    ensures Fresh(CycleIds(w, tempDir, mimeTypes, o), MeetingIds(w.ledger.rows))
  {
    var w1 := w.(processed := FirstColumn(w.ledger));
    var ms := MappingsOf(o.mappingSheet);
    if ms == [] {
      assert w.writeCalls[..|w.writeCalls|] == w.writeCalls && w.sends[..|w.sends|] == w.sends;
    } else {
      EntriesRecordFreshIds(w1, tempDir, mimeTypes, o.drive, ms, o.fileOracles);
    }
  }

  /** The ledger across a cycle: it stays well formed and its first column only grows. */
  lemma {:induction false} FilesKeepLedger(w: World, tempDir: string, m: Mapping, files: seq<DriveFile>, oracle: nat -> FileOracle)
    requires WellFormed(w.ledger)
    ensures var l' := StepFiles(w, tempDir, m, files, oracle).ledger;
      WellFormed(l') && FirstColumn(w.ledger) <= FirstColumn(l')
    decreases |files|
  {
    if files != [] {
      var w1 := StepFiles(w, tempDir, m, files[..|files| - 1], oracle);
      FilesKeepLedger(w, tempDir, m, files[..|files| - 1], oracle);
      FileLedger(w1, tempDir, m, files[|files| - 1], oracle(|files| - 1));
    }
  }

  lemma {:induction false} EntriesKeepLedger(w: World, tempDir: string, mimeTypes: seq<string>, drive: Drive,
                                             ms: seq<Mapping>, oracles: nat -> nat -> FileOracle)
    requires WellFormed(w.ledger)
    ensures var l' := StepEntries(w, tempDir, mimeTypes, drive, ms, oracles).ledger;
      WellFormed(l') && FirstColumn(w.ledger) <= FirstColumn(l')
    decreases |ms|
  {
    if ms != [] {
      var w1 := StepEntries(w, tempDir, mimeTypes, drive, ms[..|ms| - 1], oracles);
      EntriesKeepLedger(w, tempDir, mimeTypes, drive, ms[..|ms| - 1], oracles);
      var m := ms[|ms| - 1];
      var files := EntryFiles(w1, drive, mimeTypes, m);
      if files != [] {
        FilesKeepLedger(w1, tempDir, m, files, oracles(|ms| - 1));
      }
    }
  }

  /** Ids in the ledger's first column stay there from one cycle to the
      next; `NextCycleSkipsAppended` adds the rows appended during the cycle. */
  lemma CycleKeepsLedger(w: World, tempDir: string, mimeTypes: seq<string>, o: CycleOracle)
    requires WellFormed(w.ledger)
    ensures var l' := Cycle(w, tempDir, mimeTypes, o).ledger;
      WellFormed(l') && FirstColumn(w.ledger) <= FirstColumn(l')
  {
    var ms := MappingsOf(o.mappingSheet);
    if o.ledgerReadOk && ms != [] {
      EntriesKeepLedger(w.(processed := FirstColumn(w.ledger)), tempDir, mimeTypes, o.drive, ms, o.fileOracles);
    }
  }

  // ---------------------------------------------------------------------
  // Appended rows across cycles

  /** A file of the per-file loop whose row was appended stays in the
      ledger's first column through the rest of the loop. */
  lemma {:induction false} FilesAppendedStay(w: World, tempDir: string, m: Mapping, files: seq<DriveFile>,
                                             oracle: nat -> FileOracle, j: nat)
    requires WellFormed(w.ledger) && j < |files| && files[j].id != "" && oracle(j).write.Appended?
    ensures files[j].id in FirstColumn(StepFiles(w, tempDir, m, files, oracle).ledger)
    decreases |files|
  {
    var n := |files| - 1;
    var pre := files[..n];
    var w1 := StepFiles(w, tempDir, m, pre, oracle);
    var w2 := StepFile(w1, tempDir, m, files[n], oracle(n));
    assert StepFiles(w, tempDir, m, files, oracle) == w2;
    FilesKeepLedger(w, tempDir, m, pre, oracle);
    FileLedger(w1, tempDir, m, files[n], oracle(n));
    if j < n {
      assert pre[j] == files[j];
      FilesAppendedStay(w, tempDir, m, pre, oracle, j);
      PrefixMember(FirstColumn(w1.ledger), FirstColumn(w2.ledger), files[j].id);
    } else {
      assert j == n;
      assert files[n].id in FirstColumn(w2.ledger);
    }
    assert files[j].id in FirstColumn(w2.ledger);
  }

  lemma PrefixMember<T>(a: seq<T>, b: seq<T>, x: T)
    requires a <= b && x in a
    ensures x in b
  {
    var i :| 0 <= i < |a| && a[i] == x;
    assert b[i] == x;
  }

  /** The entries after the first `k` keep the first column the first `k` left. */
  lemma {:induction false} EntriesPrefixLedger(w: World, tempDir: string, mimeTypes: seq<string>, drive: Drive,
                                               ms: seq<Mapping>, oracles: nat -> nat -> FileOracle, k: nat)
    requires WellFormed(w.ledger) && k <= |ms|
    ensures FirstColumn(StepEntries(w, tempDir, mimeTypes, drive, ms[..k], oracles).ledger)
      <= FirstColumn(StepEntries(w, tempDir, mimeTypes, drive, ms, oracles).ledger)
    decreases |ms|
  {
    if k == |ms| {
      assert ms[..k] == ms;
    } else {
      var pre := ms[..|ms| - 1];
      var m := ms[|ms| - 1];
      assert pre[..k] == ms[..k];
      EntriesPrefixLedger(w, tempDir, mimeTypes, drive, pre, oracles, k);
      var w1 := StepEntries(w, tempDir, mimeTypes, drive, pre, oracles);
      EntriesKeepLedger(w, tempDir, mimeTypes, drive, pre, oracles);
      var files := EntryFiles(w1, drive, mimeTypes, m);
      if files != [] {
        FilesKeepLedger(w1, tempDir, m, files, oracles(|ms| - 1));
      }
    }
  }

  /** File `j` of entry `k`, when its row was appended, is in the ledger's
      first column once all the entries are done. */
  lemma EntriesAppendedStay(w: World, tempDir: string, mimeTypes: seq<string>, drive: Drive,
                            ms: seq<Mapping>, oracles: nat -> nat -> FileOracle, k: nat, j: nat)
    requires WellFormed(w.ledger) && k < |ms|
    requires var files := EntryFiles(StepEntries(w, tempDir, mimeTypes, drive, ms[..k], oracles), drive, mimeTypes, ms[k]);
      j < |files| && files[j].id != "" && oracles(k)(j).write.Appended?
    ensures var files := EntryFiles(StepEntries(w, tempDir, mimeTypes, drive, ms[..k], oracles), drive, mimeTypes, ms[k]);
      files[j].id in FirstColumn(StepEntries(w, tempDir, mimeTypes, drive, ms, oracles).ledger)
  {
    var wk := StepEntries(w, tempDir, mimeTypes, drive, ms[..k], oracles);
    var files := EntryFiles(wk, drive, mimeTypes, ms[k]);
    EntriesKeepLedger(w, tempDir, mimeTypes, drive, ms[..k], oracles);
    FilesAppendedStay(wk, tempDir, ms[k], files, oracles(k), j);
    StepEntriesPrefix(w, tempDir, mimeTypes, drive, ms, oracles, k);
    EntriesPrefixLedger(w, tempDir, mimeTypes, drive, ms, oracles, k + 1);
  }

  /** The files the per-file loop visits for entry `k` of a cycle that read the ledger. */
  function CycleEntryFiles(w: World, mimeTypes: seq<string>, tempDir: string, o: CycleOracle, k: nat): seq<DriveFile>
    requires k < |MappingsOf(o.mappingSheet)|
  {
    var ms := MappingsOf(o.mappingSheet);
    EntryFiles(StepEntries(w.(processed := FirstColumn(w.ledger)), tempDir, mimeTypes, o.drive, ms[..k], o.fileOracles),
               o.drive, mimeTypes, ms[k])
  }

  /** A file whose row was appended during a cycle is in the ledger's first
      column when the cycle ends. */
  lemma CycleAppendedStays(w: World, tempDir: string, mimeTypes: seq<string>, o: CycleOracle, k: nat, j: nat)
    requires WellFormed(w.ledger) && o.ledgerReadOk && k < |MappingsOf(o.mappingSheet)|
    requires var files := CycleEntryFiles(w, mimeTypes, tempDir, o, k);
      j < |files| && files[j].id != "" && o.fileOracles(k)(j).write.Appended?
    ensures CycleEntryFiles(w, mimeTypes, tempDir, o, k)[j].id in FirstColumn(Cycle(w, tempDir, mimeTypes, o).ledger)
  {
    EntriesAppendedStay(w.(processed := FirstColumn(w.ledger)), tempDir, mimeTypes, o.drive,
                        MappingsOf(o.mappingSheet), o.fileOracles, k, j);
  }

  /** A file whose row was appended during one cycle is visited by no entry
      of the next cycle that reads the ledger, whatever the drive lists then. */
  lemma NextCycleSkipsAppended(w: World, tempDir: string, mimeTypes: seq<string>, o: CycleOracle, k: nat, j: nat,
                               o2: CycleOracle, k2: nat)
    requires WellFormed(w.ledger) && o.ledgerReadOk && k < |MappingsOf(o.mappingSheet)|
    requires var files := CycleEntryFiles(w, mimeTypes, tempDir, o, k);
      j < |files| && files[j].id != "" && o.fileOracles(k)(j).write.Appended?
    requires o2.ledgerReadOk && k2 < |MappingsOf(o2.mappingSheet)|
    ensures forall f | f in CycleEntryFiles(Cycle(w, tempDir, mimeTypes, o), mimeTypes, tempDir, o2, k2) ::
      f.id != CycleEntryFiles(w, mimeTypes, tempDir, o, k)[j].id
  {
    var id := CycleEntryFiles(w, mimeTypes, tempDir, o, k)[j].id;
    CycleAppendedStays(w, tempDir, mimeTypes, o, k, j);
    var w' := Cycle(w, tempDir, mimeTypes, o);
    var ms2 := MappingsOf(o2.mappingSheet);
    var w2 := w'.(processed := FirstColumn(w'.ledger));
    var wk := StepEntries(w2, tempDir, mimeTypes, o2.drive, ms2[..k2], o2.fileOracles);
    EntriesRecordFreshIds(w2, tempDir, mimeTypes, o2.drive, ms2[..k2], o2.fileOracles);
    assert id in wk.processed;
    NewFilesExact(ListedFiles(o2.drive, ms2[k2].folderId, mimeTypes), wk.processed);
  }
}
