/** `find_media_files_on_drive` and `find_new_media_files` (voicy_functions.py):
    listing the media files of one Drive folder page by page, one MIME type
    after another, and keeping the files whose id is not yet in the ledger. */
module DriveListing {
  import opened Basics

  /** A file entry as a dictionary: `id`, `name` and, when the listing made
      it, `mimeType` (the dedup filter drops that key). */
  datatype DriveFile = DriveFile(id: string, name: string, mimeType: Option<string>)

  /** The answer to one `files().list(...).execute()` call: a page of files with
      the token of the next page, or an error (an `HttpError`, any other
      exception, or a file entry missing one of its keys). */
  datatype Page = PageOk(files: seq<DriveFile>, nextPageToken: Option<string>) | PageError

  /** After this page the paging loop breaks: on an error, and when the next
      page token is missing or empty. */
  predicate Stops(p: Page) {
    p.PageError? || p.nextPageToken.None? || p.nextPageToken.value == ""
  }

  predicate HasStop(ps: seq<Page>)
    decreases |ps|
  {
    ps != [] && (Stops(ps[0]) || HasStop(ps[1..]))
  }

  /** The pages the Drive service hands out for one query, one per request;
      the service eventually stops handing out tokens or fails. */
  type PageStream = ps: seq<Page> | HasStop(ps) witness [PageError]

  /** The Drive service as seen by the listing: the pages it returns for a query. */
  type Drive = string -> PageStream

  /** The query sent for one folder and one MIME type. */
  function Query(folderId: string, mimeType: string): string {
    "'" + folderId + "' in parents and mimeType='" + mimeType + "' and trashed = false"
  }

  /** The files collected from one page stream: the files of every page up to
      and including the first page after which the loop stops; an error page
      contributes nothing. */
  function PagedFiles(ps: seq<Page>): seq<DriveFile>
    decreases |ps|
  {
    if ps == [] then []
    else if ps[0].PageError? then []
    else ps[0].files + (if Stops(ps[0]) then [] else PagedFiles(ps[1..]))
  }

  /** All files of the successful pages, in order (the reference the paging
      result is compared with). */
  function AllFiles(ps: seq<Page>): seq<DriveFile> {
    if ps == [] then []
    else AllFiles(ps[..|ps| - 1]) + (if ps[|ps| - 1].PageOk? then ps[|ps| - 1].files else [])
  }

  /** The index of the first stopping page. */
  function FirstStop(ps: seq<Page>): (k: nat)
    requires HasStop(ps)
    ensures k < |ps| && Stops(ps[k])
    ensures forall j | 0 <= j < k :: !Stops(ps[j])
    decreases |ps|
  {
    if Stops(ps[0]) then 0 else FirstStop(ps[1..]) + 1
  }

  /** The whole listing: the files of every MIME type, in the order of the types. */
  function ListedFiles(drive: Drive, folderId: string, mimeTypes: seq<string>): seq<DriveFile> {
    if mimeTypes == [] then []
    else
      ListedFiles(drive, folderId, mimeTypes[..|mimeTypes| - 1])
      + PagedFiles(drive(Query(folderId, mimeTypes[|mimeTypes| - 1])))
  }

  /** The loop over MIME types of `find_media_files_on_drive`. No statement
      outside the per-page `try` can raise, so the function always returns a list. */
  method FindMediaFilesOnDrive(drive: Drive, folderId: string, mimeTypes: seq<string>)
    returns (mediaFiles: seq<DriveFile>)
    ensures mediaFiles == ListedFiles(drive, folderId, mimeTypes)
  {
    mediaFiles := [];
    for t := 0 to |mimeTypes|
      invariant mediaFiles == ListedFiles(drive, folderId, mimeTypes[..t])
    {
      ListedFilesStep(drive, folderId, mimeTypes, t);
      mediaFiles := CollectPages(drive(Query(folderId, mimeTypes[t])), mediaFiles);
    }
    assert mimeTypes[..|mimeTypes|] == mimeTypes;
  }

  /** The paging loop for one MIME type: request page after page, append
      each page's files to `media_files`, and stop on an error or when no
      next page token comes back. */
  method CollectPages(pages: PageStream, before: seq<DriveFile>) returns (mediaFiles: seq<DriveFile>)
    ensures mediaFiles == before + PagedFiles(pages)
  {
    mediaFiles := before;
    var p := 0;
    while true
      invariant 0 <= p < |pages| && HasStop(pages[p..])
      invariant mediaFiles + PagedFiles(pages[p..]) == before + PagedFiles(pages)
      decreases |pages| - p
    {
      PagedFilesAt(pages, p);
      var response := pages[p];
      if response.PageError? {
        assert mediaFiles + [] == mediaFiles;
        break;
      }
      var files := response.files;
      ghost var rest := if Stops(response) then [] else PagedFiles(pages[p + 1..]);
      AppendPage(mediaFiles, files, rest);
      if files != [] {
        mediaFiles := mediaFiles + files;
      }
      var pageToken := response.nextPageToken;
      if pageToken.None? || pageToken.value == "" {
        assert mediaFiles + [] == mediaFiles;
        break;
      }
      p := p + 1;
    }
  }

  lemma AppendPage(acc: seq<DriveFile>, files: seq<DriveFile>, rest: seq<DriveFile>)
    ensures acc + (files + rest) == (if files != [] then acc + files else acc) + rest
  {
    if files == [] {
      assert files + rest == rest;
    }
  }

  lemma ListedFilesStep(drive: Drive, folderId: string, mimeTypes: seq<string>, t: nat)
    requires t < |mimeTypes|
    ensures ListedFiles(drive, folderId, mimeTypes[..t + 1])
      == ListedFiles(drive, folderId, mimeTypes[..t]) + PagedFiles(drive(Query(folderId, mimeTypes[t])))
  {
    assert mimeTypes[..t + 1][..t] == mimeTypes[..t];
  }

  lemma PagedFilesAt(ps: seq<Page>, p: nat)
    requires p < |ps|
    ensures PagedFiles(ps[p..]) == if ps[p].PageError? then []
      else ps[p].files + (if Stops(ps[p]) then [] else PagedFiles(ps[p + 1..]))
    ensures HasStop(ps[p..]) && !Stops(ps[p]) ==> p + 1 < |ps| && HasStop(ps[p + 1..])
  {
    assert ps[p..][0] == ps[p];
    assert ps[p..][1..] == ps[p + 1..];
    if HasStop(ps[p..]) && !Stops(ps[p]) {
      assert HasStop(ps[p..][1..]);
    }
  }

  /** Pages after the first stopping page are never requested. */
  lemma PagedFilesUpToStop(ps: seq<Page>)
    requires HasStop(ps)
    ensures var k := FirstStop(ps);
      PagedFiles(ps) == AllFiles(ps[..k]) + (if ps[k].PageOk? then ps[k].files else [])
  {
    PagedFilesBefore(ps, FirstStop(ps));
  }

  /** The same, for a stopping page `k` with no stopping page before it. */
  lemma {:induction false} PagedFilesBefore(ps: seq<Page>, k: nat)
    requires k < |ps| && Stops(ps[k])
    requires forall j | 0 <= j < k :: !Stops(ps[j])
    ensures PagedFiles(ps) == AllFiles(ps[..k]) + (if ps[k].PageOk? then ps[k].files else [])
    decreases k
  {
    if k == 0 {
      StopFirst(ps);
    } else {
      var tail := ps[1..];
      assert !Stops(ps[0]);
      assert PagedFiles(ps) == ps[0].files + PagedFiles(tail);
      forall j | 0 <= j < k - 1
        ensures !Stops(tail[j])
      {
        assert tail[j] == ps[j + 1];
      }
      assert tail[k - 1] == ps[k];
      PagedFilesBefore(tail, k - 1);
      AllFilesShift(ps, k);
      SeqAssoc(ps[0].files, AllFiles(tail[..k - 1]), if ps[k].PageOk? then ps[k].files else []);
    }
  }

  lemma StopFirst(ps: seq<Page>)
    requires ps != [] && Stops(ps[0])
    ensures PagedFiles(ps) == AllFiles(ps[..0]) + (if ps[0].PageOk? then ps[0].files else [])
  {
    assert ps[..0] == [];
    if ps[0].PageOk? {
      assert PagedFiles(ps) == ps[0].files + [];
    }
  }

  lemma AllFilesShift(ps: seq<Page>, k: nat)
    requires 1 <= k <= |ps|
    ensures AllFiles(ps[..k]) == (if ps[0].PageOk? then ps[0].files else []) + AllFiles(ps[1..][..k - 1])
  {
    AllFilesCons(ps[0], ps[1..][..k - 1]);
    assert [ps[0]] + ps[1..][..k - 1] == ps[..k];
  }

  lemma AllFilesSnoc(ps: seq<Page>, p: Page)
    ensures AllFiles(ps + [p]) == AllFiles(ps) + (if p.PageOk? then p.files else [])
  {
    assert (ps + [p])[..|ps|] == ps;
  }


  lemma AllFilesCons(p: Page, ps: seq<Page>)
    ensures AllFiles([p] + ps) == (if p.PageOk? then p.files else []) + AllFiles(ps)
  {
    AllFilesAppend([p], ps);
    AllFilesSnoc([], p);
    assert [] + [p] == [p];
    assert [] + (if p.PageOk? then p.files else []) == (if p.PageOk? then p.files else []);
  }

  /** The successful pages of a stream split in two, in order. */
  lemma {:induction false} AllFilesAppend(a: seq<Page>, b: seq<Page>)
    ensures AllFiles(a + b) == AllFiles(a) + AllFiles(b)
    decreases |b|
  {
    if b == [] {
      assert a + b == a;
    } else {
      var b', last := b[..|b| - 1], b[|b| - 1];
      assert b == b' + [last];
      assert a + b == (a + b') + [last];
      AllFilesAppend(a, b');
      AllFilesSnoc(a + b', last);
      AllFilesSnoc(b', last);
      SeqAssoc(AllFiles(a), AllFiles(b'), if last.PageOk? then last.files else []);
    }
  }

  /** A page error stops only its own MIME type and keeps the files of the
      pages before it; the other types are listed as usual. */
  lemma PageErrorKeepsEarlierPages(ps: PageStream, k: nat)
    requires k < |ps| && ps[k].PageError?
    requires forall j | 0 <= j < k :: !Stops(ps[j])
    ensures PagedFiles(ps) == AllFiles(ps[..k])
  {
    PagedFilesBefore(ps, k);
  }

  /** The listing is grouped by MIME type, in the order of the types. */
  lemma {:induction false} ListedFilesAppend(drive: Drive, folderId: string, a: seq<string>, b: seq<string>)
    ensures ListedFiles(drive, folderId, a + b) == ListedFiles(drive, folderId, a) + ListedFiles(drive, folderId, b)
    decreases |b|
  {
    if b == [] {
      assert a + b == a;
    } else {
      var b', last := b[..|b| - 1], b[|b| - 1];
      assert b == b' + [last];
      assert a + b == (a + b') + [last];
      ListedFilesAppend(drive, folderId, a, b');
      ListedFilesSnoc(drive, folderId, a + b', last);
      ListedFilesSnoc(drive, folderId, b', last);
      SeqAssoc(ListedFiles(drive, folderId, a), ListedFiles(drive, folderId, b'), PagedFiles(drive(Query(folderId, last))));
    }
  }

  lemma ListedFilesSnoc(drive: Drive, folderId: string, mimeTypes: seq<string>, mimeType: string)
    ensures ListedFiles(drive, folderId, mimeTypes + [mimeType])
      == ListedFiles(drive, folderId, mimeTypes) + PagedFiles(drive(Query(folderId, mimeType)))
  {
    assert (mimeTypes + [mimeType])[..|mimeTypes|] == mimeTypes;
  }

  /** One MIME type contributes exactly the pages of its own query. */
  lemma ListedFilesSingle(drive: Drive, folderId: string, mimeType: string)
    ensures ListedFiles(drive, folderId, [mimeType]) == PagedFiles(drive(Query(folderId, mimeType)))
  {
    assert [mimeType][..0] == [];
  }

  // ---------------------------------------------------------------------
  // find_new_media_files

  /** The entry the filter emits: the file's `id` and `name` only. */
  function Project(f: DriveFile): DriveFile {
    DriveFile(f.id, f.name, None)
  }

  /** The files whose id is not among the ledger ids, projected, in input order. */
  function NewFiles(files: seq<DriveFile>, ids: seq<string>): seq<DriveFile> {
    if files == [] then []
    else
      var f := files[|files| - 1];
      NewFiles(files[..|files| - 1], ids) + (if f.id in ids then [] else [Project(f)])
  }

  /** The loop of `find_new_media_files`, with the ids turned into a set first. */
  method FindNewMediaFiles(driveFiles: seq<DriveFile>, spreadsheetIds: seq<string>) returns (newFiles: seq<DriveFile>)
    ensures newFiles == NewFiles(driveFiles, spreadsheetIds)
  {
    newFiles := [];
    var idSet := set x | x in spreadsheetIds;
    for i := 0 to |driveFiles|
      invariant newFiles == NewFiles(driveFiles[..i], spreadsheetIds)
    {
      assert driveFiles[..i + 1][..i] == driveFiles[..i];
      var fileInfo := driveFiles[i];
      if fileInfo.id !in idSet {
        newFiles := newFiles + [DriveFile(fileInfo.id, fileInfo.name, None)];
      }
    }
    assert driveFiles[..|driveFiles|] == driveFiles;
  }

  /** Filtering distributes over concatenation, so the input order is kept. */
  lemma {:induction false} NewFilesAppend(a: seq<DriveFile>, b: seq<DriveFile>, ids: seq<string>)
    ensures NewFiles(a + b, ids) == NewFiles(a, ids) + NewFiles(b, ids)
    decreases |b|
  {
    if b == [] {
      assert a + b == a;
    } else {
      var b', last := b[..|b| - 1], b[|b| - 1];
      assert b == b' + [last];
      assert a + b == (a + b') + [last];
      NewFilesAppend(a, b', ids);
      NewFilesSnoc(a + b', last, ids);
      NewFilesSnoc(b', last, ids);
      SeqAssoc(NewFiles(a, ids), NewFiles(b', ids), if last.id in ids then [] else [Project(last)]);
    }
  }

  lemma NewFilesSnoc(files: seq<DriveFile>, f: DriveFile, ids: seq<string>)
    ensures NewFiles(files + [f], ids) == NewFiles(files, ids) + (if f.id in ids then [] else [Project(f)])
  {
    assert (files + [f])[..|files|] == files;
  }

  /** Every emitted entry is the projection of an input file whose id is not
      among the ids, and every such input file is emitted. */
  lemma {:induction false} NewFilesExact(files: seq<DriveFile>, ids: seq<string>)
    ensures forall g | g in NewFiles(files, ids) ::
      (g.id !in ids && g.mimeType.None? && exists f | f in files :: g == Project(f))
    ensures forall f | f in files && f.id !in ids :: Project(f) in NewFiles(files, ids)
    ensures |NewFiles(files, ids)| <= |files|
    decreases |files|
  {
    if files != [] {
      var pre := files[..|files| - 1];
      NewFilesExact(pre, ids);
      assert files == pre + [files[|files| - 1]];
      forall f | f in files && f.id !in ids ensures Project(f) in NewFiles(files, ids) {
        if f in pre {
        } else {
          assert f == files[|files| - 1];
        }
      }
    }
  }

  /** Filtering its own output against the same ids changes nothing. */
  lemma {:induction false} NewFilesIdempotent(files: seq<DriveFile>, ids: seq<string>)
    ensures NewFiles(NewFiles(files, ids), ids) == NewFiles(files, ids)
    decreases |files|
  {
    if files != [] {
      var pre := files[..|files| - 1];
      var f := files[|files| - 1];
      NewFilesIdempotent(pre, ids);
      var tail := if f.id in ids then [] else [Project(f)];
      NewFilesAppend(NewFiles(pre, ids), tail, ids);
      if f.id !in ids {
        assert [Project(f)][..0] == [];
      }
    }
  }

  /** Filtering against a longer id list is filtering twice: recording an id
      removes exactly the files with that id from later filters. */
  lemma {:induction false} NewFilesMoreIds(files: seq<DriveFile>, ids: seq<string>, more: seq<string>)
    ensures NewFiles(files, ids + more) == NewFiles(NewFiles(files, ids), more)
    decreases |files|
  {
    if files != [] {
      var pre := files[..|files| - 1];
      var f := files[|files| - 1];
      NewFilesMoreIds(pre, ids, more);
      var tail := if f.id in ids then [] else [Project(f)];
      NewFilesAppend(NewFiles(pre, ids), tail, more);
      if f.id !in ids {
        assert [Project(f)][..0] == [];
      }
    }
  }

  /** Once every listed id is recorded, nothing is new. */
  lemma {:induction false} NothingNewOnceRecorded(files: seq<DriveFile>, ids: seq<string>)
    requires forall f | f in files :: f.id in ids
    ensures NewFiles(files, ids) == []
    decreases |files|
  {
    if files != [] {
      NothingNewOnceRecorded(files[..|files| - 1], ids);
    }
  }
}
