/**
 * The upload server's routes (server/routes/upload.js): the JSON answers to a single and a
 * multiple upload, built from what multer stored, and the listing of a test's recordings on the
 * local disk. The filesystem is an input: whether the folder exists and the names it holds.
 */
module UploadRoutes {
  import opened Wrappers
  import opened JsStrings
  import opened JsArrays
  import opened StorageIds
  import opened S3Settings
  import opened UploadMiddleware
  import UploadService

  /** A file as multer leaves it on the request; `key` and `location` are set by the S3 storage only. */
  datatype StoredFile = StoredFile(
    originalName: string, mimeType: string, size: int,
    filename: Option<string>, key: Option<string>, location: Option<string>)

  /** One entry of the `file` / `files` part of an upload answer. */
  datatype FileRecord = FileRecord(
    originalName: string, fileName: Option<string>, size: int, mimeType: string,
    url: string, s3Key: Option<string>, storageType: Option<string>)

  datatype UploadAnswer =
    | Rejected(status: int, error: string, message: string)
    | Accepted(status: int, message: string, files: seq<FileRecord>)

  /** A possibly undefined value inside a template literal. */
  function Text(v: Option<string>): string {
    if v.Some? then v.value else "undefined"
  }

  /** `http://localhost:${process.env.PORT || 3001}`. */
  function ServerBase(env: Env): (b: string)
    ensures StartsWith(b, "http://localhost:") && b[17..] == EnvOr(env, "PORT", "3001")
    ensures "PORT" !in env || env["PORT"] == "" ==> b == "http://localhost:3001"
  {
    var b := "http://localhost:" + EnvOr(env, "PORT", "3001");
    assert b[17..] == EnvOr(env, "PORT", "3001");
    b
  }

  /** The entry for the single upload's file. */
  function SingleFileRecord(f: StoredFile, fields: UploadFields, env: Env): (r: FileRecord)
    ensures Truthy(f.location) ==> r.storageType == Some("s3") && r.url == f.location.value
    ensures !Truthy(f.location) ==> r.storageType == Some("local")
    ensures !Truthy(f.location) && Truthy(f.key) ==> r.url == ServerBase(env) + "/uploads/" + f.key.value
    ensures !Truthy(f.location) && !Truthy(f.key) ==>
      r.url == ServerBase(env) + "/uploads/" + "videos/" + TestFolder(fields) + "/" + Text(f.filename)
    ensures r.fileName == if Truthy(f.key) then f.key else f.filename
    ensures (r.originalName, r.size, r.mimeType, r.s3Key) == (f.originalName, f.size, f.mimeType, f.key)
  {
    var localPath := if Truthy(f.key) then f.key.value else "videos/" + TestFolder(fields) + "/" + Text(f.filename);
    FileRecord(f.originalName, if Truthy(f.key) then f.key else f.filename, f.size, f.mimeType,
      if Truthy(f.location) then f.location.value else ServerBase(env) + "/uploads/" + localPath,
      f.key, Some(if Truthy(f.location) then "s3" else "local"))
  }

  /** POST /video: 400 without a file, otherwise 200 with the file's entry. */
  function SingleUpload(file: Option<StoredFile>, fields: UploadFields, env: Env): (a: UploadAnswer)
    ensures a.Rejected? <==> file.None?
    ensures a.Rejected? ==> a == Rejected(400, "No file uploaded", "Please select a video file to upload")
    ensures a.Accepted? ==> a.status == 200 && a.files == [SingleFileRecord(file.value, fields, env)]
  {
    if file.None? then Rejected(400, "No file uploaded", "Please select a video file to upload")
    else Accepted(200, "Video uploaded successfully", [SingleFileRecord(file.value, fields, env)])
  }

  /** "/uploads/" followed by a key under "videos/" is "/" followed by the file's place on disk. */
  lemma UploadsFolderPath(base: string, folder: string, name: string)
    ensures base + "/uploads/" + ("videos/" + folder + "/" + name)
         == base + "/" + ("uploads/videos/" + folder) + "/" + name
  {
    assert "/uploads/" + "videos/" == "/" + "uploads/videos/";
    calc {
      base + "/uploads/" + ("videos/" + folder + "/" + name);
      base + ("/uploads/" + "videos/") + folder + "/" + name;
      base + ("/" + "uploads/videos/") + folder + "/" + name;
    }
  }

  /**
   * A recording the local storage wrote is answered with a URL under the server's base whose
   * path is exactly the file's place on disk (the server serves the "uploads" folder at /uploads),
   * provided the storage saw the test id the route handler reads.
   */
  lemma SingleLocalUrlIsStoredPath(
    storageFields: UploadFields, routeFields: UploadFields, name: string, f: StoredFile, env: Env)
    requires f.key.None? && f.location.None? && f.filename == Some(name)
    requires TestFolder(storageFields) == TestFolder(routeFields)
    ensures SingleFileRecord(f, routeFields, env).url
         == ServerBase(env) + "/" + LocalDestination(storageFields) + "/" + name
  {
    UploadsFolderPath(ServerBase(env), TestFolder(routeFields), name);
  }

  /** When the storage saw another test folder than the route reads, the URL misses the file. */
  lemma SingleLocalUrlMissesStoredFile(
    storageFields: UploadFields, routeFields: UploadFields, name: string, f: StoredFile, env: Env)
    requires f.key.None? && f.location.None? && f.filename == Some(name)
    requires TestFolder(storageFields) != TestFolder(routeFields)
    ensures SingleFileRecord(f, routeFields, env).url
         != ServerBase(env) + "/" + LocalDestination(storageFields) + "/" + name
  {
    SingleLocalUrlIsStoredPath(routeFields, routeFields, name, f, env);
    var b, tail := ServerBase(env) + "/", "/" + name;
    var dr, ds := LocalDestination(routeFields), LocalDestination(storageFields);
    assert ServerBase(env) + "/" + dr + "/" + name == b + dr + tail;
    assert ServerBase(env) + "/" + ds + "/" + name == b + ds + tail;
    if b + dr + tail == b + ds + tail {
      SameFrameSameMiddle(b, dr, ds, tail);
    }
  }

  /**
   * The single upload as the client sends it: a recording of a test whose folder is not
   * "unknown" is stored in "uploads/videos/unknown", while the answer's URL names the test's
   * folder, so it does not lead to the file.
   */
  lemma SingleUploadAsSentMissesFile<F>(
    file: F, metadata: UploadService.UploadMetadata, f: StoredFile, name: string, env: Env)
    requires f.key.None? && f.location.None? && f.filename == Some(name)
    requires metadata.testId != "" && Sanitize(metadata.testId) != "unknown"
    ensures var parts := UploadService.SingleUploadForm(file, metadata);
      SingleUpload(Some(f), UploadService.ServerFields(parts), env).files[0].url
      != ServerBase(env) + "/" + LocalDestination(UploadService.StorageFields(parts, 0)) + "/" + name
  {
    var parts := UploadService.SingleUploadForm(file, metadata);
    UploadService.SingleFormStorageSeesNoFields(file, metadata);
    SingleLocalUrlMissesStoredFile(UploadService.StorageFields(parts, 0), UploadService.ServerFields(parts), name, f, env);
  }

  /** With the metadata sent first, the single upload's URL leads to the stored file. */
  lemma SingleUploadCorrectedFindsFile<F>(
    file: F, metadata: UploadService.UploadMetadata, f: StoredFile, name: string, env: Env)
    requires f.key.None? && f.location.None? && f.filename == Some(name)
    ensures var parts := UploadService.SingleUploadFormCorrected(file, metadata);
      SingleUpload(Some(f), UploadService.ServerFields(parts), env).files[0].url
      == ServerBase(env) + "/" + LocalDestination(UploadService.StorageFields(parts, 3)) + "/" + name
  {
    var parts := UploadService.SingleUploadFormCorrected(file, metadata);
    UploadService.CorrectedSingleFormReachesStorage(file, metadata);
    SingleLocalUrlIsStoredPath(UploadService.StorageFields(parts, 3), UploadService.ServerFields(parts), name, f, env);
  }

  /** An entry of the multiple upload's answer, as written: a local file's URL is "/uploads/<filename>". */
  function MultiFileRecord(f: StoredFile): (r: FileRecord)
    ensures (r.originalName, r.size, r.mimeType, r.s3Key) == (f.originalName, f.size, f.mimeType, f.key)
    ensures r.fileName == (if Truthy(f.key) then f.key else f.filename) && r.storageType.None?
    ensures r.url == if Truthy(f.location) then f.location.value else "/uploads/" + Text(f.filename)
  {
    FileRecord(f.originalName, if Truthy(f.key) then f.key else f.filename, f.size, f.mimeType,
      if Truthy(f.location) then f.location.value else "/uploads/" + Text(f.filename), f.key, None)
  }

  /**
   * The local URL of the multiple upload does not lead to the file: the local storage puts it in
   * "uploads/videos/<folder>/", but the URL leaves that folder out.
   */
  lemma MultiLocalUrlMissesFolder(fields: UploadFields, f: StoredFile)
    requires f.key.None? && f.location.None? && f.filename.Some?
    ensures MultiFileRecord(f).url != "/" + LocalDestination(fields) + "/" + f.filename.value
  {
    assert |MultiFileRecord(f).url| < |"/" + LocalDestination(fields) + "/" + f.filename.value|;
  }

  /** The entry the multiple upload evidently means: the same local URL path the single upload gives. */
  function MultiFileRecordCorrected(f: StoredFile, fields: UploadFields): (r: FileRecord)
    ensures (r.originalName, r.size, r.mimeType, r.s3Key) == (f.originalName, f.size, f.mimeType, f.key)
    ensures Truthy(f.location) ==> r.url == f.location.value
    ensures r == MultiFileRecord(f).(url := if Truthy(f.location) then f.location.value
                                            else "/uploads/videos/" + TestFolder(fields) + "/" + Text(f.filename))
  {
    assert "/uploads/" + "videos/" == "/uploads/videos/";
    FileRecord(f.originalName, if Truthy(f.key) then f.key else f.filename, f.size, f.mimeType,
      if Truthy(f.location) then f.location.value
      else "/uploads/" + "videos/" + TestFolder(fields) + "/" + Text(f.filename),
      f.key, None)
  }

  /**
   * With the correction, a locally stored file's URL path is its place on disk, provided the
   * storage saw the test id the route handler reads.
   */
  lemma MultiCorrectedUrlIsStoredPath(storageFields: UploadFields, fields: UploadFields, f: StoredFile)
    requires f.key.None? && f.location.None? && f.filename.Some?
    requires TestFolder(storageFields) == TestFolder(fields)
    ensures MultiFileRecordCorrected(f, fields).url
         == "/" + LocalDestination(storageFields) + "/" + f.filename.value
  {
    var folder, name := TestFolder(fields), f.filename.value;
    assert MultiFileRecordCorrected(f, fields).url == "/uploads/videos/" + folder + "/" + name;
    assert LocalDestination(storageFields) == "uploads/videos/" + folder;
    LocalUrlPath(folder, name);
  }

  /** "/uploads/videos/<folder>/<name>" is "/" followed by the local directory, "/" and the name. */
  lemma LocalUrlPath(folder: string, name: string)
    ensures "/uploads/videos/" + folder + "/" + name == "/" + ("uploads/videos/" + folder) + "/" + name
  {
    assert "/uploads/videos/" == "/" + "uploads/videos/";
  }

  /**
   * With both corrections (metadata sent before the files, and the folder in the answer's URL),
   * every locally stored file of a multiple upload is answered with its place on disk.
   */
  lemma MultiUploadCorrectedFindsFiles<F>(
    files: seq<F>, metadata: UploadService.UploadMetadata, f: StoredFile, i: nat)
    requires i < |files|
    requires f.key.None? && f.location.None? && f.filename.Some?
    ensures var parts := UploadService.MultiUploadFormCorrected(files, metadata);
      MultiFileRecordCorrected(f, UploadService.ServerFields(parts)).url
      == "/" + LocalDestination(UploadService.StorageFields(parts, 3 + i)) + "/" + f.filename.value
  {
    var parts := UploadService.MultiUploadFormCorrected(files, metadata);
    UploadService.CorrectedMultiFormReachesStorage(files, metadata, i);
    MultiCorrectedUrlIsStoredPath(UploadService.StorageFields(parts, 3 + i), UploadService.ServerFields(parts), f);
  }

  /** POST /videos: 400 without files, otherwise one entry per file, in the order they came. */
  function MultiUpload(files: seq<StoredFile>): (a: UploadAnswer)
    ensures a.Rejected? <==> files == []
    ensures a.Rejected? ==> a == Rejected(400, "No files uploaded", "Please select video files to upload")
    ensures a.Accepted? ==> a.status == 200 && |a.files| == |files|
    ensures a.Accepted? ==> forall i :: 0 <= i < |files| ==> a.files[i] == MultiFileRecord(files[i])
    ensures a.Accepted? ==> a.message == IntToString(|files|) + " video(s) uploaded successfully"
  {
    if files == [] then Rejected(400, "No files uploaded", "Please select video files to upload")
    else Accepted(200, IntToString(|files|) + " video(s) uploaded successfully",
                  seq(|files|, i requires 0 <= i < |files| => MultiFileRecord(files[i])))
  }

  const VideoExtensions: seq<string> := [".mp4", ".webm", ".ogg", ".mov", ".avi", ".mkv"]

  /** The listing filter: the lower-cased extension is one of the six video extensions. */
  predicate IsVideoFileName(name: string) {
    ToLower(ExtName(name)) in VideoExtensions
  }

  datatype VideoEntry = VideoEntry(filename: string, url: string, path: string)

  /** The answer of GET /videos/:testId; `count` is absent when the folder does not exist. */
  datatype Listing = Listing(testId: string, videos: seq<VideoEntry>, count: Option<int>, message: Option<string>)

  /** The entry of one listed file. */
  function Entry(folder: string, base: string, file: string): VideoEntry {
    VideoEntry(file, base + "/uploads/videos/" + folder + "/" + file, "videos/" + folder + "/" + file)
  }

  /**
   * GET /videos/:testId: no folder gives an empty list; otherwise the video files, sorted as
   * strings, each with its URL and its path, and their count.
   */
  function ListVideos(testId: string, dirExists: bool, files: seq<string>, env: Env): (l: Listing)
    ensures l.testId == testId
    ensures !dirExists ==> l.videos == [] && l.count.None?
    ensures dirExists ==> l.count == Some(|l.videos|)
    ensures dirExists ==> |l.videos| == |Filter(files, IsVideoFileName)|
    ensures dirExists ==> forall i :: 0 <= i < |l.videos| ==>
      l.videos[i] == Entry(Sanitize(testId), ServerBase(env), SortStrings(Filter(files, IsVideoFileName))[i])
  {
    if !dirExists then Listing(testId, [], None, Some("No videos found for this test"))
    else
      var videoFiles := SortStrings(Filter(files, IsVideoFileName));
      SortStringsCorrect(Filter(files, IsVideoFileName));
      assert |videoFiles| == |Filter(files, IsVideoFileName)| by {
        assert |multiset(videoFiles)| == |multiset(Filter(files, IsVideoFileName))|;
      }
      var folder, base := Sanitize(testId), ServerBase(env);
      var videos := seq(|videoFiles|, i requires 0 <= i < |videoFiles| => Entry(folder, base, videoFiles[i]));
      Listing(testId, videos, Some(|videos|), None)
  }

  /** The names of the listed videos. */
  function ListedNames(l: Listing): seq<string> {
    seq(|l.videos|, i requires 0 <= i < |l.videos| => l.videos[i].filename)
  }

  /** The listed names are the folder's video files, each kept once per occurrence, in string order. */
  lemma ListedNamesSortedVideoFiles(testId: string, files: seq<string>, env: Env)
    ensures var names := ListedNames(ListVideos(testId, true, files, env));
      Sorted(names) && multiset(names) == multiset(Filter(files, IsVideoFileName))
      && forall i :: 0 <= i < |names| ==> IsVideoFileName(names[i])
  {
    var kept := Filter(files, IsVideoFileName);
    SortStringsCorrect(kept);
    var names := ListedNames(ListVideos(testId, true, files, env));
    assert names == SortStrings(kept);
    forall i | 0 <= i < |names| ensures IsVideoFileName(names[i]) {
      assert names[i] in multiset(kept);
    }
  }

  /** A shared prefix does not change how two strings compare. */
  lemma {:induction false} LexLeAfterPrefix(p: string, x: string, y: string)
    ensures LexLe(p + x, p + y) == LexLe(x, y)
  {
    if p == [] {
      assert p + x == x && p + y == y;
    } else {
      assert (p + x)[0] == p[0] == (p + y)[0];
      assert (p + x)[1..] == p[1..] + x && (p + y)[1..] == p[1..] + y;
      LexLeAfterPrefix(p[1..], x, y);
    }
  }

  /**
   * The sort is by characters, not by recording number: "recording_10_…" comes before
   * "recording_2_…" whatever follows.
   */
  lemma TenSortsBeforeTwo(a: string, b: string)
    ensures LexLe("recording_10" + a, "recording_2" + b)
    ensures !LexLe("recording_2" + b, "recording_10" + a)
  {
    assert "recording_10" + a == "recording_" + ("10" + a);
    assert "recording_2" + b == "recording_" + ("2" + b);
    LexLeAfterPrefix("recording_", "10" + a, "2" + b);
    LexLeAfterPrefix("recording_", "2" + b, "10" + a);
  }

  /** An upper-case video extension is kept: the comparison is made on the lower-cased extension. */
  lemma UpperCaseExtensionKept(stem: string)
    requires stem != [] && forall i :: 0 <= i < |stem| ==> stem[i] != '.'
    ensures IsVideoFileName(stem + ".WEBM")
  {
    ExtNameOf(stem, "WEBM");
    assert stem + ".WEBM" == stem + "." + "WEBM";
    assert ToLower(".WEBM") == ".webm";
  }

  /** The extension of a stored recording's name is the original extension, or ".webm" without one. */
  lemma StoredRecordingExtension(fields: UploadFields, originalName: string, timestamp: int)
    ensures ExtName(LocalFileName(fields, originalName, timestamp)) == Or(ExtName(originalName), ".webm")
  {
    var ext := Or(ExtName(originalName), ".webm");
    var head := "recording_" + RecordingNumber(fields) + "_" + IntToString(timestamp);
    assert LocalFileName(fields, originalName, timestamp) == head + ext;
    assert head[0] == 'r';
    StoredExtensionShape(ExtName(originalName));
    ExtNameOfSuffix(head, ext);
  }

  /** The stored extension is a '.' followed by no other '.'. */
  lemma StoredExtensionShape(e: string)
    requires e != "" ==> e[0] == '.' && forall i :: 1 <= i < |e| ==> e[i] != '.'
    ensures var ext := Or(e, ".webm");
      ext != [] && ext[0] == '.' && forall i :: 1 <= i < |ext| ==> ext[i] != '.'
  {
    if e == "" {
      assert Or(e, ".webm") == ".webm";
    }
  }

  /**
   * So when the original extension is a video extension in any case, or missing, the listing
   * shows the recording.
   */
  lemma StoredRecordingIsListed(fields: UploadFields, originalName: string, timestamp: int)
    requires ExtName(originalName) == "" || ToLower(ExtName(originalName)) in VideoExtensions
    ensures IsVideoFileName(LocalFileName(fields, originalName, timestamp))
  {
    StoredRecordingExtension(fields, originalName, timestamp);
    VideoExtensionOrWebm(ExtName(originalName));
  }

  /** ".webm" standing in for a missing extension is a video extension. */
  lemma VideoExtensionOrWebm(ext: string)
    requires ext == "" || ToLower(ext) in VideoExtensions
    ensures ToLower(Or(ext, ".webm")) in VideoExtensions
  {
    if ext == "" {
      assert ToLower(".webm") == ".webm";
    }
  }
}
