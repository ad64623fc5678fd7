/**
 * The upload server's multer configuration (server/middleware/upload.js): which files are
 * accepted, where and under which name a recording is stored (S3 key or local folder and file
 * name), which storage is used, the size limit, and how upload errors become HTTP responses.
 * The clock (`Date.now()`) and the environment are inputs; creating the folder is left out.
 */
module UploadMiddleware {
  import opened Wrappers
  import opened JsStrings
  import opened StorageIds
  import ServerS3Config

  /** The text fields of the multipart request body; `None` is a field that was not sent. */
  datatype UploadFields = UploadFields(testId: Option<string>, recordingNumber: Option<string>, scientist: Option<string>)

  const AllowedMimeTypes: seq<string> := [
    "video/mp4", "video/webm", "video/ogg", "video/quicktime", "video/x-msvideo", "video/x-matroska"
  ]

  const InvalidTypeMessage := "Invalid file type. Only video files (MP4, WebM, OGG, MOV, AVI, MKV) are allowed."

  /** `fileFilter`: the file is accepted exactly when its type is on the allow-list. */
  function FileFilter(mimetype: string): (r: Outcome<string>)
    ensures r.Pass? <==> mimetype in AllowedMimeTypes
    ensures r.Fail? ==> r.error == InvalidTypeMessage
  {
    if mimetype in AllowedMimeTypes then Pass else Fail(InvalidTypeMessage)
  }

  /** The folder name of the request's test: its sanitized id, "unknown" when none was sent. */
  function TestFolder(fields: UploadFields): (f: string)
    ensures fields.testId.None? || fields.testId == Some("") ==> f == "unknown"
    ensures fields.testId.Some? && fields.testId.value != "" ==> f == Sanitize(fields.testId.value)
    ensures forall i :: 0 <= i < |f| ==> f[i] != '/'
  {
    Sanitize(OptOr(fields.testId, "unknown"))
  }

  /** The recording number as sent, "1" when none was sent. */
  function RecordingNumber(fields: UploadFields): (n: string)
    ensures n != ""
    ensures Truthy(fields.recordingNumber) ==> n == fields.recordingNumber.value
    ensures !Truthy(fields.recordingNumber) ==> n == "1"
  {
    OptOr(fields.recordingNumber, "1")
  }

  /**
   * `generateFileName`, the S3 key: "videos/<folder>/recording_<n>_<timestamp><ext>", where ext is
   * the original name's extension and may be empty.
   */
  function GenerateFileName(fields: UploadFields, originalName: string, timestamp: int): (key: string)
    ensures StartsWith(key, "videos/" + TestFolder(fields) + "/recording_" + RecordingNumber(fields) + "_")
    ensures EndsWith(key, ExtName(originalName))
  {
    var head := "videos/" + TestFolder(fields) + "/recording_" + RecordingNumber(fields) + "_";
    var key := head + IntToString(timestamp) + ExtName(originalName);
    assert key[..|head|] == head;
    key
  }

  /** The local storage's `destination`: "uploads/videos/<folder>". */
  function LocalDestination(fields: UploadFields): (dir: string)
    ensures StartsWith(dir, "uploads/videos/") && dir[15..] == TestFolder(fields)
  {
    var dir := "uploads/videos/" + TestFolder(fields);
    assert dir[15..] == TestFolder(fields);
    dir
  }

  /**
   * The recording's file name, "recording_<n>_<timestamp><ext>": the last part of the S3 key,
   * which the local file name repeats.
   */
  function RecordingName(fields: UploadFields, timestamp: int, ext: string): (name: string)
    ensures StartsWith(name, "recording_" + RecordingNumber(fields) + "_") && EndsWith(name, ext)
    ensures |name| == |"recording_" + RecordingNumber(fields) + "_"| + |IntToString(timestamp)| + |ext|
    ensures name[|"recording_" + RecordingNumber(fields) + "_"|..|name| - |ext|] == IntToString(timestamp)
  {
    var head, t := "recording_" + RecordingNumber(fields) + "_", IntToString(timestamp);
    var name := head + t + ext;
    assert name[..|head|] == head;
    assert name[|head|..|name| - |ext|] == t;
    name
  }

  /** The timestamp in a recording name parses back to the upload time. */
  lemma RecordingTimestamp(fields: UploadFields, timestamp: int, ext: string)
    ensures var name := RecordingName(fields, timestamp, ext);
      ParseInt(name[|"recording_" + RecordingNumber(fields) + "_"|..|name| - |ext|]) == Some(timestamp)
  {
    ParseIntOfIntToString(timestamp);
  }

  /** The local storage's `filename`: like the S3 key's last part, with ".webm" for a missing extension. */
  function LocalFileName(fields: UploadFields, originalName: string, timestamp: int): (name: string)
    ensures StartsWith(name, "recording_" + RecordingNumber(fields) + "_")
    ensures ExtName(originalName) != "" ==> EndsWith(name, ExtName(originalName))
    ensures ExtName(originalName) == "" ==> EndsWith(name, ".webm")
    ensures name == RecordingName(fields, timestamp, Or(ExtName(originalName), ".webm"))
  {
    var head := "recording_" + RecordingNumber(fields) + "_";
    var ext := Or(ExtName(originalName), ".webm");
    var name := head + IntToString(timestamp) + ext;
    assert name[..|head|] == head;
    name
  }

  lemma KeyParts(fields: UploadFields, originalName: string, timestamp: int)
    ensures GenerateFileName(fields, originalName, timestamp)
         == "videos/" + TestFolder(fields) + "/" + RecordingName(fields, timestamp, ExtName(originalName))
  {
    var folder, n := TestFolder(fields), RecordingNumber(fields);
    var t, ext := IntToString(timestamp), ExtName(originalName);
    var tail := "recording_" + n + "_" + t + ext;
    assert "/recording_" == "/" + "recording_";
    calc {
      GenerateFileName(fields, originalName, timestamp);
      "videos/" + folder + "/recording_" + n + "_" + t + ext;
      "videos/" + folder + ("/" + tail);
      "videos/" + folder + "/" + tail;
    }
  }

  /** The local file name is the recording name, with ".webm" standing in for a missing extension. */
  lemma LocalNameParts(fields: UploadFields, originalName: string, timestamp: int)
    requires ExtName(originalName) != ""
    ensures LocalFileName(fields, originalName, timestamp) == RecordingName(fields, timestamp, ExtName(originalName))
  {
    assert Or(ExtName(originalName), ".webm") == ExtName(originalName);
  }

  lemma UploadsFolder(folder: string, name: string)
    ensures "uploads/videos/" + folder + "/" + name == "uploads/" + ("videos/" + folder + "/" + name)
  {
    assert "uploads/videos/" == "uploads/" + "videos/";
  }

  /**
   * A file with an extension is stored on disk at "uploads/" followed by the key it would have
   * had in S3: both storages lay recordings out the same way.
   */
  lemma LocalPathMatchesS3Key(fields: UploadFields, originalName: string, timestamp: int)
    requires ExtName(originalName) != ""
    ensures LocalDestination(fields) + "/" + LocalFileName(fields, originalName, timestamp)
         == "uploads/" + GenerateFileName(fields, originalName, timestamp)
  {
    KeyParts(fields, originalName, timestamp);
    LocalNameParts(fields, originalName, timestamp);
    UploadsFolder(TestFolder(fields), RecordingName(fields, timestamp, ExtName(originalName)));
  }

  datatype Storage = S3Storage | LocalStorage

  /** `storage`: S3 exactly when the server's S3 settings are complete, the local disk otherwise. */
  function ChooseStorage(env: map<string, string>): (s: Storage)
    ensures s == S3Storage <==> ServerS3Config.IsS3Configured(env)
  {
    if ServerS3Config.IsS3Configured(env) then S3Storage else LocalStorage
  }

  const MaxFileSizeVar := "MAX_FILE_SIZE"
  const DefaultMaxFileSize := 500 * 1024 * 1024

  /** `parseInt(process.env.MAX_FILE_SIZE) || 500 * 1024 * 1024`: NaN and 0 fall back to 500 MiB. */
  function FileSizeLimit(env: map<string, string>): (limit: int)
    ensures limit != 0
    ensures MaxFileSizeVar !in env ==> limit == DefaultMaxFileSize
    ensures (MaxFileSizeVar in env && ParseInt(env[MaxFileSizeVar]).Some?
             && ParseInt(env[MaxFileSizeVar]).value != 0) ==> limit == ParseInt(env[MaxFileSizeVar]).value
    ensures (MaxFileSizeVar in env && ParseInt(env[MaxFileSizeVar]) in {None, Some(0)})
             ==> limit == DefaultMaxFileSize
  {
    var parsed := if MaxFileSizeVar in env then ParseInt(env[MaxFileSizeVar]) else None;
    if parsed.Some? && parsed.value != 0 then parsed.value else DefaultMaxFileSize
  }

  /** Setting MAX_FILE_SIZE to the decimal form of a non-zero number sets the limit to that number. */
  lemma FileSizeLimitOf(env: map<string, string>, n: int)
    requires n != 0
    ensures FileSizeLimit(env[MaxFileSizeVar := IntToString(n)]) == n
  {
    ParseIntOfIntToString(n);
  }

  /** What multer passed to the error handler. */
  datatype UploadError =
    | MulterError(code: string, message: string)
    | OtherError(message: string)

  /** What the error handler does: pass the request on, or answer with a status and a JSON body. */
  datatype Handling =
    | Next
    | Respond(status: int, error: string, message: string)

  /** The size quoted in the "File too large" message, as written: `MAX_FILE_SIZE || 524288000`. */
  function AsWrittenLimitText(env: map<string, string>): (text: string)
    ensures MaxFileSizeVar in env && env[MaxFileSizeVar] != "" ==> text == env[MaxFileSizeVar]
    ensures !(MaxFileSizeVar in env && env[MaxFileSizeVar] != "") ==> text == IntToString(DefaultMaxFileSize)
    ensures !(MaxFileSizeVar in env && env[MaxFileSizeVar] != "") ==> ParseInt(text) == Some(DefaultMaxFileSize)
  {
    ParseIntOfIntToString(DefaultMaxFileSize);
    if MaxFileSizeVar in env && env[MaxFileSizeVar] != "" then env[MaxFileSizeVar]
    else IntToString(DefaultMaxFileSize)
  }

  /**
   * The quoted size is not the enforced one: with MAX_FILE_SIZE=0 the limit falls back to 500 MiB
   * while the message claims 0 bytes.
   */
  lemma LimitMessageMisreports()
    ensures var env := map[MaxFileSizeVar := "0"];
      AsWrittenLimitText(env) == "0" && FileSizeLimit(env) == DefaultMaxFileSize
      && ParseInt(AsWrittenLimitText(env)) != Some(FileSizeLimit(env))
  {
    var env := map[MaxFileSizeVar := "0"];
    assert MaxFileSizeVar in env && env[MaxFileSizeVar] == "0";
    assert ParseInt("0") == Some(0) by {
      assert IntToString(0) == "0";
      ParseIntOfIntToString(0);
    }
    assert AsWrittenLimitText(env) == "0";
    assert FileSizeLimit(env) == DefaultMaxFileSize;
  }

  /** The size the message should quote: the limit multer enforces, in decimal. */
  function CorrectedLimitText(env: map<string, string>): (text: string)
    ensures ParseInt(text) == Some(FileSizeLimit(env))
  {
    ParseIntOfIntToString(FileSizeLimit(env));
    IntToString(FileSizeLimit(env))
  }

  /**
   * `handleUploadError`: a size-limit violation, any other multer error and any other error each
   * become a 400 with their own error label; no error passes the request on.
   */
  function HandleUploadError(err: Option<UploadError>, env: map<string, string>): (h: Handling)
    ensures h.Next? <==> err.None?
    ensures h.Respond? ==> h.status == 400
    ensures err.Some? && err.value.MulterError? && err.value.code == "LIMIT_FILE_SIZE" ==>
      h == Respond(400, "File too large",
                   "File size exceeds the maximum allowed size of " + AsWrittenLimitText(env) + " bytes")
    ensures err.Some? && err.value.MulterError? && err.value.code != "LIMIT_FILE_SIZE" ==>
      h == Respond(400, "Upload error", err.value.message)
    ensures err.Some? && err.value.OtherError? ==> h == Respond(400, "Invalid file", err.value.message)
  {
    match err
    case None => Next
    case Some(MulterError(code, message)) =>
      if code == "LIMIT_FILE_SIZE" then
        Respond(400, "File too large",
                "File size exceeds the maximum allowed size of " + AsWrittenLimitText(env) + " bytes")
      else Respond(400, "Upload error", message)
    case Some(OtherError(message)) => Respond(400, "Invalid file", message)
  }

  /** A file the filter rejects reaches the handler as a non-multer error and gets "Invalid file". */
  lemma RejectedTypeIsInvalidFile(mimetype: string, env: map<string, string>)
    requires mimetype !in AllowedMimeTypes
    ensures HandleUploadError(Some(OtherError(FileFilter(mimetype).error)), env)
         == Respond(400, "Invalid file", InvalidTypeMessage)
  {
  }
}
