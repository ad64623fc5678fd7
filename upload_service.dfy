/**
 * The browser side of video uploads: the multipart form sent to the upload server, the percentage
 * reported while the request body is sent, how the request's outcome settles the returned promise,
 * and the server health check. The transport is left out; the events it fires are inputs.
 */
module UploadService {
  import opened Wrappers
  import opened JsStrings
  import Http
  import UploadMiddleware

  /** The metadata sent with every upload. */
  datatype UploadMetadata = UploadMetadata(testId: string, recordingNumber: string, scientist: string)

  /** One part of a `FormData` body: a file or a text field. */
  datatype Part<F> = FilePart(name: string, file: F) | TextField(name: string, text: string)

  /** The text parts that follow the file parts, in the order they are appended. */
  function MetadataParts<F>(metadata: UploadMetadata): seq<Part<F>> {
    [TextField("testId", metadata.testId), TextField("recordingNumber", metadata.recordingNumber),
     TextField("scientist", metadata.scientist)]
  }

  /** The form `uploadVideo` sends: the file under "video", then the metadata. */
  function SingleUploadForm<F>(file: F, metadata: UploadMetadata): (parts: seq<Part<F>>)
    ensures |parts| == 4 && parts[0] == FilePart("video", file)
    ensures parts[1..] == MetadataParts(metadata)
  {
    [FilePart("video", file)] + MetadataParts(metadata)
  }

  /**
   * The form `uploadMultipleVideos` builds in place: one "videos" part per file, in input order,
   * then the metadata.
   */
  method BuildMultiUploadForm<F>(files: seq<F>, metadata: UploadMetadata) returns (parts: seq<Part<F>>)
    ensures |parts| == |files| + 3
    ensures forall i :: 0 <= i < |files| ==> parts[i] == FilePart("videos", files[i])
    ensures parts[|files|..] == MetadataParts(metadata)
  {
    parts := [];
    for i := 0 to |files|
      invariant |parts| == i
      invariant forall j :: 0 <= j < i ==> parts[j] == FilePart("videos", files[j])
    {
      parts := parts + [FilePart("videos", files[i])];
    }
    parts := parts + [TextField("testId", metadata.testId)];
    parts := parts + [TextField("recordingNumber", metadata.recordingNumber)];
    parts := parts + [TextField("scientist", metadata.scientist)];
  }

  /** The value of the first text field called `name`, as the server's body parser reads it. */
  function FieldValue<F>(parts: seq<Part<F>>, name: string): Option<string> {
    if parts == [] then None
    else if parts[0].TextField? && parts[0].name == name then Some(parts[0].text)
    else FieldValue(parts[1..], name)
  }

  /** The files sent under `name`, in order. */
  function FilesNamed<F>(parts: seq<Part<F>>, name: string): (files: seq<F>)
    ensures |files| <= |parts|
  {
    if parts == [] then []
    else if parts[0].FilePart? && parts[0].name == name then [parts[0].file] + FilesNamed(parts[1..], name)
    else FilesNamed(parts[1..], name)
  }

  /** The fields the upload middleware reads from a form's text parts. */
  function ServerFields<F>(parts: seq<Part<F>>): UploadMiddleware.UploadFields {
    UploadMiddleware.UploadFields(
      FieldValue(parts, "testId"), FieldValue(parts, "recordingNumber"), FieldValue(parts, "scientist"))
  }

  /** File parts in front of the metadata do not hide any of it from the server. */
  lemma {:induction false} FieldsAfterFiles<F>(fileParts: seq<Part<F>>, metadata: UploadMetadata, name: string)
    requires forall i :: 0 <= i < |fileParts| ==> fileParts[i].FilePart?
    ensures FieldValue(fileParts + MetadataParts(metadata), name)
         == FieldValue(MetadataParts<F>(metadata), name)
  {
    var m := MetadataParts<F>(metadata);
    if fileParts == [] {
      assert fileParts + m == m;
    } else {
      assert (fileParts + m)[0] == fileParts[0];
      assert (fileParts + m)[1..] == fileParts[1..] + m;
      FieldsAfterFiles(fileParts[1..], metadata, name);
    }
  }

  /** The "videos" parts of a form carry exactly the given files, in order. */
  lemma {:induction false} FilesOfVideoParts<F>(parts: seq<Part<F>>, files: seq<F>, rest: seq<Part<F>>)
    requires |parts| == |files| + |rest|
    requires forall i :: 0 <= i < |files| ==> parts[i] == FilePart("videos", files[i])
    requires parts[|files|..] == rest
    requires forall i :: 0 <= i < |rest| ==> rest[i].TextField?
    ensures FilesNamed(parts, "videos") == files
  {
    if files == [] {
      assert FilesNamed(rest, "videos") == [] by { NoFilesInText(rest); }
      assert parts == rest;
    } else {
      FilesOfVideoParts(parts[1..], files[1..], rest);
    }
  }

  lemma {:induction false} NoFilesInText<F>(rest: seq<Part<F>>)
    requires forall i :: 0 <= i < |rest| ==> rest[i].TextField?
    ensures FilesNamed(rest, "videos") == []
  {
    if rest != [] {
      NoFilesInText(rest[1..]);
    }
  }

  /**
   * A multi-upload form delivers every file under "videos", in order, and the metadata as the
   * fields the route handler reads once the whole body has been parsed.
   */
  lemma MultiUploadFormReachesServer<F>(files: seq<F>, metadata: UploadMetadata, parts: seq<Part<F>>)
    requires |parts| == |files| + 3
    requires forall i :: 0 <= i < |files| ==> parts[i] == FilePart("videos", files[i])
    requires parts[|files|..] == MetadataParts(metadata)
    ensures FilesNamed(parts, "videos") == files
    ensures ServerFields(parts)
         == UploadMiddleware.UploadFields(
              Some(metadata.testId), Some(metadata.recordingNumber), Some(metadata.scientist))
  {
    FilesOfVideoParts(parts, files, MetadataParts(metadata));
    var fileParts := parts[..|files|];
    assert parts == fileParts + MetadataParts(metadata);
    FieldsAfterFiles(fileParts, metadata, "testId");
    FieldsAfterFiles(fileParts, metadata, "recordingNumber");
    FieldsAfterFiles(fileParts, metadata, "scientist");
    var m := MetadataParts<F>(metadata);
    assert FieldValue(m, "testId") == Some(metadata.testId);
    assert m[1..][1..] == [TextField("scientist", metadata.scientist)];
    assert FieldValue(m[1..], "recordingNumber") == Some(metadata.recordingNumber);
    assert FieldValue(m[1..][1..], "scientist") == Some(metadata.scientist);
  }

  /** The fields of a request that sent none of the metadata. */
  const NoFields := UploadMiddleware.UploadFields(None, None, None)

  /** The fields a request carries when all three metadata fields were sent. */
  function MetadataFields(metadata: UploadMetadata): UploadMiddleware.UploadFields {
    UploadMiddleware.UploadFields(
      Some(metadata.testId), Some(metadata.recordingNumber), Some(metadata.scientist))
  }

  /**
   * The fields the upload middleware's storage sees when it names the file at part `k`: multer
   * runs the storage callbacks as soon as it reaches a file part, when only the text parts sent
   * before it have been parsed into the body.
   */
  function StorageFields<F>(parts: seq<Part<F>>, k: nat): UploadMiddleware.UploadFields
    requires k <= |parts|
  {
    ServerFields(parts[..k])
  }

  /** Parts that are all files carry no field. */
  lemma {:induction false} NoFieldInFiles<F>(parts: seq<Part<F>>, name: string)
    requires forall i :: 0 <= i < |parts| ==> parts[i].FilePart?
    ensures FieldValue(parts, name) == None
  {
    if parts != [] {
      NoFieldInFiles(parts[1..], name);
    }
  }

  /** A body that starts with the metadata gives the server all three fields, whatever follows. */
  lemma MetadataFirst<F>(metadata: UploadMetadata, rest: seq<Part<F>>)
    ensures ServerFields(MetadataParts<F>(metadata) + rest) == MetadataFields(metadata)
  {
    var parts := MetadataParts<F>(metadata) + rest;
    assert parts[0] == TextField("testId", metadata.testId);
    assert parts[1..][0] == TextField("recordingNumber", metadata.recordingNumber);
    assert parts[1..][1..][0] == TextField("scientist", metadata.scientist);
    assert FieldValue(parts, "testId") == Some(metadata.testId);
    assert FieldValue(parts[1..], "recordingNumber") == Some(metadata.recordingNumber);
    assert FieldValue(parts, "recordingNumber") == Some(metadata.recordingNumber);
    assert FieldValue(parts[1..][1..], "scientist") == Some(metadata.scientist);
    assert FieldValue(parts[1..], "scientist") == Some(metadata.scientist);
    assert FieldValue(parts, "scientist") == Some(metadata.scientist);
  }

  /**
   * As written, the single upload's file comes before its metadata, so the storage sees no
   * field: the recording is filed under the folder "unknown" as recording "1", whatever the
   * metadata says.
   */
  lemma SingleFormStorageSeesNoFields<F>(file: F, metadata: UploadMetadata)
    ensures SingleUploadForm(file, metadata)[0].FilePart?
    ensures StorageFields(SingleUploadForm(file, metadata), 0) == NoFields
    ensures UploadMiddleware.TestFolder(NoFields) == "unknown"
    ensures UploadMiddleware.RecordingNumber(NoFields) == "1"
    ensures ServerFields(SingleUploadForm(file, metadata)) == MetadataFields(metadata)
  {
    assert SingleUploadForm(file, metadata)[..0] == [];
    var fileParts := [FilePart("video", file)];
    assert SingleUploadForm(file, metadata) == fileParts + MetadataParts(metadata);
    FieldsAfterFiles(fileParts, metadata, "testId");
    FieldsAfterFiles(fileParts, metadata, "recordingNumber");
    FieldsAfterFiles(fileParts, metadata, "scientist");
    MetadataFirst<F>(metadata, []);
    assert MetadataParts<F>(metadata) + [] == MetadataParts(metadata);
  }

  /** The same holds for every file of the multiple upload as written. */
  lemma MultiFormStorageSeesNoFields<F>(files: seq<F>, metadata: UploadMetadata, parts: seq<Part<F>>, k: nat)
    requires |parts| == |files| + 3
    requires forall i :: 0 <= i < |files| ==> parts[i] == FilePart("videos", files[i])
    requires k < |files|
    ensures parts[k].FilePart? && StorageFields(parts, k) == NoFields
  {
    var before := parts[..k];
    NoFieldInFiles(before, "testId");
    NoFieldInFiles(before, "recordingNumber");
    NoFieldInFiles(before, "scientist");
  }

  /** The single upload form with the metadata appended before the file. */
  function SingleUploadFormCorrected<F>(file: F, metadata: UploadMetadata): (parts: seq<Part<F>>)
    ensures |parts| == 4 && parts[..3] == MetadataParts(metadata) && parts[3] == FilePart("video", file)
  {
    MetadataParts(metadata) + [FilePart("video", file)]
  }

  /** With the correction, the storage names the file after the same fields the route reads. */
  lemma CorrectedSingleFormReachesStorage<F>(file: F, metadata: UploadMetadata)
    ensures StorageFields(SingleUploadFormCorrected(file, metadata), 3) == MetadataFields(metadata)
    ensures ServerFields(SingleUploadFormCorrected(file, metadata)) == MetadataFields(metadata)
  {
    var parts := SingleUploadFormCorrected(file, metadata);
    MetadataFirst<F>(metadata, []);
    assert parts[..3] == MetadataParts<F>(metadata) + [];
    MetadataFirst(metadata, [FilePart("video", file)]);
  }

  /** The multiple upload form with the metadata appended before the files. */
  function MultiUploadFormCorrected<F>(files: seq<F>, metadata: UploadMetadata): (parts: seq<Part<F>>)
    ensures |parts| == |files| + 3 && parts[..3] == MetadataParts(metadata)
    ensures forall i :: 0 <= i < |files| ==> parts[3 + i] == FilePart("videos", files[i])
  {
    MetadataParts(metadata) + seq(|files|, i requires 0 <= i < |files| => FilePart("videos", files[i]))
  }

  /** With the correction, every file is stored under the fields the route reads. */
  lemma CorrectedMultiFormReachesStorage<F>(files: seq<F>, metadata: UploadMetadata, i: nat)
    requires i < |files|
    ensures StorageFields(MultiUploadFormCorrected(files, metadata), 3 + i) == MetadataFields(metadata)
    ensures ServerFields(MultiUploadFormCorrected(files, metadata)) == MetadataFields(metadata)
  {
    var parts := MultiUploadFormCorrected(files, metadata);
    MetadataFirst(metadata, parts[3..3 + i]);
    assert parts[..3 + i] == MetadataParts<F>(metadata) + parts[3..3 + i];
    MetadataFirst(metadata, parts[3..]);
    assert parts == MetadataParts<F>(metadata) + parts[3..];
  }

  /** A JavaScript number as the progress computation can produce it. */
  datatype Number = Finite(n: int) | NaN | Infinity

  /**
   * `Math.round((loaded / total) * 100)` in exact arithmetic: the nearest integer to the percentage,
   * halves rounded up; dividing by a zero total gives NaN or Infinity as in JavaScript.
   */
  function Percentage(loaded: nat, total: nat): (p: Number)
    ensures total == 0 ==> p == (if loaded == 0 then NaN else Infinity)
    ensures total > 0 ==> p.Finite?
    ensures total > 0 ==> 2 * total * p.n - total <= 200 * loaded < 2 * total * p.n + total
    ensures total > 0 && loaded <= total ==> 0 <= p.n <= 100
  {
    if total == 0 then (if loaded == 0 then NaN else Infinity)
    else Finite((200 * loaded + total) / (2 * total))
  }

  /** A progress event of the upload. */
  datatype ProgressEvent = ProgressEvent(lengthComputable: bool, loaded: nat, total: nat)

  /** The value passed to `onProgress`, if it is called. */
  function ProgressReport(event: ProgressEvent, hasCallback: bool): (r: Option<Number>)
    ensures r.Some? <==> event.lengthComputable && hasCallback
    ensures r.Some? && event.total > 0 && event.loaded <= event.total ==> r.value.Finite? && 0 <= r.value.n <= 100
  {
    if event.lengthComputable && hasCallback then Some(Percentage(event.loaded, event.total)) else None
  }

  /**
   * What `JSON.parse(xhr.responseText)` gives: `None` when the text is not JSON; otherwise the parsed
   * body and its `message` field, when that is a string.
   */
  datatype Parsed<B> = Parsed(body: B, message: Option<string>)

  /** The event that ends the request. */
  datatype XhrOutcome<B> =
    | Load(status: int, parsed: Option<Parsed<B>>)
    | NetworkError
    | Abort

  const InvalidResponseMessage := "Invalid response from server"
  const UploadFailedMessage := "Upload failed"
  const StatusMessagePrefix := "Upload failed with status "
  const NetworkErrorMessage := "Network error occurred during upload"
  const CancelledMessage := "Upload was cancelled"

  /** How the promise returned by `uploadVideo` and `uploadMultipleVideos` settles. */
  function Settle<B>(outcome: XhrOutcome<B>): (r: Result<B, string>)
    ensures r.Success? <==> outcome.Load? && Http.IsSuccessful(outcome.status) && outcome.parsed.Some?
    ensures r.Success? ==> r.value == outcome.parsed.value.body
    ensures outcome.Load? && Http.IsSuccessful(outcome.status) && outcome.parsed.None?
        ==> r == Failure(InvalidResponseMessage)
    ensures outcome.Load? && !Http.IsSuccessful(outcome.status) && outcome.parsed.Some?
        ==> r == Failure(Or(outcome.parsed.value.message.GetOr(""), UploadFailedMessage))
    ensures outcome.Load? && !Http.IsSuccessful(outcome.status) && outcome.parsed.None?
        ==> (r.Failure? && StartsWith(r.error, StatusMessagePrefix)
             && ParseInt(r.error[|StatusMessagePrefix|..]) == Some(outcome.status))
    ensures outcome.NetworkError? ==> r == Failure(NetworkErrorMessage)
    ensures outcome.Abort? ==> r == Failure(CancelledMessage)
  {
    match outcome
    case Load(status, parsed) =>
      if status >= 200 && status < 300 then
        if parsed.Some? then Success(parsed.value.body) else Failure(InvalidResponseMessage)
      else if parsed.Some? then
        Failure(Or(parsed.value.message.GetOr(""), UploadFailedMessage))
      else
        var text := IntToString(status);
        ParseIntOfIntToString(status);
        assert (StatusMessagePrefix + text)[|StatusMessagePrefix|..] == text;
        Failure(StatusMessagePrefix + text)
    case NetworkError => Failure(NetworkErrorMessage)
    case Abort => Failure(CancelledMessage)
  }

  /** A rejected upload never carries an empty message. */
  lemma RejectionHasMessage<B>(outcome: XhrOutcome<B>)
    requires Settle(outcome).Failure?
    ensures Settle(outcome).error != ""
  {
  }

  /** Network failure and cancellation are told apart from each other and from server replies. */
  lemma TransportFailuresDistinct()
    ensures NetworkErrorMessage != CancelledMessage
    ensures NetworkErrorMessage != InvalidResponseMessage && CancelledMessage != InvalidResponseMessage
    ensures !StartsWith(NetworkErrorMessage, StatusMessagePrefix)
    ensures !StartsWith(CancelledMessage, StatusMessagePrefix)
  {
    assert NetworkErrorMessage[0] != CancelledMessage[0];
    assert NetworkErrorMessage[0] != StatusMessagePrefix[0];
    assert CancelledMessage[7] != StatusMessagePrefix[7];
  }

  /** The `success` field of the health endpoint's JSON body. */
  datatype SuccessField = Absent | BoolValue(b: bool) | OtherValue

  /**
   * `checkServerHealth`: `body` is `None` when the request or the JSON parse threw; the server is
   * healthy exactly when `success` is the boolean true.
   */
  function CheckServerHealth(body: Option<SuccessField>): (healthy: bool)
    ensures healthy <==> body == Some(BoolValue(true))
  {
    match body
    case None => false
    case Some(data) => data == BoolValue(true)
  }
}
