/**
 * The browser's S3 storage service (src/services/s3Service.ts): the object key scheme for
 * recordings, the character sanitization of test ids, the public object URL, and the decisions
 * around the two SDK calls (upload and listing). The SDK calls themselves are inputs: what
 * `client.send` returned or threw.
 */
module S3Service {
  import opened Wrappers
  import opened JsStrings
  import opened JsArrays
  import opened S3Settings
  import ClientS3Config
  import opened StorageIds

  /** The folder of a test's recordings: "videos/<sanitized id>/". */
  function ListingPrefix(testId: string): (p: string)
    ensures StartsWith(p, "videos/") && EndsWith(p, "/")
    ensures |p| == |testId| + 8 && p[7..|p| - 1] == Sanitize(testId)
  {
    var p := "videos/" + Sanitize(testId) + "/";
    assert p[7..|p| - 1] == Sanitize(testId);
    p
  }

  /** `generateS3FileName`, with `timestamp` standing for `new Date().getTime()`. */
  function S3FileName(testId: string, recordingNumber: int, timestamp: int): (key: string)
    ensures StartsWith(key, ListingPrefix(testId))
    ensures EndsWith(key, ".webm")
    ensures key[|ListingPrefix(testId)|..]
         == "recording_" + IntToString(recordingNumber) + "_" + IntToString(timestamp) + ".webm"
  {
    var rest := "recording_" + IntToString(recordingNumber) + "_" + IntToString(timestamp) + ".webm";
    var key := ListingPrefix(testId) + rest;
    assert key[|key| - 5..] == ".webm";
    assert key[|ListingPrefix(testId)|..] == rest;
    key
  }

  /** The listing filter: a truthy key ending, case-sensitively, in .webm, .mp4 or .mov. */
  predicate IsVideoKey(key: Option<string>) {
    key.Some? && key.value != "" &&
    (EndsWith(key.value, ".webm") || EndsWith(key.value, ".mp4") || EndsWith(key.value, ".mov"))
  }

  /** Every key `generateS3FileName` produces lies under the test's prefix and passes the filter. */
  lemma GeneratedKeyIsListed(testId: string, recordingNumber: int, timestamp: int)
    ensures StartsWith(S3FileName(testId, recordingNumber, timestamp), ListingPrefix(testId))
    ensures IsVideoKey(Some(S3FileName(testId, recordingNumber, timestamp)))
  {
    var key := S3FileName(testId, recordingNumber, timestamp);
    assert |key| >= 5;
  }

  /** The virtual-hosted-style URL of an object: "https://<bucket>.s3.<region>.amazonaws.com/<key>". */
  function ObjectUrl(c: S3Config, key: string): (u: string)
    ensures StartsWith(u, "https://" + c.bucketName + ".s3.") && EndsWith(u, ".amazonaws.com/" + key)
    ensures |u| == |"https://" + c.bucketName + ".s3."| + |c.region| + |".amazonaws.com/" + key|
    ensures u[|"https://" + c.bucketName + ".s3."|..|u| - |".amazonaws.com/" + key|] == c.region
  {
    var head, tail := "https://" + c.bucketName + ".s3.", ".amazonaws.com/" + key;
    var u := "https://" + c.bucketName + ".s3." + c.region + ".amazonaws.com/" + key;
    assert u == head + c.region + tail;
    assert u[|head|..|u| - |tail|] == c.region;
    u
  }

  const NotConfiguredMessage := "S3 is not configured. Please add AWS credentials to your .env file."

  /** What an SDK call threw: an `Error` with its message, or some other value. */
  datatype Thrown = ErrorObject(message: string) | OtherValue

  function ThrownMessage(t: Thrown): string {
    match t
    case ErrorObject(m) => m
    case OtherValue => "Unknown error"
  }

  /**
   * `uploadVideoToS3`: without a configuration it rejects before any call; otherwise it resolves
   * with the object's URL when the put succeeds and rejects with the SDK's message when it throws.
   */
  function UploadVideoToS3(env: Env, fileName: string, send: Outcome<Thrown>): (r: Result<string, string>)
    ensures !ClientS3Config.IsS3Configured(env) ==> r == Failure(NotConfiguredMessage)
    ensures ClientS3Config.IsS3Configured(env) && send.Pass? ==>
      r == Success(ObjectUrl(ClientS3Config.Config(env), fileName))
    ensures ClientS3Config.IsS3Configured(env) && send.Fail? ==>
      r.Failure? && StartsWith(r.error, "Failed to upload video to S3: ")
    ensures ClientS3Config.IsS3Configured(env) && send.Fail? ==>
      r == Failure("Failed to upload video to S3: " + ThrownMessage(send.error))
  {
    if !ClientS3Config.IsS3Configured(env) then Failure(NotConfiguredMessage)
    else match send
      case Pass => Success(ObjectUrl(ClientS3Config.Config(env), fileName))
      case Fail(t) =>
        var m := "Failed to upload video to S3: " + ThrownMessage(t);
        assert m[..30] == "Failed to upload video to S3: ";
        Failure(m)
  }

  /** The URLs of the listed objects that pass the filter, in listing order. */
  function VideoUrls(c: S3Config, contents: seq<Option<string>>): (urls: seq<string>)
    ensures |urls| == |Filter(contents, IsVideoKey)|
    ensures forall i :: 0 <= i < |urls| ==>
      urls[i] == ObjectUrl(c, Filter(contents, IsVideoKey)[i].value)
  {
    var kept := Filter(contents, IsVideoKey);
    seq(|kept|, i requires 0 <= i < |kept| => ObjectUrl(c, kept[i].value))
  }

  /**
   * `listVideosFromS3`: without a configuration it rejects before any call; an absent or empty
   * listing gives []; otherwise the kept keys' URLs; a throwing call rejects with its message.
   * `send` is the `Contents` of the reply (`None` when absent), each object's `Key` an option.
   */
  function ListVideosFromS3(env: Env, send: Result<Option<seq<Option<string>>>, Thrown>): (r: Result<seq<string>, string>)
    ensures !ClientS3Config.IsS3Configured(env) ==> r == Failure(NotConfiguredMessage)
    ensures ClientS3Config.IsS3Configured(env) && send.Success? && (send.value.None? || send.value == Some([]))
      ==> r == Success([])
    ensures ClientS3Config.IsS3Configured(env) && send.Success? && send.value.Some? ==>
      r == Success(VideoUrls(ClientS3Config.Config(env), send.value.value))
    ensures ClientS3Config.IsS3Configured(env) && send.Failure? ==>
      r.Failure? && StartsWith(r.error, "Failed to list videos from S3: ")
    ensures ClientS3Config.IsS3Configured(env) && send.Failure? ==>
      r == Failure("Failed to list videos from S3: " + ThrownMessage(send.error))
  {
    if !ClientS3Config.IsS3Configured(env) then Failure(NotConfiguredMessage)
    else match send
      case Success(contents) =>
        if contents.None? || |contents.value| == 0 then Success([])
        else Success(VideoUrls(ClientS3Config.Config(env), contents.value))
      case Failure(t) =>
        var m := "Failed to list videos from S3: " + ThrownMessage(t);
        assert m[..31] == "Failed to list videos from S3: ";
        Failure(m)
  }

  /**
   * A recording uploaded under `generateS3FileName`'s key shows up in a listing that contains
   * that key, under the very URL the upload returned.
   */
  lemma UploadedRecordingIsListed(env: Env, testId: string, recordingNumber: int, timestamp: int,
                                  contents: seq<Option<string>>)
    requires ClientS3Config.IsS3Configured(env)
    requires Some(S3FileName(testId, recordingNumber, timestamp)) in contents
    ensures UploadVideoToS3(env, S3FileName(testId, recordingNumber, timestamp), Pass).Success?
    ensures ListVideosFromS3(env, Success(Some(contents))).Success?
    ensures UploadVideoToS3(env, S3FileName(testId, recordingNumber, timestamp), Pass).value
         in ListVideosFromS3(env, Success(Some(contents))).value
  {
    var key := S3FileName(testId, recordingNumber, timestamp);
    var c := ClientS3Config.Config(env);
    GeneratedKeyIsListed(testId, recordingNumber, timestamp);
    var kept := Filter(contents, IsVideoKey);
    var i :| 0 <= i < |contents| && contents[i] == Some(key);
    assert Some(key) in kept;
    var j :| 0 <= j < |kept| && kept[j] == Some(key);
    assert VideoUrls(c, contents)[j] == ObjectUrl(c, key);
  }
}
