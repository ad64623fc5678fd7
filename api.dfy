/**
 * The pure decisions of the client's API layer (src/services/api.ts): turning a displayed test id
 * into the mock API's record id, building the padded display id, filling defaults into the
 * records sent to and received from the API, and classifying the comment requests' replies.
 * The requests themselves are inputs: each reply is an `Http.Reply`.
 */
module Api {
  import opened Wrappers
  import opened JsStrings
  import opened Http

  const ApiBaseUrl := "https://68e89221f2707e6128cb466c.mockapi.io/api/v1"
  const DefaultTestType := "All parameters"
  const DefaultStatus := "Completed"

  function Zeros(k: nat): string {
    seq(k, _ => '0')
  }

  predicate AllZeros(s: string) {
    forall i :: 0 <= i < |s| ==> s[i] == '0'
  }

  /**
   * `r` is what remains of the digits `rest` once its leading zeros are gone, with "1" standing in
   * when nothing remains.
   */
  predicate ZeroStripped(rest: string, r: string)
    ensures ZeroStripped(rest, r) ==> r != [] && r[0] != '0'
  {
    if AllZeros(rest) then r == "1"
    else (r != [] && r[0] != '0' && |r| <= |rest| && r == rest[|rest| - |r|..]
          && AllZeros(rest[..|rest| - |r|]))
  }

  /** `s.replace(prefix, "").replace(/^0+/, "") || "1"` for an `s` that starts with `prefix`. */
  function StripIdPrefix(s: string, prefix: string): (r: string)
    requires StartsWith(s, prefix)
    ensures ZeroStripped(s[|prefix|..], r)
    ensures r != [] && r[0] != '0'
  {
    var rest := ReplaceFirst(s, prefix, "");
    assert rest == s[|prefix|..];
    var digits := StripLeadingZeros(rest);
    if digits == [] then
      assert AllZeros(rest);
      "1"
    else
      assert !AllZeros(rest);
      assert AllZeros(rest[..|rest| - |digits|]);
      digits
  }

  /** The display prefix an id starts with, "TEST-" taking precedence over "TST-". */
  function IdPrefix(s: string): (p: Option<string>)
    ensures p.Some? ==> StartsWith(s, p.value)
    ensures StartsWith(s, "TEST-") ==> p == Some("TEST-")
    ensures !StartsWith(s, "TEST-") && StartsWith(s, "TST-") ==> p == Some("TST-")
    ensures !StartsWith(s, "TEST-") && !StartsWith(s, "TST-") ==> p == None
  {
    if StartsWith(s, "TEST-") then Some("TEST-")
    else if StartsWith(s, "TST-") then Some("TST-")
    else None
  }

  /**
   * The record id behind a displayed test id, as `updateTestComments` and `fetchTestComments`
   * compute it: a "TEST-" or "TST-" prefix is dropped together with the zeros that follow it
   * ("1" if nothing is left); any other id is used as it is.
   */
  function NormalizeTestId(s: string): (r: string)
    ensures IdPrefix(s).Some? ==> ZeroStripped(s[|IdPrefix(s).value|..], r)
    ensures IdPrefix(s).None? ==> r == s
  {
    match IdPrefix(s)
    case Some(prefix) => StripIdPrefix(s, prefix)
    case None => s
  }

  /** The id `fetchTestDetails` requests: the first "TEST-" anywhere removed, then leading zeros. */
  function FetchDetailsId(s: string): (r: string)
    ensures (forall i :: !OccursAt(s, "TEST-", i)) ==> r == StripLeadingZeros(s)
    ensures forall k :: FirstOccurrence(s, "TEST-", k) ==> r == StripLeadingZeros(s[..k] + s[k + 5..])
  {
    var t := ReplaceFirst(s, "TEST-", "");
    forall k | FirstOccurrence(s, "TEST-", k)
      ensures t == s[..k] + s[k + 5..]
    {
      ReplaceFirstAt(s, "TEST-", "", k);
    }
    StripLeadingZeros(t)
  }

  /** On a "TEST-" id with a non-zero digit, `fetchTestDetails` agrees with the comment requests. */
  lemma FetchDetailsIdAgrees(s: string)
    requires StartsWith(s, "TEST-") && !AllZeros(s[5..])
    ensures FetchDetailsId(s) == NormalizeTestId(s)
  {
    assert ReplaceFirst(s, "TEST-", "") == s[5..];
  }

  /** On "TEST-" followed only by zeros it asks for "" where the comment requests ask for "1". */
  lemma FetchDetailsIdAllZeros(s: string)
    requires StartsWith(s, "TEST-") && AllZeros(s[5..])
    ensures FetchDetailsId(s) == "" && NormalizeTestId(s) == "1"
  {
    assert ReplaceFirst(s, "TEST-", "") == s[5..];
  }

  /** A "TST-" id without any "TEST-" in it is requested unchanged, unlike the comment requests. */
  lemma FetchDetailsIdKeepsTst(s: string)
    requires StartsWith(s, "TST-") && !Contains(s, "TEST-")
    ensures FetchDetailsId(s) == s
    ensures NormalizeTestId(s) != s
  {
    assert ReplaceFirst(s, "TEST-", "") == s;
    assert s[0] == 'T';
    TstIdChanges(s);
  }

  /** The comment requests never use a "TST-" id as it is. */
  lemma TstIdChanges(s: string)
    requires StartsWith(s, "TST-")
    ensures NormalizeTestId(s) != s
  {
    assert s[1] == 'S';
    assert IdPrefix(s) == Some("TST-");
    var r := NormalizeTestId(s);
    assert ZeroStripped(s[4..], r);
    if !AllZeros(s[4..]) {
      assert |r| <= |s| - 4;
    }
  }

  /**
   * The "TEST-" that `fetchTestDetails` removes need not be at the start: after a part `a` that
   * holds no 'T' (and does not start with '0') it is cut out of the middle, where the comment
   * requests leave the id alone.
   */
  lemma FetchDetailsIdInside(a: string, b: string)
    requires a != [] && a[0] != '0'
    requires forall i :: 0 <= i < |a| ==> a[i] != 'T'
    ensures FetchDetailsId(a + "TEST-" + b) == a + b
    ensures NormalizeTestId(a + "TEST-" + b) == a + "TEST-" + b
  {
    var s := a + "TEST-" + b;
    assert s[0] != 'T';
    assert IdPrefix(s) == None;
    assert OccursAt(s, "TEST-", |a|) by {
      assert s[|a|..|a| + 5] == "TEST-";
    }
    forall j | 0 <= j < |a| ensures !OccursAt(s, "TEST-", j) {
      assert s[j] == a[j];
    }
    ReplaceFirstAt(s, "TEST-", "", |a|);
    assert s[..|a|] == a && s[|a| + 5..] == b;
    assert (a + b)[0] != '0';
  }

  /** `TEST-${String(id).padStart(6, "0")}`: the display id given to a record without a `testId`. */
  function DisplayId(id: string): (r: string)
    ensures StartsWith(r, "TEST-") && EndsWith(r, id)
    ensures |r| == 5 + (if |id| < 6 then 6 else |id|)
    ensures AllZeros(r[5..|r| - |id|])
  {
    var padded := PadStart(id, 6, '0');
    assert ("TEST-" + padded)[5..] == padded;
    "TEST-" + padded
  }

  /** Normalizing a display id gives back the id it was built from, when that id has no leading zero. */
  lemma DisplayIdRoundTrip(id: string)
    requires id != [] && id[0] != '0'
    ensures NormalizeTestId(DisplayId(id)) == id
  {
    var padded := PadStart(id, 6, '0');
    var k := |padded| - |id|;
    assert padded == Zeros(k) + id;
    var d := "TEST-" + padded;
    assert d[..5] == "TEST-";
    assert ReplaceFirst(d, "TEST-", "") == padded;
    StripZerosBeforeNonZero(k, id);
  }

  /** The fields of a test the caller passes to `createTest` (`Partial<TestData>`); `None` is undefined. */
  datatype TestInput = TestInput(
    diagnosticianName: Option<string>, testId: Option<string>, dateOfTest: Option<string>,
    testType: Option<string>, status: Option<string>,
    volume: Option<real>, days: Option<real>, delution: Option<real>,
    videoUrl: Option<seq<string>>)

  /** The body `createTest` posts. */
  datatype ParameterPayload = ParameterPayload(
    name: string, testId: string, volume: real, days: real, delution: real,
    dateOfTest: string, testType: string, status: string, videoUrl: seq<string>)

  /** `v || 0` on a number that may be undefined (NaN is not modelled). */
  function NumOr0(v: Option<real>): (r: real)
    ensures r == v.GetOr(0.0)
  {
    if v.Some? && v.value != 0.0 then v.value else 0.0
  }

  /** `v || []`: every array, even an empty one, is truthy. */
  function ListOrEmpty(v: Option<seq<string>>): (r: seq<string>)
    ensures r == v.GetOr([])
  {
    if v.Some? then v.value else []
  }

  /**
   * The payload `createTest` builds: every falsy field replaced by its default, with `today`
   * standing for `new Date().toLocaleDateString()`.
   */
  function CreateTestPayload(input: TestInput, today: string): (p: ParameterPayload)
    ensures p.name == input.diagnosticianName.GetOr("") && p.testId == input.testId.GetOr("")
    ensures p.volume == input.volume.GetOr(0.0) && p.days == input.days.GetOr(0.0)
    ensures p.delution == input.delution.GetOr(0.0) && p.videoUrl == input.videoUrl.GetOr([])
    ensures Truthy(input.dateOfTest) ==> p.dateOfTest == input.dateOfTest.value
    ensures !Truthy(input.dateOfTest) ==> p.dateOfTest == today
    ensures Truthy(input.testType) ==> p.testType == input.testType.value
    ensures !Truthy(input.testType) ==> p.testType == DefaultTestType
    ensures Truthy(input.status) ==> p.status == input.status.value
    ensures !Truthy(input.status) ==> p.status == DefaultStatus
  {
    ParameterPayload(
      OptOr(input.diagnosticianName, ""), OptOr(input.testId, ""),
      NumOr0(input.volume), NumOr0(input.days), NumOr0(input.delution),
      OptOr(input.dateOfTest, today), OptOr(input.testType, DefaultTestType),
      OptOr(input.status, DefaultStatus), ListOrEmpty(input.videoUrl))
  }

  /** The payload read back as a complete input. */
  function PayloadAsInput(p: ParameterPayload): TestInput {
    TestInput(Some(p.name), Some(p.testId), Some(p.dateOfTest), Some(p.testType), Some(p.status),
      Some(p.volume), Some(p.days), Some(p.delution), Some(p.videoUrl))
  }

  /** Filling in defaults a second time changes nothing. */
  lemma CreateTestPayloadIdempotent(input: TestInput, today: string)
    ensures CreateTestPayload(PayloadAsInput(CreateTestPayload(input, today)), today)
         == CreateTestPayload(input, today)
  {
  }

  /** A record as the API returns it (`ApiParameter`); `None` is a missing field. */
  datatype ApiItem = ApiItem(
    id: string, name: Option<string>, testId: Option<string>, comments: Option<string>,
    dateOfTest: Option<string>, testType: Option<string>, status: Option<string>,
    volume: Option<real>, days: Option<real>, delution: Option<real>,
    videoUrl: Option<seq<string>>)

  /** A test as the application shows it (`TestData`). */
  datatype TestData = TestData(
    diagnosticianName: Option<string>, testId: string, dateOfTest: string,
    testType: string, status: string,
    volume: Option<real>, days: Option<real>, delution: Option<real>,
    videoUrl: Option<seq<string>>)

  /** The record returned by `fetchTestData` and `fetchTestDetails`. */
  function FetchedTestData(item: ApiItem, today: string): (t: TestData)
    ensures t.diagnosticianName == item.name
    ensures Truthy(item.testId) ==> t.testId == item.testId.value
    ensures !Truthy(item.testId) ==> t.testId == item.id
    ensures Truthy(item.dateOfTest) ==> t.dateOfTest == item.dateOfTest.value
    ensures !Truthy(item.dateOfTest) ==> t.dateOfTest == today
    ensures Truthy(item.testType) ==> t.testType == item.testType.value
    ensures !Truthy(item.testType) ==> t.testType == DefaultTestType
    ensures Truthy(item.status) ==> t.status == item.status.value
    ensures !Truthy(item.status) ==> t.status == DefaultStatus
    ensures (t.volume, t.days, t.delution) == (item.volume, item.days, item.delution)
    ensures t.videoUrl.None?
  {
    TestData(item.name, OptOr(item.testId, item.id), OptOr(item.dateOfTest, today),
      OptOr(item.testType, DefaultTestType), OptOr(item.status, DefaultStatus),
      item.volume, item.days, item.delution, None)
  }

  /**
   * The record `createTest` returns: like `FetchedTestData`, but a missing `testId` becomes the
   * padded display id of the record's `id`, and the video URL list defaults to [].
   */
  function CreatedTestData(item: ApiItem, today: string): (t: TestData)
    ensures t.testId != ""
    ensures Truthy(item.testId) ==> t.testId == item.testId.value
    ensures !Truthy(item.testId) ==> t.testId == DisplayId(item.id)
    ensures t.videoUrl == Some(item.videoUrl.GetOr([]))
    ensures t == FetchedTestData(item, today).(testId := t.testId, videoUrl := t.videoUrl)
  {
    TestData(item.name, OptOr(item.testId, DisplayId(item.id)), OptOr(item.dateOfTest, today),
      OptOr(item.testType, DefaultTestType), OptOr(item.status, DefaultStatus),
      item.volume, item.days, item.delution, Some(ListOrEmpty(item.videoUrl)))
  }

  /** A created record without a `testId` gets a display id that normalizes back to its `id`. */
  lemma CreatedTestIdRoundTrip(item: ApiItem, today: string)
    requires item.testId.None? || item.testId == Some("")
    requires item.id != [] && item.id[0] != '0'
    ensures NormalizeTestId(CreatedTestData(item, today).testId) == item.id
  {
    DisplayIdRoundTrip(item.id);
  }

  /** The address both comment requests use for a displayed test id. */
  function CommentsUrl(testId: string): (u: string)
    ensures StartsWith(u, ApiBaseUrl + "/parameters/")
    ensures EndsWith(u, NormalizeTestId(testId))
    ensures |u| == |ApiBaseUrl + "/parameters/"| + |NormalizeTestId(testId)|
  {
    ApiBaseUrl + "/parameters/" + NormalizeTestId(testId)
  }

  /**
   * `fetchTestComments`: the stored comments, or "" on every kind of failure (404, any other
   * status, a body that is not JSON, a network error); it never rejects.
   */
  function FetchTestComments(reply: Reply<ApiItem>): (c: string)
    ensures c != "" <==> reply.Ok() && reply.body.Some? && reply.body.value.comments.Some?
                         && reply.body.value.comments.value != ""
    ensures c != "" ==> c == reply.body.value.comments.value
  {
    match reply
    case NetworkError(_) => ""
    case Response(status, _, body) =>
      if !IsSuccessful(status) then ""
      else if body.None? then ""
      else OptOr(body.value.comments, "")
  }

  function NotFoundMessage(testId: string): string {
    "Test " + testId + " not found (404) - cannot update comments"
  }

  function UpdateFailedMessage(status: int, statusText: string): string {
    "Failed to update comments: " + IntToString(status) + " " + statusText
  }

  /**
   * `updateTestComments`: resolves exactly on a 2xx reply; a 404 rejects with the not-found
   * message, any other status with the status and its text, a network error with its own message.
   */
  function UpdateTestComments(testId: string, reply: Reply<ApiItem>): (r: Outcome<string>)
    ensures r.Pass? <==> reply.Ok()
    ensures reply.Response? && reply.status == 404 ==> r == Fail(NotFoundMessage(testId))
    ensures reply.Response? && !reply.Ok() && reply.status != 404
      ==> r == Fail(UpdateFailedMessage(reply.status, reply.statusText))
    ensures reply.NetworkError? ==> r == Fail(reply.message)
  {
    match reply
    case NetworkError(msg) => Fail(msg)
    case Response(status, statusText, _) =>
      if IsSuccessful(status) then Pass
      else if status == 404 then Fail(NotFoundMessage(testId))
      else Fail(UpdateFailedMessage(status, statusText))
  }

  /** A missing record is reported differently from every other failed status. */
  lemma NotFoundIsDistinct(testId: string, status: int, statusText: string)
    ensures NotFoundMessage(testId) != UpdateFailedMessage(status, statusText)
  {
    assert NotFoundMessage(testId)[0] == 'T';
    assert UpdateFailedMessage(status, statusText)[0] == 'F';
  }
}
