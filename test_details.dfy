/**
 * The state of the test-details page (src/components/TestDetails.tsx): the video carousel, the
 * play flag, the comment editor and the test parameters merged in from the API. Each React state
 * variable is a field of `DetailsView`; each handler is a method. The replies of the requests the
 * page makes are inputs.
 */
module TestDetails {
  import opened Wrappers
  import opened JsStrings
  import opened Http
  import Api

  /** The text shown when the API has no comments for the test. */
  const DefaultComment := "Defaut comment -- api not working"

  const VideoServerUrl := "http://localhost:3001"

  /** The carousel index after "next": one more, wrapping from the last video to the first. */
  function NextIndex(prev: int, count: nat): (r: int)
    ensures 0 <= prev < count ==> 0 <= r < count && r == (prev + 1) % count
  {
    if prev < count - 1 then prev + 1 else 0
  }

  /** The carousel index after "previous": one less, wrapping from the first video to the last. */
  function PreviousIndex(prev: int, count: nat): (r: int)
    ensures 0 <= prev < count ==> 0 <= r < count && r == (prev - 1 + count) % count
  {
    if prev > 0 then prev - 1 else count - 1
  }

  /** "Previous" undoes "next". */
  lemma PreviousUndoesNext(i: int, count: nat)
    requires 0 <= i < count
    ensures PreviousIndex(NextIndex(i, count), count) == i
  {
  }

  /** "Next" undoes "previous". */
  lemma NextUndoesPrevious(i: int, count: nat)
    requires 0 <= i < count
    ensures NextIndex(PreviousIndex(i, count), count) == i
  {
  }

  /**
   * The record id the page asks the API for: its own copy of the id rule, a "TEST-" or "TST-"
   * prefix dropped together with the zeros that follow it ("1" if nothing is left), any other id
   * used as it is.
   */
  function PageApiId(s: string): string {
    if StartsWith(s, "TEST-") then Or(StripLeadingZeros(ReplaceFirst(s, "TEST-", "")), "1")
    else if StartsWith(s, "TST-") then Or(StripLeadingZeros(ReplaceFirst(s, "TST-", "")), "1")
    else s
  }

  /** The page's id rule is the one the comment requests of the API layer use. */
  lemma PageApiIdAgrees(s: string)
    ensures PageApiId(s) == Api.NormalizeTestId(s)
  {
    match Api.IdPrefix(s)
    case None =>
    case Some(prefix) =>
      var rest := ReplaceFirst(s, prefix, "");
      assert rest == s[|prefix|..];
      assert Api.StripIdPrefix(s, prefix) == Or(StripLeadingZeros(rest), "1");
  }

  /** The parameters endpoint, which the page writes out in full. */
  const PageParametersUrl := "https://68e89221f2707e6128cb466c.mockapi.io/api/v1/parameters/"

  /** It is the endpoint of the API layer. */
  lemma PageParametersUrlIsApis()
    ensures PageParametersUrl == Api.ApiBaseUrl + "/parameters/"
  {
  }

  /** The address the page reads a test's parameters from: the record the comments use. */
  function DetailsUrl(testId: string): (u: string)
    ensures u == Api.CommentsUrl(testId)
    ensures Api.IdPrefix(testId).None? ==> EndsWith(u, testId)
  {
    PageApiIdAgrees(testId);
    PageParametersUrlIsApis();
    PageParametersUrl + PageApiId(testId)
  }

  /** The address of the test's video listing on the upload server. */
  function VideosUrl(testId: string): (u: string)
    ensures StartsWith(u, VideoServerUrl + "/api/upload/videos/") && EndsWith(u, testId)
    ensures |u| == |VideoServerUrl + "/api/upload/videos/"| + |testId|
  {
    VideoServerUrl + "/api/upload/videos/" + testId
  }

  /** The three measurements the parameters request merges into the page's test data. */
  datatype Parameters = Parameters(volume: Option<real>, days: Option<real>, delution: Option<real>)

  class DetailsView {
    /** `testData?.testId`; "" when the page has no test. */
    var testId: string
    var parameters: Parameters
    var comments: string
    var tempComments: string
    var isEditingComments: bool
    var videos: seq<string>
    var currentVideoIndex: int
    var isPlaying: bool

    /** The index points at a video whenever there is one. */
    predicate IndexInRange()
      reads this
    {
      0 <= currentVideoIndex < |videos|
    }

    constructor (testId: string, parameters: Parameters)
      ensures this.testId == testId && this.parameters == parameters
      ensures comments == "" && tempComments == "" && !isEditingComments
      ensures videos == [] && currentVideoIndex == 0 && !isPlaying
    {
      this.testId := testId;
      this.parameters := parameters;
      comments := "";
      tempComments := "";
      isEditingComments := false;
      videos := [];
      currentVideoIndex := 0;
      isPlaying := false;
    }

    /**
     * The parameters effect: on a 2xx reply whose body parses, volume, days and delution are taken
     * from it; on anything else the page keeps what it had.
     */
    method LoadParameters(reply: Reply<Parameters>)
      modifies this
      ensures testId != "" && reply.Ok() && reply.body.Some? ==> parameters == reply.body.value
      ensures !(testId != "" && reply.Ok() && reply.body.Some?) ==> parameters == old(parameters)
      ensures testId == old(testId) && comments == old(comments) && tempComments == old(tempComments)
      ensures isEditingComments == old(isEditingComments) && videos == old(videos)
      ensures currentVideoIndex == old(currentVideoIndex) && isPlaying == old(isPlaying)
    {
      if testId != "" && reply.Ok() && reply.body.Some? {
        parameters := reply.body.value;
      }
    }

    /**
     * The videos effect: the URLs listed by the upload server replace the (empty) list, unless the
     * listing has none. The index is left where it was.
     */
    method LoadVideos(urls: seq<string>)
      modifies this
      ensures videos == if testId != "" && |urls| > 0 then urls else old(videos)
      ensures currentVideoIndex == old(currentVideoIndex) && isPlaying == old(isPlaying)
      ensures testId == old(testId) && parameters == old(parameters)
      ensures comments == old(comments) && tempComments == old(tempComments)
      ensures isEditingComments == old(isEditingComments)
    {
      if testId != "" && |urls| > 0 {
        videos := urls;
      }
    }

    /**
     * The comments effect: the fetched comments, or the default text when they are empty, go to
     * both the shown and the edited comments.
     */
    method LoadComments(reply: Reply<Api.ApiItem>)
      modifies this
      ensures testId != "" ==> comments == tempComments && comments != ""
      ensures testId != "" && Api.FetchTestComments(reply) != "" ==> comments == Api.FetchTestComments(reply)
      ensures testId != "" && Api.FetchTestComments(reply) == "" ==> comments == DefaultComment
      ensures testId == "" ==> comments == old(comments) && tempComments == old(tempComments)
      ensures testId == old(testId) && parameters == old(parameters)
      ensures isEditingComments == old(isEditingComments) && videos == old(videos)
      ensures currentVideoIndex == old(currentVideoIndex) && isPlaying == old(isPlaying)
    {
      if testId != "" {
        var fetched := Api.FetchTestComments(reply);
        comments := Or(fetched, DefaultComment);
        tempComments := Or(fetched, DefaultComment);
      }
    }

    /** "Edit": the editor opens on a copy of the shown comments. */
    method HandleEditClick()
      modifies this
      ensures isEditingComments && tempComments == comments
      ensures comments == old(comments) && testId == old(testId) && parameters == old(parameters)
      ensures videos == old(videos) && currentVideoIndex == old(currentVideoIndex)
      ensures isPlaying == old(isPlaying)
    {
      isEditingComments := true;
      tempComments := comments;
    }

    /**
     * "Save": the edited text is sent; when the update succeeds it becomes the shown comments and
     * the editor closes, otherwise (an alert is raised and) everything stays as it was.
     * Returns whether the alert was raised.
     */
    method HandleSaveComments(reply: Reply<Api.ApiItem>) returns (alerted: bool)
      modifies this
      ensures alerted <==> testId != "" && Api.UpdateTestComments(testId, reply).Fail?
      ensures testId != "" && reply.Ok() ==> comments == old(tempComments) && !isEditingComments
      ensures !(testId != "" && reply.Ok()) ==>
        comments == old(comments) && isEditingComments == old(isEditingComments)
      ensures tempComments == old(tempComments) && testId == old(testId)
      ensures parameters == old(parameters) && videos == old(videos)
      ensures currentVideoIndex == old(currentVideoIndex) && isPlaying == old(isPlaying)
    {
      alerted := false;
      if testId == "" {
        return;
      }
      var outcome := Api.UpdateTestComments(testId, reply);
      if outcome.Pass? {
        comments := tempComments;
        isEditingComments := false;
      } else {
        alerted := true;
      }
    }

    /** "Cancel": the edit is dropped and the editor closes; the shown comments do not change. */
    method HandleCancelEdit()
      modifies this
      ensures tempComments == comments && !isEditingComments
      ensures comments == old(comments) && testId == old(testId) && parameters == old(parameters)
      ensures videos == old(videos) && currentVideoIndex == old(currentVideoIndex)
      ensures isPlaying == old(isPlaying)
    {
      tempComments := comments;
      isEditingComments := false;
    }

    /** "Previous video": the index steps back (wrapping) and playback stops. */
    method HandlePreviousVideo()
      modifies this
      ensures currentVideoIndex == PreviousIndex(old(currentVideoIndex), |videos|) && !isPlaying
      ensures old(IndexInRange()) ==> IndexInRange()
      ensures videos == old(videos) && testId == old(testId) && parameters == old(parameters)
      ensures comments == old(comments) && tempComments == old(tempComments)
      ensures isEditingComments == old(isEditingComments)
    {
      currentVideoIndex := PreviousIndex(currentVideoIndex, |videos|);
      isPlaying := false;
    }

    /** "Next video": the index steps forward (wrapping) and playback stops. */
    method HandleNextVideo()
      modifies this
      ensures currentVideoIndex == NextIndex(old(currentVideoIndex), |videos|) && !isPlaying
      ensures old(IndexInRange()) ==> IndexInRange()
      ensures videos == old(videos) && testId == old(testId) && parameters == old(parameters)
      ensures comments == old(comments) && tempComments == old(tempComments)
      ensures isEditingComments == old(isEditingComments)
    {
      currentVideoIndex := NextIndex(currentVideoIndex, |videos|);
      isPlaying := false;
    }

    /** A thumbnail click selects that video and stops playback. */
    method HandleVideoClick(index: int)
      modifies this
      ensures currentVideoIndex == index && !isPlaying
      ensures 0 <= index < |videos| ==> IndexInRange()
      ensures videos == old(videos) && testId == old(testId) && parameters == old(parameters)
      ensures comments == old(comments) && tempComments == old(tempComments)
      ensures isEditingComments == old(isEditingComments)
    {
      currentVideoIndex := index;
      isPlaying := false;
    }

    /** Play/pause flips the flag when a video element is mounted, and does nothing otherwise. */
    method TogglePlayPause(hasPlayer: bool)
      modifies this
      ensures isPlaying == (if hasPlayer then !old(isPlaying) else old(isPlaying))
      ensures currentVideoIndex == old(currentVideoIndex) && videos == old(videos)
      ensures testId == old(testId) && parameters == old(parameters)
      ensures comments == old(comments) && tempComments == old(tempComments)
      ensures isEditingComments == old(isEditingComments)
    {
      if hasPlayer {
        isPlaying := !isPlaying;
      }
    }
  }
}
