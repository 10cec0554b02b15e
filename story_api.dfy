/**
 * How `StoryAPI` turns a server response into the arguments of its
 * completion handler, for `upload_story` and `view_story`. The HTTP request
 * and JSON decoding are not modelled: a response arrives already decoded.
 */
module StoryApi {
  import opened Wrappers
  import opened Models

  /**
   * The decoded JSON body, assuming the integer fields hold JSON numbers.
   * Integer fields are `None` when absent; `stories` is the decoded
   * `stories` array, empty when absent.
   */
  datatype ResponseBody = ResponseBody(
    story: Option<int>,
    error: Option<int>,
    errorMessage: Option<string>,
    stories: seq<Story>)

  /** A response: whether the transport succeeded, and the body bytes if any arrived. */
  datatype Response = Response(transportOk: bool, data: Option<ResponseBody>)

  /** What the completion handler receives, if it is called at all. */
  datatype Completion = NotCalled | Called(stories: Option<seq<Story>>, error: Option<APIError>)

  /** The fixed error reported on transport failure. */
  const ConnectionFailed: APIError := APIError(404, "Server Connection Failed")

  /** SwiftyJSON's `intValue`: 0 when absent. */
  function IntValue(field: Option<int>): int
  {
    field.GetOr(0)
  }

  /** SwiftyJSON's `stringValue`: "" when absent. */
  function StringValue(field: Option<string>): string
  {
    field.GetOr("")
  }

  /** The error built from a rejected body: `APIError(error, error_m)`. */
  function RejectionOf(body: ResponseBody): APIError
  {
    APIError(IntValue(body.error), StringValue(body.errorMessage))
  }

  /** `upload_story` accepts a body whose `story` count is positive. */
  predicate UploadAccepted(body: ResponseBody)
  {
    IntValue(body.story) > 0
  }

  /** `view_story` accepts a body whose `error` field is present and 0. */
  predicate ViewAccepted(body: ResponseBody)
  {
    body.error == Some(0)
  }

  /**
   * The loop over `json["stories"]`: decodes each story in order and forces
   * `liked` to false.
   */
  method CollectStories(raw: seq<Story>) returns (list: seq<Story>)
    ensures |list| == |raw|
    ensures forall k :: 0 <= k < |raw| ==> list[k] == raw[k].(liked := false)
    ensures forall k :: 0 <= k < |list| ==> !list[k].liked
  {
    list := [];
    for index := 0 to |raw|
      invariant |list| == index
      invariant forall k :: 0 <= k < index ==> list[k] == raw[k].(liked := false)
    {
      var storyData := raw[index].(liked := false);
      list := list + [storyData];
    }
  }

  /** The completion handler of `upload_story`. */
  method UploadStory(response: Response) returns (c: Completion)
    ensures response.data == None ==> c == NotCalled
    ensures response.data.Some? && !response.transportOk ==> c == Called(None, Some(ConnectionFailed))
    ensures response.data.Some? && response.transportOk && UploadAccepted(response.data.value) ==>
      c.Called? && c.error == None && c.stories.Some? &&
      |c.stories.value| == |response.data.value.stories| &&
      forall k :: 0 <= k < |c.stories.value| ==>
        c.stories.value[k] == response.data.value.stories[k].(liked := false)
    ensures response.data.Some? && response.transportOk && !UploadAccepted(response.data.value) ==>
      c == Called(Some([]), Some(RejectionOf(response.data.value)))
    ensures c.Called? && c.stories.Some? ==> forall k :: 0 <= k < |c.stories.value| ==> !c.stories.value[k].liked
  {
    if response.data == None {
      return NotCalled;
    }
    var json := response.data.value;
    if !response.transportOk {
      return Called(None, Some(ConnectionFailed));
    }
    var error: Option<APIError> := None;
    var storyList: seq<Story> := [];
    if IntValue(json.story) > 0 {
      storyList := CollectStories(json.stories);
    } else {
      error := Some(RejectionOf(json));
    }
    c := Called(Some(storyList), error);
  }

  /** The completion handler of `view_story`. */
  method ViewStory(response: Response) returns (c: Completion)
    ensures response.data == None ==> c == NotCalled
    ensures response.data.Some? && !response.transportOk ==> c == Called(None, Some(ConnectionFailed))
    ensures response.data.Some? && response.transportOk && ViewAccepted(response.data.value) ==>
      c.Called? && c.error == None && c.stories.Some? &&
      |c.stories.value| == |response.data.value.stories| &&
      forall k :: 0 <= k < |c.stories.value| ==>
        c.stories.value[k] == response.data.value.stories[k].(liked := false)
    ensures response.data.Some? && response.transportOk && !ViewAccepted(response.data.value) ==>
      c == Called(Some([]), Some(RejectionOf(response.data.value)))
    ensures c.Called? && c.stories.Some? ==> forall k :: 0 <= k < |c.stories.value| ==> !c.stories.value[k].liked
  {
    if response.data == None {
      return NotCalled;
    }
    var json := response.data.value;
    if !response.transportOk {
      return Called(None, Some(ConnectionFailed));
    }
    var error: Option<APIError> := None;
    var storyList: seq<Story> := [];
    if json.error == Some(0) {
      storyList := CollectStories(json.stories);
    } else {
      error := Some(RejectionOf(json));
    }
    c := Called(Some(storyList), error);
  }

  /** A missing `error` field is a rejection for `view_story`, reported as code 0. */
  lemma ViewStoryMissingErrorIsRejection(body: ResponseBody)
    requires body.error == None
    ensures !ViewAccepted(body) && RejectionOf(body).code == 0
  {
  }

  /**
   * The two endpoints read different fields: a body can be accepted by one
   * and rejected by the other.
   */
  lemma AcceptanceRulesDiffer()
    ensures var b := ResponseBody(Some(1), None, None, []); UploadAccepted(b) && !ViewAccepted(b)
    ensures var b := ResponseBody(None, Some(0), None, []); !UploadAccepted(b) && ViewAccepted(b)
  {
  }
}
