/**
 * The client side of the HTTP API: how `ApiService.handleError` turns a failed
 * axios request into the `ApiError` every caller sees (the same code sits in
 * web/src/services/api.ts and frontend/src/services/api.ts), the default base
 * URL, and the URL of the generation event stream.
 */
module ApiClient {
  import opened Wrappers
  import opened JsValues

  /** The body of an error response, when it is truthy; its `detail` and `message` may be missing. */
  datatype ErrorBody = ErrorBody(detail: Option<string>, message: Option<string>)

  /** An HTTP response that came back with an error status; `data` is `None` when the body is falsy. */
  datatype ErrorResponse = ErrorResponse(status: int, data: Option<ErrorBody>)

  /** What axios rejects with: a response when the server answered, and its own message. */
  datatype HttpFailure = HttpFailure(response: Option<ErrorResponse>, message: Option<string>)

  /** The `ApiError` the service rejects with instead. */
  datatype ApiError = ApiError(detail: string, statusCode: int)

  const RequestFailed: string := "请求失败"
  const NetworkFailed: string := "网络连接失败"

  /** The base URL `new ApiService()` is built with. */
  const DefaultBaseUrl: string := "http://localhost:8000"

  /** The path prefix of the generation event stream. */
  const StreamPath: string := "/generate/stream/"

  /**
   * `handleError`: with response data, the server's `detail`, else its `message`,
   * else a fixed text, together with the response status; without response data,
   * the request's own message or a fixed network text, with status 0.
   */
  function HandleError(e: HttpFailure): (r: ApiError)
    ensures r.detail != []
    ensures ServerAnswered(e) ==>
      r.statusCode == e.response.value.status &&
      (r.detail == RequestFailed || Some(r.detail) == e.response.value.data.value.detail || Some(r.detail) == e.response.value.data.value.message)
    ensures !ServerAnswered(e) ==> r.statusCode == 0 && (r.detail == NetworkFailed || Some(r.detail) == e.message)
  {
    match e.response
    case Some(ErrorResponse(status, Some(body))) =>
      ApiError(StrOr(body.detail, StrOr(body.message, RequestFailed)), status)
    case _ =>
      ApiError(StrOr(e.message, NetworkFailed), 0)
  }

  /** `error.response?.data` is truthy. */
  predicate ServerAnswered(e: HttpFailure)
  {
    e.response.Some? && e.response.value.data.Some?
  }

  /** A non-empty server `detail` reaches the caller as it is, ahead of any `message`. */
  lemma ServerDetailWins(e: HttpFailure, detail: string)
    requires ServerAnswered(e) && e.response.value.data.value.detail == Some(detail) && detail != []
    ensures HandleError(e) == ApiError(detail, e.response.value.status)
  {
  }

  /** Without a usable detail the server's non-empty `message` is passed on. */
  lemma ServerMessageNext(e: HttpFailure, message: string)
    requires ServerAnswered(e) && StrOr(e.response.value.data.value.detail, []) == []
    requires e.response.value.data.value.message == Some(message) && message != []
    ensures HandleError(e) == ApiError(message, e.response.value.status)
  {
  }

  /** With neither a usable detail nor a usable message, the fixed text "请求失败" goes with the response status. */
  lemma ServerFallback(e: HttpFailure)
    requires ServerAnswered(e)
    requires StrOr(e.response.value.data.value.detail, []) == [] && StrOr(e.response.value.data.value.message, []) == []
    ensures HandleError(e) == ApiError(RequestFailed, e.response.value.status)
  {
  }

  /**
   * Without response data (no response, or a falsy body), the request's own
   * non-empty message is passed on with status 0, and "网络连接失败" only when it has none.
   */
  lemma NetworkMessage(e: HttpFailure)
    requires !ServerAnswered(e)
    ensures e.message.Some? && e.message.value != [] ==> HandleError(e) == ApiError(e.message.value, 0)
    ensures StrOr(e.message, []) == [] ==> HandleError(e) == ApiError(NetworkFailed, 0)
  {
  }

  /** `createGenerationEventSource(taskId)`: the base URL, the stream path, then the generation task id. */
  function EventSourceUrl(baseUrl: string, taskId: string): (r: string)
    ensures |r| == |baseUrl| + |StreamPath| + |taskId|
    ensures r[..|baseUrl|] == baseUrl && r[|baseUrl|..|baseUrl| + |StreamPath|] == StreamPath
  {
    baseUrl + StreamPath + taskId
  }

  /** The generation task id an event-stream URL under `baseUrl` names, if it is one. */
  function StreamTaskId(baseUrl: string, url: string): (r: Option<string>)
    ensures r.Some? ==> url == EventSourceUrl(baseUrl, r.value)
  {
    var n := |baseUrl| + |StreamPath|;
    if |url| >= n && url[..n] == baseUrl + StreamPath then
      assert url == url[..n] + url[n..];
      Some(url[n..])
    else None
  }

  /** Every stream URL names back the generation task it was built for. */
  lemma StreamUrlRoundTrip(baseUrl: string, taskId: string)
    ensures StreamTaskId(baseUrl, EventSourceUrl(baseUrl, taskId)) == Some(taskId)
  {
    var url := EventSourceUrl(baseUrl, taskId);
    var n := |baseUrl| + |StreamPath|;
    assert url[..n] == baseUrl + StreamPath;
    assert url[n..] == taskId;
  }

  /** The part of `ApiService` the model keeps: the base URL its axios instance is created with. */
  class ApiService {
    const baseUrl: string

    /** A missing argument takes the default; an explicit one, even `''`, is kept. */
    constructor (baseUrl: Option<string>)
      ensures baseUrl.None? ==> this.baseUrl == DefaultBaseUrl
      ensures baseUrl.Some? ==> this.baseUrl == baseUrl.value
    {
      this.baseUrl := if baseUrl.Some? then baseUrl.value else DefaultBaseUrl;
    }

    /** The URL `createGenerationEventSource` opens; it names back the generation task. */
    function GenerationStreamUrl(taskId: string): (r: string)
      ensures |r| >= |baseUrl| && r[..|baseUrl|] == baseUrl
      ensures StreamTaskId(baseUrl, r) == Some(taskId)
    {
      StreamUrlRoundTrip(baseUrl, taskId);
      EventSourceUrl(baseUrl, taskId)
    }
  }
}
