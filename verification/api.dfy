/**
 * The analysis service client: the task-status vocabulary and its display
 * messages, the three requests the client sends, and the rule that turns an
 * HTTP reply into either a body or an error.  The transport itself is not
 * modelled: a reply arrives as a value.
 */
module Api {
  import opened Strings

  // ---------------------------------------------------------------------------
  // Task status and its message
  // ---------------------------------------------------------------------------

  /** The seven statuses the client's type names. */
  datatype TaskStatus = Ready | Extract | Trans | Analysis | Saving | Success | Error

  /** The wire spelling of a status. */
  function Name(t: TaskStatus): string {
    match t
    case Ready => "ready"
    case Extract => "extract"
    case Trans => "trans"
    case Analysis => "analysis"
    case Saving => "saving"
    case Success => "success"
    case Error => "error"
  }

  /** Recognises a wire status; anything else the server sends (`toolong`, say) is unknown. */
  function Parse(s: string): (r: Option<TaskStatus>)
    ensures r.Some? ==> Name(r.value) == s
  {
    if s == "ready" then Some(Ready)
    else if s == "extract" then Some(Extract)
    else if s == "trans" then Some(Trans)
    else if s == "analysis" then Some(Analysis)
    else if s == "saving" then Some(Saving)
    else if s == "success" then Some(Success)
    else if s == "error" then Some(Error)
    else None
  }

  /** Every status is recognised under its own name. */
  lemma ParseName(t: TaskStatus)
    ensures Parse(Name(t)) == Some(t)
  {
  }

  /** The message shown for each known status. */
  function Message(t: TaskStatus): string {
    match t
    case Ready => "준비 중..."
    case Extract => "영상 추출 중..."
    case Trans => "비디오, 오디오 전처리 중..."
    case Analysis => "AI 분석 중..."
    case Saving => "DB 업데이트 중..."
    case Success => "분석 완료!"
    case Error => "오류 발생"
  }

  /** The message for a status the table does not list. */
  const FallbackMessage := "처리 중..."

  /** `getStatusMessage`: a total map from any status string to a message. */
  function StatusMessage(s: string): (m: string)
    ensures Parse(s).Some? ==> m == Message(Parse(s).value)
    ensures Parse(s).None? ==> m == FallbackMessage
  {
    match Parse(s)
    case Some(t) => Message(t)
    case None => FallbackMessage
  }

  /** Reads a message back to the status it announces; the fallback announces none. */
  function MessageStatus(m: string): Option<TaskStatus> {
    if m == "준비 중..." then Some(Ready)
    else if m == "영상 추출 중..." then Some(Extract)
    else if m == "비디오, 오디오 전처리 중..." then Some(Trans)
    else if m == "AI 분석 중..." then Some(Analysis)
    else if m == "DB 업데이트 중..." then Some(Saving)
    else if m == "분석 완료!" then Some(Success)
    else if m == "오류 발생" then Some(Error)
    else None
  }

  /**
   * The seven messages and the fallback are pairwise distinct: the message
   * shown for a status identifies that status, and an unknown one is never
   * mistaken for a known one.
   */
  lemma MessageIdentifiesStatus(s: string)
    ensures MessageStatus(StatusMessage(s)) == Parse(s)
  {
    assert FallbackMessage != "준비 중..." && FallbackMessage != "영상 추출 중...";
    assert FallbackMessage != "비디오, 오디오 전처리 중..." && FallbackMessage != "AI 분석 중...";
    assert FallbackMessage != "DB 업데이트 중..." && FallbackMessage != "분석 완료!";
    assert FallbackMessage != "오류 발생";
  }

  /** Two status strings with the same message are the same known status, or both unknown. */
  lemma SameMessageSameStatus(s1: string, s2: string)
    requires StatusMessage(s1) == StatusMessage(s2)
    ensures Parse(s1) == Parse(s2)
    ensures Parse(s1).Some? ==> s1 == s2
  {
    MessageIdentifiesStatus(s1);
    MessageIdentifiesStatus(s2);
  }

  // ---------------------------------------------------------------------------
  // Identifiers that arrive as a number or a string
  // ---------------------------------------------------------------------------

  /** A JSON value that the server sends as either a number or a string. */
  datatype JsId = Num(n: int) | Str(s: string)

  /** The out-of-band "-1", as the number or as the string. */
  predicate IsSentinel(id: JsId) {
    id == Num(-1) || id == Str("-1")
  }

  /** `String(id)`. */
  function JsString(id: JsId): string {
    match id
    case Num(n) => IntToString(n)
    case Str(s) => s
  }

  /** An identifier renders as "-1" exactly when it is the sentinel in one of its two forms. */
  lemma JsStringSentinel(id: JsId)
    ensures JsString(id) == "-1" <==> IsSentinel(id)
  {
    if id.Num? {
      IntToStringMinusOne(id.n);
    }
  }

  // ---------------------------------------------------------------------------
  // Requests
  // ---------------------------------------------------------------------------

  datatype HttpMethod = Get | Post

  /** A request body; the submit body is the JSON object `{id: videoId}`. */
  datatype Body = NoBody | IdBody(id: string)

  datatype Request = Request(verb: HttpMethod, url: string, contentType: string, body: Body)

  const JsonType := "application/json"
  const SubmitPath := "/ai_request.php"
  const StatusPath := "/ai_status.php?tid="
  const InfoPath := "/analysis_info.php?tid="

  /** The request that asks the service to analyse `videoId`. */
  function SubmitRequest(base: string, videoId: string): (r: Request)
    ensures r.verb == Post && r.contentType == JsonType
    ensures r.body == IdBody(videoId)
    ensures |r.url| == |base| + |SubmitPath|
    ensures r.url[..|base|] == base && r.url[|base|..] == SubmitPath
  {
    Request(Post, base + SubmitPath, JsonType, IdBody(videoId))
  }

  /** A GET to `base + path + taskId`, the task id inserted verbatim. */
  function QueryRequest(base: string, path: string, taskId: string): (r: Request)
    ensures r.verb == Get && r.contentType == JsonType && r.body == NoBody
    ensures |r.url| == |base| + |path| + |taskId|
    ensures r.url[..|base|] == base
    ensures r.url[|base|..|base| + |path|] == path
    ensures r.url[|base| + |path|..] == taskId
  {
    Request(Get, base + path + taskId, JsonType, NoBody)
  }

  /** The status query for a task. */
  function StatusRequest(base: string, taskId: string): Request {
    QueryRequest(base, StatusPath, taskId)
  }

  /** The result query for a task. */
  function InfoRequest(base: string, taskId: string): Request {
    QueryRequest(base, InfoPath, taskId)
  }

  /** Distinct task ids never share a query URL: the id is carried whole and unencoded. */
  lemma QueryUrlInjective(base: string, path: string, t1: string, t2: string)
    requires QueryRequest(base, path, t1).url == QueryRequest(base, path, t2).url
    ensures t1 == t2
  {
    assert t1 == QueryRequest(base, path, t1).url[|base| + |path|..];
  }

  // ---------------------------------------------------------------------------
  // Replies
  // ---------------------------------------------------------------------------

  /** What `fetch` settles with: an HTTP response, or a failure before any response. */
  datatype HttpReply<B> = Response(ok: bool, status: int, body: B) | TransportFailure(reason: string)

  /** What each service call resolves to: a body, or the error it throws. */
  datatype ApiResult<B> = Ok(value: B) | Failed(message: string)

  /**
   * The rule shared by the three calls: a body is returned only for an ok
   * response; a non-ok response throws `API error: <status>`, and a transport
   * failure passes its own error through.
   */
  function Settle<B>(reply: HttpReply<B>): (r: ApiResult<B>)
    ensures r.Ok? <==> reply.Response? && reply.ok
    ensures r.Ok? ==> r.value == reply.body
    ensures reply.Response? && !reply.ok ==> r.message == ApiErrorPrefix + IntToString(reply.status)
    ensures reply.TransportFailure? ==> r == Failed(reply.reason)
  {
    match reply
    case Response(ok, status, body) => if ok then Ok(body) else Failed(ApiErrorPrefix + IntToString(status))
    case TransportFailure(reason) => Failed(reason)
  }

  const ApiErrorPrefix := "API error: "

  /** The error a non-ok response throws names its status code: reading past the prefix gives the code back. */
  lemma SettleNamesStatus<B>(reply: HttpReply<B>)
    requires reply.Response? && !reply.ok
    ensures var m := Settle(reply).message;
      |m| > |ApiErrorPrefix| && m[..|ApiErrorPrefix|] == ApiErrorPrefix
      && ParseInt(m[|ApiErrorPrefix|..]) == Some(reply.status)
  {
    var m := Settle(reply).message;
    assert m[|ApiErrorPrefix|..] == IntToString(reply.status);
    IntToStringRoundTrip(reply.status);
  }

  /** The body of the submit reply. */
  datatype SubmitResponse = SubmitResponse(taskid: JsId)

  /** The body of the status reply; the status is whatever string the server sent. */
  datatype StatusResponse = StatusResponse(status: string)

  /** The body of the result reply. */
  datatype AnalysisInfo = AnalysisInfo(videoId: JsId, score: int, description: string, tags: string)

  /** One call: the request sent and what the call resolves to. */
  datatype Exchange<B> = Exchange(request: Request, result: ApiResult<B>)

  /** `submitAnalysis(videoId)`. */
  function SubmitAnalysis(base: string, videoId: string, reply: HttpReply<SubmitResponse>): (x: Exchange<SubmitResponse>)
    ensures x.request == SubmitRequest(base, videoId)
    ensures x.result.Ok? <==> reply.Response? && reply.ok
    ensures x.result.Ok? ==> x.result.value == reply.body
  {
    Exchange(SubmitRequest(base, videoId), Settle(reply))
  }

  /** `getTaskStatus(taskId)`. */
  function GetTaskStatus(base: string, taskId: string, reply: HttpReply<StatusResponse>): (x: Exchange<StatusResponse>)
    ensures x.request == QueryRequest(base, StatusPath, taskId)
    ensures x.result.Ok? <==> reply.Response? && reply.ok
    ensures x.result.Ok? ==> x.result.value == reply.body
  {
    Exchange(StatusRequest(base, taskId), Settle(reply))
  }

  /** `getAnalysisInfo(taskId)`. */
  function GetAnalysisInfo(base: string, taskId: string, reply: HttpReply<AnalysisInfo>): (x: Exchange<AnalysisInfo>)
    ensures x.request == QueryRequest(base, InfoPath, taskId)
    ensures x.result.Ok? <==> reply.Response? && reply.ok
    ensures x.result.Ok? ==> x.result.value == reply.body
  {
    Exchange(InfoRequest(base, taskId), Settle(reply))
  }
}
