/**
 * The link-submission form: what one press of the submit button does, as a
 * function of the text in the field and of how the submit call settles.
 * The checks run in a fixed order (blank text, host name, id extraction), the
 * submit call is made only when all three pass, and its reply either hands
 * the task over to the progress screen or leaves an error on the form.
 */
module SubmitForm {
  import opened Strings
  import opened Api
  import LinkParser

  const EnterUrlMessage := "유튜브 주소를 입력해 주세요."
  const InvalidUrlMessage := "올바른 유튜브 주소를 입력해 주세요."
  const RejectedMessage := "분석 요청 중 오류가 발생했습니다. 다시 시도해 주세요."
  const ConnectionMessage := "서버 연결에 실패했습니다. 다시 시도해 주세요."

  /** The form's state: the field's text, whether a submit is in flight, and the error shown. */
  datatype FormState = FormState(url: string, isSubmitting: bool, error: Option<string>)

  /** Outcome of the local checks: the id to submit, or the message to show. */
  datatype Validation = Valid(videoId: string) | Invalid(message: string)

  /** What the form hands to its parent when a task was accepted: `onSubmit(taskId, videoId)`. */
  datatype HandOff = HandOff(taskId: string, videoId: string)

  /**
   * One submit: the form state while the request is in flight (if one is
   * made), the form state afterwards, the video id posted to the service (if
   * any), and the hand-off to the parent (if any).
   */
  datatype SubmitRun = SubmitRun(pending: Option<FormState>, form: FormState, posted: Option<string>, handOff: Option<HandOff>)

  /**
   * The checks made before any request.  Blank text gets its own message;
   * otherwise the text passes exactly when an id can be extracted, because an
   * extractable link always names one of the two hosts the host check looks for.
   */
  function Validate(url: string): (v: Validation)
    ensures IsBlank(url) ==> v == Invalid(EnterUrlMessage)
    ensures v.Valid? <==> !IsBlank(url) && LinkParser.ExtractVideoId(url).Some?
    ensures v.Valid? ==> Some(v.videoId) == LinkParser.ExtractVideoId(url) && |v.videoId| > 0
    ensures !IsBlank(url) && v.Invalid? ==> v.message == InvalidUrlMessage
  {
    if Trim(url) == "" then Invalid(EnterUrlMessage)
    else if !Contains(url, "youtube.com") && !Contains(url, "youtu.be") then
      // No id could be extracted here either: a link the extractor accepts names a host.
      LinkParser.ExtractedLinkNamesHost(url);
      Invalid(InvalidUrlMessage)
    else
      match LinkParser.ExtractVideoId(url)
      case None => Invalid(InvalidUrlMessage)
      case Some(id) => Valid(id)
  }

  /**
   * `handleSubmit`.  The error shown before the press is cleared; a failed
   * check leaves an error and makes no request; otherwise the extracted id is
   * posted, and the reply is read only then.  A task id of -1 (number or
   * string) is a rejection, any other is handed over as `String(taskid)`
   * together with the posted id, and a failed call shows the connection
   * message.  Whatever the reply, the form is no longer submitting afterwards.
   */
  function HandleSubmit(form: FormState, reply: ApiResult<SubmitResponse>): (r: SubmitRun)
    ensures r.form.url == form.url
    ensures r.posted.Some? <==> Validate(form.url).Valid?
    ensures r.posted.Some? ==> r.posted.value == Validate(form.url).videoId
    ensures r.posted.None? ==> r.form == FormState(form.url, form.isSubmitting, Some(Validate(form.url).message))
    ensures r.pending.Some? <==> r.posted.Some?
    ensures r.pending.Some? ==> r.pending.value == FormState(form.url, true, None)
    ensures r.posted.Some? ==> !r.form.isSubmitting
    ensures r.handOff.Some? <==> r.posted.Some? && reply.Ok? && !IsSentinel(reply.value.taskid)
    ensures r.handOff.Some? ==> r.handOff.value == HandOff(JsString(reply.value.taskid), r.posted.value)
    ensures r.handOff.Some? <==> r.form.error.None?
    ensures r.posted.Some? && reply.Ok? && IsSentinel(reply.value.taskid) ==> r.form.error == Some(RejectedMessage)
    ensures r.posted.Some? && reply.Failed? ==> r.form.error == Some(ConnectionMessage)
  {
    match Validate(form.url)
    case Invalid(message) => SubmitRun(None, form.(error := Some(message)), None, None)
    case Valid(videoId) =>
      var pending := form.(isSubmitting := true, error := None);
      var settled := pending.(isSubmitting := false);
      match reply
      case Failed(_) => SubmitRun(Some(pending), settled.(error := Some(ConnectionMessage)), Some(videoId), None)
      case Ok(body) =>
        if IsSentinel(body.taskid) then
          SubmitRun(Some(pending), settled.(error := Some(RejectedMessage)), Some(videoId), None)
        else
          SubmitRun(Some(pending), settled, Some(videoId), Some(HandOff(JsString(body.taskid), videoId)))
  }

  /** Blank text shows the enter-a-link message, never posts, and never marks the form as submitting. */
  lemma BlankNeverPosts(form: FormState, reply: ApiResult<SubmitResponse>)
    requires IsBlank(form.url)
    ensures HandleSubmit(form, reply).posted.None?
    ensures HandleSubmit(form, reply).pending.None?
    ensures HandleSubmit(form, reply).handOff.None?
    ensures HandleSubmit(form, reply).form.error == Some(EnterUrlMessage)
    ensures HandleSubmit(form, reply).form.isSubmitting == form.isSubmitting
  {
  }

  /** The parent never receives the task id "-1", whichever form the server used. */
  lemma HandOffNeverSentinel(form: FormState, reply: ApiResult<SubmitResponse>)
    ensures var h := HandleSubmit(form, reply).handOff; h.Some? ==> h.value.taskId != "-1"
  {
    if reply.Ok? {
      JsStringSentinel(reply.value.taskid);
    }
  }

  /** The posted id is the id the parent receives, and it is what the link parser extracted. */
  lemma HandOffCarriesExtractedId(form: FormState, reply: ApiResult<SubmitResponse>)
    ensures var h := HandleSubmit(form, reply).handOff; h.Some? ==> Some(h.value.videoId) == LinkParser.ExtractVideoId(form.url)
  {
  }

  /**
   * The form driven by the submit call: the request carries the posted id,
   * and the task is handed over exactly when the service answered ok with a
   * task id other than -1.
   */
  lemma SubmitCallCarriesPostedId(form: FormState, base: string, reply: HttpReply<SubmitResponse>)
    requires Validate(form.url).Valid?
    ensures var x := SubmitAnalysis(base, Validate(form.url).videoId, reply);
      var r := HandleSubmit(form, x.result);
      && r.posted.Some? && x.request.body == IdBody(r.posted.value)
      && (r.handOff.Some? <==> reply.Response? && reply.ok && !IsSentinel(reply.body.taskid))
  {
  }

  /** The host check never rejects a link the extractor accepts: a host-less link fails extraction too. */
  lemma HostCheckSubsumed(url: string)
    requires !Contains(url, "youtube.com") && !Contains(url, "youtu.be")
    ensures LinkParser.ExtractVideoId(url).None?
    ensures Validate(url).Invalid?
  {
    LinkParser.ExtractedLinkNamesHost(url);
  }
}
