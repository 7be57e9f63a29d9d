/**
 * The progress/result screen.  One instance runs in one of two modes fixed
 * when it is mounted: processing mode polls the task's status (once at mount,
 * once more every time the status changes, and on every 5-second tick while
 * the status is neither `success` nor `error`), and done mode fetches the
 * analysis result once.  The screen is a state record and a step function over
 * the replies and timer ticks that reach it; each step also yields the
 * requests and timers it starts.  `View` picks what is drawn.
 *
 * The step follows the code as written, not the intended design: a change of
 * status re-runs the polling effect, and that re-run polls at once without
 * looking at the status, so a `success` reply is followed by one more poll,
 * and a second `success` reply schedules a second hand-over to done mode.
 */
module Results {
  import opened Strings
  import opened Api
  import opened Tags

  const AnalysisFailedMessage := "분석 중 오류가 발생했습니다."
  const StatusQueryFailedMessage := "상태 조회 중 오류가 발생했습니다."
  const NotFoundMessage := "존재하지 않는 작업 ID입니다."
  const LoadFailedMessage := "분석 결과를 불러오는 중 오류가 발생했습니다."
  const LoadingMessage := "결과를 불러오는 중..."

  /** Period of the polling tick. */
  const PollIntervalMs := 5000
  /** Delay between a `success` reply and the hand-over to done mode. */
  const DoneDelayMs := 1000

  /** What a step starts: a status request, a result request, or the delayed hand-over to done mode. */
  datatype Command = PollStatus | FetchInfo | ScheduleDone(delayMs: nat)

  /** What can reach the screen: settled requests and polling ticks. */
  datatype Event =
    | PollResult(status: string)
    | PollFailed
    | Tick
    | FetchResult(info: AnalysisInfo)
    | FetchFailed

  /**
   * The screen's state.  `taskId`, `done` and `initialVideoId` come from the
   * route and never change; the rest is the component's own state.
   */
  datatype Display = Display(
    taskId: string,
    done: bool,
    initialVideoId: Option<string>,
    status: string,
    statusMessage: string,
    error: Option<string>,
    result: Option<AnalysisInfo>,
    videoId: Option<string>)

  /** A state change together with the commands it starts, in order. */
  datatype Step = Step(next: Display, commands: seq<Command>)

  /** Processing mode with a task to poll: the only case in which polling is set up. */
  predicate Polling(d: Display) {
    !d.done && d.taskId != ""
  }

  /** Done mode with a task to fetch: the only case in which the result is requested. */
  predicate Fetching(d: Display) {
    d.done && d.taskId != ""
  }

  /** The statuses the tick's guard stops on; `toolong` and unknown strings are not among them. */
  predicate TickStops(status: string) {
    status == Name(Success) || status == Name(Error)
  }

  /** The message shown always belongs to the status held. */
  predicate MessageMatches(d: Display) {
    d.statusMessage == StatusMessage(d.status)
  }

  /** A stored result is never the not-found sentinel, belongs to done mode, and supplies the video id. */
  predicate ResultConsistent(d: Display) {
    d.result.Some? ==>
      && d.done
      && !IsSentinel(d.result.value.videoId)
      && d.videoId == Some(JsString(d.result.value.videoId))
  }

  predicate Invariant(d: Display) {
    MessageMatches(d) && ResultConsistent(d)
  }

  // ---------------------------------------------------------------------------
  // Mount and step
  // ---------------------------------------------------------------------------

  /**
   * The screen as first rendered, and the request its effects start: a status
   * poll in processing mode, a result fetch in done mode, nothing without a task.
   * An empty initial video id counts as absent.
   */
  function Mount(taskId: string, initialVideoId: Option<string>, done: bool): (r: Step)
    ensures r.next.taskId == taskId && r.next.done == done
    ensures r.next.status == (if done then Name(Success) else Name(Ready))
    ensures Invariant(r.next)
    ensures r.next.error.None? && r.next.result.None? && r.next.videoId.None?
    ensures r.next.initialVideoId.Some? <==> initialVideoId.Some? && initialVideoId.value != ""
    ensures r.next.initialVideoId.Some? ==> r.next.initialVideoId == initialVideoId
    ensures |r.commands| <= 1
    ensures PollStatus in r.commands <==> Polling(r.next)
    ensures FetchInfo in r.commands <==> Fetching(r.next)
  {
    var init := if initialVideoId == Some("") then None else initialVideoId;
    var d := Display(
      taskId, done, init,
      if done then "success" else "ready",
      if done then "분석 완료!" else "준비 중...",
      None, None, None);
    var commands := if taskId == "" then [] else if done then [FetchInfo] else [PollStatus];
    Step(d, commands)
  }

  /**
   * One event.  A poll reply stores the status and its message; `error` also
   * sets the analysis error, `success` schedules the hand-over, and a changed
   * status polls again at once.  A failed poll sets the status-query error.
   * A tick polls unless the status is `success` or `error`.  A fetched result
   * with video id -1 sets the not-found error; any other is stored with its
   * video id as a string; a failed fetch sets the load error.  Replies to
   * requests the mode never makes leave everything as it is, and no event
   * clears an error.
   */
  function Next(d: Display, e: Event): (r: Step)
    ensures r.next.taskId == d.taskId && r.next.done == d.done && r.next.initialVideoId == d.initialVideoId
    ensures d.error.Some? ==> r.next.error.Some?
    ensures MessageMatches(d) ==> MessageMatches(r.next)
    ensures ResultConsistent(d) ==> ResultConsistent(r.next)
    ensures PollStatus in r.commands ==> Polling(d)
    ensures FetchInfo !in r.commands
    ensures ScheduleDone(DoneDelayMs) in r.commands <==> Polling(d) && e == PollResult(Name(Success))
    ensures e.Tick? ==> r.next == d
    ensures e.Tick? ==> (PollStatus in r.commands <==> Polling(d) && !TickStops(d.status))
    ensures e.PollResult? && Polling(d) ==> r.next.status == e.status && r.next.statusMessage == StatusMessage(e.status)
    ensures e.PollResult? && Polling(d) ==> (PollStatus in r.commands <==> e.status != d.status)
    ensures e.PollResult? && Polling(d) && e.status == Name(Error) ==> r.next.error == Some(AnalysisFailedMessage)
    ensures e.PollResult? && Polling(d) && e.status != Name(Error) ==> r.next.error == d.error
    ensures e.PollResult? && Polling(d) ==> r.next.result == d.result && r.next.videoId == d.videoId
    ensures e.PollFailed? && Polling(d) ==> r.next == d.(error := Some(StatusQueryFailedMessage)) && r.commands == []
    ensures e.FetchResult? && Fetching(d) && IsSentinel(e.info.videoId) ==>
      r.next == d.(error := Some(NotFoundMessage)) && r.commands == []
    ensures e.FetchResult? && Fetching(d) && !IsSentinel(e.info.videoId) ==>
      r.next == d.(result := Some(e.info), videoId := Some(JsString(e.info.videoId))) && r.commands == []
    ensures e.FetchFailed? && Fetching(d) ==> r.next == d.(error := Some(LoadFailedMessage)) && r.commands == []
    ensures (e.PollResult? || e.PollFailed?) && !Polling(d) ==> r == Step(d, [])
    ensures (e.FetchResult? || e.FetchFailed?) && !Fetching(d) ==> r == Step(d, [])
  {
    match e
    case PollResult(status) =>
      if !Polling(d) then Step(d, [])
      else
        var next := d.(
          status := status,
          statusMessage := StatusMessage(status),
          error := if status == "error" then Some(AnalysisFailedMessage) else d.error);
        var timers := if status == "success" then [ScheduleDone(DoneDelayMs)] else [];
        // The effect depends on `status`: a new value re-runs it, and its first act is an unguarded poll.
        var rerun := if status != d.status then [PollStatus] else [];
        Step(next, timers + rerun)
    case PollFailed =>
      if !Polling(d) then Step(d, []) else Step(d.(error := Some(StatusQueryFailedMessage)), [])
    case Tick =>
      if Polling(d) && d.status != "success" && d.status != "error" then Step(d, [PollStatus]) else Step(d, [])
    case FetchResult(info) =>
      if !Fetching(d) then Step(d, [])
      else if IsSentinel(info.videoId) then Step(d.(error := Some(NotFoundMessage)), [])
      else Step(d.(result := Some(info), videoId := Some(JsString(info.videoId))), [])
    case FetchFailed =>
      if !Fetching(d) then Step(d, []) else Step(d.(error := Some(LoadFailedMessage)), [])
  }

  /** The event a settled status request delivers. */
  function PollEvent(reply: ApiResult<StatusResponse>): (e: Event)
    ensures e.PollResult? <==> reply.Ok?
    ensures reply.Ok? ==> e.status == reply.value.status
    ensures reply.Failed? ==> e == PollFailed
  {
    match reply
    case Ok(body) => PollResult(body.status)
    case Failed(_) => PollFailed
  }

  /** The event a settled result request delivers. */
  function FetchEvent(reply: ApiResult<AnalysisInfo>): (e: Event)
    ensures e.FetchResult? <==> reply.Ok?
    ensures reply.Ok? ==> e.info == reply.value
    ensures reply.Failed? ==> e == FetchFailed
  {
    match reply
    case Ok(body) => FetchResult(body)
    case Failed(_) => FetchFailed
  }

  /**
   * A status poll end to end: the request names the screen's task, an ok
   * reply's status becomes the screen's status, and any failure of the call
   * shows the status-query error and keeps the status.
   */
  lemma PolledStatusIsStored(d: Display, base: string, reply: HttpReply<StatusResponse>)
    requires Polling(d)
    ensures var x := GetTaskStatus(base, d.taskId, reply);
      var s := Next(d, PollEvent(x.result)).next;
      && x.request.url[|base| + |StatusPath|..] == d.taskId
      && (reply.Response? && reply.ok ==> s.status == reply.body.status && s.statusMessage == StatusMessage(reply.body.status))
      && (!(reply.Response? && reply.ok) ==> s.error == Some(StatusQueryFailedMessage) && s.status == d.status)
  {
  }

  /**
   * A result fetch end to end, on a screen without an error: an ok reply with
   * a real video id is shown as the result card, the sentinel as the
   * not-found error, and any failure of the call as the load error.
   */
  lemma FetchedResultIsShown(d: Display, base: string, reply: HttpReply<AnalysisInfo>)
    requires Fetching(d) && d.error.None?
    ensures var x := GetAnalysisInfo(base, d.taskId, reply);
      var s := Next(d, FetchEvent(x.result)).next;
      && x.request.url[|base| + |InfoPath|..] == d.taskId
      && (reply.Response? && reply.ok && !IsSentinel(reply.body.videoId) ==>
            View(s).ResultCard? && s.result == Some(reply.body))
      && (reply.Response? && reply.ok && IsSentinel(reply.body.videoId) ==> View(s) == ErrorCard(NotFoundMessage))
      && (!(reply.Response? && reply.ok) ==> View(s) == ErrorCard(LoadFailedMessage))
  {
  }

  /** A sequence of events applied in order, with every command they start. */
  function Run(d: Display, events: seq<Event>): Step
    decreases |events|
  {
    if |events| == 0 then Step(d, [])
    else
      var first := Next(d, events[0]);
      var rest := Run(first.next, events[1..]);
      Step(rest.next, first.commands + rest.commands)
  }

  // ---------------------------------------------------------------------------
  // Properties of runs
  // ---------------------------------------------------------------------------

  /**
   * Every state reached from a mount keeps its message in step with its
   * status and never holds a sentinel result; the route's inputs never change.
   */
  lemma {:induction false} RunKeepsInvariant(d: Display, events: seq<Event>)
    requires Invariant(d)
    ensures Invariant(Run(d, events).next)
    ensures Run(d, events).next.taskId == d.taskId
    ensures Run(d, events).next.done == d.done
    ensures Run(d, events).next.initialVideoId == d.initialVideoId
    decreases |events|
  {
    if |events| > 0 {
      RunKeepsInvariant(Next(d, events[0]).next, events[1..]);
    }
  }

  /** Once an error is shown it stays: no event clears it. */
  lemma {:induction false} ErrorIsSticky(d: Display, events: seq<Event>)
    requires d.error.Some?
    ensures Run(d, events).next.error.Some?
    ensures View(Run(d, events).next).ErrorCard?
    decreases |events|
  {
    if |events| > 0 {
      ErrorIsSticky(Next(d, events[0]).next, events[1..]);
    }
  }

  /** Done mode never polls: no step of a done-mode screen starts a status request. */
  lemma {:induction false} DoneModeNeverPolls(d: Display, events: seq<Event>)
    requires d.done
    ensures PollStatus !in Run(d, events).commands
    decreases |events|
  {
    if |events| > 0 {
      var first := Next(d, events[0]);
      DoneModeNeverPolls(first.next, events[1..]);
    }
  }

  /** An event that leaves the status where it is: anything but a poll reply carrying another status. */
  predicate KeepsStatus(e: Event, status: string) {
    e.PollResult? ==> e.status == status
  }

  /**
   * After `success` or `error`, ticks and failures start no poll; only a reply
   * that changes the status again restarts polling.
   */
  lemma {:induction false} StoppedStatusStaysQuiet(d: Display, events: seq<Event>)
    requires TickStops(d.status)
    requires forall i :: 0 <= i < |events| ==> KeepsStatus(events[i], d.status)
    ensures PollStatus !in Run(d, events).commands
    ensures Run(d, events).next.status == d.status
    decreases |events|
  {
    if |events| > 0 {
      var first := Next(d, events[0]);
      StoppedStatusStaysQuiet(first.next, events[1..]);
    }
  }

  /**
   * As written, a `success` reply that changes the status both schedules the
   * hand-over and polls again at once, despite the tick's guard.
   */
  lemma SuccessPollsAgain(d: Display)
    requires Polling(d) && d.status != Name(Success)
    ensures Next(d, PollResult(Name(Success))).commands == [ScheduleDone(DoneDelayMs), PollStatus]
  {
  }

  /**
   * As written, two `success` replies in a row (the second answering the
   * extra poll) schedule the hand-over to done mode twice.
   */
  lemma SuccessTwiceSchedulesTwoHandOvers(taskId: string, initialVideoId: Option<string>)
    requires taskId != ""
    ensures var m := Mount(taskId, initialVideoId, false);
      m.commands + Run(m.next, [PollResult(Name(Success)), PollResult(Name(Success))]).commands
      == [PollStatus, ScheduleDone(DoneDelayMs), PollStatus, ScheduleDone(DoneDelayMs)]
  {
    var m := Mount(taskId, initialVideoId, false);
    var e := PollResult(Name(Success));
    var s1 := Next(m.next, e);
    var s2 := Next(s1.next, e);
    assert [e, e][1..] == [e];
    assert [e][1..] == [];
    assert Run(s2.next, []).commands == [];
    assert Run(s1.next, [e]).commands == s2.commands;
    assert Run(m.next, [e, e]).commands == s1.commands + s2.commands;
  }

  /** `toolong` is not handled as final: a tick in that status polls again. */
  lemma TooLongKeepsPolling(d: Display)
    requires Polling(d) && d.status == "toolong"
    ensures Next(d, Tick).commands == [PollStatus]
    ensures Next(d, PollResult("toolong")).next.statusMessage == FallbackMessage
  {
  }

  // ---------------------------------------------------------------------------
  // Rendering
  // ---------------------------------------------------------------------------

  datatype Icon = CheckMark | CrossMark

  /** The safety verdict's presentation: the circle's colour, the icon drawn in it, and the title. */
  datatype Verdict = Verdict(safe: bool, colour: string, icon: Icon, title: string)

  /** What the screen draws. */
  datatype Screen =
    | ErrorCard(message: string)
    | Progress(thumbnail: Option<string>, message: string)
    | Loading(message: string)
    | ResultCard(thumbnail: Option<string>, verdict: Verdict, scoreText: string, description: string, tags: seq<string>, showTags: bool)

  const SafeColour := "#10b981"
  const UnsafeColour := "#ef4444"
  const SafeTitle := "이 영상은 안전합니다!"
  const UnsafeTitle := "주의가 필요한 영상입니다"

  /** The safety split: a score of 50 or more is safe. */
  function IsSafe(score: int): bool {
    score >= 50
  }

  /** The verdict for a score: colour, icon and title all follow the safety split. */
  function VerdictFor(score: int): (v: Verdict)
    ensures v.safe <==> score >= 50
    ensures v.safe ==> v.colour == SafeColour && v.icon == CheckMark && v.title == SafeTitle
    ensures !v.safe ==> v.colour == UnsafeColour && v.icon == CrossMark && v.title == UnsafeTitle
  {
    if IsSafe(score) then Verdict(true, SafeColour, CheckMark, SafeTitle)
    else Verdict(false, UnsafeColour, CrossMark, UnsafeTitle)
  }

  /** Two scores on the same side of the split are presented identically. */
  lemma VerdictDependsOnSafetyAlone(s1: int, s2: int)
    requires IsSafe(s1) == IsSafe(s2)
    ensures VerdictFor(s1) == VerdictFor(s2)
  {
  }

  const ThumbnailPrefix := "https://i.ytimg.com/vi/"
  const ThumbnailSuffix := "/hq720.jpg"

  /** The thumbnail image for a video id; an absent or empty id has none. */
  function ThumbnailUrl(videoId: Option<string>): (r: Option<string>)
    ensures r.Some? <==> videoId.Some? && videoId.value != ""
    ensures r.Some? ==> |r.value| == |ThumbnailPrefix| + |videoId.value| + |ThumbnailSuffix|
    ensures r.Some? ==> r.value[..|ThumbnailPrefix|] == ThumbnailPrefix
    ensures r.Some? ==> r.value[|ThumbnailPrefix|..|ThumbnailPrefix| + |videoId.value|] == videoId.value
    ensures r.Some? ==> r.value[|ThumbnailPrefix| + |videoId.value|..] == ThumbnailSuffix
  {
    match videoId
    case Some(id) => if id == "" then None else Some(ThumbnailPrefix + id + ThumbnailSuffix)
    case None => None
  }

  /** Distinct video ids never share a thumbnail: the id is carried whole between prefix and suffix. */
  lemma ThumbnailUrlInjective(a: Option<string>, b: Option<string>)
    requires ThumbnailUrl(a).Some? && ThumbnailUrl(a) == ThumbnailUrl(b)
    ensures a == b
  {
    var u := ThumbnailUrl(a).value;
    assert a.value == u[|ThumbnailPrefix|..|ThumbnailPrefix| + |a.value|];
  }

  /**
   * `render`: an error beats everything; then processing mode shows the
   * progress message (with the thumbnail of the id handed over by the form);
   * then done mode without a result shows the loading message; otherwise the
   * result card, whose tag row appears only when there are tags.  Every error
   * the screen sets is a non-empty message, so the truthiness test on the
   * error is a presence test.
   */
  function View(d: Display): (s: Screen)
    ensures s.ErrorCard? <==> d.error.Some?
    ensures s.ErrorCard? ==> s.message == d.error.value
    ensures s.Progress? <==> d.error.None? && !d.done
    ensures s.Progress? ==> s.thumbnail == ThumbnailUrl(d.initialVideoId) && s.message == d.statusMessage
    ensures s.Loading? <==> d.error.None? && d.done && d.result.None?
    ensures s.ResultCard? <==> d.error.None? && d.done && d.result.Some?
    ensures s.ResultCard? ==> s.verdict == VerdictFor(d.result.value.score)
    ensures s.ResultCard? ==> s.tags == NormaliseTags(d.result.value.tags) && (s.showTags <==> |s.tags| > 0)
    ensures s.ResultCard? ==> s.thumbnail == ThumbnailUrl(d.videoId) && s.description == d.result.value.description
  {
    if d.error.Some? then ErrorCard(d.error.value)
    else if !d.done then Progress(ThumbnailUrl(d.initialVideoId), d.statusMessage)
    else if d.result.None? then Loading(LoadingMessage)
    else
      var info := d.result.value;
      var tags := NormaliseTags(info.tags);
      ResultCard(ThumbnailUrl(d.videoId), VerdictFor(info.score), IntToString(info.score) + "/100",
                 info.description, tags, |tags| > 0)
  }

  /**
   * On every screen reached from a mount, a result card shows a result whose
   * video id is not the sentinel, and its thumbnail is that id's image.
   */
  lemma SentinelNeverRendered(taskId: string, initialVideoId: Option<string>, done: bool, events: seq<Event>)
    ensures var d := Run(Mount(taskId, initialVideoId, done).next, events).next;
      View(d).ResultCard? ==>
        && !IsSentinel(d.result.value.videoId)
        && View(d).thumbnail == ThumbnailUrl(Some(JsString(d.result.value.videoId)))
  {
    RunKeepsInvariant(Mount(taskId, initialVideoId, done).next, events);
  }

  /** A result fetched with video id -1 shows the not-found error and stores nothing. */
  lemma SentinelFetchShowsNotFound(d: Display, info: AnalysisInfo)
    requires Fetching(d) && d.error.None? && IsSentinel(info.videoId)
    ensures View(Next(d, FetchResult(info)).next) == ErrorCard(NotFoundMessage)
    ensures Next(d, FetchResult(info)).next.result == d.result
  {
  }
}
