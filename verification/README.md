# YouTube video analysis client, modelled in Dafny

The client lets a user paste a YouTube link and submit it for analysis. The
analysis service answers with a task id. The client then polls the task's
status until the analysis has finished, and finally fetches the result: a
safety score, a description and a comma-separated tag list. This project
models the client's core in Dafny and proves properties about it. The core
is the link form (`AnalyzeForm`), the progress/result screen
(`ResultsDisplay`) and the service client (`apiService`).

Modules:

- `Strings` (strings.dfy) covers the JavaScript string operations the
  client relies on: `includes`, `trim` over the ECMAScript whitespace set,
  `split` and `join` on one character, and `String(n)` for integers.
- `Api` (api.dfy) covers the status vocabulary and its display messages,
  the three requests, and the rule that turns an HTTP reply into a body or
  an `API error: <status>` failure. Replies are parameters.
- `LinkParser` (link_parser.dfy) models `extractVideoId`. Its three regular
  expressions are stated as leftmost-match predicates with a greedy capture.
- `SubmitForm` (submit_form.dfy) models `handleSubmit`: the three checks in
  order, the submit call, and the hand-over to the parent.
- `Tags` (tags.dfy) models the tag row:
  `tags.split(',').map(t => t.trim()).filter(t => t)`.
  `TagExamples` (tag_examples.dfy) works through one concrete tag text.
- `Results` (results.dfy) models the screen as a state record. A step
  function takes each poll reply, fetch reply or timer tick, and returns the
  new state and the requests and timers that step starts. `View` chooses what
  is drawn.

The step follows the code as written. In the intended design, polling stops
for good once a terminal status (`success`, `error`, `toolong`) is seen,
`toolong` is terminal, and `success` triggers exactly one "done"
transition. The code behaves differently in two ways:

- The polling effect depends on `status`. Any change of status re-runs the
  effect, and the re-run polls at once without looking at the status.
  `Results.SuccessPollsAgain` and `Results.SuccessTwiceSchedulesTwoHandOvers`
  prove the consequences.
- The code's status type has no `toolong`. It is shown with the fallback
  message and is polled again on every tick (`Results.TooLongKeepsPolling`).

What the code does guarantee is proved: the interval's own guard
(`Results.StoppedStatusStaysQuiet`) and the fact that done mode never polls.

## Model

| member | source | states |
|---|---|---|
| Strings.Trim | src/components/AnalyzeForm.tsx:33 | `trim()` returns a string with no whitespace at either end. The result is empty exactly when the input is blank (the form's "enter a link" test), and an already trimmed string is returned unchanged. |
| Strings.TrimOffset | src/components/AnalyzeForm.tsx:33 | the trimmed text sits inside the input with only whitespace before it and only whitespace after it, so `trim` removes leading and trailing whitespace and nothing else |
| Strings.TrimUnique | src/components/AnalyzeForm.tsx:33 | a non-empty text with no whitespace at its ends, padded by whitespace on both sides, trims back to exactly itself; with `Strings.TrimOffset` this fixes the result of `trim` completely |
| Strings.TrimInfix | src/components/ResultsDisplay.tsx:126 | the trimmed text occurs contiguously in the original, so it has no character the original lacks; in particular a trimmed tag has no comma |
| Strings.Split | src/components/ResultsDisplay.tsx:126 | `split(',')` returns at least one piece (`""` gives `[""]`), and no piece holds the separator. Joining the pieces with the separator gives back the input. |
| Strings.SplitJoin | src/components/ResultsDisplay.tsx:126 | splitting a join of separator-free pieces gives back exactly those pieces, so split and join are inverse |
| Strings.SplitAppend | src/components/ResultsDisplay.tsx:126 | splitting two texts glued by one separator gives the pieces of the first followed by the pieces of the second |
| Strings.IntToStringRoundTrip | src/components/AnalyzeForm.tsx:54 | `String(n)` of an integer-valued task id reads back as the same integer, so distinct numeric ids give distinct strings |
| Strings.IntToStringMinusOne | src/components/AnalyzeForm.tsx:50 | the only number whose string form is `"-1"` is -1 |
| Strings.NatToString | src/components/AnalyzeForm.tsx:54 | the decimal form of a natural number is a non-empty digit string of two or more digits exactly from 10 up, and starts with `0` only for zero itself, so it has no leading zeros |
| Api.Parse | src/services/apiService.ts:3 | a recognised status string is the wire name of that status |
| Api.ParseName | src/services/apiService.ts:3 | every one of the seven statuses is recognised under its own name |
| Api.StatusMessage | src/services/apiService.ts:58-69 | `getStatusMessage` is total: a known status gets its table entry, and any other string gets `처리 중...` |
| Api.MessageIdentifiesStatus | src/services/apiService.ts:59-68 | the seven messages and the fallback are pairwise distinct, so the message shown identifies the status; an unknown status is never shown as a known one |
| Api.SameMessageSameStatus | src/services/apiService.ts:58-69 | two status strings that get the same message are the same known status, or both unknown |
| Api.JsStringSentinel | src/components/AnalyzeForm.tsx:50-54 | an id whose `String` form is `"-1"` is exactly the sentinel, sent either as the number -1 or as the string "-1" |
| Api.SubmitRequest | src/services/apiService.ts:22-26 | the submit call is a JSON POST to the base URL followed by `/ai_request.php`, and its body carries the video id |
| Api.QueryRequest | src/services/apiService.ts:35-38 | a status or result query is a JSON GET whose URL is the base, then the path, then the task id inserted verbatim |
| Api.QueryUrlInjective | src/services/apiService.ts:35 | distinct task ids never share a query URL |
| Api.Settle | src/services/apiService.ts:27-30 | a call yields a body exactly when the response is ok, and that body is the response's. A non-ok response fails with `API error: ` followed by its status code, and a failure before any response passes its own error through. |
| Api.SettleNamesStatus | src/services/apiService.ts:27-29 | the error of a non-ok response starts with `API error: `, and the rest reads back as the response's status code |
| Api.SubmitAnalysis | src/services/apiService.ts:21-31 | `submitAnalysis` sends the submit request and yields the reply body exactly on an ok response |
| Api.GetTaskStatus | src/services/apiService.ts:34-43 | `getTaskStatus` sends the status query for the task and yields the body exactly on an ok response |
| Api.GetAnalysisInfo | src/services/apiService.ts:46-55 | `getAnalysisInfo` sends the result query for the task and yields the body exactly on an ok response |
| LinkParser.FirstMatchFrom | src/components/AnalyzeForm.tsx:22 | the scan finds the first position at or after its start where the pattern matches, or reports that none exists |
| LinkParser.MatchShape | src/components/AnalyzeForm.tsx:22-25 | a capture exists exactly when the pattern matches somewhere. It is the maximal run of allowed characters after the leftmost match of the prefix, and it is never empty. |
| LinkParser.MatchShapeDetermined | src/components/AnalyzeForm.tsx:17-19 | the leftmost match and the greedy run determine the capture uniquely |
| LinkParser.ExtractVideoId | src/components/AnalyzeForm.tsx:15-28 | no id is found exactly when none of the three patterns matches. Otherwise the first pattern in list order that matches decides the id, and the id is never empty. |
| LinkParser.ExtractedLinkNamesHost | src/components/AnalyzeForm.tsx:16-19 | every link from which an id is extracted contains `youtube.com` or `youtu.be` |
| LinkParser.IdStopsAtShapeDelimiter | src/components/AnalyzeForm.tsx:17-19 | a `watch?v=` id holds no `&`; an `embed/` or `youtu.be/` id holds no `?` |
| LinkParser.ShapeOrderBeatsPosition | src/components/AnalyzeForm.tsx:21-26 | the pattern order beats the position in the link: a later `watch?v=` match wins over an earlier `youtu.be/` |
| LinkParser.WatchLink | src/components/AnalyzeForm.tsx:17 | the id of a `watch?v=` link ends at the first `&` |
| LinkParser.EmbedLink | src/components/AnalyzeForm.tsx:18 | the id of an `embed/` link ends at the first `?` |
| LinkParser.ShortLink | src/components/AnalyzeForm.tsx:19 | the id of a `youtu.be/` link ends at the first `?` |
| SubmitForm.Validate | src/components/AnalyzeForm.tsx:33-45 | blank text gets the "enter a link" message. Any other text passes exactly when an id can be extracted, and then the extracted id is used. Otherwise it gets the "invalid link" message. |
| SubmitForm.HandleSubmit | src/components/AnalyzeForm.tsx:30-60 | a failed check shows its message and posts nothing; otherwise the extracted id is posted while the form is submitting. The task is handed over, as `String(taskid)` with the posted id, exactly when the call succeeds with a non-sentinel id, and exactly when no error is left. The sentinel gives the rejection message, a failed call the connection message, and after a post the form is no longer submitting, whatever the reply. |
| SubmitForm.SubmitCallCarriesPostedId | src/components/AnalyzeForm.tsx:47-54 | the submit request carries the posted id, and the task is handed over exactly when the service answered ok with a task id other than -1 |
| SubmitForm.BlankNeverPosts | src/components/AnalyzeForm.tsx:33-36 | blank text never starts a request or a hand-over, and never marks the form as submitting |
| SubmitForm.HandOffNeverSentinel | src/components/AnalyzeForm.tsx:50-54 | the parent never receives the task id `"-1"` |
| SubmitForm.HandOffCarriesExtractedId | src/components/AnalyzeForm.tsx:41-54 | the video id handed to the parent is the one the link parser extracted |
| SubmitForm.HostCheckSubsumed | src/components/AnalyzeForm.tsx:37-45 | every link the host check rejects would also fail extraction, so the host check rejects nothing extra |
| Tags.TrimAll | src/components/ResultsDisplay.tsx:126 | `map(t => t.trim())` keeps the number of pieces, and each piece is trimmed in place |
| Tags.DropEmpty | src/components/ResultsDisplay.tsx:126 | `filter(t => t)` keeps exactly the non-empty strings |
| Tags.DropEmptyAppend | src/components/ResultsDisplay.tsx:126 | filtering distributes over concatenation, so the kept tags stay in their original order |
| Tags.DropEmptyFixed | src/components/ResultsDisplay.tsx:126 | a list with no empty string passes the filter unchanged |
| Tags.TrimAllFixed | src/components/ResultsDisplay.tsx:126 | pieces that are already trimmed are left as they are |
| Tags.NormaliseTags | src/components/ResultsDisplay.tsx:126 | every tag shown is non-empty, trimmed and comma-free, and every non-blank piece of the text is shown trimmed |
| Tags.PiecesOfTags | src/components/ResultsDisplay.tsx:126 | each tag that survives the filter is the trim of some piece of the text, and is non-empty, trimmed and comma-free; every non-blank piece survives trimmed |
| Tags.TrimAllAppend | src/components/ResultsDisplay.tsx:126 | trimming each piece distributes over concatenation of the piece lists |
| Tags.NormaliseTagsPiece | src/components/ResultsDisplay.tsx:126 | a comma-free text gives no tag when blank and its trim as the only tag otherwise |
| Tags.NormaliseTagsAppend | src/components/ResultsDisplay.tsx:126 | the tags of two texts joined by a comma are the first text's tags followed by the second's, so with `Tags.NormaliseTagsPiece` the tags are exactly the trimmed non-blank pieces, in text order, repeats kept |
| Tags.NormaliseTagsIdempotent | src/components/ResultsDisplay.tsx:126 | joining the shown tags with commas and normalising again gives the same tags |
| TagExamples.NormaliseTagsExample | src/components/ResultsDisplay.tsx:126 | for any three characters that are neither whitespace nor commas, the text `x, y ,,z` shows the tags `x`, `y`, `z` in that order |
| Results.Mount | src/components/ResultsDisplay.tsx:15-77 | The first state has status `ready` in processing mode and `success` in done mode, with the matching message. It has no error, result or video id, and an empty initial video id counts as absent. Mounting starts one status poll in processing mode, one result fetch in done mode, and nothing without a task id. |
| Results.Next | src/components/ResultsDisplay.tsx:23-77 | A poll reply stores the status and its message. `error` sets the analysis error, and `success` schedules the hand-over after 1000 ms. A poll is started again exactly when the status changed. A tick polls exactly when the status held is neither `success` nor `error`. A sentinel result sets the not-found error; any other is stored with its id as a string. Failures set their own messages. No step clears an error, changes the route inputs, or fetches again, and replies to requests the mode never makes change nothing. |
| Results.PollEvent | src/components/ResultsDisplay.tsx:26-43 | a settled status call delivers the status it carried, or a failure |
| Results.FetchEvent | src/components/ResultsDisplay.tsx:62-74 | a settled result call delivers the result it carried, or a failure |
| Results.PolledStatusIsStored | src/components/ResultsDisplay.tsx:26-43 | a status poll asks about the screen's own task; an ok reply's status and its message are stored, and any failed call shows the status-query error and keeps the status |
| Results.FetchedResultIsShown | src/components/ResultsDisplay.tsx:62-74 | a result fetch asks about the screen's own task; an ok reply with a real video id is shown as the result card, id -1 as the not-found error, and any failed call as the load error |
| Results.RunKeepsInvariant | src/components/ResultsDisplay.tsx:26-77 | in every state reached, the message belongs to the status held, and a stored result is a non-sentinel result of done mode whose id is the video id. The route inputs never change. |
| Results.ErrorIsSticky | src/components/ResultsDisplay.tsx:82-93 | once an error is set, every later state still has one and draws the error card |
| Results.DoneModeNeverPolls | src/components/ResultsDisplay.tsx:24 | no sequence of events makes a done-mode screen start a status request |
| Results.StoppedStatusStaysQuiet | src/components/ResultsDisplay.tsx:49-53 | while the status stays `success` or `error`, ticks and failures start no poll |
| Results.SuccessPollsAgain | src/components/ResultsDisplay.tsx:45-56 | as written, a `success` reply that changes the status schedules the hand-over and also polls again at once |
| Results.SuccessTwiceSchedulesTwoHandOvers | src/components/ResultsDisplay.tsx:32-56 | as written, a mount followed by two `success` replies issues two polls after the first and schedules the hand-over twice |
| Results.TooLongKeepsPolling | src/components/ResultsDisplay.tsx:50 | a `toolong` status is polled again on every tick and is shown with the fallback message |
| Results.VerdictFor | src/components/ResultsDisplay.tsx:127-147 | a score of 50 or more is safe and is drawn green with a check mark and the "safe" title; a lower score is drawn red with a cross and the "caution" title |
| Results.VerdictDependsOnSafetyAlone | src/components/ResultsDisplay.tsx:127 | two scores on the same side of 50 are presented identically |
| Results.ThumbnailUrl | src/components/ResultsDisplay.tsx:79 | a thumbnail exists exactly for a present, non-empty id. Its URL is the `i.ytimg.com/vi/` prefix, the id, then `/hq720.jpg`. |
| Results.ThumbnailUrlInjective | src/components/ResultsDisplay.tsx:79 | two ids that get the same thumbnail are the same id |
| Results.View | src/components/ResultsDisplay.tsx:79-163 | An error beats everything. Processing mode then shows the progress message with the thumbnail of the id handed over by the form. Done mode shows the loading message until a result exists, and then the result card. The card has the verdict, the description, the thumbnail of the stored id and the normalised tags, and its tag row appears exactly when there are tags. |
| Results.SentinelNeverRendered | src/components/ResultsDisplay.tsx:65-70 | no screen reached from a mount shows a result card for the sentinel id, and a result card's thumbnail is the image of the fetched id |
| Results.SentinelFetchShowsNotFound | src/components/ResultsDisplay.tsx:65-68 | a fetched result with id -1 shows the not-found error and stores nothing |

## Left out

- HTTP, `fetch`, JSON parsing and the base URL taken from the environment. Each call's reply is a parameter. A malformed body and a transport failure both arrive as a failed call.
- React itself: rendering, state batching, the effects' clean-up and the timers' real timing. Timers are commands and ticks are events. The interval being restarted when the effect re-runs only shifts tick times, so it is not modelled.
- Results.Next: when the parent passes a new `onDone` function on every render, the polling effect re-runs on every render and polls once more each time. The model treats `onDone` as fixed.
- Results.Next: the hand-over to done mode is a `ScheduleDone` command. What `onDone` then does (the route change, and nothing when the callback is absent) belongs to the parent, which is not part of this model.
- Results.Next: a reply that arrives after the screen has gone is not modelled.
- Concurrent poll requests in flight are not modelled. Events are applied one at a time, in arrival order.
- Markup, CSS, the "new analysis" button and `dangerouslySetInnerHTML`. The description is carried as it is.
- App.tsx, Header.tsx and vite-env.d.ts are not part of this model.
- Strings.IntToString: JavaScript numbers are modelled as integers. Fractions, exponent notation, `NaN` and the precision limit of doubles are not modelled.
- Api.StatusMessage: a status string that names an inherited property of JavaScript objects (such as `constructor`) would look up that property instead of the fallback. The model gives such strings the fallback message.
- Strings.Trim: JavaScript strings are UTF-16 code units, and the model uses Unicode scalar values. The whitespace set is the same, and the link shapes and separators are ASCII, so the results agree on well-formed text. Lone surrogates are not modelled.
- Api.SubmitRequest: the body is the value `{id: videoId}`. How `JSON.stringify` escapes it is not modelled.
