# Email reply writer — reply workflow model

This project models the reply-generation screen of the AI email writer
(`Frontend/src/pages/Index.tsx`). The user pastes an email, picks a tone and
asks for a reply. The screen posts both to the backend and shows the returned
text, or a hard-coded fallback reply when the call fails. The user can then
edit, copy, download or clear the reply. Under the text areas the screen shows
character and word counts.

The model has three modules:

- `Text` (`text.dfy`) holds the text functions the screen uses. `Trim` models
  `String.prototype.trim`. `Split` models `split(/\s+/)`, `NonEmpty` models
  `filter(word => word.length > 0)`, and `WordCount` and `CharCount` are the
  two counters. `Runs` is an independent reference definition of the words:
  the maximal non-whitespace runs, left to right, built one character at a
  time. `RunCount` counts them the same way. Lemmas connect the reference
  definitions to the split-and-filter ones.
- `Workflow` (`workflow.dfy`) is the screen as a state machine. `State` holds
  the six React state fields. `Session` adds the requests still in flight, the
  "copied" reset timers still scheduled and the clipboard writes still
  pending. `Event` lists every user action, settled promise and timer expiry.
  There is one function per handler in the source. An `async` handler is
  split into a function for the part that runs on the click and a function
  for the part that runs once its awaited promises settle. `generateReply`
  awaits twice, for the response (`Index.tsx:49`) and for its body
  (`Index.tsx:64`). Both awaits end in one completion event. Nothing on the
  screen changes between them, because the non-2xx throw (`Index.tsx:60-61`)
  comes before the second await. `Possible`
  says which events the screen can deliver in a session: a disabled button
  cannot be clicked, and a hidden card has no buttons.
  `Dispatch` applies an event, and `Run` applies a sequence of events. Each
  transition also returns its outward effects: toasts, the POST, the clipboard
  write and the file save.
- `WorkflowProperties` (`properties.dfy`) holds the properties. They cover the
  input gate, the generation round trip, the never-empty guarantee, an
  invariant of every reachable session, and the races the code leaves open.
  They also cover a successful and a rejected request, end to end, and two
  word-count examples.

The HTTP outcome (`Responded(status, body)` or `Rejected`) and the clipboard
outcome (`CopySettles(written)`) are inputs carried by the events. A network
completion, a settled clipboard write and a timer expiry are explicit events
in the sequence. The model has no clock and no concurrency.

## Behaviour the code leaves open

The code leaves the following cases unguarded. The model keeps each one as
written and proves what it leads to.

- Tone validation checks only that the tone is non-empty
  (`Index.tsx:35`). It does not check that the tone is in the catalogue. The
  select control offers only catalogued tones, so every reachable tone is
  catalogued or empty (`WorkflowProperties.ReachableConsistent`).
- No guard keeps only the latest request's result. Whichever completion
  arrives last sets the reply (`WorkflowProperties.LastCompletionWins`).
- The 2-second reset timer is never cancelled (`Index.tsx:107`). An older
  timer clears the copied flag after a newer copy
  (`WorkflowProperties.StaleTimerClearsNewerCopy`).
- Only the button looks at `isLoading` (`Index.tsx:215`). Ctrl+Enter starts a
  second request while one is pending
  (`WorkflowProperties.ShortcutStartsWhileLoading`). The first completion then
  clears the loading flag while the other request is still in flight
  (`WorkflowProperties.LoadingClearedWhileInFlight`).
- The clipboard write settles after the click (`Index.tsx:101`). Clearing the
  screen in between does not stop it: the old reply reaches the clipboard and
  the copied flag rises on the cleared screen
  (`WorkflowProperties.CopySettlesAfterClear`).
- The response is read as raw text (`Index.tsx:64`), not as the declared
  `ApiResponse { reply }` shape. The model uses the raw body unchanged.

## Model

| member | source | states |
|---|---|---|
| Text.Trim | Frontend/src/pages/Index.tsx:35 | the trimmed email is the slice of the email between a blank prefix and a blank suffix; it is empty exactly when the email is all whitespace, and otherwise starts and ends with a non-whitespace character |
| Text.Split | Frontend/src/pages/Index.tsx:256 | `split(/\s+/)` yields at least one piece, and exactly one when the text has no whitespace; no piece contains whitespace; the first or last piece is empty exactly when the text is empty or starts or ends with whitespace; inner pieces are non-empty |
| Text.NonEmpty | Frontend/src/pages/Index.tsx:256 | the filter drops every empty piece and keeps every non-empty piece as often as it occurs, and never adds pieces |
| Text.NonEmptyAppend | Frontend/src/pages/Index.tsx:256 | filtering a concatenation is the concatenation of the filtered parts, so the filter keeps the order of the pieces |
| Text.Words | Frontend/src/pages/Index.tsx:256 | every counted word is non-empty and contains no whitespace |
| Text.Runs | Frontend/src/pages/Index.tsx:256 | the reference list of words, the maximal non-whitespace runs in order, is empty exactly for a blank text and has as many entries as the reference run count |
| Text.WordsAreRuns | Frontend/src/pages/Index.tsx:256 | splitting on whitespace and dropping empty pieces gives exactly the maximal non-whitespace runs, in order, so the text is cut only at whitespace runs |
| Text.WordsMatchRuns | Frontend/src/pages/Index.tsx:256 | the number of words equals the number of maximal non-whitespace runs, an independent count of the text |
| Text.WordCount | Frontend/src/pages/Index.tsx:256 | the displayed word count is the number of maximal non-whitespace runs; it is 0 exactly for an empty or all-whitespace text, and at most half the character count, rounded up |
| Text.CharCount | Frontend/src/pages/Index.tsx:186 | the displayed character count is the number of characters in the words plus the number of whitespace characters, and it is 0 only for the empty text |
| Text.SqueezeSpaces | Frontend/src/pages/Index.tsx:186 | every character is either a non-whitespace character kept by deleting whitespace or a whitespace character, never both and never neither |
| Text.WordsKeepContent | Frontend/src/pages/Index.tsx:256 | joining the words gives back the text with its whitespace deleted, so tokenising loses only whitespace |
| Text.LeadingWhitespaceIgnored | Frontend/src/pages/Index.tsx:256 | leading whitespace does not change the list of words |
| Text.TrailingWhitespaceIgnored | Frontend/src/pages/Index.tsx:256 | trailing whitespace does not change the word count |
| Text.WordCountJoin | Frontend/src/pages/Index.tsx:256 | cutting a text just after a whitespace character splits its word count into the counts of the two parts |
| Text.WordCountSolid | Frontend/src/pages/Index.tsx:256 | a non-empty text without whitespace counts as one word |
| Text.TrimNonEmptyIffWords | Frontend/src/pages/Index.tsx:35 | the validation trim is non-empty exactly when the word counter would show at least one word |
| Workflow.IsOk | Frontend/src/pages/Index.tsx:60 | a response counts as successful exactly when its status is a 2xx code |
| Workflow.FallbackReply | Frontend/src/pages/Index.tsx:81-90 | the fallback reply opens with the salutation `Dear [Recipient],`, ends with `Best regards,` over `[Your Name]`, and is never blank |
| Workflow.CanGenerate | Frontend/src/pages/Index.tsx:35 | validation passes exactly when the email has a non-whitespace character, that is at least one word, and a tone is chosen |
| Workflow.ButtonEnabled | Frontend/src/pages/Index.tsx:215 | the generate button is enabled exactly when the email has a non-whitespace character, a tone is chosen and nothing is loading |
| Workflow.ReplyFor | Frontend/src/pages/Index.tsx:60-93 | a 2xx response's body is used verbatim; any other status or a rejection gives the fallback reply; the result is empty only for an empty success body |
| Workflow.GenerateReply | Frontend/src/pages/Index.tsx:34-58 | invalid input leaves the session unchanged and raises only the "Missing Information" destructive toast; valid input raises `isLoading`, posts `{originalEmail, tone}`, and changes nothing else |
| Workflow.CompleteReply | Frontend/src/pages/Index.tsx:59-96 | a completion shows the output and clears `isLoading`; the reply is the body on success and the fallback otherwise; email, tone and `isCopied` are kept; the toast kind tells success from failure |
| Workflow.CopyToClipboard | Frontend/src/pages/Index.tsx:99-101 | a click on copy hands the reply shown at that moment to the clipboard and leaves one more write pending, with the screen unchanged |
| Workflow.SettleCopy | Frontend/src/pages/Index.tsx:102-114 | when a pending write succeeds, `isCopied` rises and one reset timer is scheduled, with nothing else changed; when it fails, only the pending write is gone and the toast is destructive |
| Workflow.ExpireCopiedTimer | Frontend/src/pages/Index.tsx:107 | a timer expiry lowers `isCopied` whatever copy scheduled it, and changes nothing else |
| Workflow.DownloadReply | Frontend/src/pages/Index.tsx:117-132 | download saves exactly the reply as `email-reply.txt` of type `text/plain`, announces it, and changes no state |
| Workflow.ClearAllFields | Frontend/src/pages/Index.tsx:134-140 | clear-all resets email, tone, reply, `showOutput` and `isCopied` to their initial values and keeps `isLoading` |
| Workflow.HandleKeyPress | Frontend/src/pages/Index.tsx:142-146 | Ctrl+Enter runs exactly the generate handler; any other key changes nothing |
| Workflow.SetEmail | Frontend/src/pages/Index.tsx:180 | typing in the email area replaces only the email |
| Workflow.SetTone | Frontend/src/pages/Index.tsx:195 | choosing a tone replaces only the tone |
| Workflow.SetReply | Frontend/src/pages/Index.tsx:248 | editing the reply replaces only the reply |
| Workflow.Possible | Frontend/src/pages/Index.tsx:199-234 | a click on generate is possible exactly when the input gate passes and nothing is loading; a tone can be chosen exactly when it is one of the six offered; copy, download, clear and reply editing are possible exactly while the output card is shown; the email area and its shortcut are always live |
| Workflow.Step | Frontend/src/pages/Index.tsx:180-288 | the generate button runs the same handler as Ctrl+Enter; each state field changes only through the controls and callbacks bound to its setter; only a generate attempt puts a new request in flight |
| WorkflowProperties.ClickStartsIffEnabled | Frontend/src/pages/Index.tsx:213-215 | a click starts a request exactly when the button is enabled, that is when input is valid and nothing is loading; a click on a disabled button does nothing |
| WorkflowProperties.InvalidAttemptChangesNothing | Frontend/src/pages/Index.tsx:35-42 | an invalid attempt by button or Ctrl+Enter changes no field and sends no request |
| WorkflowProperties.ShortcutStartsWhileLoading | Frontend/src/pages/Index.tsx:142-146 | while loading, the button is inert, but Ctrl+Enter sends another request |
| WorkflowProperties.StartThenComplete | Frontend/src/pages/Index.tsx:44-96 | start followed by completion restores the in-flight count, clears loading, shows the body or fallback, and keeps the inputs and `isCopied` |
| WorkflowProperties.CompletionNeverLeavesScreenEmpty | Frontend/src/pages/Index.tsx:60-96 | after any completion, the output is visible, loading is off, and the reply is the body or the non-empty fallback |
| WorkflowProperties.LastCompletionWins | Frontend/src/pages/Index.tsx:58-96 | with two requests in flight, the one that settles last decides the reply |
| WorkflowProperties.LoadingClearedWhileInFlight | Frontend/src/pages/Index.tsx:94-96 | the first of two completions clears `isLoading` while a request is still in flight |
| WorkflowProperties.CopySucceeds | Frontend/src/pages/Index.tsx:99-107 | a copy click whose write succeeds raises `isCopied` and schedules one reset timer, and changes nothing else |
| WorkflowProperties.CopyThenExpire | Frontend/src/pages/Index.tsx:99-107 | a successful copy followed by its timer's expiry restores the session with `isCopied` down |
| WorkflowProperties.FailedCopyChangesNothing | Frontend/src/pages/Index.tsx:99-114 | a copy whose write fails still hands the reply to the clipboard, reports "Copy Failed", and leaves the session as it was |
| WorkflowProperties.StaleTimerClearsNewerCopy | Frontend/src/pages/Index.tsx:107 | after two copies, the first timer's expiry lowers `isCopied` while the second timer is still pending |
| WorkflowProperties.CopySettlesAfterClear | Frontend/src/pages/Index.tsx:99-107 | a write that settles after clear-all still raises `isCopied` on the cleared screen, and the clipboard received the reply shown at the click |
| WorkflowProperties.DownloadSavesReply | Frontend/src/pages/Index.tsx:117-126 | downloading saves the current reply under the fixed name and changes nothing |
| WorkflowProperties.EditReplyUndo | Frontend/src/pages/Index.tsx:248 | editing the reply and then typing the old text back restores the session |
| WorkflowProperties.DispatchPreservesConsistent | Frontend/src/pages/Index.tsx:16-21 | every event keeps the invariant: tone empty or catalogued, loading implies a request in flight, copied implies a pending timer, hidden output implies an empty reply |
| WorkflowProperties.ReachableConsistent | Frontend/src/pages/Index.tsx:16-32 | every session reachable from the initial screen satisfies that invariant |
| WorkflowProperties.ClearAllRestoresInitial | Frontend/src/pages/Index.tsx:134-140 | with no request in flight, clear-all returns the screen to its initial state |
| WorkflowProperties.ScenarioStart | Frontend/src/pages/Index.tsx:34-44 | typing the example email, choosing "friendly" and clicking leaves the inputs set, the output hidden and empty, loading on, exactly one request in flight and nothing else pending |
| WorkflowProperties.ScenarioSuccess | Frontend/src/pages/Index.tsx:34-71 | the same steps followed by a 200 response show exactly the returned body, end loading and raise the "Reply Generated Successfully!" toast |
| WorkflowProperties.ScenarioFailure | Frontend/src/pages/Index.tsx:72-96 | the same steps followed by a rejected call show the fallback reply, end loading and raise the destructive "Generation Failed" toast |
| WorkflowProperties.WordCountExamples | Frontend/src/pages/Index.tsx:256 | "  hello   world  " counts 2 words and the empty text counts 0 |

## Left out

- Network I/O is left out: the `fetch` call, the base URL from the build configuration, the JSON encoding of the request and the reading of the response body. A completion event carries the result. A failure of `response.text()` is modelled as `Rejected`.
- Browser APIs are left out: the clipboard, `Blob`, object URLs and the anchor click. The clipboard outcome is an input, and download is an effect with no state change.
- Real time and the 2000 ms delay are left out. The two awaits of `generateReply` end in one completion event, since nothing changes between them. The clipboard await and each timer end in events of their own (a settled clipboard write, a timer expiry). So every order in which the browser can run them is some event sequence.
- Toast descriptions, `console.log` calls, the JSX layout, the icons and the tone labels and descriptions are left out. Toasts keep their title and their variant.
- The backend request DTO (`Backend/src/main/java/com/email/writer/app/DTO/EmailRequest.java`) is left out. It is a data holder with no behaviour. The model's `Request` record carries the same two fields.
- Text.Trim: uses one whitespace set (space, tab, LF, VT, FF, CR) instead of JavaScript's Unicode `\s` and line terminators. `Text.Split` uses the same set.
- Text.CharCount: counts characters, while JavaScript's `length` counts UTF-16 code units. A character outside the Basic Multilingual Plane counts once here and twice in the source.
