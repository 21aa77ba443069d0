/**
 The reply-generation workflow of the single screen of the email writer, as a
 deterministic state machine.

 `State` is the screen's six pieces of React state. `Session` adds what the
 JavaScript runtime holds beside them: how many generation requests are still
 in flight, how many "copied" reset timers are still scheduled, and how many
 clipboard writes are still pending. Every user action, settled promise and
 timer expiry is an `Event`; `Step` applies the code the source runs for it
 and returns the next session together with the outward effects (toasts, the
 POST request, the clipboard write, the file save). The HTTP result and the
 clipboard outcome are inputs carried by the events.
 */
module Workflow {
  import opened Text

  datatype State = State(
    originalEmail: string,
    selectedTone: string,
    generatedReply: string,
    isLoading: bool,
    isCopied: bool,
    showOutput: bool)

  /** Every field as `useState` initialises it. */
  const Initial: State := State("", "", "", false, false, false)

  datatype Session = Session(state: State, inFlight: nat, timers: nat, copies: nat)

  const Start: Session := Session(Initial, 0, 0, 0)

  /** The values the tone selector offers. Validation does not consult this set. */
  const ToneValues: set<string> :=
    {"professional", "friendly", "formal", "casual", "apologetic", "enthusiastic"}

  const Salutation: string := "Dear [Recipient],"
  const SignOff: string := "Best regards,\n[Your Name]"

  /** The paragraphs of the fallback reply between its salutation and its
      sign-off. */
  const FallbackBody: string :=
    "\n\n"
    + "Thank you for your email. I appreciate you taking the time to reach out.\n\n"
    + "I understand your request and will be happy to assist you with this matter. "
    + "Let me review the details and get back to you with a comprehensive response by [date].\n\n"
    + "If you have any urgent concerns or additional information that might be helpful, "
    + "please don't hesitate to let me know.\n\n"

  /** `body` framed by the salutation and the sign-off: a text that opens with
      `Dear [Recipient],`, closes with `Best regards,` over `[Your Name]`, and
      so is never blank. */
  function Letter(body: string): (r: string)
    ensures |r| > 17 && r[..17] == "Dear [Recipient],"
    ensures |r| > 25 && r[|r| - 25..] == "Best regards,\n[Your Name]"
    ensures !IsBlank(r)
  {
    var r := Salutation + body + SignOff;
    assert r == Salutation + (body + SignOff);
    assert r[..|Salutation|] == Salutation;
    assert r[|r| - |SignOff|..] == SignOff;
    assert r[0] == Salutation[0] && !IsWhitespace(r[0]);
    r
  }

  /** The hard-coded reply shown when generation fails: it opens with the
      salutation `Dear [Recipient],`, closes with the sign-off `Best regards,`
      over `[Your Name]`, and so is never blank. */
  function FallbackReply(): (r: string)
    ensures |r| > 17 && r[..17] == "Dear [Recipient],"
    ensures |r| > 25 && r[|r| - 25..] == "Best regards,\n[Your Name]"
    ensures !IsBlank(r)
  {
    Letter(FallbackBody)
  }

  const DownloadName: string := "email-reply.txt"
  const DownloadType: string := "text/plain"

  datatype Variant = Default | Destructive

  /** The JSON body of the POST to `/api/email/generate`. */
  datatype Request = Request(originalEmail: string, tone: string)

  datatype Effect =
    | Toast(title: string, variant: Variant)
    | Post(request: Request)
    | WriteClipboard(text: string)
    | SaveFile(name: string, mime: string, content: string)

  datatype Transition = Transition(next: Session, effects: seq<Effect>)

  /** What the awaited `fetch` and `response.text()` produced: a response with
      its status and body text, or a rejection of either promise. */
  datatype FetchResult = Responded(status: int, body: string) | Rejected

  /** `Response.ok`: the status is in the range 200-299, that is a 2xx
      status code. */
  function IsOk(status: int): (r: bool)
    ensures r <==> status / 100 == 2
  {
    200 <= status <= 299
  }

  predicate Succeeded(result: FetchResult) {
    result.Responded? && IsOk(result.status)
  }

  datatype Event =
    | EditEmail(text: string)
    | SelectTone(tone: string)
    | ClickGenerate
    | KeyDown(ctrlKey: bool, key: string)
    | Complete(result: FetchResult)
    | ClickCopy
    | CopySettles(written: bool)
    | CopiedTimerExpires
    | Download
    | ClearAll
    | EditReply(text: string)

  /** Validation of `generateReply`: it accepts exactly an email with a
      non-whitespace character, that is with at least one word, and a chosen
      tone; an all-whitespace email is refused. */
  function CanGenerate(email: string, tone: string): (r: bool)
    ensures r <==> !IsBlank(email) && tone != []
    ensures r <==> WordCount(email) > 0 && tone != []
  {
    Trim(email) != [] && tone != []
  }

  /** The generate button is enabled exactly when the email has a
      non-whitespace character, a tone is chosen and nothing is loading. */
  function ButtonEnabled(s: State): (r: bool)
    ensures r <==> !IsBlank(s.originalEmail) && s.selectedTone != [] && !s.isLoading
  {
    CanGenerate(s.originalEmail, s.selectedTone) && !s.isLoading
  }

  /** The two inputs are the same in `a` and `b`. */
  predicate SameInput(a: State, b: State) {
    a.originalEmail == b.originalEmail && a.selectedTone == b.selectedTone
  }

  /** The reply and its visibility are the same in `a` and `b`. */
  predicate SameOutput(a: State, b: State) {
    a.generatedReply == b.generatedReply && a.showOutput == b.showOutput
  }

  /** The reply text a completed request leaves on the screen. */
  function ReplyFor(result: FetchResult): (r: string)
    ensures Succeeded(result) ==> r == result.body
    ensures !Succeeded(result) ==> r == FallbackReply()
    ensures r != [] || (Succeeded(result) && result.body == [])
  {
    if Succeeded(result) then result.body else FallbackReply()
  }

  /** The synchronous part of `generateReply`: an invalid input only raises
      the warning toast; a valid one raises the loading flag and sends the
      request, and nothing else changes. */
  function GenerateReply(s: Session): (t: Transition)
    ensures !CanGenerate(s.state.originalEmail, s.state.selectedTone) ==>
      t.next == s && t.effects == [Toast("Missing Information", Destructive)]
    ensures CanGenerate(s.state.originalEmail, s.state.selectedTone) ==>
      && t.next.state.isLoading
      && SameInput(t.next.state, s.state) && SameOutput(t.next.state, s.state)
      && t.next.state.isCopied == s.state.isCopied
      && t.next.inFlight == s.inFlight + 1
      && t.next.timers == s.timers && t.next.copies == s.copies
      && t.effects == [Post(Request(s.state.originalEmail, s.state.selectedTone))]
  {
    if !CanGenerate(s.state.originalEmail, s.state.selectedTone) then
      Transition(s, [Toast("Missing Information", Destructive)])
    else
      var request := Request(s.state.originalEmail, s.state.selectedTone);
      Transition(s.(state := s.state.(isLoading := true), inFlight := s.inFlight + 1),
                 [Post(request)])
  }

  /** The part of `generateReply` after the awaited request settles, for one of
      the requests in flight: the body on success, the fallback otherwise; the
      output is shown and the loading flag cleared either way. */
  function CompleteReply(s: Session, result: FetchResult): (t: Transition)
    requires s.inFlight > 0
    ensures t.next.state.showOutput && !t.next.state.isLoading
    ensures Succeeded(result) ==> t.next.state.generatedReply == result.body
    ensures !Succeeded(result) ==> t.next.state.generatedReply == FallbackReply()
    ensures SameInput(t.next.state, s.state) && t.next.state.isCopied == s.state.isCopied
    ensures t.next.inFlight == s.inFlight - 1
    ensures t.next.timers == s.timers && t.next.copies == s.copies
    ensures Succeeded(result) ==> t.effects == [Toast("Reply Generated Successfully!", Default)]
    ensures !Succeeded(result) ==> t.effects == [Toast("Generation Failed", Destructive)]
  {
    var state := s.state.(generatedReply := ReplyFor(result), showOutput := true, isLoading := false);
    var toast :=
      if Succeeded(result) then Toast("Reply Generated Successfully!", Default)
      else Toast("Generation Failed", Destructive);
    Transition(s.(state := state, inFlight := s.inFlight - 1), [toast])
  }

  /** A click on the copy button runs `copyToClipboard` up to its `await`: the
      write of the reply shown at this moment is handed to the clipboard and
      stays pending; nothing on the screen changes yet. */
  function CopyToClipboard(s: Session): (t: Transition)
    ensures t.next.state == s.state
    ensures t.next.copies == s.copies + 1
    ensures t.next.inFlight == s.inFlight && t.next.timers == s.timers
    ensures t.effects == [WriteClipboard(s.state.generatedReply)]
  {
    Transition(s.(copies := s.copies + 1), [WriteClipboard(s.state.generatedReply)])
  }

  /** The rest of `copyToClipboard` once one pending clipboard write settles:
      when it succeeded the copied flag is raised and one more reset timer is
      scheduled, otherwise the state is left alone; a toast reports which. */
  function SettleCopy(s: Session, written: bool): (t: Transition)
    requires s.copies > 0
    ensures t.next.copies == s.copies - 1
    ensures written ==>
      && t.next.state.isCopied
      && SameInput(t.next.state, s.state) && SameOutput(t.next.state, s.state)
      && t.next.state.isLoading == s.state.isLoading
      && t.next.inFlight == s.inFlight && t.next.timers == s.timers + 1
    ensures !written ==> t.next == s.(copies := s.copies - 1)
    ensures |t.effects| == 1 && t.effects[0].Toast?
    ensures t.effects[0].variant == Destructive <==> !written
  {
    var rest := s.(copies := s.copies - 1);
    if written then
      Transition(rest.(state := s.state.(isCopied := true), timers := s.timers + 1),
                 [Toast("Copied to Clipboard", Default)])
    else
      Transition(rest, [Toast("Copy Failed", Destructive)])
  }

  /** The callback of one scheduled reset timer: it clears the copied flag,
      whichever copy scheduled it. */
  function ExpireCopiedTimer(s: Session): (t: Transition)
    requires s.timers > 0
    ensures !t.next.state.isCopied
    ensures SameInput(t.next.state, s.state) && SameOutput(t.next.state, s.state)
    ensures t.next.state.isLoading == s.state.isLoading
    ensures t.next.inFlight == s.inFlight && t.next.timers == s.timers - 1
    ensures t.next.copies == s.copies
    ensures t.effects == []
  {
    Transition(s.(state := s.state.(isCopied := false), timers := s.timers - 1), [])
  }

  /** `downloadReply`: the reply saved as a plain-text file; no state changes. */
  function DownloadReply(s: Session): (t: Transition)
    ensures t.next == s
    ensures |t.effects| == 2 && t.effects[0].SaveFile?
    ensures t.effects[0].content == s.state.generatedReply
    ensures t.effects[0].name == "email-reply.txt" && t.effects[0].mime == "text/plain"
    ensures t.effects[1] == Toast("Download Started", Default)
  {
    Transition(s, [SaveFile(DownloadName, DownloadType, s.state.generatedReply),
                   Toast("Download Started", Default)])
  }

  /** `clearAll`: every field back to its initial value except the loading flag. */
  function ClearAllFields(s: Session): (t: Transition)
    ensures t.next.state.(isLoading := false) == Initial
    ensures t.next.state.isLoading == s.state.isLoading
    ensures t.next.inFlight == s.inFlight && t.next.timers == s.timers && t.next.copies == s.copies
    ensures t.effects == []
  {
    var state := State("", "", "", s.state.isLoading, false, false);
    Transition(s.(state := state), [])
  }

  /** `handleKeyPress`: Ctrl+Enter runs `generateReply`; any other key does nothing. */
  function HandleKeyPress(s: Session, ctrlKey: bool, key: string): (t: Transition)
    ensures ctrlKey && key == "Enter" ==> t == GenerateReply(s)
    ensures !(ctrlKey && key == "Enter") ==> t.next == s && t.effects == []
  {
    if ctrlKey && key == "Enter" then GenerateReply(s) else Transition(s, [])
  }

  /** A controlled text area's `onChange`: the edited field takes the new text. */
  function SetEmail(s: Session, text: string): (t: Transition)
    ensures t.next.state.originalEmail == text
    ensures t.next.state.selectedTone == s.state.selectedTone
    ensures SameOutput(t.next.state, s.state)
    ensures t.next.state.isLoading == s.state.isLoading && t.next.state.isCopied == s.state.isCopied
    ensures t.next.inFlight == s.inFlight && t.next.timers == s.timers && t.next.copies == s.copies
    ensures t.effects == []
  {
    Transition(s.(state := s.state.(originalEmail := text)), [])
  }

  function SetTone(s: Session, tone: string): (t: Transition)
    ensures t.next.state.selectedTone == tone
    ensures t.next.state.originalEmail == s.state.originalEmail
    ensures SameOutput(t.next.state, s.state)
    ensures t.next.state.isLoading == s.state.isLoading && t.next.state.isCopied == s.state.isCopied
    ensures t.next.inFlight == s.inFlight && t.next.timers == s.timers && t.next.copies == s.copies
    ensures t.effects == []
  {
    Transition(s.(state := s.state.(selectedTone := tone)), [])
  }

  function SetReply(s: Session, text: string): (t: Transition)
    ensures t.next.state.generatedReply == text
    ensures SameInput(t.next.state, s.state) && t.next.state.showOutput == s.state.showOutput
    ensures t.next.state.isLoading == s.state.isLoading && t.next.state.isCopied == s.state.isCopied
    ensures t.next.inFlight == s.inFlight && t.next.timers == s.timers && t.next.copies == s.copies
    ensures t.effects == []
  {
    Transition(s.(state := s.state.(generatedReply := text)), [])
  }

  /**
   Whether the screen can deliver `e` in session `s`: the tone selector only
   offers the catalogued tones; the generate button is disabled exactly when
   the input gate fails or a request is loading; the copy, download, clear and
   reply-edit controls exist only while the output card is shown; a completion
   needs a request in flight, the settling of a clipboard write a pending
   write, and an expiry a scheduled timer. The email text area and its
   Ctrl+Enter shortcut are always live.
   */
  function Possible(s: Session, e: Event): (r: bool)
    ensures e.ClickGenerate? ==>
      (r <==> CanGenerate(s.state.originalEmail, s.state.selectedTone) && !s.state.isLoading)
    ensures e.SelectTone? ==> (r <==> e.tone in ToneValues)
    ensures e.ClickCopy? || e.Download? || e.ClearAll? || e.EditReply? ==> (r <==> s.state.showOutput)
    ensures e.EditEmail? || e.KeyDown? ==> r
  {
    match e
    case EditEmail(_) => true
    case SelectTone(tone) => tone in ToneValues
    case ClickGenerate => ButtonEnabled(s.state)
    case KeyDown(_, _) => true
    case Complete(_) => s.inFlight > 0
    case ClickCopy => s.state.showOutput
    case CopySettles(_) => s.copies > 0
    case CopiedTimerExpires => s.timers > 0
    case Download => s.state.showOutput
    case ClearAll => s.state.showOutput
    case EditReply(_) => s.state.showOutput
  }

  /** The handler the screen wires to `e`. The generate button runs the same
      handler as Ctrl+Enter; each field of the state is written only by the
      controls and callbacks bound to its setter; and only a generate attempt
      puts a new request in flight. */
  function Step(s: Session, e: Event): (t: Transition)
    requires Possible(s, e)
    ensures e.ClickGenerate? ==> t == HandleKeyPress(s, true, "Enter")
    ensures t.next.state.originalEmail != s.state.originalEmail ==> e.EditEmail? || e.ClearAll?
    ensures t.next.state.selectedTone != s.state.selectedTone ==> e.SelectTone? || e.ClearAll?
    ensures t.next.state.generatedReply != s.state.generatedReply ==>
      e.EditReply? || e.Complete? || e.ClearAll?
    ensures t.next.state.showOutput != s.state.showOutput ==> e.Complete? || e.ClearAll?
    ensures t.next.state.isLoading != s.state.isLoading ==>
      e.ClickGenerate? || e.KeyDown? || e.Complete?
    ensures t.next.state.isCopied != s.state.isCopied ==>
      e.CopySettles? || e.CopiedTimerExpires? || e.ClearAll?
    ensures t.next.inFlight > s.inFlight ==> e.ClickGenerate? || e.KeyDown?
  {
    match e
    case EditEmail(text) => SetEmail(s, text)
    case SelectTone(tone) => SetTone(s, tone)
    case ClickGenerate => GenerateReply(s)
    case KeyDown(ctrlKey, key) => HandleKeyPress(s, ctrlKey, key)
    case Complete(result) => CompleteReply(s, result)
    case ClickCopy => CopyToClipboard(s)
    case CopySettles(written) => SettleCopy(s, written)
    case CopiedTimerExpires => ExpireCopiedTimer(s)
    case Download => DownloadReply(s)
    case ClearAll => ClearAllFields(s)
    case EditReply(text) => SetReply(s, text)
  }

  /** An event the screen cannot deliver has no effect at all. */
  function Dispatch(s: Session, e: Event): Transition {
    if Possible(s, e) then Step(s, e) else Transition(s, [])
  }

  /** The session after a sequence of events, in order. */
  function Run(s: Session, es: seq<Event>): Session
    decreases |es|
  {
    if es == [] then s else Run(Dispatch(s, es[0]).next, es[1..])
  }
}
