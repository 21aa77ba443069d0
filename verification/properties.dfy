/**
 Properties of the reply workflow: input validation, what each transition
 changes and keeps, an invariant every reachable session satisfies, the
 behaviours that follow from the missing in-flight and timer guards, and a
 successful and a rejected request, end to end.
 */
module WorkflowProperties {
  import opened Text
  import opened Workflow

  // ----- Input gate -----

  /** The button starts a request exactly when it is enabled, and only then. */
  lemma ClickStartsIffEnabled(s: Session)
    ensures Dispatch(s, ClickGenerate).next.inFlight == s.inFlight + 1 <==> ButtonEnabled(s.state)
    ensures !ButtonEnabled(s.state) ==> Dispatch(s, ClickGenerate) == Transition(s, [])
  {
  }

  /** An attempt with invalid input, by button or by Ctrl+Enter, changes no
      field of the screen and sends nothing. */
  lemma InvalidAttemptChangesNothing(s: Session, e: Event)
    requires e == ClickGenerate || e == KeyDown(true, "Enter")
    requires !CanGenerate(s.state.originalEmail, s.state.selectedTone)
    ensures Dispatch(s, e).next == s
    ensures forall i | 0 <= i < |Dispatch(s, e).effects| :: !Dispatch(s, e).effects[i].Post?
  {
  }

  /** Ctrl+Enter does not look at the loading flag: while a request is pending
      the button is disabled, yet the shortcut sends a second request. */
  lemma ShortcutStartsWhileLoading(s: Session)
    requires CanGenerate(s.state.originalEmail, s.state.selectedTone) && s.state.isLoading
    ensures Dispatch(s, ClickGenerate) == Transition(s, [])
    ensures Dispatch(s, KeyDown(true, "Enter")).next.inFlight == s.inFlight + 1
    ensures Dispatch(s, KeyDown(true, "Enter")).effects
      == [Post(Request(s.state.originalEmail, s.state.selectedTone))]
  {
    var press := KeyDown(true, "Enter");
    assert Possible(s, press);
    assert Step(s, press) == HandleKeyPress(s, true, "Enter");
    assert HandleKeyPress(s, true, "Enter") == GenerateReply(s);
  }

  // ----- Generation round trip -----

  /** A start followed by its completion leaves the number of requests in
      flight as it was, clears the loading flag, shows the output with the
      body or the fallback, and keeps the inputs and the copied flag. */
  lemma StartThenComplete(s: Session, result: FetchResult)
    requires ButtonEnabled(s.state)
    ensures var n := Run(s, [ClickGenerate, Complete(result)]);
      && n.inFlight == s.inFlight && n.timers == s.timers
      && !n.state.isLoading && n.state.showOutput
      && n.state.generatedReply == ReplyFor(result)
      && SameInput(n.state, s.state) && n.state.isCopied == s.state.isCopied
  {
    RunTwo(s, ClickGenerate, Complete(result));
    ClickWhenEnabled(s);
    var t := GenerateReply(s).next;
    CompleteWhenInFlight(t, result);
  }

  lemma ClickWhenEnabled(s: Session)
    requires ButtonEnabled(s.state)
    ensures Dispatch(s, ClickGenerate).next == GenerateReply(s).next
  {
    assert Possible(s, ClickGenerate);
  }

  lemma CompleteWhenInFlight(s: Session, result: FetchResult)
    requires s.inFlight > 0
    ensures Dispatch(s, Complete(result)).next == CompleteReply(s, result).next
  {
  }

  lemma RunTwo(s: Session, a: Event, b: Event)
    ensures Run(s, [a, b]) == Dispatch(Dispatch(s, a).next, b).next
  {
    var t := Dispatch(s, a).next;
    assert [a, b][0] == a && [a, b][1..] == [b];
    assert Run(s, [a, b]) == Run(t, [b]);
    assert [b][0] == b && [b][1..] == [];
    assert Run(t, [b]) == Run(Dispatch(t, b).next, []);
  }

  /** A completion never leaves the screen empty: the output is visible and
      holds the server's body or the non-empty fallback. */
  lemma CompletionNeverLeavesScreenEmpty(s: Session, result: FetchResult)
    requires s.inFlight > 0
    ensures var n := Dispatch(s, Complete(result)).next;
      && n.state.showOutput && !n.state.isLoading
      && (n.state.generatedReply == FallbackReply() || (Succeeded(result) && n.state.generatedReply == result.body))
      && (n.state.generatedReply != [] || (Succeeded(result) && result.body == []))
  {
  }

  /** Nothing ties a completion to the request that was started last: of two
      outstanding requests, the one that settles second decides the reply. */
  lemma LastCompletionWins(s: Session, first: FetchResult, second: FetchResult)
    requires s.inFlight >= 2
    ensures Run(s, [Complete(first), Complete(second)]).state.generatedReply == ReplyFor(second)
  {
    RunTwo(s, Complete(first), Complete(second));
  }

  /** The first of two outstanding completions clears the loading flag while
      the other request is still in flight. */
  lemma LoadingClearedWhileInFlight(s: Session, result: FetchResult)
    requires s.inFlight >= 2
    ensures var n := Dispatch(s, Complete(result)).next;
      !n.state.isLoading && n.inFlight > 0
  {
  }

  // ----- Clipboard, download, edit, clear -----

  lemma RunOne(s: Session, a: Event)
    ensures Run(s, [a]) == Dispatch(s, a).next
  {
    assert [a][1..] == [];
    assert Run(s, [a]) == Run(Dispatch(s, a).next, []);
  }

  lemma {:induction false} RunThree(s: Session, a: Event, b: Event, c: Event)
    ensures Run(s, [a, b, c]) == Run(Dispatch(s, a).next, [b, c])
  {
    assert [a, b, c][0] == a && [a, b, c][1..] == [b, c];
  }

  lemma ClickCopyWhenShown(s: Session)
    requires s.state.showOutput
    ensures Dispatch(s, ClickCopy).next == s.(copies := s.copies + 1)
  {
  }

  lemma SettleWhenPending(s: Session, written: bool)
    requires s.copies > 0
    ensures Dispatch(s, CopySettles(written)).next == SettleCopy(s, written).next
  {
  }

  lemma ExpireWhenScheduled(s: Session)
    requires s.timers > 0
    ensures Dispatch(s, CopiedTimerExpires).next == ExpireCopiedTimer(s).next
  {
  }

  /** A click on the copy button followed by a successful write raises the
      copied flag and schedules one reset timer, and changes nothing else. */
  lemma CopySucceeds(s: Session)
    requires s.state.showOutput
    ensures Run(s, [ClickCopy, CopySettles(true)])
      == s.(state := s.state.(isCopied := true), timers := s.timers + 1)
  {
    RunTwo(s, ClickCopy, CopySettles(true));
    ClickCopyWhenShown(s);
    SettleWhenPending(s.(copies := s.copies + 1), true);
  }

  /** A successful copy followed by its own timer's expiry restores the
      session, except that the copied flag is down. */
  lemma CopyThenExpire(s: Session)
    requires s.state.showOutput
    ensures Run(s, [ClickCopy, CopySettles(true), CopiedTimerExpires])
      == s.(state := s.state.(isCopied := false))
  {
    var copied := s.(state := s.state.(isCopied := true), timers := s.timers + 1);
    CopySucceeds(s);
    RunAppend(s, [ClickCopy, CopySettles(true)], [CopiedTimerExpires]);
    assert [ClickCopy, CopySettles(true)] + [CopiedTimerExpires]
      == [ClickCopy, CopySettles(true), CopiedTimerExpires];
    RunOne(copied, CopiedTimerExpires);
    ExpireWhenScheduled(copied);
  }

  /** A failed copy still writes nothing to the screen: the click hands the
      reply to the clipboard, the failure reports a destructive toast, and the
      session ends as it began. */
  lemma FailedCopyChangesNothing(s: Session)
    requires s.state.showOutput
    ensures Dispatch(s, ClickCopy).effects == [WriteClipboard(s.state.generatedReply)]
    ensures Dispatch(Dispatch(s, ClickCopy).next, CopySettles(false)).effects
      == [Toast("Copy Failed", Destructive)]
    ensures Run(s, [ClickCopy, CopySettles(false)]) == s
  {
    RunTwo(s, ClickCopy, CopySettles(false));
    ClickCopyWhenShown(s);
    SettleWhenPending(s.(copies := s.copies + 1), false);
  }

  /** The reset timer is never cancelled: after two copies, the first copy's
      timer clears the flag although the second copy's timer is still pending. */
  lemma StaleTimerClearsNewerCopy(s: Session)
    requires s.state.showOutput
    ensures var n := Run(s, [ClickCopy, CopySettles(true), ClickCopy, CopySettles(true), CopiedTimerExpires]);
      !n.state.isCopied && n.timers == s.timers + 1
  {
    var once := s.(state := s.state.(isCopied := true), timers := s.timers + 1);
    var twice := s.(state := s.state.(isCopied := true), timers := s.timers + 2);
    var copy := [ClickCopy, CopySettles(true)];
    CopySucceeds(s);
    CopySucceeds(once);
    RunAppend(s, copy, copy + [CopiedTimerExpires]);
    RunAppend(once, copy, [CopiedTimerExpires]);
    assert copy + (copy + [CopiedTimerExpires])
      == [ClickCopy, CopySettles(true), ClickCopy, CopySettles(true), CopiedTimerExpires];
    RunOne(twice, CopiedTimerExpires);
    ExpireWhenScheduled(twice);
  }

  /** The write settles after the click, so clearing the screen in between
      does not stop it: the clipboard receives the reply shown at the click,
      and the copied flag rises on a cleared screen. */
  lemma CopySettlesAfterClear(s: Session)
    requires s.state.showOutput
    ensures Dispatch(s, ClickCopy).effects == [WriteClipboard(s.state.generatedReply)]
    ensures var n := Run(s, [ClickCopy, ClearAll, CopySettles(true)]);
      && n.state.isCopied && !n.state.showOutput && n.state.generatedReply == []
      && n.copies == s.copies
  {
    var clicked := s.(copies := s.copies + 1);
    ClickCopyWhenShown(s);
    RunThree(s, ClickCopy, ClearAll, CopySettles(true));
    RunTwo(clicked, ClearAll, CopySettles(true));
    SettleWhenPending(Dispatch(clicked, ClearAll).next, true);
  }

  /** Downloading saves exactly the reply under the fixed name and changes nothing. */
  lemma DownloadSavesReply(s: Session)
    requires s.state.showOutput
    ensures Dispatch(s, Download).next == s
    ensures Dispatch(s, Download).effects[0] == SaveFile("email-reply.txt", "text/plain", s.state.generatedReply)
  {
  }

  /** Editing the reply and then typing the old text back restores the session. */
  lemma EditReplyUndo(s: Session, text: string)
    requires s.state.showOutput
    ensures Run(s, [EditReply(text), EditReply(s.state.generatedReply)]) == s
  {
    RunTwo(s, EditReply(text), EditReply(s.state.generatedReply));
  }

  // ----- Invariant of reachable sessions -----

  /**
   What holds of every session the screen can reach: the tone is unset or a
   catalogued tone; the loading flag implies a request in flight; the copied
   flag implies a pending reset timer; a hidden output card holds no reply.
   */
  predicate Consistent(s: Session) {
    && (s.state.selectedTone == [] || s.state.selectedTone in ToneValues)
    && (s.state.isLoading ==> s.inFlight > 0)
    && (s.state.isCopied ==> s.timers > 0)
    && (!s.state.showOutput ==> s.state.generatedReply == [])
  }

  lemma StartConsistent()
    ensures Consistent(Start)
  {
  }

  /** Every event, delivered or not, keeps a session consistent. */
  lemma DispatchPreservesConsistent(s: Session, e: Event)
    requires Consistent(s)
    ensures Consistent(Dispatch(s, e).next)
  {
  }

  lemma {:induction false} RunPreservesConsistent(s: Session, es: seq<Event>)
    requires Consistent(s)
    ensures Consistent(Run(s, es))
    decreases |es|
  {
    if es != [] {
      DispatchPreservesConsistent(s, es[0]);
      RunPreservesConsistent(Dispatch(s, es[0]).next, es[1..]);
    }
  }

  /** Every session reachable from the initial screen is consistent. */
  lemma ReachableConsistent(es: seq<Event>)
    ensures Consistent(Run(Start, es))
  {
    RunPreservesConsistent(Start, es);
  }

  /** With no request in flight, clearing a consistent session returns the
      screen to its initial state. */
  lemma ClearAllRestoresInitial(s: Session)
    requires Consistent(s) && s.state.showOutput && s.inFlight == 0
    ensures Dispatch(s, ClearAll).next.state == Initial
  {
  }

  lemma {:induction false} RunAppend(s: Session, a: seq<Event>, b: seq<Event>)
    ensures Run(s, a + b) == Run(Run(s, a), b)
    decreases |a|
  {
    if a == [] {
      assert a + b == b;
    } else {
      assert (a + b)[0] == a[0];
      assert (a + b)[1..] == a[1..] + b;
      RunAppend(Dispatch(s, a[0]).next, a[1..], b);
    }
  }

  // ----- Scenarios -----

  const ScenarioEmail: string := "Hi, can you send the report?"

  /** Typing the email, choosing "friendly" and clicking the button. */
  const ScenarioSteps: seq<Event> := [EditEmail(ScenarioEmail), SelectTone("friendly"), ClickGenerate]

  /** The session once the scenario steps are done: the inputs are set, the
      output is still hidden and empty, and one request is in flight. */
  lemma ScenarioStart()
    ensures Run(Start, ScenarioSteps)
      == Session(State(ScenarioEmail, "friendly", "", true, false, false), 1, 0, 0)
  {
    var typed := Start.(state := Initial.(originalEmail := ScenarioEmail));
    var chosen := typed.(state := typed.state.(selectedTone := "friendly"));
    assert Dispatch(Start, EditEmail(ScenarioEmail)).next == typed;
    assert Dispatch(typed, SelectTone("friendly")).next == chosen;
    assert !IsBlank(ScenarioEmail) by { assert !IsWhitespace(ScenarioEmail[0]); }
    RunThree(Start, EditEmail(ScenarioEmail), SelectTone("friendly"), ClickGenerate);
    RunTwo(typed, SelectTone("friendly"), ClickGenerate);
  }

  /** The service answers 200: the body is shown verbatim, loading is over,
      and the success toast is raised. */
  lemma ScenarioSuccess()
    ensures var t := Dispatch(Run(Start, ScenarioSteps), Complete(Responded(200, "Sure! Attaching the report now.")));
      && Run(Start, ScenarioSteps + [Complete(Responded(200, "Sure! Attaching the report now."))]) == t.next
      && t.next.state.generatedReply == "Sure! Attaching the report now."
      && t.next.state.showOutput && !t.next.state.isLoading && t.next.inFlight == 0
      && t.effects == [Toast("Reply Generated Successfully!", Default)]
  {
    var done := [Complete(Responded(200, "Sure! Attaching the report now."))];
    var n := Run(Start, ScenarioSteps);
    ScenarioStart();
    RunAppend(Start, ScenarioSteps, done);
    assert done[1..] == [];
    assert Run(n, done) == Run(Dispatch(n, done[0]).next, []);
  }

  /** The call is rejected: the fallback is shown instead, loading is over,
      and the failure toast is raised. */
  lemma ScenarioFailure()
    ensures var t := Dispatch(Run(Start, ScenarioSteps), Complete(Rejected));
      && Run(Start, ScenarioSteps + [Complete(Rejected)]) == t.next
      && t.next.state.generatedReply == FallbackReply()
      && t.next.state.showOutput && !t.next.state.isLoading && t.next.inFlight == 0
      && t.effects == [Toast("Generation Failed", Destructive)]
  {
    var done := [Complete(Rejected)];
    var n := Run(Start, ScenarioSteps);
    ScenarioStart();
    RunAppend(Start, ScenarioSteps, done);
    assert done[1..] == [];
    assert Run(n, done) == Run(Dispatch(n, done[0]).next, []);
  }

  /** Two word-count examples: padding and repeated spaces are not words,
      and an empty text has none. */
  lemma WordCountExamples()
    ensures WordCount("  hello   world  ") == 2
    ensures WordCount("") == 0
  {
    var pad: string := "  ";
    var gap: string := "   ";
    var hello: string := "hello";
    var world: string := "world";
    var body := (hello + gap) + world;
    assert "  hello   world  " == pad + (body + pad);
    assert IsBlank(pad) && IsBlank(gap) && IsSolid(hello) && IsSolid(world);
    calc {
      WordCount(pad + (body + pad));
      { LeadingWhitespaceIgnored(pad, body + pad); }
      WordCount(body + pad);
      { TrailingWhitespaceIgnored(body, pad); }
      WordCount(body);
      { WordCountJoin(hello + gap, world); }
      WordCount(hello + gap) + WordCount(world);
      { TrailingWhitespaceIgnored(hello, gap); }
      WordCount(hello) + WordCount(world);
      { WordCountSolid(hello); WordCountSolid(world); }
      2;
    }
  }
}
