/** The per-user session of the chat application: the record kept across interactions
    (`conversation`, `chat_history`, `web_mode`, `pending_question`) and the events that
    change it. `Step` is the session as a pure reducer over a `State` value; the class
    `Session` holds the same four fields and updates them in place, one method per event,
    each tied to `Step`. */
module Session {
  import opened Chat
  import opened HedgeDetector
  import Transcript

  /** The session record, and beside it the fallback buttons on screen: `offer` is the
      question their handler closes over while they are shown. */
  datatype State = State(
    conversation: Option<Chain>,
    chatHistory: seq<Message>,
    webMode: bool,
    pendingQuestion: Option<string>,
    offer: Option<string>)

  /** The record once `main` has initialised every field. */
  const Initial: State := State(None, [], false, None, None)

  /** One user interaction: a submitted chat input (the empty string standing for none),
      a press of "Process" with the current upload list, or a press of one of the two
      fallback buttons. */
  datatype Event =
    | Submit(question: string)
    | Process(uploads: seq<Upload>)
    | AcceptFallback
    | DeclineFallback

  /** What the interaction shows: nothing, text typed out character by character,
      markdown, a warning, info or success box, or the exception that stopped the run. */
  datatype Display =
    | Silent
    | Typed(text: string)
    | Markdown(text: string)
    | Warning(text: string)
    | Info(text: string)
    | Success(text: string)
    | Raised

  datatype Transition = Transition(next: State, shown: Display)

  const WebPrefix: string :=
    "\U{1F310} **Web mode enabled**\n\nAnswering without PDF context:\n\n**Answer:** "
  const FallbackOffer: string :=
    "❌ **This question is not available in the uploaded PDF.**\n\nWould you like me to **search the web and answer it?**"
  const NoDocumentsWarning: string := "⚠️ Please upload and process a PDF first"
  const WebEnabledNotice: string := "Web search enabled. Ask again "
  const DeclinedNotice: string := "Okay Please upload the correct PDF."
  const NoUploadWarning: string := "Please upload at least one PDF"
  const ProcessedNotice: string := "Documents processed successfully"

  /** The text `handle_web_chat` types out for question `q`: the fixed banner, then `q`. */
  function WebChatText(q: string): (r: string)
    ensures |r| == |WebPrefix| + |q|
    ensures r[..|WebPrefix|] == WebPrefix && r[|WebPrefix|..] == q
  {
    WebPrefix + q
  }

  /** Reads the question back out of a web-mode reply, if `t` is one. */
  function WebQuestion(t: string): Option<string> {
    if |t| >= |WebPrefix| && t[..|WebPrefix|] == WebPrefix then Some(t[|WebPrefix|..]) else None
  }

  /** The web-mode reply is exactly the banner followed by the question: reading the
      question back gives `q`, and only replies built that way read back at all. */
  lemma WebQuestionInverse(t: string, q: string)
    ensures WebQuestion(t) == Some(q) <==> t == WebChatText(q)
  {
    if t == WebChatText(q) {
      assert t[..|WebPrefix|] == WebPrefix && t[|WebPrefix|..] == q;
    }
    if WebQuestion(t) == Some(q) {
      assert t == t[..|WebPrefix|] + t[|WebPrefix|..];
    }
  }


  /** Which branch of `main` a submission takes. */
  datatype Path = NoInput | WebPath | RagPath | WarnPath | NotASubmission

  /** The dispatch of a submitted question: an empty input does nothing; otherwise web
      mode wins over a processed conversation, which wins over the warning. */
  function Route(s: State, e: Event): (p: Path)
    ensures p == NotASubmission <==> !e.Submit?
    ensures p == NoInput <==> e.Submit? && e.question == ""
    ensures p == WebPath <==> e.Submit? && e.question != "" && s.webMode
    ensures p == RagPath <==> e.Submit? && e.question != "" && !s.webMode && s.conversation.Some?
    ensures p == WarnPath <==> e.Submit? && e.question != "" && !s.webMode && s.conversation.None?
  {
    if !e.Submit? then NotASubmission
    else if e.question == "" then NoInput
    else if s.webMode then WebPath
    else if s.conversation.Some? then RagPath
    else WarnPath
  }

  /** The event is a question the chain answered with a hedge. */
  predicate Hedged(s: State, e: Event, be: Backend) {
    Route(s, e) == RagPath &&
    var reply := be.invoke(s.conversation.value, e.question);
    reply.Some? && AnswerNotInDocs(reply.value.answer)
  }

  /** The session's reaction to one event. Every interaction redraws the page, so the
      fallback buttons survive none of them; they are drawn again only for a hedge. */
  function Step(s: State, e: Event, be: Backend): (t: Transition)
    // web mode answers the new question and is switched off, whatever the question
    ensures Route(s, e) == WebPath ==>
      t.next == s.(webMode := false, pendingQuestion := None, offer := None) &&
      t.shown == Typed(WebChatText(e.question))
    // the chain answers with its memory; its history replaces ours and becomes its memory
    ensures Route(s, e) == RagPath && be.invoke(s.conversation.value, e.question).Some? ==>
      var reply := be.invoke(s.conversation.value, e.question).value;
      t.next == s.(conversation := Some(s.conversation.value.(memory := reply.history)),
                   chatHistory := reply.history,
                   offer := if AnswerNotInDocs(reply.answer) then Some(e.question) else None) &&
      t.shown == (if AnswerNotInDocs(reply.answer) then Markdown(FallbackOffer) else Typed(reply.answer))
    // a failing chain stops the run: the record is as it was
    ensures Route(s, e) == RagPath && be.invoke(s.conversation.value, e.question).None? ==>
      t.next == s.(offer := None) && t.shown == Raised
    // no documents yet: a warning and nothing else
    ensures Route(s, e) == WarnPath ==> t.next == s.(offer := None) && t.shown == Warning(NoDocumentsWarning)
    ensures Route(s, e) == NoInput ==> t.next == s.(offer := None) && t.shown == Silent
    // the buttons appear exactly for a hedged question, and carry that question
    ensures t.next.offer.Some? <==> Hedged(s, e, be)
    ensures t.next.offer.Some? ==> t.next.offer.value == e.question
    // accepting stores the offered question and sets the flag together; declining or
    // pressing a button that is not on screen changes nothing in the record
    ensures e.AcceptFallback? && s.offer.Some? ==>
      t.next == s.(webMode := true, pendingQuestion := s.offer, offer := None) &&
      t.shown == Success(WebEnabledNotice)
    ensures e.DeclineFallback? && s.offer.Some? ==> t.next == s.(offer := None) && t.shown == Info(DeclinedNotice)
    ensures (e.AcceptFallback? || e.DeclineFallback?) && s.offer.None? ==> t.next == s && t.shown == Silent
    // "Process" replaces the conversation by a chain with empty memory, and only when
    // something was uploaded and the pipeline succeeded
    ensures e.Process? && e.uploads == [] ==> t.next == s.(offer := None) && t.shown == Warning(NoUploadWarning)
    ensures e.Process? && e.uploads != [] && be.build(e.uploads).None? ==>
      t.next == s.(offer := None) && t.shown == Raised
    ensures e.Process? && e.uploads != [] && be.build(e.uploads).Some? ==>
      t.next == s.(conversation := Some(Chain(be.build(e.uploads).value, [])), offer := None) &&
      t.shown == Success(ProcessedNotice)
  {
    var cleared := s.(offer := None);
    match e
    case Submit(q) =>
      if q == "" then Transition(cleared, Silent)
      else if s.webMode then
        Transition(cleared.(webMode := false, pendingQuestion := None), Typed(WebChatText(q)))
      else if s.conversation.Some? then
        var chain := s.conversation.value;
        var reply := be.invoke(chain, q);
        if reply.None? then Transition(cleared, Raised)
        else
          var hedge := AnswerNotInDocs(reply.value.answer);
          Transition(
            s.(conversation := Some(chain.(memory := reply.value.history)),
               chatHistory := reply.value.history,
               offer := if hedge then Some(q) else None),
            if hedge then Markdown(FallbackOffer) else Typed(reply.value.answer))
      else Transition(cleared, Warning(NoDocumentsWarning))
    case Process(uploads) =>
      if uploads == [] then Transition(cleared, Warning(NoUploadWarning))
      else
        var index := be.build(uploads);
        if index.None? then Transition(cleared, Raised)
        else Transition(cleared.(conversation := Some(Chain(index.value, []))), Success(ProcessedNotice))
    case AcceptFallback =>
      if s.offer.None? then Transition(s, Silent)
      else Transition(cleared.(webMode := true, pendingQuestion := s.offer), Success(WebEnabledNotice))
    case DeclineFallback =>
      if s.offer.None? then Transition(s, Silent)
      else Transition(cleared, Info(DeclinedNotice))
  }

  /** The fallback offer appears exactly when the chain's answer hedges; otherwise the
      answer itself is typed out. */
  lemma OfferOnlyOnHedge(s: State, q: string, be: Backend)
    requires Route(s, Submit(q)) == RagPath
    requires be.invoke(s.conversation.value, q).Some?
    ensures var reply := be.invoke(s.conversation.value, q).value;
      (Step(s, Submit(q), be).shown == Markdown(FallbackOffer) <==> AnswerNotInDocs(reply.answer)) &&
      (!AnswerNotInDocs(reply.answer) ==> Step(s, Submit(q), be).shown == Typed(reply.answer))
  {
  }

  /** The session invariant: the fallback flag is set exactly when a pending question is
      stored, the buttons are never on screen in web mode, and the history stays empty
      until documents have been processed. */
  ghost predicate Inv(s: State) {
    (s.webMode <==> s.pendingQuestion.Some?) &&
    (s.offer.Some? ==> !s.webMode) &&
    (s.conversation.None? ==> s.chatHistory == [])
  }

  /** The state after a sequence of events. */
  function Run(s: State, es: seq<Event>, be: Backend): State
    decreases |es|
  {
    if es == [] then s else Run(Step(s, es[0], be).next, es[1..], be)
  }

  /** Every event keeps the invariant. */
  lemma StepKeepsInv(s: State, e: Event, be: Backend)
    requires Inv(s)
    ensures Inv(Step(s, e, be).next)
  {
  }

  /** The invariant holds after any sequence of events from the initial record. */
  lemma {:induction false} RunKeepsInv(s: State, es: seq<Event>, be: Backend)
    requires Inv(s)
    ensures Inv(Run(s, es, be))
    decreases |es|
  {
    if es != [] {
      StepKeepsInv(s, es[0], be);
      RunKeepsInv(Step(s, es[0], be).next, es[1..], be);
    }
  }

  /** The questions of `es`, run from `s`, that the chain answered with a hedge. */
  function HedgedQuestions(s: State, es: seq<Event>, be: Backend): set<string>
    decreases |es|
  {
    if es == [] then {}
    else
      (if Hedged(s, es[0], be) then {es[0].question} else {}) +
      HedgedQuestions(Step(s, es[0], be).next, es[1..], be)
  }

  /** A pending question (or an offer) drawn from `seen` stays drawn from `seen` plus the
      questions answered with a hedge on the way. */
  lemma {:induction false} PendingWithin(s: State, es: seq<Event>, be: Backend, seen: set<string>)
    requires s.pendingQuestion.Some? ==> s.pendingQuestion.value in seen
    requires s.offer.Some? ==> s.offer.value in seen
    ensures Run(s, es, be).pendingQuestion.Some? ==>
      Run(s, es, be).pendingQuestion.value in seen + HedgedQuestions(s, es, be)
    decreases |es|
  {
    if es != [] {
      var next := Step(s, es[0], be).next;
      var seen' := seen + (if Hedged(s, es[0], be) then {es[0].question} else {});
      assert next.pendingQuestion.Some? ==> next.pendingQuestion.value in seen';
      PendingWithin(next, es[1..], be, seen');
    }
  }

  /** Web mode holds on to a question only if that question was answered with a hedge:
      from a record with no pending question and no offer (the initial one, say), whatever
      question ends up pending is one the chain hedged on. */
  lemma PendingWasHedged(s: State, es: seq<Event>, be: Backend)
    requires s.pendingQuestion == None && s.offer == None
    ensures Run(s, es, be).pendingQuestion.Some? ==>
      Run(s, es, be).pendingQuestion.value in HedgedQuestions(s, es, be)
  {
    PendingWithin(s, es, be, {});
  }

  /** How many events of `es`, run from `s`, are answered on the web path. */
  function WebAnswers(s: State, es: seq<Event>, be: Backend): nat
    decreases |es|
  {
    if es == [] then 0
    else (if Route(s, es[0]) == WebPath then 1 else 0) + WebAnswers(Step(s, es[0], be).next, es[1..], be)
  }

  /** How many presses of "Yes, search web" `es` holds. */
  function Accepts(es: seq<Event>): nat {
    if es == [] then 0 else (if es[0].AcceptFallback? then 1 else 0) + Accepts(es[1..])
  }

  /** The fallback is one-shot: every web-path answer uses up one acceptance (or the flag
      already set at the start), so there are never more web answers than that. */
  lemma {:induction false} WebAnswersBounded(s: State, es: seq<Event>, be: Backend)
    ensures WebAnswers(s, es, be) <= (if s.webMode then 1 else 0) + Accepts(es)
    decreases |es|
  {
    if es != [] {
      var next := Step(s, es[0], be).next;
      WebAnswersBounded(next, es[1..], be);
      assert Route(s, es[0]) == WebPath ==> s.webMode && !next.webMode;
      assert !es[0].AcceptFallback? && Route(s, es[0]) != WebPath ==> next.webMode == s.webMode;
    }
  }

  /** Only a successful "Process" on a non-empty upload list replaces the chain's vector
      store; questions change only its memory. */
  lemma {:induction false} IndexOnlyByProcess(s: State, es: seq<Event>, be: Backend)
    requires forall k :: 0 <= k < |es| ==> !(es[k].Process? && es[k].uploads != [])
    ensures Run(s, es, be).conversation.Some? <==> s.conversation.Some?
    ensures s.conversation.Some? ==> Run(s, es, be).conversation.value.index == s.conversation.value.index
    decreases |es|
  {
    if es != [] {
      assert forall k :: 0 <= k < |es| - 1 ==> es[1..][k] == es[k + 1];
      IndexOnlyByProcess(Step(s, es[0], be).next, es[1..], be);
    }
  }

  /** After a successful question the chain's memory is the history the session shows,
      so asking again is asked against it. */
  lemma MemoryIsHistory(s: State, q: string, be: Backend)
    requires Route(s, Submit(q)) == RagPath && be.invoke(s.conversation.value, q).Some?
    ensures var next := Step(s, Submit(q), be).next;
      next.conversation.Some? && next.conversation.value.memory == next.chatHistory
  {
  }

  /** Pressing "Yes" on the offer for `q` and then asking `q2` types out `q2` on the web
      path and leaves the record as before the offer, flags cleared: the stored pending
      question is never used. */
  lemma AcceptThenAsk(s: State, q: string, q2: string, be: Backend)
    requires s.offer == Some(q) && q2 != ""
    ensures var t := Step(Step(s, AcceptFallback, be).next, Submit(q2), be);
      t.shown == Typed(WebChatText(q2)) &&
      t.next == s.(webMode := false, pendingQuestion := None, offer := None)
  {
  }

  /** The mutable session record kept by the web framework between interactions, with the
      question of the fallback buttons currently on screen. */
  class Session {
    var conversation: Option<Chain>
    var chatHistory: seq<Message>
    var webMode: bool
    var pendingQuestion: Option<string>
    var offer: Option<string>

    /** The record as a value. */
    function Snapshot(): State
      reads this
    {
      State(conversation, chatHistory, webMode, pendingQuestion, offer)
    }

    /** The initialisation in `main`: no chain, empty history, fallback off. */
    constructor ()
      ensures Snapshot() == Initial
      ensures Inv(Snapshot())
    {
      conversation := None;
      chatHistory := [];
      webMode := false;
      pendingQuestion := None;
      offer := None;
    }

    /** `handle_web_chat`: types the fixed banner and the question, then clears both
        fallback fields, whatever the question. */
    method HandleWebChat(q: string) returns (shown: Display)
      modifies this
      ensures shown == Typed(WebChatText(q))
      ensures !webMode && pendingQuestion == None
      ensures conversation == old(conversation) && chatHistory == old(chatHistory) && offer == old(offer)
    {
      shown := Typed(WebChatText(q));
      webMode := false;
      pendingQuestion := None;
    }

    /** `handle_userinput`: asks the chain, stores the history it returns (which is now
        also the chain's memory), and either types the answer or draws the fallback
        buttons for `q` when the answer hedges. A failing chain changes nothing. */
    method HandleUserInput(q: string, be: Backend) returns (shown: Display)
      requires conversation.Some?
      modifies this
      ensures var reply := be.invoke(old(conversation).value, q);
        if reply.None? then
          shown == Raised && conversation == old(conversation) && chatHistory == old(chatHistory) && offer == old(offer)
        else
          conversation == Some(old(conversation).value.(memory := reply.value.history)) &&
          chatHistory == reply.value.history &&
          offer == (if AnswerNotInDocs(reply.value.answer) then Some(q) else old(offer)) &&
          shown == (if AnswerNotInDocs(reply.value.answer) then Markdown(FallbackOffer) else Typed(reply.value.answer))
      ensures webMode == old(webMode) && pendingQuestion == old(pendingQuestion)
    {
      var chain := conversation.value;
      var reply := be.invoke(chain, q);
      if reply.None? {
        shown := Raised;
      } else {
        conversation := Some(chain.(memory := reply.value.history));
        chatHistory := reply.value.history;
        if AnswerNotInDocs(reply.value.answer) {
          offer := Some(q);
          shown := Markdown(FallbackOffer);
        } else {
          shown := Typed(reply.value.answer);
        }
      }
    }

    /** A chat submission, dispatched as `main` does. */
    method Submit(q: string, be: Backend) returns (shown: Display)
      modifies this
      ensures Snapshot() == Step(old(Snapshot()), Event.Submit(q), be).next
      ensures shown == Step(old(Snapshot()), Event.Submit(q), be).shown
      ensures Inv(old(Snapshot())) ==> Inv(Snapshot())
    {
      offer := None;
      if q == "" {
        shown := Silent;
      } else if webMode {
        shown := HandleWebChat(q);
      } else if conversation.Some? {
        shown := HandleUserInput(q, be);
      } else {
        shown := Warning(NoDocumentsWarning);
      }
    }

    /** The "Process" button with the current upload list. */
    method Process(uploads: seq<Upload>, be: Backend) returns (shown: Display)
      modifies this
      ensures Snapshot() == Step(old(Snapshot()), Event.Process(uploads), be).next
      ensures shown == Step(old(Snapshot()), Event.Process(uploads), be).shown
      ensures Inv(old(Snapshot())) ==> Inv(Snapshot())
    {
      offer := None;
      if uploads == [] {
        shown := Warning(NoUploadWarning);
      } else {
        var index := be.build(uploads);
        if index.None? {
          shown := Raised;
        } else {
          conversation := Some(Chain(index.value, []));
          shown := Success(ProcessedNotice);
        }
      }
    }

    /** "Yes, search web": stores the question the buttons were drawn for and switches web
        mode on, both together. */
    method AcceptFallback() returns (shown: Display)
      modifies this
      ensures old(offer).Some? ==> webMode && pendingQuestion == old(offer) && offer.None?
      ensures old(offer).None? ==> Snapshot() == old(Snapshot())
      ensures conversation == old(conversation) && chatHistory == old(chatHistory)
      ensures shown == if old(offer).Some? then Success(WebEnabledNotice) else Silent
      ensures Inv(old(Snapshot())) ==> Inv(Snapshot())
    {
      if offer.None? {
        shown := Silent;
      } else {
        webMode := true;
        pendingQuestion := offer;
        offer := None;
        shown := Success(WebEnabledNotice);
      }
    }

    /** "No": an info box; the buttons go and the record is otherwise left as it is. */
    method DeclineFallback() returns (shown: Display)
      modifies this
      ensures Snapshot() == old(Snapshot()).(offer := None)
      ensures shown == if old(offer).Some? then Info(DeclinedNotice) else Silent
    {
      if offer.None? {
        shown := Silent;
      } else {
        offer := None;
        shown := Info(DeclinedNotice);
      }
    }

    /** The sidebar export: a story is built only once the history is non-empty. */
    method ExportStory(date: string) returns (story: Option<seq<Transcript.Block>>)
      ensures story.Some? <==> chatHistory != []
      ensures story.Some? ==> story.value == Transcript.Story(chatHistory, date)
      ensures story.Some? ==> |story.value| == 4 + 2 * |chatHistory|
    {
      if chatHistory == [] {
        story := None;
      } else {
        var blocks := Transcript.BuildStory(chatHistory, date);
        story := Some(blocks);
      }
    }
  }
}
