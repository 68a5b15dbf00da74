/** The live interview window: who has the floor (`InterviewState`), the
    transcript shown on screen, and the handlers that move between them.

    The pure transition function `Apply` is the specification; the class
    `Controller` holds the component's state and each of its handlers is proved
    to perform exactly one `Apply` step. Browser capabilities (speech
    recognition present, socket open) arrive as boolean inputs. What is sent
    over the socket is recorded in a ghost log, each entry together with the
    transcript length at the moment of sending. */
module InterviewWindow {
  import opened Domain

  datatype InterviewState = Idle | Listening | Processing | Speaking

  /** How the microphone button is drawn. */
  datatype ButtonState = ButtonState(text: string, color: string, disabled: bool)

  /** `getButtonState`: the microphone button may be pressed while the
      candidate has the floor (idle or listening), never while the answer is
      processed or the interviewer speaks. The source's `default` branch is
      unreachable, since the state has only these four values. */
  function GetButtonState(s: InterviewState): (b: ButtonState)
    ensures b.disabled <==> (s == Processing || s == Speaking)
    ensures b.text == "Speak" <==> s == Idle
  {
    match s
    case Idle => ButtonState("Speak", "bg-green-500", false)
    case Listening => ButtonState("Listening...", "bg-red-500", false)
    case Processing => ButtonState("Processing...", "bg-yellow-500", true)
    case Speaking => ButtonState("AI Speaking...", "bg-blue-500", true)
  }

  /** The "End Interview" button is greyed out while processing. */
  predicate EndButtonDisabled(s: InterviewState)
  {
    s == Processing
  }

  /** One message handed to the socket: its text and how long the transcript
      was when it was handed over. */
  datatype Sent = Sent(text: string, at: nat)

  /** Everything the window's handlers read or change. */
  datatype View = View(
    state: InterviewState,
    transcript: seq<Turn>,
    currentAiText: string,
    sent: seq<Sent>,
    closeRequests: nat)

  /** The window as first rendered: the interviewer has the floor, nothing said yet. */
  function Initial(): (v: View)
    ensures v.state == Speaking && v.transcript == [] && v.sent == []
  {
    View(Speaking, [], "", [], 0)
  }

  /** The events the window reacts to. */
  datatype Event =
    | AiSpeaks(text: string)                              // `speak(text)`: first question or socket message
    | UtteranceEnded                                    // the synthesized utterance finished
    | RecognitionResult(answer: string, socketOpen: bool) // recognition `onresult`
    | RecognitionEnded(observed: InterviewState)        // recognition `onend`, reading `observed`
    | MicClicked(recognitionAvailable: bool)            // `handleMicClick`
    | EndClicked                                        // `handleEndInterview`

  /** One handler run. The transcript and the send log only ever grow, by at
      most one entry each; a send always carries the user turn appended just
      before it, at the end of the transcript. */
  function Apply(v: View, e: Event): (w: View)
    ensures v.transcript <= w.transcript && |w.transcript| <= |v.transcript| + 1
    ensures v.sent <= w.sent && |w.sent| <= |v.sent| + 1
    ensures |w.sent| > |v.sent| ==>
      w.transcript == v.transcript + [Turn(User, w.sent[|v.sent|].text)]
      && w.sent[|v.sent|].at == |w.transcript|
    ensures v.closeRequests <= w.closeRequests <= v.closeRequests + 1
  {
    match e
    case AiSpeaks(text) =>
      v.(state := Speaking, transcript := v.transcript + [Turn(Ai, text)], currentAiText := text)
    case UtteranceEnded =>
      v.(state := Idle, currentAiText := "")
    case RecognitionResult(answer, socketOpen) =>
      var t := v.transcript + [Turn(User, answer)];
      v.(transcript := t,
         sent := if socketOpen then v.sent + [Sent(answer, |t|)] else v.sent,
         state := Processing)
    case RecognitionEnded(observed) =>
      if observed == Listening then v.(state := Processing) else v
    case MicClicked(available) =>
      if v.state == Idle && available then v.(state := Listening)
      else if v.state == Listening && available then v.(state := Processing)
      else v
    case EndClicked =>
      v.(state := Processing, closeRequests := v.closeRequests + 1)
  }

  /** Handlers run one after the other, in the order their events arrive. */
  function Run(v: View, es: seq<Event>): View
    decreases |es|
  {
    if es == [] then v else Run(Apply(v, es[0]), es[1..])
  }

  /** Every message sent so far is backed by its own user turn in the
      transcript, appended right before the send; later sends sit later. */
  ghost predicate SendsBacked(v: View)
  {
    && (forall i :: 0 <= i < |v.sent| ==>
          0 < v.sent[i].at <= |v.transcript| && v.transcript[v.sent[i].at - 1] == Turn(User, v.sent[i].text))
    && (forall i, j :: 0 <= i < j < |v.sent| ==> v.sent[i].at < v.sent[j].at)
  }

  /** Each handler keeps the sends backed. */
  lemma ApplyKeepsSendsBacked(v: View, e: Event)
    requires SendsBacked(v)
    ensures SendsBacked(Apply(v, e))
  {
    var w := Apply(v, e);
    forall i | 0 <= i < |w.sent|
      ensures 0 < w.sent[i].at <= |w.transcript| && w.transcript[w.sent[i].at - 1] == Turn(User, w.sent[i].text)
    {
      if i < |v.sent| {
        assert w.sent[i] == v.sent[i];
        assert w.transcript[v.sent[i].at - 1] == v.transcript[v.sent[i].at - 1];
      }
    }
    forall i, j | 0 <= i < j < |w.sent| ensures w.sent[i].at < w.sent[j].at {
      if j >= |v.sent| {
        assert w.sent[i] == v.sent[i];
      } else {
        assert w.sent[i] == v.sent[i] && w.sent[j] == v.sent[j];
      }
    }
  }

  /** Over any sequence of events the sends stay backed. */
  lemma {:induction false} RunKeepsSendsBacked(v: View, es: seq<Event>)
    requires SendsBacked(v)
    ensures SendsBacked(Run(v, es))
    decreases |es|
  {
    if es != [] {
      ApplyKeepsSendsBacked(v, es[0]);
      RunKeepsSendsBacked(Apply(v, es[0]), es[1..]);
    }
  }

  /** Over any sequence of events the transcript and the send log only grow:
      nothing already recorded is changed, removed or reordered. */
  lemma {:induction false} RunOnlyAppends(v: View, es: seq<Event>)
    ensures v.transcript <= Run(v, es).transcript
    ensures v.sent <= Run(v, es).sent
    decreases |es|
  {
    if es != [] {
      RunOnlyAppends(Apply(v, es[0]), es[1..]);
    }
  }

  /** How many events put a turn on the transcript. */
  function Utterances(es: seq<Event>): nat
    decreases |es|
  {
    if es == [] then 0
    else (if es[0].AiSpeaks? || es[0].RecognitionResult? then 1 else 0) + Utterances(es[1..])
  }

  /** How many recognized answers found the socket open. */
  function OpenAnswers(es: seq<Event>): nat
    decreases |es|
  {
    if es == [] then 0
    else (if es[0].RecognitionResult? && es[0].socketOpen then 1 else 0) + OpenAnswers(es[1..])
  }

  /** Exactly one transcript entry per utterance and exactly one send per
      answer recognized while the socket was open. */
  lemma {:induction false} RunCounts(v: View, es: seq<Event>)
    ensures |Run(v, es).transcript| == |v.transcript| + Utterances(es)
    ensures |Run(v, es).sent| == |v.sent| + OpenAnswers(es)
    decreases |es|
  {
    if es != [] {
      RunCounts(Apply(v, es[0]), es[1..]);
    }
  }

  /** A click on the microphone changes the state exactly when the button is
      enabled and recognition is available; a click never touches the transcript. */
  lemma MicClickMatchesButton(v: View, available: bool)
    ensures Apply(v, MicClicked(available)).state != v.state
        <==> available && !GetButtonState(v.state).disabled
    ensures Apply(v, MicClicked(available)).transcript == v.transcript
  {
  }

  /** Recognition `onend` changes something only when it reads `Listening`.
      The handler is installed once, at mount, and reads the state of that first
      render, `Speaking`; with that value it never changes anything. */
  lemma RecognitionEndGuard(v: View, observed: InterviewState)
    ensures Apply(v, RecognitionEnded(observed)) != v ==> observed == Listening
    ensures Apply(v, RecognitionEnded(Initial().state)) == v
  {
  }

  /** Ending the interview leaves both buttons disabled, from any state, and
      asks for the socket to be closed once. */
  lemma EndClickedDisablesButtons(v: View)
    ensures EndButtonDisabled(Apply(v, EndClicked).state)
    ensures GetButtonState(Apply(v, EndClicked).state).disabled
    ensures Apply(v, EndClicked).closeRequests == v.closeRequests + 1
  {
  }

  /** One full exchange from the first render: the first question is spoken, the
      candidate answers over an open socket and the reply is spoken. */
  lemma OneExchange(question: string, answer: string, reply: string)
    ensures var w := Run(Initial(), [AiSpeaks(question), UtteranceEnded, MicClicked(true),
                                      RecognitionResult(answer, true), AiSpeaks(reply)]);
      w.transcript == [Turn(Ai, question), Turn(User, answer), Turn(Ai, reply)]
      && w.sent == [Sent(answer, 2)] && w.state == Speaking
  {
    var e0, e1, e2, e3, e4 := AiSpeaks(question), UtteranceEnded, MicClicked(true),
                              RecognitionResult(answer, true), AiSpeaks(reply);
    var v1 := Apply(Initial(), e0);
    var v2 := Apply(v1, e1);
    var v3 := Apply(v2, e2);
    var v4 := Apply(v3, e3);
    var v5 := Apply(v4, e4);
    assert v3.state == Listening && v3.transcript == [Turn(Ai, question)];
    assert v5.transcript == [Turn(Ai, question), Turn(User, answer), Turn(Ai, reply)];
    assert Run(v5, []) == v5;
    assert Run(v4, [e4]) == v5;
    assert Run(v3, [e3, e4]) == Run(v4, [e4]);
    assert Run(v2, [e2, e3, e4]) == Run(v3, [e3, e4]);
    assert Run(v1, [e1, e2, e3, e4]) == Run(v2, [e2, e3, e4]);
    assert Run(Initial(), [e0, e1, e2, e3, e4]) == Run(v1, [e1, e2, e3, e4]);
  }

  /** The window's state, as React keeps it. */
  class Controller {
    const sessionId: string
    var state: InterviewState
    var transcript: seq<Turn>
    var currentAiText: string
    ghost var sent: seq<Sent>
    ghost var closeRequests: nat

    ghost function Snapshot(): View
      reads this
    {
      View(state, transcript, currentAiText, sent, closeRequests)
    }

    ghost predicate Valid()
      reads this
    {
      SendsBacked(Snapshot())
    }

    constructor (sessionId: string)
      ensures Valid() && this.sessionId == sessionId
      ensures Snapshot() == Initial()
    {
      this.sessionId := sessionId;
      state := Speaking;
      transcript := [];
      currentAiText := "";
      sent := [];
      closeRequests := 0;
    }

    /** `speak(text)`: the interviewer takes the floor and its line goes on
        the transcript. */
    method Speak(text: string)
      requires Valid()
      modifies this
      ensures Valid() && Snapshot() == Apply(old(Snapshot()), AiSpeaks(text))
      ensures state == Speaking && currentAiText == text
      ensures transcript == old(transcript) + [Turn(Ai, text)] && sent == old(sent)
    {
      ApplyKeepsSendsBacked(Snapshot(), AiSpeaks(text));
      state := Speaking;
      transcript := transcript + [Turn(Ai, text)];
      currentAiText := text;
    }

    /** The mount effect: a first question left by the start form is spoken
        (when present and non-empty). */
    method Mount(firstQuestion: Option<string>)
      requires Valid()
      modifies this
      ensures Valid()
      ensures Snapshot() == if firstQuestion.Some? && firstQuestion.value != ""
                            then Apply(old(Snapshot()), AiSpeaks(firstQuestion.value))
                            else old(Snapshot())
    {
      if firstQuestion.Some? && firstQuestion.value != "" {
        Speak(firstQuestion.value);
      }
    }

    /** Socket `onmessage`: the reply is spoken. */
    method OnSocketMessage(data: string)
      requires Valid()
      modifies this
      ensures Valid() && Snapshot() == Apply(old(Snapshot()), AiSpeaks(data))
    {
      Speak(data);
    }

    /** Utterance `onend`: the floor is free again and the caption is cleared. */
    method OnUtteranceEnd()
      requires Valid()
      modifies this
      ensures Valid() && Snapshot() == Apply(old(Snapshot()), UtteranceEnded)
      ensures state == Idle && currentAiText == ""
      ensures transcript == old(transcript) && sent == old(sent)
    {
      state := Idle;
      currentAiText := "";
    }

    /** Recognition `onresult`: the answer goes on the transcript first, is then
        sent if the socket is open, and the window waits for the reply. */
    method OnRecognitionResult(answer: string, socketOpen: bool)
      requires Valid()
      modifies this
      ensures Valid() && Snapshot() == Apply(old(Snapshot()), RecognitionResult(answer, socketOpen))
      ensures state == Processing && transcript == old(transcript) + [Turn(User, answer)]
      ensures sent == if socketOpen then old(sent) + [Sent(answer, |transcript|)] else old(sent)
    {
      ApplyKeepsSendsBacked(Snapshot(), RecognitionResult(answer, socketOpen));
      transcript := transcript + [Turn(User, answer)];
      if socketOpen {
        sent := sent + [Sent(answer, |transcript|)];
      }
      state := Processing;
    }

    /** Recognition `onend`, reading `observed` as the state. */
    method OnRecognitionEnd(observed: InterviewState)
      requires Valid()
      modifies this
      ensures Valid() && Snapshot() == Apply(old(Snapshot()), RecognitionEnded(observed))
      ensures state == if observed == Listening then Processing else old(state)
      ensures transcript == old(transcript) && sent == old(sent)
    {
      if observed == Listening {
        state := Processing;
      }
    }

    /** `handleMicClick`: start listening from idle, stop and process from
        listening; nothing otherwise or without recognition. */
    method HandleMicClick(recognitionAvailable: bool)
      requires Valid()
      modifies this
      ensures Valid() && Snapshot() == Apply(old(Snapshot()), MicClicked(recognitionAvailable))
      ensures old(state) == Idle && recognitionAvailable ==> state == Listening
      ensures old(state) == Listening && recognitionAvailable ==> state == Processing
      ensures !recognitionAvailable || old(state) in {Processing, Speaking} ==> state == old(state)
      ensures transcript == old(transcript) && sent == old(sent)
    {
      if state == Idle && recognitionAvailable {
        state := Listening;
      } else if state == Listening && recognitionAvailable {
        state := Processing;
      }
    }

    /** `handleEndInterview`: processing from any state, the socket is asked
        to close, and the route of the results page is returned. */
    method HandleEndInterview() returns (route: string)
      requires Valid()
      modifies this
      ensures Valid() && Snapshot() == Apply(old(Snapshot()), EndClicked)
      ensures state == Processing && closeRequests == old(closeRequests) + 1
      ensures transcript == old(transcript) && sent == old(sent)
      ensures route == "/results/" + sessionId
    {
      state := Processing;
      closeRequests := closeRequests + 1;
      route := "/results/" + sessionId;
    }
  }
}
