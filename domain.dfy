/** Values shared by the browser client and the interview server: who spoke a
    turn, the turn itself, the reply to "start an interview" and the final
    feedback record. */
module Domain {

  /** An optional value: `None` stands for JavaScript's `null` and Python's `None`. */
  datatype Option<+T> = None | Some(value: T)

  /** The two parties of an interview. */
  datatype Speaker = Ai | User

  /** One utterance of the conversation. */
  datatype Turn = Turn(speaker: Speaker, text: string)

  /** The name a speaker is stored and shown under: "ai" or "user". */
  function SpeakerName(s: Speaker): (name: string)
    ensures name == "ai" || name == "user"
    ensures ':' !in name
  {
    match s
    case Ai => "ai"
    case User => "user"
  }

  /** What starting an interview hands back to the client. */
  datatype InterviewResponse = InterviewResponse(sessionId: int, firstQuestion: string)

  /** The scorecard shown on the results page. */
  datatype Feedback = Feedback(
    overallSummary: string,
    strengths: seq<string>,
    areasForImprovement: seq<string>,
    score: int)
}
