/** The in-browser stand-in for the interview server: a canned first question,
    a rotation through five canned follow-ups, and a fixed scorecard. */
module MockApi {
  import opened Domain
  import opened Text

  const MockSessionId: int := 12345

  const ResumeThanks: string := "Thank you for uploading your resume for the "
  const ResumeRest: string :=
    " position. I see you have experience with [mock skill from resume]. Can you tell me more about that?"
  const PlainOpening: string :=
    "Okay, thank you for coming in today. " + "Can you tell me about your experience as a "
  const PlainRest: string := "?"

  /** The first question of a mock interview: the resume-acknowledging template
      when a resume file was chosen, the plain one otherwise; both name the role. */
  function FirstQuestion(role: string, hasResume: bool): (q: string)
    ensures OccursAt(q, role, if hasResume then |ResumeThanks| else |PlainOpening|)
    ensures Contains(q, role)
    ensures hasResume <==> StartsWith(q, ResumeThanks)
  {
    if hasResume then
      OccursBetween(ResumeThanks, role, ResumeRest);
      Framed(ResumeThanks, role, ResumeRest);
      ResumeThanks + role + ResumeRest
    else
      var q := PlainOpening + role + PlainRest;
      OccursBetween(PlainOpening, role, PlainRest);
      assert q[0] == PlainOpening[0] != ResumeThanks[0];
      q
  }

  /** `startInterview`: always session 12345, with the template chosen by
      whether a resume file (here its name) was supplied. */
  function StartInterview(role: string, resumeFile: Option<string>): (r: InterviewResponse)
    ensures r.sessionId == MockSessionId
    ensures resumeFile.Some? <==> StartsWith(r.firstQuestion, ResumeThanks)
    ensures Contains(r.firstQuestion, role)
  {
    InterviewResponse(MockSessionId, FirstQuestion(role, resumeFile.Some?))
  }

  const MockResponses: seq<string> := [
    "That's very interesting. Can you elaborate on the most challenging aspect of that?",
    "I see. And how did you measure the success of that project?",
    "Could you describe a time you had to work with a difficult team member?",
    "Thank you for sharing that. What are your salary expectations for this role?",
    "Okay, that's all the questions I have. Do you have any questions for me?"
  ]

  /** The reply of the `n`-th call, counting from 0. */
  function NthReply(n: nat): (r: string)
    ensures r in MockResponses
  {
    MockResponses[n % |MockResponses|]
  }

  /** Replies repeat with period five. */
  lemma RepliesRepeat(n: nat)
    ensures NthReply(n + 5) == NthReply(n)
    ensures n < 5 ==> NthReply(n) == MockResponses[n]
  {
    assert |MockResponses| == 5;
    assert (n + 5) % 5 == n % 5;
  }

  /** Any five consecutive calls return every canned reply. */
  lemma PeriodCoversAll(base: nat, k: nat)
    requires k < 5
    ensures exists n :: base <= n < base + 5 && NthReply(n) == MockResponses[k]
  {
    assert |MockResponses| == 5;
    var n := base + (k + 5 - base % 5) % 5;
    assert n % 5 == k;
    assert NthReply(n) == MockResponses[k];
  }

  /** The mock's conversation state. The source keeps the counter at module
      level; here each interviewer object owns its own. */
  class MockInterviewer {
    var responseIndex: nat

    constructor ()
      ensures responseIndex == 0
    {
      responseIndex := 0;
    }

    /** `getMockAiResponse`: the reply at the current index (the answer is not
        looked at), then the index moves on by one. */
    method GetMockAiResponse(userAnswer: string) returns (response: string)
      modifies this
      ensures response == NthReply(old(responseIndex))
      ensures response == MockResponses[old(responseIndex) % 5]
      ensures responseIndex == old(responseIndex) + 1
    {
      response := MockResponses[responseIndex % |MockResponses|];
      responseIndex := responseIndex + 1;
    }
  }

  /** `getInterviewResults`: the same scorecard for every session. */
  function GetInterviewResults(sessionId: string): (f: Feedback)
    ensures f.score == 8 && 0 <= f.score <= 10
    ensures |f.strengths| == 3 && |f.areasForImprovement| == 2
  {
    Feedback(
      "This was a solid mock interview. The candidate provided good answers but could be more specific with examples to better showcase their skills.",
      [ "Demonstrated clear communication.",
        "Showed a positive and professional attitude throughout.",
        "Good foundational knowledge of the role's requirements." ],
      [ "Structure answers using the STAR method for better clarity.",
        "Provide more data-driven examples to quantify achievements." ],
      8)
  }

  /** The scorecard does not depend on the session asked about. */
  lemma ResultsIgnoreSession(a: string, b: string)
    ensures GetInterviewResults(a) == GetInterviewResults(b)
  {
  }
}
