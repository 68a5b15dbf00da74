/** The prompts the interview server sends to the language model, and the two
    questions it asks of it. The model itself is the parameter `gen`: the text
    it answers for a prompt. */
module GeminiService {
  import opened Domain
  import opened Text

  /** Python truthiness of `resume_text: str | None`: both `None` and `""` are false. */
  predicate Truthy(resumeText: Option<string>)
  {
    resumeText.Some? && resumeText.value != ""
  }

  const InterviewerOpening: string := "You are an expert interviewer hiring for a "

  /** The fixed opening of the first-question prompt, with the role in single quotes. */
  function InterviewerPreamble(role: string): string
  {
    InterviewerOpening + ("'" + role + "'") + PreambleRest
  }

  const PreambleRest: string :=
    " position. Your goal is to conduct a friendly but effective screening interview. Start the interview with your first question."

  const ResumeHeader: string :=
    "\n\nThe candidate has submitted the following resume. Use it to inform your first question:\n---RESUME---\n"
  const ResumeFooter: string := "\n---END RESUME---"

  /** The prompt for the first question: the preamble, then the resume section
      when there is a non-empty resume. */
  function InitialPrompt(role: string, resumeText: Option<string>): string
  {
    if Truthy(resumeText)
    then InterviewerPreamble(role) + ResumeHeader + resumeText.value + ResumeFooter
    else InterviewerPreamble(role)
  }

  /** The first-question prompt always opens with the preamble naming the role
      in quotes; a truthy resume adds the delimited section after it, and
      anything else adds nothing. */
  lemma InitialPromptShape(role: string, resumeText: Option<string>)
    ensures StartsWith(InitialPrompt(role, resumeText), InterviewerPreamble(role))
    ensures OccursAt(InitialPrompt(role, resumeText), "'" + role + "'", |InterviewerOpening|)
    ensures !Truthy(resumeText) <==> InitialPrompt(role, resumeText) == InterviewerPreamble(role)
    ensures Truthy(resumeText) ==>
      var p := InitialPrompt(role, resumeText);
      StartsWith(p, InterviewerPreamble(role) + ResumeHeader) && EndsWith(p, ResumeFooter)
      && |p| == |InterviewerPreamble(role)| + |ResumeHeader| + |resumeText.value| + |ResumeFooter|
  {
    var preamble := InterviewerPreamble(role);
    var quoted := "'" + role + "'";
    OccursBetween(InterviewerOpening, quoted, PreambleRest);
    if Truthy(resumeText) {
      var p := InitialPrompt(role, resumeText);
      Framed(preamble + ResumeHeader, resumeText.value, ResumeFooter);
      Framed(preamble, ResumeHeader, resumeText.value + ResumeFooter);
      assert StartsWith(p, preamble) by {
        assert p[..|preamble|] == (preamble + ResumeHeader)[..|preamble|];
      }
      assert OccursAt(p, quoted, |InterviewerOpening|) by {
        assert p[..|preamble|] == preamble;
        assert p[|InterviewerOpening|..|InterviewerOpening| + |quoted|]
            == preamble[|InterviewerOpening|..|InterviewerOpening| + |quoted|];
      }
    } else {
      Framed(preamble, "", "");
    }
  }

  /** The resume a first-question prompt carries, read back out of it. */
  function ResumeSection(prompt: string, role: string): (r: Option<string>)
    ensures r.Some? ==> r.value != ""
  {
    var start := |InterviewerPreamble(role)| + |ResumeHeader|;
    if StartsWith(prompt, InterviewerPreamble(role) + ResumeHeader) && EndsWith(prompt, ResumeFooter)
       && start + |ResumeFooter| < |prompt|
    then Some(prompt[start..|prompt| - |ResumeFooter|])
    else None
  }

  /** The resume section is there exactly when the resume is truthy, and then it
      holds the resume text unchanged: nothing else of the prompt leaks in. */
  lemma ResumeSectionRoundTrip(role: string, resumeText: Option<string>)
    ensures ResumeSection(InitialPrompt(role, resumeText), role)
         == if Truthy(resumeText) then Some(resumeText.value) else None
  {
    InitialPromptShape(role, resumeText);
    if Truthy(resumeText) {
      Framed(InterviewerPreamble(role) + ResumeHeader, resumeText.value, ResumeFooter);
    }
  }

  /** Without a resume file the server passes `""`, which adds no resume section. */
  lemma EmptyResumeAddsNothing(role: string)
    ensures InitialPrompt(role, Some("")) == InterviewerPreamble(role)
    ensures ResumeSection(InitialPrompt(role, Some("")), role) == None
  {
    ResumeSectionRoundTrip(role, Some(""));
  }

  const FollowUpPreamble: string :=
    "You are an expert interviewer. The following is the conversation so far. Ask the next relevant follow-up question.\n\n"
  const InterviewerCue: string := "\n\nInterviewer:"

  /** The prompt for a follow-up question: the preamble, the history one entry
      per line, then a cue for the interviewer's next line. */
  function FollowUpPrompt(history: seq<string>): (p: string)
    ensures StartsWith(p, FollowUpPreamble)
    ensures EndsWith(p, InterviewerCue) && EndsWith(p, "Interviewer:")
    ensures |p| == |FollowUpPreamble| + |Join(history, "\n")| + |InterviewerCue|
  {
    var p := FollowUpPreamble + Join(history, "\n") + InterviewerCue;
    assert p[|p| - |InterviewerCue|..] == InterviewerCue;
    assert p[|p| - |"Interviewer:"|..] == InterviewerCue[2..];
    p
  }

  /** The text between the preamble and the cue of a follow-up prompt; `None`
      when the prompt is too short to hold both without overlap. */
  function HistoryBlock(prompt: string): Option<string>
  {
    if |FollowUpPreamble| + |InterviewerCue| <= |prompt|
    then Some(prompt[|FollowUpPreamble|..|prompt| - |InterviewerCue|])
    else None
  }

  /** A follow-up prompt carries exactly the joined history between its
      preamble and its cue. */
  lemma HistoryBlockRoundTrip(history: seq<string>)
    ensures HistoryBlock(FollowUpPrompt(history)) == Some(Join(history, "\n"))
  {
    var p := FollowUpPrompt(history);
    assert p == FollowUpPreamble + Join(history, "\n") + InterviewerCue;
    assert p[|FollowUpPreamble|..|p| - |InterviewerCue|] == Join(history, "\n");
  }

  /** Every history entry appears in the follow-up prompt, in history order,
      each on its own line. */
  lemma FollowUpPromptHistoryInOrder(history: seq<string>, i: nat)
    requires i < |history|
    ensures OccursAt(FollowUpPrompt(history), history[i], |FollowUpPreamble| + Offset(history, "\n", i))
    ensures i + 1 < |history| ==>
      OccursAt(FollowUpPrompt(history), "\n", |FollowUpPreamble| + Offset(history, "\n", i) + |history[i]|)
      && Offset(history, "\n", i + 1) == Offset(history, "\n", i) + |history[i]| + 1
  {
    var joined := Join(history, "\n");
    JoinAt(history, "\n", i);
    assert FollowUpPrompt(history) == FollowUpPreamble + (joined + InterviewerCue);
    OccursBefore(joined, InterviewerCue, history[i], Offset(history, "\n", i));
    OccursAfter(FollowUpPreamble, joined + InterviewerCue, history[i], Offset(history, "\n", i));
    if i + 1 < |history| {
      OccursBefore(joined, InterviewerCue, "\n", Offset(history, "\n", i) + |history[i]|);
      OccursAfter(FollowUpPreamble, joined + InterviewerCue, "\n", Offset(history, "\n", i) + |history[i]|);
      OffsetStep(history, "\n", i);
    }
  }

  /** `generate_initial_question`: the model's text, returned unchanged, for a
      prompt that opens with the preamble naming the role and carries the
      resume section exactly when the resume is truthy, holding that resume. */
  function GenerateInitialQuestion(gen: string -> string, role: string, resumeText: Option<string>): (q: string)
    ensures exists p :: (q == gen(p)
      && StartsWith(p, InterviewerPreamble(role))
      && ResumeSection(p, role) == (if Truthy(resumeText) then Some(resumeText.value) else None)
      && (!Truthy(resumeText) ==> p == InterviewerPreamble(role)))
  {
    var p := InitialPrompt(role, resumeText);
    InitialPromptShape(role, resumeText);
    ResumeSectionRoundTrip(role, resumeText);
    gen(p)
  }

  /** `generate_follow_up_question`: the model's text, returned unchanged, for a
      prompt that opens with the follow-up preamble, ends with the interviewer
      cue, and holds exactly the history joined by newlines in between. */
  function GenerateFollowUpQuestion(gen: string -> string, history: seq<string>): (q: string)
    ensures exists p :: (q == gen(p)
      && StartsWith(p, FollowUpPreamble) && EndsWith(p, InterviewerCue)
      && HistoryBlock(p) == Some(Join(history, "\n")))
  {
    var p := FollowUpPrompt(history);
    HistoryBlockRoundTrip(history);
    gen(p)
  }
}
