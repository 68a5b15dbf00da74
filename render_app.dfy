/** The single-file deployment of the interview server. Its prompt builders
    and its WebSocket loop are copies of those in `GeminiService` and
    `WebSockets` and are modelled by them; what is its own is how an
    interview is created. */
module RenderApp {
  import opened Domain
  import opened GeminiService
  import opened TurnStore
  import WebSockets

  /** `create_interview`: the resume text is `""` without a file (with one, the
      text parsed from it, given here as `parsedResume`); the first question
      is asked of the model, the interview row is committed, then one `ai`
      turn holding the first question; the new row's id is returned. */
  method CreateInterview(db: Database, role: string, parsedResume: Option<string>, gen: string -> string)
    returns (response: InterviewResponse)
    requires db.Valid()
    modifies db
    ensures db.Valid()
    ensures var resumeText := if parsedResume.Some? then parsedResume.value else "";
      && response.firstQuestion == gen(InitialPrompt(role, Some(resumeText)))
      && response.sessionId == old(db.nextId) && response.sessionId !in old(db.interviews)
      && db.interviews == old(db.interviews)[response.sessionId := Interview(role, resumeText, "started")]
      && db.turns == old(db.turns)[response.sessionId := [Turn(Ai, response.firstQuestion)]]
    ensures db.Log(response.sessionId) == [Turn(Ai, response.firstQuestion)]
    ensures parsedResume.None? ==> response.firstQuestion == gen(InterviewerPreamble(role))
  {
    var resumeText := "";
    if parsedResume.Some? {
      resumeText := parsedResume.value;
    }
    EmptyResumeAddsNothing(role);
    var firstQuestion := GenerateInitialQuestion(gen, role, Some(resumeText));
    var id := db.AddInterview(role, resumeText);
    assert db.Log(id) == [];
    ghost var before := db.turns;
    var ok := db.AddTurn(id, Turn(Ai, firstQuestion));
    assert ok;
    assert [] + [Turn(Ai, firstQuestion)] == [Turn(Ai, firstQuestion)];
    assert db.turns == before[id := [Turn(Ai, firstQuestion)]];
    response := InterviewResponse(id, firstQuestion);
  }

  /** This deployment's `websocket_endpoint`: the same loop as `WebSockets.Serve`,
      without the connection registry. */
  method WebSocketEndpoint(db: Database, sessionId: int, answers: seq<string>, gen: string -> string)
    returns (replies: seq<string>, failed: bool)
    requires db.Valid()
    modifies db
    ensures db.Valid() && db.interviews == old(db.interviews) && db.nextId == old(db.nextId)
    ensures failed <==> sessionId !in db.interviews && answers != []
    ensures failed ==> replies == [] && db.turns == old(db.turns)
    ensures !failed ==>
      var e := WebSockets.Converse(old(db.Log(sessionId)), answers, gen);
      replies == e.replies && db.Log(sessionId) == e.log
      && db.turns == if answers == [] then old(db.turns) else old(db.turns)[sessionId := e.log]
  {
    replies, failed := WebSockets.Serve(db, sessionId, answers, gen);
  }
}
