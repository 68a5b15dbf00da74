/** The interview server's WebSocket side: the registry of open
    connections, and the conversation loop that logs each answer, asks the
    language model for the next question with the whole history, logs that
    question and sends it back. */
module WebSockets {
  import opened Domain
  import opened Text
  import opened GeminiService
  import opened TurnStore

  /** One history line: `"speaker: text"`. */
  function FormatTurn(t: Turn): string
  {
    SpeakerName(t.speaker) + ": " + t.text
  }

  /** Reads a history line back. */
  function ParseTurn(line: string): Option<Turn>
  {
    if StartsWith(line, "ai: ") then Some(Turn(Ai, line[4..]))
    else if StartsWith(line, "user: ") then Some(Turn(User, line[6..]))
    else None
  }

  /** A history line determines its turn: speaker and text are read back unchanged. */
  lemma ParseFormatTurn(t: Turn)
    ensures ParseTurn(FormatTurn(t)) == Some(t)
  {
    var line := FormatTurn(t);
    match t.speaker
    case Ai =>
      assert line == "ai: " + t.text;
      assert line[..4] == "ai: " && line[4..] == t.text;
    case User =>
      assert line == "user: " + t.text;
      assert line[0] == 'u';
      assert line[..6] == "user: " && line[6..] == t.text;
  }

  /** The conversation history handed to the model: one line per turn, in log order. */
  function History(turns: seq<Turn>): (h: seq<string>)
    ensures |h| == |turns|
  {
    seq(|turns|, i requires 0 <= i < |turns| => FormatTurn(turns[i]))
  }

  /** Reads a whole history back. */
  function ParseHistory(lines: seq<string>): Option<seq<Turn>>
    decreases |lines|
  {
    if lines == [] then Some([])
    else
      match (ParseTurn(lines[0]), ParseHistory(lines[1..]))
      case (Some(t), Some(rest)) => Some([t] + rest)
      case _ => None
  }

  /** The history loses nothing: every turn, with its speaker, text and
      position, can be read back from it. */
  lemma {:induction false} HistoryRoundTrip(turns: seq<Turn>)
    ensures ParseHistory(History(turns)) == Some(turns)
    decreases |turns|
  {
    if turns != [] {
      assert History(turns)[1..] == History(turns[1..]);
      ParseFormatTurn(turns[0]);
      HistoryRoundTrip(turns[1..]);
      assert [turns[0]] + turns[1..] == turns;
    }
  }

  /** The history built right after an answer is saved ends with that answer's line. */
  lemma HistoryEndsWithAnswer(log: seq<Turn>, answer: string)
    ensures |History(log + [Turn(User, answer)])| == |log| + 1
    ensures History(log + [Turn(User, answer)])[|log|] == "user: " + answer
    ensures History(log + [Turn(User, answer)])[..|log|] == History(log)
  {
  }

  /** What a stretch of conversation leaves behind: the log and the replies sent. */
  datatype Exchange = Exchange(log: seq<Turn>, replies: seq<string>)

  /** One pass of the conversation loop after `e`: the answer is logged, the
      model is asked (`generate_follow_up_question`) with the history of the
      whole log, and its reply is logged and sent. */
  function Step(e: Exchange, answer: string, gen: string -> string): Exchange
  {
    var withUser := e.log + [Turn(User, answer)];
    var reply := gen(FollowUpPrompt(History(withUser)));
    Exchange(withUser + [Turn(Ai, reply)], e.replies + [reply])
  }

  /** The conversation loop run over `answers`, starting from `log`. */
  function Converse(log: seq<Turn>, answers: seq<string>, gen: string -> string): Exchange
    decreases |answers|
  {
    if answers == [] then Exchange(log, [])
    else Step(Converse(log, answers[..|answers| - 1], gen), answers[|answers| - 1], gen)
  }

  /** A second update of the same key overrides the first. */
  lemma UpdateTwice<K, V>(m: map<K, V>, k: K, a: V, b: V)
    ensures m[k := a][k := b] == m[k := b]
  {
  }

  /** Running the loop over one more answer is one more `Step`. */
  lemma ConverseExtend(log: seq<Turn>, answers: seq<string>, i: nat, gen: string -> string)
    requires i < |answers|
    ensures Converse(log, answers[..i + 1], gen) == Step(Converse(log, answers[..i], gen), answers[i], gen)
  {
    assert answers[..i + 1][..i] == answers[..i];
  }

  /** `e` is what the loop leaves after `answers`, started from `log`: each
      answer added exactly two turns, the user's and then the interviewer's;
      earlier turns are kept; the reply sent for the `i`-th answer is the text
      of the interviewer turn stored for it, and the model was asked with the
      whole log up to and including that answer. */
  ghost predicate Shaped(log: seq<Turn>, answers: seq<string>, e: Exchange, gen: string -> string)
  {
    && |e.log| == |log| + 2 * |answers| && |e.replies| == |answers| && e.log[..|log|] == log
    && (forall i :: 0 <= i < |answers| ==> e.log[|log| + 2 * i] == Turn(User, answers[i]))
    && (forall i :: 0 <= i < |answers| ==> e.log[|log| + 2 * i + 1] == Turn(Ai, e.replies[i]))
    && (forall i :: 0 <= i < |answers| ==>
          e.replies[i] == gen(FollowUpPrompt(History(e.log[..|log| + 2 * i + 1]))))
  }

  /** One more pass keeps the shape. */
  lemma StepKeepsShape(log: seq<Turn>, answers: seq<string>, e: Exchange, answer: string, gen: string -> string)
    requires Shaped(log, answers, e, gen)
    ensures Shaped(log, answers + [answer], Step(e, answer, gen), gen)
  {
    var e' := Step(e, answer, gen);
    var answers' := answers + [answer];
    var n := |answers|;
    var withUser := e.log + [Turn(User, answer)];
    assert e'.log == withUser + [Turn(Ai, e'.replies[n])];
    assert e'.log[..|e.log|] == e.log;
    assert e'.log[..|log|] == log by {
      assert e'.log[..|log|] == e.log[..|log|];
    }
    forall i | 0 <= i < n + 1
      ensures e'.log[|log| + 2 * i] == Turn(User, answers'[i])
      ensures e'.log[|log| + 2 * i + 1] == Turn(Ai, e'.replies[i])
    {
      if i < n {
        assert answers'[i] == answers[i] && e'.replies[i] == e.replies[i];
      }
    }
    forall i | 0 <= i < n + 1
      ensures e'.replies[i] == gen(FollowUpPrompt(History(e'.log[..|log| + 2 * i + 1])))
    {
      if i < n {
        assert e'.replies[i] == e.replies[i];
        assert e'.log[..|log| + 2 * i + 1] == e.log[..|log| + 2 * i + 1];
      } else {
        assert e'.log[..|log| + 2 * i + 1] == withUser;
      }
    }
  }

  /** The whole loop has that shape, for every log, answers and model. */
  lemma {:induction false} ConverseShape(log: seq<Turn>, answers: seq<string>, gen: string -> string)
    ensures Shaped(log, answers, Converse(log, answers, gen), gen)
    decreases |answers|
  {
    if answers == [] {
      assert log[..|log|] == log;
    } else {
      var front := answers[..|answers| - 1];
      ConverseShape(log, front, gen);
      StepKeepsShape(log, front, Converse(log, front, gen), answers[|answers| - 1], gen);
      assert front + [answers[|answers| - 1]] == answers;
    }
  }

  /** A connection; two connections are the same only if they are the same object. */
  class WebSocket {
    constructor ()
    {
    }
  }

  /** The index of the first occurrence of `x` in `s`. */
  function FirstIndex<T(==)>(s: seq<T>, x: T): (i: nat)
    requires x in s
    ensures i < |s| && s[i] == x && x !in s[..i]
  {
    if s[0] == x then 0
    else
      var i := 1 + FirstIndex(s[1..], x);
      assert s[..i] == [s[0]] + s[1..][..i - 1];
      i
  }

  /** Python's `list.remove(x)`: drops the first occurrence of `x`. */
  function RemoveFirst<T(==)>(s: seq<T>, x: T): seq<T>
    requires x in s
  {
    var i := FirstIndex(s, x);
    s[..i] + s[i + 1..]
  }

  /** Removing drops exactly one `x`, the first, and keeps the order of the rest. */
  lemma RemoveFirstSpec<T>(s: seq<T>, x: T)
    requires x in s
    ensures |RemoveFirst(s, x)| == |s| - 1
    ensures multiset(RemoveFirst(s, x)) == multiset(s) - multiset{x}
  {
    var i := FirstIndex(s, x);
    assert s == s[..i] + [x] + s[i + 1..];
    assert multiset(s) == multiset(s[..i]) + multiset{x} + multiset(s[i + 1..]);
  }

  /** A connection registered last, and not before, is removed again exactly. */
  lemma RemoveLastConnected<T>(s: seq<T>, x: T)
    requires x !in s
    ensures RemoveFirst(s + [x], x) == s
  {
    assert forall j :: 0 <= j < |s| ==> (s + [x])[j] == s[j];
    assert FirstIndex(s + [x], x) == |s|;
    assert (s + [x])[..|s|] == s;
  }

  /** `ConnectionManager`: the list of accepted connections. */
  class ConnectionManager {
    var activeConnections: seq<WebSocket>

    constructor ()
      ensures activeConnections == []
    {
      activeConnections := [];
    }

    /** `connect`: the accepted connection goes at the end of the list. */
    method Connect(ws: WebSocket)
      modifies this
      ensures activeConnections == old(activeConnections) + [ws]
    {
      activeConnections := activeConnections + [ws];
    }

    /** `disconnect`: `list.remove`, which drops the first occurrence and
        raises (here: `ok` is false, nothing changes) when there is none. */
    method Disconnect(ws: WebSocket) returns (ok: bool)
      modifies this
      ensures ok <==> ws in old(activeConnections)
      ensures ok ==> activeConnections == RemoveFirst(old(activeConnections), ws)
                     && |activeConnections| == |old(activeConnections)| - 1
      ensures !ok ==> activeConnections == old(activeConnections)
    {
      ok := ws in activeConnections;
      if ok {
        RemoveFirstSpec(activeConnections, ws);
        activeConnections := RemoveFirst(activeConnections, ws);
      }
    }
  }

  /** One pass of the loop: save the answer, ask the model with the whole
      log, save and return its reply. For an unknown interview the first
      commit is refused and the pass fails (`None`) with nothing stored. */
  method HandleAnswer(db: Database, sessionId: int, answer: string, gen: string -> string)
    returns (reply: Option<string>)
    requires db.Valid()
    modifies db
    ensures db.Valid() && db.interviews == old(db.interviews) && db.nextId == old(db.nextId)
    ensures reply.Some? <==> sessionId in db.interviews
    ensures reply.None? ==> db.turns == old(db.turns)
    ensures reply.Some? ==>
      var withUser := old(db.Log(sessionId)) + [Turn(User, answer)];
      && reply.value == gen(FollowUpPrompt(History(withUser)))
      && db.turns == old(db.turns)[sessionId := withUser + [Turn(Ai, reply.value)]]
  {
    var ok := db.AddTurn(sessionId, Turn(User, answer));
    if !ok {
      return None;
    }
    var history := History(db.Log(sessionId));
    var aiResponse := GenerateFollowUpQuestion(gen, history);
    ok := db.AddTurn(sessionId, Turn(Ai, aiResponse));
    reply := Some(aiResponse);
  }

  /** The `while True` loop over the answers received until the client
      disconnects, for one connection running alone. Returns the replies
      sent, and whether the loop died on a refused commit instead. */
  method Serve(db: Database, sessionId: int, answers: seq<string>, gen: string -> string)
    returns (replies: seq<string>, failed: bool)
    requires db.Valid()
    modifies db
    ensures db.Valid() && db.interviews == old(db.interviews) && db.nextId == old(db.nextId)
    ensures failed <==> sessionId !in db.interviews && answers != []
    ensures failed ==> replies == [] && db.turns == old(db.turns)
    ensures !failed ==>
      var e := Converse(old(db.Log(sessionId)), answers, gen);
      replies == e.replies
      && db.turns == if answers == [] then old(db.turns) else old(db.turns)[sessionId := e.log]
  {
    replies := [];
    failed := false;
    ghost var start := old(db.Log(sessionId));
    ghost var ex := Exchange(start, []);
    var i := 0;
    while i < |answers|
      invariant 0 <= i <= |answers|
      invariant db.Valid() && db.interviews == old(db.interviews) && db.nextId == old(db.nextId)
      invariant i > 0 ==> sessionId in db.interviews
      invariant ex == Converse(start, answers[..i], gen) && replies == ex.replies
      invariant db.Log(sessionId) == ex.log
      invariant i == 0 ==> db.turns == old(db.turns)
      invariant i > 0 ==> db.turns == old(db.turns)[sessionId := ex.log]
    {
      ghost var before := db.turns;
      var reply := HandleAnswer(db, sessionId, answers[i], gen);
      if reply.None? {
        failed := true;
        return;
      }
      ghost var next := Step(ex, answers[i], gen);
      assert db.turns == before[sessionId := next.log];
      if i > 0 {
        UpdateTwice(old(db.turns), sessionId, ex.log, next.log);
      }
      ConverseExtend(start, answers, i, gen);
      ex := next;
      replies := replies + [reply.value];
      i := i + 1;
    }
    assert answers[..|answers|] == answers;
  }

  /** `websocket_endpoint`: register the connection, run the loop, and on a
      client disconnect unregister it. A refused commit ends the endpoint with
      an error, and the connection stays registered. The connection is taken
      to run alone: no other endpoint touches the registry or the database
      meanwhile. */
  method WebSocketEndpoint(manager: ConnectionManager, db: Database, ws: WebSocket, sessionId: int,
                           answers: seq<string>, gen: string -> string)
    returns (replies: seq<string>, failed: bool)
    requires db.Valid()
    modifies manager, db
    ensures db.Valid() && db.interviews == old(db.interviews) && db.nextId == old(db.nextId)
    ensures failed <==> sessionId !in db.interviews && answers != []
    ensures failed ==> replies == [] && db.turns == old(db.turns)
    ensures !failed ==>
      var e := Converse(old(db.Log(sessionId)), answers, gen);
      replies == e.replies
      && db.turns == if answers == [] then old(db.turns) else old(db.turns)[sessionId := e.log]
    ensures !failed ==>
      manager.activeConnections == RemoveFirst(old(manager.activeConnections) + [ws], ws)
    ensures !failed && ws !in old(manager.activeConnections) ==>
      manager.activeConnections == old(manager.activeConnections)
    ensures failed ==> manager.activeConnections == old(manager.activeConnections) + [ws]
  {
    manager.Connect(ws);
    replies, failed := Serve(db, sessionId, answers, gen);
    if !failed {
      var removed := manager.Disconnect(ws);
      if ws !in old(manager.activeConnections) {
        RemoveLastConnected(old(manager.activeConnections), ws);
      }
    }
  }
}
