# MockVerse interview core, in Dafny

MockVerse runs a spoken mock job interview. The browser window takes turns
with an AI interviewer: it speaks the interviewer's question, listens to the
candidate's answer, sends the answer to the server over a WebSocket and
speaks the reply that comes back. The server stores every turn of every
interview. For each answer it asks a language model for the next question,
giving it the whole conversation so far. A mock service in the browser can
stand in for the server, with canned questions and a fixed scorecard.

This project models the decisions in that code and proves properties of the
model:

- `InterviewWindow` models the window's turn-taking state machine
  (`idle | listening | processing | speaking`) and its transcript. The pure
  transition function `Apply` is the specification. The class `Controller`
  holds the component's state, and each of its handlers is proved to make
  one `Apply` step (`Mount` only when a non-empty first question is
  stored). Lemmas over whole event sequences (`Run`) show three things. The transcript and the send log only grow. Every message
  sent is backed by the user turn appended just before it. There is one
  transcript entry per utterance and one send per answer recognised while the
  socket was open.
- `MockApi` models the mock service: the first-question template, the
  five-reply rotation and the constant scorecard.
- `GeminiService` models the two prompts sent to the language model. The
  model itself is a parameter `gen: string -> string`. Both prompt builders
  have partner functions that read back what they put in (`ResumeSection`,
  `HistoryBlock`), with round-trip lemmas.
- `TurnStore` models the database: interviews keyed by an auto-incremented
  id, and each interview's turns in commit order, as `map<int, seq<Turn>>`.
- `WebSockets` models three things: the connection registry
  (`ConnectionManager`), the `"speaker: text"` history, and the conversation
  loop. `Converse` specifies the loop, which is proved to add a user turn
  then an ai turn per answer and to send the text it stores.
- `RenderApp` models the single-file deployment, `backend/render_app.py`.
  It covers `create_interview` and that file's copy of the WebSocket loop.
  Its prompt builders (`backend/render_app.py:85-97`) and its loop body
  (`backend/render_app.py:131-142`) are copies of those in
  `backend/app/services/gemini_service.py` and
  `backend/app/api/v1/websockets.py`, so the `GeminiService` and
  `WebSockets` members model them.

Inputs the code gets from the browser or the platform are parameters:
whether speech recognition exists, whether the socket is open, the text a
recognition produced, the value stored for the first question, the parsed
resume text, and the model's answer function. What the window sends over the
socket goes to a ghost log. Each entry records the transcript length at the
moment of sending, which makes "append before send" a statable invariant.

Three behaviours of the code that a reader might expect to be otherwise,
and that the model keeps as written:
- When an utterance ends, the window goes to `idle`. It never starts
  listening on its own.
- A recognised answer is sent whenever the socket is open, empty or not.
- Ending the interview is allowed while the interviewer speaks; only
  `processing` disables the end button.

The recognition `onend` handler is installed once, when the window mounts,
and reads the `state` of that first render, which is `speaking`. In the model
the state it reads is an explicit argument of the event. `RecognitionEndGuard`
shows that with the mount-time value the handler never changes anything.

## Model

| member | source | states |
|---|---|---|
| `Domain.SpeakerName` | frontend/lib/types.ts:4-7 | A speaker is stored and shown as "ai" or "user", and the name contains no colon. |
| `InterviewWindow.GetButtonState` | frontend/components/InterviewWindow.tsx:112-120 | The mic button is disabled exactly in `processing` and `speaking`, enabled in `idle` and `listening`. Its label is "Speak" exactly when idle. |
| `InterviewWindow.Initial` | frontend/components/InterviewWindow.tsx:21-22 | The window starts in `speaking` with an empty transcript and nothing sent. |
| `InterviewWindow.Apply` | frontend/components/InterviewWindow.tsx:57-106 | Every handler keeps the transcript and send log as prefixes of the new ones, each growing by at most one entry. A send always comes with the user turn of the same text, appended just before it as the last entry. The close requests grow by at most one. |
| `InterviewWindow.ApplyKeepsSendsBacked` | frontend/components/InterviewWindow.tsx:57-65 | Each handler preserves the invariant that every sent message has its own user turn in the transcript, at the position it had when sent, in send order. |
| `InterviewWindow.RunKeepsSendsBacked` | frontend/components/InterviewWindow.tsx:57-65 | The same invariant holds after any sequence of events. |
| `InterviewWindow.RunOnlyAppends` | frontend/components/InterviewWindow.tsx:57-90 | After any sequence of events, the earlier transcript and send log are prefixes of the new ones. Nothing is changed, removed or reordered. |
| `InterviewWindow.RunCounts` | frontend/components/InterviewWindow.tsx:57-90 | After any sequence of events, the transcript has grown by exactly the number of spoken lines plus recognised answers. The send log has grown by exactly the number of answers recognised with the socket open. |
| `InterviewWindow.MicClickMatchesButton` | frontend/components/InterviewWindow.tsx:92-120 | A mic click changes the state exactly when recognition is available and `getButtonState` enables the button. A click never touches the transcript. |
| `InterviewWindow.RecognitionEndGuard` | frontend/components/InterviewWindow.tsx:67-77 | Recognition `onend` changes something only when it reads `listening`. With the state captured at mount (`speaking`) it changes nothing. |
| `InterviewWindow.EndClickedDisablesButtons` | frontend/components/InterviewWindow.tsx:102-106 | From any state, ending the interview moves to `processing`, which disables both the end button (`EndButtonDisabled`, the `disabled` condition at InterviewWindow.tsx:153) and the mic button. It asks for the socket to be closed once. |
| `InterviewWindow.OneExchange` | frontend/components/InterviewWindow.tsx:29-100 | From the first render, question, utterance end, mic click, answer over an open socket, and reply give the transcript [ai question, user answer, ai reply], one send of the answer, and state `speaking`. |
| `InterviewWindow.Controller.constructor` | frontend/components/InterviewWindow.tsx:19-23 | The component starts in the initial view. |
| `InterviewWindow.Controller.Speak` | frontend/components/InterviewWindow.tsx:79-90 | `speak` sets `speaking` and appends exactly one ai turn with the text. Earlier entries stay unchanged. The caption shows the text. |
| `InterviewWindow.Controller.Mount` | frontend/components/InterviewWindow.tsx:29-34 | A stored first question is spoken when present and non-empty. Otherwise nothing changes. |
| `InterviewWindow.Controller.OnSocketMessage` | frontend/components/InterviewWindow.tsx:40-43 | A message from the socket is spoken. |
| `InterviewWindow.Controller.OnUtteranceEnd` | frontend/components/InterviewWindow.tsx:85-88 | When the utterance ends, the state becomes `idle` and the caption is cleared. The transcript is unchanged. |
| `InterviewWindow.Controller.OnRecognitionResult` | frontend/components/InterviewWindow.tsx:57-65 | Exactly one user turn with the answer is appended, then the answer is sent only if the socket is open. The handler ends in `processing`. |
| `InterviewWindow.Controller.OnRecognitionEnd` | frontend/components/InterviewWindow.tsx:67-71 | The state becomes `processing` when it reads `listening`. Otherwise nothing changes. |
| `InterviewWindow.Controller.HandleMicClick` | frontend/components/InterviewWindow.tsx:92-100 | `idle` becomes `listening` and `listening` becomes `processing`, both only when recognition is available. In every other case the state is unchanged. |
| `InterviewWindow.Controller.HandleEndInterview` | frontend/components/InterviewWindow.tsx:102-106 | The state becomes `processing` from any state, one socket close is requested, and the route `/results/<sessionId>` is returned. |
| `MockApi.FirstQuestion` | frontend/lib/mockApi.ts:21-23 | The resume template is chosen exactly when a resume file is present. Both templates contain the role, at a known position. |
| `MockApi.StartInterview` | frontend/lib/mockApi.ts:11-26 | The session id is always 12345. The first question acknowledges a resume exactly when a file was given, and names the role. |
| `MockApi.NthReply` | frontend/lib/mockApi.ts:31-37 | Every reply is one of the five canned responses. |
| `MockApi.RepliesRepeat` | frontend/lib/mockApi.ts:31-45 | Replies repeat with period 5, and the first five calls return the list in order. |
| `MockApi.PeriodCoversAll` | frontend/lib/mockApi.ts:31-45 | Any five consecutive calls return every canned response. |
| `MockApi.MockInterviewer.constructor` | frontend/lib/mockApi.ts:38 | The response counter starts at 0. |
| `MockApi.MockInterviewer.GetMockAiResponse` | frontend/lib/mockApi.ts:40-49 | Returns `mockResponses[responseIndex % 5]`, whatever the answer was, and the counter grows by exactly 1. With the counter starting at 0, the n-th call returns `NthReply(n)`. |
| `MockApi.GetInterviewResults` | frontend/lib/mockApi.ts:55-74 | The scorecard has score 8 (within 0..10), 3 strengths and 2 areas for improvement. |
| `MockApi.ResultsIgnoreSession` | frontend/lib/mockApi.ts:55-74 | The scorecard is the same for every session id. |
| `Text.Join` | backend/app/services/gemini_service.py:19 | `"\n".join` of no entries is empty, and of one entry is that entry. |
| `Text.OffsetStep` | backend/app/services/gemini_service.py:19 | In a join, each entry starts one entry length plus one separator after the previous one. |
| `Text.JoinAt` | backend/app/services/gemini_service.py:19 | Each entry occurs in the joined string at its offset, followed by the separator unless it is the last. |
| `Text.JoinLength` | backend/app/services/gemini_service.py:19 | A join is as long as its entries plus one separator between each neighbouring pair. |
| `GeminiService.InitialPromptShape` | backend/app/services/gemini_service.py:9-12 | About `InitialPrompt` (gemini_service.py:10-12), whose resume test is `Truthy` (Python truthiness of `resume_text`, line 11). The initial prompt always starts with the preamble, with the role in quotes at a fixed position. It equals the bare preamble exactly when the resume is not truthy. With a truthy resume it continues with the resume header and ends with the footer. |
| `GeminiService.ResumeSectionRoundTrip` | backend/app/services/gemini_service.py:11-12 | The resume section is present exactly when `resume_text` is truthy. Reading it back between `---RESUME---\n` and `\n---END RESUME---` then gives the resume text unchanged. |
| `GeminiService.EmptyResumeAddsNothing` | backend/app/services/gemini_service.py:11 | An empty resume text adds no resume section. |
| `GeminiService.FollowUpPrompt` | backend/app/services/gemini_service.py:17-20 | The follow-up prompt starts with its preamble and ends with `"\n\nInterviewer:"`. Its length is the preamble plus the joined history plus the cue. |
| `GeminiService.HistoryBlockRoundTrip` | backend/app/services/gemini_service.py:18-20 | Between the preamble and the cue, the follow-up prompt holds exactly the history joined with `"\n"`; the block reader finds it (`Some`), with preamble and cue not overlapping, even for an empty history. |
| `GeminiService.FollowUpPromptHistoryInOrder` | backend/app/services/gemini_service.py:18-20 | Every history entry occurs in the prompt at its own offset, in history order, and each entry but the last is followed by a newline. |
| `GeminiService.GenerateInitialQuestion` | backend/app/services/gemini_service.py:9-15 | The first question is the model's text, unchanged, for a prompt that opens with the preamble naming the role, is the bare preamble when the resume is not truthy, and otherwise carries a resume section that reads back as exactly the resume text. |
| `GeminiService.GenerateFollowUpQuestion` | backend/app/services/gemini_service.py:17-23 | The next question is the model's text, unchanged, for a prompt that opens with the follow-up preamble, ends with `"\n\nInterviewer:"`, and holds exactly the history joined by newlines in between, the preamble and cue not overlapping. This fixes the prompt, also for an empty history. |
| `TurnStore.Database.constructor` | backend/app/db/models.py:7-25 | The database starts with no interviews and no turns. |
| `TurnStore.Database.AddInterview` | backend/render_app.py:119-121 | The new interview gets the next free id, is stored with status "started", and has no turns yet. |
| `TurnStore.Database.AddTurn` | backend/app/api/v1/websockets.py:32-34 | A committed turn goes at the end of its interview's log, and other interviews are untouched. A turn for an unknown interview is refused. |
| `WebSockets.ParseFormatTurn` | backend/app/api/v1/websockets.py:38 | About `FormatTurn`, the f-string of line 38. A `"speaker: text"` line can be parsed back to its speaker and text. |
| `WebSockets.History` | backend/app/api/v1/websockets.py:37-38 | The history has one line per logged turn. |
| `WebSockets.HistoryRoundTrip` | backend/app/api/v1/websockets.py:37-38 | The history loses nothing: every turn, in log order, can be read back from it. |
| `WebSockets.HistoryEndsWithAnswer` | backend/app/api/v1/websockets.py:32-38 | The history built after saving an answer ends with that answer's `user:` line. The lines before it are the earlier history. |
| `WebSockets.StepKeepsShape` | backend/app/api/v1/websockets.py:29-49 | About `Step`, one iteration of the loop at lines 29-49. One more iteration keeps the conversation's shape. |
| `WebSockets.ConverseShape` | backend/app/api/v1/websockets.py:27-49 | About `Converse`, the `while True` loop of lines 27-49 as a fold of `Step` over the answers. Each answer grows the log by exactly two turns, `user` then `ai`, and keeps earlier turns. The model is asked with the whole log up to and including the new user turn. The text sent back equals the stored ai turn. |
| `WebSockets.FirstIndex` | backend/app/api/v1/websockets.py:19 | `list.remove` targets the first occurrence: it is `x`, and no earlier element is. |
| `WebSockets.RemoveFirstSpec` | backend/app/api/v1/websockets.py:18-19 | About `RemoveFirst`, the `list.remove` of line 19. Removing through `list.remove` shrinks the list by one and takes away exactly one `x`. |
| `WebSockets.RemoveLastConnected` | backend/app/api/v1/websockets.py:15-19 | Connecting then disconnecting a socket that was not registered restores the list exactly. |
| `WebSockets.ConnectionManager.constructor` | backend/app/api/v1/websockets.py:13-14 | The registry starts empty. |
| `WebSockets.ConnectionManager.Connect` | backend/app/api/v1/websockets.py:15-17 | The socket is appended at the end, and earlier entries are kept. |
| `WebSockets.ConnectionManager.Disconnect` | backend/app/api/v1/websockets.py:18-19 | The first occurrence is removed and the list shrinks by one. A socket that is not present is reported (the `ValueError`) and the list is unchanged. |
| `WebSockets.HandleAnswer` | backend/app/api/v1/websockets.py:29-49 | The log gains the user turn, then the ai turn. The reply is the model's text for the history including the new user turn, and it is sent back. For an unknown interview nothing is stored and the pass fails. |
| `WebSockets.Serve` | backend/app/api/v1/websockets.py:26-49 | For one connection running alone, the loop over the received answers leaves exactly the log and the replies of `Converse`, and no other interview's log changes. It fails, storing nothing, exactly when the interview is unknown and an answer arrives. |
| `WebSockets.WebSocketEndpoint` | backend/app/api/v1/websockets.py:23-53 | For one connection running alone: the endpoint registers the socket and serves. The replies and the new database state are those of `Converse`; other interviews' logs and the interviews table are unchanged, and a failed commit stores nothing. On a client disconnect the first occurrence of the socket is removed, so a socket that was not registered before leaves the registry as it found it. On a failed commit the socket stays registered. |
| `RenderApp.CreateInterview` | backend/render_app.py:113-125 | Without a file the resume text is `""`. The first question is the model's text for the initial prompt. The new record gets the next id, which is returned as `session_id`. Exactly one initial `ai` turn is stored, holding the returned first question. Without a resume file the question is the model's text for the bare preamble. |
| `RenderApp.WebSocketEndpoint` | backend/render_app.py:127-144 | For one connection running alone, this deployment's loop leaves the log and replies of `Converse`: `user` then `ai` per answer, and each reply is the stored ai text. Other interviews' logs and the interviews table are unchanged, and a failed commit stores nothing. |

## Left out

- Rendering, styling, the transcript scroll effect and the character
  animation are left out: they make no decisions.
- Speech recognition and synthesis, `localStorage`, `alert`, `router.push`,
  `recognition.start()` and `stop()` are left out as browser calls. Their
  results enter as inputs. `router.push` is represented by the route that
  `HandleEndInterview` returns.
- The effect cleanup that closes the socket when the window unmounts
  (`InterviewWindow.tsx:76`) is not modelled, so after `router.push` the
  close counter shows the one close of `handleEndInterview`. Closing a
  socket that is already closing does nothing, so no behaviour is lost.
- The window's WebSocket object is left out. Its `readyState` is a boolean
  input, `send` is the ghost send log and `close` is a ghost counter.
- React's asynchronous, batched `setState` is not modelled: each handler's
  updates take effect in order, at once. The stale `state` captured by the
  `onend` closure is an explicit argument, not modelled hooks.
- `sleep` delays, `async`/`await` and `console.log` in the mock service are
  left out: timing and logging change no value.
- `MockApi.MockInterviewer`: the counter is a field of an object rather than
  module-level, and it is an unbounded `nat`. JavaScript's number precision
  limit, beyond 2^53 calls, is not modelled.
- `MockApi.GetInterviewResults`: the session id is taken as a string. The
  source also accepts a number, and ignores the id either way.
- The language model is left out: it is the uninterpreted parameter `gen`.
  A raising model call, e.g. on a network error, is not modelled.
- `parse_resume` (PDF or Word text extraction) is not part of this model.
  `RenderApp.CreateInterview` receives its result as `parsedResume`.
- SQLAlchemy sessions, refresh and `created_at` are left out. Ordering by
  `created_at` is taken to be commit order.
- `TurnStore.Database.AddTurn` assumes the database enforces the turns
  table's foreign key. A turn for an unknown interview is refused, and the
  WebSocket loop then ends with an error. Engines that do not enforce it
  would store such a turn.
- `WebSockets.Serve`, `WebSockets.WebSocketEndpoint` and
  `RenderApp.WebSocketEndpoint` describe one connection running alone. The
  module-level `manager` and the database are shared, and other connections'
  endpoints can run at each `await` (`receive_text`, `send_text`); such
  interleavings are not modelled. Another connection can then add turns to
  other interviews, or to the same one, and can change the registry between
  this connection's connect and disconnect. One pass, from the received
  answer to the reply, is modelled as atomic, as it is in the code: the
  database and model calls in between do not yield.
- `websocket.accept()`, receiving and sending on the server socket are left
  out. The received answers up to the client's disconnect are the sequence
  `answers`, and the replies sent are returned.
- The `create_interview` of `backend/app/api/v1/endpoints.py` is not
  modelled: it differs from `RenderApp.CreateInterview` only in taking the
  resume text directly, possibly `None`. The `GeminiService` lemmas cover
  the `None` case.
- App wiring, CORS, settings and the server runner are left out as
  configuration.
