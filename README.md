# Live explainer backend: session handler and response cleanup

This project models two parts of a backend that answers a question about a photographed
page with a narrated, illustrated explainer. It proves properties of both.

1. **The WebSocket session handler** (`backend/api/websocket.py`). One object holds a
   connection's state:
   - the stored photo;
   - the pipeline task, with the log of pipelines started and cancelled;
   - the outbound `send_queue`;
   - whether the receive loop still runs and whether the client is still connected;
   - what the sender coroutine has written to the socket.

   Each received frame is one step. A frame is text that is not JSON, a JSON object
   (`photo`, `question`, `stop` or an unknown type), or another JSON value, on which the
   handler raises. The pipeline task is an opaque producer: it is started, cancelled, puts
   messages and finishes. The sender takes one queued item per pass: it writes a message, or
   returns on the `None` end marker or on a write that fails because the client has gone.
   asyncio's interleaving of the receive loop, the pipeline, the sender's passes and the
   client going away is abstracted as an arbitrary schedule of events
   (`SessionSpec.Event`). The properties about schedules hold for every schedule.
2. **The cleanup of model answers and the fallback records** (`backend/agents/vision_agent.py`,
   `backend/agents/script_agent.py`). The cleanup does this:
   - strip whitespace;
   - unwrap a Markdown code fence and a `json` tag right after it;
   - strip again.

   Both agents repeat the same lines, so the model defines the cleanup once
   (`ResponseCleanup.Clean`). When the cleaned answer is not JSON, each agent builds a fixed
   record, modelled by `VisionAgent.Analyze` and `ScriptAgent.GenerateScript`.

Layout:
- `wrappers.dfy`: `Option`, the abstract JSON decoding result and a returns-or-raises
  outcome.
- `pystr.dfy`: Python's `str.strip`, `find`, `split` and `join`, with lemmas.
- `cleanup.dfy`: the shared cleanup.
- `vision_agent.dfy`, `script_agent.dfy`: the two agents' deterministic parts.
- `protocol.dfy`: the message protocol.
- `session_spec.dfy`: the handler as a state machine over values.
- `session_properties.dfy`: what the handler promises.
- `session.dfy`: the `Session` class, whose methods update the state in place and are
  proved against `session_spec.dfy`.

The model covers the server's session handler; the browser client is not part of it.

## Model

| member | source | states |
|---|---|---|
| PyStr.LStrip | backend/agents/vision_agent.py:61 | the result is a suffix of the input, does not start with whitespace, and everything removed is whitespace |
| PyStr.RStrip | backend/agents/vision_agent.py:61 | the result is a prefix of the input, does not end with whitespace, and everything removed is whitespace |
| PyStr.Strip | backend/agents/vision_agent.py:67 | `str.strip()` gives a contiguous slice of the input, starting where `lstrip` stops, with no whitespace at either end |
| PyStr.StripRemovesOnlyWhitespace | backend/agents/vision_agent.py:67 | everything `str.strip()` cuts off, in front of the result and behind it, is whitespace |
| PyStr.StripIdempotent | backend/agents/vision_agent.py:61-67 | stripping an already stripped string changes nothing |
| PyStr.Find | backend/agents/vision_agent.py:64 | `str.find` returns the first index at or after `start` where the separator occurs, or none when it occurs nowhere from there on |
| PyStr.Split | backend/agents/vision_agent.py:64 | `str.split` always yields at least one piece, and at least two when the separator occurs |
| PyStr.JoinSplit | backend/agents/vision_agent.py:64 | joining the pieces of a split with the separator gives back the original string |
| PyStr.SplitPiecesFreeOfSep | backend/agents/vision_agent.py:64 | no piece of a split contains the separator |
| PyStr.SplitAfterLeadingSep | backend/agents/vision_agent.py:63-64 | a string that starts with the separator splits into "" and a second piece: the text after the opening separator up to the next one, or to the end |
| ResponseCleanup.FenceBody | backend/agents/vision_agent.py:63-64 | `raw.split("```")[1]` exists whenever `raw` starts with a fence, and it contains no fence |
| ResponseCleanup.DropJsonTag | backend/agents/vision_agent.py:65-66 | the result is a suffix of the body, exactly 4 characters shorter when the body starts with `json` and the body itself otherwise |
| ResponseCleanup.Clean | backend/agents/vision_agent.py:61-67 | the cleaned answer never starts or ends with whitespace |
| ResponseCleanup.CleanUnfenced | backend/agents/vision_agent.py:61-67 | an answer that does not start with a fence once stripped is only stripped |
| ResponseCleanup.CleanFenced | backend/agents/script_agent.py:73-78 | a fenced answer cleans to the text between the first fence and the next one (or the end). A `json` tag is dropped, exactly 4 characters, only when it comes right after the opening fence. The result is stripped |
| ResponseCleanup.CleanFencedHasNoFence | backend/agents/vision_agent.py:63-67 | a fenced answer cleans to a text with no fence in it |
| ResponseCleanup.CleanIdempotent | backend/agents/vision_agent.py:61-67 | cleaning a cleaned answer gives the same text, for every answer, fenced or not |
| VisionAgent.FallbackAnalysis | backend/agents/vision_agent.py:73-78 | the fallback record has all four keys, with the cleaned answer as context and the caller's question |
| VisionAgent.Analyze | backend/agents/vision_agent.py:61-81 | a decoded object is returned unchanged. A decoded value that is not an object makes the agent raise when it reads its keys. Text that is not JSON gives subject "General" and topic "Unknown", with the cleaned answer (not the raw one) as context and the caller's question |
| VisionAgent.FallbackContextIsClean | backend/agents/vision_agent.py:69-78 | the context of the vision fallback has no surrounding whitespace and is its own cleanup |
| ScriptAgent.PromptFieldsOf | backend/agents/script_agent.py:57-62 | each prompt field is the analysis value when present. Missing values default to "General", "the topic", "" and "" |
| ScriptAgent.FallbackImagePrompt | backend/agents/script_agent.py:91 | the fallback image prompt is the topic, verbatim, between the fixed head "Educational diagram about " and the fixed tail ", clean white background, colorful, labeled" |
| ScriptAgent.FallbackScript | backend/agents/script_agent.py:84-95 | the fallback script has one section, with id 1, the fixed intro and outro, and the analysis topic as title and its context as narration when present |
| ScriptAgent.GenerateScript | backend/agents/script_agent.py:73-102 | a decoded object is returned unchanged. A decoded value that is not an object makes the agent raise when it reads its keys. Text that is not JSON gives a script that has exactly one section, with id 1. Its title is the topic or "Explainer" and its narration is the context or "Let me walk you through this.". Its image prompt is "Educational diagram about " + the topic (default "the topic") + ", clean white background, colorful, labeled". The intro and the outro are fixed |
| ScriptAgent.BothFallBack | backend/agents/script_agent.py:84-95 | when both agents fall back, no prompt default is used. The script is titled "Unknown" and its one section narrates the cleaned vision answer |
| SessionSpec.Enqueue | backend/api/websocket.py:88 | `send_queue.put` adds the message at the back of the queue and changes nothing else |
| SessionSpec.Cancel | backend/api/websocket.py:60-67 | after `cancel_pipeline` no pipeline runs, and the session invariant still holds |
| SessionSpec.PhotoFrame | backend/api/websocket.py:82-88 | a photo frame keeps the session invariant (a stored photo is never empty) |
| SessionSpec.QuestionFrame | backend/api/websocket.py:90-113 | a question frame keeps the session invariant: every pipeline started has a photo and a non-blank stripped question |
| SessionSpec.StopFrame | backend/api/websocket.py:115-120 | a stop frame keeps the session invariant and ends the receive loop |
| SessionSpec.Next | backend/api/websocket.py:71-123 | every frame keeps the session invariant |
| SessionSpec.Finish | backend/api/websocket.py:133-135 | the `finally` block keeps the session invariant and leaves the loop closed |
| SessionSpec.Sendable | backend/api/websocket.py:48-53 | the sender writes at most one message per queued entry |
| SessionSpec.SendableIsFrontRun | backend/api/websocket.py:48-53 | what the sender writes from a queue is the payloads of the entries in front of the first end marker, in order, and it stops exactly at that marker |
| SessionSpec.Rest | backend/api/websocket.py:46-51 | with no end marker queued, the sender leaves nothing in the queue |
| SessionSpec.SenderStep | backend/api/websocket.py:48-56 | one pass of the sender keeps the session invariant: an end marker is only taken once the loop is over, and a failed write only once the client has gone |
| SessionSpec.Drain | backend/api/websocket.py:46-56 | the sender run to a wait or a return keeps the session invariant, and with an end marker queued it always returns |
| SessionSpec.DrainAfterStep | backend/api/websocket.py:48-56 | one pass of the sender does not change where the whole loop leads, and a pass that changes nothing means the loop has nothing to do: the loop is its passes repeated |
| SessionSpec.FrontMessage | backend/api/websocket.py:49-53 | taking a message off the front of the queue takes exactly that message off the front of what the sender writes |
| SessionSpec.Leave | backend/api/websocket.py:125-134 | when the client goes away the loop ends and the client is gone for good; nothing is written or taken from the queue |
| SessionSpec.Apply | backend/api/websocket.py:69-123 | every event of a schedule keeps the session invariant |
| SessionSpec.Run | backend/api/websocket.py:69-123 | every schedule keeps the session invariant |
| SessionSpec.Endpoint | backend/api/websocket.py:125-140 | every connection ends with the loop over, no pipeline running and the sender returned |
| SessionProperties.PhotoFrameEffect | backend/api/websocket.py:82-88 | missing or empty `data` queues exactly one "Empty photo data." error and keeps the stored photo. Otherwise the data replaces the photo and exactly one "Photo received. Ask your question!" status is queued. Nothing else changes |
| SessionProperties.BlankQuestionRejected | backend/api/websocket.py:91-94 | a question whose `text` (default "") strips to "" queues exactly "Question text is empty.", whether or not a photo is stored |
| SessionProperties.QuestionWithoutPhoto | backend/api/websocket.py:95-97 | a non-blank question with no photo queues "Please capture a photo first.". No pipeline is cancelled or started and no pending message is cleared |
| SessionProperties.AcceptedQuestion | backend/api/websocket.py:99-113 | an accepted question cancels the running pipeline, if any, and empties the queue. It then starts exactly one pipeline with the stored photo and the stripped question |
| SessionProperties.StopFrameEffect | backend/api/websocket.py:115-120 | a stop cancels the pipeline, queues `done` and then the end marker, and ends the receive loop |
| SessionProperties.InertFrameChangesNothing | backend/api/websocket.py:73-77 | a frame that is not JSON, or one of unknown type, changes nothing and queues nothing |
| SessionProperties.NonObjectEndsLoop | backend/api/websocket.py:127-132 | a JSON value that is not an object gets one error written straight to the socket, and the loop ends |
| SessionProperties.SendableConcat | backend/api/websocket.py:46-56 | with no end marker in the first queue, the sender's output for two queues joined is its output for each, in order |
| SessionProperties.SendableWithoutEnd | backend/api/websocket.py:46-56 | with no end marker queued, the sender writes every queued message, in queue (FIFO) order |
| SessionProperties.EndMarkerCutsOff | backend/api/websocket.py:48-51 | the sender stops at the first end marker. Nothing queued behind it is ever sent, and it stays in the queue |
| SessionProperties.StopDelivery | backend/api/websocket.py:115-135 | after a stop and the `finally` block, the client gets every pending message and then `done`. The second end marker from `finally` is never reached |
| SessionProperties.RunAppend | backend/api/websocket.py:69-123 | running two schedules one after the other is running their concatenation |
| SessionProperties.RunWithoutNoOp | backend/api/websocket.py:69-123 | an event that leaves the state unchanged can be removed from any schedule |
| SessionProperties.InertFrameIgnored | backend/api/websocket.py:122-123 | wherever a non-JSON or unknown-type frame comes in a schedule, it has no effect |
| SessionProperties.ClosedStaysClosed | backend/api/websocket.py:120 | once the receive loop has ended, no schedule reopens it |
| SessionProperties.NoFrameAfterStop | backend/api/websocket.py:115-120 | after a stop frame, removing any later frame leaves the outcome unchanged |
| SessionProperties.SendableAfterEnd | backend/api/websocket.py:50-51 | whatever is queued behind an end marker does not change what the sender writes |
| SessionProperties.SenderStepAfterStop | backend/api/websocket.py:48-56 | after a stop, each pass of the sender writes the next of the messages still owed, and returns once `done` is written |
| SessionProperties.StoppedFromPreserved | backend/api/websocket.py:115-120 | after a stop, while the client stays, no event can reopen the loop or restart a pipeline, and what has been written plus what the sender will still write is always the pending messages and `done` |
| SessionProperties.StoppedConnection | backend/api/websocket.py:115-140 | for a connection the client stops and stays on, however the sender's passes interleave after the stop, the client gets what was sent before the stop, then the messages pending at the stop, and `done` last |
| SessionProperties.NothingAfterLeaving | backend/api/websocket.py:52-56 | once the client has gone, no schedule writes anything more or brings it back |
| SessionProperties.DisconnectedConnection | backend/api/websocket.py:125-140 | for a connection the client leaves, the client has received exactly what was written before it left: nothing after, and no `done`. The sender returns |
| SessionHandler.Session.constructor | backend/api/websocket.py:39-44 | a new session has no photo, no pipeline, and nothing queued or sent |
| SessionHandler.Session.Put | backend/api/websocket.py:84 | `send_queue.put` appends one item and changes nothing else |
| SessionHandler.Session.CancelPipeline | backend/api/websocket.py:60-67 | in place, does what `SessionSpec.Cancel` gives: a running pipeline is cancelled and logged |
| SessionHandler.Session.ClearQueue | backend/api/websocket.py:103-104 | the draining loop leaves the queue empty and changes nothing else |
| SessionHandler.Session.OnPhoto | backend/api/websocket.py:82-88 | in place, has exactly the effect of `SessionSpec.PhotoFrame` |
| SessionHandler.Session.OnQuestion | backend/api/websocket.py:90-113 | in place, has exactly the effect of `SessionSpec.QuestionFrame` |
| SessionHandler.Session.OnStop | backend/api/websocket.py:115-120 | in place, has exactly the effect of `SessionSpec.StopFrame` |
| SessionHandler.Session.Step | backend/api/websocket.py:71-123 | one loop iteration has exactly the effect of `SessionSpec.Next` |
| SessionHandler.Session.PipelinePut | backend/agents/coordinator.py:30 | the running pipeline's `put` appends its message to the queue |
| SessionHandler.Session.PipelineFinished | backend/api/websocket.py:62 | a pipeline that finishes on its own is no longer running, so a later cancel does nothing |
| SessionHandler.Session.SenderTurn | backend/api/websocket.py:48-56 | in place, one pass of the sender has exactly the effect of `SessionSpec.SenderStep` |
| SessionHandler.Session.RunSender | backend/api/websocket.py:46-56 | the sender loop, pass by pass, has exactly the effect of `SessionSpec.Drain`: the queued messages in order up to the first end marker, or no write at all once the client has gone |
| SessionHandler.Session.ClientLeft | backend/api/websocket.py:125-134 | in place, the client going away has exactly the effect of `SessionSpec.Leave` |
| SessionHandler.Session.Close | backend/api/websocket.py:133-135 | the `finally` block cancels the pipeline and queues an end marker |
| SessionHandler.Session.Serve | backend/api/websocket.py:69-123 | running a schedule in place gives `SessionSpec.Run` of it |
| SessionHandler.HandleConnection | backend/api/websocket.py:34-140 | the messages one connection's client receives are those of `SessionSpec.Endpoint` |

## Left out

- Google SDK calls are not modelled. These are the vision and script `generate_content`
  calls, the Live narration stream, image generation and storage uploads. The model's text
  answer is a parameter of `VisionAgent.Analyze` and `ScriptAgent.GenerateScript`.
- The messages the pipeline produces are not modelled. They are events of the schedule.
- `json.loads` is not modelled. It is the abstract `JsonResult`: the agents take a `parse`
  function, and a client frame is already decoded.
- `base64` decoding of the photo is not modelled.
- Only string values are modelled for the `type`, `data` and `text` members of a client
  frame. A `data` member that is present but not a string is not modelled: the handler
  would store it if it is truthy (websocket.py:86). For a truthy number or `true`, the
  `len(data)` call at websocket.py:87 then raises `TypeError`, and the session ends through
  the same exception path as `NonObject` (websocket.py:127-135). A `text` that is not a string, such as `null`, is not
  modelled either. The handler raises on it and leaves through the same exception path as
  `NonObject`.
- A `send_text` that fails while the client is still connected is not modelled; a write
  fails exactly when the client has gone.
- A frame the client sent just before leaving can still be handled after it has gone. Every
  write then fails: the sender returns (websocket.py:54-56), and the direct error send is
  swallowed (websocket.py:131-132). The model handles frames only while the client is
  there. The schedule with `ClientLeaves` before such a frame writes the same; only the
  pipelines started and cancelled differ.
- The two-second `wait_for` on the sender is not modelled. `Endpoint` lets the sender
  finish.
- Time, logging and the cached `_client` globals are not modelled.
- The suspension inside `cancel_pipeline` (`await task`) is not modelled: a frame is handled
  in one step. The sender's passes that asyncio runs there are the same as `SenderRuns`
  events just before the frame: the cancel touches neither the queue nor the socket, and the
  cancelled pipeline queues nothing more.
- The prompt templates' text is not modelled. The model covers only the values substituted
  into the script prompt (`ScriptAgent.PromptFieldsOf`) and the fallback records.
- The orchestration in `backend/agents/coordinator.py` is not part of this model. This
  includes the concurrent image and narration tasks and the "Your Explainer" title default.
- `backend/agents/visual_agent.py`, `backend/services/*` and the application wiring and
  configuration are not part of this model.
- VisionAgent.Analyze: a decoded object's members are modelled as strings or absent. A
  `subject`, `topic`, `context` or `question` that is present but `null` or not a string
  is returned as it is, and is not modelled.
- ScriptAgent.GenerateScript: a decoded object's members are modelled as well-formed. A
  `sections` member that is not a list (script_agent.py:100 takes its length) is not
  modelled. In the fallback, a vision `topic` or `context` that is present but `null` or
  not a string is used instead of the default (script_agent.py:85, 90, 91); the model
  only has strings or absent keys.
- ScriptAgent.PromptFieldsOf: a vision value that is present but `null` or not a string
  is formatted into the prompt with `str()`; the model only has strings or absent keys.
- Python's `str.isspace` is modelled as its fixed list of code points (`PyStr.IsSpace`).
