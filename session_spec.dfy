/** The WebSocket session handler as a state machine over values: what one received frame,
    the pipeline, the sender coroutine and the closing `finally` block each do to the session.
    The class in session.dfy runs these steps in place and is proved against them. */
module SessionSpec {
  import opened Wrappers
  import opened PyStr
  import opened Protocol

  /** The arguments of one `run_pipeline` task. */
  datatype Job = Job(photo: string, question: string)

  /** Everything the handler's behaviour depends on or produces.
      photo: the stored `photo_b64`;
      running: a pipeline task exists and has not finished;
      launched / cancelled: every pipeline started / cancelled so far, in order (the last
        one launched is the session's `pipeline_task`);
      queue: the outbound `send_queue`;
      open: the receive loop is still running;
      connected: the client has not gone away;
      wire: the messages written to the socket so far, in order;
      senderDone: the sender coroutine has returned. */
  datatype State = State(
    photo: Option<string>,
    running: bool,
    launched: seq<Job>,
    cancelled: seq<Job>,
    queue: seq<Item>,
    open: bool,
    connected: bool,
    wire: seq<Message>,
    senderDone: bool)

  /** The session right after the connection is accepted. */
  const Initial: State := State(None, false, [], [], [], true, true, [], false)

  /** The session invariant: a stored photo is never empty, only a launched task can run,
      every launched pipeline got a photo and a non-blank stripped question, and while the
      receive loop runs the client is there, no end marker is queued and the sender is still
      serving. */
  predicate Valid(s: State) {
    (s.photo.Some? ==> s.photo.value != "")
    && (s.running ==> s.launched != [])
    && (forall j :: j in s.launched ==> j.photo != "" && j.question != "" && Strip(j.question) == j.question)
    && (s.open ==> s.connected && EndOfStream !in s.queue && !s.senderDone)
  }

  /** `send_queue.put(m)`: the message joins the back of the queue and nothing else changes. */
  function Enqueue(s: State, m: Message): (r: State)
    ensures |r.queue| == |s.queue| + 1 && r.queue[..|s.queue|] == s.queue
    ensures r.queue[|s.queue|] == Queued(m)
    ensures r.(queue := s.queue) == s
  {
    s.(queue := s.queue + [Queued(m)])
  }

  /** `cancel_pipeline()`: a pipeline that is still running is cancelled; otherwise nothing happens. */
  function Cancel(s: State): (r: State)
    requires Valid(s)
    ensures Valid(r) && !r.running
  {
    if s.running then s.(running := false, cancelled := s.cancelled + [s.launched[|s.launched| - 1]])
    else s
  }

  /** A `photo` frame with `data` (missing counts as ""). */
  function PhotoFrame(s: State, data: string): (r: State)
    requires Valid(s)
    ensures Valid(r)
  {
    if data == "" then Enqueue(s, Error(EmptyPhoto))
    else Enqueue(s.(photo := Some(data)), Status(PhotoReceived))
  }

  /** A `question` frame whose text, stripped, is `q`. */
  function QuestionFrame(s: State, q: string): (r: State)
    requires Valid(s) && Strip(q) == q
    ensures Valid(r)
  {
    if q == "" then Enqueue(s, Error(EmptyQuestion))
    else if s.photo.None? then Enqueue(s, Error(NoPhoto))
    else
      var c := Cancel(s);
      var r := c.(queue := [], launched := c.launched + [Job(s.photo.value, q)], running := true);
      LaunchKeepsValid(c, r, Job(s.photo.value, q));
      r
  }

  /** Starting a pipeline for a job with a photo and a non-blank stripped question, on an
      emptied queue, keeps the session invariant. */
  lemma LaunchKeepsValid(c: State, r: State, j: Job)
    requires Valid(c)
    requires j.photo != "" && j.question != "" && Strip(j.question) == j.question
    requires r == c.(queue := [], launched := c.launched + [j], running := true)
    ensures Valid(r)
  {
    forall k | k in r.launched
      ensures k.photo != "" && k.question != "" && Strip(k.question) == k.question
    {
      if k != j {
        assert k in c.launched;
      }
    }
  }

  /** A `stop` frame: cancel, queue `done` and the end marker, leave the receive loop. */
  function StopFrame(s: State): (r: State)
    requires Valid(s)
    ensures Valid(r) && !r.open
  {
    var c := Cancel(s);
    c.(queue := c.queue + [Queued(Done), EndOfStream], open := false)
  }

  /** One iteration of the receive loop on frame `f`. */
  function Next(s: State, f: Frame): (r: State)
    requires Valid(s) && s.open
    ensures Valid(r)
  {
    match f
    case Invalid => s
    case Parsed(NonObject(e)) => s.(wire := s.wire + [Error(e)], open := false)
    case Parsed(Object(kind, data, text)) =>
      if kind == Some("photo") then PhotoFrame(s, data.GetOr(""))
      else if kind == Some("question") then
        StripIdempotent(text.GetOr(""));
        QuestionFrame(s, Strip(text.GetOr("")))
      else if kind == Some("stop") then StopFrame(s)
      else s
  }

  /** The `finally` block: cancel the pipeline and queue an end marker. */
  function Finish(s: State): (r: State)
    requires Valid(s)
    ensures Valid(r) && !r.open
  {
    var c := Cancel(s);
    c.(queue := c.queue + [EndOfStream], open := false)
  }

  /** The messages the sender writes when it finds `q` queued: the payloads of the entries
      in front of the first end marker, in order. */
  function Sendable(q: seq<Item>): (r: seq<Message>)
    ensures |r| <= |q|
  {
    if q == [] then []
    else match q[0]
      case EndOfStream => []
      case Queued(m) => [m] + Sendable(q[1..])
  }

  /** What the sender writes is exactly the run of messages at the front of the queue: each
      written message is the payload of the entry at the same place, and the entry right
      after the last one written, if any, is an end marker. */
  lemma {:induction false} SendableIsFrontRun(q: seq<Item>)
    ensures forall i :: 0 <= i < |Sendable(q)| ==> q[i] == Queued(Sendable(q)[i])
    ensures |Sendable(q)| < |q| ==> q[|Sendable(q)|] == EndOfStream
  {
    if q != [] && q[0].Queued? {
      SendableIsFrontRun(q[1..]);
      assert Sendable(q) == [q[0].msg] + Sendable(q[1..]);
    }
  }

  /** What is left in the queue once the sender is done with `q`: the entries behind the
      first end marker, or nothing when there is none. */
  function Rest(q: seq<Item>): (r: seq<Item>)
    ensures EndOfStream !in q ==> r == []
  {
    if q == [] then []
    else match q[0]
      case EndOfStream => q[1..]
      case Queued(_) => Rest(q[1..])
  }

  /** One pass of the sender's loop: it takes the front of the queue (it waits while the
      queue is empty). An end marker makes it return; a message is written, or, once the
      client has gone, the write fails and the sender returns without writing it. */
  function SenderStep(s: State): (r: State)
    requires Valid(s)
    ensures Valid(r)
  {
    if s.senderDone || s.queue == [] then s
    else match s.queue[0]
      case EndOfStream => s.(queue := s.queue[1..], senderDone := true)
      case Queued(m) =>
        if s.connected then s.(wire := s.wire + [m], queue := s.queue[1..])
        else s.(queue := s.queue[1..], senderDone := true)
  }

  /** The sender's loop run until it waits on an empty queue or returns: it writes the
      queued messages in order up to the first end marker; once the client has gone, its
      first write fails and it returns. */
  function Drain(s: State): (r: State)
    requires Valid(s)
    ensures Valid(r)
    ensures (s.senderDone || EndOfStream in s.queue) ==> r.senderDone
  {
    if s.senderDone then s
    else if s.connected then
      s.(wire := s.wire + Sendable(s.queue), queue := Rest(s.queue), senderDone := EndOfStream in s.queue)
    else if s.queue == [] then s
    else s.(queue := s.queue[1..], senderDone := true)
  }

  /** A single pass of the sender leads where the whole loop leads: `Drain` is `SenderStep`
      repeated until the sender waits or returns. */
  lemma DrainAfterStep(s: State)
    requires Valid(s)
    ensures Drain(SenderStep(s)) == Drain(s)
    ensures SenderStep(s) == s ==> Drain(s) == s
  {
    if s.senderDone {
    } else if s.queue == [] {
      if s.connected {
        assert s.wire + Sendable(s.queue) == s.wire;
      }
    } else if s.queue[0] == EndOfStream {
      assert Sendable(s.queue) == [] && Rest(s.queue) == s.queue[1..];
      assert s.wire + [] == s.wire;
    } else if s.connected {
      var m, q := s.queue[0].msg, s.queue[1..];
      FrontMessage(s.queue);
      assert (s.wire + [m]) + Sendable(q) == s.wire + Sendable(s.queue);
      assert SenderStep(s) == s.(wire := s.wire + [m], queue := q);
    }
  }

  /** Taking a message off the front of the queue: the sender's output loses that message
      and nothing else changes. */
  lemma FrontMessage(q: seq<Item>)
    requires q != [] && q[0].Queued?
    ensures Sendable(q) == [q[0].msg] + Sendable(q[1..])
    ensures Rest(q) == Rest(q[1..])
    ensures EndOfStream in q <==> EndOfStream in q[1..]
  {
    assert q == [q[0]] + q[1..];
  }

  /** The client goes away. While the receive loop runs, `receive_text` raises, the loop
      ends and the `finally` block cancels the pipeline before anything else can run. */
  function Leave(s: State): (r: State)
    requires Valid(s)
    ensures Valid(r) && !r.connected && !r.open
    ensures r.wire == s.wire && r.queue == s.queue && r.senderDone == s.senderDone
  {
    var c := if s.open then Cancel(s) else s;
    c.(open := false, connected := false)
  }

  /** One thing that can happen while the session lives; asyncio decides the order, so any
      sequence of these is a possible schedule. */
  datatype Event =
    | Receive(frame: Frame)     // the receive loop gets a text frame
    | Emit(msg: Message)        // the pipeline task puts a message on the queue
    | PipelineEnds              // the pipeline task finishes on its own
    | SenderRuns                // the sender coroutine takes one item off the queue
    | ClientLeaves              // the client disconnects

  /** The effect of one event. A frame is only read while the receive loop runs; only a
      running pipeline puts messages. */
  function Apply(s: State, e: Event): (r: State)
    requires Valid(s)
    ensures Valid(r)
  {
    match e
    case Receive(f) => if s.open then Next(s, f) else s
    case Emit(m) => if s.running then Enqueue(s, m) else s
    case PipelineEnds => s.(running := false)
    case SenderRuns => SenderStep(s)
    case ClientLeaves => Leave(s)
  }

  /** The session after a schedule of events. */
  function Run(s: State, events: seq<Event>): (r: State)
    requires Valid(s)
    ensures Valid(r)
    decreases |events|
  {
    if events == [] then s else Run(Apply(s, events[0]), events[1..])
  }

  /** A whole connection: a schedule of events, then the end of the receive loop (the
      client leaving, if nothing else ended it), the `finally` block and the sender's last
      run (the two-second limit on that run is not modelled). Every connection ends with the
      loop over, no pipeline running and the sender returned. */
  function Endpoint(events: seq<Event>): (r: State)
    ensures !r.open && !r.running && r.senderDone
  {
    var s := Run(Initial, events);
    Drain(Finish(if s.open then Leave(s) else s))
  }
}
