/** The WebSocket session handler as it runs: one object holding the session's mutable
    state, updated in place by the receive loop, the pipeline task and the sender coroutine.
    Each method is proved to have exactly the effect that session_spec.dfy gives the step it
    performs. */
module SessionHandler {
  import opened Wrappers
  import opened PyStr
  import opened Protocol
  import opened SessionSpec

  class Session {
    var photo: Option<string>          // session["photo_b64"]
    var pipelineRunning: bool          // session["pipeline_task"] exists and is not done
    var launched: seq<Job>             // the pipelines started, in order
    var cancelled: seq<Job>            // the pipelines cancelled, in order
    var queue: seq<Item>               // send_queue
    var open: bool                     // the receive loop is running
    var connected: bool                // the client has not gone away
    var wire: seq<Message>             // what has been written to the socket
    var senderDone: bool               // the sender coroutine has returned

    /** The value this object stands for. */
    function Abs(): State
      reads this
    {
      State(photo, pipelineRunning, launched, cancelled, queue, open, connected, wire, senderDone)
    }

    ghost predicate Valid()
      reads this
    {
      SessionSpec.Valid(Abs())
    }

    /** A connection just accepted: no photo, no pipeline, nothing queued or sent. */
    constructor ()
      ensures Abs() == Initial && Valid()
    {
      photo := None;
      pipelineRunning := false;
      launched := [];
      cancelled := [];
      queue := [];
      open := true;
      connected := true;
      wire := [];
      senderDone := false;
    }

    /** `send_queue.put(item)` */
    method Put(item: Item)
      modifies this
      ensures Abs() == old(Abs()).(queue := old(queue) + [item])
    {
      queue := queue + [item];
    }

    /** `cancel_pipeline()` */
    method CancelPipeline()
      requires Valid()
      modifies this
      ensures Abs() == Cancel(old(Abs()))
    {
      if pipelineRunning {
        cancelled := cancelled + [launched[|launched| - 1]];
        pipelineRunning := false;
      }
    }

    /** `while not send_queue.empty(): send_queue.get_nowait()` */
    method ClearQueue()
      modifies this
      ensures Abs() == old(Abs()).(queue := [])
    {
      while queue != []
        invariant Abs() == old(Abs()).(queue := queue)
        decreases |queue|
      {
        queue := queue[1..];
      }
    }

    /** A `photo` frame whose `data` is `d` ("" when missing). */
    method OnPhoto(d: string)
      requires Valid() && open
      modifies this
      ensures Abs() == PhotoFrame(old(Abs()), d)
    {
      if d == "" {
        Put(Queued(Error(EmptyPhoto)));
      } else {
        photo := Some(d);
        Put(Queued(Status(PhotoReceived)));
      }
    }

    /** A `question` frame whose text, stripped, is `q`. */
    method OnQuestion(q: string)
      requires Valid() && open && Strip(q) == q
      modifies this
      ensures Abs() == QuestionFrame(old(Abs()), q)
    {
      if q == "" {
        Put(Queued(Error(EmptyQuestion)));
      } else if photo.None? {
        Put(Queued(Error(NoPhoto)));
      } else {
        CancelPipeline();
        ClearQueue();
        launched := launched + [Job(photo.value, q)];
        pipelineRunning := true;
      }
    }

    /** A `stop` frame. */
    method OnStop()
      requires Valid() && open
      modifies this
      ensures Abs() == StopFrame(old(Abs()))
    {
      CancelPipeline();
      Put(Queued(Done));
      Put(EndOfStream);
      open := false;
    }

    /** One iteration of the receive loop, on the decoded frame `frame`. */
    method Step(frame: Frame)
      requires Valid() && open
      modifies this
      ensures Abs() == Next(old(Abs()), frame)
    {
      match frame {
        case Invalid =>
        case Parsed(NonObject(e)) =>
          wire := wire + [Error(e)];
          open := false;
        case Parsed(Object(kind, data, text)) =>
          if kind == Some("photo") {
            OnPhoto(data.GetOr(""));
          } else if kind == Some("question") {
            StripIdempotent(text.GetOr(""));
            OnQuestion(Strip(text.GetOr("")));
          } else if kind == Some("stop") {
            OnStop();
          }
      }
    }

    /** The running pipeline puts `m` on the queue. */
    method PipelinePut(m: Message)
      requires Valid() && pipelineRunning
      modifies this
      ensures Abs() == Apply(old(Abs()), Emit(m))
    {
      Put(Queued(m));
    }

    /** The running pipeline finishes on its own. */
    method PipelineFinished()
      requires Valid()
      modifies this
      ensures Abs() == Apply(old(Abs()), PipelineEnds)
    {
      pipelineRunning := false;
    }

    /** One pass of the sender's loop: take the front of the queue and write it, or return
        on an end marker or on a failed write. */
    method SenderTurn()
      requires Valid()
      modifies this
      ensures Abs() == SenderStep(old(Abs()))
    {
      if !senderDone && queue != [] {
        var item := queue[0];
        queue := queue[1..];
        match item
        case EndOfStream =>
          senderDone := true;
        case Queued(m) =>
          if connected {
            wire := wire + [m];
          } else {
            senderDone := true;
          }
      }
    }

    /** The sender coroutine runs until it waits on an empty queue or returns. */
    method RunSender()
      requires Valid()
      modifies this
      ensures Abs() == Drain(old(Abs()))
    {
      while !senderDone && queue != []
        invariant Valid() && Drain(Abs()) == Drain(old(Abs()))
        decreases |queue|
      {
        DrainAfterStep(Abs());
        SenderTurn();
      }
      DrainAfterStep(Abs());
    }

    /** The client disconnects. */
    method ClientLeft()
      requires Valid()
      modifies this
      ensures Abs() == Leave(old(Abs()))
    {
      if open {
        CancelPipeline();
      }
      open := false;
      connected := false;
    }

    /** The `finally` block: the loop is over, the pipeline is cancelled and an end marker
        is queued. */
    method Close()
      requires Valid()
      modifies this
      ensures Abs() == Finish(old(Abs()))
    {
      open := false;
      CancelPipeline();
      Put(EndOfStream);
    }

    /** Runs a schedule of events in order. */
    method Serve(events: seq<Event>)
      requires Valid()
      modifies this
      ensures Valid() && Abs() == Run(old(Abs()), events)
    {
      var i := 0;
      while i < |events|
        invariant 0 <= i <= |events| && Valid()
        invariant Run(old(Abs()), events) == Run(Abs(), events[i..])
      {
        assert events[i..][1..] == events[i + 1..];
        match events[i] {
          case Receive(f) =>
            if open {
              Step(f);
            }
          case Emit(m) =>
            if pipelineRunning {
              PipelinePut(m);
            }
          case PipelineEnds =>
            PipelineFinished();
          case SenderRuns =>
            SenderTurn();
          case ClientLeaves =>
            ClientLeft();
        }
        i := i + 1;
      }
    }
  }

  /** `websocket_endpoint` for one connection under the schedule `events`: returns what the
      client is sent. */
  method HandleConnection(events: seq<Event>) returns (sent: seq<Message>)
    ensures sent == Endpoint(events).wire
  {
    var session := new Session();
    session.Serve(events);
    if session.open {
      session.ClientLeft();
    }
    session.Close();
    session.RunSender();
    sent := session.wire;
  }
}
