/** What the WebSocket session handler promises, stated over the state machine of
    session_spec.dfy: the effect of each kind of frame, what happens over a sequence of
    frames, and what the client receives. */
module SessionProperties {
  import opened Wrappers
  import opened PyStr
  import opened Protocol
  import opened SessionSpec

  /** A photo frame: missing or empty data queues one error and keeps the stored photo;
      otherwise the data replaces the stored photo and one status is queued. */
  lemma PhotoFrameEffect(s: State, data: Option<string>, text: Option<string>)
    requires Valid(s) && s.open
    ensures var r := Next(s, Parsed(Object(Some("photo"), data, text)));
      if data.GetOr("") == "" then r == s.(queue := s.queue + [Queued(Error(EmptyPhoto))])
      else r == s.(photo := data, queue := s.queue + [Queued(Status(PhotoReceived))])
  {
  }

  /** A question that is blank once stripped is rejected, whether or not a photo is stored. */
  lemma BlankQuestionRejected(s: State, data: Option<string>, text: Option<string>)
    requires Valid(s) && s.open && Strip(text.GetOr("")) == ""
    ensures Next(s, Parsed(Object(Some("question"), data, text)))
         == s.(queue := s.queue + [Queued(Error(EmptyQuestion))])
  {
  }

  /** A non-blank question without a stored photo queues one error; no pipeline is cancelled
      or started and nothing pending is cleared. */
  lemma QuestionWithoutPhoto(s: State, data: Option<string>, text: Option<string>)
    requires Valid(s) && s.open && Strip(text.GetOr("")) != "" && s.photo.None?
    ensures Next(s, Parsed(Object(Some("question"), data, text)))
         == s.(queue := s.queue + [Queued(Error(NoPhoto))])
  {
  }

  /** An accepted question cancels a running pipeline, empties the queue and starts exactly
      one pipeline with the stored photo and the stripped question. */
  lemma AcceptedQuestion(s: State, data: Option<string>, text: Option<string>)
    requires Valid(s) && s.open && Strip(text.GetOr("")) != "" && s.photo.Some?
    ensures var r := Next(s, Parsed(Object(Some("question"), data, text)));
      r.queue == [] && r.running
      && r.launched == s.launched + [Job(s.photo.value, Strip(text.GetOr("")))]
      && r.cancelled == s.cancelled + (if s.running then [s.launched[|s.launched| - 1]] else [])
      && r.photo == s.photo && r.open && r.wire == s.wire && r.senderDone == s.senderDone
  {
  }

  /** A stop frame cancels the pipeline, queues `done` then the end marker, and leaves the
      receive loop; the stored photo and the pipelines started are kept. */
  lemma StopFrameEffect(s: State, f: Frame)
    requires Valid(s) && s.open && IsStop(f)
    ensures var r := Next(s, f);
      r.queue == s.queue + [Queued(Done), EndOfStream] && !r.open && !r.running
      && r.cancelled == s.cancelled + (if s.running then [s.launched[|s.launched| - 1]] else [])
      && r.photo == s.photo && r.launched == s.launched && r.wire == s.wire
  {
  }

  /** Text that is not JSON, and an object of unknown type, change nothing. */
  lemma InertFrameChangesNothing(s: State, f: Frame)
    requires Valid(s) && s.open && Inert(f)
    ensures Next(s, f) == s
  {
  }

  /** A JSON value that is not an object makes the handler raise: the error is written
      straight to the socket and the receive loop ends. */
  lemma NonObjectEndsLoop(s: State, e: string)
    requires Valid(s) && s.open
    ensures Next(s, Parsed(NonObject(e))) == s.(wire := s.wire + [Error(e)], open := false)
  {
  }

  /** With no end marker in front, the sender's output splits at the join of two queues. */
  lemma {:induction false} SendableConcat(q1: seq<Item>, q2: seq<Item>)
    requires EndOfStream !in q1
    ensures Sendable(q1 + q2) == Sendable(q1) + Sendable(q2)
    ensures Rest(q1 + q2) == Rest(q2)
  {
    if q1 == [] {
      assert q1 + q2 == q2;
    } else {
      assert q1[0] in q1;
      assert forall x :: x in q1[1..] ==> x in q1;
      assert (q1 + q2)[1..] == q1[1..] + q2;
      SendableConcat(q1[1..], q2);
    }
  }

  /** With no end marker queued, the sender writes every queued message, in queue order. */
  lemma {:induction false} SendableWithoutEnd(q: seq<Item>)
    requires EndOfStream !in q
    ensures |Sendable(q)| == |q|
    ensures forall i :: 0 <= i < |q| ==> Sendable(q)[i] == q[i].msg
  {
    if q != [] {
      assert q[0] in q;
      assert forall x :: x in q[1..] ==> x in q;
      SendableWithoutEnd(q[1..]);
    }
  }

  /** The sender stops at the first end marker: nothing queued behind it is ever written,
      and it stays in the queue. */
  lemma EndMarkerCutsOff(q1: seq<Item>, q2: seq<Item>)
    requires EndOfStream !in q1
    ensures Sendable(q1 + [EndOfStream] + q2) == Sendable(q1)
    ensures Rest(q1 + [EndOfStream] + q2) == q2
  {
    SendableConcat(q1, [EndOfStream] + q2);
    assert q1 + [EndOfStream] + q2 == q1 + ([EndOfStream] + q2);
  }

  /** After a stop frame and the closing `finally` block, the sender writes every message
      that was pending, then `done`, and stops; the second end marker queued by the
      `finally` block is never reached. */
  lemma StopDelivery(s: State, f: Frame)
    requires Valid(s) && s.open && IsStop(f)
    ensures var r := Drain(Finish(Next(s, f)));
      r.wire == s.wire + Sendable(s.queue) + [Done]
      && r.queue == [EndOfStream] && r.senderDone
  {
    var q := s.queue + [Queued(Done)];
    assert Finish(Next(s, f)).queue == q + [EndOfStream] + [EndOfStream];
    EndMarkerCutsOff(q, [EndOfStream]);
    SendableConcat(s.queue, [Queued(Done)]);
  }

  /** Running two schedules is running the first and then the second. */
  lemma {:induction false} RunAppend(s: State, a: seq<Event>, b: seq<Event>)
    requires Valid(s)
    ensures Run(s, a + b) == Run(Run(s, a), b)
    decreases |a|
  {
    if a == [] {
      assert a + b == b;
    } else {
      assert (a + b)[0] == a[0];
      assert (a + b)[1..] == a[1..] + b;
      RunAppend(Apply(s, a[0]), a[1..], b);
    }
  }

  /** Taking an event out of a schedule changes nothing when that event leaves the state
      where it finds it. */
  lemma RunWithoutNoOp(s: State, pre: seq<Event>, e: Event, post: seq<Event>)
    requires Valid(s) && Apply(Run(s, pre), e) == Run(s, pre)
    ensures Run(s, pre + [e] + post) == Run(s, pre + post)
  {
    RunAppend(s, pre + [e], post);
    RunAppend(s, pre, [e]);
    RunAppend(s, pre, post);
    assert Run(Run(s, pre), [e]) == Run(Apply(Run(s, pre), e), []);
  }

  /** Wherever it comes in a schedule, a frame that is not JSON or has an unknown type has
      no effect. */
  lemma InertFrameIgnored(s: State, pre: seq<Event>, f: Frame, post: seq<Event>)
    requires Valid(s) && Inert(f)
    ensures Run(s, pre + [Receive(f)] + post) == Run(s, pre + post)
  {
    RunWithoutNoOp(s, pre, Receive(f), post);
  }

  /** Once the receive loop has ended, it never runs again. */
  lemma {:induction false} ClosedStaysClosed(s: State, events: seq<Event>)
    requires Valid(s) && !s.open
    ensures !Run(s, events).open
    decreases |events|
  {
    if events != [] {
      ClosedStaysClosed(Apply(s, events[0]), events[1..]);
    }
  }

  /** After a stop frame no later frame is processed: removing any frame received after the
      stop leaves the outcome unchanged. */
  lemma NoFrameAfterStop(s: State, pre: seq<Event>, f: Frame, mid: seq<Event>, g: Frame, post: seq<Event>)
    requires Valid(s) && IsStop(f)
    ensures Run(s, pre + [Receive(f)] + mid + [Receive(g)] + post)
         == Run(s, pre + [Receive(f)] + mid + post)
  {
    var before := pre + [Receive(f)];
    RunAppend(s, pre, [Receive(f)]);
    var m := Run(s, pre);
    assert Run(m, [Receive(f)]) == Run(Apply(m, Receive(f)), []);
    assert !Run(s, before).open;
    RunAppend(s, before, mid);
    ClosedStaysClosed(Run(s, before), mid);
    RunWithoutNoOp(s, before + mid, Receive(g), post);
  }

  /** Behind an end marker, the sender's output no longer depends on what is queued. */
  lemma {:induction false} SendableAfterEnd(q: seq<Item>, r: seq<Item>)
    requires EndOfStream in q
    ensures Sendable(q + r) == Sendable(q)
  {
    assert (q + r)[0] == q[0];
    if q[0] != EndOfStream {
      assert q == [q[0]] + q[1..];
      assert (q + r)[1..] == q[1..] + r;
      SendableAfterEnd(q[1..], r);
    }
  }

  /** The session after a stop frame taken in state `m`, whatever the schedule since, while
      the client stays: the loop and the pipeline are over; what has been written plus what
      the sender will still write is what was written before the stop, every message pending
      at the stop and `done`; once the sender has returned, all of that has been written. */
  predicate StoppedFrom(x: State, m: State)
  {
    var all := m.wire + Sendable(m.queue) + [Done];
    !x.open && !x.running && x.connected
    && if x.senderDone then x.wire == all && x.queue == []
       else x.wire + Sendable(x.queue) == all && EndOfStream in x.queue && Rest(x.queue) == []
  }

  /** One pass of the sender keeps a stopped session stopped in the same way. */
  lemma SenderStepAfterStop(x: State, m: State)
    requires Valid(x) && StoppedFrom(x, m)
    ensures StoppedFrom(SenderStep(x), m)
  {
    if !x.senderDone {
      if x.queue[0] == EndOfStream {
        assert Sendable(x.queue) == [] && Rest(x.queue) == x.queue[1..];
      } else {
        FrontMessage(x.queue);
        assert (x.wire + [x.queue[0].msg]) + Sendable(x.queue[1..]) == x.wire + Sendable(x.queue);
      }
    }
  }

  /** Whatever comes after a stop, short of the client leaving, the session stays stopped in
      the same way. */
  lemma {:induction false} StoppedFromPreserved(x: State, m: State, events: seq<Event>)
    requires Valid(x) && StoppedFrom(x, m) && ClientLeaves !in events
    ensures StoppedFrom(Run(x, events), m)
    decreases |events|
  {
    if events != [] {
      if events[0] == SenderRuns {
        SenderStepAfterStop(x, m);
      }
      assert events[0] in events;
      assert forall e :: e in events[1..] ==> e in events;
      StoppedFromPreserved(Apply(x, events[0]), m, events[1..]);
    }
  }

  /** A connection that the client stops and stays on until the end: however the sender's
      passes interleave with the rest after the stop, the client receives what was written
      before it, then every message pending at the stop, and `done` last. */
  lemma StoppedConnection(pre: seq<Event>, f: Frame, post: seq<Event>)
    requires IsStop(f) && Run(Initial, pre).open && ClientLeaves !in post
    ensures var m := Run(Initial, pre);
      Endpoint(pre + [Receive(f)] + post).wire == m.wire + Sendable(m.queue) + [Done]
  {
    var m := Run(Initial, pre);
    RunAppend(Initial, pre, [Receive(f)]);
    RunAppend(Initial, pre + [Receive(f)], post);
    assert Run(m, [Receive(f)]) == Run(Next(m, f), []);
    StopStartsStopped(m, f);
    StoppedFromPreserved(Next(m, f), m, post);
    StoppedEndpoint(Run(Next(m, f), post), m);
  }

  /** Right after a stop frame the session is stopped from the state the frame found. */
  lemma StopStartsStopped(m: State, f: Frame)
    requires Valid(m) && m.open && IsStop(f)
    ensures StoppedFrom(Next(m, f), m)
  {
    EndMarkerCutsOff(m.queue + [Queued(Done)], []);
    SendableConcat(m.queue, [Queued(Done)]);
    assert Next(m, f).queue == m.queue + [Queued(Done)] + [EndOfStream] + [];
  }

  /** The `finally` block and the sender's last run complete the delivery owed by a stop. */
  lemma StoppedEndpoint(x: State, m: State)
    requires Valid(x) && StoppedFrom(x, m)
    ensures Drain(Finish(x)).wire == m.wire + Sendable(m.queue) + [Done]
  {
    if !x.senderDone {
      SendableAfterEnd(x.queue, [EndOfStream]);
    }
  }

  /** Once the client has gone, nothing more is written and it never comes back. */
  lemma {:induction false} NothingAfterLeaving(s: State, events: seq<Event>)
    requires Valid(s) && !s.connected
    ensures Run(s, events).wire == s.wire && !Run(s, events).connected
    decreases |events|
  {
    if events != [] {
      NothingAfterLeaving(Apply(s, events[0]), events[1..]);
    }
  }

  /** A connection whose client goes away: the client has received exactly what was written
      before it left, nothing is written after, no `done` is added, and the sender returns. */
  lemma DisconnectedConnection(pre: seq<Event>, post: seq<Event>)
    ensures var r := Endpoint(pre + [ClientLeaves] + post);
      r.wire == Run(Initial, pre).wire && r.senderDone
  {
    var s := Run(Initial, pre);
    RunAppend(Initial, pre, [ClientLeaves]);
    RunAppend(Initial, pre + [ClientLeaves], post);
    assert Run(s, [ClientLeaves]) == Run(Leave(s), []);
    NothingAfterLeaving(Leave(s), post);
  }
}
