/** The way of a trace from the return event to the collectors: tracer, queue, worker,
    socket, receiving thread, agent queue and collecting thread, one step at a time. */
module Pipeline {
  import opened Traces
  import Codec
  import JsonText
  import opened Framing

  datatype Message = Deliver(trace: Trace) | Sentinel

  datatype Worker = Waiting | Holding(trace: Trace) | Exited

  /** The client's way through flush: still tracing; the sentinel pushed; the worker joined;
      `stop` sent; the socket shut down for writing. */
  datatype Client = Tracing | Joining | Joined | StopSent | Closed

  /** `emitted` lists the traces pushed at returns; `batch` the messages the receiving thread
      has framed from its last read and not yet handled. */
  datatype System = System(
    client: Client, emitted: seq<Trace>, queue: seq<Message>, worker: Worker, wire: string,
    pending: Option<string>, batch: seq<Option<string>>, receiver: Status,
    agentQueue: seq<Trace>, collected: seq<Trace>)

  const START := System(Tracing, [], [], Waiting, "", None, [], Running, [], [])

  datatype Step =
    | Emit(trace: Trace)
    | BeginFlush
    | WorkerPops
    | WorkerSends
    | JoinWorker
    | SendStop
    | Shutdown
    | Read(n: nat)
    | HandleMessage
    | Collect

  const CHUNK: nat := 1024

  function Text(t: Trace): string {
    JsonText.Print(Codec.EncTrace(t))
  }

  /** The receiving thread's treatment of one message; None where it raises. */
  function DecodeMessage(message: string): Option<Trace> {
    match JsonText.Parse(message)
    case None => None
    case Some(tokens) =>
      match Codec.DecTrace(tokens)
      case Malformed => None
      case Parsed(trace, _) => Some(trace)
  }

  predicate Enabled(s: System, step: Step) {
    match step
    case Emit(_) => s.client == Tracing
    case BeginFlush => s.client == Tracing
    case WorkerPops => s.worker == Waiting && s.queue != []
    case WorkerSends => s.worker.Holding?
    case JoinWorker => s.client == Joining && s.worker == Exited
    case SendStop => s.client == Joined
    case Shutdown => s.client == StopSent
    case Read(n) => s.receiver == Running && s.batch == [] && 0 < n <= CHUNK && n <= |s.wire|
    case HandleMessage => s.receiver == Running && s.batch != []
    case Collect => s.agentQueue != []
  }

  function Apply(s: System, step: Step): System
    requires Enabled(s, step)
  {
    match step
    case Emit(t) => s.(emitted := s.emitted + [t], queue := s.queue + [Deliver(t)])
    case BeginFlush => s.(client := Joining, queue := s.queue + [Sentinel])
    case WorkerPops =>
      s.(worker := if s.queue[0].Sentinel? then Exited else Holding(s.queue[0].trace), queue := s.queue[1..])
    case WorkerSends => s.(worker := Waiting, wire := s.wire + (Text(s.worker.trace) + [JsonText.NUL]))
    case JoinWorker => s.(client := Joined)
    case SendStop => s.(client := StopSent, wire := s.wire + ("stop" + [JsonText.NUL]))
    case Shutdown => s.(client := Closed)
    case Read(n) =>
      var (messages, pending) := Reframe(s.pending, s.wire[..n]);
      s.(batch := messages, pending := pending, wire := s.wire[n..])
    case HandleMessage =>
      if s.batch[0] == Some("stop") then s.(receiver := Stopped, batch := [])
      else if s.batch[0] == None || DecodeMessage(s.batch[0].value) == None then s.(receiver := Raised, batch := [])
      else s.(agentQueue := s.agentQueue + [DecodeMessage(s.batch[0].value).value], batch := s.batch[1..])
    case Collect => s.(collected := s.collected + [s.agentQueue[0]], agentQueue := s.agentQueue[1..])
  }

  predicate Legal(s: System, steps: seq<Step>)
    decreases |steps|
  {
    steps == [] || (Enabled(s, steps[0]) && Legal(Apply(s, steps[0]), steps[1..]))
  }

  function Final(s: System, steps: seq<Step>): System
    requires Legal(s, steps)
    decreases |steps|
  {
    if steps == [] then s else Final(Apply(s, steps[0]), steps[1..])
  }

  // ---------------------------------------------------------------------------
  // Where a trace can be

  function InHand(w: Worker): seq<Trace> {
    if w.Holding? then [w.trace] else []
  }

  function Queued(queue: seq<Message>): seq<Trace> {
    if queue == [] then []
    else (if queue[0].Deliver? then [queue[0].trace] else []) + Queued(queue[1..])
  }

  /** The traces in a list of messages, up to the first `stop` or undecodable message. */
  function Decoded(messages: seq<Option<string>>): seq<Trace> {
    if messages == [] || messages[0] == None || messages[0] == Some("stop") then []
    else match DecodeMessage(messages[0].value)
      case None => []
      case Some(t) => [t] + Decoded(messages[1..])
  }

  /** The messages framed or still to be framed: the batch, and what the carry and the
      unread bytes complete. */
  function Arriving(s: System): seq<Option<string>> {
    s.batch + Wrap(Complete(Carried(s.pending) + s.wire))
  }

  /** The delivery law: nothing emitted is lost, duplicated or reordered. */
  ghost predicate Conserved(s: System) {
    s.emitted == s.collected + s.agentQueue + Decoded(Arriving(s)) + InHand(s.worker) + Queued(s.queue)
  }

  // ---------------------------------------------------------------------------
  // The invariant

  function Texts(traces: seq<Trace>): (r: seq<string>)
    ensures |r| == |traces|
  {
    if traces == [] then [] else [Text(traces[0])] + Texts(traces[1..])
  }

  predicate StopOnItsWay(s: System) {
    s.client.StopSent? || s.client.Closed?
  }

  predicate AllDeliver(queue: seq<Message>) {
    forall i :: 0 <= i < |queue| ==> queue[i].Deliver?
  }

  /** What the queue may hold in each phase of the client. */
  ghost predicate QueueShape(s: System) {
    match s.client
    case Tracing => s.worker != Exited && AllDeliver(s.queue)
    case Joining =>
      if s.worker == Exited then s.queue == []
      else s.queue != [] && AllDeliver(s.queue[..|s.queue| - 1]) && s.queue[|s.queue| - 1] == Sentinel
    case _ => s.worker == Exited && s.queue == []
  }

  /** The messages on their way, with `transit` the traces they carry. */
  function Outgoing(s: System, transit: seq<Trace>): seq<string> {
    Texts(transit) + (if StopOnItsWay(s) then ["stop"] else [])
  }

  ghost predicate Inv(s: System, transit: seq<Trace>) {
    && QueueShape(s)
    && s.emitted == s.collected + s.agentQueue + transit + InHand(s.worker) + Queued(s.queue)
    && match s.receiver
       case Running =>
         && GoodCarry(s.pending)
         && Begun(Carried(s.pending) + s.wire) == ""
         && Arriving(s) == Wrap(Outgoing(s, transit))
       case Stopped =>
         transit == [] && StopOnItsWay(s) && s.batch == [] && s.wire == "" && s.pending == None
       case Raised => false
  }

  // ---------------------------------------------------------------------------
  // Messages and texts

  lemma {:induction false} TextRoundTrip(t: Trace)
    ensures DecodeMessage(Text(t)) == Some(t)
    ensures Text(t) != "" && JsonText.NulFree(Text(t)) && Text(t) != "stop"
  {
    var tokens := Codec.EncTrace(t);
    JsonText.TextRoundTrip(tokens);
    JsonText.TextIsAFrame(tokens);
    Codec.TraceRoundTrip(t, []);
    assert tokens + [] == tokens;
  }

  lemma {:induction false} TextsAreFrames(traces: seq<Trace>)
    ensures NoneEmpty(Texts(traces)) && "stop" !in Texts(traces)
  {
    if traces != [] {
      TextRoundTrip(traces[0]);
      TextsAreFrames(traces[1..]);
    }
  }

  lemma OutgoingIsNonEmpty(s: System, transit: seq<Trace>)
    ensures NoneEmpty(Outgoing(s, transit))
  {
    TextsAreFrames(transit);
  }

  lemma {:induction false} TextsOfConcat(a: seq<Trace>, b: seq<Trace>)
    ensures Texts(a + b) == Texts(a) + Texts(b)
  {
    if a == [] {
      assert a + b == b;
    } else {
      assert (a + b)[1..] == a[1..] + b;
      TextsOfConcat(a[1..], b);
    }
  }

  lemma QueuedFront(m: Message, queue: seq<Message>)
    ensures Queued([m] + queue) == (if m.Deliver? then [m.trace] else []) + Queued(queue)
  {
    assert ([m] + queue)[1..] == queue;
  }

  lemma NothingQueued()
    ensures Queued([]) == []
  {
  }

  lemma {:induction false} QueuedOfConcat(a: seq<Message>, b: seq<Message>)
    ensures Queued(a + b) == Queued(a) + Queued(b)
  {
    hide Queued;
    if a == [] {
      assert a + b == b;
      NothingQueued();
    } else {
      assert a == [a[0]] + a[1..] && a + b == [a[0]] + (a[1..] + b);
      QueuedFront(a[0], a[1..]);
      QueuedFront(a[0], a[1..] + b);
      QueuedOfConcat(a[1..], b);
    }
  }

  lemma WrapOfConcat(a: seq<string>, b: seq<string>)
    ensures Wrap(a + b) == Wrap(a) + Wrap(b)
  {
  }

  lemma DecodedBehind(message: string, t: Trace, rest: seq<Option<string>>)
    requires DecodeMessage(message) == Some(t) && message != "stop"
    ensures Decoded([Some(message)] + rest) == [t] + Decoded(rest)
  {
    assert ([Some(message)] + rest)[1..] == rest;
  }

  /** Decoding what is on its way yields the traces that were sent, `stop` or not. */
  lemma {:induction false} DecodedOutgoing(traces: seq<Trace>, end: seq<string>)
    requires end == [] || end == ["stop"]
    ensures Decoded(Wrap(Texts(traces) + end)) == traces
  {
    hide DecodeMessage, Text;
    if traces != [] {
      var rest := Texts(traces[1..]) + end;
      assert Texts(traces) + end == [Text(traces[0])] + rest;
      WrapOfConcat([Text(traces[0])], rest);
      assert Wrap([Text(traces[0])]) == [Some(Text(traces[0]))];
      TextRoundTrip(traces[0]);
      DecodedBehind(Text(traces[0]), traces[0], Wrap(rest));
      DecodedOutgoing(traces[1..], end);
    } else {
      assert Texts(traces) + end == end;
    }
  }

  /** Appending a frame to the wire completes exactly that message. */
  lemma FrameArrives(begun: string, wire: string, message: string)
    requires Begun(begun + wire) == "" && JsonText.NulFree(message)
    ensures Complete(begun + (wire + (message + [JsonText.NUL]))) == Complete(begun + wire) + [message]
    ensures Begun(begun + (wire + (message + [JsonText.NUL]))) == ""
  {
    var frame := message + [JsonText.NUL];
    assert begun + (wire + frame) == (begun + wire) + frame;
    CompleteOfConcat(begun + wire, frame);
    assert "" + frame == frame;
    assert Frames([message]) == frame;
    SplitOfFrames([message]);
  }

  // ---------------------------------------------------------------------------
  // Every step keeps the invariant

  lemma EmitKeepsInv(s: System, transit: seq<Trace>, step: Step)
    requires Inv(s, transit) && Enabled(s, step) && (step.Emit? || step.BeginFlush?)
    ensures Inv(Apply(s, step), transit)
  {
    hide Arriving, Outgoing, Begun, DecodeMessage, Text;
    var message := if step.Emit? then Deliver(step.trace) else Sentinel;
    QueuedOfConcat(s.queue, [message]);
    assert (s.queue + [message])[..|s.queue|] == s.queue;
    SameArrivals(s, Apply(s, step), transit);
  }

  lemma TailDelivers(queue: seq<Message>)
    requires |queue| >= 2 && AllDeliver(queue[..|queue| - 1])
    ensures AllDeliver(queue[1..][..|queue| - 2])
  {
    assert queue[1..][..|queue| - 2] == queue[..|queue| - 1][1..];
  }

  lemma PopKeepsShape(s: System)
    requires QueueShape(s) && Enabled(s, WorkerPops)
    ensures QueueShape(Apply(s, WorkerPops))
    ensures Queued(s.queue) == InHand(Apply(s, WorkerPops).worker) + Queued(Apply(s, WorkerPops).queue)
  {
    if s.client.Joining? && |s.queue| >= 2 {
      TailDelivers(s.queue);
      assert s.queue[..|s.queue| - 1][0] == s.queue[0];
    }
  }

  lemma PopKeepsInv(s: System, transit: seq<Trace>)
    requires Inv(s, transit) && Enabled(s, WorkerPops)
    ensures Inv(Apply(s, WorkerPops), transit)
  {
    hide Arriving, Outgoing, Begun, DecodeMessage, Text, Queued, QueueShape;
    PopKeepsShape(s);
    SameArrivals(s, Apply(s, WorkerPops), transit);
    var front := s.collected + s.agentQueue + transit;
    assert front + InHand(s.worker) == front;
    assert front + (InHand(Apply(s, WorkerPops).worker) + Queued(Apply(s, WorkerPops).queue))
        == front + InHand(Apply(s, WorkerPops).worker) + Queued(Apply(s, WorkerPops).queue);
  }

  /** Only the receiving side, and the phase of the client, decide what is on its way. */
  lemma SameArrivals(s: System, s': System, transit: seq<Trace>)
    requires s'.batch == s.batch && s'.pending == s.pending && s'.wire == s.wire
    requires StopOnItsWay(s') == StopOnItsWay(s)
    ensures Arriving(s') == Arriving(s) && Outgoing(s', transit) == Outgoing(s, transit)
  {
  }

  /** The receiving side after a frame has been put on the wire. */
  lemma FrameAddsMessage(s: System, s': System, message: string)
    requires s'.batch == s.batch && s'.pending == s.pending
    requires s'.wire == s.wire + (message + [JsonText.NUL])
    requires Begun(Carried(s.pending) + s.wire) == "" && JsonText.NulFree(message)
    ensures Arriving(s') == Arriving(s) + [Some(message)]
    ensures Begun(Carried(s'.pending) + s'.wire) == ""
  {
    FrameArrives(Carried(s.pending), s.wire, message);
    WrapOfConcat(Complete(Carried(s.pending) + s.wire), [message]);
    assert Wrap([message]) == [Some(message)];
  }

  lemma OneMoreText(transit: seq<Trace>, t: Trace)
    ensures Wrap(Texts(transit + [t])) == Wrap(Texts(transit)) + [Some(Text(t))]
  {
    TextsOfConcat(transit, [t]);
    assert Texts([t]) == [Text(t)];
    WrapOfConcat(Texts(transit), [Text(t)]);
    assert Wrap([Text(t)]) == [Some(Text(t))];
  }

  lemma AppendToTransit(front: seq<Trace>, transit: seq<Trace>, t: Trace, queued: seq<Trace>)
    ensures front + transit + [t] + queued == front + (transit + [t]) + [] + queued
  {
  }

  lemma TakeFromTransit(
      collected: seq<Trace>, agentQueue: seq<Trace>, transit: seq<Trace>, rest: seq<Trace>)
    requires transit != []
    ensures collected + agentQueue + transit + rest == collected + (agentQueue + [transit[0]]) + transit[1..] + rest
  {
    assert transit == [transit[0]] + transit[1..];
  }

  lemma SendKeepsInv(s: System, transit: seq<Trace>)
    requires Inv(s, transit) && Enabled(s, WorkerSends)
    ensures Inv(Apply(s, WorkerSends), transit + [s.worker.trace])
  {
    hide Text, Begun, Arriving, Texts, DecodeMessage;
    var t := s.worker.trace;
    var s' := Apply(s, WorkerSends);
    assert !StopOnItsWay(s) && s.receiver == Running;
    TextRoundTrip(t);
    FrameAddsMessage(s, s', Text(t));
    OneMoreText(transit, t);
    assert Outgoing(s, transit) == Texts(transit);
    assert Outgoing(s', transit + [t]) == Texts(transit + [t]);
    AppendToTransit(s.collected + s.agentQueue, transit, t, Queued(s.queue));
  }

  lemma SendStopKeepsInv(s: System, transit: seq<Trace>)
    requires Inv(s, transit) && Enabled(s, SendStop)
    ensures Inv(Apply(s, SendStop), transit)
  {
    hide Text, Begun, Arriving, Texts, DecodeMessage;
    assert s.receiver == Running;
    FrameAddsMessage(s, Apply(s, SendStop), "stop");
    WrapOfConcat(Texts(transit), ["stop"]);
    assert Wrap(["stop"]) == [Some("stop")];
    assert Outgoing(s, transit) == Texts(transit);
  }

  lemma ClientKeepsInv(s: System, transit: seq<Trace>, step: Step)
    requires Inv(s, transit) && Enabled(s, step) && (step.JoinWorker? || step.Shutdown?)
    ensures Inv(Apply(s, step), transit)
  {
    hide DecodeMessage, Text, Texts, Queued, Begun;
    assert Arriving(Apply(s, step)) == Arriving(s);
    assert Outgoing(Apply(s, step), transit) == Outgoing(s, transit);
  }

  /** Reading cuts the same messages out of the stream, whatever the cut. */
  lemma ReadKeepsMessages(pending: Option<string>, wire: string, n: nat)
    requires GoodCarry(pending) && 0 < n <= |wire|
    requires Begun(Carried(pending) + wire) == "" && NoneEmpty(Complete(Carried(pending) + wire))
    ensures
      var (messages, pending') := Reframe(pending, wire[..n]);
      && messages + Wrap(Complete(Carried(pending') + wire[n..])) == Wrap(Complete(Carried(pending) + wire))
      && GoodCarry(pending') && Begun(Carried(pending') + wire[n..]) == ""
  {
    var chunk, rest := wire[..n], wire[n..];
    var front := Carried(pending) + chunk;
    assert wire == chunk + rest;
    assert Carried(pending) + wire == front + rest;
    CompleteOfConcat(front, rest);
    WrapOfConcat(Complete(front), Complete(Begun(front) + rest));
    assert !EndsInEmptyMessage(front) by {
      if Complete(front) != [] {
        var k := |Complete(front)| - 1;
        assert Complete(front)[k] == Complete(front + rest)[k];
      }
    }
    RoundAgreesWithSplit(pending, chunk);
  }

  lemma ReadKeepsInv(s: System, transit: seq<Trace>, n: nat)
    requires Inv(s, transit) && Enabled(s, Read(n))
    ensures Inv(Apply(s, Read(n)), transit)
  {
    hide DecodeMessage, Text, Texts, Queued, QueueShape, Reframe, Pieces;
    OutgoingIsNonEmpty(s, transit);
    WrapIsInjective(Complete(Carried(s.pending) + s.wire), Outgoing(s, transit));
    ReadKeepsMessages(s.pending, s.wire, n);
    ShapeIgnoresReceiver(s, Apply(s, Read(n)));
  }

  lemma WrapIsInjective(a: seq<string>, b: seq<string>)
    requires Wrap(a) == Wrap(b)
    ensures a == b
  {
    forall i | 0 <= i < |a|
      ensures a[i] == b[i]
    {
      assert Wrap(a)[i] == Wrap(b)[i];
    }
  }

  lemma HandleStop(s: System, transit: seq<Trace>)
    requires Inv(s, transit) && Enabled(s, HandleMessage) && transit == []
    ensures Inv(Apply(s, HandleMessage), transit)
  {
    assert Outgoing(s, transit) == if StopOnItsWay(s) then ["stop"] else [];
    assert s.batch[0] == Arriving(s)[0] == Wrap(Outgoing(s, transit))[0];
    assert |Arriving(s)| == 1;
    assert Wrap(Complete(Carried(s.pending) + s.wire)) == [];
    NothingCompleteNothingBegun(Carried(s.pending) + s.wire);
    assert Carried(s.pending) == "" && s.wire == "";
  }

  lemma HandledTrace(s: System, t: Trace)
    requires Enabled(s, HandleMessage) && s.batch[0] == Some(Text(t))
    ensures Apply(s, HandleMessage) == s.(agentQueue := s.agentQueue + [t], batch := s.batch[1..])
  {
    hide DecodeMessage, Text;
    TextRoundTrip(t);
  }

  lemma FirstArrival(s: System, transit: seq<Trace>)
    requires Inv(s, transit) && Enabled(s, HandleMessage) && transit != []
    ensures s.batch[0] == Some(Text(transit[0]))
    ensures Arriving(s)[1..] == Wrap(Outgoing(s, transit[1..]))
  {
    hide DecodeMessage, Text, Begun, Queued, QueueShape;
    var t, transit' := transit[0], transit[1..];
    assert Outgoing(s, transit) == [Text(t)] + Outgoing(s, transit');
    WrapOfConcat([Text(t)], Outgoing(s, transit'));
    assert Wrap([Text(t)]) == [Some(Text(t))];
    assert s.batch[0] == Arriving(s)[0];
  }

  lemma ShiftBatch(s: System, s': System)
    requires s.batch != [] && s'.batch == s.batch[1..] && s'.pending == s.pending && s'.wire == s.wire
    ensures Arriving(s') == Arriving(s)[1..]
  {
  }

  lemma HandleTrace(s: System, transit: seq<Trace>)
    requires Inv(s, transit) && Enabled(s, HandleMessage) && transit != []
    ensures Inv(Apply(s, HandleMessage), transit[1..])
  {
    hide DecodeMessage, Text, Begun, Queued, QueueShape, Apply, Wrap;
    FirstArrival(s, transit);
    HandledTrace(s, transit[0]);
    var s' := Apply(s, HandleMessage);
    ShapeIgnoresReceiver(s, s');
    ShiftBatch(s, s');
    assert Outgoing(s', transit[1..]) == Outgoing(s, transit[1..]);
    TakeFromTransit(s.collected, s.agentQueue, transit, InHand(s.worker));
  }

  /** Handling a message takes the first trace in transit, or `stop` when there is none. */
  lemma HandleKeepsInv(s: System, transit: seq<Trace>) returns (transit': seq<Trace>)
    requires Inv(s, transit) && Enabled(s, HandleMessage)
    ensures Inv(Apply(s, HandleMessage), transit')
  {
    if transit == [] {
      HandleStop(s, transit);
      transit' := transit;
    } else {
      HandleTrace(s, transit);
      transit' := transit[1..];
    }
  }

  lemma NothingCompleteNothingBegun(s: string)
    requires Complete(s) == [] && Begun(s) == ""
    ensures s == ""
  {
  }

  lemma ShapeIgnoresReceiver(s: System, s': System)
    requires s'.client == s.client && s'.worker == s.worker && s'.queue == s.queue
    ensures QueueShape(s') == QueueShape(s)
  {
  }

  lemma CollectKeepsInv(s: System, transit: seq<Trace>)
    requires Inv(s, transit) && Enabled(s, Collect)
    ensures Inv(Apply(s, Collect), transit)
  {
    hide Arriving, Outgoing, Begun, DecodeMessage, Text, Queued, QueueShape;
    var s' := Apply(s, Collect);
    assert s.collected + s.agentQueue == s'.collected + s'.agentQueue;
    SameArrivals(s, s', transit);
    ShapeIgnoresReceiver(s, s');
  }

  lemma StepKeepsInv(s: System, transit: seq<Trace>, step: Step) returns (transit': seq<Trace>)
    requires Inv(s, transit) && Enabled(s, step)
    ensures Inv(Apply(s, step), transit')
  {
    hide Inv, Apply;
    transit' := transit;
    match step
    case Emit(_) => EmitKeepsInv(s, transit, step);
    case BeginFlush => EmitKeepsInv(s, transit, step);
    case WorkerPops => PopKeepsInv(s, transit);
    case WorkerSends =>
      SendKeepsInv(s, transit);
      transit' := transit + [s.worker.trace];
    case JoinWorker => ClientKeepsInv(s, transit, step);
    case SendStop => SendStopKeepsInv(s, transit);
    case Shutdown => ClientKeepsInv(s, transit, step);
    case Read(n) => ReadKeepsInv(s, transit, n);
    case HandleMessage => transit' := HandleKeepsInv(s, transit);
    case Collect => CollectKeepsInv(s, transit);
  }

  lemma {:induction false} RunKeepsInv(s: System, transit: seq<Trace>, steps: seq<Step>)
    returns (transit': seq<Trace>)
    requires Inv(s, transit) && Legal(s, steps)
    ensures Inv(Final(s, steps), transit')
    decreases |steps|
  {
    if steps == [] {
      transit' := transit;
    } else {
      var mid := StepKeepsInv(s, transit, steps[0]);
      transit' := RunKeepsInv(Apply(s, steps[0]), mid, steps[1..]);
    }
  }

  lemma StartInv()
    ensures Inv(START, [])
  {
    assert Pieces("") == [""];
    assert Carried(None) + "" == "";
    assert Wrap([]) == [];
  }

  lemma InvConserves(s: System, transit: seq<Trace>)
    requires Inv(s, transit)
    ensures Conserved(s)
  {
    if s.receiver == Running {
      DecodedOutgoing(transit, if StopOnItsWay(s) then ["stop"] else []);
    } else {
      assert Carried(s.pending) + s.wire == "";
      assert Arriving(s) == [];
    }
  }

  // ---------------------------------------------------------------------------
  // The main results

  /** In every reachable state, for every interleaving and every chunking, the emitted
      traces are exactly those collected, queued in the agent, on the wire, in the worker's
      hand and in the queue, in that order; and the receiving thread never raises. */
  lemma Delivery(steps: seq<Step>)
    requires Legal(START, steps)
    ensures Conserved(Final(START, steps))
    ensures Final(START, steps).receiver != Raised
  {
    StartInv();
    var transit := RunKeepsInv(START, [], steps);
    InvConserves(Final(START, steps), transit);
  }

  /** Once `stop` has been handled, everything emitted has reached the agent's queue; once
      that is drained, it has been collected, in the order of emission. */
  lemma StopMeansDelivered(steps: seq<Step>)
    requires Legal(START, steps) && Final(START, steps).receiver == Stopped
    ensures var s := Final(START, steps); s.emitted == s.collected + s.agentQueue
  {
    StartInv();
    var transit := RunKeepsInv(START, [], steps);
    var s := Final(START, steps);
    assert s.queue == [] && InHand(s.worker) == [];
  }

  // ---------------------------------------------------------------------------
  // A flush always finishes

  function MessageWork(m: Message): nat {
    match m
    case Deliver(t) => 3 * (|Text(t)| + 1) + 2
    case Sentinel => 1
  }

  function QueueWork(queue: seq<Message>): nat {
    if queue == [] then 0 else MessageWork(queue[0]) + QueueWork(queue[1..])
  }

  function WorkerWork(w: Worker): nat {
    match w
    case Holding(t) => 3 * (|Text(t)| + 1) + 1
    case _ => 0
  }

  function ClientWork(c: Client): nat {
    match c
    case Tracing => 20
    case Joining => 18
    case Joined => 17
    case StopSent => 1
    case Closed => 0
  }

  /** A bound on the steps that are left once the flush has begun. */
  function Work(s: System): nat {
    ClientWork(s.client) + QueueWork(s.queue) + WorkerWork(s.worker)
    + 3 * |s.wire| + 2 * |s.batch| + |s.agentQueue|
  }

  lemma {:induction false} FewerPiecesThanBytes(s: string)
    ensures |Pieces(s)| <= |s| + 1
  {
    if s != "" {
      FewerPiecesThanBytes(s[1..]);
    }
  }

  lemma ReadShrinks(s: System, transit: seq<Trace>, n: nat)
    requires Inv(s, transit) && Enabled(s, Read(n))
    ensures Work(Apply(s, Read(n))) < Work(s)
  {
    hide Text, QueueShape, QueueWork, WorkerWork, ClientWork, Pieces, Split;
    var chunk := s.wire[..n];
    FewerPiecesThanBytes(chunk);
    CarriedPieces(s.pending, chunk);
    ReframeYieldsFewMessages(s.pending, chunk);
  }

  lemma ReframeYieldsFewMessages(pending: Option<string>, chunk: string)
    requires GoodCarry(pending) && chunk != ""
    ensures |Reframe(pending, chunk).0| <= |chunk|
  {
    FewerPiecesThanBytes(chunk);
    BegunIsEmptyAfterNul(chunk);
    var ps := Pieces(chunk);
    if EndsWithNul(chunk) {
      DroppingShortens(ps[..|ps| - 1]);
      assert Split(chunk) == DropTrailingEmpty(ps[..|ps| - 1]);
    } else {
      assert Split(chunk) == ps;
    }
    if pending.Some? && |Split(chunk)| > 1 {
      assert Split(chunk)[0] in ps;
      JoinCarry(pending.value, Split(chunk)[0]);
    }
  }

  lemma SenderShrinks(s: System, step: Step)
    requires Enabled(s, step) && s.client != Tracing
    requires step.WorkerPops? || step.WorkerSends? || step.JoinWorker? || step.SendStop? || step.Shutdown?
    ensures Work(Apply(s, step)) < Work(s)
  {
    hide Text, DecodeMessage;
    match step
    case WorkerSends =>
      assert |s.wire + (Text(s.worker.trace) + [JsonText.NUL])| == |s.wire| + |Text(s.worker.trace)| + 1;
    case SendStop => assert |s.wire + ("stop" + [JsonText.NUL])| == |s.wire| + 5;
    case _ =>
  }

  lemma ReceiverShrinks(s: System, step: Step)
    requires Enabled(s, step) && (step.HandleMessage? || step.Collect?)
    ensures Work(Apply(s, step)) < Work(s)
  {
    hide Text, DecodeMessage, QueueWork, WorkerWork, ClientWork;
  }

  lemma StepShrinks(s: System, transit: seq<Trace>, step: Step)
    requires Inv(s, transit) && Enabled(s, step) && s.client != Tracing
    ensures Work(Apply(s, step)) < Work(s)
  {
    if step.Read? {
      ReadShrinks(s, transit, step.n);
    } else if step.HandleMessage? || step.Collect? {
      ReceiverShrinks(s, step);
    } else {
      SenderShrinks(s, step);
    }
  }

  /** `read(1024)` returns less than it was asked for only at the end of the stream. */
  predicate FullRead(s: System, step: Step) {
    step.Read? ==> step.n == CHUNK || (s.client == Closed && step.n == |s.wire|)
  }

  predicate Delivered(s: System) {
    s.client == Closed && s.receiver == Stopped && s.agentQueue == []
  }

  /** Until everything has been delivered some thread can take a step. */
  lemma FlushCanMove(s: System, transit: seq<Trace>) returns (step: Step)
    requires Inv(s, transit) && s.client != Tracing && !Delivered(s)
    ensures Enabled(s, step) && FullRead(s, step)
  {
    if s.worker.Holding? {
      step := WorkerSends;
    } else {
      match s.client
      case Joining => step := if s.worker == Exited then JoinWorker else WorkerPops;
      case Joined => step := SendStop;
      case StopSent => step := Shutdown;
      case Closed =>
        if s.receiver == Stopped {
          step := Collect;
        } else if s.batch != [] {
          step := HandleMessage;
        } else {
          var n := if |s.wire| < CHUNK then |s.wire| else CHUNK;
          assert |Arriving(s)| == |Outgoing(s, transit)| > 0;
          if s.wire == "" {
            CarryAlone(s.pending);
          }
          step := Read(n);
        }
    }
  }

  lemma CarryAlone(pending: Option<string>)
    requires GoodCarry(pending)
    ensures Complete(Carried(pending) + "") == []
  {
    assert Carried(pending) + "" == Carried(pending);
    PiecesOfNulFree(Carried(pending));
  }

  lemma {:induction false} RunShrinks(s: System, transit: seq<Trace>, steps: seq<Step>)
    requires Inv(s, transit) && Legal(s, steps) && s.client != Tracing
    ensures |steps| <= Work(s)
    decreases |steps|
  {
    hide Work, Inv, Apply, Enabled;
    if steps != [] {
      var mid := StepKeepsInv(s, transit, steps[0]);
      StepShrinks(s, transit, steps[0]);
      ClientStaysInFlush(s, [steps[0]]);
      assert Final(s, [steps[0]]) == Apply(s, steps[0]);
      RunShrinks(Apply(s, steps[0]), mid, steps[1..]);
    }
  }

  /** Once flush has begun, no run goes on for ever, and a run that can go no further has
      delivered everything that was ever emitted. */
  lemma FlushDelivers(before: seq<Step>, after: seq<Step>)
    requires Legal(START, before) && Final(START, before).client != Tracing
    requires Legal(Final(START, before), after)
    ensures
      var s := Final(START, before);
      var end := Final(s, after);
      && |after| <= Work(s)
      && ((forall step :: Enabled(end, step) ==> !FullRead(end, step)) ==> end.collected == end.emitted)
  {
    StartInv();
    var s := Final(START, before);
    var transit := RunKeepsInv(START, [], before);
    RunShrinks(s, transit, after);
    var transit' := RunKeepsInv(s, transit, after);
    ClientStaysInFlush(s, after);
    var end := Final(s, after);
    if forall step :: Enabled(end, step) ==> !FullRead(end, step) {
      if !Delivered(end) {
        var step := FlushCanMove(end, transit');
        assert false;
      }
      assert end.collected + [] + [] + [] + [] == end.collected;
    }
  }

  lemma {:induction false} ClientStaysInFlush(s: System, steps: seq<Step>)
    requires Legal(s, steps) && s.client != Tracing
    ensures Final(s, steps).client != Tracing
    decreases |steps|
  {
    if steps != [] {
      ClientStaysInFlush(Apply(s, steps[0]), steps[1..]);
    }
  }
}
