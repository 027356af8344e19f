/** The queue between the tracer and the worker: a linked list updated under a mutex, and
    the mutex/condition-variable protocol around it. */
module TinyQueue {
  import opened Traces

  class Node<T> {
    var data: T
    var next: Node?<T>

    constructor (data: T)
      ensures this.data == data && next == null
    {
      this.data, next := data, null;
    }
  }

  /** The list; its methods are the critical sections of push and pop. */
  class List<T> {
    var head: Node?<T>
    var tail: Node?<T>
    ghost var nodes: seq<Node<T>>

    ghost predicate Valid()
      reads this, nodes
    {
      && (nodes == [] ==> head == null && tail == null)
      && (nodes != [] ==> head == nodes[0] && tail == nodes[|nodes| - 1])
      && (forall i, j :: 0 <= i < j < |nodes| ==> nodes[i] != nodes[j])
      && (forall i, j :: 0 <= i && j == i + 1 && j < |nodes| ==> nodes[i].next == nodes[j])
      && (nodes != [] ==> nodes[|nodes| - 1].next == null)
    }

    ghost function Contents(): seq<T>
      reads this, nodes
    {
      seq(|nodes|, i requires 0 <= i < |nodes| reads this, nodes => nodes[i].data)
    }

    constructor ()
      ensures Valid() && Contents() == [] && nodes == []
    {
      head, tail, nodes := null, null, [];
    }

    method Link(x: T)
      requires Valid()
      modifies this, nodes
      ensures Valid() && Contents() == old(Contents()) + [x]
      ensures |nodes| == |old(nodes)| + 1 && fresh(nodes[|nodes| - 1]) && nodes[..|nodes| - 1] == old(nodes)
    {
      var node := new Node(x);
      if head == null && tail == null {
        head, tail := node, node;
      } else {
        tail.next := node;
        tail := node;
      }
      nodes := nodes + [node];
    }

    method Unlink() returns (x: T)
      requires Valid() && Contents() != []
      modifies this
      ensures Valid() && old(Contents()) == [x] + Contents()
      ensures nodes == old(nodes)[1..]
    {
      x := head.data;
      ghost var rest := nodes[1..];
      assert forall i :: 0 <= i < |rest| ==> rest[i] == nodes[i + 1];
      if head == tail {
        assert |nodes| == 1;
        head, tail := null, null;
      } else {
        head := head.next;
      }
      nodes := rest;
    }
  }

  // ---------------------------------------------------------------------------
  // Any number of producers and one consumer, one step of one thread at a time

  /** Where a producer is: outside push; before the lock; holding it, the node not yet
      linked; holding it, the node linked; past the unlock, before the signal. */
  datatype Producer<T> = Outside | Locking(x: T) | Linking(x: T) | Linked | Signalling

  /** Where the consumer is: outside pop; before the lock; holding it at the loop test;
      asleep on the condition; woken, before the lock is his again; holding it, the head
      taken off. */
  datatype Consumer<T> = Away | Entering | Testing | Asleep | Woken | Took(x: T)

  datatype State<T> = State(
    producers: seq<Producer<T>>, consumer: Consumer<T>, contents: seq<T>,
    pushed: seq<T>, popped: seq<T>)

  datatype Step<T> =
    | StartPush(p: nat, x: T)
    | ProducerLocks(p: nat)
    | ProducerLinks(p: nat)
    | ProducerUnlocks(p: nat)
    | ProducerSignals(p: nat)
    | StartPop
    | ConsumerLocks
    | ConsumerSleeps
    | ConsumerWakesSpuriously
    | ConsumerTakes
    | ConsumerUnlocks

  predicate ProducerHolds<T>(q: Producer<T>) { q.Linking? || q.Linked? }

  predicate ConsumerHolds<T>(c: Consumer<T>) { c.Testing? || c.Took? }

  predicate MutexFree<T>(s: State<T>) {
    !ConsumerHolds(s.consumer) && forall p :: 0 <= p < |s.producers| ==> !ProducerHolds(s.producers[p])
  }

  predicate Enabled<T>(s: State<T>, step: Step<T>) {
    match step
    case StartPush(p, x) => p < |s.producers| && s.producers[p] == Outside
    case ProducerLocks(p) => p < |s.producers| && s.producers[p].Locking? && MutexFree(s)
    case ProducerLinks(p) => p < |s.producers| && s.producers[p].Linking?
    case ProducerUnlocks(p) => p < |s.producers| && s.producers[p].Linked?
    case ProducerSignals(p) => p < |s.producers| && s.producers[p].Signalling?
    case StartPop => s.consumer.Away?
    case ConsumerLocks => (s.consumer.Entering? || s.consumer.Woken?) && MutexFree(s)
    case ConsumerSleeps => s.consumer.Testing? && s.contents == []
    case ConsumerWakesSpuriously => s.consumer.Asleep?
    case ConsumerTakes => s.consumer.Testing? && s.contents != []
    case ConsumerUnlocks => s.consumer.Took?
  }

  function Move<T>(s: State<T>, p: nat, q: Producer<T>): State<T>
    requires p < |s.producers|
  {
    s.(producers := s.producers[p := q])
  }

  function Apply<T>(s: State<T>, step: Step<T>): State<T>
    requires Enabled(s, step)
  {
    match step
    case StartPush(p, x) => Move(s, p, Locking(x))
    case ProducerLocks(p) => Move(s, p, Linking(s.producers[p].x))
    case ProducerLinks(p) =>
      var x := s.producers[p].x;
      Move(s, p, Linked).(contents := s.contents + [x], pushed := s.pushed + [x])
    case ProducerUnlocks(p) => Move(s, p, Signalling)
    case ProducerSignals(p) => Move(s, p, Outside).(consumer := if s.consumer.Asleep? then Woken else s.consumer)
    case StartPop => s.(consumer := Entering)
    case ConsumerLocks => s.(consumer := Testing)
    case ConsumerSleeps => s.(consumer := Asleep)
    case ConsumerWakesSpuriously => s.(consumer := Woken)
    case ConsumerTakes =>
      s.(consumer := Took(s.contents[0]), contents := s.contents[1..], popped := s.popped + [s.contents[0]])
    case ConsumerUnlocks => s.(consumer := Away)
  }

  predicate Initial<T>(s: State<T>) {
    && (forall p :: 0 <= p < |s.producers| ==> s.producers[p] == Outside)
    && s.consumer == Away && s.contents == [] && s.pushed == [] && s.popped == []
  }

  predicate Legal<T>(s: State<T>, steps: seq<Step<T>>)
    decreases |steps|
  {
    steps == [] || (Enabled(s, steps[0]) && Legal(Apply(s, steps[0]), steps[1..]))
  }

  function Final<T>(s: State<T>, steps: seq<Step<T>>): State<T>
    requires Legal(s, steps)
    decreases |steps|
  {
    if steps == [] then s else Final(Apply(s, steps[0]), steps[1..])
  }

  /** At most one thread holds the mutex. */
  ghost predicate Exclusive<T>(s: State<T>) {
    && (forall p, q :: 0 <= p < q < |s.producers| ==> !(ProducerHolds(s.producers[p]) && ProducerHolds(s.producers[q])))
    && (ConsumerHolds(s.consumer) ==> forall p :: 0 <= p < |s.producers| ==> !ProducerHolds(s.producers[p]))
  }

  /** A producer that has linked its node and has not signalled yet. */
  predicate OwesSignal<T>(q: Producer<T>) { q.Linked? || q.Signalling? }

  ghost predicate NoLostWakeup<T>(s: State<T>) {
    s.consumer.Asleep? && s.contents != [] ==>
      exists p :: 0 <= p < |s.producers| && OwesSignal(s.producers[p])
  }

  ghost predicate Safe<T>(s: State<T>) {
    && s.pushed == s.popped + s.contents
    && Exclusive(s)
    && NoLostWakeup(s)
  }

  lemma StepKeepsSafe<T>(s: State<T>, step: Step<T>)
    requires Safe(s) && Enabled(s, step)
    ensures Safe(Apply(s, step))
  {
    var s' := Apply(s, step);
    match step
    case ProducerLinks(p) =>
      assert s.pushed + [s.producers[p].x] == s.popped + (s.contents + [s.producers[p].x]);
      assert OwesSignal(s'.producers[p]);
    case ConsumerTakes =>
      assert s.contents == [s.contents[0]] + s.contents[1..];
    case ProducerUnlocks(p) =>
      assert OwesSignal(s'.producers[p]);
    case StartPush(p, x) => OthersStillOwe(s, p, Locking(x));
    case ProducerLocks(p) => OthersStillOwe(s, p, s'.producers[p]);
    case _ =>
  }

  lemma OthersStillOwe<T>(s: State<T>, p: nat, q: Producer<T>)
    requires NoLostWakeup(s) && p < |s.producers| && !OwesSignal(s.producers[p])
    ensures NoLostWakeup(Move(s, p, q))
  {
    if s.consumer.Asleep? && s.contents != [] {
      var r :| 0 <= r < |s.producers| && OwesSignal(s.producers[r]);
      assert Move(s, p, q).producers[r] == s.producers[r];
    }
  }

  /** Over every run, with any number of producers and any interleaving: what is in the list
      is what was pushed minus what was popped, in order, and the consumer never sleeps
      through a push whose signal is no longer to come. */
  lemma {:induction false} RunsAreSafe<T>(s: State<T>, steps: seq<Step<T>>)
    requires Safe(s) && Legal(s, steps)
    ensures Safe(Final(s, steps))
    decreases |steps|
  {
    if steps != [] {
      StepKeepsSafe(s, steps[0]);
      RunsAreSafe(Apply(s, steps[0]), steps[1..]);
    }
  }

  lemma QueueIsFirstInFirstOut<T>(s: State<T>, steps: seq<Step<T>>)
    requires Initial(s) && Legal(s, steps)
    ensures Final(s, steps).popped <= Final(s, steps).pushed
    ensures Final(s, steps).pushed == Final(s, steps).popped + Final(s, steps).contents
    ensures NoLostWakeup(Final(s, steps))
  {
    RunsAreSafe(s, steps);
  }

  /** The list under the protocol: its two critical sections, run by the threads whose turn it
      is, do to the linked list what the steps of the protocol do to the contents. */
  class SharedQueue<T> {
    const list: List<T>
    ghost var state: State<T>

    ghost predicate Valid()
      reads this, list, list.nodes
    {
      list.Valid() && list.Contents() == state.contents && Safe(state)
    }

    constructor (ghost producers: nat)
      ensures Valid() && Initial(state) && |state.producers| == producers
    {
      list := new List<T>();
      state := State(seq(producers, i => Outside), Away, [], [], []);
    }

    method LinkFor(ghost p: nat, x: T)
      requires Valid() && Enabled(state, ProducerLinks(p)) && state.producers[p].x == x
      modifies this, list, list.nodes
      ensures Valid() && state == Apply(old(state), ProducerLinks(p))
    {
      StepKeepsSafe(state, ProducerLinks(p));
      list.Link(x);
      state := Apply(state, ProducerLinks(p));
    }

    method TakeHead() returns (x: T)
      requires Valid() && Enabled(state, ConsumerTakes)
      modifies this, list
      ensures Valid() && state == Apply(old(state), ConsumerTakes) && state.consumer == Took(x)
    {
      StepKeepsSafe(state, ConsumerTakes);
      x := list.Unlink();
      assert state.contents[0] == x;
      state := Apply(state, ConsumerTakes);
    }

    /** No other step touches the list. */
    ghost method Proceed(step: Step<T>)
      requires Valid() && Enabled(state, step) && !step.ProducerLinks? && !step.ConsumerTakes?
      modifies this
      ensures Valid() && state == Apply(old(state), step)
    {
      StepKeepsSafe(state, step);
      state := Apply(state, step);
    }
  }

  // ---------------------------------------------------------------------------
  // A pop on a non-empty queue cannot hang

  function ProducerWork<T>(q: Producer<T>): nat {
    match q
    case Outside => 0
    case Signalling => 1
    case Linked => 2
    case Linking(_) => 3
    case Locking(_) => 4
  }

  function ConsumerWork<T>(c: Consumer<T>): nat {
    match c
    case Away => 0
    case Took(_) => 1
    case Testing => 2
    case Woken => 3
    case Entering => 3
    case Asleep => 4
  }

  function TotalWork<T>(ps: seq<Producer<T>>): nat {
    if ps == [] then 0 else ProducerWork(ps[0]) + TotalWork(ps[1..])
  }

  function Remaining<T>(s: State<T>): nat {
    TotalWork(s.producers) + ConsumerWork(s.consumer)
  }

  lemma {:induction false} WorkOfUpdate<T>(ps: seq<Producer<T>>, p: nat, q: Producer<T>)
    requires p < |ps|
    ensures TotalWork(ps[p := q]) == TotalWork(ps) - ProducerWork(ps[p]) + ProducerWork(q)
  {
    if p == 0 {
      assert ps[p := q][1..] == ps[1..];
    } else {
      assert ps[p := q][1..] == ps[1..][p - 1 := q];
      WorkOfUpdate(ps[1..], p - 1, q);
    }
  }

  /** The consumer is inside pop and has, or can still get, an element. */
  predicate PopUnderWay<T>(s: State<T>) {
    !s.consumer.Away? && (s.contents != [] || s.consumer.Took?)
  }

  predicate StartsAnother<T>(step: Step<T>) { step.StartPush? || step.StartPop? }

  /** Some step other than the start of another push can then be taken ... */
  lemma PopCanMove<T>(s: State<T>) returns (step: Step<T>)
    requires Safe(s) && PopUnderWay(s)
    ensures Enabled(s, step) && !StartsAnother(step)
  {
    if p :| 0 <= p < |s.producers| && ProducerHolds(s.producers[p]) {
      step := if s.producers[p].Linking? then ProducerLinks(p) else ProducerUnlocks(p);
    } else {
      match s.consumer
      case Asleep =>
        var p :| 0 <= p < |s.producers| && OwesSignal(s.producers[p]);
        step := ProducerSignals(p);
      case Testing => step := ConsumerTakes;
      case Took(x) => step := ConsumerUnlocks;
      case _ => step := ConsumerLocks;
    }
  }

  /** ... each such step leaves less to do ... */
  lemma PopGetsCloser<T>(s: State<T>, step: Step<T>)
    requires PopUnderWay(s) && Enabled(s, step) && !StartsAnother(step)
    ensures Remaining(Apply(s, step)) < Remaining(s)
    ensures PopUnderWay(Apply(s, step)) || Apply(s, step).consumer.Away?
  {
    match step
    case ProducerLocks(p) => WorkOfUpdate(s.producers, p, Linking(s.producers[p].x));
    case ProducerLinks(p) => WorkOfUpdate(s.producers, p, Linked);
    case ProducerUnlocks(p) => WorkOfUpdate(s.producers, p, Signalling);
    case ProducerSignals(p) => WorkOfUpdate(s.producers, p, Outside);
    case _ =>
  }

  predicate StaysInPop<T>(s: State<T>, steps: seq<Step<T>>)
    requires Legal(s, steps)
    decreases |steps|
  {
    !s.consumer.Away? && (steps == [] || StaysInPop(Apply(s, steps[0]), steps[1..]))
  }

  /** How many pushes start. */
  function Pushes<T>(steps: seq<Step<T>>): nat {
    if steps == [] then 0 else (if steps[0].StartPush? then 1 else 0) + Pushes(steps[1..])
  }

  predicate IsConsumers<T>(step: Step<T>) {
    step.StartPop? || step.ConsumerLocks? || step.ConsumerSleeps? || step.ConsumerWakesSpuriously?
    || step.ConsumerTakes? || step.ConsumerUnlocks?
  }

  function ConsumerSteps<T>(steps: seq<Step<T>>): nat {
    if steps == [] then 0 else (if IsConsumers(steps[0]) then 1 else 0) + ConsumerSteps(steps[1..])
  }

  lemma StartPushAdds<T>(s: State<T>, step: Step<T>)
    requires Enabled(s, step) && step.StartPush? && PopUnderWay(s)
    ensures Remaining(Apply(s, step)) == Remaining(s) + 4 && PopUnderWay(Apply(s, step))
  {
    WorkOfUpdate(s.producers, step.p, Locking(step.x));
  }

  /** ... so a pop that has an element to take is over after a bounded number of steps, whatever
      order the threads run in; each push that starts meanwhile adds at most five. Of these steps
      the consumer takes a fixed number at most, however many pushes start. */
  lemma {:induction false} PopCannotHang<T>(s: State<T>, steps: seq<Step<T>>)
    requires PopUnderWay(s) && Legal(s, steps) && StaysInPop(s, steps)
    ensures |steps| <= Remaining(s) + 5 * Pushes(steps)
    ensures ConsumerSteps(steps) <= ConsumerWork(s.consumer)
    decreases |steps|
  {
    if steps != [] {
      var s' := Apply(s, steps[0]);
      ConsumerGetsCloser(s, steps[0]);
      if steps[0].StartPush? {
        StartPushAdds(s, steps[0]);
      } else {
        PopGetsCloser(s, steps[0]);
      }
      PopCannotHang(s', steps[1..]);
    }
  }

  lemma ConsumerGetsCloser<T>(s: State<T>, step: Step<T>)
    requires PopUnderWay(s) && Enabled(s, step)
    ensures ConsumerWork(Apply(s, step).consumer) + (if IsConsumers(step) then 1 else 0) <= ConsumerWork(s.consumer)
  {
  }
}
