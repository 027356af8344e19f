/** Per-fiber call stacks: which calls of a running program the tracer turns into traces. */
module CallStacks {

  type Fiber = nat

  /** A trace under construction: the invocation it was created for and what the handlers
      compare. */
  datatype Frame = Frame(id: nat, name: string, owner: string, rescued: bool)

  /** A trace pushed on the queue: invocation `id` of `fiber` returned `value`. */
  datatype Emission = Emission(fiber: Fiber, id: nat, value: int)

  /** What happens in the program. `id` identifies an invocation; `retry` runs the method's
      body again and makes the VM report another call for the same invocation. */
  datatype Event =
    | Start
    | Stop
    | Call(fiber: Fiber, id: nat, name: string, owner: string)
    | Retry(fiber: Fiber, id: nat, name: string, owner: string)
    | Rescue(fiber: Fiber, name: string)
    | Return(fiber: Fiber, id: nat, name: string, value: int)

  function Get<T>(stacks: map<Fiber, seq<T>>, f: Fiber): seq<T> {
    if f in stacks then stacks[f] else []
  }

  function Top<T>(s: seq<T>): T
    requires s != []
  {
    s[|s| - 1]
  }

  // ---------------------------------------------------------------------------
  // The tracer

  datatype TracerState = TracerState(enabled: bool, callStacks: map<Fiber, seq<Frame>>, emitted: seq<Emission>)

  const IDLE := TracerState(false, map[], [])

  /** A call is taken for a retry when the frame on top has rescued something and is of the
      same method and owner. */
  predicate LooksLikeRetry(stack: seq<Frame>, name: string, owner: string) {
    stack != [] && Top(stack).rescued && Top(stack).name == name && Top(stack).owner == owner
  }

  function OnCall(t: TracerState, f: Fiber, id: nat, name: string, owner: string): TracerState {
    var stack := Get(t.callStacks, f);
    if LooksLikeRetry(stack, name, owner) then t
    else t.(callStacks := t.callStacks[f := stack + [Frame(id, name, owner, false)]])
  }

  function OnReturn(t: TracerState, f: Fiber, name: string, value: int): TracerState {
    var stack := Get(t.callStacks, f);
    if stack == [] || Top(stack).name != name then t
    else t.(callStacks := t.callStacks[f := stack[..|stack| - 1]],
            emitted := t.emitted + [Emission(f, Top(stack).id, value)])
  }

  function OnRescue(t: TracerState, f: Fiber, name: string): TracerState {
    var stack := Get(t.callStacks, f);
    if stack == [] || Top(stack).name != name then t
    else t.(callStacks := t.callStacks[f := stack[|stack| - 1 := Top(stack).(rescued := true)]])
  }

  function OnEvent(t: TracerState, e: Event): TracerState {
    match e
    case Start => t.(enabled := true)
    case Stop => t.(enabled := false, callStacks := map[])
    case Call(f, id, name, owner) => if t.enabled then OnCall(t, f, id, name, owner) else t
    case Retry(f, id, name, owner) => if t.enabled then OnCall(t, f, id, name, owner) else t
    case Rescue(f, name) => if t.enabled then OnRescue(t, f, name) else t
    case Return(f, id, name, value) => if t.enabled then OnReturn(t, f, name, value) else t
  }

  /** The tracer after a run. */
  function Traced(run: seq<Event>): TracerState {
    if run == [] then IDLE else OnEvent(Traced(run[..|run| - 1]), Top(run))
  }

  /** The handlers as they run, on one map of stacks. */
  class Tracer {
    var enabled: bool
    var callStacks: map<Fiber, seq<Frame>>
    var emitted: seq<Emission>

    ghost function State(): TracerState
      reads this
    {
      TracerState(enabled, callStacks, emitted)
    }

    constructor ()
      ensures State() == IDLE
    {
      enabled, callStacks, emitted := false, map[], [];
    }

    method StartTracing()
      modifies this
      ensures State() == OnEvent(old(State()), Start)
    {
      enabled := true;
    }

    /** Disables the trace point and pops every stack until it is empty. */
    method StopTracing()
      modifies this
      ensures State() == OnEvent(old(State()), Stop)
    {
      enabled := false;
      var fibers := callStacks.Keys;
      while fibers != {}
        invariant fibers <= callStacks.Keys
        invariant emitted == old(emitted) && !enabled
        decreases fibers
      {
        var f :| f in fibers;
        while callStacks[f] != []
          invariant f in fibers && fibers <= callStacks.Keys
          invariant emitted == old(emitted) && !enabled
          decreases |callStacks[f]|
        {
          callStacks := callStacks[f := callStacks[f][..|callStacks[f]| - 1]];
        }
        fibers := fibers - {f};
      }
      callStacks := map[];
    }

    method ProcessCallEvent(f: Fiber, id: nat, name: string, owner: string)
      modifies this
      ensures State() == OnCall(old(State()), f, id, name, owner)
    {
      if f in callStacks {
        var stack := callStacks[f];
        if stack != [] {
          var previous := stack[|stack| - 1];
          if previous.rescued && name == previous.name && owner == previous.owner {
            return;
          }
        }
      }
      var trace := Frame(id, name, owner, false);
      if f !in callStacks {
        assert [] + [trace] == [trace];
        callStacks := callStacks[f := [trace]];
      } else {
        callStacks := callStacks[f := callStacks[f] + [trace]];
      }
    }

    method ProcessReturnEvent(f: Fiber, name: string, value: int)
      modifies this
      ensures State() == OnReturn(old(State()), f, name, value)
    {
      if f !in callStacks {
        return;
      }
      var stack := callStacks[f];
      if stack == [] {
        return;
      }
      var trace := stack[|stack| - 1];
      if trace.name != name {
        return;
      }
      callStacks := callStacks[f := stack[..|stack| - 1]];
      emitted := emitted + [Emission(f, trace.id, value)];
    }

    method ProcessRescuedEvent(f: Fiber, name: string)
      modifies this
      ensures State() == OnRescue(old(State()), f, name)
    {
      if f in callStacks {
        var stack := callStacks[f];
        if stack == [] {
          return;
        }
        var trace := stack[|stack| - 1];
        if trace.name != name {
          return;
        }
        callStacks := callStacks[f := stack[|stack| - 1 := trace.(rescued := true)]];
      }
    }
  }

  // ---------------------------------------------------------------------------
  // The program

  /** An invocation on a fiber's stack. `caught`: it has rescued an exception since its body
      was last entered; `tracked`: its body was entered in the current window; `seen`: it has
      rescued while tracked. */
  datatype Activation =
    Activation(id: nat, name: string, owner: string, caught: bool, tracked: bool, seen: bool)

  datatype Program = Program(observing: bool, stacks: map<Fiber, seq<Activation>>, used: set<nat>)

  const FRESH := Program(false, map[], {})

  /** Which events can come next in a well-nested program. */
  predicate Fits(p: Program, e: Event) {
    match e
    case Start => true
    case Stop => true
    case Call(f, id, name, owner) => id !in p.used
    case Retry(f, id, name, owner) =>
      var stack := Get(p.stacks, f);
      stack != [] && Top(stack).id == id && Top(stack).name == name && Top(stack).owner == owner && Top(stack).caught
    case Rescue(f, name) => true
    case Return(f, id, name, value) =>
      var stack := Get(p.stacks, f);
      stack != [] && Top(stack).id == id && Top(stack).name == name
  }

  function Untrack(stack: seq<Activation>): (r: seq<Activation>)
    ensures |r| == |stack|
    ensures forall i :: 0 <= i < |r| ==> r[i] == stack[i].(tracked := false)
  {
    seq(|stack|, i requires 0 <= i < |stack| => stack[i].(tracked := false))
  }

  function SetTop(p: Program, f: Fiber, a: Activation): Program
    requires Get(p.stacks, f) != []
  {
    p.(stacks := p.stacks[f := p.stacks[f][|p.stacks[f]| - 1 := a]])
  }

  function Advance(p: Program, e: Event): Program
    requires Fits(p, e)
  {
    match e
    case Start => p.(observing := true)
    case Stop => p.(observing := false, stacks := map f | f in p.stacks :: Untrack(p.stacks[f]))
    case Call(f, id, name, owner) =>
      p.(stacks := p.stacks[f := Get(p.stacks, f) + [Activation(id, name, owner, false, p.observing, false)]],
         used := p.used + {id})
    case Retry(f, id, name, owner) =>
      var a := Top(p.stacks[f]);
      SetTop(p, f, if p.observing && !a.tracked then a.(caught := false, tracked := true, seen := false)
                   else a.(caught := false))
    case Rescue(f, name) =>
      var stack := Get(p.stacks, f);
      if stack == [] || Top(stack).name != name then p
      else SetTop(p, f, Top(stack).(caught := true, seen := Top(stack).seen || Top(stack).tracked))
    case Return(f, id, name, value) =>
      p.(stacks := p.stacks[f := p.stacks[f][..|p.stacks[f]| - 1]])
  }

  predicate WellNested(run: seq<Event>)
    decreases |run|, 0
  {
    run == [] || (WellNested(run[..|run| - 1]) && Fits(Ran(run[..|run| - 1]), Top(run)))
  }

  function Ran(run: seq<Event>): Program
    requires WellNested(run)
    decreases |run|, 1
  {
    if run == [] then FRESH else Advance(Ran(run[..|run| - 1]), Top(run))
  }

  /** A true call that the tracer would take for a retry: a direct call of the same method
      and owner by an activation that has rescued in this window. */
  predicate Confusing(p: Program, e: Event) {
    e.Call? && p.observing
    && var stack := Get(p.stacks, e.fiber);
       stack != [] && Top(stack).tracked && Top(stack).seen && Top(stack).name == e.name && Top(stack).owner == e.owner
  }

  predicate NoConfusion(run: seq<Event>)
    requires WellNested(run)
  {
    run == [] || (NoConfusion(run[..|run| - 1]) && !Confusing(Ran(run[..|run| - 1]), Top(run)))
  }

  // ---------------------------------------------------------------------------
  // What ought to be emitted, read off the run alone

  predicate Observing(run: seq<Event>) {
    run != [] && (Top(run) == Start || (Top(run) != Stop && Observing(run[..|run| - 1])))
  }

  predicate EntersBody(e: Event, id: nat) {
    (e.Call? || e.Retry?) && e.id == id
  }

  ghost predicate NoStopFrom(run: seq<Event>, j: nat) {
    forall i :: j <= i < |run| ==> run[i] != Stop
  }

  /** The body of invocation `id` was entered in the window that is open at the end of the
      run: by its call, or by a retry. */
  ghost predicate EnteredInWindow(run: seq<Event>, id: nat) {
    exists j :: 0 <= j < |run| && EntersBody(run[j], id) && Observing(run[..j]) && NoStopFrom(run, j)
  }

  /** The returns, in order, of the invocations entered in the window the return falls in. */
  ghost function Expected(run: seq<Event>): seq<Emission> {
    if run == [] then [] else
    var before, e := run[..|run| - 1], Top(run);
    if e.Return? && EnteredInWindow(before, e.id) then Expected(before) + [Emission(e.fiber, e.id, e.value)]
    else Expected(before)
  }

  // ---------------------------------------------------------------------------
  // Where frames and emissions come from, in any sequence of events

  /** The j-th event entered the body of a frame on this fiber, in the window that is still open. */
  ghost predicate EnteredAt(run: seq<Event>, j: nat, f: Fiber, frame: Frame) {
    && j < |run| && EntersBody(run[j], frame.id) && run[j].fiber == f
    && run[j].name == frame.name && run[j].owner == frame.owner && NoStopFrom(run, j)
  }

  ghost predicate HasOrigin(run: seq<Event>, f: Fiber, frame: Frame) {
    exists j: nat :: EnteredAt(run, j, f, frame)
  }

  lemma OriginStays(run: seq<Event>, e: Event, f: Fiber, frame: Frame)
    requires HasOrigin(run, f, frame) && e != Stop
    ensures HasOrigin(run + [e], f, frame)
    ensures forall rescued :: HasOrigin(run, f, frame.(rescued := rescued))
  {
    var j: nat :| EnteredAt(run, j, f, frame);
    assert EnteredAt(run + [e], j, f, frame);
    forall rescued
      ensures HasOrigin(run, f, frame.(rescued := rescued))
    {
      assert EnteredAt(run, j, f, frame.(rescued := rescued));
    }
  }

  lemma {:induction false} FramesHaveOrigins(run: seq<Event>)
    ensures forall f, frame :: frame in Get(Traced(run).callStacks, f) ==> HasOrigin(run, f, frame)
  {
    hide HasOrigin, LooksLikeRetry;
    if run != [] {
      var before, e := run[..|run| - 1], Top(run);
      assert run == before + [e];
      FramesHaveOrigins(before);
      forall f, frame | frame in Get(Traced(run).callStacks, f)
        ensures HasOrigin(run, f, frame)
      {
        FrameHasOrigin(before, e, f, frame);
      }
    }
  }

  lemma FrameHasOrigin(before: seq<Event>, e: Event, f: Fiber, frame: Frame)
    requires forall g, x :: x in Get(Traced(before).callStacks, g) ==> HasOrigin(before, g, x)
    requires frame in Get(OnEvent(Traced(before), e).callStacks, f)
    ensures HasOrigin(before + [e], f, frame)
  {
    hide HasOrigin, LooksLikeRetry, Traced;
    var old', stack := Get(Traced(before).callStacks, f), Get(OnEvent(Traced(before), e).callStacks, f);
    if frame in old' {
      OriginStays(before, e, f, frame);
    } else if e.Rescue? {
      var was := frame.(rescued := false);
      assert was in old' || Top(old') in old';
      OriginStays(before, e, f, Top(old'));
      OriginStays(before + [e], Start, f, Top(old'));
    } else {
      assert (e.Call? || e.Retry?) && frame == Frame(e.id, e.name, e.owner, false) && e.fiber == f;
      NewOrigin(before, e, frame);
    }
  }

  lemma NewOrigin(before: seq<Event>, e: Event, frame: Frame)
    requires (e.Call? || e.Retry?) && frame.id == e.id && frame.name == e.name && frame.owner == e.owner
    ensures HasOrigin(before + [e], e.fiber, frame)
  {
    assert EnteredAt(before + [e], |before|, e.fiber, frame);
  }

  /** A return event of a fiber and the event that entered the body of the emitted invocation, of
      one name and in one window. */
  ghost predicate EmittedBy(run: seq<Event>, j: nat, r: nat, e: Emission) {
    && j < r < |run| && run[r].Return? && run[r].fiber == e.fiber && run[r].value == e.value
    && EntersBody(run[j], e.id) && run[j].fiber == e.fiber && run[j].name == run[r].name
    && (forall i :: j <= i < r ==> run[i] != Stop)
  }

  /** Whatever happens, well nested or not: what is emitted is the value of a return, for an
      invocation whose body was entered before on that fiber, under that method's name, in the
      same window. */
  lemma {:induction false} EmissionsAreReturns(run: seq<Event>, k: nat) returns (j: nat, r: nat)
    requires k < |Traced(run).emitted|
    ensures EmittedBy(run, j, r, Traced(run).emitted[k])
  {
    hide LooksLikeRetry, HasOrigin;
    var n := |run| - 1;
    var before, e := run[..n], Top(run);
    assert run == before + [e];
    if k < |Traced(before).emitted| {
      j, r := EmissionsAreReturns(before, k);
      assert Traced(run).emitted[k] == Traced(before).emitted[k];
      EndsStay(before, e, j, r, Traced(before).emitted[k]);
    } else {
      var frame := Top(Get(Traced(before).callStacks, e.fiber));
      FramesHaveOrigins(before);
      assert frame in Get(Traced(before).callStacks, e.fiber);
      j := OriginOf(before, e.fiber, frame);
      r := n;
    }
  }

  lemma OriginOf(run: seq<Event>, f: Fiber, frame: Frame) returns (j: nat)
    requires HasOrigin(run, f, frame)
    ensures EnteredAt(run, j, f, frame)
  {
    j :| EnteredAt(run, j, f, frame);
  }

  lemma EndsStay(run: seq<Event>, x: Event, j: nat, r: nat, e: Emission)
    requires EmittedBy(run, j, r, e)
    ensures EmittedBy(run + [x], j, r, e)
  {
  }

  // ---------------------------------------------------------------------------
  // The tracer's stack is the tracked part of the program's stack

  ghost predicate Mirrors(acts: seq<Activation>, frames: seq<Frame>) {
    && |frames| <= |acts|
    && (forall i :: 0 <= i < |acts| - |frames| ==> !acts[i].tracked)
    && (forall i :: |acts| - |frames| <= i < |acts| ==>
          && acts[i].tracked && (acts[i].caught ==> acts[i].seen)
          && frames[i - (|acts| - |frames|)] == Frame(acts[i].id, acts[i].name, acts[i].owner, acts[i].seen))
  }

  ghost predicate MirrorsAll(p: Program, t: TracerState) {
    && t.enabled == p.observing
    && (forall f :: Mirrors(Get(p.stacks, f), Get(t.callStacks, f)))
    && (!p.observing ==> forall f :: Get(t.callStacks, f) == [])
  }

  lemma TopMirrors(acts: seq<Activation>, frames: seq<Frame>)
    requires Mirrors(acts, frames)
    ensures frames != [] <==> acts != [] && Top(acts).tracked
    ensures frames != [] ==> Top(frames) == Frame(Top(acts).id, Top(acts).name, Top(acts).owner, Top(acts).seen)
    ensures frames != [] ==> Mirrors(acts[..|acts| - 1], frames[..|frames| - 1])
    ensures acts != [] && frames == [] ==> Mirrors(acts[..|acts| - 1], frames)
  {
    if acts != [] && Top(acts).tracked {
      assert !acts[|acts| - 1].tracked || |frames| > 0;
    }
  }

  lemma PushMirrors(acts: seq<Activation>, frames: seq<Frame>, a: Activation)
    requires Mirrors(acts, frames) && a.tracked && (a.caught ==> a.seen)
    ensures Mirrors(acts + [a], frames + [Frame(a.id, a.name, a.owner, a.seen)])
  {
  }

  lemma OthersMirror(p: Program, t: TracerState, p': Program, t': TracerState, f: Fiber)
    requires MirrorsAll(p, t)
    requires p'.observing == p.observing == t'.enabled
    requires p.observing || t'.callStacks == t.callStacks
    requires forall g :: g != f ==>
               Get(p'.stacks, g) == Get(p.stacks, g) && Get(t'.callStacks, g) == Get(t.callStacks, g)
    requires Mirrors(Get(p'.stacks, f), Get(t'.callStacks, f))
    ensures MirrorsAll(p', t')
  {
    forall g
      ensures Mirrors(Get(p'.stacks, g), Get(t'.callStacks, g))
    {
      if g != f {
        assert Get(p'.stacks, g) == Get(p.stacks, g);
      }
    }
  }

  lemma CallMirrors(p: Program, t: TracerState, e: Event)
    requires MirrorsAll(p, t) && Fits(p, e) && e.Call? && !Confusing(p, e)
    ensures MirrorsAll(Advance(p, e), OnEvent(t, e))
  {
    var f, acts, frames := e.fiber, Get(p.stacks, e.fiber), Get(t.callStacks, e.fiber);
    assert Mirrors(acts, frames);
    TopMirrors(acts, frames);
    if p.observing {
      PushMirrors(acts, frames, Activation(e.id, e.name, e.owner, false, true, false));
    }
    OthersMirror(p, t, Advance(p, e), OnEvent(t, e), f);
  }

  lemma RetryMirrors(p: Program, t: TracerState, e: Event)
    requires MirrorsAll(p, t) && Fits(p, e) && e.Retry?
    ensures MirrorsAll(Advance(p, e), OnEvent(t, e))
  {
    var f, acts, frames := e.fiber, Get(p.stacks, e.fiber), Get(t.callStacks, e.fiber);
    assert Mirrors(acts, frames);
    TopMirrors(acts, frames);
    var acts' := Get(Advance(p, e).stacks, f);
    if p.observing && !Top(acts).tracked {
      PushMirrors(acts[..|acts| - 1], [], Top(acts'));
      assert acts' == acts[..|acts| - 1] + [Top(acts')];
    }
    OthersMirror(p, t, Advance(p, e), OnEvent(t, e), f);
  }

  lemma RescueMirrors(p: Program, t: TracerState, e: Event)
    requires MirrorsAll(p, t) && Fits(p, e) && e.Rescue?
    ensures MirrorsAll(Advance(p, e), OnEvent(t, e))
  {
    var f, acts, frames := e.fiber, Get(p.stacks, e.fiber), Get(t.callStacks, e.fiber);
    assert Mirrors(acts, frames);
    TopMirrors(acts, frames);
    OthersMirror(p, t, Advance(p, e), OnEvent(t, e), f);
  }

  lemma ReturnMirrors(p: Program, t: TracerState, e: Event)
    requires MirrorsAll(p, t) && Fits(p, e) && e.Return?
    ensures MirrorsAll(Advance(p, e), OnEvent(t, e))
    ensures OnEvent(t, e).emitted == t.emitted +
      if Top(Get(p.stacks, e.fiber)).tracked then [Emission(e.fiber, e.id, e.value)] else []
  {
    var f, acts, frames := e.fiber, Get(p.stacks, e.fiber), Get(t.callStacks, e.fiber);
    assert Mirrors(acts, frames);
    TopMirrors(acts, frames);
    OthersMirror(p, t, Advance(p, e), OnEvent(t, e), f);
  }

  lemma WindowMirrors(p: Program, t: TracerState, e: Event)
    requires MirrorsAll(p, t) && (e.Start? || e.Stop?)
    ensures MirrorsAll(Advance(p, e), OnEvent(t, e))
  {
    var p', t' := Advance(p, e), OnEvent(t, e);
    forall f
      ensures Mirrors(Get(p'.stacks, f), Get(t'.callStacks, f))
    {
      assert Mirrors(Get(p.stacks, f), Get(t.callStacks, f));
    }
    assert e.Stop? ==> forall f :: Get(t'.callStacks, f) == [];
  }

  lemma StepMirrors(p: Program, t: TracerState, e: Event)
    requires MirrorsAll(p, t) && Fits(p, e) && !Confusing(p, e)
    ensures MirrorsAll(Advance(p, e), OnEvent(t, e))
  {
    match e
    case Call(_, _, _, _) => CallMirrors(p, t, e);
    case Retry(_, _, _, _) => RetryMirrors(p, t, e);
    case Rescue(_, _) => RescueMirrors(p, t, e);
    case Return(_, _, _, _) => ReturnMirrors(p, t, e);
    case _ => WindowMirrors(p, t, e);
  }

  /** The step at which the mirror breaks. */
  lemma ConfusionBreaks(p: Program, t: TracerState, e: Event)
    requires MirrorsAll(p, t) && Fits(p, e) && Confusing(p, e)
    requires forall a :: a in Get(p.stacks, e.fiber) ==> a.id in p.used
    ensures !MirrorsAll(Advance(p, e), OnEvent(t, e))
  {
    var acts, frames := Get(p.stacks, e.fiber), Get(t.callStacks, e.fiber);
    assert Mirrors(acts, frames);
    TopMirrors(acts, frames);
    assert Top(acts) in acts;
    var acts', frames' := Get(Advance(p, e).stacks, e.fiber), Get(OnEvent(t, e).callStacks, e.fiber);
    assert frames' == frames && Top(acts').id == e.id;
    if Mirrors(acts', frames') {
      TopMirrors(acts', frames');
    }
  }

  // ---------------------------------------------------------------------------
  // `tracked` is what the run says

  lemma {:induction false} EnteredSnoc(before: seq<Event>, e: Event, id: nat)
    ensures EnteredInWindow(before + [e], id)
       <==> e != Stop && (EnteredInWindow(before, id) || (EntersBody(e, id) && Observing(before)))
  {
    var run := before + [e];
    if EnteredInWindow(run, id) {
      var j :| 0 <= j < |run| && EntersBody(run[j], id) && Observing(run[..j]) && NoStopFrom(run, j);
      assert run[|before|] == e;
      assert run[..j] == before[..j];
      if j < |before| {
        assert before[j] == run[j];
        assert NoStopFrom(before, j) by {
          forall i | j <= i < |before|
            ensures before[i] != Stop
          {
            assert run[i] == before[i];
          }
        }
      } else {
        assert before[..j] == before;
      }
    }
    if e != Stop && EnteredInWindow(before, id) {
      var j :| 0 <= j < |before| && EntersBody(before[j], id) && Observing(before[..j]) && NoStopFrom(before, j);
      assert run[j] == before[j] && run[..j] == before[..j];
      assert NoStopFrom(run, j);
    }
    if EntersBody(e, id) && Observing(before) {
      assert run[|before|] == e && run[..|before|] == before;
      assert NoStopFrom(run, |before|);
    }
  }

  ghost predicate OnStack(p: Program, f: Fiber, i: int) {
    f in p.stacks && 0 <= i < |p.stacks[f]|
  }

  ghost function At(p: Program, f: Fiber, i: int): Activation
    requires OnStack(p, f, i)
  {
    p.stacks[f][i]
  }

  ghost predicate DistinctIds(p: Program) {
    && (forall f, i :: OnStack(p, f, i) ==> At(p, f, i).id in p.used)
    && (forall f, i, g, j :: OnStack(p, f, i) && OnStack(p, g, j) && At(p, f, i).id == At(p, g, j).id ==>
          f == g && i == j)
  }

  /** The program state against the run that led to it. */
  ghost predicate Reads(p: Program, run: seq<Event>) {
    && p.observing == Observing(run)
    && DistinctIds(p)
    && (forall id :: EnteredInWindow(run, id) ==> id in p.used)
    && (forall f, i :: OnStack(p, f, i) ==> (At(p, f, i).tracked <==> EnteredInWindow(run, At(p, f, i).id)))
  }

  lemma StepKeepsDistinct(p: Program, e: Event)
    requires DistinctIds(p) && Fits(p, e)
    ensures DistinctIds(Advance(p, e))
  {
    var p' := Advance(p, e);
    match e
    case Call(f, id, name, owner) =>
      var n := |Get(p.stacks, f)|;
      forall g, i | OnStack(p', g, i)
        ensures if g == f && i == n then At(p', g, i).id == id else OnStack(p, g, i) && At(p', g, i) == At(p, g, i)
      {
      }
    case Start =>
      assert forall g, i :: OnStack(p', g, i) ==> OnStack(p, g, i) && At(p', g, i) == At(p, g, i);
    case _ =>
      assert forall g, i :: OnStack(p', g, i) ==> OnStack(p, g, i) && At(p', g, i).id == At(p, g, i).id;
  }

  ghost predicate Pushed(p: Program, e: Event, g: Fiber, i: int) {
    e.Call? && g == e.fiber && i == |Get(p.stacks, g)|
  }

  lemma TrackedAfter(p: Program, e: Event, g: Fiber, i: int)
    requires DistinctIds(p) && Fits(p, e) && OnStack(Advance(p, e), g, i) && !Pushed(p, e, g, i)
    ensures OnStack(p, g, i) && At(Advance(p, e), g, i).id == At(p, g, i).id
    ensures At(Advance(p, e), g, i).tracked
       <==> e != Stop && (At(p, g, i).tracked || (p.observing && EntersBody(e, At(p, g, i).id)))
  {
    if e.Retry? {
      var top := |p.stacks[e.fiber]| - 1;
      assert OnStack(p, e.fiber, top) && At(p, e.fiber, top).id == e.id;
    }
  }

  lemma StepKeepsReads(before: seq<Event>, p: Program, e: Event)
    requires Reads(p, before) && Fits(p, e)
    ensures Reads(Advance(p, e), before + [e])
  {
    var p', run := Advance(p, e), before + [e];
    StepKeepsDistinct(p, e);
    assert run[..|run| - 1] == before && Top(run) == e;
    forall id | EnteredInWindow(run, id)
      ensures id in p'.used
    {
      EnteredSnoc(before, e, id);
      if e.Retry? && e.id == id {
        var top := |p.stacks[e.fiber]| - 1;
        assert OnStack(p, e.fiber, top) && At(p, e.fiber, top).id == id;
      }
    }
    forall g, i | OnStack(p', g, i)
      ensures At(p', g, i).tracked <==> EnteredInWindow(run, At(p', g, i).id)
    {
      EnteredSnoc(before, e, At(p', g, i).id);
      if Pushed(p, e, g, i) {
        assert At(p', g, i).id == e.id && e.id !in p.used;
      } else {
        TrackedAfter(p, e, g, i);
      }
    }
  }

  lemma {:induction false} RunReads(run: seq<Event>)
    requires WellNested(run)
    ensures Reads(Ran(run), run)
  {
    if run != [] {
      var before := run[..|run| - 1];
      RunReads(before);
      StepKeepsReads(before, Ran(before), Top(run));
      assert before + [Top(run)] == run;
    }
  }

  // ---------------------------------------------------------------------------
  // The main results

  lemma {:induction false} RunMirrors(run: seq<Event>)
    requires WellNested(run) && NoConfusion(run)
    ensures MirrorsAll(Ran(run), Traced(run))
  {
    if run != [] {
      RunMirrors(run[..|run| - 1]);
      StepMirrors(Ran(run[..|run| - 1]), Traced(run[..|run| - 1]), Top(run));
    }
  }

  lemma OnlyReturnsEmit(t: TracerState, e: Event)
    requires !e.Return?
    ensures OnEvent(t, e).emitted == t.emitted
  {
  }

  /** For every well-nested run, with any number of windows, fibers and retries: what is
      emitted is exactly the returns of the invocations whose body was entered in the same
      window, once each and in order. Returns of other invocations are ignored, and
      invocations open at a stop are not emitted. */
  lemma {:induction false} WindowTheorem(run: seq<Event>)
    requires WellNested(run) && NoConfusion(run)
    ensures Traced(run).emitted == Expected(run)
  {
    if run != [] {
      var before, e := run[..|run| - 1], Top(run);
      var p, t := Ran(before), Traced(before);
      WindowTheorem(before);
      RunMirrors(before);
      RunReads(before);
      if e.Return? {
        var n := |p.stacks[e.fiber]|;
        assert OnStack(p, e.fiber, n - 1) && At(p, e.fiber, n - 1) == Top(Get(p.stacks, e.fiber));
        ReturnMirrors(p, t, e);
      } else {
        OnlyReturnsEmit(t, e);
      }
    }
  }

  /** The tracer's stacks stay the tracked part of the program's stacks at every moment of a
      run if and only if no activation that has rescued in the window directly calls its own
      method and owner. */
  lemma StacksAreFaithful(run: seq<Event>)
    requires WellNested(run)
    ensures NoConfusion(run) <==>
              forall n :: 0 <= n <= |run| ==> WellNested(run[..n]) && MirrorsAll(Ran(run[..n]), Traced(run[..n]))
  {
    forall n | 0 <= n <= |run|
      ensures WellNested(run[..n]) && (NoConfusion(run) ==> NoConfusion(run[..n]))
    {
      PrefixIsWellNested(run, n);
    }
    if NoConfusion(run) {
      forall n | 0 <= n <= |run|
        ensures MirrorsAll(Ran(run[..n]), Traced(run[..n]))
      {
        RunMirrors(run[..n]);
      }
    } else {
      var n := FirstConfusion(run);
      RunMirrors(run[..n]);
      RunReads(run[..n]);
      var p, t, e := Ran(run[..n]), Traced(run[..n]), run[n];
      forall a | a in Get(p.stacks, e.fiber)
        ensures a.id in p.used
      {
        var i :| 0 <= i < |Get(p.stacks, e.fiber)| && Get(p.stacks, e.fiber)[i] == a;
        assert OnStack(p, e.fiber, i) && At(p, e.fiber, i) == a;
      }
      assert run[..n + 1][..n] == run[..n];
      ConfusionBreaks(p, t, e);
      assert !MirrorsAll(Ran(run[..n + 1]), Traced(run[..n + 1]));
    }
  }

  lemma {:induction false} PrefixIsWellNested(run: seq<Event>, n: nat)
    requires WellNested(run) && n <= |run|
    ensures WellNested(run[..n]) && (NoConfusion(run) ==> NoConfusion(run[..n]))
    decreases |run|
  {
    if n == |run| {
      assert run[..n] == run;
    } else {
      PrefixIsWellNested(run[..|run| - 1], n);
      assert run[..|run| - 1][..n] == run[..n];
    }
  }

  lemma {:induction false} FirstConfusion(run: seq<Event>) returns (n: nat)
    requires WellNested(run) && !NoConfusion(run)
    ensures n < |run| && WellNested(run[..n]) && NoConfusion(run[..n])
    ensures Fits(Ran(run[..n]), run[n]) && Confusing(Ran(run[..n]), run[n])
    decreases |run|
  {
    var before := run[..|run| - 1];
    if NoConfusion(before) {
      n := |run| - 1;
    } else {
      n := FirstConfusion(before);
      assert before[..n] == run[..n];
    }
  }

  ghost predicate Gone(p: Program, id: nat) {
    id in p.used && forall f, i :: OnStack(p, f, i) ==> At(p, f, i).id != id
  }

  lemma GoneStaysGone(p: Program, e: Event, id: nat)
    requires Gone(p, id) && Fits(p, e)
    ensures Gone(Advance(p, e), id)
  {
    var p' := Advance(p, e);
    forall g, i | OnStack(p', g, i)
      ensures At(p', g, i).id != id
    {
      if !(e.Call? && g == e.fiber && i == |Get(p.stacks, g)|) {
        assert OnStack(p, g, i) && At(p', g, i).id == At(p, g, i).id;
      }
    }
  }

  lemma ReturnedIsGone(p: Program, e: Event)
    requires DistinctIds(p) && Fits(p, e) && e.Return?
    ensures Gone(Advance(p, e), e.id) && !Gone(p, e.id)
  {
    var p', n := Advance(p, e), |p.stacks[e.fiber]|;
    assert OnStack(p, e.fiber, n - 1) && At(p, e.fiber, n - 1).id == e.id;
    forall g, i | OnStack(p', g, i)
      ensures At(p', g, i).id != e.id
    {
      assert OnStack(p, g, i) && At(p', g, i).id == At(p, g, i).id;
    }
  }

  /** No invocation is expected to be emitted twice. */
  lemma {:induction false} ExpectedOnce(run: seq<Event>)
    requires WellNested(run)
    ensures forall k :: 0 <= k < |Expected(run)| ==> Gone(Ran(run), Expected(run)[k].id)
    ensures forall k, l :: 0 <= k < l < |Expected(run)| ==> Expected(run)[k].id != Expected(run)[l].id
  {
    if run != [] {
      var before, e := run[..|run| - 1], Top(run);
      ExpectedOnce(before);
      RunReads(before);
      forall k | 0 <= k < |Expected(before)|
        ensures Gone(Ran(run), Expected(before)[k].id)
      {
        GoneStaysGone(Ran(before), e, Expected(before)[k].id);
      }
      if e.Return? {
        ReturnedIsGone(Ran(before), e);
      }
    }
  }

  // ---------------------------------------------------------------------------
  // Fibers do not disturb each other

  predicate Concerns(e: Event, f: Fiber) {
    e.Start? || e.Stop? || e.fiber == f
  }

  function Project(run: seq<Event>, f: Fiber): seq<Event> {
    if run == [] then []
    else Project(run[..|run| - 1], f) + (if Concerns(Top(run), f) then [Top(run)] else [])
  }

  function OfFiber(emissions: seq<Emission>, f: Fiber): seq<Emission> {
    if emissions == [] then []
    else OfFiber(emissions[..|emissions| - 1], f) + (if Top(emissions).fiber == f then [Top(emissions)] else [])
  }

  lemma OfFiberSnoc(emissions: seq<Emission>, x: Emission, f: Fiber)
    ensures OfFiber(emissions + [x], f) == OfFiber(emissions, f) + (if x.fiber == f then [x] else [])
  {
    assert (emissions + [x])[..|emissions|] == emissions;
  }

  lemma TracedSnoc(before: seq<Event>, e: Event)
    ensures Traced(before + [e]) == OnEvent(Traced(before), e)
  {
    assert (before + [e])[..|before|] == before;
  }

  ghost predicate AgreeOn(t: TracerState, u: TracerState, f: Fiber) {
    t.enabled == u.enabled && Get(t.callStacks, f) == Get(u.callStacks, f) && OfFiber(t.emitted, f) == u.emitted
  }

  lemma StepAgrees(t: TracerState, u: TracerState, e: Event, f: Fiber)
    requires AgreeOn(t, u, f)
    ensures AgreeOn(OnEvent(t, e), if Concerns(e, f) then OnEvent(u, e) else u, f)
  {
    if e.Return? && t.enabled {
      var stack := Get(t.callStacks, e.fiber);
      if stack != [] {
        OfFiberSnoc(t.emitted, Emission(e.fiber, Top(stack).id, e.value), f);
      }
    }
  }

  /** Whatever the interleaving, well-nested or not: what is emitted for a fiber is what the
      tracer would emit if it saw that fiber alone. */
  lemma {:induction false} FibersAreIndependent(run: seq<Event>, f: Fiber)
    ensures AgreeOn(Traced(run), Traced(Project(run, f)), f)
  {
    if run != [] {
      var before, e := run[..|run| - 1], Top(run);
      FibersAreIndependent(before, f);
      StepAgrees(Traced(before), Traced(Project(before, f)), e, f);
      if Concerns(e, f) {
        TracedSnoc(Project(before, f), e);
      } else {
        assert Project(before, f) + [] == Project(before, f);
      }
    }
  }

  // ---------------------------------------------------------------------------
  // Two limits

  /** As `EnteredInWindow`, but by the call itself. */
  ghost predicate CalledInWindow(run: seq<Event>, id: nat) {
    exists j :: 0 <= j < |run| && run[j].Call? && run[j].id == id && Observing(run[..j]) && NoStopFrom(run, j)
  }

  /** The returns of the invocations that began in the window the return falls in. */
  ghost function BegunAndEnded(run: seq<Event>): seq<Emission> {
    if run == [] then [] else
    var before, e := run[..|run| - 1], Top(run);
    if e.Return? && CalledInWindow(before, e.id) then BegunAndEnded(before) + [Emission(e.fiber, e.id, e.value)]
    else BegunAndEnded(before)
  }

  /** A return in the same window as a retry of its invocation, but not as its call. */
  ghost predicate ReturnsAfterOuterRetry(run: seq<Event>, k: nat) {
    k < |run| && run[k].Return? && EnteredInWindow(run[..k], run[k].id) && !CalledInWindow(run[..k], run[k].id)
  }

  lemma CalledIsEntered(run: seq<Event>, id: nat)
    requires CalledInWindow(run, id)
    ensures EnteredInWindow(run, id)
  {
    var j :| 0 <= j < |run| && run[j].Call? && run[j].id == id && Observing(run[..j]) && NoStopFrom(run, j);
    assert EntersBody(run[j], id);
  }

  lemma SnocIsInjective(a: seq<Emission>, b: seq<Emission>, x: Emission)
    ensures a + [x] == b + [x] <==> a == b
  {
    if a + [x] == b + [x] {
      assert a == (a + [x])[..|a|] && b == (b + [x])[..|b|];
    }
  }

  /** The expected emissions are those that both begin and end in a window exactly when no
      invocation begun before the window is retried in it and then returns in it. */
  lemma {:induction false} ExpectedBegunIff(run: seq<Event>)
    ensures |BegunAndEnded(run)| <= |Expected(run)|
    ensures BegunAndEnded(run) == Expected(run) <==> forall k :: 0 <= k < |run| ==> !ReturnsAfterOuterRetry(run, k)
  {
    if run != [] {
      var n := |run| - 1;
      var before, e := run[..n], Top(run);
      ExpectedBegunIff(before);
      forall k | 0 <= k < n
        ensures ReturnsAfterOuterRetry(run, k) <==> ReturnsAfterOuterRetry(before, k)
      {
        assert run[..k] == before[..k];
      }
      if e.Return? && CalledInWindow(before, e.id) {
        CalledIsEntered(before, e.id);
        SnocIsInjective(BegunAndEnded(before), Expected(before), Emission(e.fiber, e.id, e.value));
      }
      assert ReturnsAfterOuterRetry(run, n) <==>
               e.Return? && EnteredInWindow(before, e.id) && !CalledInWindow(before, e.id);
    }
  }

  /** The two states after a run, on fiber 0. */
  ghost predicate At0(run: seq<Event>, observing: bool, acts: seq<Activation>, used: set<nat>,
                      frames: seq<Frame>, emitted: seq<Emission>)
  {
    && WellNested(run) && Ran(run).observing == Traced(run).enabled == observing && Ran(run).used == used
    && Get(Ran(run).stacks, 0) == acts
    && Get(Traced(run).callStacks, 0) == frames && Traced(run).emitted == emitted
  }

  lemma Extend(before: seq<Event>, e: Event)
    requires WellNested(before) && Fits(Ran(before), e)
    ensures WellNested(before + [e])
    ensures Ran(before + [e]) == Advance(Ran(before), e) && Traced(before + [e]) == OnEvent(Traced(before), e)
    ensures NoConfusion(before + [e]) == (NoConfusion(before) && !Confusing(Ran(before), e))
    ensures BegunAndEnded(before + [e]) == BegunAndEnded(before) || e.Return?
    ensures Expected(before + [e]) == Expected(before) || e.Return?
  {
    assert (before + [e])[..|before|] == before;
  }

  lemma OuterRetryPrefix() returns (run: seq<Event>)
    ensures run == [Call(0, 1, "m", "A"), Rescue(0, "m"), Start]
    ensures At0(run, true, [Activation(1, "m", "A", true, false, false)], {1}, [], [])
    ensures NoConfusion(run) && BegunAndEnded(run) == []
  {
    Extend([], Call(0, 1, "m", "A"));
    run := [] + [Call(0, 1, "m", "A")];
    assert At0(run, false, [Activation(1, "m", "A", false, false, false)], {1}, [], []);
    Extend(run, Rescue(0, "m"));
    run := run + [Rescue(0, "m")];
    assert At0(run, false, [Activation(1, "m", "A", true, false, false)], {1}, [], []);
    Extend(run, Start);
    run := run + [Start];
  }

  /** A retry of an invocation that began before the window is emitted as if it were a call. */
  lemma OuterRetryIsEmitted() returns (run: seq<Event>)
    ensures WellNested(run) && NoConfusion(run)
    ensures Traced(run).emitted == [Emission(0, 1, 7)] && BegunAndEnded(run) == []
  {
    var r3 := OuterRetryPrefix();
    var retry, return' := Retry(0, 1, "m", "A"), Return(0, 1, "m", 7);
    Extend(r3, retry);
    var r4 := r3 + [retry];
    assert At0(r4, true, [Activation(1, "m", "A", false, true, false)], {1}, [Frame(1, "m", "A", false)], []);
    Extend(r4, return');
    run := r4 + [return'];
    assert run[..4] == r4;
    assert r4[..0] == [];
    assert !CalledInWindow(r4, 1);
  }

  lemma ConfusedPrefix() returns (run: seq<Event>)
    ensures At0(run, true, [Activation(1, "m", "A", true, true, true)], {1}, [Frame(1, "m", "A", true)], [])
    ensures Observing(run) && EnteredInWindow(run, 1) && Expected(run) == []
  {
    Extend([], Start);
    run := [] + [Start];
    assert At0(run, true, [], {}, [], []);
    Extend(run, Call(0, 1, "m", "A"));
    EnteredSnoc(run, Call(0, 1, "m", "A"), 1);
    run := run + [Call(0, 1, "m", "A")];
    assert At0(run, true, [Activation(1, "m", "A", false, true, false)], {1}, [Frame(1, "m", "A", false)], []);
    Extend(run, Rescue(0, "m"));
    EnteredSnoc(run, Rescue(0, "m"), 1);
    assert run[..1] == [Start] && [Start][..0] == [];
    assert (run + [Rescue(0, "m")])[..2] == run;
    run := run + [Rescue(0, "m")];
  }

  /** A rescued method that calls itself: the inner call is dropped, its return is recorded
      for the outer one, and the outer return is lost. */
  lemma ConfusedCallIsMisread() returns (run: seq<Event>)
    ensures WellNested(run) && !NoConfusion(run)
    ensures Traced(run).emitted == [Emission(0, 1, 20)]
    ensures Expected(run) == [Emission(0, 2, 20), Emission(0, 1, 10)]
  {
    var r3 := ConfusedPrefix();
    var call, inner, outer := Call(0, 2, "m", "A"), Return(0, 2, "m", 20), Return(0, 1, "m", 10);
    var a1, a2 := Activation(1, "m", "A", true, true, true), Activation(2, "m", "A", false, true, false);
    Extend(r3, call);
    var r4 := r3 + [call];
    assert At0(r4, true, [a1, a2], {1, 2}, [Frame(1, "m", "A", true)], []);
    Extend(r4, inner);
    var r5 := r4 + [inner];
    assert At0(r5, true, [a1], {1, 2}, [], [Emission(0, 1, 20)]);
    Extend(r5, outer);
    run := r5 + [outer];
    EnteredSnoc(r3, call, 1);
    EnteredSnoc(r3, call, 2);
    EnteredSnoc(r4, inner, 1);
    assert run[..|r5|] == r5 && r5[..|r4|] == r4;
    assert Expected(r5) == [Emission(0, 2, 20)];
  }
}
