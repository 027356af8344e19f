/** When exactly what the tracer emits is what the program did, for every well-nested run.
    The tracer's stacks are compared with those of the program without the activations whose
    calls it took for retries and dropped; the two agree until such an activation returns. From
    then on emissions and the calls of the program stay apart, which makes the conditions exact.
    A second argument follows single invocations: a frame belongs to the activation of its
    number, and an invocation is emitted twice only if a retry brings its frame back. */
module Emissions {
  import opened CallStacks

  // ---------------------------------------------------------------------------
  // Calls taken for retries

  /** A call, not a retry, that the enabled tracer takes for one. */
  predicate TakenForRetry(t: TracerState, e: Event) {
    e.Call? && t.enabled && LooksLikeRetry(Get(t.callStacks, e.fiber), e.name, e.owner)
  }

  /** The calls that were taken for retries in the window open at the end of the run. */
  function Dropped(run: seq<Event>): set<nat> {
    if run == [] then {} else DroppedAfter(Traced(run[..|run| - 1]), Dropped(run[..|run| - 1]), Top(run))
  }

  function DroppedAfter(t: TracerState, dropped: set<nat>, e: Event): set<nat> {
    if e.Stop? then {} else if TakenForRetry(t, e) then dropped + {e.id} else dropped
  }

  /** The return, in the same window, of a call that was taken for a retry. */
  predicate DroppedReturn(run: seq<Event>, r: nat) {
    r < |run| && run[r].Return? && run[r].id in Dropped(run[..r])
  }

  ghost predicate NoDroppedReturn(run: seq<Event>) {
    forall r: nat :: !DroppedReturn(run, r)
  }

  // ---------------------------------------------------------------------------
  // The program's stacks without the dropped calls

  function Live(acts: seq<Activation>, dropped: set<nat>): seq<Activation> {
    if acts == [] then []
    else Live(acts[..|acts| - 1], dropped) + if Top(acts).id in dropped then [] else [Top(acts)]
  }

  function Without(p: Program, dropped: set<nat>): Program {
    p.(stacks := map f | f in p.stacks :: Live(p.stacks[f], dropped))
  }

  /** A dropped call stands, among dropped ones, right above a tracked activation of the same
      method and owner that has rescued. */
  ghost predicate StandsOver(acts: seq<Activation>, i: nat, dropped: set<nat>)
    requires i < |acts|
  {
    var below := Live(acts[..i], dropped);
    acts[i].tracked && below != [] && Top(below).tracked && Top(below).seen
    && Top(below).name == acts[i].name && Top(below).owner == acts[i].owner
  }

  ghost predicate Stand(acts: seq<Activation>, dropped: set<nat>) {
    forall i: nat :: i < |acts| && acts[i].id in dropped ==> StandsOver(acts, i, dropped)
  }

  /** The tracer's stacks mirror the program's without the dropped calls. */
  ghost predicate Shadows(p: Program, t: TracerState, dropped: set<nat>) {
    && MirrorsAll(Without(p, dropped), t)
    && (forall f :: Stand(Get(p.stacks, f), dropped))
    && dropped <= p.used
  }

  lemma LiveOfEmpty(dropped: set<nat>)
    ensures Live([], dropped) == []
  {
  }

  lemma LiveSnoc(acts: seq<Activation>, a: Activation, dropped: set<nat>)
    ensures Live(acts + [a], dropped) == Live(acts, dropped) + if a.id in dropped then [] else [a]
  {
    assert (acts + [a])[..|acts|] == acts;
  }

  lemma {:induction false} LiveOfOthers(acts: seq<Activation>, dropped: set<nat>, id: nat)
    requires forall i :: 0 <= i < |acts| ==> acts[i].id != id
    ensures Live(acts, dropped + {id}) == Live(acts, dropped)
  {
    if acts != [] {
      LiveOfOthers(acts[..|acts| - 1], dropped, id);
    }
  }

  lemma {:induction false} NothingDropped(acts: seq<Activation>)
    ensures Live(acts, {}) == acts
  {
    if acts != [] {
      NothingDropped(acts[..|acts| - 1]);
    }
  }

  lemma WithoutStacks(p: Program, dropped: set<nat>, f: Fiber)
    ensures Get(Without(p, dropped).stacks, f) == Live(Get(p.stacks, f), dropped)
  {
  }

  /** The mirror depends on the stacks only. */
  lemma SameStacksMirror(p: Program, q: Program, t: TracerState)
    requires MirrorsAll(p, t) && p.observing == q.observing
    requires forall f :: Get(p.stacks, f) == Get(q.stacks, f)
    ensures MirrorsAll(q, t)
  {
    forall f
      ensures Mirrors(Get(q.stacks, f), Get(t.callStacks, f))
    {
      assert Mirrors(Get(p.stacks, f), Get(t.callStacks, f));
    }
  }

  /** What stands over what only depends on the activations up to there. */
  lemma StandSnoc(acts: seq<Activation>, a: Activation, dropped: set<nat>)
    requires Stand(acts, dropped)
    requires a.id in dropped ==> StandsOver(acts + [a], |acts|, dropped)
    ensures Stand(acts + [a], dropped)
  {
    forall i: nat | i < |acts + [a]| && (acts + [a])[i].id in dropped
      ensures StandsOver(acts + [a], i, dropped)
    {
      if i < |acts| {
        assert StandsOver(acts, i, dropped);
        assert (acts + [a])[..i] == acts[..i];
      }
    }
  }

  lemma StandFront(acts: seq<Activation>, dropped: set<nat>)
    requires Stand(acts, dropped) && acts != []
    ensures Stand(acts[..|acts| - 1], dropped)
  {
    var front := acts[..|acts| - 1];
    forall i: nat | i < |front| && front[i].id in dropped
      ensures StandsOver(front, i, dropped)
    {
      assert StandsOver(acts, i, dropped);
      assert acts[..i] == front[..i];
    }
  }

  ghost predicate IdsUsed(p: Program) {
    forall f, i :: 0 <= i < |Get(p.stacks, f)| ==> Get(p.stacks, f)[i].id in p.used
  }

  // ---------------------------------------------------------------------------
  // Every step keeps the shadow, up to the return of a dropped call

  /** The shadow after a step in which the program without the dropped calls does the same. */
  lemma FollowShadows(p: Program, t: TracerState, dropped: set<nat>, p': Program, t': TracerState,
                                         q': Program, f: Fiber)
    requires Shadows(p, t, dropped) && MirrorsAll(q', t') && q'.observing == p'.observing && p.used <= p'.used
    requires forall g :: g != f ==> Get(p'.stacks, g) == Get(p.stacks, g)
    requires forall g :: g != f ==> Get(q'.stacks, g) == Get(Without(p, dropped).stacks, g)
    requires Get(q'.stacks, f) == Live(Get(p'.stacks, f), dropped) && Stand(Get(p'.stacks, f), dropped)
    ensures Shadows(p', t', dropped)
  {
    hide Live, Stand;
    forall g
      ensures Get(q'.stacks, g) == Get(Without(p', dropped).stacks, g) && Stand(Get(p'.stacks, g), dropped)
    {
      WithoutStacks(p, dropped, g);
      WithoutStacks(p', dropped, g);
    }
    SameStacksMirror(q', Without(p', dropped), t');
  }

  lemma CallShadows(p: Program, t: TracerState, dropped: set<nat>, e: Event)
    requires Shadows(p, t, dropped) && Fits(p, e) && e.Call? && !TakenForRetry(t, e)
    ensures Shadows(Advance(p, e), OnEvent(t, e), dropped)
  {
    hide Live, Stand, MirrorsAll;
    var f, q := e.fiber, Without(p, dropped);
    var acts := Get(p.stacks, f);
    var a := Activation(e.id, e.name, e.owner, false, p.observing, false);
    WithoutStacks(p, dropped, f);
    NotConfusing(q, t, e);
    CallMirrors(q, t, e);
    LiveSnoc(acts, a, dropped);
    assert a.id !in dropped;
    StandSnoc(acts, a, dropped);
    FollowShadows(p, t, dropped, Advance(p, e), OnEvent(t, e), Advance(q, e), f);
  }

  lemma NotConfusing(q: Program, t: TracerState, e: Event)
    requires MirrorsAll(q, t) && e.Call? && !TakenForRetry(t, e)
    ensures !Confusing(q, e)
  {
    assert Mirrors(Get(q.stacks, e.fiber), Get(t.callStacks, e.fiber));
    TopMirrors(Get(q.stacks, e.fiber), Get(t.callStacks, e.fiber));
  }

  /** What the guard for retries says about the program without the dropped calls. */
  lemma GuardMeans(q: Program, t: TracerState, f: Fiber, name: string, owner: string)
    requires MirrorsAll(q, t) && LooksLikeRetry(Get(t.callStacks, f), name, owner)
    ensures
      var acts := Get(q.stacks, f);
      acts != [] && Top(acts).tracked && Top(acts).seen && Top(acts).name == name && Top(acts).owner == owner
  {
    assert Mirrors(Get(q.stacks, f), Get(t.callStacks, f));
    TopMirrors(Get(q.stacks, f), Get(t.callStacks, f));
  }

  lemma DroppedCallShadows(p: Program, t: TracerState, dropped: set<nat>, e: Event)
    requires Shadows(p, t, dropped) && IdsUsed(p) && Fits(p, e) && TakenForRetry(t, e)
    ensures Shadows(Advance(p, e), OnEvent(t, e), dropped + {e.id})
  {
    hide MirrorsAll;
    var f, q, all := e.fiber, Without(p, dropped), dropped + {e.id};
    var p', a := Advance(p, e), Activation(e.id, e.name, e.owner, false, p.observing, false);
    GuardMeans(q, t, f, e.name, e.owner);
    forall g
      ensures Get(Without(p', all).stacks, g) == Get(q.stacks, g) && Stand(Get(p'.stacks, g), all)
    {
      DroppedOnFiber(p, t, dropped, e, g);
    }
    assert OnEvent(t, e) == t;
    EnabledIsObserving(q, t);
    SameStacksMirror(q, Without(p', all), t);
  }

  lemma EnabledIsObserving(q: Program, t: TracerState)
    requires MirrorsAll(q, t)
    ensures t.enabled == q.observing
  {
  }

  lemma DroppedOnFiber(p: Program, t: TracerState, dropped: set<nat>, e: Event, g: Fiber)
    requires Shadows(p, t, dropped) && IdsUsed(p) && Fits(p, e) && TakenForRetry(t, e)
    ensures
      var p', all := Advance(p, e), dropped + {e.id};
      Get(Without(p', all).stacks, g) == Get(Without(p, dropped).stacks, g) && Stand(Get(p'.stacks, g), all)
  {
    hide Shadows, MirrorsAll;
    var p', all := Advance(p, e), dropped + {e.id};
    var acts := Get(p.stacks, g);
    var a := Activation(e.id, e.name, e.owner, false, p.observing, false);
    assert Stand(acts, dropped) && MirrorsAll(Without(p, dropped), t) by { ShadowParts(p, t, dropped, g); }
    WithoutStacks(p, dropped, g);
    WithoutStacks(p', all, g);
    LiveOfOthers(acts, dropped, e.id);
    StandWithMore(acts, dropped, e.id);
    if g == e.fiber {
      GuardMeans(Without(p, dropped), t, g, e.name, e.owner);
      EnabledIsObserving(Without(p, dropped), t);
      LiveSnoc(acts, a, all);
      assert (acts + [a])[..|acts|] == acts;
      StandSnoc(acts, a, all);
    }
  }

  lemma ShadowParts(p: Program, t: TracerState, dropped: set<nat>, f: Fiber)
    requires Shadows(p, t, dropped)
    ensures MirrorsAll(Without(p, dropped), t) && Stand(Get(p.stacks, f), dropped)
  {
  }

  lemma StandWithMore(acts: seq<Activation>, dropped: set<nat>, id: nat)
    requires Stand(acts, dropped) && forall i :: 0 <= i < |acts| ==> acts[i].id != id
    ensures Stand(acts, dropped + {id})
  {
    forall i: nat | i < |acts| && acts[i].id in dropped + {id}
      ensures StandsOver(acts, i, dropped + {id})
    {
      assert StandsOver(acts, i, dropped);
      LiveOfOthers(acts[..i], dropped, id);
    }
  }

  lemma SplitTop(acts: seq<Activation>, dropped: set<nat>)
    requires acts != []
    ensures Live(acts, dropped)
         == Live(acts[..|acts| - 1], dropped) + if Top(acts).id in dropped then [] else [Top(acts)]
  {
  }

  /** The return of an invocation is emitted for that invocation, if it is tracked. */
  ghost predicate EmitsOwn(p: Program, t: TracerState, e: Event)
    requires Fits(p, e) && e.Return?
  {
    var own := if Top(Get(p.stacks, e.fiber)).tracked then [Emission(e.fiber, e.id, e.value)] else [];
    OnEvent(t, e).emitted == t.emitted + own
  }

  /** A retry, rescue or return that concerns an activation that is not dropped. */
  lemma TopShadows(p: Program, t: TracerState, dropped: set<nat>, e: Event)
    requires Shadows(p, t, dropped) && Fits(p, e) && (e.Retry? || e.Rescue? || e.Return?)
    requires Get(p.stacks, e.fiber) != [] && Top(Get(p.stacks, e.fiber)).id !in dropped
    ensures Shadows(Advance(p, e), OnEvent(t, e), dropped)
    ensures e.Return? ==> EmitsOwn(p, t, e)
  {
    hide Live, Stand, MirrorsAll;
    var f, q := e.fiber, Without(p, dropped);
    var acts, p' := Get(p.stacks, f), Advance(p, e);
    var front, acts' := acts[..|acts| - 1], Get(p'.stacks, f);
    ShadowParts(p, t, dropped, f);
    WithoutStacks(p, dropped, f);
    SplitTop(acts, dropped);
    StandFront(acts, dropped);
    assert Get(q.stacks, f) == Live(front, dropped) + [Top(acts)];
    match e {
      case Retry(_, _, _, _) => RetryMirrors(q, t, e);
      case Rescue(_, _) => RescueMirrors(q, t, e);
      case Return(_, _, _, _) => ReturnMirrors(q, t, e);
      case _ =>
    }
    var acts2 := Get(Advance(q, e).stacks, f);
    if e.Return? {
      assert acts' == front && acts2 == Live(front, dropped);
    } else {
      assert acts' == front + [Top(acts')] && Top(acts').id == Top(acts).id;
      LiveSnoc(front, Top(acts'), dropped);
      StandSnoc(front, Top(acts'), dropped);
      assert acts2 == Live(front, dropped) + [Top(acts')];
    }
    FollowShadows(p, t, dropped, p', OnEvent(t, e), Advance(q, e), f);
  }

  /** A retry or rescue of a dropped call changes nothing that the tracer sees. */
  lemma DroppedTopShadows(p: Program, t: TracerState, dropped: set<nat>, e: Event)
    requires Shadows(p, t, dropped) && Fits(p, e) && (e.Retry? || e.Rescue?)
    requires Get(p.stacks, e.fiber) != [] && Top(Get(p.stacks, e.fiber)).id in dropped
    ensures Shadows(Advance(p, e), OnEvent(t, e), dropped)
  {
    hide Live, MirrorsAll, Stand;
    var f, q := e.fiber, Without(p, dropped);
    var acts, p' := Get(p.stacks, f), Advance(p, e);
    var front, acts' := acts[..|acts| - 1], Get(p'.stacks, f);
    ShadowParts(p, t, dropped, f);
    WithoutStacks(p, dropped, f);
    SplitTop(acts, dropped);
    StandFront(acts, dropped);
    TopStands(acts, dropped);
    FrameOfTop(q, t, f);
    assert acts == front + [Top(acts)];
    assert acts' == front + [Top(acts')] && Top(acts').id == Top(acts).id;
    LiveSnoc(front, Top(acts'), dropped);
    assert acts'[..|front|] == front;
    StandSnoc(front, Top(acts'), dropped);
    SameFramesMirror(q, t, OnEvent(t, e), f);
    FollowShadows(p, t, dropped, p', OnEvent(t, e), q, f);
  }

  lemma TopStands(acts: seq<Activation>, dropped: set<nat>)
    requires acts != [] && Stand(acts, dropped) && Top(acts).id in dropped
    ensures StandsOver(acts, |acts| - 1, dropped)
  {
  }

  lemma FrameOfTop(q: Program, t: TracerState, f: Fiber)
    requires MirrorsAll(q, t) && Get(q.stacks, f) != [] && Top(Get(q.stacks, f)).tracked
    ensures
      var frames, a := Get(t.callStacks, f), Top(Get(q.stacks, f));
      frames != [] && Top(frames) == Frame(a.id, a.name, a.owner, a.seen)
  {
    assert Mirrors(Get(q.stacks, f), Get(t.callStacks, f));
    TopMirrors(Get(q.stacks, f), Get(t.callStacks, f));
  }

  lemma SameFramesMirror(q: Program, t: TracerState, t': TracerState, f: Fiber)
    requires MirrorsAll(q, t) && t'.enabled == t.enabled
    requires forall g :: Get(t'.callStacks, g) == Get(t.callStacks, g)
    ensures MirrorsAll(q, t')
  {
    forall g
      ensures Mirrors(Get(q.stacks, g), Get(t'.callStacks, g))
    {
      assert Mirrors(Get(q.stacks, g), Get(t.callStacks, g));
    }
  }

  lemma WindowShadows(p: Program, t: TracerState, dropped: set<nat>, e: Event)
    requires Shadows(p, t, dropped) && (e.Start? || e.Stop?)
    ensures Shadows(Advance(p, e), OnEvent(t, e), DroppedAfter(t, dropped, e))
  {
    var p', t', q := Advance(p, e), OnEvent(t, e), Without(p, dropped);
    if e.Start? {
      WindowMirrors(q, t, e);
      SameStacksMirror(Advance(q, e), Without(p', dropped), t');
    } else {
      forall f
        ensures Mirrors(Get(Without(p', {}).stacks, f), Get(t'.callStacks, f)) && Stand(Get(p'.stacks, f), {})
      {
        WithoutStacks(p', {}, f);
        NothingDropped(Get(p'.stacks, f));
      }
    }
  }

  lemma StepShadows(p: Program, t: TracerState, dropped: set<nat>, e: Event)
    requires Shadows(p, t, dropped) && IdsUsed(p) && Fits(p, e) && !(e.Return? && e.id in dropped)
    ensures Shadows(Advance(p, e), OnEvent(t, e), DroppedAfter(t, dropped, e))
    ensures e.Return? ==> EmitsOwn(p, t, e)
  {
    hide Shadows;
    match e {
      case Call(_, _, _, _) =>
        if TakenForRetry(t, e) { DroppedCallShadows(p, t, dropped, e); } else { CallShadows(p, t, dropped, e); }
      case Retry(_, _, _, _) =>
        if e.id in dropped { DroppedTopShadows(p, t, dropped, e); } else { TopShadows(p, t, dropped, e); }
      case Rescue(f, _) =>
        if Get(p.stacks, f) == [] {
          RescueOnEmpty(p, t, dropped, e);
        } else if Top(Get(p.stacks, f)).id in dropped {
          DroppedTopShadows(p, t, dropped, e);
        } else {
          TopShadows(p, t, dropped, e);
        }
      case Return(_, _, _, _) => TopShadows(p, t, dropped, e);
      case _ => WindowShadows(p, t, dropped, e);
    }
  }

  lemma RescueOnEmpty(p: Program, t: TracerState, dropped: set<nat>, e: Event)
    requires Shadows(p, t, dropped) && e.Rescue? && Get(p.stacks, e.fiber) == []
    ensures Shadows(Advance(p, e), OnEvent(t, e), dropped)
  {
    ShadowParts(p, t, dropped, e.fiber);
    WithoutStacks(p, dropped, e.fiber);
    LiveOfEmpty(dropped);
    assert Mirrors(Get(Without(p, dropped).stacks, e.fiber), Get(t.callStacks, e.fiber));
  }

  // ---------------------------------------------------------------------------
  // When exactly the emissions are as expected

  lemma PrefixHasNone(run: seq<Event>, n: nat)
    requires NoDroppedReturn(run) && n <= |run|
    ensures NoDroppedReturn(run[..n])
  {
    forall r: nat
      ensures !DroppedReturn(run[..n], r)
    {
      if r < n {
        assert run[..n][..r] == run[..r];
        assert !DroppedReturn(run, r);
      }
    }
  }

  lemma {:induction false} RunShadows(run: seq<Event>)
    requires WellNested(run) && NoDroppedReturn(run)
    ensures Shadows(Ran(run), Traced(run), Dropped(run)) && Traced(run).emitted == Expected(run)
  {
    hide Shadows, EnteredInWindow, OnEvent, Fits;
    if run == [] {
      StartShadows();
    } else {
      var n := |run| - 1;
      var before, e := run[..n], Top(run);
      PrefixHasNone(run, n);
      RunShadows(before);
      RunReads(before);
      ReadsIds(before);
      assert !DroppedReturn(run, n);
      StepShadows(Ran(before), Traced(before), Dropped(before), e);
      if e.Return? {
        TopIsRead(before, e);
      } else {
        OnlyReturnsEmit(Traced(before), e);
      }
    }
  }

  lemma StartShadows()
    ensures Shadows(FRESH, IDLE, {})
  {
  }

  lemma ReadsIds(run: seq<Event>)
    requires WellNested(run)
    ensures IdsUsed(Ran(run))
  {
    RunReads(run);
    var p := Ran(run);
    forall f, i | 0 <= i < |Get(p.stacks, f)|
      ensures Get(p.stacks, f)[i].id in p.used
    {
      assert OnStack(p, f, i) && At(p, f, i) == Get(p.stacks, f)[i];
    }
  }

  lemma TopIsRead(run: seq<Event>, e: Event)
    requires WellNested(run) && Fits(Ran(run), e) && e.Return?
    ensures Top(Get(Ran(run).stacks, e.fiber)).tracked <==> EnteredInWindow(run, e.id)
  {
    hide EnteredInWindow;
    RunReads(run);
    var p := Ran(run);
    var n := |p.stacks[e.fiber]|;
    assert OnStack(p, e.fiber, n - 1) && At(p, e.fiber, n - 1) == Top(Get(p.stacks, e.fiber));
  }

  lemma {:induction false} FirstDroppedReturn(run: seq<Event>, r: nat) returns (n: nat)
    requires DroppedReturn(run, r)
    ensures DroppedReturn(run, n) && NoDroppedReturn(run[..n])
    decreases r
  {
    if q: nat :| q < r && DroppedReturn(run, q) {
      n := FirstDroppedReturn(run, q);
    } else {
      n := r;
      forall q: nat
        ensures !DroppedReturn(run[..n], q)
      {
        if q < n {
          assert run[..n][..q] == run[..q] && !DroppedReturn(run, q);
        }
      }
    }
  }

  lemma EventsOnlyEmit(t: TracerState, e: Event)
    ensures t.emitted <= OnEvent(t, e).emitted
  {
  }

  lemma {:induction false} EmissionsGrow(run: seq<Event>, n: nat)
    requires n <= |run|
    ensures Traced(run[..n]).emitted <= Traced(run).emitted && Expected(run[..n]) <= Expected(run)
    ensures BegunAndEnded(run[..n]) <= BegunAndEnded(run)
    decreases |run|
  {
    hide OnEvent, EnteredInWindow, CalledInWindow;
    if n == |run| {
      assert run[..n] == run;
    } else {
      EventsOnlyEmit(Traced(run[..|run| - 1]), Top(run));
      EmissionsGrow(run[..|run| - 1], n);
      assert run[..|run| - 1][..n] == run[..n];
    }
  }

  /** The return of a dropped call is emitted for the invocation it was taken for a retry of. */
  lemma DroppedReturnIsMisread(before: seq<Event>, e: Event) returns (id: nat)
    requires WellNested(before) && NoDroppedReturn(before) && Fits(Ran(before), e)
    requires e.Return? && e.id in Dropped(before)
    ensures id != e.id && Traced(before + [e]).emitted == Expected(before) + [Emission(e.fiber, id, e.value)]
    ensures EnteredInWindow(before, e.id)
  {
    hide EnteredInWindow;
    RunShadows(before);
    TopIsRead(before, e);
    TracedSnoc(before, e);
    var p, t, dropped := Ran(before), Traced(before), Dropped(before);
    var acts, q := Get(p.stacks, e.fiber), Without(p, dropped);
    ShadowParts(p, t, dropped, e.fiber);
    TopStands(acts, dropped);
    WithoutStacks(p, dropped, e.fiber);
    SplitTop(acts, dropped);
    FrameOfTop(q, t, e.fiber);
    var below := Live(acts[..|acts| - 1], dropped);
    LiveIsNotDropped(acts[..|acts| - 1], dropped);
    id := Top(below).id;
    assert id != e.id;
    ShadowIsEnabled(p, t, dropped, e.fiber);
    assert OnEvent(t, e).emitted == t.emitted + [Emission(e.fiber, id, e.value)];
  }

  lemma {:induction false} LiveIsNotDropped(acts: seq<Activation>, dropped: set<nat>)
    ensures forall i :: 0 <= i < |Live(acts, dropped)| ==> Live(acts, dropped)[i].id !in dropped
  {
    if acts != [] {
      LiveIsNotDropped(acts[..|acts| - 1], dropped);
    }
  }

  lemma ShadowIsEnabled(p: Program, t: TracerState, dropped: set<nat>, f: Fiber)
    requires Shadows(p, t, dropped) && Get(t.callStacks, f) != []
    ensures t.enabled
  {
  }

  /** For every well-nested run: exactly the expected returns are emitted, in order, if and
      only if no call that the tracer took for a retry returns in the same window. */
  lemma {:induction false} EmissionsAreExact(run: seq<Event>)
    requires WellNested(run)
    ensures Traced(run).emitted == Expected(run) <==> NoDroppedReturn(run)
  {
    hide EnteredInWindow;
    if NoDroppedReturn(run) {
      RunShadows(run);
    } else {
      var r: nat :| DroppedReturn(run, r);
      var n := FirstDroppedReturn(run, r);
      var before, e := run[..n], run[n];
      assert run[..n + 1] == before + [e];
      WellNestedPrefix(run, n);
      var id := DroppedReturnIsMisread(before, e);
      assert run[..n + 1][..n] == before && Top(run[..n + 1]) == e;
      assert Expected(run[..n + 1]) == Expected(before) + [Emission(e.fiber, e.id, e.value)];
      EmissionsGrow(run, n + 1);
      assert Traced(run).emitted[|Expected(before)|] != Expected(run)[|Expected(before)|];
    }
  }

  lemma WellNestedPrefix(run: seq<Event>, n: nat)
    requires WellNested(run) && n < |run|
    ensures WellNested(run[..n]) && WellNested(run[..n + 1]) && Fits(Ran(run[..n]), run[n])
    ensures Ran(run[..n + 1]) == Advance(Ran(run[..n]), run[n])
  {
    PrefixIsWellNested(run, n + 1);
    assert run[..n + 1][..n] == run[..n] && Top(run[..n + 1]) == run[n];
  }

  // ---------------------------------------------------------------------------
  // When exactly the emissions are the calls begun and ended in one window

  /** The emissions and the calls begun and ended differ at a place where they always will. */
  ghost predicate Apart(run: seq<Event>)
    requires WellNested(run)
  {
    var emitted, begun := Traced(run).emitted, BegunAndEnded(run);
    exists k :: 0 <= k < |emitted|
      && if k < |begun| then begun[k] != emitted[k] else Gone(Ran(run), emitted[k].id)
  }

  lemma {:induction false} StaysApart(run: seq<Event>, n: nat)
    requires WellNested(run) && n <= |run| && WellNested(run[..n]) && Apart(run[..n])
    ensures Apart(run)
    decreases |run|
  {
    if n == |run| {
      assert run[..n] == run;
    } else {
      var before := run[..|run| - 1];
      assert before[..n] == run[..n];
      StaysApart(before, n);
      StepStaysApart(run);
    }
  }

  lemma {:induction false} StepStaysApart(run: seq<Event>)
    requires WellNested(run) && run != [] && Apart(run[..|run| - 1])
    ensures Apart(run)
  {
    hide OnEvent, CalledInWindow, Gone;
    var before, e := run[..|run| - 1], Top(run);
    var p := Ran(before);
    EventsOnlyEmit(Traced(before), e);
    RunReads(before);
    var emitted, begun := Traced(before).emitted, BegunAndEnded(before);
    var k :| 0 <= k < |emitted| && if k < |begun| then begun[k] != emitted[k] else Gone(p, emitted[k].id);
    if k >= |begun| {
      GoneStaysGone(p, e, emitted[k].id);
      if e.Return? {
        ReturnedIsGone(p, e);
      }
    }
    assert Traced(run).emitted[k] == emitted[k];
  }

  lemma {:induction false} DroppedWereCalled(run: seq<Event>, id: nat)
    requires WellNested(run) && NoDroppedReturn(run) && id in Dropped(run)
    ensures CalledInWindow(run, id)
  {
    hide OnEvent, Fits;
    var n := |run| - 1;
    var before, e := run[..n], Top(run);
    PrefixHasNone(run, n);
    assert run == before + [e];
    if TakenForRetry(Traced(before), e) && id == e.id {
      RunShadows(before);
      RunReads(before);
      ObservingWhenEnabled(Ran(before), Traced(before), Dropped(before));
      assert run[n] == e && NoStopFrom(run, n);
    } else {
      DroppedWereCalled(before, id);
      var j :| 0 <= j < |before| && before[j].Call? && before[j].id == id && Observing(before[..j])
               && NoStopFrom(before, j);
      assert run[j] == before[j] && run[..j] == before[..j];
      assert NoStopFrom(run, j);
    }
  }

  lemma ObservingWhenEnabled(p: Program, t: TracerState, dropped: set<nat>)
    requires Shadows(p, t, dropped)
    ensures t.enabled == p.observing
  {
  }

  /** Two lists of which one is no longer, and not equal, differ at some place of the other. */
  lemma DifferSomewhere(a: seq<Emission>, b: seq<Emission>) returns (k: nat)
    requires a != b && |b| <= |a|
    ensures k < |a| && (k < |b| ==> b[k] != a[k])
  {
    k := 0;
    while k < |b| && b[k] == a[k]
      invariant k <= |b| && a[..k] == b[..k]
    {
      k := k + 1;
    }
    assert a[..|a|] == a && b[..|b|] == b;
  }

  /** For every well-nested run: what is emitted is exactly the returns of the invocations that
      both begin and end in one window if and only if no call taken for a retry returns in its
      window and no invocation begun before a window is retried in it and then returns in it. */
  lemma BegunAndEndedIff(run: seq<Event>)
    requires WellNested(run)
    ensures Traced(run).emitted == BegunAndEnded(run) <==>
              NoDroppedReturn(run) && forall k :: 0 <= k < |run| ==> !ReturnsAfterOuterRetry(run, k)
  {
    hide Traced, Expected, BegunAndEnded, ReturnsAfterOuterRetry, Apart, WellNested, DroppedReturn;
    if NoDroppedReturn(run) {
      RunShadows(run);
      ExpectedBegunIff(run);
    } else {
      var r: nat :| DroppedReturn(run, r);
      var n := FirstDroppedReturn(run, r);
      DroppedIsWithin(run, n);
      DroppedReturnParts(run, n);
      StaysApart(run, n + 1);
      ApartDiffers(run);
    }
  }

  lemma ApartDiffers(run: seq<Event>)
    requires WellNested(run) && Apart(run)
    ensures Traced(run).emitted != BegunAndEnded(run)
  {
    hide Traced, BegunAndEnded, Ran, Gone;
  }

  lemma DroppedIsWithin(run: seq<Event>, n: nat)
    requires DroppedReturn(run, n)
    ensures n < |run|
  {
  }

  lemma DroppedReturnParts(run: seq<Event>, n: nat)
    requires WellNested(run) && DroppedReturn(run, n) && NoDroppedReturn(run[..n])
    ensures WellNested(run[..n + 1]) && Apart(run[..n + 1])
  {
    hide Apart, BegunAndEnded, Expected, WellNested, Ran;
    var before, e := run[..n], run[n];
    WellNestedPrefix(run, n);
    assert run[..n + 1] == before + [e] && run[..n + 1][..n] == before && Top(run[..n + 1]) == e;
    if BegunAndEnded(before) == Expected(before) {
      ApartAtDropped(before, e);
    } else {
      ApartAlready(before);
      StepStaysApart(run[..n + 1]);
    }
  }

  lemma ApartAtDropped(before: seq<Event>, e: Event)
    requires WellNested(before) && NoDroppedReturn(before) && WellNested(before + [e]) && Fits(Ran(before), e)
    requires e.Return? && e.id in Dropped(before) && BegunAndEnded(before) == Expected(before)
    ensures Apart(before + [e])
  {
    hide EnteredInWindow, CalledInWindow, Gone, OnEvent, Expected, Dropped, Fits;
    assert (before + [e])[..|before|] == before && Top(before + [e]) == e;
    var id := DroppedReturnIsMisread(before, e);
    DroppedWereCalled(before, e.id);
    assert BegunAndEnded(before + [e])[|Expected(before)|] == Emission(e.fiber, e.id, e.value);
    assert Traced(before + [e]).emitted[|Expected(before)|] == Emission(e.fiber, id, e.value);
  }

  lemma ApartAlready(before: seq<Event>)
    requires WellNested(before) && NoDroppedReturn(before) && BegunAndEnded(before) != Expected(before)
    ensures Apart(before)
  {
    hide Traced, BegunAndEnded, Expected, Gone, Ran, WellNested, ReturnsAfterOuterRetry;
    RunShadows(before);
    ExpectedBegunIff(before);
    ExpectedOnce(before);
    var k := DifferSomewhere(Expected(before), BegunAndEnded(before));
    assert Traced(before).emitted[k] == Expected(before)[k];
  }

  // ---------------------------------------------------------------------------
  // When exactly no invocation is emitted twice

  /** The tracer's frames belong, in order, to activations of the program, one each; an
      activation that has rescued since its body was entered has a rescued frame, if any. */
  ghost predicate Follows(acts: seq<Activation>, frames: seq<Frame>) {
    if frames == [] then true
    else if acts == [] then false
    else if Top(frames).id == Top(acts).id then
      Top(frames).name == Top(acts).name && Top(frames).owner == Top(acts).owner
      && (Top(acts).caught ==> Top(frames).rescued) && Follows(acts[..|acts| - 1], frames[..|frames| - 1])
    else Follows(acts[..|acts| - 1], frames)
  }

  ghost predicate FollowsAll(p: Program, t: TracerState) {
    && t.enabled == p.observing
    && (forall f :: Follows(Get(p.stacks, f), Get(t.callStacks, f)))
    && (!t.enabled ==> forall f :: Get(t.callStacks, f) == [])
  }

  ghost predicate HasId(acts: seq<Activation>, id: nat) {
    exists i :: 0 <= i < |acts| && acts[i].id == id
  }

  ghost predicate Distinct(acts: seq<Activation>) {
    forall i, j :: 0 <= i < j < |acts| ==> acts[i].id != acts[j].id
  }

  lemma {:induction false} FramesHaveActivations(acts: seq<Activation>, frames: seq<Frame>, k: nat)
    requires Follows(acts, frames) && k < |frames|
    ensures HasId(acts, frames[k].id)
    decreases |acts|
  {
    var front := acts[..|acts| - 1];
    if Top(frames).id != Top(acts).id {
      FramesHaveActivations(front, frames, k);
      var i :| 0 <= i < |front| && front[i].id == frames[k].id;
      assert acts[i] == front[i];
    } else if k < |frames| - 1 {
      FramesHaveActivations(front, frames[..|frames| - 1], k);
      var i :| 0 <= i < |front| && front[i].id == frames[k].id;
      assert acts[i] == front[i];
    }
  }

  /** Another activation on top changes nothing if it has no frame. */
  lemma FollowsBelow(acts: seq<Activation>, frames: seq<Frame>, a: Activation)
    requires Follows(acts, frames) && !HasId(acts, a.id)
    ensures Follows(acts + [a], frames)
  {
    assert (acts + [a])[..|acts|] == acts;
    if frames != [] {
      FramesHaveActivations(acts, frames, |frames| - 1);
    }
  }

  lemma {:induction false} FollowsWithoutTop(acts: seq<Activation>, frames: seq<Frame>)
    requires Follows(acts, frames) && frames != [] && Distinct(acts)
    ensures Follows(acts, frames[..|frames| - 1])
    decreases |acts|
  {
    var front := acts[..|acts| - 1];
    assert acts == front + [Top(acts)];
    if Top(frames).id != Top(acts).id {
      FollowsWithoutTop(front, frames);
    }
    FollowsBelow(front, frames[..|frames| - 1], Top(acts));
  }

  lemma {:induction false} FramesAreDistinct(acts: seq<Activation>, frames: seq<Frame>, i: nat, j: nat)
    requires Follows(acts, frames) && Distinct(acts) && i < j < |frames|
    ensures frames[i].id != frames[j].id
    decreases |acts|
  {
    var front, fewer := acts[..|acts| - 1], frames[..|frames| - 1];
    if Top(frames).id != Top(acts).id {
      FramesAreDistinct(front, frames, i, j);
    } else if j < |frames| - 1 {
      FramesAreDistinct(front, fewer, i, j);
    } else {
      FramesHaveActivations(front, fewer, i);
    }
  }

  /** The return of an activation with a frame finds that frame on top. */
  lemma OwnFrameIsOnTop(acts: seq<Activation>, frames: seq<Frame>, k: nat)
    requires Follows(acts, frames) && Distinct(acts) && k < |frames| && acts != [] && frames[k].id == Top(acts).id
    ensures Top(frames).id == Top(acts).id && Top(frames).name == Top(acts).name
  {
    if Top(frames).id != Top(acts).id {
      FramesHaveActivations(acts[..|acts| - 1], frames, k);
    }
  }

  // What one event does on the fiber it concerns

  lemma CallFollows(acts: seq<Activation>, frames: seq<Frame>, a: Activation, pushed: bool)
    requires Follows(acts, frames) && !HasId(acts, a.id) && !a.caught
    ensures Follows(acts + [a], if pushed then frames + [Frame(a.id, a.name, a.owner, false)] else frames)
  {
    FollowsBelow(acts, frames, a);
    var more := frames + [Frame(a.id, a.name, a.owner, false)];
    assert more[..|frames|] == frames && (acts + [a])[..|acts|] == acts;
  }

  lemma RetryFollows(acts: seq<Activation>, frames: seq<Frame>, a: Activation, pushed: bool)
    requires Follows(acts, frames) && acts != [] && Top(acts).caught
    requires a.id == Top(acts).id && a.name == Top(acts).name && a.owner == Top(acts).owner && !a.caught
    requires pushed ==> !LooksLikeRetry(frames, a.name, a.owner)
    ensures
      var front := acts[..|acts| - 1];
      Follows(front + [a], if pushed then frames + [Frame(a.id, a.name, a.owner, false)] else frames)
  {
    var front := acts[..|acts| - 1];
    assert (front + [a])[..|front|] == front;
    var more := frames + [Frame(a.id, a.name, a.owner, false)];
    assert more[..|frames|] == frames;
  }

  lemma RescueFollows(acts: seq<Activation>, frames: seq<Frame>, a: Activation)
    requires Follows(acts, frames) && acts != []
    requires a.id == Top(acts).id && a.name == Top(acts).name && a.owner == Top(acts).owner
    ensures
      var front := acts[..|acts| - 1];
      Follows(front + [a], if frames == [] || Top(frames).name != a.name then frames
                           else frames[|frames| - 1 := Top(frames).(rescued := true)])
  {
    var front := acts[..|acts| - 1];
    assert (front + [a])[..|front|] == front;
    if frames != [] {
      var marked := frames[|frames| - 1 := Top(frames).(rescued := true)];
      assert marked[..|frames| - 1] == frames[..|frames| - 1];
      MarkFollows(front, frames);
    }
  }

  lemma {:induction false} MarkFollows(acts: seq<Activation>, frames: seq<Frame>)
    requires frames != []
    ensures Follows(acts, frames) ==> Follows(acts, frames[|frames| - 1 := Top(frames).(rescued := true)])
    decreases |acts|
  {
    var marked := frames[|frames| - 1 := Top(frames).(rescued := true)];
    assert marked[..|frames| - 1] == frames[..|frames| - 1];
    if acts != [] {
      MarkFollows(acts[..|acts| - 1], frames);
    }
  }

  lemma ReturnFollows(acts: seq<Activation>, frames: seq<Frame>)
    requires Follows(acts, frames) && Distinct(acts) && acts != []
    ensures
      var front := acts[..|acts| - 1];
      if frames == [] || Top(frames).name != Top(acts).name then Follows(front, frames)
      else Follows(front, frames[..|frames| - 1])
  {
    var front := acts[..|acts| - 1];
    if frames != [] && Top(frames).id != Top(acts).id {
      FollowsWithoutTop(front, frames);
    }
  }

  lemma StackIsDistinct(p: Program, f: Fiber)
    requires DistinctIds(p)
    ensures Distinct(Get(p.stacks, f))
    ensures forall id :: id !in p.used ==> !HasId(Get(p.stacks, f), id)
  {
    var acts := Get(p.stacks, f);
    assert forall i :: 0 <= i < |acts| ==> OnStack(p, f, i) && At(p, f, i) == acts[i];
  }

  lemma FiberFollows(p: Program, t: TracerState, e: Event, f: Fiber)
    requires FollowsAll(p, t) && DistinctIds(p) && Fits(p, e) && !e.Start? && !e.Stop? && t.enabled
    ensures Follows(Get(Advance(p, e).stacks, f), Get(OnEvent(t, e).callStacks, f))
  {
    hide Follows, Distinct, HasId;
    var acts, frames := Get(p.stacks, f), Get(t.callStacks, f);
    assert Follows(acts, frames);
    StackIsDistinct(p, f);
    if e.fiber == f {
      match e
      case Call(_, id, name, owner) =>
        CallFollows(acts, frames, Activation(id, name, owner, false, p.observing, false),
                    !LooksLikeRetry(frames, name, owner));
      case Retry(_, _, name, owner) =>
        RetryFollows(acts, frames, Top(Get(Advance(p, e).stacks, f)), !LooksLikeRetry(frames, name, owner));
        assert Get(Advance(p, e).stacks, f) == acts[..|acts| - 1] + [Top(Get(Advance(p, e).stacks, f))];
      case Rescue(_, name) => RescueOnFiber(p, t, e);
      case Return(_, _, _, _) => ReturnFollows(acts, frames);
      case _ =>
    }
  }

  lemma RescueOnFiber(p: Program, t: TracerState, e: Event)
    requires FollowsAll(p, t) && e.Rescue? && t.enabled
    ensures Follows(Get(Advance(p, e).stacks, e.fiber), Get(OnEvent(t, e).callStacks, e.fiber))
  {
    hide Follows;
    var acts, frames := Get(p.stacks, e.fiber), Get(t.callStacks, e.fiber);
    assert Follows(acts, frames);
    if acts == [] {
      NoActivationsNoFrames(frames);
    } else if Top(acts).name == e.name {
      var a := Top(Get(Advance(p, e).stacks, e.fiber));
      RescueFollows(acts, frames, a);
      assert Get(Advance(p, e).stacks, e.fiber) == acts[..|acts| - 1] + [a];
    } else if frames != [] {
      MarkFollows(acts, frames);
    }
  }

  lemma NoActivationsNoFrames(frames: seq<Frame>)
    requires Follows([], frames)
    ensures frames == []
  {
  }

  lemma StepFollows(p: Program, t: TracerState, e: Event)
    requires FollowsAll(p, t) && DistinctIds(p) && Fits(p, e)
    ensures FollowsAll(Advance(p, e), OnEvent(t, e))
  {
    forall f
      ensures Follows(Get(Advance(p, e).stacks, f), Get(OnEvent(t, e).callStacks, f))
    {
      assert Follows(Get(p.stacks, f), Get(t.callStacks, f));
      if t.enabled && !e.Start? && !e.Stop? {
        FiberFollows(p, t, e, f);
      }
    }
  }

  lemma {:induction false} RunFollows(run: seq<Event>)
    requires WellNested(run)
    ensures FollowsAll(Ran(run), Traced(run)) && DistinctIds(Ran(run))
  {
    hide FollowsAll, DistinctIds, OnEvent, Fits;
    RunReads(run);
    if run == [] {
      NothingFollows();
    } else {
      RunFollows(run[..|run| - 1]);
      StepFollows(Ran(run[..|run| - 1]), Traced(run[..|run| - 1]), Top(run));
    }
  }

  lemma NothingFollows()
    ensures FollowsAll(FRESH, IDLE)
  {
  }

  // ---------------------------------------------------------------------------
  // Frames come and go

  ghost predicate Held(t: TracerState, id: nat) {
    exists f, i :: Holds(t, f, i, id)
  }

  ghost predicate Holds(t: TracerState, f: Fiber, i: int, id: nat) {
    0 <= i < |Get(t.callStacks, f)| && Get(t.callStacks, f)[i].id == id
  }

  /** A return that takes the frame of an invocation off its stack and emits it. */
  predicate TakesOff(t: TracerState, e: Event, id: nat) {
    e.Return? && t.enabled
    && var stack := Get(t.callStacks, e.fiber);
       stack != [] && Top(stack).name == e.name && Top(stack).id == id
  }

  /** A retry that is taken for a call of its invocation. */
  predicate TakenForCall(t: TracerState, e: Event, id: nat) {
    e.Retry? && e.id == id && t.enabled && !LooksLikeRetry(Get(t.callStacks, e.fiber), e.name, e.owner)
  }

  lemma FramesAppear(t: TracerState, e: Event, id: nat)
    requires !Held(t, id) && Held(OnEvent(t, e), id)
    ensures (e.Call? && e.id == id) || TakenForCall(t, e, id)
  {
    var f, i :| Holds(OnEvent(t, e), f, i, id);
    assert Holds(t, f, i, id) ==> Held(t, id);
  }

  lemma FramesDisappear(t: TracerState, e: Event, id: nat)
    requires Held(t, id) && !Held(OnEvent(t, e), id)
    ensures e.Stop? || TakesOff(t, e, id)
  {
    var f, i :| Holds(t, f, i, id);
    assert !Holds(OnEvent(t, e), f, i, id);
  }

  lemma TakenOffIsGone(p: Program, t: TracerState, e: Event, id: nat)
    requires FollowsAll(p, t) && DistinctIds(p) && TakesOff(t, e, id)
    ensures Held(t, id) && !Held(OnEvent(t, e), id)
  {
    var n := |Get(t.callStacks, e.fiber)| - 1;
    assert Holds(t, e.fiber, n, id);
    if g, i :| Holds(OnEvent(t, e), g, i, id) {
      SameFrame(p, t, e.fiber, n, g, i, id);
    }
  }

  lemma SameFrame(p: Program, t: TracerState, f: Fiber, i: int, g: Fiber, j: int, id: nat)
    requires FollowsAll(p, t) && DistinctIds(p) && Holds(t, f, i, id) && Holds(t, g, j, id)
    ensures f == g && i == j
  {
    StackIsDistinct(p, f);
    if f == g {
      if i < j {
        FramesAreDistinct(Get(p.stacks, f), Get(t.callStacks, f), i, j);
      } else if j < i {
        FramesAreDistinct(Get(p.stacks, f), Get(t.callStacks, f), j, i);
      }
    } else {
      var k := HolderIndex(p, t, f, i, id);
      var l := HolderIndex(p, t, g, j, id);
    }
  }

  lemma HolderIndex(p: Program, t: TracerState, f: Fiber, i: int, id: nat) returns (k: int)
    requires FollowsAll(p, t) && Holds(t, f, i, id)
    ensures OnStack(p, f, k) && At(p, f, k).id == id
  {
    assert Follows(Get(p.stacks, f), Get(t.callStacks, f));
    FramesHaveActivations(Get(p.stacks, f), Get(t.callStacks, f), i);
    k :| 0 <= k < |Get(p.stacks, f)| && Get(p.stacks, f)[k].id == id;
  }

  ghost predicate EmitsAt(run: seq<Event>, m: nat, id: nat) {
    m < |run| && TakesOff(Traced(run[..m]), run[m], id)
  }

  /** A return that is emitted for another invocation than its own. */
  ghost predicate Misread(run: seq<Event>, m: nat, id: nat) {
    EmitsAt(run, m, id) && run[m].id != id
  }

  ghost predicate OneWindow(run: seq<Event>, j: nat, r: nat) {
    forall i :: j <= i <= r && i < |run| ==> run[i] != Stop
  }

  /** An invocation for which another's return was emitted is retried, the retry is taken for a
      call, and in the same window the invocation returns or another's return is again emitted
      for it. */
  ghost predicate EmittedAgain(run: seq<Event>, m: nat, j: nat, r: nat, id: nat) {
    && m < j < r < |run| && Misread(run, m, id)
    && TakenForCall(Traced(run[..j]), run[j], id) && OneWindow(run, j, r)
    && run[r].Return? && (run[r].id == id || Misread(run, r, id))
  }

  ghost predicate Emitted(run: seq<Event>, id: nat) {
    exists k :: 0 <= k < |Traced(run).emitted| && Traced(run).emitted[k].id == id
  }

  ghost predicate EmittedTwice(run: seq<Event>, id: nat) {
    exists k, l :: 0 <= k < l < |Traced(run).emitted| && Traced(run).emitted[k].id == Traced(run).emitted[l].id == id
  }

  lemma StepEmits(t: TracerState, e: Event)
    ensures OnEvent(t, e).emitted == t.emitted
            || exists id :: TakesOff(t, e, id) && OnEvent(t, e).emitted == t.emitted + [Emission(e.fiber, id, e.value)]
    ensures forall id :: TakesOff(t, e, id) ==>
              OnEvent(t, e).emitted == t.emitted + [Emission(e.fiber, id, e.value)]
  {
    if e.Return? && t.enabled {
      var stack := Get(t.callStacks, e.fiber);
      if stack != [] && Top(stack).name == e.name {
        assert TakesOff(t, e, Top(stack).id);
      }
    }
  }

  lemma EmitsAtPrefix(run: seq<Event>, n: nat, m: nat, id: nat)
    requires m < n <= |run|
    ensures EmitsAt(run[..n], m, id) <==> EmitsAt(run, m, id)
  {
    assert run[..n][..m] == run[..m];
  }

  lemma {:induction false} EmittedMeansEvent(run: seq<Event>, id: nat)
    ensures Emitted(run, id) <==> exists m: nat :: EmitsAt(run, m, id)
  {
    hide OnEvent, TakesOff;
    if run != [] {
      var n := |run| - 1;
      var before, e := run[..n], Top(run);
      EmittedMeansEvent(before, id);
      StepEmits(Traced(before), e);
      forall m: nat | m < n
        ensures EmitsAt(before, m, id) <==> EmitsAt(run, m, id)
      {
        EmitsAtPrefix(run, n, m, id);
      }
      if Emitted(before, id) {
        var k :| 0 <= k < |Traced(before).emitted| && Traced(before).emitted[k].id == id;
        assert Traced(run).emitted[k].id == id;
        var m: nat :| EmitsAt(before, m, id);
        assert EmitsAt(run, m, id);
      }
      if TakesOff(Traced(before), e, id) {
        assert EmitsAt(run, n, id);
        assert Traced(run).emitted[|Traced(before).emitted|].id == id;
      }
      if m: nat :| EmitsAt(run, m, id) {
        assert m < n ==> EmitsAt(before, m, id);
      }
    }
  }

  lemma {:induction false} TwiceMeansTwoEvents(run: seq<Event>, id: nat)
    ensures EmittedTwice(run, id) <==> exists m: nat, r: nat :: m < r && EmitsAt(run, m, id) && EmitsAt(run, r, id)
  {
    hide OnEvent, TakesOff;
    if run != [] {
      var n := |run| - 1;
      var before, e := run[..n], Top(run);
      TwiceMeansTwoEvents(before, id);
      EmittedMeansEvent(before, id);
      StepEmits(Traced(before), e);
      forall m: nat | m < n
        ensures EmitsAt(before, m, id) <==> EmitsAt(run, m, id)
      {
        EmitsAtPrefix(run, n, m, id);
      }
      if EmittedTwice(run, id) {
        TwiceThen(run, id);
      }
      if m: nat, r: nat :| m < r && EmitsAt(run, m, id) && EmitsAt(run, r, id) {
        ThenTwice(run, m, r, id);
      }
    }
  }

  lemma TwiceThen(run: seq<Event>, id: nat)
    requires run != [] && EmittedTwice(run, id)
    requires
      var before := run[..|run| - 1];
      && (EmittedTwice(before, id) ==>
            exists m: nat, r: nat :: m < r && EmitsAt(before, m, id) && EmitsAt(before, r, id))
      && (Emitted(before, id) ==> exists m: nat :: EmitsAt(before, m, id))
    ensures exists m: nat, r: nat :: m < r && EmitsAt(run, m, id) && EmitsAt(run, r, id)
  {
    hide OnEvent, TakesOff;
    var n := |run| - 1;
    var before, e := run[..n], Top(run);
    StepEmits(Traced(before), e);
    var earlier := Traced(before).emitted;
    var k, l :| 0 <= k < l < |Traced(run).emitted| && Traced(run).emitted[k].id == Traced(run).emitted[l].id == id;
    if l < |earlier| {
      assert earlier[k].id == earlier[l].id == id;
      var m: nat, r: nat :| m < r && EmitsAt(before, m, id) && EmitsAt(before, r, id);
      EmitsAtPrefix(run, n, m, id);
      EmitsAtPrefix(run, n, r, id);
    } else {
      assert earlier[k].id == id;
      var m: nat :| EmitsAt(before, m, id);
      EmitsAtPrefix(run, n, m, id);
      assert EmitsAt(run, n, id);
    }
  }

  lemma ThenTwice(run: seq<Event>, m: nat, r: nat, id: nat)
    requires run != [] && m < r && EmitsAt(run, m, id) && EmitsAt(run, r, id)
    requires r < |run| - 1 ==> EmittedTwice(run[..|run| - 1], id)
    ensures EmittedTwice(run, id)
  {
    hide OnEvent, TakesOff;
    var n := |run| - 1;
    var before, e := run[..n], Top(run);
    StepEmits(Traced(before), e);
    var earlier := Traced(before).emitted;
    if r < n {
      var k, l :| 0 <= k < l < |earlier| && earlier[k].id == earlier[l].id == id;
      assert Traced(run).emitted[k].id == Traced(run).emitted[l].id == id;
    } else {
      EmitsAtPrefix(run, n, m, id);
      EmittedMeansEvent(before, id);
      var k :| 0 <= k < |earlier| && earlier[k].id == id;
      assert Traced(run).emitted[k].id == Traced(run).emitted[|earlier|].id == id;
    }
  }

  // ---------------------------------------------------------------------------
  // Between two emissions for one invocation

  lemma TracedNext(run: seq<Event>, n: nat)
    requires n < |run|
    ensures Traced(run[..n + 1]) == OnEvent(Traced(run[..n]), run[n])
  {
    assert run[..n + 1][..n] == run[..n];
  }

  /** A frame that is not there at first and is there later is pushed in between, and then
      stays. */
  lemma {:induction false} LastPush(run: seq<Event>, n: nat, r: nat, id: nat) returns (j: nat)
    requires n <= r <= |run| && !Held(Traced(run[..n]), id) && Held(Traced(run[..r]), id)
    ensures n <= j < r && !Held(Traced(run[..j]), id)
    ensures forall i: nat :: j < i <= r ==> Held(Traced(run[..i]), id)
    decreases r
  {
    hide Held;
    if Held(Traced(run[..r - 1]), id) {
      j := LastPush(run, n, r - 1, id);
    } else {
      j := r - 1;
    }
  }

  /** A frame that is there at first and not later is taken off by a return in between, or the
      window ends. */
  lemma {:induction false} FirstPop(run: seq<Event>, n: nat, r: nat, id: nat) returns (i: nat)
    requires n <= r <= |run| && Held(Traced(run[..n]), id) && !Held(Traced(run[..r]), id)
    ensures n <= i < r && (run[i] == Stop || EmitsAt(run, i, id))
    decreases r
  {
    hide Held, TakesOff;
    if Held(Traced(run[..r - 1]), id) {
      i := r - 1;
      TracedNext(run, i);
      FramesDisappear(Traced(run[..i]), run[i], id);
    } else {
      i := FirstPop(run, n, r - 1, id);
    }
  }

  lemma {:induction false} GoneLater(run: seq<Event>, n: nat, r: nat, id: nat)
    requires WellNested(run) && n <= r <= |run| && WellNested(run[..n]) && Gone(Ran(run[..n]), id)
    ensures WellNested(run[..r]) && Gone(Ran(run[..r]), id)
    decreases r
  {
    hide Gone;
    if n < r {
      GoneLater(run, n, r - 1, id);
      WellNestedPrefix(run, r - 1);
      GoneStaysGone(Ran(run[..r - 1]), run[r - 1], id);
    }
  }

  lemma GoneHasNoFrame(run: seq<Event>, id: nat)
    requires WellNested(run) && Gone(Ran(run), id)
    ensures !Held(Traced(run), id)
  {
    RunFollows(run);
    if f, i :| Holds(Traced(run), f, i, id) {
      var k := HolderIndex(Ran(run), Traced(run), f, i, id);
    }
  }

  lemma {:induction false} UsedLater(run: seq<Event>, n: nat, r: nat, id: nat)
    requires WellNested(run) && n <= r <= |run| && WellNested(run[..n]) && id in Ran(run[..n]).used
    ensures WellNested(run[..r]) && id in Ran(run[..r]).used
    decreases r
  {
    hide WellNested, Ran, Fits;
    if n < r {
      UsedLater(run, n, r - 1, id);
      WellNestedPrefix(run, r - 1);
    }
  }

  /** The invocation of a frame has been called. */
  lemma HeldIsUsed(run: seq<Event>, id: nat)
    requires WellNested(run) && Held(Traced(run), id)
    ensures id in Ran(run).used
  {
    RunFollows(run);
    var f, i :| Holds(Traced(run), f, i, id);
    var k := HolderIndex(Ran(run), Traced(run), f, i, id);
  }

  /** The first of two emissions for one invocation comes with another's return. */
  lemma FirstIsMisread(run: seq<Event>, m: nat, r: nat, id: nat)
    requires WellNested(run) && m < r && EmitsAt(run, m, id) && EmitsAt(run, r, id)
    ensures WellNested(run[..m]) && Held(Traced(run[..m]), id) && !Held(Traced(run[..m + 1]), id)
    ensures Held(Traced(run[..r]), id) && run[m].id != id
  {
    hide TakenForCall, Gone, FollowsAll, DistinctIds, OnEvent, Fits, Held, WellNested;
    WellNestedPrefix(run, m);
    WellNestedPrefix(run, r);
    RunFollows(run[..m]);
    RunFollows(run[..r]);
    TakenOffIsGone(Ran(run[..m]), Traced(run[..m]), run[m], id);
    TakenOffIsGone(Ran(run[..r]), Traced(run[..r]), run[r], id);
    TracedNext(run, m);
    if run[m].id == id {
      ReturnedIsGone(Ran(run[..m]), run[m]);
      GoneLater(run, m + 1, r, id);
      GoneHasNoFrame(run[..r], id);
    }
  }

  lemma HeldInOneWindow(run: seq<Event>, j: nat, r: nat, id: nat)
    requires j < r < |run| && EmitsAt(run, r, id) && forall i: nat :: j < i <= r ==> Held(Traced(run[..i]), id)
    ensures OneWindow(run, j, r)
  {
    hide Held, Traced, OnEvent;
    forall i | j <= i <= r && i < |run|
      ensures run[i] != Stop
    {
      if i < r {
        TracedNext(run, i);
        StopHoldsNothing(Traced(run[..i]), run[i], id);
      }
    }
  }

  /** Two emissions for one invocation have a misread return and a retry between them. */
  lemma TwoEventsMeanAgain(run: seq<Event>, m: nat, r: nat, id: nat) returns (j: nat)
    requires WellNested(run) && m < r && EmitsAt(run, m, id) && EmitsAt(run, r, id)
    ensures EmittedAgain(run, m, j, r, id)
  {
    hide TakenForCall, OnEvent, Fits, Held, WellNested, OneWindow, Traced, Ran;
    FirstIsMisread(run, m, r, id);
    j := LastPush(run, m + 1, r, id);
    TracedNext(run, j);
    FramesAppear(Traced(run[..j]), run[j], id);
    HeldIsUsed(run[..m], id);
    UsedLater(run, m, j, id);
    WellNestedPrefix(run, j);
    NotCalledAgain(Ran(run[..j]), run[j], id);
    HeldInOneWindow(run, j, r, id);
  }

  lemma NotCalledAgain(p: Program, e: Event, id: nat)
    requires Fits(p, e) && id in p.used
    ensures !(e.Call? && e.id == id)
  {
  }

  lemma StopHoldsNothing(t: TracerState, e: Event, id: nat)
    requires Held(OnEvent(t, e), id)
    ensures e != Stop
  {
  }

  lemma AgainMeansTwoEvents(run: seq<Event>, m: nat, j: nat, r: nat, id: nat)
    requires WellNested(run) && EmittedAgain(run, m, j, r, id)
    ensures exists i: nat :: m < i && EmitsAt(run, i, id)
  {
    hide Held, Gone, FollowsAll, DistinctIds, OnEvent, TakesOff, Fits;
    if run[r].id == id {
      TracedNext(run, j);
      TakenForCallIsHeld(Traced(run[..j]), run[j], id);
      WellNestedPrefix(run, r);
      if Held(Traced(run[..r]), id) {
        RunFollows(run[..r]);
        OwnReturnTakesOff(Ran(run[..r]), Traced(run[..r]), run[r], id);
        assert EmitsAt(run, r, id);
      } else {
        var i := FirstPop(run, j + 1, r, id);
        assert run[i] != Stop;
      }
    }
  }

  lemma TakenForCallIsHeld(t: TracerState, e: Event, id: nat)
    requires TakenForCall(t, e, id)
    ensures Held(OnEvent(t, e), id)
  {
    assert Holds(OnEvent(t, e), e.fiber, |Get(t.callStacks, e.fiber)|, id);
  }

  lemma OwnReturnTakesOff(p: Program, t: TracerState, e: Event, id: nat)
    requires FollowsAll(p, t) && DistinctIds(p) && Fits(p, e) && e.Return? && e.id == id && Held(t, id)
    ensures TakesOff(t, e, id)
  {
    var f, i :| Holds(t, f, i, id);
    var k := HolderIndex(p, t, f, i, id);
    var top := |p.stacks[e.fiber]| - 1;
    assert OnStack(p, e.fiber, top) && At(p, e.fiber, top).id == id;
    assert f == e.fiber;
    StackIsDistinct(p, f);
    OwnFrameIsOnTop(Get(p.stacks, f), Get(t.callStacks, f), i);
  }

  /** For every well-nested run: no invocation is emitted twice if and only if none that
      another's return was emitted for is retried, taken for a call again, and again returned
      from in that window. */
  lemma EmittedOnceIff(run: seq<Event>)
    requires WellNested(run)
    ensures (forall id :: !EmittedTwice(run, id)) <==> (forall m, j, r, id :: !EmittedAgain(run, m, j, r, id))
  {
    hide EmittedTwice, EmittedAgain, EmitsAt;
    if id: nat :| EmittedTwice(run, id) {
      TwiceMeansTwoEvents(run, id);
      var m: nat, r: nat :| m < r && EmitsAt(run, m, id) && EmitsAt(run, r, id);
      var j := TwoEventsMeanAgain(run, m, r, id);
    }
    if m: nat, j: nat, r: nat, id: nat :| EmittedAgain(run, m, j, r, id) {
      AgainMeansTwoEvents(run, m, j, r, id);
      MisreadIsEmission(run, m, j, r, id);
      TwiceMeansTwoEvents(run, id);
    }
  }

  lemma MisreadIsEmission(run: seq<Event>, m: nat, j: nat, r: nat, id: nat)
    requires EmittedAgain(run, m, j, r, id)
    ensures EmitsAt(run, m, id)
  {
  }

  /** If no activation that has rescued calls its own method and owner, no invocation is
      emitted twice. */
  lemma EmittedOnce(run: seq<Event>)
    requires WellNested(run) && NoConfusion(run)
    ensures forall id :: !EmittedTwice(run, id)
  {
    WindowTheorem(run);
    ExpectedOnce(run);
  }

  lemma MisreadPrefix() returns (run: seq<Event>)
    ensures At0(run, true, [Activation(1, "m", "A", true, true, true)], {1, 2}, [], [Emission(0, 1, 20)])
  {
    hide EnteredInWindow, CalledInWindow, Expected, BegunAndEnded;
    var prefix := ConfusedPrefix();
    var call, inner := Call(0, 2, "m", "A"), Return(0, 2, "m", 20);
    var a1, a2 := Activation(1, "m", "A", true, true, true), Activation(2, "m", "A", false, true, false);
    Extend(prefix, call);
    var called := prefix + [call];
    assert At0(called, true, [a1, a2], {1, 2}, [Frame(1, "m", "A", true)], []);
    Extend(called, inner);
    run := called + [inner];
  }

  /** A run in which it is: the inner call's return and the retried outer call's own return are
      both emitted for the outer call. */
  lemma RetriedAfterMisreading() returns (run: seq<Event>)
    ensures WellNested(run)
    ensures Traced(run).emitted == [Emission(0, 1, 20), Emission(0, 1, 10)] && EmittedTwice(run, 1)
  {
    hide EnteredInWindow, CalledInWindow, Expected, BegunAndEnded;
    var prefix := MisreadPrefix();
    var retry, outer := Retry(0, 1, "m", "A"), Return(0, 1, "m", 10);
    Extend(prefix, retry);
    var retried := prefix + [retry];
    assert At0(retried, true, [Activation(1, "m", "A", false, true, true)], {1, 2}, [Frame(1, "m", "A", false)],
               [Emission(0, 1, 20)]);
    Extend(retried, outer);
    run := retried + [outer];
    assert Traced(run).emitted[0].id == Traced(run).emitted[1].id == 1;
  }
}
