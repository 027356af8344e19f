/** From the calls of the program to the written signatures, through all parts. */
module EndToEnd {
  import opened Traces
  import CallStacks
  import Emissions
  import Pipeline
  import opened Exploration
  import opened Ledgers
  import opened Publishing
  import opened Collector
  import opened RbsTypes
  import opened OverloadSoundness
  import opened OverloadExactness
  import opened Signatures

  /** What was passed, returned and received in each completed call. */
  type Calls = CallStacks.Emission -> Call

  /** The k-th trace pushed describes the call whose return is emitted k-th. */
  ghost predicate Pushed(emitted: seq<CallStacks.Emission>, ts: seq<Trace>, calls: Calls, limit: nat) {
    && |ts| == |emitted|
    && forall k :: 0 <= k < |ts| ==> ValidCall(calls(emitted[k])) && Describes(ts[k], calls(emitted[k]), limit)
  }

  /** The flush has begun and no thread can take a step any more, reads taking all they can. */
  ghost predicate Settled(before: seq<Pipeline.Step>, after: seq<Pipeline.Step>) {
    && Pipeline.Legal(Pipeline.START, before)
    && Pipeline.Final(Pipeline.START, before).client != Pipeline.Tracing
    && Pipeline.Legal(Pipeline.Final(Pipeline.START, before), after)
    && var end := Pipeline.Final(Pipeline.Final(Pipeline.START, before), after);
       forall step :: Pipeline.Enabled(end, step) ==> !Pipeline.FullRead(end, step)
  }

  ghost function End(before: seq<Pipeline.Step>, after: seq<Pipeline.Step>): Pipeline.System
    requires Settled(before, after)
  {
    Pipeline.Final(Pipeline.Final(Pipeline.START, before), after)
  }

  /** In a well-nested run in which no call that was taken for a retry returns in its window,
      once the flush is over, the collected traces are those of the completed calls, all of them,
      each once and in order. */
  lemma CompletedCallsAreCollected(
      run: seq<CallStacks.Event>, calls: Calls, before: seq<Pipeline.Step>, after: seq<Pipeline.Step>, limit: nat)
    requires CallStacks.WellNested(run) && Emissions.NoDroppedReturn(run) && Settled(before, after)
    requires Pushed(CallStacks.Traced(run).emitted, End(before, after).emitted, calls, limit)
    ensures Pushed(CallStacks.Expected(run), End(before, after).collected, calls, limit)
  {
    hide CallStacks.WellNested, CallStacks.Traced, CallStacks.Expected, Pushed, Emissions.NoDroppedReturn;
    hide Pipeline.Enabled, Pipeline.FullRead, Pipeline.Final, Pipeline.Legal;
    Emissions.EmissionsAreExact(run);
    Pipeline.FlushDelivers(before, after);
  }

  lemma PushedAreObserved(emitted: seq<CallStacks.Emission>, ts: seq<Trace>, calls: Calls, limit: nat)
    requires Pushed(emitted, ts, calls, limit)
    ensures AllObserved(ts, limit)
  {
    hide Describes, ValidCall;
    forall t | t in ts
      ensures Observed(t, limit)
    {
      var k :| 0 <= k < |ts| && ts[k] == t;
      assert ValidCall(calls(emitted[k])) && Describes(t, calls(emitted[k]), limit);
    }
  }

  /** The trace of the call is filed; the overload of its group accepts the call if its values are
      safe, and accepts it with all contents if and only if they are admitted. */
  ghost predicate Judged(
      environment: Environment, arity: Arities, ts: seq<Trace>, t: Trace, c: Call, limit: nat)
  {
    var group := GroupOfCall(environment, ts, t);
    && ValidCall(c) && Describes(t, c, limit) && OwnerName(t) in Run(environment, ts)
    && (SafeCall(c, t.methodName, group, limit) ==>
          GroupAcceptsCall(environment, arity, ts, t, c, BlockRestsLikeFirst(group, t)))
    && (GroupAcceptsCall(environment, arity, ts, t, c, true) <==>
          CallAdmitted(arity, t.methodName, group, c, limit))
  }

  /** Then every completed call of the program whose method name RBS can write and whose
      parameters are orderly is filed and judged as said. */
  lemma CompletedCallsAreAccepted(
      run: seq<CallStacks.Event>, calls: Calls, before: seq<Pipeline.Step>, after: seq<Pipeline.Step>,
      w: World, steps: seq<LedgerStep>, naming: Naming, environment: Environment, arity: Arities, k: nat, limit: nat)
    requires CallStacks.WellNested(run) && Emissions.NoDroppedReturn(run) && Settled(before, after)
    requires Pushed(CallStacks.Traced(run).emitted, End(before, after).emitted, calls, limit)
    requires w.Valid() && Possible(w, BLANK, steps)
    requires Emits(w, BLANK, steps, naming, End(before, after).emitted)
    requires k < |CallStacks.Expected(run)| == |End(before, after).collected|
    requires ValidMethodName(End(before, after).collected[k].methodName)
    requires OrderlyTrace(End(before, after).collected[k])
    ensures
      var ts := End(before, after).collected;
      Judged(environment, arity, ts, ts[k], calls(CallStacks.Expected(run)[k]), limit)
  {
    hide CallStacks.WellNested, CallStacks.Traced, CallStacks.Expected, Emissions.NoDroppedReturn, Settled, End;
    hide Describes, ValidCall, SafeCall, CallAdmitted, GroupAcceptsCall, GroupOfCall, BlockRestsLikeFirst, OrderlyTrace;
    hide Run, Emits, Possible, ValidMethodName, Published, AllObserved, KeyOf, Kept;
    assert End(before, after).collected == End(before, after).emitted by { AllIsCollected(before, after); }
    CompletedCallsAreCollected(run, calls, before, after, limit);
    var ts, c := End(before, after).collected, calls(CallStacks.Expected(run)[k]);
    PushedAreObserved(CallStacks.Expected(run), ts, calls, limit);
    TracerStreamsAreFiled(w, steps, naming, ts);
    assert Filed(ts, k) == ValidMethodName(ts[k].methodName);
    if SafeCall(c, ts[k].methodName, GroupOfCall(environment, ts, ts[k]), limit) {
      EveryCallIsAccepted(environment, arity, ts, k, c, limit);
    }
    EveryCallIsJudged(environment, arity, ts, k, c, limit);
    KeepsFirstOccurrences(environment, ts, KeyOf(ts[k]));
    PublishedCovers(ts, |ts|, k);
  }

  lemma AllIsCollected(before: seq<Pipeline.Step>, after: seq<Pipeline.Step>)
    requires Settled(before, after)
    ensures End(before, after).collected == End(before, after).emitted
  {
    hide Pipeline.Enabled, Pipeline.FullRead, Pipeline.Final, Pipeline.Legal;
    Pipeline.FlushDelivers(before, after);
  }
}
