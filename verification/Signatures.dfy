/** From the stream of traces to the signatures: no observed call is rejected. */
module Signatures {
  import opened Traces
  import opened Collector
  import opened RbsTypes
  import opened Overloads
  import opened OverloadSoundness
  import opened OverloadExactness
  import opened Exploration
  import opened Ledgers
  import opened Publishing

  /** What describes a call depends on the shape of a trace only. */
  lemma ShapeDescribes(t: Trace, k: Trace, c: Call, limit: nat)
    requires ValidCall(c) && Describes(t, c, limit) && SameShape(k, t)
    ensures Describes(k, c, limit)
    ensures OrderlyTrace(t) ==> OrderlyTrace(k)
  {
  }

  /** Every trace kept under a key is one of the stream. */
  lemma KeptWereObserved(environment: Environment, ts: seq<Trace>, key: Key, limit: nat)
    requires AllObserved(ts, limit)
    ensures AllObserved(Kept(Run(environment, ts), key), limit)
  {
    hide Observed, Filed, Run, Kept;
    KeepsFirstOccurrences(environment, ts, key);
    forall k | k in Kept(Run(environment, ts), key)
      ensures Observed(k, limit)
    {
      var j := Origin(ts, |ts|, key, k);
      assert ts[j] in ts;
    }
  }

  /** The kept traces that the i-th of the stream is grouped with. */
  function GroupOfCall(environment: Environment, ts: seq<Trace>, t: Trace): seq<Trace> {
    GroupOf(Kept(Run(environment, ts), KeyOf(t)), GroupKeyOf(t))
  }

  /** One overload is written for the group of a trace, and this one accepts the call; `rests`
      says whether the contents of the block's rest parameters are looked at. */
  ghost predicate GroupAcceptsCall(
      environment: Environment, arity: Arities, ts: seq<Trace>, t: Trace, c: Call, rests: bool)
    requires ValidCall(c)
  {
    var kept := Kept(Run(environment, ts), KeyOf(t));
    var g := Find(Groups(kept), GroupKeyOf(t));
    && WellFormedTraces(kept) && g < |OverloadsOf(arity, t.methodName, kept)|
    && OverloadAccepts(OverloadsOf(arity, t.methodName, kept)[g], t.methodName, c, rests)
  }

  /** A kept trace of the same shape stands for any that was filed. */
  lemma KeptInStead(environment: Environment, ts: seq<Trace>, i: nat, c: Call, limit: nat) returns (j: nat)
    requires AllObserved(ts, limit) && i < |ts| && Filed(ts, i) && ValidCall(c) && Describes(ts[i], c, limit)
    ensures
      var kept := Kept(Run(environment, ts), KeyOf(ts[i]));
      && AllObserved(kept, limit) && j < |kept| && SameShape(kept[j], ts[i])
      && Describes(kept[j], c, limit) && GroupKeyOf(kept[j]) == GroupKeyOf(ts[i])
      && (OrderlyTrace(ts[i]) ==> OrderlyTrace(kept[j]))
  {
    hide Observed, OrderlyTrace, Describes, ValidCall, Filed, Run, Kept, KeyOf;
    var key := KeyOf(ts[i]);
    var kept := Kept(Run(environment, ts), key);
    KeptWereObserved(environment, ts, key, limit);
    KeepsFirstOccurrences(environment, ts, key);
    var k := Represented(ts, |ts|, key, i);
    ShapeDescribes(ts[i], k, c, limit);
    j :| 0 <= j < |kept| && kept[j] == k;
  }

  /** For every stream of observed calls: each orderly call that could be filed, repeats included,
      is accepted by an overload written for its owner, kind and name if each of its values is
      safe among the types it is grouped with. */
  lemma EveryCallIsAccepted(
      environment: Environment, arity: Arities, ts: seq<Trace>, i: nat, c: Call, limit: nat)
    requires AllObserved(ts, limit) && i < |ts| && Filed(ts, i) && OrderlyTrace(ts[i])
    requires ValidCall(c) && Describes(ts[i], c, limit)
    requires SafeCall(c, ts[i].methodName, GroupOfCall(environment, ts, ts[i]), limit)
    ensures GroupAcceptsCall(environment, arity, ts, ts[i], c,
                             BlockRestsLikeFirst(GroupOfCall(environment, ts, ts[i]), ts[i]))
  {
    hide Observed, OrderlyTrace, Describes, SafeCall, ValidCall, OverloadAccepts, Groups, Filed, Run, Kept, GroupKeyOf,
      KeyOf, WellFormedTraces, OverloadsOf, BlocksOf, BlockTracesOf;
    var j := KeptInStead(environment, ts, i, c, limit);
    var kept := Kept(Run(environment, ts), KeyOf(ts[i]));
    OverloadsAreSound(arity, ts[i].methodName, kept, j, c, limit);
  }

  /** And exactly then if each of its values is admitted by the types it is grouped with: the
      overload of its group accepts the call, all contents included, if and only if so. */
  lemma EveryCallIsJudged(
      environment: Environment, arity: Arities, ts: seq<Trace>, i: nat, c: Call, limit: nat)
    requires AllObserved(ts, limit) && i < |ts| && Filed(ts, i) && OrderlyTrace(ts[i])
    requires ValidCall(c) && Describes(ts[i], c, limit)
    ensures GroupAcceptsCall(environment, arity, ts, ts[i], c, true) <==>
              CallAdmitted(arity, ts[i].methodName, GroupOfCall(environment, ts, ts[i]), c, limit)
  {
    hide Observed, OrderlyTrace, Describes, CallAdmitted, ValidCall, OverloadAccepts, Groups, Filed, Run, Kept,
      GroupKeyOf, KeyOf, WellFormedTraces, OverloadsOf;
    var j := KeptInStead(environment, ts, i, c, limit);
    var kept := Kept(Run(environment, ts), KeyOf(ts[i]));
    OverloadsAreExact(arity, ts[i].methodName, kept, j, c, limit);
  }

  /** A clean call is safe wherever it is grouped. */
  lemma CleanCallsAreSafe(environment: Environment, ts: seq<Trace>, i: nat, c: Call, limit: nat)
    requires AllObserved(ts, limit) && i < |ts| && Filed(ts, i)
    requires ValidCall(c) && Describes(ts[i], c, limit) && CleanCall(c, limit)
    ensures SafeCall(c, ts[i].methodName, GroupOfCall(environment, ts, ts[i]), limit)
  {
    hide Observed, Describes, CleanCall, SafeCall, ValidCall, Groups, Filed, Run, Kept, GroupKeyOf, KeyOf, OrderlyTrace;
    var j := KeptInStead(environment, ts, i, c, limit);
    var kept := Kept(Run(environment, ts), KeyOf(ts[i]));
    var key := GroupKeyOf(kept[j]);
    GroupIsOfKey(kept, j);
    CleanCallIsSafe(ts[i].methodName, GroupOf(kept, key), key, kept[j], c, limit);
  }

  /** From what the tracer explores and emits to the signatures: every observed call whose method
      name RBS can write is filed under its published owner, and an overload written for it
      accepts it if its values are safe. */
  lemma TracedCallsAreAccepted(
      environment: Environment, arity: Arities, w: World, steps: seq<LedgerStep>, naming: Naming, ts: seq<Trace>,
      i: nat, c: Call, limit: nat)
    requires w.Valid() && Possible(w, BLANK, steps) && Emits(w, BLANK, steps, naming, ts)
    requires AllObserved(ts, limit) && i < |ts| && ValidMethodName(ts[i].methodName) && OrderlyTrace(ts[i])
    requires ValidCall(c) && Describes(ts[i], c, limit)
    requires SafeCall(c, ts[i].methodName, GroupOfCall(environment, ts, ts[i]), limit)
    ensures OwnerName(ts[i]) in Run(environment, ts)
    ensures GroupAcceptsCall(environment, arity, ts, ts[i], c,
                             BlockRestsLikeFirst(GroupOfCall(environment, ts, ts[i]), ts[i]))
  {
    hide Observed, OrderlyTrace, Describes, SafeCall, ValidCall, GroupAcceptsCall, GroupOfCall, BlockRestsLikeFirst,
      Run, Kept, KeyOf, Emits, Possible, ValidMethodName, Published;
    TracerStreamsAreFiled(w, steps, naming, ts);
    assert Filed(ts, i) == ValidMethodName(ts[i].methodName);
    EveryCallIsAccepted(environment, arity, ts, i, c, limit);
    KeepsFirstOccurrences(environment, ts, KeyOf(ts[i]));
    PublishedCovers(ts, |ts|, i);
  }
}
