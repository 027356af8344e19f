/** Exactly which of the observed calls the overload made from a group of traces accepts. Beside
    `OverloadSoundness`, which says that safe values are accepted, the condition here is told
    from the summaries the group holds at each place, and it holds in both directions. */
module OverloadExactness {
  import opened Traces
  import opened Values
  import opened RbsTypes
  import opened TypeSoundness
  import opened Admission
  import opened Parameters
  import opened Overloads
  import opened OverloadSoundness

  // ---------------------------------------------------------------------------
  // Records against slots

  ghost predicate SlotMatches(s: Slot, b: Bound) {
    s.kind == b.kind && (IsKeyword(b.kind) ==> s.name == b.name)
  }

  ghost predicate SlotsMatch(slots: seq<Slot>, bs: seq<Bound>) {
    |slots| == |bs| && forall i :: 0 <= i < |bs| ==> SlotMatches(slots[i], bs[i])
  }

  lemma SlotsSnoc(slots: seq<Slot>, s: Slot, bs: seq<Bound>, b: Bound)
    requires ValidBounds(bs) && ValidBound(b) && |slots| == |bs|
    ensures ValidBounds(bs + [b])
    ensures SlotsAccept(slots + [s], bs + [b], true) <==> SlotsAccept(slots, bs, true) && SlotAccepts(s, b, true)
  {
    hide SlotAccepts, ValidBound;
    var all, bounds := slots + [s], bs + [b];
    assert all[|slots|] == s && bounds[|bs|] == b;
    if SlotsAccept(all, bounds, true) {
      assert SlotAccepts(all[|slots|], bounds[|bs|], true);
      forall i | 0 <= i < |bs|
        ensures SlotAccepts(slots[i], bs[i], true)
      {
        assert SlotAccepts(all[i], bounds[i], true);
      }
    }
  }

  lemma {:induction false} PositionalsAcceptIff(slots: seq<Slot>, bs: seq<Bound>)
    requires ValidBounds(bs) && SlotsMatch(slots, bs)
    ensures |PositionalOnly(slots)| == |PositionalBounds(bs)|
    ensures SlotsAccept(PositionalOnly(slots), PositionalBounds(bs), true) <==>
              forall i :: 0 <= i < |bs| && IsPositional(bs[i].kind) ==> SlotAccepts(slots[i], bs[i], true)
  {
    hide SlotAccepts, ValidBound;
    if bs != [] {
      var n := |bs| - 1;
      assert SlotMatches(slots[n], bs[n]);
      PositionalsAcceptIff(slots[..n], bs[..n]);
      if IsPositional(bs[n].kind) {
        SlotsSnoc(PositionalOnly(slots[..n]), slots[n], PositionalBounds(bs[..n]), bs[n]);
      } else {
        assert PositionalOnly(slots) == PositionalOnly(slots[..n]);
        assert PositionalBounds(bs) == PositionalBounds(bs[..n]);
      }
    }
  }

  lemma KeywordAcceptsIff(slots: seq<Slot>, b: Bound, i: nat)
    requires DistinctKeywords(slots) && i < |slots| && SlotMatches(slots[i], b) && ValidBound(b) && IsKeyword(b.kind)
    ensures KeywordAccepts(RecordOf(slots), b) <==> SlotAccepts(slots[i], b, true)
  {
    hide RecordOf, Conforms, Keywords, DistinctKeywords;
    assert slots[i] == Slot(b.kind, b.name, slots[i].rbsType);
    RecordKeepsKeywords(slots, b.kind, b.name, slots[i].rbsType);
  }

  /** The record of orderly slots accepts bound parameters of their kinds if and only if each
      slot does. */
  lemma RecordAcceptsIff(slots: seq<Slot>, bs: seq<Bound>)
    requires ValidBounds(bs) && SlotsMatch(slots, bs) && Orderly(slots)
    ensures Accepts(RecordOf(slots), bs, true) <==> SlotsAccept(slots, bs, true)
  {
    hide RecordOf, InOrder, Positionals, PositionalOnly, Keywords, ContentsAccept, OneKeywordRest, KeywordAccepts;
    if SlotsAccept(slots, bs, true) {
      RecordAccepts(slots, bs, true);
    }
    if Accepts(RecordOf(slots), bs, true) {
      RecordKeepsPositionals(slots);
      PositionalsAcceptIff(slots, bs);
      forall i | 0 <= i < |bs|
        ensures SlotAccepts(slots[i], bs[i], true)
      {
        assert SlotMatches(slots[i], bs[i]);
        if IsKeyword(bs[i].kind) {
          KeywordAcceptsIff(slots, bs[i], i);
        } else if bs[i].kind == KeywordRest {
          KeywordRestIsKept(slots, slots[i]);
        }
      }
    }
  }

  // ---------------------------------------------------------------------------
  // Slots against summaries

  lemma TypesAreSummaries(sets: seq<seq<Param>>, n: nat, limit: nat)
    requires AlikeSets(sets, limit) && n < |sets[0]|
    ensures AreSummaries(TypesAt(sets, n), limit)
  {
    hide Shaped, WellFormed, NamesAndKinds;
  }

  /** The types recorded at a place admit the value bound there, and for a rest parameter the
      first one's generics all it holds. */
  ghost predicate BoundAdmitted(arity: Arities, sets: seq<seq<Param>>, n: nat, b: Bound, limit: nat)
    requires AlikeSets(sets, limit) && n < |sets[0]| && ValidBound(b)
  {
    TypesAreSummaries(sets, n, limit);
    if IsRest(sets[0][n].kind) then ContentsAdmitted(arity, sets[0][n], b.seen, limit)
    else Admits(arity, TypesAt(sets, n), limit, b.seen.heap, b.seen.value)
  }

  lemma SlotAcceptsIff(arity: Arities, sets: seq<seq<Param>>, k: nat, n: nat, b: Bound, limit: nat)
    requires AlikeSets(sets, limit) && k < |sets| && n < |sets[k]| && ValidBound(b)
    requires sets[k][n].name == b.name && sets[k][n].kind == b.kind
    ensures n < |sets[0]| && SlotMatches(SlotAt(arity, sets, n), b)
    ensures SlotAccepts(SlotAt(arity, sets, n), b, true) <==> BoundAdmitted(arity, sets, n, b, limit)
  {
    hide ToRbs, WellFormed, Shaped, Conforms, ContentsAccept, ElementType, Admits, ContentsAdmitted;
    assert NamesAndKinds(sets[k])[n] == NamesAndKinds(sets[0])[n];
    if IsRest(b.kind) {
      BlockRestAccepted(arity, sets, n, b.seen, limit);
    } else {
      TypesAreSummaries(sets, n, limit);
      AdmittedIff(arity, TypesAt(sets, n), limit, b.seen.heap, b.seen.value);
    }
  }

  ghost predicate BoundsAdmitted(arity: Arities, sets: seq<seq<Param>>, bs: seq<Bound>, limit: nat)
    requires ValidBounds(bs)
  {
    && AlikeSets(sets, limit) && |bs| == |sets[0]|
    && forall n: nat :: n < |bs| ==> BoundAdmitted(arity, sets, n, bs[n], limit)
  }

  /** The record made from alike lists accepts the values bound to any one of them if and only if
      they are admitted. */
  lemma ParametersAcceptIff(arity: Arities, sets: seq<seq<Param>>, k: nat, bs: seq<Bound>, limit: nat)
    requires AlikeSets(sets, limit) && k < |sets| && Orderly(Skeleton(sets[k]))
    requires ValidBounds(bs) && DescribesParams(sets[k], bs, limit)
    ensures Accepts(ParametersOf(arity, sets), bs, true) <==> BoundsAdmitted(arity, sets, bs, limit)
  {
    hide ToRbs, WellFormed, Shaped, SlotAccepts, Orderly, Accepts, BoundAdmitted, RecordedType, NamesAndKinds;
    var slots := SlotsOf(arity, sets);
    SlotsAreOrderly(arity, sets, k, limit);
    assert |sets[k]| == |sets[0]|;
    forall n: nat | n < |bs|
      ensures SlotMatches(slots[n], bs[n])
      ensures SlotAccepts(slots[n], bs[n], true) <==> BoundAdmitted(arity, sets, n, bs[n], limit)
    {
      SlotAcceptsIff(arity, sets, k, n, bs[n], limit);
      assert slots[n] == SlotAt(arity, sets, n);
    }
    RecordAcceptsIff(slots, bs);
  }

  // ---------------------------------------------------------------------------
  // Overloads

  ghost predicate SeenAdmitted(arity: Arities, cs: seq<ConstantInstance>, o: Observation, limit: nat)
    requires ValidSeen(o)
  {
    AreSummaries(cs, limit) && Admits(arity, cs, limit, o.heap, o.value)
  }

  ghost predicate RunAdmitted(arity: Arities, runs: seq<BlockTrace>, r: BlockRun, limit: nat)
    requires ValidRun(r)
  {
    && BoundsAdmitted(arity, ParamSets(runs), r.params, limit)
    && SeenAdmitted(arity, BlockReturns(runs), r.returned, limit)
    && SeenAdmitted(arity, BlockSelves(runs), r.receiver, limit)
  }

  /** Every value of the call is admitted by the types that the group of traces holds at its
      place. */
  ghost predicate CallAdmitted(arity: Arities, name: string, traces: seq<Trace>, c: Call, limit: nat)
    requires ValidCall(c)
  {
    && traces != [] && BoundsAdmitted(arity, [traces[0].params], c.params, limit)
    && (name != "initialize" ==> SeenAdmitted(arity, Returns(traces), c.returned, limit))
    && (c.block.Some? && c.block.value.run.Some? ==>
          RunAdmitted(arity, BlockTracesOf(BlocksOf(traces)), c.block.value.run.value, limit))
  }

  lemma SeenAcceptedIff(arity: Arities, cs: seq<ConstantInstance>, o: Observation, limit: nat)
    requires ValidSeen(o) && AreSummaries(cs, limit)
    ensures Conforms(o.heap, o.value, ToRbs(arity, cs)) <==> SeenAdmitted(arity, cs, o, limit)
  {
    AdmittedIff(arity, cs, limit, o.heap, o.value);
  }

  lemma OwnSetIsAlike(traces: seq<Trace>, key: GroupKey, t: Trace, limit: nat)
    requires AllObserved(traces, limit) && OneKey(traces, key) && t in traces
    ensures traces[0].params == t.params && AlikeSets([traces[0].params], limit)
  {
    hide Observed, Shaped, WellFormed;
    assert GroupKeyOf(traces[0]) == key == GroupKeyOf(t);
    ObservedIsShaped(t, limit);
  }

  lemma BlockAcceptsIff(
      arity: Arities, traces: seq<Trace>, key: GroupKey, t: Trace, run: BlockRun, limit: nat)
    requires AllObserved(traces, limit) && OneKey(traces, key) && t in traces
    requires t.blockParam.Some? && |t.blockParam.value.traces| == 1 && OrderlyTrace(t)
    requires ValidRun(run) && DescribesRun(t.blockParam.value.traces[0], run, limit)
    ensures WellFormedBlocks(BlocksOf(traces))
    ensures BlockAccepts(BlockOf(arity, BlocksOf(traces)), run, true) <==>
              RunAdmitted(arity, BlockTracesOf(BlocksOf(traces)), run, limit)
  {
    hide Observed, Shaped, WellFormed, Orderly, Skeleton, Accepts, ParametersOf, DescribesParams, ToRbs, Conforms,
      BlockTracesOf, BlocksOf, WellFormedTraces, WellFormedBlocks, AlikeSets, ValidSeen, SeenAdmitted, BoundsAdmitted;
    ObservedAreWellFormed(traces, limit);
    BlocksAreWellFormed(traces);
    var runs := BlockTracesOf(BlocksOf(traces));
    var k := RunIndex(traces, t);
    BlockSetsAreAlike(traces, key, limit);
    assert t.blockParam.value.traces[0] in t.blockParam.value.traces;
    ParametersAcceptIff(arity, ParamSets(runs), k, run.params, limit);
    SeenAcceptedIff(arity, BlockReturns(runs), run.returned, limit);
    SeenAcceptedIff(arity, BlockSelves(runs), run.receiver, limit);
  }

  lemma GroupAcceptsIff(
      arity: Arities, name: string, traces: seq<Trace>, key: GroupKey, t: Trace, c: Call, limit: nat)
    requires AllObserved(traces, limit) && OneKey(traces, key) && t in traces && OrderlyTrace(t)
    requires ValidCall(c) && Describes(t, c, limit)
    ensures WellFormedTraces(traces)
    ensures OverloadAccepts(OverloadOf(arity, name, traces), name, c, true) <==>
              CallAdmitted(arity, name, traces, c, limit)
  {
    hide Observed, Shaped, WellFormed, Orderly, Skeleton, Accepts, ParametersOf, DescribesParams, ToRbs, Conforms,
      BlockOf, BlocksOf, BlockTracesOf, WellFormedTraces, WellFormedBlocks, BlockAccepts, ValidRun, DescribesRun,
      ValidSeen, SeenAdmitted, BoundsAdmitted, RunAdmitted, AlikeSets;
    ObservedAreWellFormed(traces, limit);
    OwnSetIsAlike(traces, key, t, limit);
    ParametersAcceptIff(arity, [traces[0].params], 0, c.params, limit);
    ReturnsAreSummaries(traces, limit);
    SeenAcceptedIff(arity, Returns(traces), c.returned, limit);
    BlocksMembers(traces);
    GroupHasBlocks(traces, key, t);
    if c.block.Some? && c.block.value.run.Some? {
      BlockAcceptsIff(arity, traces, key, t, c.block.value.run.value, limit);
    }
  }

  /** The exact condition: an orderly call that some kept trace describes is accepted by the
      overload of that trace's group, the contents of its block's rest parameters included, if
      and only if each of its values is admitted by the types the group holds at its place. */
  lemma OverloadsAreExact(arity: Arities, name: string, kept: seq<Trace>, i: nat, c: Call, limit: nat)
    requires AllObserved(kept, limit) && i < |kept| && OrderlyTrace(kept[i])
    requires ValidCall(c) && Describes(kept[i], c, limit)
    ensures WellFormedTraces(kept)
    ensures
      var g := Find(Groups(kept), GroupKeyOf(kept[i]));
      && g < |OverloadsOf(arity, name, kept)|
      && (OverloadAccepts(OverloadsOf(arity, name, kept)[g], name, c, true) <==>
            CallAdmitted(arity, name, GroupOf(kept, GroupKeyOf(kept[i])), c, limit))
  {
    hide Observed, OrderlyTrace, OverloadOf, OverloadAccepts, Describes, CallAdmitted, ValidCall, Groups, GroupKeyOf,
      WellFormedTrace;
    var t, groups := kept[i], Groups(kept);
    var g := Find(groups, GroupKeyOf(t));
    ObservedAreWellFormed(kept, limit);
    GroupsPartition(kept);
    assert t in kept;
    UnderMembers(kept, groups[g].key);
    GroupAcceptsIff(arity, name, groups[g].traces, groups[g].key, t, c, limit);
  }

  // ---------------------------------------------------------------------------
  // Clean calls are safe

  lemma CleanIsSafeSeen(o: Observation, cs: seq<ConstantInstance>, limit: nat)
    requires ValidSeen(o) && IsClean(o, limit) && AreSummaries(cs, limit) && SeenType(o, limit) in cs
    ensures SafeSeen(o, cs, limit)
  {
    CleanIsSafe(o.heap, o.value, 0, limit, cs);
  }

  lemma CleanBoundsAreSafe(sets: seq<seq<Param>>, k: nat, bs: seq<Bound>, limit: nat)
    requires AlikeSets(sets, limit) && k < |sets| && ValidBounds(bs) && DescribesParams(sets[k], bs, limit)
    requires CleanBounds(bs, limit)
    ensures SafeBounds(bs, sets, limit)
  {
    hide IsClean, SeenType, Shaped, WellFormed, SafeSeen, AlikeSets, ValidHeap;
    SameSets(sets, k, limit);
    forall n: nat | n < |bs| && Summarised(bs[n])
      ensures SafeSeen(bs[n].seen, TypesAt(sets, n), limit)
    {
      TypesAreSummaries(sets, n, limit);
      SummarisedType(bs[n], limit);
      assert TypesAt(sets, n)[k] == sets[k][n].typeName && sets[k][n].typeName in TypesAt(sets, n);
      CleanIsSafeSeen(bs[n].seen, TypesAt(sets, n), limit);
    }
  }

  lemma SameSets(sets: seq<seq<Param>>, k: nat, limit: nat)
    requires AlikeSets(sets, limit) && k < |sets|
    ensures sets != [] && SameSizes(sets) && |sets[k]| == |sets[0]|
  {
  }

  lemma SummarisedType(b: Bound, limit: nat)
    requires ValidBound(b) && Summarised(b)
    ensures ValidSeen(b.seen) && RecordedType(b, limit) == SeenType(b.seen, limit)
  {
  }

  /** A call whose values are all clean is safe in every group. */
  lemma CleanCallIsSafe(name: string, traces: seq<Trace>, key: GroupKey, t: Trace, c: Call, limit: nat)
    requires AllObserved(traces, limit) && OneKey(traces, key) && t in traces
    requires ValidCall(c) && Describes(t, c, limit) && CleanCall(c, limit)
    ensures SafeCall(c, name, traces, limit)
  {
    hide Observed, Shaped, WellFormed, DescribesParams, CleanBounds, SafeBounds, SafeSeen, IsClean, ValidSeen,
      BlocksOf, BlockTracesOf, SeenType, AlikeSets, NamesAndKinds;
    OwnSetIsAlike(traces, key, t, limit);
    CleanBoundsAreSafe([traces[0].params], 0, c.params, limit);
    ReturnsAreSummaries(traces, limit);
    var k :| 0 <= k < |traces| && traces[k] == t;
    assert Returns(traces)[k] in Returns(traces);
    CleanIsSafeSeen(c.returned, Returns(traces), limit);
    if c.block.Some? && c.block.value.run.Some? {
      CleanRunIsSafe(traces, key, t, c.block.value.run.value, limit);
    }
  }

  lemma CleanRunIsSafe(traces: seq<Trace>, key: GroupKey, t: Trace, run: BlockRun, limit: nat)
    requires AllObserved(traces, limit) && OneKey(traces, key) && t in traces
    requires t.blockParam.Some? && |t.blockParam.value.traces| == 1
    requires ValidRun(run) && CleanRun(run, limit) && DescribesRun(t.blockParam.value.traces[0], run, limit)
    ensures SafeRun(run, BlockTracesOf(BlocksOf(traces)), limit)
  {
    hide Observed, Shaped, WellFormed, DescribesParams, CleanBounds, SafeBounds, SafeSeen, IsClean, ValidSeen,
      BlocksOf, BlockTracesOf, SeenType, AlikeSets, NamesAndKinds;
    var runs := BlockTracesOf(BlocksOf(traces));
    var k := RunIndex(traces, t);
    BlockSetsAreAlike(traces, key, limit);
    CleanBoundsAreSafe(ParamSets(runs), k, run.params, limit);
    assert BlockReturns(runs)[k] in BlockReturns(runs) && BlockSelves(runs)[k] in BlockSelves(runs);
    CleanIsSafeSeen(run.returned, BlockReturns(runs), limit);
    CleanIsSafeSeen(run.receiver, BlockSelves(runs), limit);
  }

  /** In particular the overload of its group accepts every clean call. */
  lemma CleanCallsAreAccepted(arity: Arities, name: string, kept: seq<Trace>, i: nat, c: Call, limit: nat)
    requires AllObserved(kept, limit) && i < |kept| && OrderlyTrace(kept[i])
    requires ValidCall(c) && Describes(kept[i], c, limit) && CleanCall(c, limit)
    ensures SafeCall(c, name, GroupOf(kept, GroupKeyOf(kept[i])), limit)
    ensures WellFormedTraces(kept)
    ensures
      var g := Find(Groups(kept), GroupKeyOf(kept[i]));
      && g < |OverloadsOf(arity, name, kept)|
      && OverloadAccepts(OverloadsOf(arity, name, kept)[g], name, c,
                         BlockRestsLikeFirst(GroupOf(kept, GroupKeyOf(kept[i])), kept[i]))
  {
    hide Observed, OrderlyTrace, OverloadOf, OverloadAccepts, Describes, SafeCall, CleanCall, ValidCall,
      BlockRestsLikeFirst, Groups, GroupKeyOf, WellFormedTrace;
    GroupIsOfKey(kept, i);
    var key := GroupKeyOf(kept[i]);
    CleanCallIsSafe(name, GroupOf(kept, key), key, kept[i], c, limit);
    OverloadsAreSound(arity, name, kept, i, c, limit);
  }

  lemma GroupIsOfKey(kept: seq<Trace>, i: nat)
    requires i < |kept|
    ensures
      var traces := GroupOf(kept, GroupKeyOf(kept[i]));
      kept[i] in traces && OneKey(traces, GroupKeyOf(kept[i])) && forall t :: t in traces ==> t in kept
  {
    hide Groups, GroupKeyOf;
    GroupsPartition(kept);
    assert kept[i] in kept;
    UnderMembers(kept, GroupKeyOf(kept[i]));
  }
}
