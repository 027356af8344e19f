/** The overloads made from the kept traces of a method accept the calls that were observed.
    A call is described by the values bound to its parameters, its return value and the one
    recorded call of its block; a record accepts it position by position and keyword by keyword.
    For the rest parameters of blocks, which the code types from the first block call alone, the
    exact condition is given. */
module OverloadSoundness {
  import opened Traces
  import opened Values
  import opened RbsTypes
  import opened TypeSoundness
  import opened Admission
  import opened Parameters
  import opened Overloads

  // ---------------------------------------------------------------------------
  // Calls and the traces that describe them

  /** A parameter with the value bound to it. */
  datatype Bound = Bound(name: Option<string>, kind: ParamKind, seen: Observation)

  /** The call of a block that was recorded. */
  datatype BlockRun = BlockRun(receiver: Observation, returned: Observation, params: seq<Bound>)

  datatype PassedBlock = PassedBlock(name: Option<string>, run: Option<BlockRun>)

  datatype Call = Call(params: seq<Bound>, returned: Observation, block: Option<PassedBlock>)

  ghost predicate ValidSeen(o: Observation) {
    ValidHeap(o.heap) && o.value in o.heap
  }

  /** A rest parameter is bound to an array, a keyword rest parameter to a hash; `*` and `**`
      are the names of anonymous ones. A parameter without a name stands for a required one
      that is taken apart, and is given an array. */
  ghost predicate ValidBound(b: Bound) {
    && ValidSeen(b.seen)
    && (b.name == None ==> b.kind == Required && b.seen.heap[b.seen.value].List?)
    && (b.name == Some("*") ==> b.kind == Rest)
    && (b.name == Some("**") ==> b.kind == KeywordRest)
    && (b.kind == Rest ==> b.seen.heap[b.seen.value].List?)
    && (b.kind == KeywordRest ==> b.seen.heap[b.seen.value].Table?)
  }

  ghost predicate ValidBounds(bs: seq<Bound>) {
    forall i :: 0 <= i < |bs| ==> ValidBound(bs[i])
  }

  ghost predicate ValidRun(r: BlockRun) {
    ValidSeen(r.receiver) && ValidSeen(r.returned) && ValidBounds(r.params)
  }

  ghost predicate ValidCall(c: Call) {
    && (ValidBounds(c.params))
    && ValidSeen(c.returned)
    && (c.block.Some? && c.block.value.run.Some? ==> ValidRun(c.block.value.run.value))
  }

  function SeenType(o: Observation, limit: nat): ConstantInstance
    requires ValidSeen(o)
  {
    Summary(o.heap, o.value, 0, limit)
  }

  const BARE_ARRAY := ConstantInstance("Array", false, [])
  const BARE_HASH := ConstantInstance("Hash", false, [])

  /** What is recorded as the type of a parameter: the value's summary, but only the class for
      anonymous and unnamed parameters. */
  function RecordedType(b: Bound, limit: nat): ConstantInstance
    requires ValidSeen(b.seen)
  {
    if b.name == None || b.name == Some("*") then BARE_ARRAY
    else if b.name == Some("**") then BARE_HASH
    else SeenType(b.seen, limit)
  }

  ghost predicate DescribesParams(ps: seq<Param>, bs: seq<Bound>, limit: nat)
    requires ValidBounds(bs)
  {
    |ps| == |bs| && forall i :: 0 <= i < |bs| ==> ps[i] == Param(bs[i].name, bs[i].kind, RecordedType(bs[i], limit))
  }

  ghost predicate DescribesRun(t: BlockTrace, r: BlockRun, limit: nat)
    requires ValidRun(r)
  {
    t.selfType == SeenType(r.receiver, limit) && t.returnType == SeenType(r.returned, limit)
    && DescribesParams(t.params, r.params, limit)
  }

  /** What the tracer records of a call: at most one call of its block. */
  ghost predicate Describes(t: Trace, c: Call, limit: nat)
    requires ValidCall(c)
  {
    && DescribesParams(t.params, c.params, limit)
    && t.returnType == SeenType(c.returned, limit)
    && match c.block
       case None => t.blockParam == None
       case Some(passed) =>
         t.blockParam.Some? && t.blockParam.value.name == passed.name
         && match passed.run
            case None => t.blockParam.value.traces == []
            case Some(run) => |t.blockParam.value.traces| == 1 && DescribesRun(t.blockParam.value.traces[0], run, limit)
  }

  ghost predicate Observed(t: Trace, limit: nat) {
    exists c :: ValidCall(c) && Describes(t, c, limit)
  }

  ghost predicate CleanBounds(bs: seq<Bound>, limit: nat)
    requires ValidBounds(bs)
  {
    forall i :: 0 <= i < |bs| ==> IsClean(bs[i].seen, limit)
  }

  ghost predicate CleanRun(r: BlockRun, limit: nat)
    requires ValidRun(r)
  {
    IsClean(r.receiver, limit) && IsClean(r.returned, limit) && CleanBounds(r.params, limit)
  }

  ghost predicate CleanCall(c: Call, limit: nat)
    requires ValidCall(c)
  {
    CleanBounds(c.params, limit) && IsClean(c.returned, limit)
    && (c.block.Some? && c.block.value.run.Some? ==> CleanRun(c.block.value.run.value, limit))
  }

  /** A value that is summarised when its parameter is recorded. */
  predicate Summarised(b: Bound) {
    b.name.Some? && b.name.value !in {"*", "**"}
  }

  ghost predicate SafeSeen(o: Observation, cs: seq<ConstantInstance>, limit: nat)
    requires ValidSeen(o)
  {
    Safe(o.heap, o.value, cs, 0, limit)
  }

  /** Each value is safe among the types recorded at its place. */
  ghost predicate SafeBounds(bs: seq<Bound>, sets: seq<seq<Param>>, limit: nat)
    requires ValidBounds(bs)
  {
    && sets != [] && SameSizes(sets) && |bs| == |sets[0]|
    && forall n :: 0 <= n < |bs| && Summarised(bs[n]) ==> SafeSeen(bs[n].seen, TypesAt(sets, n), limit)
  }

  ghost predicate SafeRun(r: BlockRun, runs: seq<BlockTrace>, limit: nat)
    requires ValidRun(r)
  {
    && SafeSeen(r.receiver, BlockSelves(runs), limit) && SafeSeen(r.returned, BlockReturns(runs), limit)
    && SafeBounds(r.params, ParamSets(runs), limit)
  }

  /** Each value of the call is safe among the types of the traces it is grouped with. */
  ghost predicate SafeCall(c: Call, name: string, traces: seq<Trace>, limit: nat)
    requires ValidCall(c)
  {
    && traces != [] && SafeBounds(c.params, [traces[0].params], limit)
    && (name != "initialize" ==> SafeSeen(c.returned, Returns(traces), limit))
    && (c.block.Some? && c.block.value.run.Some? ==>
          SafeRun(c.block.value.run.value, BlockTracesOf(BlocksOf(traces)), limit))
  }

  // ---------------------------------------------------------------------------
  // Acceptance

  predicate IsRest(kind: ParamKind) {
    kind == Rest || kind == KeywordRest
  }

  /** Every element of the array, or every value of the hash, has the type. */
  ghost predicate ContentsAccept(t: RbsType, o: Observation)
    requires ValidSeen(o)
  {
    match o.heap[o.value]
    case List(items) => forall x :: x in items ==> Conforms(o.heap, x, t)
    case Table(_, values) => forall x :: x in values ==> Conforms(o.heap, x, t)
    case _ => false
  }

  /** `rests` says whether the contents of rest parameters are looked at. */
  ghost predicate SlotAccepts(s: Slot, b: Bound, rests: bool)
    requires ValidBound(b)
  {
    s.kind == b.kind && (IsKeyword(b.kind) ==> s.name == b.name)
    && if IsRest(b.kind) then rests ==> ContentsAccept(s.rbsType, b.seen)
       else Conforms(b.seen.heap, b.seen.value, s.rbsType)
  }

  ghost predicate SlotsAccept(slots: seq<Slot>, bs: seq<Bound>, rests: bool)
    requires ValidBounds(bs)
  {
    |slots| == |bs| && forall i :: 0 <= i < |bs| ==> SlotAccepts(slots[i], bs[i], rests)
  }

  function PositionalBounds(bs: seq<Bound>): (r: seq<Bound>)
    ensures ValidBounds(bs) ==> ValidBounds(r)
  {
    if bs == [] then [] else
    PositionalBounds(bs[..|bs| - 1]) + if IsPositional(bs[|bs| - 1].kind) then [bs[|bs| - 1]] else []
  }

  /** A record accepts bound parameters: position by position, keyword by keyword in both
      directions, and the keyword rest. */
  ghost predicate Accepts(r: Record, bs: seq<Bound>, rests: bool)
    requires ValidBounds(bs)
  {
    && SlotsAccept(Positionals(r), PositionalBounds(bs), rests)
    && (forall i :: 0 <= i < |bs| && IsKeyword(bs[i].kind) ==> KeywordAccepts(r, bs[i]))
    && (forall kind, name :: IsKeyword(kind) && name in Keywords(r, kind) ==>
          exists b :: b in bs && b.kind == kind && b.name == name)
    && (forall i :: 0 <= i < |bs| && bs[i].kind == KeywordRest ==>
          r.restKeywords.Some? && (rests ==> ContentsAccept(r.restKeywords.value.rbsType, bs[i].seen)))
  }

  ghost predicate KeywordAccepts(r: Record, b: Bound)
    requires ValidBound(b) && IsKeyword(b.kind)
  {
    b.name in Keywords(r, b.kind) && Conforms(b.seen.heap, b.seen.value, Keywords(r, b.kind)[b.name])
  }

  /** A parameter list whose record can represent it: positionals in order, and, as Ruby
      demands, distinct keyword names and one keyword rest parameter at most. */
  ghost predicate Orderly(slots: seq<Slot>) {
    InOrder(slots) && DistinctKeywords(slots) && OneKeywordRest(slots)
  }

  ghost predicate OneKeywordRest(slots: seq<Slot>) {
    forall i, j :: 0 <= i < j < |slots| ==> !(slots[i].kind == KeywordRest && slots[j].kind == KeywordRest)
  }

  function Skeleton(ps: seq<Param>): seq<Slot> {
    seq(|ps|, i requires 0 <= i < |ps| => Slot(ps[i].kind, ps[i].name, Untyped))
  }

  // ---------------------------------------------------------------------------
  // From slots to records

  lemma {:induction false} PositionalsAccept(slots: seq<Slot>, bs: seq<Bound>, rests: bool)
    requires (ValidBounds(bs)) && SlotsAccept(slots, bs, rests)
    ensures SlotsAccept(PositionalOnly(slots), PositionalBounds(bs), rests)
  {
    hide SlotAccepts, ValidBound;
    if slots != [] {
      assert SlotAccepts(slots[|slots| - 1], bs[|bs| - 1], rests);
      SameKind(slots[|slots| - 1], bs[|bs| - 1], rests);
      PositionalsAccept(slots[..|slots| - 1], bs[..|bs| - 1], rests);
    }
  }

  lemma SameKind(s: Slot, b: Bound, rests: bool)
    requires ValidBound(b) && SlotAccepts(s, b, rests)
    ensures s.kind == b.kind
  {
  }

  lemma {:induction false} KeywordRestIsKept(slots: seq<Slot>, s: Slot)
    requires OneKeywordRest(slots) && s in slots && s.kind == KeywordRest
    ensures RecordOf(slots).restKeywords == Some(RbsParam(s.name, s.rbsType))
  {
    var front, last := slots[..|slots| - 1], slots[|slots| - 1];
    assert slots == front + [last];
    if s in front {
      KeywordRestIsKept(front, s);
    }
  }

  /** If every parameter fits its slot, the record of the slots accepts the parameters. */
  lemma RecordAccepts(slots: seq<Slot>, bs: seq<Bound>, rests: bool)
    requires (ValidBounds(bs)) && SlotsAccept(slots, bs, rests) && Orderly(slots)
    ensures Accepts(RecordOf(slots), bs, rests)
  {
    hide RecordOf, InOrder, Positionals, PositionalOnly, DistinctKeywords, Keywords, ContentsAccept, OneKeywordRest;
    var r := RecordOf(slots);
    RecordKeepsPositionals(slots);
    PositionalsAccept(slots, bs, rests);
    forall i | 0 <= i < |bs| && IsKeyword(bs[i].kind)
      ensures KeywordAccepts(r, bs[i])
    {
      assert SlotAccepts(slots[i], bs[i], rests);
      assert slots[i] == Slot(bs[i].kind, bs[i].name, slots[i].rbsType);
      RecordKeepsKeywords(slots, bs[i].kind, bs[i].name, slots[i].rbsType);
    }
    forall kind, name | IsKeyword(kind) && name in Keywords(r, kind)
      ensures exists b :: b in bs && b.kind == kind && b.name == name
    {
      RecordKeepsKeywords(slots, kind, name, Keywords(r, kind)[name]);
      var i :| 0 <= i < |slots| && slots[i] == Slot(kind, name, Keywords(r, kind)[name]);
      assert SlotAccepts(slots[i], bs[i], rests);
      assert bs[i] in bs;
    }
    forall i | 0 <= i < |bs| && bs[i].kind == KeywordRest
      ensures r.restKeywords.Some? && (rests ==> ContentsAccept(r.restKeywords.value.rbsType, bs[i].seen))
    {
      assert SlotAccepts(slots[i], bs[i], rests);
      KeywordRestIsKept(slots, slots[i]);
    }
  }

  // ---------------------------------------------------------------------------
  // Slots fit what was observed

  predicate UnnamedAreArrays(ps: seq<Param>) {
    forall n :: 0 <= n < |ps| && ps[n].name == None ==> ps[n].typeName == BARE_ARRAY && ps[n].kind == Required
  }

  /** Parameter lists recorded at one limit, all with the kinds and names of the first. */
  ghost predicate AlikeSets(sets: seq<seq<Param>>, limit: nat) {
    && sets != [] && SameSizes(sets) && WellFormedSets(sets)
    && (forall k, n :: 0 <= k < |sets| && 0 <= n < |sets[k]| ==> Shaped(sets[k][n].typeName, limit))
    && (forall k :: 0 <= k < |sets| ==> NamesAndKinds(sets[k]) == NamesAndKinds(sets[0]))
    && (forall k :: 0 <= k < |sets| ==> UnnamedAreArrays(sets[k]))
  }

  /** The generics of the first list's rest parameters are the ones of this list. */
  ghost predicate RestsLikeFirst(first: seq<Param>, ps: seq<Param>) {
    |first| == |ps| && forall n :: 0 <= n < |ps| && IsRest(ps[n].kind) ==>
      first[n].typeName.genericArguments == ps[n].typeName.genericArguments
  }

  lemma ElementsAccepted(arity: Arities, b: Bound, c: ConstantInstance, limit: nat)
    requires ValidBound(b) && IsRest(b.kind) && WellFormed(c)
    requires Summarised(b) ==> SafeContents(b.seen.heap, b.seen.value, 0, limit)
    requires c.genericArguments == RecordedType(b, limit).genericArguments
    ensures b.kind == Rest ==> ContentsAccept(ElementType(arity, c, 1, 0), b.seen)
    ensures b.kind == KeywordRest ==> ContentsAccept(ElementType(arity, c, 2, 1), b.seen)
  {
    hide ToRbs, WellFormed;
    var h, v := b.seen.heap, b.seen.value;
    if Summarised(b) && limit > 0 {
      match h[v]
      case List(items) =>
        if items != [] { AllAccepted(arity, h, items, 1, limit); }
      case Table(keys, values) =>
        if keys != [] { AllAccepted(arity, h, values, 1, limit); }
      case _ =>
    }
  }

  /** A value that is safe among all types recorded at its place fits the slot made from them;
      for a rest parameter only if its generics are those of the first list. */
  lemma SlotFits(
      arity: Arities, sets: seq<seq<Param>>, k: nat, n: nat, b: Bound, limit: nat, rests: bool)
    requires AlikeSets(sets, limit) && k < |sets| && n < |sets[k]|
    requires ValidBound(b) && n < |sets[0]| && (Summarised(b) ==> SafeSeen(b.seen, TypesAt(sets, n), limit))
    requires sets[k][n] == Param(b.name, b.kind, RecordedType(b, limit))
    requires rests && IsRest(b.kind) ==>
               sets[0][n].typeName.genericArguments == RecordedType(b, limit).genericArguments
    ensures SlotAccepts(SlotAt(arity, sets, n), b, rests)
  {
    hide ToRbs, WellFormed, Shaped, Conforms, ContentsAccept, ElementType, SafeContents;
    assert NamesAndKinds(sets[k])[n] == NamesAndKinds(sets[0])[n];
    var types := TypesAt(sets, n);
    if IsRest(b.kind) {
      if rests { ElementsAccepted(arity, b, types[0], limit); }
    } else if b.name.Some? {
      assert types[k] in types;
      SafeAccepted(arity, b.seen.heap, b.seen.value, 0, limit, types);
    } else {
      forall j | 0 <= j < |types|
        ensures types[j] == BARE_ARRAY
      {
        assert NamesAndKinds(sets[j])[n] == NamesAndKinds(sets[0])[n];
        assert UnnamedAreArrays(sets[j]);
      }
      UnnamedAccepted(arity, b.seen.heap, b.seen.value, types);
    }
  }

  /** Unnamed parameters have the type of an array of anything, which accepts arrays and
      nothing else. */
  lemma UnnamedAccepted(arity: Arities, h: Heap, v: Ref, cs: seq<ConstantInstance>)
    requires ValidHeap(h) && v in h && cs != [] && forall c :: c in cs ==> c == BARE_ARRAY
    ensures forall c :: c in cs ==> WellFormed(c)
    ensures Conforms(h, v, ToRbs(arity, cs)) <==> h[v].List?
  {
    hide Alternatives, ToRbs, ToRbsOne, Conforms;
    NormalisedUnion(cs);
    UnionAccepts(arity, h, v, cs);
    BareArrayAccepted(arity, h, v);
    assert cs[0] in cs;
    assert BARE_ARRAY in Alternatives(cs);
    assert forall a :: a in Alternatives(cs) ==> a == BARE_ARRAY;
  }

  lemma BareArrayAccepted(arity: Arities, h: Heap, v: Ref)
    requires ValidHeap(h) && v in h
    ensures WellFormed(BARE_ARRAY)
    ensures Conforms(h, v, ToRbsOne(arity, BARE_ARRAY)) <==> h[v].List?
  {
  }

  lemma {:induction false} OrderFollowsKinds(a: seq<Slot>, b: seq<Slot>)
    requires |a| == |b| && forall i :: 0 <= i < |a| ==> a[i].kind == b[i].kind
    ensures InOrder(a) == InOrder(b)
    ensures forall kind :: HasKind(a, kind) == HasKind(b, kind)
  {
    hide HasKind;
    if a != [] {
      var n := |a| - 1;
      OrderFollowsKinds(a[..n], b[..n]);
      assert a == a[..n] + [a[n]] && b == b[..n] + [b[n]];
      forall kind
        ensures HasKind(a, kind) == HasKind(b, kind)
      {
        HasKindSnoc(a[..n], a[n], kind);
        HasKindSnoc(b[..n], b[n], kind);
      }
    }
  }

  /** Slots are as orderly as the parameters they are made from. */
  lemma SlotsAreOrderly(arity: Arities, sets: seq<seq<Param>>, k: nat, limit: nat)
    requires AlikeSets(sets, limit) && k < |sets| && Orderly(Skeleton(sets[k]))
    ensures Orderly(SlotsOf(arity, sets))
  {
    hide ToRbs, WellFormed, Shaped, ElementType, InOrder;
    var slots, skeleton := SlotsOf(arity, sets), Skeleton(sets[k]);
    forall n | 0 <= n < |slots|
      ensures slots[n].kind == skeleton[n].kind && (IsKeyword(slots[n].kind) ==> slots[n].name == skeleton[n].name)
    {
      assert NamesAndKinds(sets[k])[n] == NamesAndKinds(sets[0])[n];
      assert slots[n] == SlotAt(arity, sets, n);
    }
    OrderFollowsKinds(slots, skeleton);
  }

  /** The record made from alike lists accepts the values bound to any one of them. */
  lemma ParametersAccept(
      arity: Arities, sets: seq<seq<Param>>, k: nat, bs: seq<Bound>, limit: nat)
    requires AlikeSets(sets, limit) && k < |sets| && Orderly(Skeleton(sets[k]))
    requires ValidBounds(bs) && SafeBounds(bs, sets, limit) && DescribesParams(sets[k], bs, limit)
    ensures Accepts(ParametersOf(arity, sets), bs, RestsLikeFirst(sets[0], sets[k]))
  {
    hide ToRbs, WellFormed, Shaped, SlotAccepts, Orderly, Accepts;
    var slots, rests := SlotsOf(arity, sets), RestsLikeFirst(sets[0], sets[k]);
    SlotsAreOrderly(arity, sets, k, limit);
    forall n: nat | n < |bs|
      ensures SlotAccepts(slots[n], bs[n], rests)
    {
      SlotFits(arity, sets, k, n, bs[n], limit, rests);
      assert slots[n] == SlotAt(arity, sets, n);
    }
    RecordAccepts(slots, bs, rests);
  }

  // ---------------------------------------------------------------------------
  // Observed traces

  lemma SeenTypeIsShaped(o: Observation, limit: nat)
    requires ValidSeen(o)
    ensures Shaped(SeenType(o, limit), limit) && WellFormed(SeenType(o, limit))
  {
    SummaryIsShaped(o.heap, o.value, 0, limit);
  }

  /** All types in a list of parameters are summaries. */
  ghost predicate ShapedParams(ps: seq<Param>, limit: nat) {
    UnnamedAreArrays(ps)
    && forall n :: 0 <= n < |ps| ==> Shaped(ps[n].typeName, limit) && WellFormed(ps[n].typeName)
  }

  ghost predicate ShapedRun(t: BlockTrace, limit: nat) {
    && Shaped(t.selfType, limit) && WellFormed(t.selfType)
    && Shaped(t.returnType, limit) && WellFormed(t.returnType)
    && ShapedParams(t.params, limit)
  }

  ghost predicate ShapedTrace(t: Trace, limit: nat) {
    && Shaped(t.returnType, limit) && WellFormed(t.returnType)
    && ShapedParams(t.params, limit)
    && (t.blockParam.Some? ==>
          |t.blockParam.value.traces| <= 1
          && forall i :: 0 <= i < |t.blockParam.value.traces| ==> ShapedRun(t.blockParam.value.traces[i], limit))
  }

  lemma BareIsShaped(limit: nat)
    ensures Shaped(BARE_ARRAY, limit) && WellFormed(BARE_ARRAY) && Shaped(BARE_HASH, limit) && WellFormed(BARE_HASH)
  {
  }

  lemma DescribedParamsAreShaped(ps: seq<Param>, bs: seq<Bound>, limit: nat)
    requires ValidBounds(bs) && DescribesParams(ps, bs, limit)
    ensures ShapedParams(ps, limit)
  {
    hide Shaped, WellFormed, SeenType;
    forall n | 0 <= n < |ps|
      ensures Shaped(ps[n].typeName, limit) && WellFormed(ps[n].typeName)
    {
      SeenTypeIsShaped(bs[n].seen, limit);
      BareIsShaped(limit);
    }
  }

  lemma ObservedIsShaped(t: Trace, limit: nat)
    requires Observed(t, limit)
    ensures ShapedTrace(t, limit) && WellFormedTrace(t)
  {
    hide Shaped, WellFormed, SeenType, DescribesParams, ValidSeen, ValidBounds;
    var c :| ValidCall(c) && Describes(t, c, limit);
    SeenTypeIsShaped(c.returned, limit);
    DescribedParamsAreShaped(t.params, c.params, limit);
    if c.block.Some? && c.block.value.run.Some? {
      var run := c.block.value.run.value;
      SeenTypeIsShaped(run.receiver, limit);
      SeenTypeIsShaped(run.returned, limit);
      DescribedParamsAreShaped(t.blockParam.value.traces[0].params, run.params, limit);
    }
  }

  ghost predicate AllObserved(traces: seq<Trace>, limit: nat) {
    forall t :: t in traces ==> Observed(t, limit)
  }

  lemma ObservedAreWellFormed(traces: seq<Trace>, limit: nat)
    requires AllObserved(traces, limit)
    ensures WellFormedTraces(traces)
  {
    hide Observed, WellFormedTrace;
    forall t | t in traces
      ensures WellFormedTrace(t)
    {
      ObservedIsShaped(t, limit);
    }
  }

  lemma ReturnsAreSummaries(traces: seq<Trace>, limit: nat)
    requires traces != [] && AllObserved(traces, limit)
    ensures AreSummaries(Returns(traces), limit)
  {
    hide Observed, Shaped, WellFormed;
    forall k | 0 <= k < |traces|
      ensures Shaped(traces[k].returnType, limit) && WellFormed(traces[k].returnType)
    {
      ObservedIsShaped(traces[k], limit);
    }
  }

  // ---------------------------------------------------------------------------
  // The blocks of a group

  ghost predicate OneKey(traces: seq<Trace>, key: GroupKey) {
    forall t :: t in traces ==> GroupKeyOf(t) == key
  }

  /** Each recorded block call of a group is the only one of its call, and its parameters have
      the names and kinds of the group. */
  lemma BlockTraceOfGroup(traces: seq<Trace>, key: GroupKey, limit: nat, b: BlockTrace)
    requires AllObserved(traces, limit) && OneKey(traces, key) && b in BlockTracesOf(BlocksOf(traces))
    ensures key.blockParams == Some(NamesAndKinds(b.params)) && ShapedRun(b, limit)
  {
    hide Observed, ShapedRun, ShapedParams, NamesAndKinds, BlocksOf, BlockTracesOf, Shaped, WellFormed, WellFormedTrace;
    BlocksMembers(traces);
    BlockTracesMembers(BlocksOf(traces));
    var block :| block in BlocksOf(traces) && b in block.traces;
    var t :| t in traces && t.blockParam == Some(block);
    ObservedIsShaped(t, limit);
    var i :| 0 <= i < |block.traces| && block.traces[i] == b;
    assert block.traces == [b] && GroupKeyOf(t) == key;
  }

  lemma NamesFixSize(a: seq<Param>, b: seq<Param>)
    requires NamesAndKinds(a) == NamesAndKinds(b)
    ensures |a| == |b|
  {
    assert |NamesAndKinds(a)| == |a| && |NamesAndKinds(b)| == |b|;
  }

  /** The block parameter lists of a group all have the same size, names and kinds: the
      conversion never gives up on them. */
  lemma BlockSetsAreAlike(traces: seq<Trace>, key: GroupKey, limit: nat)
    requires AllObserved(traces, limit) && OneKey(traces, key) && BlockTracesOf(BlocksOf(traces)) != []
    ensures AlikeSets(ParamSets(BlockTracesOf(BlocksOf(traces))), limit)
    ensures AreSummaries(BlockReturns(BlockTracesOf(BlocksOf(traces))), limit)
    ensures AreSummaries(BlockSelves(BlockTracesOf(BlocksOf(traces))), limit)
  {
    hide Observed, Shaped, WellFormed, NamesAndKinds, BlockTracesOf, BlocksOf;
    var runs := BlockTracesOf(BlocksOf(traces));
    forall k | 0 <= k < |runs|
      ensures ShapedRun(runs[k], limit) && NamesAndKinds(runs[k].params) == NamesAndKinds(runs[0].params)
      ensures |runs[k].params| == |runs[0].params|
    {
      BlockTraceOfGroup(traces, key, limit, runs[0]);
      BlockTraceOfGroup(traces, key, limit, runs[k]);
      NamesFixSize(runs[k].params, runs[0].params);
    }
  }

  // ---------------------------------------------------------------------------
  // Overload soundness

  ghost predicate BlockAccepts(b: BlockType, run: BlockRun, rests: bool)
    requires ValidRun(run)
  {
    && b.required && b.signature.Signature? && b.selfType.Some?
    && Accepts(b.signature.parameters, run.params, rests)
    && Conforms(run.returned.heap, run.returned.value, b.signature.returnType)
    && Conforms(run.receiver.heap, run.receiver.value, b.selfType.value)
  }

  ghost predicate ReturnAccepts(returnType: Option<RbsType>, name: string, o: Observation)
    requires ValidSeen(o)
  {
    match returnType
    case None => name == "initialize"
    case Some(t) => name != "initialize" && Conforms(o.heap, o.value, t)
  }

  /** A block is written exactly if some trace of the group was given one, and is required exactly
      if some block of the group was called. One that never was called is an untyped function
      without a self type; one that was has a signature and a self type. */
  lemma RequiredIfCalled(arity: Arities, name: string, traces: seq<Trace>)
    requires traces != [] && WellFormedTraces(traces)
    ensures
      var o := OverloadOf(arity, name, traces);
      o.block.Some? && o.block.value.required <==>
        exists t :: t in traces && t.blockParam.Some? && t.blockParam.value.traces != []
    ensures
      var o := OverloadOf(arity, name, traces);
      && (o.block.Some? <==> exists t :: t in traces && t.blockParam.Some?)
      && (o.block.Some? ==>
            if o.block.value.required then o.block.value.signature.Signature? && o.block.value.selfType.Some?
            else o.block.value.signature.UntypedSignature? && o.block.value.selfType == None)
  {
    hide WellFormedTraces, ToRbs, ParametersOf, BlocksOf, BlockTracesOf;
    BlocksMembers(traces);
    BlockTracesMembers(BlocksOf(traces));
    BlocksAreWellFormed(traces);
    var runs := BlockTracesOf(BlocksOf(traces));
    if BlocksOf(traces) != [] {
      assert BlocksOf(traces)[0] in BlocksOf(traces);
    }
    if t :| t in traces && t.blockParam.Some? {
      assert t.blockParam.value in BlocksOf(traces);
    }
    if t :| t in traces && t.blockParam.Some? && t.blockParam.value.traces != [] {
      var b := t.blockParam.value.traces[0];
      assert t.blockParam.value in BlocksOf(traces) && b in t.blockParam.value.traces;
      assert b in runs;
    }
    if runs != [] {
      assert runs[0] in runs;
      var block :| block in BlocksOf(traces) && runs[0] in block.traces;
      var t :| t in traces && t.blockParam == Some(block);
      assert t.blockParam.value.traces != [];
    }
  }

  /** `rests` says whether the contents of the block's rest parameters are looked at. */
  ghost predicate OverloadAccepts(o: Overload, name: string, c: Call, rests: bool)
    requires ValidCall(c)
  {
    && Accepts(o.parameters, c.params, true)
    && ReturnAccepts(o.returnType, name, c.returned)
    && o.block.Some? == c.block.Some?
    && (c.block.Some? && c.block.value.run.Some? ==> BlockAccepts(o.block.value, c.block.value.run.value, rests))
  }

  ghost predicate OrderlyTrace(t: Trace) {
    && Orderly(Skeleton(t.params))
    && (t.blockParam.Some? ==>
          forall b :: b in t.blockParam.value.traces ==> Orderly(Skeleton(b.params)))
  }

  /** The generics of the rest parameters of the trace's block call are those of the first
      block call among the traces. */
  ghost predicate BlockRestsLikeFirst(traces: seq<Trace>, t: Trace) {
    var runs := BlockTracesOf(BlocksOf(traces));
    t.blockParam.Some? && t.blockParam.value.traces != [] && runs != [] ==>
      RestsLikeFirst(runs[0].params, t.blockParam.value.traces[0].params)
  }

  lemma ParametersOfGroup(
      arity: Arities, traces: seq<Trace>, key: GroupKey, t: Trace, bs: seq<Bound>, limit: nat)
    requires AllObserved(traces, limit) && OneKey(traces, key) && t in traces && Orderly(Skeleton(t.params))
    requires ValidBounds(bs) && SafeBounds(bs, [traces[0].params], limit) && DescribesParams(t.params, bs, limit)
    ensures WellFormedSets([traces[0].params]) && Accepts(ParametersOf(arity, [traces[0].params]), bs, true)
  {
    hide Observed, Shaped, WellFormed, Orderly, Skeleton, Accepts, ParametersOf, DescribesParams, SafeBounds;
    assert GroupKeyOf(traces[0]) == key == GroupKeyOf(t);
    assert traces[0].params == t.params;
    ObservedIsShaped(t, limit);
    ParametersAccept(arity, [t.params], 0, bs, limit);
  }

  lemma ReturnOfGroup(
      arity: Arities, name: string, traces: seq<Trace>, t: Trace, o: Observation, limit: nat)
    requires AllObserved(traces, limit) && t in traces && ValidSeen(o)
    requires name != "initialize" ==> SafeSeen(o, Returns(traces), limit)
    requires t.returnType == SeenType(o, limit)
    ensures WellFormedTraces(traces) && ReturnAccepts(OverloadOf(arity, name, traces).returnType, name, o)
  {
    hide Observed, Shaped, WellFormed, ToRbs, Conforms, WellFormedTraces, BlockOf, ParametersOf;
    ObservedAreWellFormed(traces, limit);
    ReturnsAreSummaries(traces, limit);
    var k :| 0 <= k < |traces| && traces[k] == t;
    assert Returns(traces)[k] in Returns(traces);
    if name != "initialize" {
      SafeAccepted(arity, o.heap, o.value, 0, limit, Returns(traces));
    }
  }

  lemma RunIndex(traces: seq<Trace>, t: Trace) returns (k: nat)
    requires t in traces && t.blockParam.Some? && |t.blockParam.value.traces| == 1
    ensures k < |BlockTracesOf(BlocksOf(traces))| && BlockTracesOf(BlocksOf(traces))[k] == t.blockParam.value.traces[0]
  {
    BlocksMembers(traces);
    BlockTracesMembers(BlocksOf(traces));
    var b := t.blockParam.value.traces[0];
    assert t.blockParam.value in BlocksOf(traces) && b in t.blockParam.value.traces;
    assert b in BlockTracesOf(BlocksOf(traces));
    k :| 0 <= k < |BlockTracesOf(BlocksOf(traces))| && BlockTracesOf(BlocksOf(traces))[k] == b;
  }

  lemma BlockOfGroup(
      arity: Arities, traces: seq<Trace>, key: GroupKey, t: Trace, run: BlockRun, limit: nat)
    requires AllObserved(traces, limit) && OneKey(traces, key) && t in traces
    requires t.blockParam.Some? && |t.blockParam.value.traces| == 1 && OrderlyTrace(t)
    requires ValidRun(run) && SafeRun(run, BlockTracesOf(BlocksOf(traces)), limit)
    requires DescribesRun(t.blockParam.value.traces[0], run, limit)
    ensures WellFormedBlocks(BlocksOf(traces))
    ensures BlockAccepts(BlockOf(arity, BlocksOf(traces)), run, BlockRestsLikeFirst(traces, t))
  {
    hide Observed, Shaped, WellFormed, Orderly, Skeleton, Accepts, ParametersOf, DescribesParams, SafeBounds, ToRbs,
      Conforms, BlockTracesOf, BlocksOf, WellFormedTraces, WellFormedBlocks, RestsLikeFirst, AlikeSets, SafeSeen,
      ValidSeen;
    ObservedAreWellFormed(traces, limit);
    BlocksAreWellFormed(traces);
    var runs := BlockTracesOf(BlocksOf(traces));
    var k := RunIndex(traces, t);
    BlockSetsAreAlike(traces, key, limit);
    assert t.blockParam.value.traces[0] in t.blockParam.value.traces;
    ParametersAccept(arity, ParamSets(runs), k, run.params, limit);
    assert BlockReturns(runs)[k] in BlockReturns(runs) && BlockSelves(runs)[k] in BlockSelves(runs);
    AcceptedSeen(arity, run.returned, limit, BlockReturns(runs));
    AcceptedSeen(arity, run.receiver, limit, BlockSelves(runs));
  }

  lemma AcceptedSeen(arity: Arities, o: Observation, limit: nat, cs: seq<ConstantInstance>)
    requires ValidSeen(o) && SafeSeen(o, cs, limit) && AreSummaries(cs, limit) && SeenType(o, limit) in cs
    ensures Conforms(o.heap, o.value, ToRbs(arity, cs))
  {
    SafeAccepted(arity, o.heap, o.value, 0, limit, cs);
  }

  lemma GroupAccepts(
      arity: Arities, name: string, traces: seq<Trace>, key: GroupKey, t: Trace, c: Call, limit: nat)
    requires AllObserved(traces, limit) && OneKey(traces, key) && t in traces && OrderlyTrace(t)
    requires ValidCall(c) && Describes(t, c, limit) && SafeCall(c, name, traces, limit)
    ensures WellFormedTraces(traces)
    ensures OverloadAccepts(OverloadOf(arity, name, traces), name, c, BlockRestsLikeFirst(traces, t))
  {
    hide Observed, Shaped, WellFormed, Orderly, Skeleton, Accepts, ParametersOf, DescribesParams, SafeBounds, ToRbs,
      Conforms, BlockOf, BlocksOf, WellFormedTraces, WellFormedBlocks, BlockRestsLikeFirst, BlockAccepts, ReturnAccepts,
      SafeRun, ValidRun, DescribesRun, SafeSeen, ValidSeen;
    ObservedAreWellFormed(traces, limit);
    ParametersOfGroup(arity, traces, key, t, c.params, limit);
    ReturnOfGroup(arity, name, traces, t, c.returned, limit);
    BlocksMembers(traces);
    GroupHasBlocks(traces, key, t);
    if c.block.Some? && c.block.value.run.Some? {
      BlockOfGroup(arity, traces, key, t, c.block.value.run.value, limit);
    }
  }

  /** In a group either every trace has a block or none has. */
  lemma GroupHasBlocks(traces: seq<Trace>, key: GroupKey, t: Trace)
    requires OneKey(traces, key) && t in traces
    ensures BlocksOf(traces) != [] <==> t.blockParam.Some?
  {
    hide GroupKeyOf;
    BlocksMembers(traces);
    if t.blockParam.Some? {
      assert t.blockParam.value in BlocksOf(traces);
    }
    if BlocksOf(traces) != [] {
      var b := BlocksOf(traces)[0];
      assert b in BlocksOf(traces);
      var x :| x in traces && x.blockParam == Some(b);
      SameKeySameBlock(x, t);
    }
  }

  lemma SameKeySameBlock(x: Trace, t: Trace)
    requires GroupKeyOf(x) == GroupKeyOf(t)
    ensures x.blockParam.Some? == t.blockParam.Some?
  {
    assert GroupKeyOf(x).blockParams.Some? == GroupKeyOf(t).blockParams.Some?;
  }

  /** The traces that a trace is grouped with. */
  function GroupOf(kept: seq<Trace>, key: GroupKey): seq<Trace> {
    var g := Find(Groups(kept), key);
    if g < |Groups(kept)| then Groups(kept)[g].traces else []
  }

  /** Overload soundness: every call that some kept trace describes, a dropped repeat included,
      is accepted by the overload of that trace's group if each of its values is safe among the
      types it is grouped with - its parameters, its return value, and the recorded call of its
      block; of the block's rest parameters the contents only if their generics are those of the
      group's first block call. */
  lemma OverloadsAreSound(
      arity: Arities, name: string, kept: seq<Trace>, i: nat, c: Call, limit: nat)
    requires AllObserved(kept, limit) && i < |kept| && OrderlyTrace(kept[i])
    requires ValidCall(c) && Describes(kept[i], c, limit)
    requires SafeCall(c, name, GroupOf(kept, GroupKeyOf(kept[i])), limit)
    ensures WellFormedTraces(kept)
    ensures
      var g := Find(Groups(kept), GroupKeyOf(kept[i]));
      && g < |OverloadsOf(arity, name, kept)| == |Groups(kept)|
      && kept[i] in Groups(kept)[g].traces
      && OverloadAccepts(OverloadsOf(arity, name, kept)[g], name, c,
                         BlockRestsLikeFirst(Groups(kept)[g].traces, kept[i]))
  {
    hide Observed, OrderlyTrace, OverloadOf, OverloadAccepts, Describes, SafeCall, ValidCall, BlockRestsLikeFirst,
      Groups, GroupKeyOf, WellFormedTrace;
    var t, groups := kept[i], Groups(kept);
    var g := Find(groups, GroupKeyOf(t));
    ObservedAreWellFormed(kept, limit);
    GroupsPartition(kept);
    assert t in kept;
    UnderMembers(kept, groups[g].key);
    GroupAccepts(arity, name, groups[g].traces, groups[g].key, t, c, limit);
  }

  // ---------------------------------------------------------------------------
  // Rest parameters of blocks

  /** The elements of an array, the values of a hash. */
  function ContentsOf(node: Node): seq<Ref> {
    match node
    case List(items) => items
    case Table(_, values) => values
    case _ => []
  }

  /** What the type of a rest or keyword rest parameter says of its contents: nothing, or that
      the first block call's summaries of the elements (of the values) admit all of them. */
  ghost predicate ContentsAdmitted(arity: Arities, p: Param, o: Observation, limit: nat)
    requires ValidSeen(o) && Shaped(p.typeName, limit) && WellFormed(p.typeName)
  {
    var size := if p.kind == Rest then 1 else 2;
    |p.typeName.genericArguments| != size
    || AllAdmitted(arity, p.typeName, limit, size - 1, o.heap, ContentsOf(o.heap[o.value]))
  }

  /** The exact condition for a rest or keyword rest parameter of a block, whatever it holds. */
  lemma BlockRestAccepted(arity: Arities, sets: seq<seq<Param>>, n: nat, o: Observation, limit: nat)
    requires AlikeSets(sets, limit) && n < |sets[0]| && IsRest(sets[0][n].kind) && ValidSeen(o)
    requires if sets[0][n].kind == Rest then o.heap[o.value].List? else o.heap[o.value].Table?
    ensures ContentsAccept(SlotAt(arity, sets, n).rbsType, o) <==> ContentsAdmitted(arity, sets[0][n], o, limit)
  {
    hide ToRbs, AllAdmitted, Shaped, WellFormed;
    var c, size := sets[0][n].typeName, if sets[0][n].kind == Rest then 1 else 2;
    if |c.genericArguments| == size {
      ArgumentAdmittedIff(arity, c, limit, size - 1, o.heap, ContentsOf(o.heap[o.value]));
    }
  }

  /** Only the first block call counts: with rest arguments [1] and then ["a"] the second is
      not accepted. */
  lemma LaterRestIsRejected(arity: Arities) returns (sets: seq<seq<Param>>, o: Observation)
    ensures AlikeSets(sets, 1) && ValidSeen(o) && |sets| == 2 && |sets[0]| == 1 && sets[0][0].kind == Rest
    ensures sets[1] == [Param(Some("rest"), Rest, SeenType(o, 1))] && IsClean(o, 1)
    ensures !ContentsAccept(SlotAt(arity, sets, 0).rbsType, o)
  {
    hide AlikeSets, ContentsAccept, SlotAt, WellFormed, Shaped, IsClean, SeenType;
    var integer := ConstantInstance("Integer", false, []);
    var first := ConstantInstance("Array", false, [Argument([integer])]);
    o := Observation(map[0 := List([1]), 1 := Plain("String")], 0);
    assert ValidSeen(o);
    var second := SeenType(o, 1);
    sets := [[Param(Some("rest"), Rest, first)], [Param(Some("rest"), Rest, second)]];
    ArrayIsShaped(integer);
    CleanStrings(o);
    SeenTypeIsShaped(o, 1);
    RestsAreAlike(first, second, 1);
    BlockRestAccepted(arity, sets, 0, o, 1);
    assert 1 in ContentsOf(o.heap[0]) && !Covered([integer], "String");
  }

  lemma ArrayIsShaped(c: ConstantInstance)
    requires c.genericArguments == [] && c.name != "bool"
    ensures
      var a := ConstantInstance("Array", false, [Argument([c])]);
      Shaped(a, 1) && WellFormed(a)
  {
    var a := ConstantInstance("Array", false, [Argument([c])]);
    assert Shaped(c, 0) && ShapedArgument(Argument([c]), 0);
    ShapedIsWellFormed(a, 1);
  }

  lemma CleanStrings(o: Observation)
    requires o == Observation(map[0 := List([1]), 1 := Plain("String")], 0) && ValidSeen(o)
    ensures IsClean(o, 1)
  {
    hide UnionOf, Alternatives;
  }

  lemma {:induction false} RestsAreAlike(a: ConstantInstance, b: ConstantInstance, n: nat)
    requires Shaped(a, n) && WellFormed(a) && Shaped(b, n) && WellFormed(b)
    ensures AlikeSets([[Param(Some("rest"), Rest, a)], [Param(Some("rest"), Rest, b)]], n)
  {
    hide Shaped, WellFormed;
    var sets := [[Param(Some("rest"), Rest, a)], [Param(Some("rest"), Rest, b)]];
    assert NamesAndKinds(sets[1]) == NamesAndKinds(sets[0]);
  }
}
