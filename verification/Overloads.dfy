/** Turning the traces kept for one method into RBS overloads. */
module Overloads {
  import opened Traces
  import opened RbsTypes
  import opened Parameters
  import opened Selection

  datatype Signature = UntypedSignature | Signature(parameters: Record, returnType: RbsType)

  datatype BlockType = BlockType(signature: Signature, selfType: Option<RbsType>, required: bool)

  /** `returnType` is None for void. */
  datatype Overload = Overload(parameters: Record, returnType: Option<RbsType>, block: Option<BlockType>)

  /** What decides the overload of a trace: its parameters and, if it was given a block, the
      names and kinds of the block's parameters. */
  datatype GroupKey = GroupKey(params: seq<Param>, blockParams: Option<seq<(Option<string>, ParamKind)>>)

  datatype Group = Group(key: GroupKey, traces: seq<Trace>)

  function FirstParams(b: BlockParam): seq<Param> {
    if b.traces == [] then [] else b.traces[0].params
  }

  function NamesAndKinds(params: seq<Param>): seq<(Option<string>, ParamKind)> {
    seq(|params|, i requires 0 <= i < |params| => (params[i].name, params[i].kind))
  }

  function GroupKeyOf(t: Trace): GroupKey {
    GroupKey(t.params, match t.blockParam
                       case None => None
                       case Some(b) => Some(NamesAndKinds(FirstParams(b))))
  }

  // ---------------------------------------------------------------------------
  // Grouping

  /** The index of the group with a key, or the number of groups. */
  function Find(groups: seq<Group>, key: GroupKey): (i: nat)
    ensures i <= |groups|
    ensures i < |groups| ==> groups[i].key == key
    ensures forall j :: 0 <= j < i ==> groups[j].key != key
  {
    if groups == [] || groups[0].key == key then 0 else 1 + Find(groups[1..], key)
  }

  function AddTo(groups: seq<Group>, t: Trace): seq<Group> {
    var key := GroupKeyOf(t);
    var i := Find(groups, key);
    if i < |groups| then groups[i := Group(key, groups[i].traces + [t])] else groups + [Group(key, [t])]
  }

  function Groups(traces: seq<Trace>): seq<Group> {
    if traces == [] then [] else AddTo(Groups(traces[..|traces| - 1]), traces[|traces| - 1])
  }

  /** The traces with a key, in order. */
  function Under(traces: seq<Trace>, key: GroupKey): seq<Trace> {
    if traces == [] then [] else
    Under(traces[..|traces| - 1], key)
    + if GroupKeyOf(traces[|traces| - 1]) == key then [traces[|traces| - 1]] else []
  }

  lemma {:induction false} UnderMembers(traces: seq<Trace>, key: GroupKey)
    ensures forall t :: t in Under(traces, key) <==> t in traces && GroupKeyOf(t) == key
  {
    hide GroupKeyOf;
    if traces != [] {
      UnderMembers(traces[..|traces| - 1], key);
      assert traces == traces[..|traces| - 1] + [traces[|traces| - 1]];
    }
  }

  ghost predicate DistinctKeys(groups: seq<Group>) {
    forall i, j :: 0 <= i < j < |groups| ==> groups[i].key != groups[j].key
  }

  /** Each group holds exactly the traces with its key, in order. */
  ghost predicate HoldTheirs(groups: seq<Group>, traces: seq<Trace>) {
    forall i :: 0 <= i < |groups| ==> groups[i].traces == Under(traces, groups[i].key) && groups[i].traces != []
  }

  ghost predicate HaveGroups(traces: seq<Trace>, groups: seq<Group>) {
    forall t :: t in traces ==> Find(groups, GroupKeyOf(t)) < |groups|
  }

  /** The groups partition the traces: keys are distinct, each group holds exactly the traces
      with its key, in order, and every trace has a group. */
  lemma {:induction false} GroupsPartition(traces: seq<Trace>)
    ensures DistinctKeys(Groups(traces)) && HoldTheirs(Groups(traces), traces) && HaveGroups(traces, Groups(traces))
  {
    if traces != [] {
      var front, t := traces[..|traces| - 1], traces[|traces| - 1];
      GroupsPartition(front);
      AddedKeys(Groups(front), t, front);
      if Find(Groups(front), GroupKeyOf(t)) == |Groups(front)| {
        NoneUnder(front, Groups(front), GroupKeyOf(t));
      }
      AddedToOne(Groups(front), t, traces);
    }
  }

  lemma {:induction false} NoneUnder(traces: seq<Trace>, groups: seq<Group>, key: GroupKey)
    requires HaveGroups(traces, groups) && Find(groups, key) == |groups|
    ensures Under(traces, key) == []
  {
    hide GroupKeyOf;
    if traces != [] {
      var front, t := traces[..|traces| - 1], traces[|traces| - 1];
      NoneUnder(front, groups, key);
      assert t in traces && GroupKeyOf(t) != key;
    }
  }

  lemma {:induction false} AddedToOne(groups: seq<Group>, t: Trace, traces: seq<Trace>)
    requires traces != [] && traces[|traces| - 1] == t
    requires DistinctKeys(groups) && HoldTheirs(groups, traces[..|traces| - 1])
    requires Find(groups, GroupKeyOf(t)) == |groups| ==> Under(traces[..|traces| - 1], GroupKeyOf(t)) == []
    ensures HoldTheirs(AddTo(groups, t), traces)
  {
    hide GroupKeyOf;
    var all := AddTo(groups, t);
    forall i | 0 <= i < |all|
      ensures all[i].traces == Under(traces, all[i].key) && all[i].traces != []
    {
      if i < |groups| && i != Find(groups, GroupKeyOf(t)) {
        assert all[i] == groups[i] && all[i].key != GroupKeyOf(t);
      }
    }
  }

  lemma AddedKeys(groups: seq<Group>, t: Trace, traces: seq<Trace>)
    requires DistinctKeys(groups) && HaveGroups(traces, groups)
    ensures DistinctKeys(AddTo(groups, t)) && HaveGroups(traces + [t], AddTo(groups, t))
  {
    hide GroupKeyOf;
    var all := AddTo(groups, t);
    forall x | x in traces + [t]
      ensures Find(all, GroupKeyOf(x)) < |all|
    {
      var i := Find(groups, GroupKeyOf(x));
      if i < |groups| {
        assert all[i].key == GroupKeyOf(x);
      } else {
        assert x == t && all[i].key == GroupKeyOf(x);
      }
    }
  }

  // ---------------------------------------------------------------------------
  // Which traces share an overload, in terms of the traces

  /** Whether two lists of parameters have the same names and kinds. */
  predicate SameNamesAndKinds(a: seq<Param>, b: seq<Param>) {
    |a| == |b| && forall i :: 0 <= i < |a| ==> a[i].name == b[i].name && a[i].kind == b[i].kind
  }

  /** The same parameters, and a block for both or for none, of which the first recorded calls, if
      there are any, took parameters of the same names and kinds. */
  predicate Alike(a: Trace, b: Trace) {
    && a.params == b.params
    && match (a.blockParam, b.blockParam)
       case (None, None) => true
       case (Some(x), Some(y)) =>
         SameNamesAndKinds(if x.traces == [] then [] else x.traces[0].params,
                           if y.traces == [] then [] else y.traces[0].params)
       case _ => false
  }

  lemma NamesAndKindsAgree(a: seq<Param>, b: seq<Param>)
    ensures NamesAndKinds(a) == NamesAndKinds(b) <==> SameNamesAndKinds(a, b)
  {
    if NamesAndKinds(a) == NamesAndKinds(b) {
      assert |NamesAndKinds(a)| == |a| && |NamesAndKinds(b)| == |b|;
      forall i | 0 <= i < |a|
        ensures a[i].name == b[i].name && a[i].kind == b[i].kind
      {
        assert NamesAndKinds(a)[i] == NamesAndKinds(b)[i];
      }
    }
  }

  lemma SameKeyMeansAlike(a: Trace, b: Trace)
    ensures GroupKeyOf(a) == GroupKeyOf(b) <==> Alike(a, b)
  {
    if a.blockParam.Some? && b.blockParam.Some? {
      NamesAndKindsAgree(FirstParams(a.blockParam.value), FirstParams(b.blockParam.value));
    }
  }

  /** The traces of which no earlier one is alike. */
  function StartsGroup(traces: seq<Trace>): nat -> bool {
    (i: nat) => i < |traces| && forall j :: 0 <= j < i ==> !Alike(traces[j], traces[i])
  }

  function AlikeTo(traces: seq<Trace>, t: Trace): nat -> bool {
    (i: nat) => i < |traces| && Alike(t, traces[i])
  }

  function Heads(groups: seq<Group>): (r: seq<Trace>)
    requires forall g :: g in groups ==> g.traces != []
  {
    seq(|groups|, i requires 0 <= i < |groups| => assert groups[i] in groups; groups[i].traces[0])
  }

  lemma {:induction false} UnderIsAlike(traces: seq<Trace>, t: Trace, n: nat)
    requires n <= |traces|
    ensures Under(traces[..n], GroupKeyOf(t)) == Selected(traces, AlikeTo(traces, t), n)
  {
    hide GroupKeyOf, Alike;
    if n > 0 {
      UnderIsAlike(traces, t, n - 1);
      assert traces[..n][..n - 1] == traces[..n - 1];
      SameKeyMeansAlike(t, traces[n - 1]);
    }
  }

  lemma NoEmptyGroups(traces: seq<Trace>)
    ensures forall g :: g in Groups(traces) ==> g.traces != []
  {
    hide Groups;
    GroupsPartition(traces);
  }

  lemma StartsOrFound(traces: seq<Trace>, n: nat)
    requires n < |traces|
    ensures StartsGroup(traces)(n) <==> Find(Groups(traces[..n]), GroupKeyOf(traces[n])) == |Groups(traces[..n])|
  {
    hide Groups, GroupKeyOf, Alike, Find;
    var front, t := traces[..n], traces[n];
    var groups := Groups(front);
    var g := FindSpec(groups, GroupKeyOf(t));
    GroupsPartition(front);
    if j :| 0 <= j < n && Alike(traces[j], t) {
      assert front[j] in front;
      SameKeyMeansAlike(traces[j], t);
      var _ := FindSpec(groups, GroupKeyOf(traces[j]));
    }
    if g < |groups| {
      UnderMembers(front, groups[g].key);
      var x := groups[g].traces[0];
      assert x in groups[g].traces;
      var j :| 0 <= j < n && front[j] == x;
      SameKeyMeansAlike(traces[j], t);
    }
  }

  lemma FindSpec(groups: seq<Group>, key: GroupKey) returns (i: nat)
    ensures i == Find(groups, key) <= |groups| && (i < |groups| ==> groups[i].key == key)
  {
    i := Find(groups, key);
  }

  lemma {:induction false} HeadsPrefix(traces: seq<Trace>, n: nat)
    requires n <= |traces|
    ensures forall g :: g in Groups(traces[..n]) ==> g.traces != []
    ensures Heads(Groups(traces[..n])) == Selected(traces, StartsGroup(traces), n)
  {
    hide GroupKeyOf, Find, StartsGroup, Heads, AddTo;
    NoEmptyGroups(traces[..n]);
    if n == 0 {
      HeadsOf([], []);
    } else {
      assert Groups(traces[..n]) == AddTo(Groups(traces[..n - 1]), traces[n - 1]) by {
        assert traces[..n][..n - 1] == traces[..n - 1];
      }
      hide Groups;
      HeadsPrefix(traces, n - 1);
      StartsOrFound(traces, n - 1);
      AddedHead(Groups(traces[..n - 1]), traces[n - 1]);
    }
  }

  lemma AddedAt(groups: seq<Group>, t: Trace)
    requires forall g :: g in groups ==> g.traces != []
    ensures
      var all := AddTo(groups, t);
      && (|all| == if Find(groups, GroupKeyOf(t)) == |groups| then |groups| + 1 else |groups|)
      && (forall k :: 0 <= k < |all| ==>
            all[k].traces != [] && all[k].traces[0] == if k < |groups| then groups[k].traces[0] else t)
  {
    hide GroupKeyOf, Find;
    var i := FindSpec(groups, GroupKeyOf(t));
    if i < |groups| {
      assert groups[i] in groups;
    }
  }

  lemma HeadsOf(groups: seq<Group>, heads: seq<Trace>)
    requires |heads| == |groups|
    requires forall k :: 0 <= k < |groups| ==> groups[k].traces != [] && groups[k].traces[0] == heads[k]
    ensures forall g :: g in groups ==> g.traces != []
    ensures Heads(groups) == heads
  {
    forall k | 0 <= k < |groups|
      ensures Heads(groups)[k] == heads[k]
    {
    }
  }

  lemma AddedHead(groups: seq<Group>, t: Trace)
    requires forall g :: g in groups ==> g.traces != []
    ensures forall g :: g in AddTo(groups, t) ==> g.traces != []
    ensures Heads(AddTo(groups, t)) ==
            if Find(groups, GroupKeyOf(t)) == |groups| then Heads(groups) + [t] else Heads(groups)
  {
    hide GroupKeyOf, Find, AddTo;
    AddedAt(groups, t);
    var heads := if Find(groups, GroupKeyOf(t)) == |groups| then Heads(groups) + [t] else Heads(groups);
    HeadsOf(AddTo(groups, t), heads);
  }

  /** The groups, and so the overloads, stand in the order of the first trace of each, and each
      group holds exactly the traces that are alike to its first, in order. */
  lemma GroupsInOrder(traces: seq<Trace>)
    ensures forall g :: g in Groups(traces) ==> g.traces != []
    ensures Heads(Groups(traces)) == Selected(traces, StartsGroup(traces), |traces|)
    ensures forall g :: g in Groups(traces) ==> g.traces == Selected(traces, AlikeTo(traces, g.traces[0]), |traces|)
  {
    hide GroupKeyOf, Groups, Selected, StartsGroup, AlikeTo;
    HeadsPrefix(traces, |traces|);
    assert traces[..|traces|] == traces;
    GroupsPartition(traces);
    forall g | g in Groups(traces)
      ensures g.traces == Selected(traces, AlikeTo(traces, g.traces[0]), |traces|)
    {
      UnderMembers(traces, g.key);
      assert g.traces[0] in g.traces;
      UnderIsAlike(traces, g.traces[0], |traces|);
    }
  }

  /** Two traces are in one group if and only if they are alike. */
  lemma SameGroupIff(traces: seq<Trace>, a: Trace, b: Trace)
    requires a in traces && b in traces
    ensures (exists g :: g in Groups(traces) && a in g.traces && b in g.traces) <==> Alike(a, b)
  {
    hide GroupKeyOf, Groups, Alike;
    GroupsPartition(traces);
    SameKeyMeansAlike(a, b);
    if g :| g in Groups(traces) && a in g.traces && b in g.traces {
      UnderMembers(traces, g.key);
    }
    if Alike(a, b) {
      var i := Find(Groups(traces), GroupKeyOf(a));
      var g := Groups(traces)[i];
      UnderMembers(traces, g.key);
      assert g in Groups(traces) && a in g.traces && b in g.traces;
    }
  }

  // ---------------------------------------------------------------------------
  // Blocks

  ghost predicate WellFormedBlockTrace(b: BlockTrace) {
    WellFormed(b.selfType) && WellFormed(b.returnType) && forall p :: p in b.params ==> WellFormed(p.typeName)
  }

  ghost predicate WellFormedTrace(t: Trace) {
    WellFormed(t.returnType) && (forall p :: p in t.params ==> WellFormed(p.typeName))
    && (t.blockParam.Some? ==> forall b :: b in t.blockParam.value.traces ==> WellFormedBlockTrace(b))
  }

  function BlockTracesOf(blocks: seq<BlockParam>): seq<BlockTrace> {
    if blocks == [] then [] else BlockTracesOf(blocks[..|blocks| - 1]) + blocks[|blocks| - 1].traces
  }

  function ParamSets(traces: seq<BlockTrace>): seq<seq<Param>> {
    seq(|traces|, k requires 0 <= k < |traces| => traces[k].params)
  }

  function BlockReturns(traces: seq<BlockTrace>): seq<ConstantInstance> {
    seq(|traces|, k requires 0 <= k < |traces| => traces[k].returnType)
  }

  function BlockSelves(traces: seq<BlockTrace>): seq<ConstantInstance> {
    seq(|traces|, k requires 0 <= k < |traces| => traces[k].selfType)
  }

  ghost predicate WellFormedBlocks(blocks: seq<BlockParam>) {
    forall b :: b in BlockTracesOf(blocks) ==> WellFormedBlockTrace(b)
  }

  lemma BlockTypesAreWellFormed(traces: seq<BlockTrace>)
    requires traces != [] && forall b :: b in traces ==> WellFormedBlockTrace(b)
    ensures WellFormedSets(ParamSets(traces))
    ensures forall c :: c in BlockReturns(traces) || c in BlockSelves(traces) ==> WellFormed(c)
  {
    hide WellFormed;
    assert forall k :: 0 <= k < |traces| ==> WellFormedBlockTrace(traces[k]);
  }

  function BlockOf(arity: Arities, blocks: seq<BlockParam>): BlockType
    requires WellFormedBlocks(blocks)
  {
    var traces := BlockTracesOf(blocks);
    if traces == [] then BlockType(UntypedSignature, None, false)
    else
      BlockTypesAreWellFormed(traces);
      BlockType(
        Signature(ParametersOf(arity, ParamSets(traces)), ToRbs(arity, BlockReturns(traces))),
        Some(ToRbs(arity, BlockSelves(traces))), true)
  }

  method ToBlock(arity: Arities, blocks: seq<BlockParam>) returns (b: BlockType)
    requires WellFormedBlocks(blocks)
    ensures b == BlockOf(arity, blocks)
  {
    hide ToRbs, WellFormed;
    var required := false;
    var traces := [];
    for k := 0 to |blocks|
      invariant traces == BlockTracesOf(blocks[..k]) && required == (traces != [])
    {
      assert blocks[..k + 1][..k] == blocks[..k];
      required := required || blocks[k].traces != [];
      traces := traces + blocks[k].traces;
    }
    assert blocks[..|blocks|] == blocks;
    if traces == [] {
      return BlockType(UntypedSignature, None, required);
    }
    BlockTypesAreWellFormed(traces);
    var parameters := MethodParameters(arity, ParamSets(traces));
    var returnType := ToRbsType(arity, BlockReturns(traces));
    var selfType := ToRbsType(arity, BlockSelves(traces));
    b := BlockType(Signature(parameters, returnType), Some(selfType), required);
  }

  // ---------------------------------------------------------------------------
  // Overloads

  function BlocksOf(traces: seq<Trace>): seq<BlockParam> {
    if traces == [] then [] else
    BlocksOf(traces[..|traces| - 1])
    + match traces[|traces| - 1].blockParam case None => [] case Some(b) => [b]
  }

  lemma {:induction false} BlocksMembers(traces: seq<Trace>)
    ensures forall b :: b in BlocksOf(traces) <==> exists t :: t in traces && t.blockParam == Some(b)
  {
    if traces != [] {
      BlocksMembers(traces[..|traces| - 1]);
      assert traces == traces[..|traces| - 1] + [traces[|traces| - 1]];
      assert traces[|traces| - 1] in traces;
    }
  }

  lemma {:induction false} BlockTracesMembers(blocks: seq<BlockParam>)
    ensures forall t :: t in BlockTracesOf(blocks) <==> exists b :: b in blocks && t in b.traces
  {
    if blocks != [] {
      BlockTracesMembers(blocks[..|blocks| - 1]);
      assert blocks == blocks[..|blocks| - 1] + [blocks[|blocks| - 1]];
      assert blocks[|blocks| - 1] in blocks;
    }
  }

  lemma BlocksAreWellFormed(traces: seq<Trace>)
    requires WellFormedTraces(traces)
    ensures WellFormedBlocks(BlocksOf(traces))
  {
    hide WellFormedBlockTrace;
    BlocksMembers(traces);
    BlockTracesMembers(BlocksOf(traces));
  }

  function Returns(traces: seq<Trace>): seq<ConstantInstance> {
    seq(|traces|, k requires 0 <= k < |traces| => traces[k].returnType)
  }

  lemma ReturnsAreWellFormed(traces: seq<Trace>)
    requires WellFormedTraces(traces)
    ensures forall c :: c in Returns(traces) ==> WellFormed(c)
  {
    hide WellFormed;
    assert forall k :: 0 <= k < |traces| ==> WellFormedTrace(traces[k]);
  }

  function OverloadOf(arity: Arities, name: string, traces: seq<Trace>): Overload
    requires traces != [] && WellFormedTraces(traces)
  {
    assert WellFormedTrace(traces[0]);
    ReturnsAreWellFormed(traces);
    BlocksAreWellFormed(traces);
    Overload(
      ParametersOf(arity, [traces[0].params]),
      if name == "initialize" then None else Some(ToRbs(arity, Returns(traces))),
      if BlocksOf(traces) == [] then None else Some(BlockOf(arity, BlocksOf(traces))))
  }

  ghost predicate WellFormedTraces(traces: seq<Trace>) {
    forall t :: t in traces ==> WellFormedTrace(t)
  }

  lemma GroupsAreWellFormed(traces: seq<Trace>)
    requires WellFormedTraces(traces)
    ensures forall g :: g in Groups(traces) ==> g.traces != [] && WellFormedTraces(g.traces)
  {
    hide WellFormedTrace;
    GroupsPartition(traces);
    forall g | g in Groups(traces)
      ensures g.traces != [] && WellFormedTraces(g.traces)
    {
      UnderMembers(traces, g.key);
    }
  }

  function OverloadsOf(arity: Arities, name: string, traces: seq<Trace>): seq<Overload>
    requires WellFormedTraces(traces)
  {
    GroupsAreWellFormed(traces);
    var groups := Groups(traces);
    seq(|groups|, i requires 0 <= i < |groups| =>
      assert groups[i] in groups;
      OverloadOf(arity, name, groups[i].traces))
  }

  /** The type stands for what the traces returned, in the order in which it was returned first. */
  ghost predicate StandsForReturns(arity: Arities, t: RbsType, traces: seq<Trace>, idx: seq<nat>)
    requires WellFormedTraces(traces)
  {
    var types := if t.Union? then t.types else [t];
    && Ascending(idx, |traces|) && |idx| <= |types| <= |idx| + 1
    && (forall k :: 0 <= k < |idx| ==>
          && WellFormedTrace(traces[idx[k]])
          && types[k] == ToRbsOne(arity, traces[idx[k]].returnType)
          && forall j :: 0 <= j < idx[k] ==> traces[j].returnType != traces[idx[k]].returnType)
    && (|types| > |idx| ==> types[|idx|] == BoolType)
  }

  lemma ReturnsInOrder(arity: Arities, name: string, traces: seq<Trace>) returns (idx: seq<nat>)
    requires traces != [] && WellFormedTraces(traces) && name != "initialize"
    requires forall k :: 0 <= k < |traces| ==> traces[k].returnType.name != "bool"
    ensures
      var r := OverloadOf(arity, name, traces).returnType;
      r.Some? && StandsForReturns(arity, r.value, traces, idx)
  {
    hide BlockOf, BlocksOf, ParametersOf, ToRbs, WellFormed, ToRbsOne;
    ReturnsAreWellFormed(traces);
    idx := TypesStandInOrder(arity, Returns(traces));
    forall k | 0 <= k < |idx|
      ensures forall j :: 0 <= j < idx[k] ==> traces[j].returnType != traces[idx[k]].returnType
    {
      var front := Returns(traces)[..idx[k]];
      forall j | 0 <= j < idx[k]
        ensures traces[j].returnType != traces[idx[k]].returnType
      {
        assert front[j] in front;
      }
    }
  }

  /** Overloads stand in the order of the first trace of each. Each has the names of that trace's
      parameters, and what the traces alike to it returned, in order, or nothing for `initialize`. */
  lemma OverloadsInOrder(arity: Arities, name: string, traces: seq<Trace>, i: nat) returns (idx: seq<nat>)
    requires WellFormedTraces(traces) && i < |Selected(traces, StartsGroup(traces), |traces|)|
    requires forall t :: t in traces ==> t.returnType.name != "bool"
    ensures
      var heads := Selected(traces, StartsGroup(traces), |traces|);
      var alike := Selected(traces, AlikeTo(traces, heads[i]), |traces|);
      && |OverloadsOf(arity, name, traces)| == |heads| && WellFormedTraces(alike)
      && var o := OverloadsOf(arity, name, traces)[i];
         && HoldsNames(o.parameters, heads[i].params, |heads[i].params|)
         && (o.returnType == None <==> name == "initialize")
         && (name != "initialize" ==> StandsForReturns(arity, o.returnType.value, alike, idx))
  {
    hide Groups, Selected, StartsGroup, AlikeTo, BlockOf, BlocksOf, ParametersOf, StandsForReturns, ToRbs, WellFormed,
      HoldsNames, WellFormedTrace;
    GroupsInOrder(traces);
    GroupsAreWellFormed(traces);
    var group := Groups(traces)[i];
    assert group in Groups(traces);
    assert Heads(Groups(traces))[i] == group.traces[0];
    GroupsPartition(traces);
    FirstParametersAreNamed(arity, name, group.traces);
    idx := [];
    if name != "initialize" {
      forall k | 0 <= k < |group.traces|
        ensures group.traces[k] in traces
      {
        UnderMembers(traces, group.key);
        assert group.traces[k] in group.traces;
      }
      idx := ReturnsInOrder(arity, name, group.traces);
    }
  }

  lemma FirstParametersAreNamed(arity: Arities, name: string, traces: seq<Trace>)
    requires traces != [] && WellFormedTraces(traces)
    ensures HoldsNames(OverloadOf(arity, name, traces).parameters, traces[0].params, |traces[0].params|)
  {
    hide BlockOf, BlocksOf, ParametersOf, ToRbs, WellFormed, HoldsNames;
    assert WellFormedTrace(traces[0]);
    NamesAreWritten(arity, [traces[0].params]);
  }

  method ToOverloads(arity: Arities, name: string, traces: seq<Trace>) returns (overloads: seq<Overload>)
    requires WellFormedTraces(traces)
    ensures overloads == OverloadsOf(arity, name, traces)
  {
    hide WellFormedTrace, ToRbs, BlockOf, ParametersOf, Find, GroupKeyOf;
    var groups: seq<Group> := [];
    for k := 0 to |traces|
      invariant groups == Groups(traces[..k])
    {
      assert traces[..k + 1][..k] == traces[..k];
      var key := GroupKeyOf(traces[k]);
      var i := Find(groups, key);
      if i == |groups| {
        groups := groups + [Group(key, [])];
      }
      groups := groups[i := Group(key, groups[i].traces + [traces[k]])];
      assert [] + [traces[k]] == [traces[k]];
      assert groups == AddTo(Groups(traces[..k]), traces[k]);
    }
    assert traces[..|traces|] == traces;
    GroupsAreWellFormed(traces);
    overloads := [];
    for i := 0 to |groups|
      invariant overloads == OverloadsOf(arity, name, traces)[..i]
    {
      assert groups[i] in groups;
      var overload := ToOverload(arity, name, groups[i]);
      overloads := overloads + [overload];
    }
  }

  /** A method that the RBS environment already declares. */
  datatype DeclaredMethod = DeclaredMethod(owner: string, kind: MethodKind, name: string)

  datatype MethodDefinition = MethodDefinition(
    name: string, kind: MethodKind, overloads: seq<Overload>, overloading: bool, isPrivate: bool)

  /** Nothing is written for a method that its owner already declares; one that the class it was
      called on declares is overloaded; the last trace decides on the visibility. */
  method ToMethodDefinition(
      arity: Arities, declared: set<DeclaredMethod>, name: string, kind: MethodKind, traces: seq<Trace>)
    returns (definition: Option<MethodDefinition>)
    requires traces != [] && WellFormedTraces(traces)
    ensures definition == None <==> DeclaredMethod(traces[0].owner.name, kind, name) in declared
    ensures definition.Some? ==>
              && definition.value.name == name && definition.value.kind == kind
              && definition.value.overloads == OverloadsOf(arity, name, traces)
              && (definition.value.overloading <==>
                    traces[0].callee.Some? && DeclaredMethod(traces[0].callee.value.name, kind, name) in declared)
              && (definition.value.isPrivate <==> traces[|traces| - 1].visibility == Private)
  {
    hide OverloadsOf;
    if DeclaredMethod(traces[0].owner.name, kind, name) in declared {
      return None;
    }
    var overloading := false;
    if traces[0].callee.Some? {
      overloading := DeclaredMethod(traces[0].callee.value.name, kind, name) in declared;
    }
    var visibility := traces[|traces| - 1].visibility;
    var overloads := ToOverloads(arity, name, traces);
    definition := Some(MethodDefinition(name, kind, overloads, overloading, visibility == Private));
  }

  method ToOverload(arity: Arities, name: string, group: Group) returns (overload: Overload)
    requires group.traces != [] && WellFormedTraces(group.traces)
    ensures overload == OverloadOf(arity, name, group.traces)
  {
    hide ToRbs, WellFormed, BlockOf;
    assert WellFormedTrace(group.traces[0]);
    ReturnsAreWellFormed(group.traces);
    BlocksAreWellFormed(group.traces);
    var blocks := BlocksOf(group.traces);
    var parameters := MethodParameters(arity, [group.traces[0].params]);
    var returnType := None;
    if name != "initialize" {
      var t := ToRbsType(arity, Returns(group.traces));
      returnType := Some(t);
    }
    var block := None;
    if blocks != [] {
      var b := ToBlock(arity, blocks);
      block := Some(b);
    }
    overload := Overload(parameters, returnType, block);
  }
}
