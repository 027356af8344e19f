/** Equality of records as the Ruby classes define it, field by field through nested generics
    and blocks. */
module Equality {
  import opened Traces

  predicate SameInstance(a: ConstantInstance, b: ConstantInstance)
    decreases a
  {
    b.name == a.name && SameArguments(a.genericArguments, b.genericArguments) && b.singleton == a.singleton
  }

  predicate SameArguments(a: seq<Argument>, b: seq<Argument>)
    decreases a
  {
    |a| == |b| && (a == [] || (SameInstances(a[0].members, b[0].members) && SameArguments(a[1..], b[1..])))
  }

  predicate SameInstances(a: seq<ConstantInstance>, b: seq<ConstantInstance>)
    decreases a
  {
    |a| == |b| && (a == [] || (SameInstance(a[0], b[0]) && SameInstances(a[1..], b[1..])))
  }

  predicate SameParam(a: Param, b: Param) {
    b.name == a.name && SameInstance(b.typeName, a.typeName) && b.kind == a.kind
  }

  predicate SameParams(a: seq<Param>, b: seq<Param>)
    decreases a
  {
    |a| == |b| && (a == [] || (SameParam(a[0], b[0]) && SameParams(a[1..], b[1..])))
  }

  predicate SameBlockParam(a: Option<BlockParam>, b: Option<BlockParam>)
    decreases a
  {
    match a
    case None => b.None?
    case Some(block) => b.Some? && block.name == b.value.name && SameBlockTraces(block.traces, b.value.traces)
  }

  predicate SameBlockTraces(a: seq<BlockTrace>, b: seq<BlockTrace>)
    decreases a
  {
    |a| == |b| && (a == [] || (SameBlockTrace(a[0], b[0]) && SameBlockTraces(a[1..], b[1..])))
  }

  predicate SameBlockTrace(a: BlockTrace, b: BlockTrace)
    decreases a
  {
    SameInstance(a.returnType, b.returnType) && SameParams(a.params, b.params)
    && SameBlockParam(a.blockParam, b.blockParam) && SameInstance(a.selfType, b.selfType)
  }

  lemma {:induction false} InstanceEquality(a: ConstantInstance, b: ConstantInstance)
    ensures SameInstance(a, b) <==> a == b
    decreases a
  {
    ArgumentsEquality(a.genericArguments, b.genericArguments);
  }

  lemma {:induction false} ArgumentsEquality(a: seq<Argument>, b: seq<Argument>)
    ensures SameArguments(a, b) <==> a == b
    decreases a
  {
    if a != [] && b != [] {
      InstancesEquality(a[0].members, b[0].members);
      ArgumentsEquality(a[1..], b[1..]);
      assert a == [a[0]] + a[1..] && b == [b[0]] + b[1..];
    }
  }

  lemma {:induction false} InstancesEquality(a: seq<ConstantInstance>, b: seq<ConstantInstance>)
    ensures SameInstances(a, b) <==> a == b
    decreases a
  {
    if a != [] && b != [] {
      InstanceEquality(a[0], b[0]);
      InstancesEquality(a[1..], b[1..]);
      assert a == [a[0]] + a[1..] && b == [b[0]] + b[1..];
    }
  }

  lemma {:induction false} ParamsEquality(a: seq<Param>, b: seq<Param>)
    ensures SameParams(a, b) <==> a == b
    decreases a
  {
    if a != [] && b != [] {
      InstanceEquality(b[0].typeName, a[0].typeName);
      ParamsEquality(a[1..], b[1..]);
      assert a == [a[0]] + a[1..] && b == [b[0]] + b[1..];
    }
  }

  /** Equality of blocks is structural, whatever is nested in them. */
  lemma {:induction false} BlockParamEquality(a: Option<BlockParam>, b: Option<BlockParam>)
    ensures SameBlockParam(a, b) <==> a == b
    decreases a
  {
    if a.Some? && b.Some? {
      BlockTracesEquality(a.value.traces, b.value.traces);
    }
  }

  lemma {:induction false} BlockTracesEquality(a: seq<BlockTrace>, b: seq<BlockTrace>)
    ensures SameBlockTraces(a, b) <==> a == b
    decreases a
  {
    if a != [] && b != [] {
      BlockTraceEquality(a[0], b[0]);
      BlockTracesEquality(a[1..], b[1..]);
      assert a == [a[0]] + a[1..] && b == [b[0]] + b[1..];
    }
  }

  lemma {:induction false} BlockTraceEquality(a: BlockTrace, b: BlockTrace)
    ensures SameBlockTrace(a, b) <==> a == b
    decreases a
  {
    InstanceEquality(a.returnType, b.returnType);
    InstanceEquality(a.selfType, b.selfType);
    ParamsEquality(a.params, b.params);
    BlockParamEquality(a.blockParam, b.blockParam);
  }
}
