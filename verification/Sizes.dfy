/** The sizes the worker predicts for the arrays it allocates, against what its writers append. */
module Sizes {
  import opened Traces
  import opened Codec

  // ---------------------------------------------------------------------------
  // Exact predictions

  /** The prediction is exact: what is written for a constant has as many tokens. */
  method SizeOfConstant(constant: Constant) returns (size: int)
    ensures size == |EncConstant(constant)|
  {
    size := 7 + |constant.includedModules| + |constant.prependedModules| + |constant.extendedModules|;
  }

  method SizeOfConstantUpdates(constants: seq<Constant>) returns (size: int)
    ensures size == |EncUpdates(constants)|
  {
    hide EncConstant;
    size := 1;
    for i := 0 to |constants|
      invariant size + |EncConstants(constants[i..])| == |EncUpdates(constants)|
    {
      assert constants[i..][1..] == constants[i + 1..];
      var part := SizeOfConstant(constants[i]);
      size := size + part;
    }
  }

  method SizeOfConstantInstance(instance: ConstantInstance) returns (size: int)
    ensures size == |EncInstance(instance)|
    decreases instance
  {
    var arguments := instance.genericArguments;
    size := 3 + |arguments|;
    ghost var all := |EncInstance(instance)|;
    for i := 0 to |arguments|
      invariant size + |EncArguments(arguments[i..])| == all + |arguments| - i
    {
      var members := arguments[i].members;
      ghost var later := |EncArguments(arguments[i + 1..])|;
      assert arguments[i..][1..] == arguments[i + 1..];
      for j := 0 to |members|
        invariant size + |EncUnion(members[j..])| + later == all + |arguments| - i - 1
      {
        assert members[j..][1..] == members[j + 1..];
        var part := SizeOfConstantInstance(members[j]);
        size := size + part;
      }
    }
  }

  // ---------------------------------------------------------------------------
  // Predictions that fall short: an instance has three tokens at least, the parameters and the
  // two types of a block trace are counted with fewer

  function ParamsSize(params: seq<Param>, block: Option<BlockParam>): int
    decreases block, 1
  {
    2 + |params| * 3 + match block case None => 0 case Some(b) => 2 + BlockTracesSize(b.traces)
  }

  function BlockTracesSize(traces: seq<BlockTrace>): int
    decreases traces, 0
  {
    if traces == [] then 0 else BlockTraceSize(traces[0]) + BlockTracesSize(traces[1..])
  }

  function BlockTraceSize(trace: BlockTrace): int
    decreases trace, 2
  {
    2 + ParamsSize(trace.params, trace.blockParam)
  }

  method SizeOfParams(params: seq<Param>, block: Option<BlockParam>) returns (size: int)
    ensures size == ParamsSize(params, block)
    decreases block, 1
  {
    size := 2 + |params| * 3;
    if block.Some? {
      var traces := block.value.traces;
      size := size + 2;
      for i := 0 to |traces|
        invariant size + BlockTracesSize(traces[i..]) == ParamsSize(params, block)
      {
        assert traces[i..][1..] == traces[i + 1..];
        var part := SizeOfBlockTrace(traces[i]);
        size := size + part;
      }
    }
  }

  method SizeOfBlockTrace(trace: BlockTrace) returns (size: int)
    ensures size == BlockTraceSize(trace)
    decreases trace, 2
  {
    size := SizeOfParams(trace.params, trace.blockParam);
    size := 2 + size;
  }

  /** Neither a parameter nor a block trace is written. */
  predicate NoneWritten(params: seq<Param>, block: Option<BlockParam>) {
    params == [] && (block.Some? ==> block.value.traces == [])
  }

  lemma InstanceTakesThree(c: ConstantInstance)
    ensures |EncInstance(c)| >= 3
  {
  }

  lemma {:induction false} ParamListTakesMore(params: seq<Param>)
    ensures |EncParamList(params)| >= 5 * |params|
  {
    hide EncInstance;
    if params != [] {
      InstanceTakesThree(params[0].typeName);
      ParamListTakesMore(params[1..]);
    }
  }

  /** The prediction is never above what is written, and exact only for nothing but counts. */
  lemma {:induction false} ParamsFallShort(params: seq<Param>, block: Option<BlockParam>)
    ensures ParamsSize(params, block) <= |EncParams(params, block)|
    ensures ParamsSize(params, block) == |EncParams(params, block)| <==> NoneWritten(params, block)
    decreases block, 1
  {
    hide EncParamList;
    ParamListTakesMore(params);
    if params == [] {
      NoParams();
    }
    if block.Some? {
      BlockTracesFallShort(block.value.traces);
    }
  }

  lemma NoParams()
    ensures EncParamList([]) == []
  {
  }

  lemma {:induction false} BlockTracesFallShort(traces: seq<BlockTrace>)
    ensures BlockTracesSize(traces) + 4 * |traces| <= |EncBlockTraces(traces)|
    ensures traces == [] ==> BlockTracesSize(traces) == |EncBlockTraces(traces)|
    decreases traces, 0
  {
    hide EncBlockTrace, BlockTraceSize;
    if traces != [] {
      BlockTraceFallsShort(traces[0]);
      BlockTracesFallShort(traces[1..]);
    }
  }

  lemma {:induction false} BlockTraceFallsShort(trace: BlockTrace)
    ensures BlockTraceSize(trace) + 4 <= |EncBlockTrace(trace)|
    decreases trace, 2
  {
    hide EncInstance, EncParams, ParamsSize;
    InstanceTakesThree(trace.selfType);
    InstanceTakesThree(trace.returnType);
    ParamsFallShort(trace.params, trace.blockParam);
  }

  /** The array a message starts with is always too small, by exactly one token if the trace has
      neither parameters nor block traces and by more otherwise. */
  method SizeOfTrace(trace: Trace) returns (size: int)
    ensures size < |EncTrace(trace)|
    ensures size == |EncTrace(trace)| - 1 <==> NoneWritten(trace.params, trace.blockParam)
  {
    hide EncInstance, EncParams, EncUpdates, ParamsSize;
    var returned := SizeOfConstantInstance(trace.returnType);
    var owner := SizeOfConstantInstance(trace.owner);
    var params := SizeOfParams(trace.params, trace.blockParam);
    var updates := SizeOfConstantUpdates(trace.constantUpdates);
    size := 2 + returned + owner + params + updates;
    match trace.callee {
      case Some(callee) =>
        var part := SizeOfConstantInstance(callee);
        size := size + part;
      case None => size := size + 1;
    }
    ParamsFallShort(trace.params, trace.blockParam);
  }
}
