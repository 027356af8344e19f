/** The two halves of the wire format as the programs run them: the worker appends to one
    shared array, the agent shifts tokens off the front of one. */
module Wire {
  import opened Traces
  import opened Codec

  class TokenArray {
    var tokens: seq<Token>

    constructor (tokens: seq<Token>)
      ensures this.tokens == tokens
    {
      this.tokens := tokens;
    }

    method Add(t: Token)
      modifies this
      ensures tokens == old(tokens) + [t]
    {
      tokens := tokens + [t];
    }

    /** Ruby's `shift`: nil on an empty array. */
    method Shift() returns (t: Option<Token>)
      modifies this
      ensures old(tokens) == [] ==> t == None && tokens == []
      ensures old(tokens) != [] ==> t == Some(old(tokens)[0]) && tokens == old(tokens)[1..]
    {
      if tokens == [] {
        t := None;
      } else {
        t := Some(tokens[0]);
        tokens := tokens[1..];
      }
    }
  }

  // ---------------------------------------------------------------------------
  // The worker's writers

  /** Moving a written part from what is still to come to what has been written. */
  lemma Advance(sofar: seq<Token>, part: seq<Token>, more: seq<Token>, later: seq<Token>)
    ensures (sofar + part) + (more + later) == sofar + ((part + more) + later)
  {
  }

  lemma ArgumentsFrom(arguments: seq<Argument>, i: nat)
    requires i < |arguments|
    ensures EncArguments(arguments[i..])
         == [Int(|arguments[i].members|)] + EncUnion(arguments[i].members) + EncArguments(arguments[i + 1..])
  {
    assert arguments[i..][1..] == arguments[i + 1..];
  }

  lemma UnionFrom(members: seq<ConstantInstance>, j: nat)
    requires j < |members|
    ensures EncUnion(members[j..]) == EncInstance(members[j]) + EncUnion(members[j + 1..])
  {
    assert members[j..][1..] == members[j + 1..];
  }

  lemma BlockTracesFrom(traces: seq<BlockTrace>, i: nat)
    requires i < |traces|
    ensures EncBlockTraces(traces[i..]) == EncBlockTrace(traces[i]) + EncBlockTraces(traces[i + 1..])
  {
    hide EncBlockTrace;
    assert traces[i..][1..] == traces[i + 1..];
  }

  lemma NoBlockTraces()
    ensures EncBlockTraces([]) == []
  {
  }

  method WriteNames(json: TokenArray, names: seq<string>)
    modifies json
    ensures json.tokens == old(json.tokens) + EncCountedNames(names)
  {
    json.Add(Int(|names|));
    for i := 0 to |names|
      invariant json.tokens + EncNames(names[i..]) == old(json.tokens) + EncCountedNames(names)
    {
      json.Add(Str(names[i]));
    }
  }

  method WriteConstant(json: TokenArray, constant: Constant)
    modifies json
    ensures json.tokens == old(json.tokens) + EncConstant(constant)
  {
    json.Add(Str(constant.name));
    json.Add(Bool(constant.anonymous));
    json.Add(Int(ClassKindOrdinal(constant.kind)));
    match constant.superclass {
      case Some(name) => json.Add(Str(name));
      case None => json.Add(Null);
    }
    assert json.tokens == old(json.tokens) + EncConstantHeader(constant);
    WriteNames(json, constant.includedModules);
    WriteNames(json, constant.prependedModules);
    WriteNames(json, constant.extendedModules);
    Reassociate(old(json.tokens), EncConstantHeader(constant), EncCountedNames(constant.includedModules),
                EncCountedNames(constant.prependedModules), EncCountedNames(constant.extendedModules));
    Reassociate([], EncConstantHeader(constant), EncCountedNames(constant.includedModules),
                EncCountedNames(constant.prependedModules), EncCountedNames(constant.extendedModules));
  }

  method WriteConstantInstance(json: TokenArray, instance: ConstantInstance)
    modifies json
    ensures json.tokens == old(json.tokens) + EncInstance(instance)
    decreases instance
  {
    var arguments := instance.genericArguments;
    json.Add(Str(instance.name));
    json.Add(Bool(instance.singleton));
    json.Add(Int(|arguments|));
    ghost var all := old(json.tokens) + EncInstance(instance);
    assert json.tokens + EncArguments(arguments) == all;
    for i := 0 to |arguments|
      invariant json.tokens + EncArguments(arguments[i..]) == all
    {
      var members := arguments[i].members;
      ghost var before := json.tokens;
      ghost var later := EncArguments(arguments[i + 1..]);
      ArgumentsFrom(arguments, i);
      json.Add(Int(|members|));
      Advance(before, [Int(|members|)], EncUnion(members), later);
      for j := 0 to |members|
        invariant json.tokens + (EncUnion(members[j..]) + later) == all
      {
        ghost var sofar := json.tokens;
        UnionFrom(members, j);
        Advance(sofar, EncInstance(members[j]), EncUnion(members[j + 1..]), later);
        WriteConstantInstance(json, members[j]);
      }
      assert EncUnion(members[|members|..]) + later == later;
    }
  }

  method WriteParamList(json: TokenArray, params: seq<Param>)
    modifies json
    ensures json.tokens == old(json.tokens) + EncParamList(params)
  {
    hide EncInstance;
    for i := 0 to |params|
      invariant json.tokens + EncParamList(params[i..]) == old(json.tokens) + EncParamList(params)
    {
      ghost var sofar := json.tokens;
      assert params[i..][1..] == params[i + 1..];
      json.Add(EncOptionalName(params[i].name));
      json.Add(Int(ParamKindOrdinal(params[i].kind)));
      WriteConstantInstance(json, params[i].typeName);
      assert json.tokens == sofar + EncParam(params[i]);
      Advance(sofar, EncParam(params[i]), EncParamList(params[i + 1..]), []);
    }
  }

  method WriteBlockTraces(json: TokenArray, traces: seq<BlockTrace>)
    modifies json
    ensures json.tokens == old(json.tokens) + EncBlockTraces(traces)
    decreases traces, 3
  {
    hide EncBlockTraces, EncBlockTrace;
    for i := 0 to |traces|
      invariant json.tokens + EncBlockTraces(traces[i..]) == old(json.tokens) + EncBlockTraces(traces)
    {
      ghost var before := json.tokens;
      BlockTracesFrom(traces, i);
      WriteBlockTrace(json, traces[i]);
      Advance(before, EncBlockTrace(traces[i]), EncBlockTraces(traces[i + 1..]), []);
    }
    assert traces[|traces|..] == [];
    NoBlockTraces();
  }

  method WriteParams(json: TokenArray, params: seq<Param>, blockParam: Option<BlockParam>)
    modifies json
    ensures json.tokens == old(json.tokens) + EncParams(params, blockParam)
    decreases blockParam, 1
  {
    hide EncParamList, EncBlockTraces;
    json.Add(Int(|params|));
    WriteParamList(json, params);
    ghost var sofar := json.tokens;
    json.Add(Bool(blockParam.Some?));
    match blockParam {
      case None =>
      case Some(block) =>
        json.Add(EncOptionalName(block.name));
        json.Add(Int(|block.traces|));
        WriteBlockTraces(json, block.traces);
    }
    assert json.tokens == sofar + EncBlockParam(blockParam);
    Advance(old(json.tokens), [Int(|params|)], EncParamList(params), EncBlockParam(blockParam));
  }

  method WriteBlockTrace(json: TokenArray, trace: BlockTrace)
    modifies json
    ensures json.tokens == old(json.tokens) + EncBlockTrace(trace)
    decreases trace, 2
  {
    WriteConstantInstance(json, trace.selfType);
    WriteConstantInstance(json, trace.returnType);
    WriteParams(json, trace.params, trace.blockParam);
  }

  method WriteConstantUpdates(json: TokenArray, constants: seq<Constant>)
    modifies json
    ensures json.tokens == old(json.tokens) + EncUpdates(constants)
  {
    hide EncConstant;
    json.Add(Int(|constants|));
    for i := 0 to |constants|
      invariant json.tokens + EncConstants(constants[i..]) == old(json.tokens) + EncUpdates(constants)
    {
      ghost var sofar := json.tokens;
      assert constants[i..][1..] == constants[i + 1..];
      WriteConstant(json, constants[i]);
      Advance(sofar, EncConstant(constants[i]), EncConstants(constants[i + 1..]), []);
    }
  }

  /** The body of the worker loop up to the array it serialises. */
  method WriteTrace(trace: Trace) returns (json: TokenArray)
    ensures fresh(json)
    ensures json.tokens == EncTrace(trace)
  {
    json := new TokenArray([]);
    json.Add(Str(trace.methodName));
    json.Add(Int(MethodKindOrdinal(trace.methodKind)));
    json.Add(Int(VisibilityOrdinal(trace.visibility)));
    assert json.tokens == EncTraceHeader(trace);
    WriteConstantInstance(json, trace.returnType);
    WriteConstantInstance(json, trace.owner);
    match trace.callee {
      case Some(callee) => WriteConstantInstance(json, callee);
      case None => json.Add(Null);
    }
    WriteConstantUpdates(json, trace.constantUpdates);
    WriteParams(json, trace.params, trace.blockParam);
  }

  // ---------------------------------------------------------------------------
  // The agent's readers

  /** A reader's outcome against the decoding function: raising is `None`. */
  ghost predicate Agrees<T(!new)>(p: Parsed<T>, r: Option<T>, left: seq<Token>) {
    match p
    case Malformed => r.None?
    case Parsed(value, rest) => r == Some(value) && left == rest
  }

  function Prepend<T>(done: seq<T>, p: Parsed<seq<T>>): (r: Parsed<seq<T>>)
    ensures done == [] ==> r == p
    ensures p.Parsed? && p.value == [] ==> r == Parsed(done, p.rest)
  {
    match p
    case Malformed => Malformed
    case Parsed(value, rest) =>
      assert [] + value == value && done + [] == done;
      Parsed(done + value, rest)
  }

  lemma PrependOneMore<T>(done: seq<T>, x: T, p: Parsed<seq<T>>)
    ensures Prepend(done, Prepend([x], p)) == Prepend(done + [x], p)
  {
    if p.Parsed? {
      assert done + ([x] + p.value) == done + [x] + p.value;
    }
  }

  method ShiftString(data: TokenArray) returns (r: Option<string>)
    modifies data
    ensures Agrees(DecString(old(data.tokens)), r, data.tokens)
  {
    var t := data.Shift();
    r := if t.Some? && t.value.Str? then Some(t.value.s) else None;
  }

  method ShiftOptionalName(data: TokenArray) returns (r: Option<Option<string>>)
    modifies data
    ensures Agrees(DecOptionalName(old(data.tokens)), r, data.tokens)
  {
    var t := data.Shift();
    r := if t.Some? && t.value.Str? then Some(Some(t.value.s))
         else if t.Some? && t.value.Null? then Some(None) else None;
  }

  method ShiftBool(data: TokenArray) returns (r: Option<bool>)
    modifies data
    ensures Agrees(DecBool(old(data.tokens)), r, data.tokens)
  {
    var t := data.Shift();
    r := if t.Some? && t.value.Bool? then Some(t.value.b) else None;
  }

  method ShiftInt(data: TokenArray) returns (r: Option<int>)
    modifies data
    ensures Agrees(DecInt(old(data.tokens)), r, data.tokens)
  {
    var t := data.Shift();
    r := if t.Some? && t.value.Int? then Some(t.value.n) else None;
  }

  method ShiftNames(data: TokenArray) returns (r: Option<seq<string>>)
    modifies data
    ensures Agrees(DecCountedNames(old(data.tokens)), r, data.tokens)
  {
    var count := ShiftInt(data);
    if count.None? { return None; }
    var names: seq<string> := [];
    var i := 0;
    while i < count.value
      invariant DecCountedNames(old(data.tokens)) == Prepend(names, DecNames(count.value - i, data.tokens))
      decreases count.value - i
    {
      var name := ShiftString(data);
      if name.None? { return None; }
      PrependOneMore(names, name.value, DecNames(count.value - i - 1, data.tokens));
      names := names + [name.value];
      i := i + 1;
    }
    r := Some(names);
  }

  method ShiftConstant(data: TokenArray) returns (r: Option<Constant>)
    modifies data
    ensures Agrees(DecConstant(old(data.tokens)), r, data.tokens)
    ensures r.Some? ==> |data.tokens| < |old(data.tokens)|
  {
    hide DecCountedNames, DecNames;
    var name := ShiftString(data);
    if name.None? { return None; }
    var anonymous := ShiftBool(data);
    if anonymous.None? { return None; }
    var kind := ShiftInt(data);
    if kind.None? { return None; }
    var superclass := ShiftOptionalName(data);
    if superclass.None? { return None; }
    ghost var lists := data.tokens;
    var includedModules := ShiftNames(data);
    if includedModules.None? { return None; }
    var prependedModules := ShiftNames(data);
    if prependedModules.None? { return None; }
    var extendedModules := ShiftNames(data);
    if extendedModules.None? { return None; }
    var k := Fetch(CONSTANT_TYPES, kind.value);
    if k.None? { return None; }
    assert DecConstantHeader(old(data.tokens))
        == Parsed((name.value, anonymous.value, k.value, superclass.value), lists);
    r := Some(Constant(name.value, anonymous.value, k.value, superclass.value,
                       includedModules.value, prependedModules.value, extendedModules.value));
  }

  method ShiftConstantUpdates(data: TokenArray) returns (r: Option<seq<Constant>>)
    modifies data
    ensures Agrees(DecUpdates(old(data.tokens)), r, data.tokens)
  {
    hide DecConstant, DecCountedNames, DecNames;
    var count := ShiftInt(data);
    if count.None? { return None; }
    var constants: seq<Constant> := [];
    var i := 0;
    while i < count.value
      invariant DecUpdates(old(data.tokens)) == Prepend(constants, DecConstants(count.value - i, data.tokens))
      decreases count.value - i
    {
      var constant := ShiftConstant(data);
      if constant.None? { return None; }
      PrependOneMore(constants, constant.value, DecConstants(count.value - i - 1, data.tokens));
      constants := constants + [constant.value];
      i := i + 1;
    }
    r := Some(constants);
  }

  method ShiftConstantInstance(data: TokenArray) returns (r: Option<ConstantInstance>)
    modifies data
    ensures Agrees(DecInstance(old(data.tokens)), r, data.tokens)
    decreases |data.tokens|, 0
  {
    var name := ShiftString(data);
    if name.None? { return None; }
    var singleton := ShiftBool(data);
    if singleton.None? { return None; }
    var count := ShiftInt(data);
    if count.None? { return None; }
    ghost var start := data.tokens;
    var arguments: seq<Argument> := [];
    var i := 0;
    while i < count.value
      invariant |data.tokens| <= |start|
      invariant DecArguments(count.value, start) == Prepend(arguments, DecArguments(count.value - i, data.tokens))
      decreases count.value - i
    {
      var size := ShiftInt(data);
      if size.None? { return None; }
      var members := ShiftUnion(data, size.value);
      if members.None? { return None; }
      PrependOneMore(arguments, Argument(members.value), DecArguments(count.value - i - 1, data.tokens));
      arguments := arguments + [Argument(members.value)];
      i := i + 1;
    }
    r := Some(ConstantInstance(name.value, singleton.value, arguments));
  }

  method ShiftUnion(data: TokenArray, size: int) returns (r: Option<seq<ConstantInstance>>)
    modifies data
    ensures Agrees(DecUnion(size, old(data.tokens)), r, data.tokens)
    decreases |data.tokens|, 1
  {
    var members: seq<ConstantInstance> := [];
    var j := 0;
    while j < size
      invariant |data.tokens| <= |old(data.tokens)|
      invariant DecUnion(size, old(data.tokens)) == Prepend(members, DecUnion(size - j, data.tokens))
      decreases size - j
    {
      var member := ShiftConstantInstance(data);
      if member.None? { return None; }
      PrependOneMore(members, member.value, DecUnion(size - j - 1, data.tokens));
      members := members + [member.value];
      j := j + 1;
    }
    r := Some(members);
  }

  method ShiftParam(data: TokenArray) returns (r: Option<Param>)
    modifies data
    ensures Agrees(DecParam(old(data.tokens)), r, data.tokens)
  {
    var name := ShiftOptionalName(data);
    if name.None? { return None; }
    var kind := ShiftInt(data);
    if kind.None? { return None; }
    var typeName := ShiftConstantInstance(data);
    if typeName.None? { return None; }
    r := Some(Param(name.value, FetchOrFirst(PARAM_TYPES, kind.value), typeName.value));
  }

  method ShiftParamList(data: TokenArray, size: int) returns (r: Option<seq<Param>>)
    modifies data
    ensures Agrees(DecParamList(size, old(data.tokens)), r, data.tokens)
  {
    var params: seq<Param> := [];
    var i := 0;
    while i < size
      invariant DecParamList(size, old(data.tokens)) == Prepend(params, DecParamList(size - i, data.tokens))
      decreases size - i
    {
      var param := ShiftParam(data);
      if param.None? { return None; }
      PrependOneMore(params, param.value, DecParamList(size - i - 1, data.tokens));
      params := params + [param.value];
      i := i + 1;
    }
    r := Some(params);
  }

  method ShiftParams(data: TokenArray) returns (r: Option<(seq<Param>, Option<BlockParam>)>)
    modifies data
    ensures Agrees(DecParams(old(data.tokens)), r, data.tokens)
    decreases |data.tokens|, 2
  {
    var count := ShiftInt(data);
    if count.None? { return None; }
    var params := ShiftParamList(data, count.value);
    if params.None? { return None; }
    var blockParam := ShiftBlockParam(data);
    if blockParam.None? { return None; }
    r := Some((params.value, blockParam.value));
  }

  method ShiftBlockParam(data: TokenArray) returns (r: Option<Option<BlockParam>>)
    modifies data
    ensures Agrees(DecBlockParam(old(data.tokens)), r, data.tokens)
    decreases |data.tokens|, 1
  {
    hide DecBlockTrace, DecParams, DecInstance;
    var present := data.Shift();
    if present.None? || present.value == Null || present.value == Bool(false) {
      return Some(None);
    }
    var name := ShiftOptionalName(data);
    if name.None? { return None; }
    var count := ShiftInt(data);
    if count.None? { return None; }
    ghost var start := data.tokens;
    var traces: seq<BlockTrace> := [];
    var j := 0;
    while j < count.value
      invariant |data.tokens| <= |start|
      invariant DecBlockTraces(count.value, start)
             == Prepend(traces, DecBlockTraces(count.value - j, data.tokens))
      decreases count.value - j
    {
      var trace := ShiftBlockTrace(data);
      if trace.None? { return None; }
      PrependOneMore(traces, trace.value, DecBlockTraces(count.value - j - 1, data.tokens));
      traces := traces + [trace.value];
      j := j + 1;
    }
    r := Some(Some(BlockParam(name.value, traces)));
  }

  method ShiftBlockTrace(data: TokenArray) returns (r: Option<BlockTrace>)
    modifies data
    ensures Agrees(DecBlockTrace(old(data.tokens)), r, data.tokens)
    decreases |data.tokens|, 0
  {
    var selfType := ShiftConstantInstance(data);
    if selfType.None? { return None; }
    var returnType := ShiftConstantInstance(data);
    if returnType.None? { return None; }
    var params := ShiftParams(data);
    if params.None? { return None; }
    r := Some(BlockTrace(selfType.value, returnType.value, params.value.0, params.value.1));
  }

  /** The agent's decoding of one parsed message; `warned` says whether tokens were left over. */
  method ReadTrace(data: TokenArray) returns (r: Option<Trace>, warned: bool)
    modifies data
    ensures Agrees(DecTrace(old(data.tokens)), r, data.tokens)
    ensures r.Some? ==> warned == (data.tokens != [])
  {
    warned := false;
    var methodName := ShiftString(data);
    if methodName.None? { return None, warned; }
    var methodKind := ShiftInt(data);
    if methodKind.None? { return None, warned; }
    var visibility := ShiftInt(data);
    if visibility.None? { return None, warned; }
    ghost var start := data.tokens;
    assert DecTraceHeader(old(data.tokens))
        == Parsed((methodName.value, FetchOrFirst(KINDS, methodKind.value),
                   FetchOrFirst(VISIBILITIES, visibility.value)), start);
    var returnType := ShiftConstantInstance(data);
    if returnType.None? { return None, warned; }
    var owner := ShiftConstantInstance(data);
    if owner.None? { return None, warned; }
    var callee: Option<ConstantInstance> := None;
    ghost var calleeStart := data.tokens;
    if data.tokens != [] && data.tokens[0] != Null && data.tokens[0] != Bool(false) {
      callee := ShiftConstantInstance(data);
      if callee.None? { return None, warned; }
    } else {
      var _ := data.Shift();
    }
    assert DecCallee(calleeStart) == Parsed(callee, data.tokens);
    var constantUpdates := ShiftConstantUpdates(data);
    if constantUpdates.None? { return None, warned; }
    var params := ShiftParams(data);
    if params.None? { return None, warned; }
    warned := data.tokens != [];
    r := Some(Trace(methodName.value, FetchOrFirst(KINDS, methodKind.value),
                    FetchOrFirst(VISIBILITIES, visibility.value), returnType.value, owner.value, callee,
                    constantUpdates.value, params.value.0, params.value.1));
  }

  /** What one program writes the other reads back, with nothing left over and no warning. */
  method SendAndReceive(trace: Trace) returns (received: Option<Trace>, warned: bool)
    ensures received == Some(trace) && !warned
  {
    var json := WriteTrace(trace);
    TraceRoundTrip(trace, []);
    assert json.tokens + [] == json.tokens;
    received, warned := ReadTrace(json);
  }
}
