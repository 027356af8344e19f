/** The flat token array a trace is sent as: what the worker appends for each record and
    what the agent reads back from the front of the array. */
module Codec {
  import opened Traces

  datatype Token = Null | Bool(b: bool) | Int(n: int) | Str(s: string)

  /** The outcome of reading a record: the value and the tokens behind it, or `Malformed`
      where the reader raises (or finds a token of another type). */
  datatype Parsed<+T> = Malformed | Parsed(value: T, rest: seq<Token>) {
    predicate IsFailure() { Malformed? }

    function PropagateFailure<U>(): Parsed<U>
      requires Malformed?
    {
      Malformed
    }

    function Extract(): (T, seq<Token>)
      requires Parsed?
    {
      (value, rest)
    }
  }

  // ---------------------------------------------------------------------------
  // Enumerations: the C++ ordinals and the Ruby tables they index

  function ParamKindOrdinal(k: ParamKind): int {
    match k
    case Required => 0
    case Optional => 1
    case Rest => 2
    case KeywordRequired => 3
    case KeywordOptional => 4
    case KeywordRest => 5
  }

  function ClassKindOrdinal(k: ClassKind): int {
    match k
    case ModuleKind => 0
    case ClassKind => 1
  }

  function MethodKindOrdinal(k: MethodKind): int {
    match k
    case InstanceMethod => 0
    case SingletonMethod => 1
  }

  function VisibilityOrdinal(v: Visibility): int {
    match v
    case Public => 0
    case Private => 1
    case Protected => 2
  }

  const PARAM_TYPES := [Required, Optional, Rest, KeywordRequired, KeywordOptional, KeywordRest]
  const CONSTANT_TYPES := [ModuleKind, ClassKind]
  const KINDS := [InstanceMethod, SingletonMethod]
  const VISIBILITIES := [Public, Private, Protected]

  /** Ruby's `Array#fetch`: a negative index counts from the end. */
  function Fetch<T>(table: seq<T>, i: int): Option<T> {
    if 0 <= i < |table| then Some(table[i])
    else if -|table| <= i < 0 then Some(table[|table| + i])
    else None
  }

  /** `fetch` with a block that warns and falls back on the first entry. */
  function FetchOrFirst<T>(table: seq<T>, i: int): T
    requires |table| > 0
  {
    match Fetch(table, i)
    case Some(x) => x
    case None => table[0]
  }

  // ---------------------------------------------------------------------------
  // Writing

  function EncOptionalName(name: Option<string>): Token {
    match name
    case Some(s) => Str(s)
    case None => Null
  }

  function EncNames(names: seq<string>): (tokens: seq<Token>)
    ensures |tokens| == |names|
  {
    if names == [] then [] else [Str(names[0])] + EncNames(names[1..])
  }

  function EncCountedNames(names: seq<string>): seq<Token> {
    [Int(|names|)] + EncNames(names)
  }

  function EncInstance(c: ConstantInstance): seq<Token>
    decreases c, 0
  {
    [Str(c.name), Bool(c.singleton), Int(|c.genericArguments|)] + EncArguments(c.genericArguments)
  }

  function EncArguments(arguments: seq<Argument>): seq<Token>
    decreases arguments, 1
  {
    if arguments == [] then []
    else [Int(|arguments[0].members|)] + EncUnion(arguments[0].members) + EncArguments(arguments[1..])
  }

  function EncUnion(members: seq<ConstantInstance>): seq<Token>
    decreases members, 1
  {
    if members == [] then [] else EncInstance(members[0]) + EncUnion(members[1..])
  }

  function EncConstantHeader(c: Constant): seq<Token> {
    [Str(c.name), Bool(c.anonymous), Int(ClassKindOrdinal(c.kind)), EncOptionalName(c.superclass)]
  }

  function EncConstant(c: Constant): seq<Token> {
    EncConstantHeader(c)
    + EncCountedNames(c.includedModules)
    + EncCountedNames(c.prependedModules)
    + EncCountedNames(c.extendedModules)
  }

  function EncConstants(cs: seq<Constant>): seq<Token> {
    if cs == [] then [] else EncConstant(cs[0]) + EncConstants(cs[1..])
  }

  function EncUpdates(cs: seq<Constant>): seq<Token> {
    [Int(|cs|)] + EncConstants(cs)
  }

  function EncParam(p: Param): seq<Token> {
    [EncOptionalName(p.name), Int(ParamKindOrdinal(p.kind))] + EncInstance(p.typeName)
  }

  function EncParamList(ps: seq<Param>): seq<Token> {
    if ps == [] then [] else EncParam(ps[0]) + EncParamList(ps[1..])
  }

  function EncParams(ps: seq<Param>, block: Option<BlockParam>): seq<Token>
    decreases block, 1
  {
    [Int(|ps|)] + EncParamList(ps) + EncBlockParam(block)
  }

  function EncBlockParam(block: Option<BlockParam>): seq<Token>
    decreases block, 0
  {
    match block
    case None => [Bool(false)]
    case Some(b) =>
      [Bool(true), EncOptionalName(b.name), Int(|b.traces|)] + EncBlockTraces(b.traces)
  }

  function EncBlockTraces(traces: seq<BlockTrace>): seq<Token>
    decreases traces, 1
  {
    if traces == [] then [] else EncBlockTrace(traces[0]) + EncBlockTraces(traces[1..])
  }

  function EncBlockTrace(t: BlockTrace): seq<Token>
    decreases t, 2
  {
    EncInstance(t.selfType) + EncInstance(t.returnType) + EncParams(t.params, t.blockParam)
  }

  function EncCallee(callee: Option<ConstantInstance>): seq<Token> {
    match callee
    case Some(c) => EncInstance(c)
    case None => [Null]
  }

  function EncTraceHeader(t: Trace): seq<Token> {
    [Str(t.methodName), Int(MethodKindOrdinal(t.methodKind)), Int(VisibilityOrdinal(t.visibility))]
  }

  function EncTrace(t: Trace): seq<Token> {
    EncTraceHeader(t) + EncInstance(t.returnType) + EncInstance(t.owner) + EncCallee(t.callee)
    + EncUpdates(t.constantUpdates) + EncParams(t.params, t.blockParam)
  }

  // ---------------------------------------------------------------------------
  // Reading

  function DecString(ts: seq<Token>): (r: Parsed<string>)
    ensures r.Parsed? ==> |r.rest| < |ts|
  {
    if |ts| > 0 && ts[0].Str? then Parsed(ts[0].s, ts[1..]) else Malformed
  }

  function DecOptionalName(ts: seq<Token>): (r: Parsed<Option<string>>)
    ensures r.Parsed? ==> |r.rest| < |ts|
  {
    if |ts| > 0 && ts[0].Str? then Parsed(Some(ts[0].s), ts[1..])
    else if |ts| > 0 && ts[0].Null? then Parsed(None, ts[1..])
    else Malformed
  }

  function DecBool(ts: seq<Token>): (r: Parsed<bool>)
    ensures r.Parsed? ==> |r.rest| < |ts|
  {
    if |ts| > 0 && ts[0].Bool? then Parsed(ts[0].b, ts[1..]) else Malformed
  }

  function DecInt(ts: seq<Token>): (r: Parsed<int>)
    ensures r.Parsed? ==> |r.rest| < |ts|
  {
    if |ts| > 0 && ts[0].Int? then Parsed(ts[0].n, ts[1..]) else Malformed
  }

  /** `n.times.map { shift }`: nothing when n is not positive. */
  function DecNames(n: int, ts: seq<Token>): (r: Parsed<seq<string>>)
    ensures r.Parsed? ==> |r.rest| <= |ts|
    decreases |ts|
  {
    if n <= 0 then Parsed([], ts) else
    var (name, ts1) :- DecString(ts);
    var (names, ts2) :- DecNames(n - 1, ts1);
    Parsed([name] + names, ts2)
  }

  function DecCountedNames(ts: seq<Token>): (r: Parsed<seq<string>>)
    ensures r.Parsed? ==> |r.rest| < |ts|
  {
    var (count, ts1) :- DecInt(ts);
    DecNames(count, ts1)
  }

  function DecInstance(ts: seq<Token>): (r: Parsed<ConstantInstance>)
    ensures r.Parsed? ==> |r.rest| < |ts|
    decreases |ts|, 0
  {
    var (name, ts1) :- DecString(ts);
    var (singleton, ts2) :- DecBool(ts1);
    var (count, ts3) :- DecInt(ts2);
    var (arguments, ts4) :- DecArguments(count, ts3);
    Parsed(ConstantInstance(name, singleton, arguments), ts4)
  }

  function DecArguments(n: int, ts: seq<Token>): (r: Parsed<seq<Argument>>)
    ensures r.Parsed? ==> |r.rest| <= |ts|
    decreases |ts|, 1
  {
    if n <= 0 then Parsed([], ts) else
    var (size, ts1) :- DecInt(ts);
    var (members, ts2) :- DecUnion(size, ts1);
    var (arguments, ts3) :- DecArguments(n - 1, ts2);
    Parsed([Argument(members)] + arguments, ts3)
  }

  function DecUnion(n: int, ts: seq<Token>): (r: Parsed<seq<ConstantInstance>>)
    ensures r.Parsed? ==> |r.rest| <= |ts|
    decreases |ts|, 1
  {
    if n <= 0 then Parsed([], ts) else
    var (member, ts1) :- DecInstance(ts);
    var (members, ts2) :- DecUnion(n - 1, ts1);
    Parsed([member] + members, ts2)
  }

  function DecConstantHeader(ts: seq<Token>): (r: Parsed<(string, bool, ClassKind, Option<string>)>)
    ensures r.Parsed? ==> |r.rest| < |ts|
  {
    var (name, ts1) :- DecString(ts);
    var (anonymous, ts2) :- DecBool(ts1);
    var (kind, ts3) :- DecInt(ts2);
    var (superclass, ts4) :- DecOptionalName(ts3);
    match Fetch(CONSTANT_TYPES, kind)
    case None => Malformed  // fetch without a fallback raises IndexError
    case Some(k) => Parsed((name, anonymous, k, superclass), ts4)
  }

  function DecConstant(ts: seq<Token>): (r: Parsed<Constant>)
    ensures r.Parsed? ==> |r.rest| < |ts|
  {
    var (h, ts1) :- DecConstantHeader(ts);
    var (includedModules, ts2) :- DecCountedNames(ts1);
    var (prependedModules, ts3) :- DecCountedNames(ts2);
    var (extendedModules, ts4) :- DecCountedNames(ts3);
    Parsed(Constant(h.0, h.1, h.2, h.3, includedModules, prependedModules, extendedModules), ts4)
  }

  function DecConstants(n: int, ts: seq<Token>): (r: Parsed<seq<Constant>>)
    ensures r.Parsed? ==> |r.rest| <= |ts|
    decreases |ts|
  {
    if n <= 0 then Parsed([], ts) else
    var (c, ts1) :- DecConstant(ts);
    var (cs, ts2) :- DecConstants(n - 1, ts1);
    Parsed([c] + cs, ts2)
  }

  function DecUpdates(ts: seq<Token>): (r: Parsed<seq<Constant>>)
    ensures r.Parsed? ==> |r.rest| < |ts|
  {
    var (count, ts1) :- DecInt(ts);
    DecConstants(count, ts1)
  }

  function DecParam(ts: seq<Token>): (r: Parsed<Param>)
    ensures r.Parsed? ==> |r.rest| < |ts|
  {
    var (name, ts1) :- DecOptionalName(ts);
    var (kind, ts2) :- DecInt(ts1);
    var (typeName, ts3) :- DecInstance(ts2);
    Parsed(Param(name, FetchOrFirst(PARAM_TYPES, kind), typeName), ts3)
  }

  function DecParamList(n: int, ts: seq<Token>): (r: Parsed<seq<Param>>)
    ensures r.Parsed? ==> |r.rest| <= |ts|
    decreases |ts|
  {
    if n <= 0 then Parsed([], ts) else
    var (p, ts1) :- DecParam(ts);
    var (ps, ts2) :- DecParamList(n - 1, ts1);
    Parsed([p] + ps, ts2)
  }

  /** What Ruby takes for true in a condition; `nil` is also what an empty array yields. */
  predicate Truthy(ts: seq<Token>) {
    |ts| > 0 && ts[0] != Null && ts[0] != Bool(false)
  }

  function DecParams(ts: seq<Token>): (r: Parsed<(seq<Param>, Option<BlockParam>)>)
    ensures r.Parsed? ==> |r.rest| < |ts|
    decreases |ts|, 3
  {
    var (count, ts1) :- DecInt(ts);
    var (params, ts2) :- DecParamList(count, ts1);
    var (block, ts3) :- DecBlockParam(ts2);
    Parsed((params, block), ts3)
  }

  function DecBlockParam(ts: seq<Token>): (r: Parsed<Option<BlockParam>>)
    ensures r.Parsed? ==> |r.rest| <= |ts|
    decreases |ts|, 2
  {
    var ts1 := if ts == [] then [] else ts[1..];
    if !Truthy(ts) then Parsed(None, ts1) else
    var (name, ts2) :- DecOptionalName(ts1);
    var (count, ts3) :- DecInt(ts2);
    var (traces, ts4) :- DecBlockTraces(count, ts3);
    Parsed(Some(BlockParam(name, traces)), ts4)
  }

  function DecBlockTraces(n: int, ts: seq<Token>): (r: Parsed<seq<BlockTrace>>)
    ensures r.Parsed? ==> |r.rest| <= |ts|
    decreases |ts|, 1
  {
    if n <= 0 then Parsed([], ts) else
    var (t, ts1) :- DecBlockTrace(ts);
    var (traces, ts2) :- DecBlockTraces(n - 1, ts1);
    Parsed([t] + traces, ts2)
  }

  function DecBlockTrace(ts: seq<Token>): (r: Parsed<BlockTrace>)
    ensures r.Parsed? ==> |r.rest| < |ts|
    decreases |ts|, 0
  {
    var (selfType, ts1) :- DecInstance(ts);
    var (returnType, ts2) :- DecInstance(ts1);
    var (pb, ts3) :- DecParams(ts2);
    Parsed(BlockTrace(selfType, returnType, pb.0, pb.1), ts3)
  }

  function DecCallee(ts: seq<Token>): (r: Parsed<Option<ConstantInstance>>)
    ensures r.Parsed? ==> |r.rest| <= |ts|
  {
    if Truthy(ts) then
      var (c, ts1) :- DecInstance(ts);
      Parsed(Some(c), ts1)
    else
      Parsed(None, if ts == [] then [] else ts[1..])
  }

  function DecTraceHeader(ts: seq<Token>): Parsed<(string, MethodKind, Visibility)> {
    var (methodName, ts1) :- DecString(ts);
    var (methodKind, ts2) :- DecInt(ts1);
    var (visibility, ts3) :- DecInt(ts2);
    Parsed((methodName, FetchOrFirst(KINDS, methodKind), FetchOrFirst(VISIBILITIES, visibility)), ts3)
  }

  function DecTrace(ts: seq<Token>): Parsed<Trace> {
    var (h, ts1) :- DecTraceHeader(ts);
    var (returnType, ts2) :- DecInstance(ts1);
    var (owner, ts3) :- DecInstance(ts2);
    var (callee, ts4) :- DecCallee(ts3);
    var (constantUpdates, ts5) :- DecUpdates(ts4);
    var (pb, ts6) :- DecParams(ts5);
    Parsed(Trace(h.0, h.1, h.2, returnType, owner, callee, constantUpdates, pb.0, pb.1), ts6)
  }

  // ---------------------------------------------------------------------------
  // The layout, token by token

  /** A token stands at index i. */
  predicate At(tokens: seq<Token>, i: nat, t: Token) {
    i < |tokens| && tokens[i] == t
  }

  /** Counted names stand at index i: how many, and each of them. */
  ghost predicate NamesAt(tokens: seq<Token>, i: nat, names: seq<string>) {
    At(tokens, i, Int(|names|)) && forall k: nat :: k < |names| ==> At(tokens, i + 1 + k, Str(names[k]))
  }

  lemma {:induction false} NamesLayout(names: seq<string>)
    ensures NamesAt(EncCountedNames(names), 0, names)
  {
    EachName(names);
  }

  lemma {:induction false} EachName(names: seq<string>)
    ensures forall k :: 0 <= k < |names| ==> EncNames(names)[k] == Str(names[k])
  {
    if names != [] {
      EachName(names[1..]);
      forall k | 0 <= k < |names|
        ensures EncNames(names)[k] == Str(names[k])
      {
        assert k > 0 ==> names[1..][k - 1] == names[k];
      }
    }
  }

  lemma NamesBehind(before: seq<Token>, names: seq<string>, behind: seq<Token>)
    ensures NamesAt(before + (EncCountedNames(names) + behind), |before|, names)
  {
    hide EncCountedNames;
    NamesLayout(names);
    var tokens, part := before + (EncCountedNames(names) + behind), EncCountedNames(names);
    assert At(part, 0, Int(|names|)) ==> tokens[|before|] == part[0];
    forall k: nat | k < |names|
      ensures At(tokens, |before| + 1 + k, Str(names[k]))
    {
      assert At(part, 0 + 1 + k, Str(names[k]));
    }
  }

  /** A constant on the wire: name, whether it is anonymous, 0 for a module and 1 for a class, the
      superclass or null, and then the included, the prepended and the extended modules. */
  lemma ConstantLayout(c: Constant)
    ensures
      var tokens, p := EncConstant(c), 5 + |c.includedModules|;
      && At(tokens, 0, Str(c.name)) && At(tokens, 1, Bool(c.anonymous))
      && At(tokens, 2, Int(if c.kind == ModuleKind then 0 else 1))
      && At(tokens, 3, if c.superclass.Some? then Str(c.superclass.value) else Null)
      && NamesAt(tokens, 4, c.includedModules) && NamesAt(tokens, p, c.prependedModules)
      && NamesAt(tokens, p + 1 + |c.prependedModules|, c.extendedModules)
  {
    var h, a, b, d := EncConstantHeader(c), EncCountedNames(c.includedModules), EncCountedNames(c.prependedModules),
      EncCountedNames(c.extendedModules);
    hide EncCountedNames;
    CountedSize(c.includedModules);
    CountedSize(c.prependedModules);
    NamesBehind(h, c.includedModules, b + d);
    NamesBehind(h + a, c.prependedModules, d);
    NamesBehind(h + a + b, c.extendedModules, []);
    assert h + (a + (b + d)) == EncConstant(c) == (h + a) + (b + d) == (h + a + b) + (d + []);
  }

  lemma CountedSize(names: seq<string>)
    ensures |EncCountedNames(names)| == 1 + |names|
  {
  }

  /** An instance on the wire: name, whether it is a class object, and the number of its arguments;
      then each argument as the number of its members and they one after the other. */
  lemma InstanceLayout(c: ConstantInstance)
    ensures
      var tokens := EncInstance(c);
      && At(tokens, 0, Str(c.name)) && At(tokens, 1, Bool(c.singleton)) && At(tokens, 2, Int(|c.genericArguments|))
      && (c.genericArguments != [] ==> At(tokens, 3, Int(|c.genericArguments[0].members|)))
  {
  }

  /** A parameter on the wire: its name or null, the number of its kind, and its type. */
  lemma ParamLayout(p: Param)
    ensures
      var tokens := EncParam(p);
      && At(tokens, 0, if p.name.Some? then Str(p.name.value) else Null)
      && At(tokens, 1, Int(match p.kind
                           case Required => 0 case Optional => 1 case Rest => 2
                           case KeywordRequired => 3 case KeywordOptional => 4 case KeywordRest => 5))
      && tokens[2..] == EncInstance(p.typeName)
  {
  }

  /** A message: the method's name, 0 or 1 for an instance or a singleton method, 0, 1 or 2 for
      public, private or protected; the return type, the owner, the callee or null, the number of
      constants and they one after the other, and last the parameters with the block. */
  lemma TraceLayout(t: Trace)
    ensures
      var kind := if t.methodKind == InstanceMethod then 0 else 1;
      var visibility := match t.visibility case Public => 0 case Private => 1 case Protected => 2;
      EncTrace(t) ==
        [Str(t.methodName), Int(kind), Int(visibility)] + EncInstance(t.returnType) + EncInstance(t.owner)
        + (if t.callee.Some? then EncInstance(t.callee.value) else [Null])
        + ([Int(|t.constantUpdates|)] + EncConstants(t.constantUpdates)) + EncParams(t.params, t.blockParam)
  {
    hide EncInstance, EncParams, EncConstants;
  }

  /** Parameters: how many, each of them, and false, or true with the block's name or null, how
      many of its calls were recorded, and each with receiver, return type and parameters. */
  lemma ParamsLayout(ps: seq<Param>, block: Option<BlockParam>, b: BlockTrace)
    ensures EncParams(ps, block) ==
            [Int(|ps|)] + EncParamList(ps)
            + if block == None then [Bool(false)] else
              [Bool(true), if block.value.name.Some? then Str(block.value.name.value) else Null,
               Int(|block.value.traces|)] + EncBlockTraces(block.value.traces)
    ensures EncBlockTrace(b) == EncInstance(b.selfType) + EncInstance(b.returnType) + EncParams(b.params, b.blockParam)
  {
    hide EncInstance, EncParamList, EncBlockTraces;
  }

  // ---------------------------------------------------------------------------
  // Reading undoes writing, whatever follows in the array

  lemma Reassociate(a: seq<Token>, b: seq<Token>, c: seq<Token>, d: seq<Token>, e: seq<Token>)
    ensures a + b + c + d + e == a + (b + (c + (d + e)))
  {
  }

  lemma ReassociateTrace(a: seq<Token>, b: seq<Token>, c: seq<Token>, d: seq<Token>,
                         e: seq<Token>, f: seq<Token>, rest: seq<Token>)
    ensures a + b + c + d + e + f + rest == a + (b + (c + (d + (e + (f + rest)))))
  {
    Reassociate(a, b, c, d, e + (f + rest));
    assert a + b + c + d + e + f + rest == a + b + c + d + (e + (f + rest));
  }

  lemma {:induction false} NamesRoundTrip(names: seq<string>, rest: seq<Token>)
    ensures DecNames(|names|, EncNames(names) + rest) == Parsed(names, rest)
  {
    if names != [] {
      var tail := EncNames(names[1..]) + rest;
      assert EncNames(names) + rest == [Str(names[0])] + tail;
      NamesRoundTrip(names[1..], rest);
      assert [names[0]] + names[1..] == names;
    } else {
      assert EncNames(names) + rest == rest;
    }
  }

  lemma CountedNamesRoundTrip(names: seq<string>, rest: seq<Token>)
    ensures DecCountedNames(EncCountedNames(names) + rest) == Parsed(names, rest)
  {
    assert EncCountedNames(names) + rest == [Int(|names|)] + (EncNames(names) + rest);
    NamesRoundTrip(names, rest);
  }

  lemma {:induction false} InstanceRoundTrip(c: ConstantInstance, rest: seq<Token>)
    ensures DecInstance(EncInstance(c) + rest) == Parsed(c, rest)
    decreases c, 0
  {
    hide EncArguments, DecArguments;
    var tail := EncArguments(c.genericArguments) + rest;
    assert EncInstance(c) + rest == [Str(c.name)] + ([Bool(c.singleton)] + ([Int(|c.genericArguments|)] + tail));
    ArgumentsRoundTrip(c.genericArguments, rest);
  }

  lemma {:induction false} ArgumentsRoundTrip(arguments: seq<Argument>, rest: seq<Token>)
    ensures DecArguments(|arguments|, EncArguments(arguments) + rest) == Parsed(arguments, rest)
    decreases arguments, 1
  {
    hide EncUnion, DecUnion;
    if arguments != [] {
      var members := arguments[0].members;
      var tail := EncArguments(arguments[1..]) + rest;
      assert EncArguments(arguments) + rest == [Int(|members|)] + (EncUnion(members) + tail);
      UnionRoundTrip(members, tail);
      ArgumentsRoundTrip(arguments[1..], rest);
      assert [Argument(members)] + arguments[1..] == arguments;
    } else {
      assert EncArguments(arguments) + rest == rest;
    }
  }

  lemma {:induction false} UnionRoundTrip(members: seq<ConstantInstance>, rest: seq<Token>)
    ensures DecUnion(|members|, EncUnion(members) + rest) == Parsed(members, rest)
    decreases members, 1
  {
    hide EncInstance, DecInstance;
    if members != [] {
      var tail := EncUnion(members[1..]) + rest;
      Regroup(EncInstance(members[0]), EncUnion(members[1..]), rest);
      InstanceRoundTrip(members[0], tail);
      UnionRoundTrip(members[1..], rest);
      assert [members[0]] + members[1..] == members;
    } else {
      assert EncUnion(members) + rest == rest;
    }
  }

  lemma ConstantHeaderRoundTrip(c: Constant, rest: seq<Token>)
    ensures DecConstantHeader(EncConstantHeader(c) + rest)
         == Parsed((c.name, c.anonymous, c.kind, c.superclass), rest)
  {
    assert EncConstantHeader(c) + rest ==
      [Str(c.name)]
      + ([Bool(c.anonymous)] + ([Int(ClassKindOrdinal(c.kind))] + ([EncOptionalName(c.superclass)] + rest)));
  }

  lemma ConstantRoundTrip(c: Constant, rest: seq<Token>)
    ensures DecConstant(EncConstant(c) + rest) == Parsed(c, rest)
  {
    hide EncCountedNames, DecCountedNames, EncConstantHeader, DecConstantHeader;
    CountedNamesRoundTrip(c.extendedModules, rest);
    var extended := EncCountedNames(c.extendedModules) + rest;
    CountedNamesRoundTrip(c.prependedModules, extended);
    var prepended := EncCountedNames(c.prependedModules) + extended;
    CountedNamesRoundTrip(c.includedModules, prepended);
    var included := EncCountedNames(c.includedModules) + prepended;
    ConstantHeaderRoundTrip(c, included);
    Reassociate(EncConstantHeader(c), EncCountedNames(c.includedModules),
                EncCountedNames(c.prependedModules), EncCountedNames(c.extendedModules), rest);
  }

  lemma Regroup(a: seq<Token>, b: seq<Token>, rest: seq<Token>)
    ensures a + b + rest == a + (b + rest)
  {
  }

  lemma {:induction false} ConstantsRoundTrip(cs: seq<Constant>, rest: seq<Token>)
    ensures DecConstants(|cs|, EncConstants(cs) + rest) == Parsed(cs, rest)
  {
    hide EncConstant, DecConstant;
    if cs != [] {
      var tail := EncConstants(cs[1..]) + rest;
      Regroup(EncConstant(cs[0]), EncConstants(cs[1..]), rest);
      ConstantRoundTrip(cs[0], tail);
      ConstantsRoundTrip(cs[1..], rest);
      assert [cs[0]] + cs[1..] == cs;
    } else {
      assert EncConstants(cs) + rest == rest;
    }
  }

  lemma UpdatesRoundTrip(cs: seq<Constant>, rest: seq<Token>)
    ensures DecUpdates(EncUpdates(cs) + rest) == Parsed(cs, rest)
  {
    assert EncUpdates(cs) + rest == [Int(|cs|)] + (EncConstants(cs) + rest);
    ConstantsRoundTrip(cs, rest);
  }

  lemma ParamRoundTrip(p: Param, rest: seq<Token>)
    ensures DecParam(EncParam(p) + rest) == Parsed(p, rest)
  {
    hide DecInstance, EncInstance;
    var tail := EncInstance(p.typeName) + rest;
    assert EncParam(p) + rest == [EncOptionalName(p.name)] + ([Int(ParamKindOrdinal(p.kind))] + tail);
    InstanceRoundTrip(p.typeName, rest);
  }

  lemma {:induction false} ParamListRoundTrip(ps: seq<Param>, rest: seq<Token>)
    ensures DecParamList(|ps|, EncParamList(ps) + rest) == Parsed(ps, rest)
  {
    hide EncParam, DecParam;
    if ps != [] {
      var tail := EncParamList(ps[1..]) + rest;
      Regroup(EncParam(ps[0]), EncParamList(ps[1..]), rest);
      ParamRoundTrip(ps[0], tail);
      ParamListRoundTrip(ps[1..], rest);
      assert [ps[0]] + ps[1..] == ps;
    } else {
      assert EncParamList(ps) + rest == rest;
    }
  }

  lemma {:induction false} ParamsRoundTrip(ps: seq<Param>, block: Option<BlockParam>, rest: seq<Token>)
    ensures DecParams(EncParams(ps, block) + rest) == Parsed((ps, block), rest)
    decreases block, 1
  {
    hide EncParamList, DecParamList, EncBlockParam, DecBlockParam;
    var tail := EncBlockParam(block) + rest;
    assert EncParams(ps, block) + rest == [Int(|ps|)] + (EncParamList(ps) + tail);
    ParamListRoundTrip(ps, tail);
    BlockParamRoundTrip(block, rest);
  }

  lemma {:induction false} BlockParamRoundTrip(block: Option<BlockParam>, rest: seq<Token>)
    ensures DecBlockParam(EncBlockParam(block) + rest) == Parsed(block, rest)
    decreases block, 0
  {
    hide EncBlockTraces, DecBlockTraces;
    match block
    case None =>
    case Some(b) =>
      var tail := EncBlockTraces(b.traces) + rest;
      assert EncBlockParam(block) + rest ==
        [Bool(true)] + ([EncOptionalName(b.name)] + ([Int(|b.traces|)] + tail));
      BlockTracesRoundTrip(b.traces, rest);
  }

  lemma {:induction false} BlockTracesRoundTrip(traces: seq<BlockTrace>, rest: seq<Token>)
    ensures DecBlockTraces(|traces|, EncBlockTraces(traces) + rest) == Parsed(traces, rest)
    decreases traces, 1
  {
    hide EncBlockTrace, DecBlockTrace;
    if traces != [] {
      var tail := EncBlockTraces(traces[1..]) + rest;
      Regroup(EncBlockTrace(traces[0]), EncBlockTraces(traces[1..]), rest);
      BlockTraceRoundTrip(traces[0], tail);
      BlockTracesRoundTrip(traces[1..], rest);
      assert [traces[0]] + traces[1..] == traces;
    } else {
      assert EncBlockTraces(traces) + rest == rest;
    }
  }

  lemma {:induction false} BlockTraceRoundTrip(t: BlockTrace, rest: seq<Token>)
    ensures DecBlockTrace(EncBlockTrace(t) + rest) == Parsed(t, rest)
    decreases t, 2
  {
    hide EncInstance, DecInstance, EncParams, DecParams;
    var params := EncParams(t.params, t.blockParam) + rest;
    var ret := EncInstance(t.returnType) + params;
    assert EncBlockTrace(t) + rest == EncInstance(t.selfType) + ret;
    InstanceRoundTrip(t.selfType, ret);
    InstanceRoundTrip(t.returnType, params);
    ParamsRoundTrip(t.params, t.blockParam, rest);
  }

  /** An absent callee is told from a present one by its first token alone. */
  lemma CalleeRoundTrip(callee: Option<ConstantInstance>, rest: seq<Token>)
    ensures DecCallee(EncCallee(callee) + rest) == Parsed(callee, rest)
  {
    match callee
    case None =>
    case Some(c) => InstanceRoundTrip(c, rest);
  }

  lemma TraceHeaderRoundTrip(t: Trace, rest: seq<Token>)
    ensures DecTraceHeader(EncTraceHeader(t) + rest)
         == Parsed((t.methodName, t.methodKind, t.visibility), rest)
  {
    assert EncTraceHeader(t) + rest ==
      [Str(t.methodName)] + ([Int(MethodKindOrdinal(t.methodKind))] + ([Int(VisibilityOrdinal(t.visibility))] + rest));
  }

  /** The codec's law: the reader returns the trace that was written and exactly the tokens
      that followed it. */
  lemma TraceRoundTrip(t: Trace, rest: seq<Token>)
    ensures DecTrace(EncTrace(t) + rest) == Parsed(t, rest)
  {
    hide EncInstance, DecInstance, EncParams, DecParams, EncUpdates, DecUpdates, EncCallee, DecCallee;
    var params := EncParams(t.params, t.blockParam) + rest;
    ParamsRoundTrip(t.params, t.blockParam, rest);
    var updates := EncUpdates(t.constantUpdates) + params;
    UpdatesRoundTrip(t.constantUpdates, params);
    var callee := EncCallee(t.callee) + updates;
    CalleeRoundTrip(t.callee, updates);
    var owner := EncInstance(t.owner) + callee;
    InstanceRoundTrip(t.owner, callee);
    var ret := EncInstance(t.returnType) + owner;
    InstanceRoundTrip(t.returnType, owner);
    TraceHeaderRoundTrip(t, ret);
    ReassociateTrace(EncTraceHeader(t), EncInstance(t.returnType), EncInstance(t.owner), EncCallee(t.callee),
                     EncUpdates(t.constantUpdates), EncParams(t.params, t.blockParam), rest);
  }

  /** No two streams that start with different traces can agree: the encoding is
      prefix-free and injective. */
  lemma EncodingIsPrefixFree(t: Trace, u: Trace, rest: seq<Token>, rest': seq<Token>)
    requires EncTrace(t) + rest == EncTrace(u) + rest'
    ensures t == u && rest == rest'
  {
    hide EncTrace, DecTrace;
    TraceRoundTrip(t, rest);
    TraceRoundTrip(u, rest');
  }
}
