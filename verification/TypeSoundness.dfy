/** What the generated types mean, and that they accept the values they were made from. */
module TypeSoundness {
  import opened Traces
  import opened Values
  import opened RbsTypes

  // ---------------------------------------------------------------------------
  // The meaning of a type

  /** Whether a value has a type. A class type without arguments, or with untyped ones only,
      stands for every instance of exactly that class; typed arguments speak of the contents
      of an array or hash. */
  predicate Conforms(h: Heap, v: Ref, t: RbsType)
    requires ValidHeap(h) && v in h
    decreases t, 1
  {
    match t
    case Untyped => true
    case BoolType => h[v] == Plain("TrueClass") || h[v] == Plain("FalseClass")
    case NilType => h[v] == Plain("NilClass")
    case ClassSingleton(name) => h[v] == ClassObject(name)
    case ClassInstance(name, arguments) =>
      IsInstance(h[v], name) && (AllUntyped(arguments) || ContentsConform(h, v, t))
    case Union(types) => exists k :: 0 <= k < |types| && Conforms(h, v, types[k])
  }

  predicate IsInstance(node: Node, name: string) {
    match node
    case Plain(cls) => cls == name
    case ClassObject(_) => false
    case List(_) => name == "Array"
    case Table(_, _) => name == "Hash"
  }

  predicate AllUntyped(types: seq<RbsType>) {
    forall t :: t in types ==> t == Untyped
  }

  predicate ContentsConform(h: Heap, v: Ref, t: RbsType)
    requires ValidHeap(h) && v in h && t.ClassInstance?
    decreases t, 0
  {
    match h[v]
    case List(items) => |t.arguments| == 1 && forall x :: x in items ==> Conforms(h, x, t.arguments[0])
    case Table(keys, values) =>
      |t.arguments| == 2
      && (forall x :: x in keys ==> Conforms(h, x, t.arguments[0]))
      && (forall x :: x in values ==> Conforms(h, x, t.arguments[1]))
    case _ => false
  }

  // ---------------------------------------------------------------------------
  // The shape of summaries

  /** Only arrays and hashes have arguments, one and two of them, at most n levels deep. */
  predicate Shaped(c: ConstantInstance, n: nat)
    decreases n, 0
  {
    c.name != "bool"
    && (c.genericArguments == []
        || (n > 0 && !c.singleton
            && ((c.name == "Array" && |c.genericArguments| == 1) || (c.name == "Hash" && |c.genericArguments| == 2))
            && forall k :: 0 <= k < |c.genericArguments| ==> ShapedArgument(c.genericArguments[k], n - 1)))
  }

  predicate ShapedArgument(a: Argument, n: nat)
    decreases n, 1
  {
    a.members != [] && forall m :: m in a.members ==> Shaped(m, n)
  }

  lemma {:induction false} ShapedIsWellFormed(c: ConstantInstance, n: nat)
    requires Shaped(c, n)
    ensures WellFormed(c)
    decreases n
  {
    forall k | 0 <= k < |c.genericArguments|
      ensures WellFormedArgument(c.genericArguments[k])
    {
      assert ShapedArgument(c.genericArguments[k], n - 1);
      forall j | 0 <= j < |c.genericArguments[k].members|
        ensures WellFormed(c.genericArguments[k].members[j])
      {
        ShapedIsWellFormed(c.genericArguments[k].members[j], n - 1);
      }
    }
  }

  /** A non-empty list of summaries with n levels left. */
  ghost predicate AreSummaries(cs: seq<ConstantInstance>, n: nat) {
    cs != [] && forall c :: c in cs ==> Shaped(c, n) && WellFormed(c)
  }

  lemma {:induction false} SummaryIsShaped(h: Heap, v: Ref, depth: nat, limit: nat)
    requires ValidHeap(h) && v in h && depth <= limit
    ensures Shaped(Summary(h, v, depth, limit), limit - depth)
    ensures WellFormed(Summary(h, v, depth, limit))
    decreases limit - depth, 0
  {
    hide UnionOf;
    if depth < limit {
      match h[v]
      case List(items) =>
        if items != [] { UnionIsShaped(h, items, depth + 1, limit); }
      case Table(keys, values) =>
        if keys != [] {
          UnionIsShaped(h, keys, depth + 1, limit);
          UnionIsShaped(h, values, depth + 1, limit);
        }
      case _ =>
    }
    ShapedIsWellFormed(Summary(h, v, depth, limit), limit - depth);
  }

  lemma {:induction false} UnionIsShaped(h: Heap, vs: seq<Ref>, depth: nat, limit: nat)
    requires ValidHeap(h) && (forall v :: v in vs ==> v in h) && depth <= limit && vs != []
    ensures ShapedArgument(UnionOf(h, vs, depth, limit), limit - depth)
    ensures AreSummaries(UnionOf(h, vs, depth, limit).members, limit - depth)
    ensures forall v :: v in vs ==> Summary(h, v, depth, limit) in UnionOf(h, vs, depth, limit).members
    decreases limit - depth, 1
  {
    var summaries := Summaries(h, vs, depth, limit);
    CompactMembers(summaries);
    assert summaries[0] in Compact(summaries);
    forall m | m in Compact(summaries)
      ensures Shaped(m, limit - depth) && WellFormed(m)
    {
      var k :| 0 <= k < |vs| && summaries[k] == m;
      SummaryIsShaped(h, vs[k], depth, limit);
    }
    forall v | v in vs
      ensures Summary(h, v, depth, limit) in Compact(summaries)
    {
      var k :| 0 <= k < |vs| && vs[k] == v;
      assert summaries[k] in summaries;
    }
  }

  // ---------------------------------------------------------------------------
  // Soundness

  /** The type conversion ignores whether an instance is a class object when it looks for
      TrueClass, FalseClass and NilClass and when it drops instances without generics beside
      generic ones. Among the summaries `cs` a class object is safe if it has none of those
      names and its summary is not dropped; a container is safe if its contents are safe among
      each other. */
  predicate Safe(h: Heap, v: Ref, cs: seq<ConstantInstance>, depth: nat, limit: nat)
    requires ValidHeap(h) && v in h && depth <= limit
    decreases limit - depth, 1
  {
    SafeContents(h, v, depth, limit)
    && match h[v]
       case ClassObject(name) => !MistakenName(name) && Summary(h, v, depth, limit) in Alternatives(cs)
       case _ => true
  }

  predicate MistakenName(name: string) {
    name in {"TrueClass", "FalseClass", "NilClass"}
  }

  predicate SafeContents(h: Heap, v: Ref, depth: nat, limit: nat)
    requires ValidHeap(h) && v in h && depth <= limit
    decreases limit - depth, 0
  {
    match h[v]
    case List(items) => depth < limit ==> SafeTogether(h, items, depth + 1, limit)
    case Table(keys, values) =>
      depth < limit ==> SafeTogether(h, keys, depth + 1, limit) && SafeTogether(h, values, depth + 1, limit)
    case _ => true
  }

  predicate SafeTogether(h: Heap, vs: seq<Ref>, depth: nat, limit: nat)
    requires ValidHeap(h) && (forall v :: v in vs ==> v in h) && depth <= limit
    decreases limit - depth, 2
  {
    forall v :: v in vs ==> Safe(h, v, UnionOf(h, vs, depth, limit).members, depth, limit)
  }

  /** Safe among all summaries: above the limit a class object must not be Array or Hash, as
      instances of those can have generics. */
  predicate Clean(h: Heap, v: Ref, depth: nat, limit: nat)
    requires ValidHeap(h) && v in h && depth <= limit
  {
    SafeContents(h, v, depth, limit)
    && match h[v]
       case ClassObject(name) => !MistakenName(name) && (name in {"Array", "Hash"} ==> depth == limit)
       case _ => true
  }

  lemma CleanIsSafe(h: Heap, v: Ref, depth: nat, limit: nat, cs: seq<ConstantInstance>)
    requires ValidHeap(h) && v in h && depth <= limit && Clean(h, v, depth, limit)
    requires AreSummaries(cs, limit - depth) && Summary(h, v, depth, limit) in cs
    ensures Safe(h, v, cs, depth, limit)
  {
    hide Alternatives, SafeContents, WellFormed;
    var c := Summary(h, v, depth, limit);
    if h[v].ClassObject? {
      NormalisedUnion(cs);
      forall g | g in Alternatives(cs) && g.genericArguments != []
        ensures g.name in {"Array", "Hash"} && depth < limit
      {
        assert Shaped(g, limit - depth);
      }
    }
  }

  /** A union accepts what one of its alternatives accepts. */
  lemma UnionAccepts(arity: Arities, h: Heap, v: Ref, cs: seq<ConstantInstance>)
    requires ValidHeap(h) && v in h && cs != [] && forall c :: c in cs ==> WellFormed(c)
    ensures (forall a :: a in Alternatives(cs) ==> WellFormed(a))
    ensures Conforms(h, v, ToRbs(arity, cs)) <==>
              exists a :: a in Alternatives(cs) && Conforms(h, v, ToRbsOne(arity, a))
  {
    hide Sweep, Uniq, MergeBooleans, ToRbsOne, WellFormed;
    AlternativesAreWellFormed(cs);
    var alternatives := Alternatives(cs);
    var t := ToRbs(arity, cs);
    if |MergeBooleans(Uniq(cs))| > 1 {
      assert t.Union? && |t.types| == |alternatives|;
      assert forall k :: 0 <= k < |alternatives| ==> t.types[k] == ToRbsOne(arity, alternatives[k]);
      forall a | a in alternatives && Conforms(h, v, ToRbsOne(arity, a))
        ensures Conforms(h, v, t)
      {
        var k :| 0 <= k < |alternatives| && alternatives[k] == a;
        assert Conforms(h, v, t.types[k]);
      }
      if Conforms(h, v, t) {
        var k :| 0 <= k < |t.types| && Conforms(h, v, t.types[k]);
        assert alternatives[k] in alternatives;
      }
    } else {
      assert alternatives == MergeBooleans(Uniq(cs));
      assert |alternatives| == 1 && t == ToRbsOne(arity, alternatives[0]);
      assert forall a :: a in alternatives ==> a == alternatives[0];
      assert alternatives[0] in alternatives;
    }
  }

  /** The type made from the summary of a value with safe contents accepts it. */
  lemma {:induction false} OwnTypeAccepts(arity: Arities, h: Heap, v: Ref, depth: nat, limit: nat)
    requires ValidHeap(h) && v in h && depth <= limit && SafeContents(h, v, depth, limit)
    requires h[v].ClassObject? ==> h[v].name != "NilClass"
    requires !IsBoolean(Summary(h, v, depth, limit))
    ensures WellFormed(Summary(h, v, depth, limit))
    ensures Conforms(h, v, ToRbsOne(arity, Summary(h, v, depth, limit)))
    decreases limit - depth, 0
  {
    hide UnionOf, WellFormed, Shaped, ToRbs, SafeTogether;
    var c := Summary(h, v, depth, limit);
    SummaryIsShaped(h, v, depth, limit);
    if depth < limit && c.name in arity && |c.genericArguments| == arity[c.name] {
      if h[v].List? && h[v].items != [] {
        AllAccepted(arity, h, h[v].items, depth + 1, limit);
      } else if h[v].Table? && h[v].keys != [] {
        AllAccepted(arity, h, h[v].keys, depth + 1, limit);
        AllAccepted(arity, h, h[v].values, depth + 1, limit);
      }
    }
  }

  lemma {:induction false} AllAccepted(arity: Arities, h: Heap, vs: seq<Ref>, depth: nat, limit: nat)
    requires ValidHeap(h) && vs != [] && depth <= limit
    requires (forall v :: v in vs ==> v in h) && SafeTogether(h, vs, depth, limit)
    ensures AreSummaries(UnionOf(h, vs, depth, limit).members, limit - depth)
    ensures forall v :: v in vs ==> Conforms(h, v, ToRbs(arity, UnionOf(h, vs, depth, limit).members))
    decreases limit - depth, 2
  {
    hide Safe, ToRbs, Conforms;
    UnionIsShaped(h, vs, depth, limit);
    forall v | v in vs
      ensures Conforms(h, v, ToRbs(arity, UnionOf(h, vs, depth, limit).members))
    {
      SafeAccepted(arity, h, v, depth, limit, UnionOf(h, vs, depth, limit).members);
    }
  }

  /** In any list of summaries that holds the own one of a value that is safe among them,
      whatever else was seen, the resulting type accepts the value. */
  lemma {:induction false} SafeAccepted(
      arity: Arities, h: Heap, v: Ref, depth: nat, limit: nat, cs: seq<ConstantInstance>)
    requires ValidHeap(h) && v in h && depth <= limit && Safe(h, v, cs, depth, limit)
    requires AreSummaries(cs, limit - depth) && Summary(h, v, depth, limit) in cs
    ensures Conforms(h, v, ToRbs(arity, cs))
    decreases limit - depth, 1
  {
    hide Alternatives, ToRbs, SafeContents, WellFormed;
    var c := Summary(h, v, depth, limit);
    NormalisedUnion(cs);
    UnionAccepts(arity, h, v, cs);
    if IsBoolean(c) {
      assert BOOL in Alternatives(cs);
    } else if c in Alternatives(cs) {
      OwnTypeAccepts(arity, h, v, depth, limit);
    } else {
      // An empty array or hash, dropped beside a generic one.
      var g :| g in Alternatives(cs) && g.name == c.name && g.genericArguments != [];
      assert g in cs && depth < limit;
      BareMeansEmpty(h, v, depth, limit);
      EmptyAccepted(arity, h, v, g);
    }
  }

  /** A clean value is accepted in any company. */
  lemma Accepted(
      arity: Arities, h: Heap, v: Ref, depth: nat, limit: nat, cs: seq<ConstantInstance>)
    requires ValidHeap(h) && v in h && depth <= limit && Clean(h, v, depth, limit)
    requires AreSummaries(cs, limit - depth) && Summary(h, v, depth, limit) in cs
    ensures Conforms(h, v, ToRbs(arity, cs))
  {
    CleanIsSafe(h, v, depth, limit, cs);
    SafeAccepted(arity, h, v, depth, limit, cs);
  }

  lemma EmptyAccepted(arity: Arities, h: Heap, v: Ref, g: ConstantInstance)
    requires ValidHeap(h) && v in h && WellFormed(g) && !g.singleton
    requires (h[v] == List([]) && g.name == "Array" && |g.genericArguments| == 1)
             || (h[v] == Table([], []) && g.name == "Hash" && |g.genericArguments| == 2)
    ensures Conforms(h, v, ToRbsOne(arity, g))
  {
  }

  /** One observed value, with the heap as it was when it was summarised. */
  datatype Observation = Observation(heap: Heap, value: Ref)

  ghost predicate ValidObservations(os: seq<Observation>) {
    forall o :: o in os ==> ValidHeap(o.heap) && o.value in o.heap
  }

  ghost predicate IsClean(o: Observation, limit: nat)
    requires ValidHeap(o.heap) && o.value in o.heap
  {
    Clean(o.heap, o.value, 0, limit)
  }

  function SeenTypes(os: seq<Observation>, limit: nat): (cs: seq<ConstantInstance>)
    requires ValidObservations(os)
    ensures |cs| == |os| && forall k :: 0 <= k < |os| ==> cs[k] == Summary(os[k].heap, os[k].value, 0, limit)
  {
    seq(|os|, k requires 0 <= k < |os| => Summary(os[k].heap, os[k].value, 0, limit))
  }

  lemma SeenTypesAreSummaries(os: seq<Observation>, limit: nat)
    requires ValidObservations(os) && os != []
    ensures AreSummaries(SeenTypes(os, limit), limit)
  {
    forall c | c in SeenTypes(os, limit)
      ensures Shaped(c, limit) && WellFormed(c)
    {
      var k :| 0 <= k < |os| && SeenTypes(os, limit)[k] == c;
      SummaryIsShaped(os[k].heap, os[k].value, 0, limit);
    }
  }

  /** Type soundness: whatever values were seen at one place, every one that is safe among them
      is accepted by the type made from the summaries of all of them. */
  lemma TypesAreSound(arity: Arities, os: seq<Observation>, limit: nat, k: nat)
    requires ValidObservations(os) && k < |os| && Safe(os[k].heap, os[k].value, SeenTypes(os, limit), 0, limit)
    ensures AreSummaries(SeenTypes(os, limit), limit)
    ensures Conforms(os[k].heap, os[k].value, ToRbs(arity, SeenTypes(os, limit)))
  {
    SeenTypesAreSummaries(os, limit);
    assert SeenTypes(os, limit)[k] in SeenTypes(os, limit);
    SafeAccepted(arity, os[k].heap, os[k].value, 0, limit, SeenTypes(os, limit));
  }

  lemma AlternativeOrigin(cs: seq<ConstantInstance>, n: nat, a: ConstantInstance)
    returns (c: ConstantInstance)
    requires AreSummaries(cs, n) && a in Alternatives(cs)
    ensures c in cs && if a == BOOL then IsBoolean(c) else c == a && !IsBoolean(a)
  {
    hide Alternatives;
    NormalisedUnion(cs);
    if a == BOOL {
      c :| c in cs && IsBoolean(c);
    } else {
      c := a;
    }
  }

  /** No alternative is superfluous: if all values are clean, each alternative of the type
      accepts one that was seen. */
  lemma NoIdleAlternative(arity: Arities, os: seq<Observation>, limit: nat, a: ConstantInstance)
    returns (k: nat)
    requires ValidObservations(os) && os != [] && (forall o :: o in os ==> IsClean(o, limit))
    requires a in Alternatives(SeenTypes(os, limit))
    ensures k < |os| && WellFormed(a) && Conforms(os[k].heap, os[k].value, ToRbsOne(arity, a))
  {
    hide Alternatives, Conforms, Shaped;
    var cs := SeenTypes(os, limit);
    SeenTypesAreSummaries(os, limit);
    var c := AlternativeOrigin(cs, limit, a);
    k :| 0 <= k < |os| && cs[k] == c;
    assert os[k] in os && IsClean(os[k], limit);
    if a == BOOL {
      CleanBoolean(os[k].heap, os[k].value, limit);
    } else {
      OwnTypeAccepts(arity, os[k].heap, os[k].value, 0, limit);
    }
  }

  lemma CleanBoolean(h: Heap, v: Ref, limit: nat)
    requires ValidHeap(h) && v in h && Clean(h, v, 0, limit) && IsBoolean(Summary(h, v, 0, limit))
    ensures Conforms(h, v, BoolType)
  {
  }

  // ---------------------------------------------------------------------------
  // How exact the condition is

  /** The exact condition for a class object: its own summary must be left in the union, and
      its name must not be one that is taken for an instance. */
  lemma ClassObjectAccepted(
      arity: Arities, h: Heap, v: Ref, depth: nat, limit: nat, cs: seq<ConstantInstance>)
    requires ValidHeap(h) && v in h && depth <= limit && h[v].ClassObject?
    requires AreSummaries(cs, limit - depth) && Summary(h, v, depth, limit) in cs
    ensures Conforms(h, v, ToRbs(arity, cs)) <==>
              h[v].name !in {"TrueClass", "FalseClass", "NilClass"}
              && Summary(h, v, depth, limit) in Alternatives(cs)
  {
    hide WellFormed, ToRbs, GenericArguments;
    hide Sweep, Uniq, MergeBooleans, Alternatives;
    NormalisedUnion(cs);
    UnionAccepts(arity, h, v, cs);
    forall a | a in Alternatives(cs) && Conforms(h, v, ToRbsOne(arity, a))
      ensures a == Summary(h, v, depth, limit) && h[v].name != "NilClass"
    {
      assert ToRbsOne(arity, a) == ClassSingleton(h[v].name);
      assert a != BOOL;
    }
  }

  ghost predicate SeenAmong(cs: seq<ConstantInstance>, h: Heap, v: Ref, depth: nat, limit: nat)
    requires ValidHeap(h) && v in h && depth <= limit
  {
    AreSummaries(cs, limit - depth) && Summary(h, v, depth, limit) in cs
  }

  /** For class objects `Clean` is exact: a class object is accepted whatever else is seen
      with it if and only if it is clean. */
  lemma CleanIsExact(arity: Arities, h: Heap, v: Ref, depth: nat, limit: nat)
    requires ValidHeap(h) && v in h && depth <= limit && h[v].ClassObject?
    ensures Clean(h, v, depth, limit) <==>
              forall cs :: SeenAmong(cs, h, v, depth, limit) ==> Conforms(h, v, ToRbs(arity, cs))
  {
    var c := Summary(h, v, depth, limit);
    SummaryIsShaped(h, v, depth, limit);
    if Clean(h, v, depth, limit) {
      forall cs | SeenAmong(cs, h, v, depth, limit)
        ensures Conforms(h, v, ToRbs(arity, cs))
      {
        Accepted(arity, h, v, depth, limit, cs);
      }
    } else if c.name in {"Array", "Hash"} {
      var g := GenericBeside(c, limit - depth);
      assert SeenAmong([g, c], h, v, depth, limit);
      ClassObjectAccepted(arity, h, v, depth, limit, [g, c]);
    } else {
      assert SeenAmong([c], h, v, depth, limit);
      ClassObjectAccepted(arity, h, v, depth, limit, [c]);
    }
  }

  /** A generic summary that, seen first, drops the class object of its name. */
  lemma GenericBeside(c: ConstantInstance, n: nat) returns (g: ConstantInstance)
    requires n > 0 && c.name in {"Array", "Hash"} && c.genericArguments == []
    ensures g.genericArguments != [] && Shaped(g, n) && WellFormed(g) && Alternatives([g, c]) == [g]
  {
    var argument := Argument([ConstantInstance("Integer", false, [])]);
    g := ConstantInstance(c.name, false, if c.name == "Array" then [argument] else [argument, argument]);
    assert Shaped(argument.members[0], n - 1);
    ShapedIsWellFormed(g, n);
    UniqOfDistinct([g, c]);
    assert MergeBooleans([g, c]) == [g, c];
    assert [g, c][..1] == [g] && [g][..0] == [];
    assert DropBare([g], c.name) == [g];
    assert DropBare([g, c], c.name) == [g];
    assert Sweep([g, c], 0) == Sweep([g], 1) == [g];
  }

  /** No arrays or hashes among these values. */
  predicate Flat(h: Heap, vs: seq<Ref>)
    requires ValidHeap(h)
  {
    forall v :: v in vs ==> v in h && (h[v].Plain? || h[v].ClassObject?)
  }

  /** The contents of a container without nested containers are safe together if and only if
      the type made from their own summaries accepts all of them. */
  lemma FlatContentsIff(arity: Arities, h: Heap, vs: seq<Ref>, depth: nat, limit: nat)
    requires ValidHeap(h) && Flat(h, vs) && vs != [] && depth <= limit
    ensures AreSummaries(UnionOf(h, vs, depth, limit).members, limit - depth)
    ensures SafeTogether(h, vs, depth, limit) <==>
              forall v :: v in vs ==> Conforms(h, v, ToRbs(arity, UnionOf(h, vs, depth, limit).members))
  {
    hide Conforms, ToRbs, Alternatives, UnionOf, WellFormed;
    UnionIsShaped(h, vs, depth, limit);
    var members := UnionOf(h, vs, depth, limit).members;
    if SafeTogether(h, vs, depth, limit) {
      AllAccepted(arity, h, vs, depth, limit);
    }
    if forall v :: v in vs ==> Conforms(h, v, ToRbs(arity, members)) {
      forall v | v in vs
        ensures Safe(h, v, members, depth, limit)
      {
        if h[v].ClassObject? {
          ClassObjectAccepted(arity, h, v, depth, limit, members);
        }
      }
    }
  }

  lemma NeverUntyped(arity: Arities, cs: seq<ConstantInstance>)
    requires cs != [] && forall c :: c in cs ==> WellFormed(c)
    ensures ToRbs(arity, cs) != Untyped
  {
  }

  /** A container without nested containers, and where its class has its usual type
      parameters. */
  predicate FlatContainer(h: Heap, v: Ref, arity: Arities)
    requires ValidHeap(h) && v in h
  {
    match h[v]
    case List(items) => Flat(h, items) && "Array" in arity && arity["Array"] == 1
    case Table(keys, values) => Flat(h, keys) && Flat(h, values) && "Hash" in arity && arity["Hash"] == 2
    case _ => false
  }

  /** A type made from generic arguments speaks of the contents. */
  lemma TypedContents(arity: Arities, h: Heap, v: Ref, c: ConstantInstance)
    requires ValidHeap(h) && v in h && WellFormed(c) && !c.singleton && c.genericArguments != []
    requires c.name in {"Array", "Hash"} && c.name in arity && arity[c.name] == |c.genericArguments|
    ensures forall k :: 0 <= k < |c.genericArguments| ==> WellFormedArgument(c.genericArguments[k])
    ensures
      var t, arguments := ToRbsOne(arity, c), c.genericArguments;
      && t.ClassInstance? && |t.arguments| == |arguments|
      && (forall k :: 0 <= k < |arguments| ==> t.arguments[k] == ToRbs(arity, arguments[k].members))
      && (Conforms(h, v, t) <==> IsInstance(h[v], c.name) && ContentsConform(h, v, t))
  {
    hide ToRbs, ContentsConform;
    var t, arguments := ToRbsOne(arity, c), c.genericArguments;
    assert t.arguments == GenericArguments(arity, c.name, arguments);
    NeverUntyped(arity, arguments[0].members);
    assert t.arguments[0] in t.arguments;
  }

  lemma FlatOwnTypeIff(arity: Arities, h: Heap, v: Ref, depth: nat, limit: nat)
    requires ValidHeap(h) && v in h && depth < limit && FlatContainer(h, v, arity)
    ensures WellFormed(Summary(h, v, depth, limit))
    ensures Conforms(h, v, ToRbsOne(arity, Summary(h, v, depth, limit))) <==> Clean(h, v, depth, limit)
  {
    hide ToRbs, SafeTogether, UnionOf, WellFormed;
    SummaryIsShaped(h, v, depth, limit);
    if h[v].List? && h[v].items != [] {
      FlatContentsIff(arity, h, h[v].items, depth + 1, limit);
      NeverUntyped(arity, UnionOf(h, h[v].items, depth + 1, limit).members);
      TypedContents(arity, h, v, Summary(h, v, depth, limit));
    } else if h[v].Table? && h[v].keys != [] {
      FlatContentsIff(arity, h, h[v].keys, depth + 1, limit);
      FlatContentsIff(arity, h, h[v].values, depth + 1, limit);
      NeverUntyped(arity, UnionOf(h, h[v].keys, depth + 1, limit).members);
      NeverUntyped(arity, UnionOf(h, h[v].values, depth + 1, limit).members);
      TypedContents(arity, h, v, Summary(h, v, depth, limit));
    } else {
      NothingToSettle(h, depth + 1, limit);
    }
  }

  lemma NothingToSettle(h: Heap, depth: nat, limit: nat)
    requires ValidHeap(h) && depth <= limit
    ensures SafeTogether(h, [], depth, limit)
  {
  }

  /** For containers without nested containers, too, `Clean` is exact: such a container is
      accepted whatever else is seen with it if and only if it is clean. */
  lemma FlatCleanIsExact(arity: Arities, h: Heap, v: Ref, depth: nat, limit: nat)
    requires ValidHeap(h) && v in h && depth < limit && FlatContainer(h, v, arity)
    ensures Clean(h, v, depth, limit) <==>
              forall cs :: SeenAmong(cs, h, v, depth, limit) ==> Conforms(h, v, ToRbs(arity, cs))
  {
    hide Clean, Conforms, ToRbs, ToRbsOne, WellFormed, Shaped;
    var c := Summary(h, v, depth, limit);
    SummaryIsShaped(h, v, depth, limit);
    FlatOwnTypeIff(arity, h, v, depth, limit);
    AlternativesOfOne(c);
    UnionAccepts(arity, h, v, [c]);
    assert SeenAmong([c], h, v, depth, limit);
    if Clean(h, v, depth, limit) {
      forall cs | SeenAmong(cs, h, v, depth, limit)
        ensures Conforms(h, v, ToRbs(arity, cs))
      {
        Accepted(arity, h, v, depth, limit, cs);
      }
    }
  }
}
