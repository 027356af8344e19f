/** Summaries of observed values: the class of a value, with the classes of what an array or
    hash contains down to a maximum depth. */
module Values {
  import opened Traces

  type Ref = nat

  /** An object: an instance of a class other than Array and Hash, a class or module object,
      an array, or a hash. Objects refer to each other through the heap and may contain
      themselves. */
  datatype Node =
    | Plain(cls: string)
    | ClassObject(name: string)
    | List(items: seq<Ref>)
    | Table(keys: seq<Ref>, values: seq<Ref>)

  type Heap = map<Ref, Node>

  /** Class names are constant names, hence never `bool`; an instance of Array, Hash, Class
      or Module is one of the other kinds of node. */
  ghost predicate ValidHeap(h: Heap) {
    forall v :: v in h ==>
      match h[v]
      case Plain(c) => c !in {"Array", "Hash", "Class", "Module", "bool"}
      case ClassObject(n) => n != "bool"
      case List(items) => forall x :: x in items ==> x in h
      case Table(keys, values) =>
        |keys| == |values| && (forall x :: x in keys ==> x in h) && (forall x :: x in values ==> x in h)
  }

  // ---------------------------------------------------------------------------
  // What a summary is

  predicate Bare(c: ConstantInstance) {
    !c.singleton && c.genericArguments == []
  }

  /** Keeps every instance except a bare one that has occurred before. */
  function Compact(cs: seq<ConstantInstance>): seq<ConstantInstance> {
    if cs == [] then [] else
    var front, c := Compact(cs[..|cs| - 1]), cs[|cs| - 1];
    if Bare(c) && c in front then front else front + [c]
  }

  function Summary(h: Heap, v: Ref, depth: nat, limit: nat): ConstantInstance
    requires ValidHeap(h) && v in h && depth <= limit
    decreases limit - depth, 0
  {
    match h[v]
    case Plain(c) => ConstantInstance(c, false, [])
    case ClassObject(n) => ConstantInstance(n, true, [])
    case List(items) =>
      ConstantInstance("Array", false,
        if depth == limit || items == [] then [] else [UnionOf(h, items, depth + 1, limit)])
    case Table(keys, values) =>
      ConstantInstance("Hash", false,
        if depth == limit || keys == [] then []
        else [UnionOf(h, keys, depth + 1, limit), UnionOf(h, values, depth + 1, limit)])
  }

  function UnionOf(h: Heap, vs: seq<Ref>, depth: nat, limit: nat): Argument
    requires ValidHeap(h) && (forall v :: v in vs ==> v in h) && depth <= limit
    decreases limit - depth, 2
  {
    Argument(Compact(Summaries(h, vs, depth, limit)))
  }

  function Summaries(h: Heap, vs: seq<Ref>, depth: nat, limit: nat): (cs: seq<ConstantInstance>)
    requires ValidHeap(h) && (forall v :: v in vs ==> v in h) && depth <= limit
    ensures |cs| == |vs| && forall k :: 0 <= k < |vs| ==> cs[k] == Summary(h, vs[k], depth, limit)
    decreases limit - depth, 1, |vs|
  {
    if vs == [] then []
    else Summaries(h, vs[..|vs| - 1], depth, limit) + [Summary(h, vs[|vs| - 1], depth, limit)]
  }

  // ---------------------------------------------------------------------------
  // The summary as it is computed

  lemma SummariesSnoc(h: Heap, vs: seq<Ref>, n: nat, depth: nat, limit: nat)
    requires ValidHeap(h) && (forall v :: v in vs ==> v in h) && depth <= limit && n < |vs|
    ensures Summaries(h, vs[..n + 1], depth, limit)
         == Summaries(h, vs[..n], depth, limit) + [Summary(h, vs[n], depth, limit)]
  {
    assert vs[..n + 1][..n] == vs[..n];
  }

  lemma CompactSnoc(cs: seq<ConstantInstance>, c: ConstantInstance)
    ensures Compact(cs + [c]) == if Bare(c) && c in Compact(cs) then Compact(cs) else Compact(cs) + [c]
  {
    assert (cs + [c])[..|cs|] == cs;
  }

  /** The set of classes seen without generics, and the union in order of first occurrence. */
  ghost predicate Tracks(types: set<string>, union: seq<ConstantInstance>) {
    forall n :: n in types <==> ConstantInstance(n, false, []) in union
  }

  method Insert(types: set<string>, union: seq<ConstantInstance>, c: ConstantInstance)
    returns (types': set<string>, union': seq<ConstantInstance>)
    requires Tracks(types, union)
    ensures Tracks(types', union')
    ensures forall cs :: union == Compact(cs) ==> union' == Compact(cs + [c])
  {
    types', union' := types, union;
    if |c.genericArguments| == 0 && !c.singleton {
      if c.name !in types {
        types', union' := types + {c.name}, union + [c];
      }
    } else {
      union' := union + [c];
    }
    forall cs | union == Compact(cs)
      ensures union' == Compact(cs + [c])
    {
      CompactSnoc(cs, c);
    }
  }

  method ValueToConstantInstance(h: Heap, v: Ref, depth: nat, limit: nat) returns (c: ConstantInstance)
    requires ValidHeap(h) && v in h && depth <= limit
    ensures c == Summary(h, v, depth, limit)
    decreases limit - depth, 1
  {
    match h[v]
    case ClassObject(name) => c := ConstantInstance(name, true, []);
    case Plain(cls) =>
      var arguments := GenericArgumentsByValue(h, v, depth, limit);
      c := ConstantInstance(cls, false, arguments);
    case List(_) =>
      var arguments := GenericArgumentsByValue(h, v, depth, limit);
      c := ConstantInstance("Array", false, arguments);
    case Table(_, _) =>
      var arguments := GenericArgumentsByValue(h, v, depth, limit);
      c := ConstantInstance("Hash", false, arguments);
  }

  method GenericArgumentsByValue(h: Heap, v: Ref, depth: nat, limit: nat) returns (arguments: seq<Argument>)
    requires ValidHeap(h) && v in h && depth <= limit
    ensures h[v].ClassObject? || arguments == Summary(h, v, depth, limit).genericArguments
    decreases limit - depth, 0
  {
    arguments := [];
    if depth == limit {
      return;
    }
    match h[v]
    case List(items) =>
      if |items| > 0 {
        var union := UnionOfItems(h, items, depth + 1, limit);
        arguments := [Argument(union)];
      }
    case Table(keys, values) =>
      if |keys| > 0 {
        var keyUnion, valueUnion := UnionsOfEntries(h, keys, values, depth + 1, limit);
        arguments := [Argument(keyUnion), Argument(valueUnion)];
      }
    case _ =>
  }

  /** The loop over an array. */
  method UnionOfItems(h: Heap, items: seq<Ref>, depth: nat, limit: nat) returns (union: seq<ConstantInstance>)
    requires ValidHeap(h) && (forall x :: x in items ==> x in h) && depth <= limit
    ensures Argument(union) == UnionOf(h, items, depth, limit)
    decreases limit - depth, 2
  {
    hide Compact, Summary, Summaries;
    NothingToSummarise(h, depth, limit);
    var types: set<string> := {};
    union := [];
    for j := 0 to |items|
      invariant Tracks(types, union) && union == Compact(Summaries(h, items[..j], depth, limit))
    {
      var constant := ValueToConstantInstance(h, items[j], depth, limit);
      types, union := Insert(types, union, constant);
      SummariesSnoc(h, items, j, depth, limit);
    }
    assert items[..|items|] == items;
  }

  /** The loop over the entries of a hash. */
  method UnionsOfEntries(h: Heap, keys: seq<Ref>, values: seq<Ref>, depth: nat, limit: nat)
    returns (keyUnion: seq<ConstantInstance>, valueUnion: seq<ConstantInstance>)
    requires ValidHeap(h) && (forall x :: x in keys ==> x in h) && (forall x :: x in values ==> x in h)
    requires |keys| == |values| && depth <= limit
    ensures Argument(keyUnion) == UnionOf(h, keys, depth, limit)
    ensures Argument(valueUnion) == UnionOf(h, values, depth, limit)
    decreases limit - depth, 2
  {
    hide Compact, Summary, Summaries;
    NothingToSummarise(h, depth, limit);
    var keyTypes: set<string>, valueTypes: set<string> := {}, {};
    keyUnion, valueUnion := [], [];
    for j := 0 to |keys|
      invariant Tracks(keyTypes, keyUnion) && keyUnion == Compact(Summaries(h, keys[..j], depth, limit))
      invariant Tracks(valueTypes, valueUnion) && valueUnion == Compact(Summaries(h, values[..j], depth, limit))
    {
      var keyConstant := ValueToConstantInstance(h, keys[j], depth, limit);
      keyTypes, keyUnion := Insert(keyTypes, keyUnion, keyConstant);
      var valueConstant := ValueToConstantInstance(h, values[j], depth, limit);
      valueTypes, valueUnion := Insert(valueTypes, valueUnion, valueConstant);
      SummariesSnoc(h, keys, j, depth, limit);
      SummariesSnoc(h, values, j, depth, limit);
    }
    assert keys[..|keys|] == keys && values[..|values|] == values;
  }

  lemma NothingToSummarise(h: Heap, depth: nat, limit: nat)
    requires ValidHeap(h) && depth <= limit
    ensures Compact(Summaries(h, [], depth, limit)) == []
  {
  }

  // ---------------------------------------------------------------------------
  // Properties of summaries

  /** A compacted union has the members of the list, bare ones once. */
  lemma {:induction false} CompactMembers(cs: seq<ConstantInstance>)
    ensures forall c :: c in Compact(cs) <==> c in cs
    ensures forall i, j :: 0 <= i < j < |Compact(cs)| && Bare(Compact(cs)[i]) ==> Compact(cs)[i] != Compact(cs)[j]
  {
    if cs != [] {
      var front, c := cs[..|cs| - 1], cs[|cs| - 1];
      CompactMembers(front);
      assert cs == front + [c];
    }
  }

  /** An element that stays: one that is not bare, or a bare one's first occurrence. */
  predicate Stays(cs: seq<ConstantInstance>, i: nat)
    requires i < |cs|
  {
    Bare(cs[i]) ==> cs[i] !in cs[..i]
  }

  function Staying(cs: seq<ConstantInstance>, n: nat): seq<ConstantInstance>
    requires n <= |cs|
  {
    if n == 0 then [] else Staying(cs, n - 1) + if Stays(cs, n - 1) then [cs[n - 1]] else []
  }

  lemma {:induction false} CompactPrefix(cs: seq<ConstantInstance>, n: nat)
    requires n <= |cs|
    ensures Compact(cs[..n]) == Staying(cs, n)
  {
    if n > 0 {
      CompactPrefix(cs, n - 1);
      CompactMembers(cs[..n - 1]);
      assert cs[..n][..n - 1] == cs[..n - 1];
    }
  }

  /** A union keeps the order of first occurrence: it is the list without the repeats of bare
      members. */
  lemma CompactKeepsOrder(cs: seq<ConstantInstance>)
    ensures Compact(cs) == Staying(cs, |cs|)
  {
    CompactPrefix(cs, |cs|);
    assert cs[..|cs|] == cs;
  }

  /** Summarising never goes deeper than the limit, even for values that contain themselves:
      at most limit - depth levels of generics are nested. */
  lemma {:induction false} SummaryIsShallow(h: Heap, v: Ref, depth: nat, limit: nat)
    requires ValidHeap(h) && v in h && depth <= limit
    ensures NestsAtMost(Summary(h, v, depth, limit), limit - depth)
    decreases limit - depth, 0
  {
    if depth < limit {
      match h[v]
      case List(items) => UnionIsShallow(h, items, depth + 1, limit);
      case Table(keys, values) =>
        UnionIsShallow(h, keys, depth + 1, limit);
        UnionIsShallow(h, values, depth + 1, limit);
      case _ =>
    }
  }

  lemma {:induction false} UnionIsShallow(h: Heap, vs: seq<Ref>, depth: nat, limit: nat)
    requires ValidHeap(h) && (forall v :: v in vs ==> v in h) && depth <= limit
    ensures forall m :: m in UnionOf(h, vs, depth, limit).members ==> NestsAtMost(m, limit - depth)
    decreases limit - depth, 1
  {
    CompactMembers(Summaries(h, vs, depth, limit));
    forall m | m in UnionOf(h, vs, depth, limit).members
      ensures NestsAtMost(m, limit - depth)
    {
      var k :| 0 <= k < |vs| && Summaries(h, vs, depth, limit)[k] == m;
      SummaryIsShallow(h, vs[k], depth, limit);
    }
  }

  /** At most n levels of generic arguments. */
  predicate NestsAtMost(c: ConstantInstance, n: nat)
    decreases n
  {
    c.genericArguments == []
    || (n > 0 && forall a :: a in c.genericArguments ==> forall m :: m in a.members ==> NestsAtMost(m, n - 1))
  }

  /** The class of a value, and whether it is a class object, is what its summary names. */
  lemma SummaryNames(h: Heap, v: Ref, depth: nat, limit: nat)
    requires ValidHeap(h) && v in h && depth <= limit
    ensures
      var c := Summary(h, v, depth, limit);
      match h[v]
      case Plain(cls) => c == ConstantInstance(cls, false, [])
      case ClassObject(name) => c == ConstantInstance(name, true, [])
      case List(_) => c.name == "Array" && !c.singleton
      case Table(_, _) => c.name == "Hash" && !c.singleton
  {
  }

  /** Below the limit a container that holds something has one argument for its elements, or one
      for its keys and one for its values, and the members of each are exactly the summaries of
      what it holds, taken one level further down. At the limit there are no arguments. */
  lemma ArgumentsGoOneDown(h: Heap, v: Ref, depth: nat, limit: nat)
    requires ValidHeap(h) && v in h && depth <= limit
    ensures
      var arguments := Summary(h, v, depth, limit).genericArguments;
      match h[v]
      case List(items) =>
        if depth == limit || items == [] then arguments == [] else
        |arguments| == 1 && Summarises(h, arguments[0], items, depth + 1, limit)
      case Table(keys, values) =>
        if depth == limit || keys == [] then arguments == [] else
        && |arguments| == 2 && Summarises(h, arguments[0], keys, depth + 1, limit)
        && Summarises(h, arguments[1], values, depth + 1, limit)
      case _ => arguments == []
  {
    hide Compact;
    if depth < limit {
      match h[v]
      case List(items) => CompactMembers(Summaries(h, items, depth + 1, limit));
      case Table(keys, values) =>
        CompactMembers(Summaries(h, keys, depth + 1, limit));
        CompactMembers(Summaries(h, values, depth + 1, limit));
      case _ =>
    }
  }

  /** The members are the summaries of these values. */
  ghost predicate Summarises(h: Heap, a: Argument, vs: seq<Ref>, depth: nat, limit: nat)
    requires ValidHeap(h) && (forall v :: v in vs ==> v in h) && depth <= limit
  {
    forall m :: m in a.members <==> exists k :: 0 <= k < |vs| && m == Summary(h, vs[k], depth, limit)
  }

  /** What a value holds: elements, or keys and values. */
  function HeldBy(node: Node): seq<Ref> {
    match node
    case List(items) => items
    case Table(keys, values) => keys + values
    case _ => []
  }

  /** x is held k levels down in v: by one that is held k - 1 levels down. */
  ghost predicate HeldDown(h: Heap, v: Ref, x: Ref, k: nat)
    requires ValidHeap(h) && v in h
    decreases k
  {
    if k == 0 then x == v else exists w :: w in HeldBy(h[v]) && w in h && HeldDown(h, w, x, k - 1)
  }

  /** m stands k generic levels down in c. */
  ghost predicate NestedDown(c: ConstantInstance, m: ConstantInstance, k: nat) {
    if k == 0 then m == c else
    exists a, x :: a in c.genericArguments && x in a.members && NestedDown(x, m, k - 1)
  }

  /** k levels down in a summary stands exactly what is held k levels down in the value,
      summarised there, as deep as the limit allows. */
  lemma {:induction false} SummaryGoesToTheLimit(h: Heap, v: Ref, depth: nat, limit: nat, k: nat, m: ConstantInstance)
    requires ValidHeap(h) && v in h && depth <= limit
    ensures NestedDown(Summary(h, v, depth, limit), m, k) <==>
              depth + k <= limit
              && exists x :: HeldDown(h, v, x, k) && x in h && m == Summary(h, x, depth + k, limit)
    decreases k, 1
  {
    hide Summary;
    var c := Summary(h, v, depth, limit);
    if k == 0 {
      assert HeldDown(h, v, v, 0);
    } else {
      if NestedDown(c, m, k) {
        var a, n :| a in c.genericArguments && n in a.members && NestedDown(n, m, k - 1);
        NestedIsHeld(h, v, depth, limit, k, m, a, n);
      }
      if depth + k <= limit {
        if x :| HeldDown(h, v, x, k) && x in h && m == Summary(h, x, depth + k, limit) {
          HeldIsNested(h, v, depth, limit, k, m, x);
        }
      }
    }
  }

  lemma {:induction false} NestedIsHeld(
      h: Heap, v: Ref, depth: nat, limit: nat, k: nat, m: ConstantInstance, a: Argument, c: ConstantInstance)
    requires ValidHeap(h) && v in h && depth <= limit && k > 0
    requires a in Summary(h, v, depth, limit).genericArguments && c in a.members && NestedDown(c, m, k - 1)
    ensures depth + k <= limit && exists x :: HeldDown(h, v, x, k) && x in h && m == Summary(h, x, depth + k, limit)
    decreases k, 0
  {
    hide Summary, NestedDown, HeldBy;
    var w := Holder(h, v, depth, limit, a, c);
    SummaryGoesToTheLimit(h, w, depth + 1, limit, k - 1, m);
    var x :| HeldDown(h, w, x, k - 1) && x in h && m == Summary(h, x, depth + 1 + (k - 1), limit);
    assert HeldDown(h, v, x, k);
  }

  /** The value that a member of an argument summarises. */
  lemma Holder(h: Heap, v: Ref, depth: nat, limit: nat, a: Argument, c: ConstantInstance) returns (w: Ref)
    requires ValidHeap(h) && v in h && depth <= limit
    requires a in Summary(h, v, depth, limit).genericArguments && c in a.members
    ensures depth < limit && w in h && w in HeldBy(h[v]) && c == Summary(h, w, depth + 1, limit)
  {
    hide Summary;
    ArgumentsGoOneDown(h, v, depth, limit);
    match h[v]
    case List(items) =>
      var i :| 0 <= i < |items| && c == Summary(h, items[i], depth + 1, limit);
      w := items[i];
    case Table(keys, values) =>
      if a == Summary(h, v, depth, limit).genericArguments[0] {
        var i :| 0 <= i < |keys| && c == Summary(h, keys[i], depth + 1, limit);
        w := keys[i];
      } else {
        var i :| 0 <= i < |values| && c == Summary(h, values[i], depth + 1, limit);
        w := values[i];
      }
  }

  /** The argument in which a held value is summarised. */
  lemma ArgumentFor(h: Heap, v: Ref, depth: nat, limit: nat, w: Ref) returns (a: Argument)
    requires ValidHeap(h) && v in h && depth < limit && w in HeldBy(h[v]) && w in h
    ensures a in Summary(h, v, depth, limit).genericArguments && Summary(h, w, depth + 1, limit) in a.members
  {
    hide Summary;
    ArgumentsGoOneDown(h, v, depth, limit);
    var arguments := Summary(h, v, depth, limit).genericArguments;
    match h[v]
    case List(items) =>
      var i :| 0 <= i < |items| && items[i] == w;
      a := arguments[0];
    case Table(keys, values) =>
      if w in keys {
        var i :| 0 <= i < |keys| && keys[i] == w;
        a := arguments[0];
      } else {
        var i :| 0 <= i < |values| && values[i] == w;
        a := arguments[1];
      }
  }

  lemma {:induction false} HeldIsNested(
      h: Heap, v: Ref, depth: nat, limit: nat, k: nat, m: ConstantInstance, x: Ref)
    requires ValidHeap(h) && v in h && k > 0 && depth + k <= limit
    requires HeldDown(h, v, x, k) && x in h && m == Summary(h, x, depth + k, limit)
    ensures NestedDown(Summary(h, v, depth, limit), m, k)
    decreases k, 0
  {
    hide Summary, HeldBy;
    var w :| w in HeldBy(h[v]) && w in h && HeldDown(h, w, x, k - 1);
    var a := ArgumentFor(h, v, depth, limit, w);
    SummaryGoesToTheLimit(h, w, depth + 1, limit, k - 1, m);
  }

  /** A bare Array or Hash that stands k levels down is an empty container, or k is all the
      levels there were left. */
  lemma BareIsEmptyOrDeepest(h: Heap, v: Ref, depth: nat, limit: nat, k: nat, m: ConstantInstance) returns (x: Ref)
    requires ValidHeap(h) && v in h && depth <= limit && NestedDown(Summary(h, v, depth, limit), m, k)
    requires Bare(m) && m.name in {"Array", "Hash"}
    ensures x in h && HeldDown(h, v, x, k) && depth + k <= limit && m == Summary(h, x, depth + k, limit)
    ensures h[x] == List([]) || h[x] == Table([], []) || k == limit - depth
  {
    hide Summary, NestedDown, HeldDown;
    SummaryGoesToTheLimit(h, v, depth, limit, k, m);
    x :| HeldDown(h, v, x, k) && x in h && m == Summary(h, x, depth + k, limit);
    if depth + k < limit {
      BareMeansEmpty(h, x, depth + k, limit);
    }
  }

  /** Below the limit a bare Array or Hash is the summary of an empty one. */
  lemma BareMeansEmpty(h: Heap, v: Ref, depth: nat, limit: nat)
    requires ValidHeap(h) && v in h && depth < limit
    requires Bare(Summary(h, v, depth, limit)) && Summary(h, v, depth, limit).name in {"Array", "Hash"}
    ensures h[v] == List([]) || h[v] == Table([], [])
  {
  }
}
