/** Who owns which allocation: traces, the traces of their blocks and the arrays of generic
    arguments, from allocation to the recursive free. */
module Ownership {
  import opened Traces
  import opened Values
  import BlockCalls

  type Address = nat

  /** A constant instance with the address of its array of generic arguments, if it has one. */
  datatype Instance = Instance(name: string, singleton: bool, argumentArray: Option<Address>, lists: seq<Members>)

  datatype Members = Members(items: seq<Instance>)

  /** What a trace holds: its name, its parameters' names and their array, and the instances of
      its owner, callee, parameters, return value and block receiver. */
  datatype Piece = Bytes(at: Address) | Typed(instance: Instance)

  /** A heap-allocated trace, and what it holds for a block parameter. */
  datatype Owned = Owned(address: Address, pieces: seq<Piece>, block: Option<Block>)

  datatype Block = Block(name: Option<Address>, traces: seq<Owned>, stack: seq<BlockCall>)

  /** An entry of the block stack: a null pointer or the trace of a running block call. */
  datatype BlockCall = Inner | Outer(trace: Owned)

  // ---------------------------------------------------------------------------
  // The addresses in a structure

  function InInstance(c: Instance): multiset<Address>
    decreases c
  {
    (match c.argumentArray case None => multiset{} case Some(a) => multiset{a} + InLists(c.lists))
  }

  function InLists(lists: seq<Members>): multiset<Address>
    decreases lists
  {
    if lists == [] then multiset{} else InInstances(lists[0].items) + InLists(lists[1..])
  }

  function InInstances(cs: seq<Instance>): multiset<Address>
    decreases cs
  {
    if cs == [] then multiset{} else InInstance(cs[0]) + InInstances(cs[1..])
  }

  function InPiece(p: Piece): multiset<Address> {
    match p
    case Bytes(at) => multiset{at}
    case Typed(instance) => InInstance(instance)
  }

  function InPieces(ps: seq<Piece>): multiset<Address> {
    if ps == [] then multiset{} else InPiece(ps[0]) + InPieces(ps[1..])
  }

  function InName(name: Option<Address>): multiset<Address> {
    match name case None => multiset{} case Some(a) => multiset{a}
  }

  function InTrace(t: Owned): multiset<Address>
    decreases t
  {
    multiset{t.address} + InPieces(t.pieces) + InBlock(t.block)
  }

  function InBlock(b: Option<Block>): multiset<Address>
    decreases b
  {
    match b
    case None => multiset{}
    case Some(block) => InName(block.name) + InTraces(block.traces) + InStack(block.stack)
  }

  function InTraces(ts: seq<Owned>): multiset<Address>
    decreases ts
  {
    if ts == [] then multiset{} else InTrace(ts[0]) + InTraces(ts[1..])
  }

  function InStack(stack: seq<BlockCall>): multiset<Address>
    decreases stack
  {
    if stack == [] then multiset{}
    else InCall(stack[0]) + InStack(stack[1..])
  }

  function InCall(c: BlockCall): multiset<Address>
    decreases c
  {
    match c
    case Inner => multiset{}
    case Outer(t) => InTrace(t)
  }

  // ---------------------------------------------------------------------------
  // The order in which the recursive free releases them

  function FreedByInstance(c: Instance): seq<Address>
    decreases c
  {
    match c.argumentArray case None => [] case Some(a) => FreedByLists(c.lists) + [a]
  }

  function FreedByLists(lists: seq<Members>): seq<Address>
    decreases lists
  {
    if lists == [] then [] else FreedByInstances(lists[0].items) + FreedByLists(lists[1..])
  }

  function FreedByInstances(cs: seq<Instance>): seq<Address>
    decreases cs
  {
    if cs == [] then [] else FreedByInstance(cs[0]) + FreedByInstances(cs[1..])
  }

  function FreedByPiece(p: Piece): seq<Address> {
    match p
    case Bytes(at) => [at]
    case Typed(instance) => FreedByInstance(instance)
  }

  function FreedByPieces(ps: seq<Piece>): seq<Address> {
    if ps == [] then [] else FreedByPiece(ps[0]) + FreedByPieces(ps[1..])
  }

  function FreedByName(name: Option<Address>): seq<Address> {
    match name case None => [] case Some(a) => [a]
  }

  function FreedByTrace(t: Owned): seq<Address>
    decreases t
  {
    FreedByPieces(t.pieces) + FreedByBlock(t.block) + [t.address]
  }

  function FreedByBlock(b: Option<Block>): seq<Address>
    decreases b
  {
    match b
    case None => []
    case Some(block) => FreedByName(block.name) + (FreedByTraces(block.traces) + FreedByStack(block.stack))
  }

  function FreedByTraces(ts: seq<Owned>): seq<Address>
    decreases ts
  {
    if ts == [] then [] else FreedByTrace(ts[0]) + FreedByTraces(ts[1..])
  }

  function FreedByStack(stack: seq<BlockCall>): seq<Address>
    decreases stack
  {
    if stack == [] then []
    else FreedByCall(stack[0]) + FreedByStack(stack[1..])
  }

  function FreedByCall(c: BlockCall): seq<Address>
    decreases c
  {
    match c
    case Inner => []
    case Outer(t) => FreedByTrace(t)
  }

  /** The free as it runs, releasing one allocation at a time. */
  class Allocator {
    var freed: seq<Address>

    constructor ()
      ensures freed == []
    {
      freed := [];
    }

    method Release(a: Address)
      modifies this
      ensures freed == old(freed) + [a]
    {
      freed := freed + [a];
    }

    method FreeConstantInstance(c: Instance)
      modifies this
      ensures freed == old(freed) + FreedByInstance(c)
      decreases c
    {
      if c.argumentArray.Some? {
        for i := 0 to |c.lists|
          invariant freed + FreedByLists(c.lists[i..]) == old(freed) + FreedByLists(c.lists)
        {
          var items := c.lists[i].items;
          ghost var all, later := old(freed) + FreedByLists(c.lists), FreedByLists(c.lists[i + 1..]);
          assert c.lists[i..][1..] == c.lists[i + 1..];
          for j := 0 to |items|
            invariant freed + (FreedByInstances(items[j..]) + later) == all
          {
            assert items[j..][1..] == items[j + 1..];
            Regroup(freed, FreedByInstance(items[j]), FreedByInstances(items[j + 1..]), later);
            FreeConstantInstance(items[j]);
          }
          assert items[|items|..] == [];
        }
        assert c.lists[|c.lists|..] == [];
        Regroup(old(freed), FreedByLists(c.lists), [c.argumentArray.value], []);
        Release(c.argumentArray.value);
      }
    }

    method FreePieces(ps: seq<Piece>)
      modifies this
      ensures freed == old(freed) + FreedByPieces(ps)
    {
      for i := 0 to |ps|
        invariant freed + FreedByPieces(ps[i..]) == old(freed) + FreedByPieces(ps)
      {
        assert ps[i..][1..] == ps[i + 1..];
        Regroup(freed, FreedByPiece(ps[i]), FreedByPieces(ps[i + 1..]), []);
        match ps[i] {
          case Bytes(at) => Release(at);
          case Typed(instance) => FreeConstantInstance(instance);
        }
      }
    }

    method FreeBlockParam(b: Block)
      modifies this
      ensures freed == old(freed) + FreedByBlock(Some(b))
      decreases b
    {
      hide FreedByTrace;
      ghost var all, stack := old(freed) + FreedByBlock(Some(b)), FreedByStack(b.stack);
      if b.name.Some? {
        Release(b.name.value);
      }
      assert freed + (FreedByTraces(b.traces) + stack) == all;
      for i := 0 to |b.traces|
        invariant freed + (FreedByTraces(b.traces[i..]) + stack) == all
      {
        assert b.traces[i..][1..] == b.traces[i + 1..];
        Regroup(freed, FreedByTrace(b.traces[i]), FreedByTraces(b.traces[i + 1..]), stack);
        FreeTrace(b.traces[i]);
      }
      assert b.traces[|b.traces|..] == [];
      for i := 0 to |b.stack|
        invariant freed + FreedByStack(b.stack[i..]) == all
      {
        assert b.stack[i..][1..] == b.stack[i + 1..];
        if b.stack[i].Outer? {
          Regroup(freed, FreedByTrace(b.stack[i].trace), FreedByStack(b.stack[i + 1..]), []);
          FreeTrace(b.stack[i].trace);
        }
      }
    }

    method FreeTrace(t: Owned)
      modifies this
      ensures freed == old(freed) + FreedByTrace(t)
      decreases t
    {
      FreePieces(t.pieces);
      if t.block.Some? {
        FreeBlockParam(t.block.value);
      }
      Release(t.address);
    }
  }

  lemma Regroup(sofar: seq<Address>, part: seq<Address>, more: seq<Address>, later: seq<Address>)
    ensures (sofar + part) + (more + later) == sofar + ((part + more) + later)
    ensures (sofar + part) + more == sofar + (part + more)
  {
  }

  // ---------------------------------------------------------------------------
  // The free releases everything owned, each once

  lemma {:induction false} InstanceIsFreed(c: Instance)
    ensures multiset(FreedByInstance(c)) == InInstance(c)
    decreases c
  {
    if c.argumentArray.Some? {
      ListsAreFreed(c.lists);
    }
  }

  lemma {:induction false} ListsAreFreed(lists: seq<Members>)
    ensures multiset(FreedByLists(lists)) == InLists(lists)
    decreases lists
  {
    if lists != [] {
      InstancesAreFreed(lists[0].items);
      ListsAreFreed(lists[1..]);
    }
  }

  lemma {:induction false} InstancesAreFreed(cs: seq<Instance>)
    ensures multiset(FreedByInstances(cs)) == InInstances(cs)
    decreases cs
  {
    if cs != [] {
      InstanceIsFreed(cs[0]);
      InstancesAreFreed(cs[1..]);
    }
  }

  lemma {:induction false} PiecesAreFreed(ps: seq<Piece>)
    ensures multiset(FreedByPieces(ps)) == InPieces(ps)
  {
    if ps != [] {
      if ps[0].Typed? {
        InstanceIsFreed(ps[0].instance);
      }
      PiecesAreFreed(ps[1..]);
    }
  }

  /** Freeing a trace releases exactly what it owns, every allocation as often as it occurs. */
  lemma {:induction false} TraceIsFreed(t: Owned)
    ensures multiset(FreedByTrace(t)) == InTrace(t)
    decreases t
  {
    PiecesAreFreed(t.pieces);
    BlockIsFreed(t.block);
  }

  lemma {:induction false} BlockIsFreed(b: Option<Block>)
    ensures multiset(FreedByBlock(b)) == InBlock(b)
    decreases b
  {
    if b.Some? {
      TracesAreFreed(b.value.traces);
      StackIsFreed(b.value.stack);
    }
  }

  lemma {:induction false} TracesAreFreed(ts: seq<Owned>)
    ensures multiset(FreedByTraces(ts)) == InTraces(ts)
    decreases ts
  {
    if ts != [] {
      TraceIsFreed(ts[0]);
      TracesAreFreed(ts[1..]);
    }
  }

  lemma {:induction false} StackIsFreed(stack: seq<BlockCall>)
    ensures multiset(FreedByStack(stack)) == InStack(stack)
    decreases stack
  {
    if stack != [] {
      CallIsFreed(stack[0]);
      StackIsFreed(stack[1..]);
    }
  }

  lemma {:induction false} CallIsFreed(c: BlockCall)
    ensures multiset(FreedByCall(c)) == InCall(c)
    decreases c
  {
    if c.Outer? {
      TraceIsFreed(c.trace);
    }
  }

  // ---------------------------------------------------------------------------
  // Nothing is released before what it leads to

  /** The array of an instance is released behind the arrays of all instances in it. */
  lemma ArraysComeLast(c: Instance, lists: nat, k: nat) returns (before: seq<Address>, behind: seq<Address>)
    requires c.argumentArray.Some? && lists < |c.lists| && k < |c.lists[lists].items|
    ensures FreedByInstance(c) == before + FreedByInstance(c.lists[lists].items[k]) + behind + [c.argumentArray.value]
  {
    hide FreedByInstance, FreedByInstances, FreedByLists;
    var items := c.lists[lists].items;
    var a, b := ListWithin(c.lists, lists);
    var x, y := InstanceWithin(items, k);
    before, behind := a + x, y + b;
    FreedWithArray(c);
    assert a + (x + FreedByInstance(items[k]) + y) + b == before + FreedByInstance(items[k]) + behind;
  }

  lemma FreedWithArray(c: Instance)
    requires c.argumentArray.Some?
    ensures FreedByInstance(c) == FreedByLists(c.lists) + [c.argumentArray.value]
  {
  }

  lemma {:induction false} ListWithin(lists: seq<Members>, i: nat) returns (before: seq<Address>, behind: seq<Address>)
    requires i < |lists|
    ensures FreedByLists(lists) == before + FreedByInstances(lists[i].items) + behind
  {
    hide FreedByInstances;
    if i == 0 {
      before, behind := [], FreedByLists(lists[1..]);
    } else {
      var a, b := ListWithin(lists[1..], i - 1);
      before, behind := FreedByInstances(lists[0].items) + a, b;
    }
  }

  lemma {:induction false} InstanceWithin(cs: seq<Instance>, i: nat)
    returns (before: seq<Address>, behind: seq<Address>)
    requires i < |cs|
    ensures FreedByInstances(cs) == before + FreedByInstance(cs[i]) + behind
  {
    hide FreedByInstance;
    if i == 0 {
      before, behind := [], FreedByInstances(cs[1..]);
    } else {
      var a, b := InstanceWithin(cs[1..], i - 1);
      before, behind := FreedByInstance(cs[0]) + a, b;
    }
  }

  /** A trace is released behind the traces of its block, recorded or running, and last of all. */
  lemma TracesComeLast(t: Owned, u: Owned) returns (before: seq<Address>, behind: seq<Address>)
    requires t.block.Some? && (u in t.block.value.traces || Outer(u) in t.block.value.stack)
    ensures FreedByTrace(t) == before + FreedByTrace(u) + behind + [t.address]
  {
    hide FreedByTrace, FreedByTraces, FreedByStack;
    var b, pieces := t.block.value, FreedByPieces(t.pieces);
    FreedWithBlock(t);
    if u in b.traces {
      var i :| 0 <= i < |b.traces| && b.traces[i] == u;
      var x, y := TraceWithin(b.traces, i);
      before, behind := pieces + (FreedByName(b.name) + x), y + FreedByStack(b.stack);
      Nest(pieces, FreedByName(b.name), x, FreedByTrace(u), y, FreedByStack(b.stack));
    } else {
      var i :| 0 <= i < |b.stack| && b.stack[i] == Outer(u);
      var x, y := CallWithin(b.stack, i);
      before, behind := pieces + (FreedByName(b.name) + (FreedByTraces(b.traces) + x)), y;
      NestLast(pieces, FreedByName(b.name), FreedByTraces(b.traces), x, FreedByTrace(u), y);
    }
  }

  lemma Nest(a: seq<Address>, b: seq<Address>, x: seq<Address>, u: seq<Address>, y: seq<Address>, c: seq<Address>)
    ensures a + (b + ((x + u + y) + c)) == (a + (b + x)) + u + (y + c)
  {
  }

  lemma NestLast(a: seq<Address>, b: seq<Address>, c: seq<Address>, x: seq<Address>, u: seq<Address>, y: seq<Address>)
    ensures a + (b + (c + (x + u + y))) == (a + (b + (c + x))) + u + y
  {
  }

  lemma FreedWithBlock(t: Owned)
    requires t.block.Some?
    ensures
      var b := t.block.value;
      FreedByTrace(t) ==
        FreedByPieces(t.pieces) + (FreedByName(b.name) + (FreedByTraces(b.traces) + FreedByStack(b.stack)))
        + [t.address]
  {
  }

  lemma {:induction false} TraceWithin(ts: seq<Owned>, i: nat) returns (before: seq<Address>, behind: seq<Address>)
    requires i < |ts|
    ensures FreedByTraces(ts) == before + FreedByTrace(ts[i]) + behind
  {
    hide FreedByTrace;
    if i == 0 {
      before, behind := [], FreedByTraces(ts[1..]);
    } else {
      var a, b := TraceWithin(ts[1..], i - 1);
      before, behind := FreedByTrace(ts[0]) + a, b;
    }
  }

  lemma {:induction false} CallWithin(stack: seq<BlockCall>, i: nat)
    returns (before: seq<Address>, behind: seq<Address>)
    requires i < |stack| && stack[i].Outer?
    ensures FreedByStack(stack) == before + FreedByTrace(stack[i].trace) + behind
  {
    hide FreedByTrace;
    if i == 0 {
      before, behind := [], FreedByStack(stack[1..]);
    } else {
      var a, b := CallWithin(stack[1..], i - 1);
      before, behind := FreedByCall(stack[0]) + a, b;
    }
  }

  // ---------------------------------------------------------------------------
  // What a summary allocates

  /** Summaries with the arrays allocated for them, numbered from n on; the result holds the
      next free number. An instance that is dropped as a repeat has no array. */
  function Build(h: Heap, v: Ref, depth: nat, limit: nat, n: nat): (Instance, nat)
    requires ValidHeap(h) && v in h && depth <= limit
    decreases limit - depth, 0
  {
    match h[v]
    case Plain(c) => (Instance(c, false, None, []), n)
    case ClassObject(c) => (Instance(c, true, None, []), n)
    case List(items) =>
      if depth == limit || items == [] then (Instance("Array", false, None, []), n) else
      var (members, end) := BuildAll(h, items, depth + 1, limit, n);
      (Instance("Array", false, Some(end), [Members(members)]), end + 1)
    case Table(keys, values) =>
      if depth == limit || keys == [] then (Instance("Hash", false, None, []), n) else
      var (keyMembers, valueMembers, end) := BuildEntries(h, keys, values, depth + 1, limit, n);
      (Instance("Hash", false, Some(end), [Members(keyMembers), Members(valueMembers)]), end + 1)
  }

  predicate IsBare(c: Instance) {
    c.argumentArray == None && !c.singleton
  }

  function Collect(members: seq<Instance>, c: Instance): seq<Instance> {
    if IsBare(c) && (exists m :: m in members && IsBare(m) && m.name == c.name) then members else members + [c]
  }

  function BuildAll(h: Heap, vs: seq<Ref>, depth: nat, limit: nat, n: nat): (seq<Instance>, nat)
    requires ValidHeap(h) && (forall v :: v in vs ==> v in h) && depth <= limit
    decreases limit - depth, 1, |vs|
  {
    if vs == [] then ([], n) else
    var (members, mid) := BuildAll(h, vs[..|vs| - 1], depth, limit, n);
    var (c, end) := Build(h, vs[|vs| - 1], depth, limit, mid);
    (Collect(members, c), end)
  }

  function BuildEntries(h: Heap, keys: seq<Ref>, values: seq<Ref>, depth: nat, limit: nat, n: nat)
    : (seq<Instance>, seq<Instance>, nat)
    requires ValidHeap(h) && (forall v :: v in keys ==> v in h) && (forall v :: v in values ==> v in h)
    requires |keys| == |values| && depth <= limit
    decreases limit - depth, 1, |keys|
  {
    if keys == [] then ([], [], n) else
    var (keyMembers, valueMembers, mid) := BuildEntries(h, keys[..|keys| - 1], values[..|keys| - 1], depth, limit, n);
    var (k, afterKey) := Build(h, keys[|keys| - 1], depth, limit, mid);
    var (v, end) := Build(h, values[|keys| - 1], depth, limit, afterKey);
    (Collect(keyMembers, k), Collect(valueMembers, v), end)
  }

  /** A built instance owns exactly the arrays allocated while it was built. */
  ghost predicate Owns(c: Instance, n: nat, end: nat) {
    n <= end && InInstance(c) == Range(n, end) && (c.argumentArray == None ==> n == end)
  }

  lemma {:induction false} CollectOwns(
      members: seq<Instance>, c: Instance, owned: multiset<Address>, mid: nat, end: nat)
    requires InInstances(members) == owned && Owns(c, mid, end)
    ensures InInstances(Collect(members, c)) == owned + Range(mid, end)
  {
    hide InInstance;
    InstancesSnoc(members, c);
    assert Range(mid, mid) == multiset{};
  }

  /** No array is lost: summarising a value leaves exactly the arrays it allocated in the
      summary, although repeated members are dropped on the way. */
  lemma {:induction false} BuildOwns(h: Heap, v: Ref, depth: nat, limit: nat, n: nat)
    requires ValidHeap(h) && v in h && depth <= limit
    ensures Owns(Build(h, v, depth, limit, n).0, n, Build(h, v, depth, limit, n).1)
    decreases limit - depth, 0
  {
    hide BuildAll, BuildEntries, InLists, InInstances, Range, Owns, InInstance;
    if depth < limit && h[v].List? && h[v].items != [] {
      BuildAllOwns(h, h[v].items, depth + 1, limit, n);
      var (members, end) := BuildAll(h, h[v].items, depth + 1, limit, n);
      OneList(members);
      GenericOwns("Array", [Members(members)], n, end);
    } else if depth < limit && h[v].Table? && h[v].keys != [] {
      BuildEntriesOwn(h, h[v].keys, h[v].values, depth + 1, limit, n);
      var (keyMembers, valueMembers, end) := BuildEntries(h, h[v].keys, h[v].values, depth + 1, limit, n);
      TwoLists(keyMembers, valueMembers);
      GenericOwns("Hash", [Members(keyMembers), Members(valueMembers)], n, end);
    } else {
      BareOwns(Build(h, v, depth, limit, n).0, n);
    }
  }

  lemma GenericOwns(name: string, lists: seq<Members>, n: nat, end: nat)
    requires n <= end && InLists(lists) == Range(n, end)
    ensures Owns(Instance(name, false, Some(end), lists), n, end + 1)
  {
    hide InLists;
    assert Range(n, end + 1) == Range(n, end) + multiset{end};
  }

  lemma BareOwns(c: Instance, n: nat)
    requires c.argumentArray == None
    ensures Owns(c, n, n)
  {
  }

  lemma OneList(members: seq<Instance>)
    ensures InLists([Members(members)]) == InInstances(members)
  {
  }

  lemma TwoLists(a: seq<Instance>, b: seq<Instance>)
    ensures InLists([Members(a), Members(b)]) == InInstances(a) + InInstances(b)
  {
    assert [Members(a), Members(b)][1..] == [Members(b)];
    OneList(b);
  }

  lemma {:induction false} BuildAllOwns(h: Heap, vs: seq<Ref>, depth: nat, limit: nat, n: nat)
    requires ValidHeap(h) && (forall v :: v in vs ==> v in h) && depth <= limit
    ensures
      var (members, end) := BuildAll(h, vs, depth, limit, n);
      n <= end && InInstances(members) == Range(n, end)
    decreases limit - depth, 1, |vs|
  {
    hide Build, Collect;
    assert Range(n, n) == multiset{};
    if vs != [] {
      var (members, mid) := BuildAll(h, vs[..|vs| - 1], depth, limit, n);
      BuildAllOwns(h, vs[..|vs| - 1], depth, limit, n);
      BuildOwns(h, vs[|vs| - 1], depth, limit, mid);
      var (c, end) := Build(h, vs[|vs| - 1], depth, limit, mid);
      CollectOwns(members, c, Range(n, mid), mid, end);
      RangeSplits(n, mid, end);
    }
  }

  lemma {:induction false} BuildEntriesOwn(h: Heap, keys: seq<Ref>, values: seq<Ref>, depth: nat, limit: nat, n: nat)
    requires ValidHeap(h) && (forall v :: v in keys ==> v in h) && (forall v :: v in values ==> v in h)
    requires |keys| == |values| && depth <= limit
    ensures
      var (keyMembers, valueMembers, end) := BuildEntries(h, keys, values, depth, limit, n);
      n <= end && InInstances(keyMembers) + InInstances(valueMembers) == Range(n, end)
    decreases limit - depth, 1, |keys|
  {
    hide Build, Collect, InInstances;
    if keys != [] {
      var last := |keys| - 1;
      var (keyMembers, valueMembers, mid) := BuildEntries(h, keys[..last], values[..last], depth, limit, n);
      BuildEntriesOwn(h, keys[..last], values[..last], depth, limit, n);
      BuildOwns(h, keys[last], depth, limit, mid);
      var (k, afterKey) := Build(h, keys[last], depth, limit, mid);
      BuildOwns(h, values[last], depth, limit, afterKey);
      var (v, end) := Build(h, values[last], depth, limit, afterKey);
      CollectOwns(keyMembers, k, InInstances(keyMembers), mid, afterKey);
      CollectOwns(valueMembers, v, InInstances(valueMembers), afterKey, end);
      RangeSplits(n, mid, afterKey);
      RangeSplits(n, afterKey, end);
    } else {
      NothingBuilt(n);
    }
  }

  lemma NothingBuilt(n: nat)
    ensures InInstances([]) == multiset{} == Range(n, n)
  {
  }

  function Erase(c: Instance): ConstantInstance
    decreases c
  {
    ConstantInstance(c.name, c.singleton, EraseLists(c.lists))
  }

  function EraseLists(lists: seq<Members>): seq<Argument>
    decreases lists
  {
    if lists == [] then [] else [Argument(EraseAll(lists[0].items))] + EraseLists(lists[1..])
  }

  function EraseAll(cs: seq<Instance>): (r: seq<ConstantInstance>)
    ensures |r| == |cs| && forall i :: 0 <= i < |cs| ==> r[i] == Erase(cs[i])
    decreases cs
  {
    if cs == [] then [] else [Erase(cs[0])] + EraseAll(cs[1..])
  }

  /** The argument count is zero exactly if there is no array. */
  predicate Consistent(c: Instance) {
    c.argumentArray == None <==> c.lists == []
  }

  ghost predicate AllConsistent(cs: seq<Instance>) {
    forall c :: c in cs ==> Consistent(c)
  }

  lemma BareErases(c: Instance)
    requires Consistent(c)
    ensures IsBare(c) <==> Bare(Erase(c))
  {
  }

  lemma CollectCompacts(members: seq<Instance>, c: Instance, cs: seq<ConstantInstance>)
    requires AllConsistent(members) && Consistent(c) && EraseAll(members) == Compact(cs)
    ensures AllConsistent(Collect(members, c)) && EraseAll(Collect(members, c)) == Compact(cs + [Erase(c)])
  {
    hide Erase, Compact;
    CompactSnoc(cs, Erase(c));
    BareErases(c);
    if IsBare(c) {
      forall m | m in members
        ensures IsBare(m) && m.name == c.name <==> Erase(m) == Erase(c)
      {
        BareErases(m);
        SameBare(m, c);
      }
    }
  }

  lemma SameBare(m: Instance, c: Instance)
    requires Consistent(m) && Consistent(c) && IsBare(c)
    ensures Erase(m) == Erase(c) <==> IsBare(m) && m.name == c.name
  {
  }

  /** Without the addresses, what is built is the summary. */
  lemma {:induction false} BuildSummarises(h: Heap, v: Ref, depth: nat, limit: nat, n: nat)
    requires ValidHeap(h) && v in h && depth <= limit
    ensures Erase(Build(h, v, depth, limit, n).0) == Summary(h, v, depth, limit)
    ensures Consistent(Build(h, v, depth, limit, n).0)
    decreases limit - depth, 0
  {
    hide BuildAll, BuildEntries, Summaries, Compact, EraseAll;
    if depth < limit {
      match h[v]
      case List(items) =>
        if items != [] {
          BuildAllSummarises(h, items, depth + 1, limit, n);
          OneErased(BuildAll(h, items, depth + 1, limit, n).0);
        }
      case Table(keys, values) =>
        if keys != [] {
          BuildEntriesSummarise(h, keys, values, depth + 1, limit, n);
          var (keyMembers, valueMembers, _) := BuildEntries(h, keys, values, depth + 1, limit, n);
          TwoErased(keyMembers, valueMembers);
        }
      case _ =>
    }
  }

  lemma OneErased(members: seq<Instance>)
    ensures EraseLists([Members(members)]) == [Argument(EraseAll(members))]
  {
  }

  lemma TwoErased(a: seq<Instance>, b: seq<Instance>)
    ensures EraseLists([Members(a), Members(b)]) == [Argument(EraseAll(a)), Argument(EraseAll(b))]
  {
    assert [Members(a), Members(b)][1..] == [Members(b)];
    OneErased(b);
  }

  lemma SummariesFront(h: Heap, vs: seq<Ref>, depth: nat, limit: nat)
    requires ValidHeap(h) && (forall v :: v in vs ==> v in h) && depth <= limit && vs != []
    ensures Summaries(h, vs, depth, limit)
         == Summaries(h, vs[..|vs| - 1], depth, limit) + [Summary(h, vs[|vs| - 1], depth, limit)]
  {
  }

  lemma {:induction false} BuildAllSummarises(h: Heap, vs: seq<Ref>, depth: nat, limit: nat, n: nat)
    requires ValidHeap(h) && (forall v :: v in vs ==> v in h) && depth <= limit
    ensures
      var members := BuildAll(h, vs, depth, limit, n).0;
      EraseAll(members) == Compact(Summaries(h, vs, depth, limit)) && AllConsistent(members)
    decreases limit - depth, 1, |vs|
  {
    hide Build, Collect, Compact, Summary, Summaries, Erase;
    if vs != [] {
      var (members, mid) := BuildAll(h, vs[..|vs| - 1], depth, limit, n);
      BuildAllSummarises(h, vs[..|vs| - 1], depth, limit, n);
      BuildSummarises(h, vs[|vs| - 1], depth, limit, mid);
      CollectCompacts(members, Build(h, vs[|vs| - 1], depth, limit, mid).0, Summaries(h, vs[..|vs| - 1], depth, limit));
      SummariesFront(h, vs, depth, limit);
    } else {
      NothingToSummarise(h, depth, limit);
    }
  }

  lemma {:induction false} BuildEntriesSummarise(
      h: Heap, keys: seq<Ref>, values: seq<Ref>, depth: nat, limit: nat, n: nat)
    requires ValidHeap(h) && (forall v :: v in keys ==> v in h) && (forall v :: v in values ==> v in h)
    requires |keys| == |values| && depth <= limit
    ensures
      var (keyMembers, valueMembers, _) := BuildEntries(h, keys, values, depth, limit, n);
      && EraseAll(keyMembers) == Compact(Summaries(h, keys, depth, limit)) && AllConsistent(keyMembers)
      && EraseAll(valueMembers) == Compact(Summaries(h, values, depth, limit)) && AllConsistent(valueMembers)
    decreases limit - depth, 1, |keys|
  {
    hide Build, Collect, Compact, Summary, Summaries, Erase;
    if keys != [] {
      var last := |keys| - 1;
      var (keyMembers, valueMembers, mid) := BuildEntries(h, keys[..last], values[..last], depth, limit, n);
      BuildEntriesSummarise(h, keys[..last], values[..last], depth, limit, n);
      BuildSummarises(h, keys[last], depth, limit, mid);
      var (k, afterKey) := Build(h, keys[last], depth, limit, mid);
      BuildSummarises(h, values[last], depth, limit, afterKey);
      CollectCompacts(keyMembers, k, Summaries(h, keys[..last], depth, limit));
      CollectCompacts(valueMembers, Build(h, values[last], depth, limit, afterKey).0,
                      Summaries(h, values[..last], depth, limit));
      SummariesFront(h, keys, depth, limit);
      SummariesFront(h, values, depth, limit);
    } else {
      NothingToSummarise(h, depth, limit);
    }
  }

  // ---------------------------------------------------------------------------
  // Places over a run

  /** A trace on the call stack of a fiber. The stacks of all fibers are kept in one list, in
      the order of the calls; the top of a fiber's stack is the last frame with its number. */
  datatype Frame = Frame(fiber: nat, trace: Owned)

  /** A message in its node of the queue; the one that ends the worker carries no trace. */
  datatype Message = Message(node: Address, at: Address, trace: Option<Owned>)

  /** A message that has been taken off the queue. */
  datatype Held = Held(at: Address, trace: Owned)

  /** `lost` holds what nothing points to any more and was not freed. */
  datatype State = State(
    frames: seq<Frame>, queue: seq<Message>, hand: Option<Held>, freed: seq<Address>, lost: seq<Address>, next: Address)

  const NOTHING := State([], [], None, [], [], 0)

  /** Whether a call takes a block: not at all, without a parameter for it, by a parameter `&`,
      or by one with a name. */
  datatype Passed = NoBlock | Implicit | Anonymous | Named

  /** Where a trace that is not freed can be found: on a call stack, in the queue or in the
      worker's hand, and from there over the traces of blocks, recorded or still running. A
      block's trace point targets the trace whose parameter the block is. */
  datatype Root = OnCallStack(i: nat) | Queued(i: nat) | InWorker

  datatype Hop = Recorded(k: nat) | Running(k: nat)

  /** `count` allocations come with the pieces a step creates. */
  datatype Step =
    | Call(fiber: nat, pieces: seq<Piece>, count: nat, passed: Passed)
    | RetriedCall
    | Return(i: nat, returned: Instance, count: nat)
    | CallOfBlock(root: Root, path: seq<Hop>, pieces: seq<Piece>, count: nat, passed: Passed)
    | BlockReturn(root: Root, path: seq<Hop>, returned: Instance, count: nat)
    | WorkerPops
    | WorkerFrees
    | Stop
    | Flush

  /** The addresses from `first` up to, not including, `end`. */
  function Range(first: nat, end: nat): multiset<Address>
    requires first <= end
    decreases end
  {
    if first == end then multiset{} else Range(first, end - 1) + multiset{end - 1}
  }

  /** The pieces own exactly the allocations numbered from `from` on. */
  ghost predicate Fresh(pieces: seq<Piece>, from: nat, count: nat) {
    InPieces(pieces) == Range(from, from + count)
  }

  predicate IsTop(frames: seq<Frame>, i: nat) {
    i < |frames| && forall j :: i < j < |frames| ==> frames[j].fiber != frames[i].fiber
  }

  predicate HasRoot(s: State, root: Root) {
    match root
    case OnCallStack(i) => i < |s.frames|
    case Queued(i) => i < |s.queue| && s.queue[i].trace.Some?
    case InWorker => s.hand.Some?
  }

  function AtRoot(s: State, root: Root): Owned
    requires HasRoot(s, root)
  {
    match root
    case OnCallStack(i) => s.frames[i].trace
    case Queued(i) => s.queue[i].trace.value
    case InWorker => s.hand.value.trace
  }

  function SetRoot(s: State, root: Root, t: Owned): State
    requires HasRoot(s, root)
  {
    match root
    case OnCallStack(i) => s.(frames := s.frames[i := s.frames[i].(trace := t)])
    case Queued(i) => s.(queue := s.queue[i := s.queue[i].(trace := Some(t))])
    case InWorker => s.(hand := Some(s.hand.value.(trace := t)))
  }

  function TraceAt(t: Owned, path: seq<Hop>): Option<Owned>
    decreases path
  {
    if path == [] then Some(t)
    else if t.block == None then None
    else
      var b := t.block.value;
      match path[0]
      case Recorded(k) => if k < |b.traces| then TraceAt(b.traces[k], path[1..]) else None
      case Running(k) => if k < |b.stack| && b.stack[k].Outer? then TraceAt(b.stack[k].trace, path[1..]) else None
  }

  /** Exchanges the block of the trace at the path. */
  function SetBlock(t: Owned, path: seq<Hop>, b: Block): Owned
    requires TraceAt(t, path).Some?
    decreases path
  {
    if path == [] then t.(block := Some(b))
    else
      var at := t.block.value;
      match path[0]
      case Recorded(k) => t.(block := Some(at.(traces := at.traces[k := SetBlock(at.traces[k], path[1..], b)])))
      case Running(k) =>
        t.(block := Some(at.(stack := at.stack[k := Outer(SetBlock(at.stack[k].trace, path[1..], b))])))
  }

  /** The trace at the path is not freed, and its trace point is not disabled: that of a
      method's block is when the method returns, that of a block's own block never is. */
  predicate Live(s: State, root: Root, path: seq<Hop>) {
    HasRoot(s, root) && TraceAt(AtRoot(s, root), path).Some? && (root.OnCallStack? || path != [])
  }

  function BlockAt(s: State, root: Root, path: seq<Hop>): Option<Block>
    requires Live(s, root, path)
  {
    TraceAt(AtRoot(s, root), path).value.block
  }

  function WithBlock(s: State, root: Root, path: seq<Hop>, b: Block): State
    requires Live(s, root, path)
  {
    SetRoot(s, root, SetBlock(AtRoot(s, root), path, b))
  }

  /** There is a trace point for the block at the path: the block parameter has a name. */
  predicate HasTracePoint(s: State, root: Root, path: seq<Hop>) {
    Live(s, root, path) && BlockAt(s, root, path).Some? && BlockAt(s, root, path).value.name.Some?
  }

  /** Block events come while the trace that their trace point targets is there. */
  ghost predicate Enabled(s: State, step: Step) {
    match step
    case Call(_, pieces, count, _) => Fresh(pieces, s.next + 1, count)
    case RetriedCall => true
    case Return(i, returned, count) => IsTop(s.frames, i) && Fresh([Typed(returned)], s.next, count)
    case CallOfBlock(root, path, pieces, count, _) =>
      HasTracePoint(s, root, path) && Fresh(pieces, s.next + 1, count)
    case BlockReturn(root, path, returned, count) =>
      HasTracePoint(s, root, path) && Fresh([Typed(returned)], s.next, count)
    case WorkerPops => s.queue != [] && s.hand == None
    case WorkerFrees => s.hand.Some?
    case Stop => true
    case Flush => true
  }

  /** What a new trace holds for its block; the parameter's name, if it has one, is allocated
      at `name`. */
  function NewBlock(passed: Passed, name: Address): Option<Block> {
    match passed
    case NoBlock => None
    case Named => Some(Block(Some(name), [], []))
    case _ => Some(Block(None, [], []))
  }

  /** The name of a parameter `&` is copied and then assigned to nothing. */
  function Lost(passed: Passed, name: Address): seq<Address> {
    if passed.Anonymous? then [name] else []
  }

  function Behind(passed: Passed, name: Address): Address {
    if passed.Named? || passed.Anonymous? then name + 1 else name
  }

  function AddInstance(t: Owned, c: Instance): Owned {
    t.(pieces := t.pieces + [Typed(c)])
  }

  function FreedByFrames(frames: seq<Frame>): seq<Address> {
    if frames == [] then [] else FreedByTrace(frames[|frames| - 1].trace) + FreedByFrames(frames[..|frames| - 1])
  }

  function Apply(s: State, step: Step): State
    requires Enabled(s, step)
  {
    match step
    case Call(fiber, pieces, count, passed) =>
      var name := s.next + 1 + count;
      s.(frames := s.frames + [Frame(fiber, Owned(s.next, pieces, NewBlock(passed, name)))],
         lost := s.lost + Lost(passed, name), next := Behind(passed, name))
    case RetriedCall =>
      s.(freed := s.freed + FreedByTrace(Owned(s.next, [Bytes(s.next + 1)], None)), next := s.next + 2)
    case Return(i, returned, count) =>
      s.(frames := s.frames[..i] + s.frames[i + 1..],
         queue := s.queue
                  + [Message(s.next + count + 1, s.next + count, Some(AddInstance(s.frames[i].trace, returned)))],
         next := s.next + count + 2)
    case CallOfBlock(root, path, pieces, count, passed) =>
      var b := BlockAt(s, root, path).value;
      if b.traces != [] then s
      else if b.stack != [] then WithBlock(s, root, path, b.(stack := b.stack + [Inner]))
      else
        var name := s.next + 1 + count;
        WithBlock(s, root, path, b.(stack := [Outer(Owned(s.next, pieces, NewBlock(passed, name)))]))
          .(lost := s.lost + Lost(passed, name), next := Behind(passed, name))
    case BlockReturn(root, path, returned, count) =>
      var b := BlockAt(s, root, path).value;
      if b.traces != [] || b.stack == [] then s else
      var rest := b.stack[..|b.stack| - 1];
      (match b.stack[|b.stack| - 1]
       case Inner => WithBlock(s, root, path, b.(stack := rest))
       case Outer(t) =>
         WithBlock(s, root, path, b.(traces := b.traces + [AddInstance(t, returned)], stack := rest))
           .(next := s.next + count))
    case WorkerPops =>
      var m := s.queue[0];
      (match m.trace
       case Some(t) => s.(hand := Some(Held(m.at, t)), queue := s.queue[1..], freed := s.freed + [m.node])
       case None => s.(queue := s.queue[1..], freed := s.freed + [m.node], lost := s.lost + [m.at]))
    case WorkerFrees =>
      s.(hand := None, freed := s.freed + (FreedByTrace(s.hand.value.trace) + [s.hand.value.at]))
    case Stop => s.(frames := [], freed := s.freed + FreedByFrames(s.frames))
    case Flush =>
      s.(frames := [], freed := s.freed + FreedByFrames(s.frames),
         queue := s.queue + [Message(s.next + 1, s.next, None)], next := s.next + 2)
  }

  ghost predicate Possible(s: State, steps: seq<Step>)
    decreases |steps|
  {
    steps == [] || (Enabled(s, steps[0]) && Possible(Apply(s, steps[0]), steps[1..]))
  }

  ghost function After(s: State, steps: seq<Step>): State
    requires Possible(s, steps)
    decreases |steps|
  {
    if steps == [] then s else After(Apply(s, steps[0]), steps[1..])
  }

  function InFrames(frames: seq<Frame>): multiset<Address> {
    if frames == [] then multiset{} else InFrames(frames[..|frames| - 1]) + InTrace(frames[|frames| - 1].trace)
  }

  function InMessage(m: Message): multiset<Address> {
    multiset{m.node, m.at} + match m.trace case None => multiset{} case Some(t) => InTrace(t)
  }

  function InQueue(queue: seq<Message>): multiset<Address> {
    if queue == [] then multiset{} else InMessage(queue[0]) + InQueue(queue[1..])
  }

  function InHand(hand: Option<Held>): multiset<Address> {
    match hand case None => multiset{} case Some(m) => multiset{m.at} + InTrace(m.trace)
  }

  /** Every address in every place. */
  function Everywhere(s: State): multiset<Address> {
    InFrames(s.frames) + InQueue(s.queue) + InHand(s.hand) + multiset(s.freed) + multiset(s.lost)
  }

  ghost predicate Conserved(s: State) {
    Everywhere(s) == Range(0, s.next)
  }

  // ---------------------------------------------------------------------------
  // Moving things around

  lemma {:induction false} InstancesSnoc(cs: seq<Instance>, c: Instance)
    ensures InInstances(cs + [c]) == InInstances(cs) + InInstance(c)
  {
    if cs == [] {
      assert cs + [c] == [c];
    } else {
      assert (cs + [c])[1..] == cs[1..] + [c];
      InstancesSnoc(cs[1..], c);
    }
  }

  lemma {:induction false} PiecesSnoc(ps: seq<Piece>, p: Piece)
    ensures InPieces(ps + [p]) == InPieces(ps) + InPiece(p)
  {
    if ps == [] {
      assert ps + [p] == [p];
    } else {
      assert (ps + [p])[1..] == ps[1..] + [p];
      PiecesSnoc(ps[1..], p);
    }
  }

  lemma {:induction false} TracesSnoc(ts: seq<Owned>, t: Owned)
    ensures InTraces(ts + [t]) == InTraces(ts) + InTrace(t)
  {
    if ts == [] {
      assert ts + [t] == [t];
    } else {
      assert (ts + [t])[1..] == ts[1..] + [t];
      TracesSnoc(ts[1..], t);
    }
  }

  lemma {:induction false} StackSnoc(stack: seq<BlockCall>, c: BlockCall)
    ensures InStack(stack + [c]) == InStack(stack) + InCall(c)
  {
    if stack == [] {
      assert stack + [c] == [c];
    } else {
      assert (stack + [c])[1..] == stack[1..] + [c];
      StackSnoc(stack[1..], c);
    }
  }

  lemma {:induction false} RangeSplits(first: nat, mid: nat, end: nat)
    requires first <= mid <= end
    ensures Range(first, end) == Range(first, mid) + Range(mid, end)
    decreases end
  {
    if mid < end {
      RangeSplits(first, mid, end - 1);
    }
  }

  /** Taking one frame out of the list. */
  lemma {:induction false} FrameOut(frames: seq<Frame>, i: nat)
    requires i < |frames|
    ensures InFrames(frames)
         == InTrace(frames[i].trace) + InFrames(frames[..i] + frames[i + 1..])
  {
    hide InTrace;
    var n := |frames| - 1;
    if i == n {
      assert frames[..i] + frames[i + 1..] == frames[..n];
    } else {
      var rest := frames[..i] + frames[i + 1..];
      assert rest[..n - 1] == frames[..n][..i] + frames[..n][i + 1..];
      assert rest[n - 1] == frames[n];
      FrameOut(frames[..n], i);
    }
  }

  /** Exchanging one trace of a list. */
  lemma {:induction false} TraceChanges(ts: seq<Owned>, i: nat, t: Owned, added: multiset<Address>)
    requires i < |ts| && InTrace(t) == InTrace(ts[i]) + added
    ensures InTraces(ts[i := t]) == InTraces(ts) + added
  {
    hide InTrace;
    if i > 0 {
      assert ts[i := t][1..] == ts[1..][i - 1 := t];
      TraceChanges(ts[1..], i - 1, t, added);
    } else {
      assert ts[i := t][1..] == ts[1..];
    }
  }

  lemma {:induction false} CallChanges(stack: seq<BlockCall>, i: nat, c: BlockCall, added: multiset<Address>)
    requires i < |stack| && InCall(c) == InCall(stack[i]) + added
    ensures InStack(stack[i := c]) == InStack(stack) + added
  {
    hide InCall;
    if i > 0 {
      assert stack[i := c][1..] == stack[1..][i - 1 := c];
      CallChanges(stack[1..], i - 1, c, added);
    } else {
      assert stack[i := c][1..] == stack[1..];
    }
  }

  lemma FrameChanges(frames: seq<Frame>, i: nat, t: Owned, added: multiset<Address>)
    requires i < |frames| && InTrace(t) == InTrace(frames[i].trace) + added
    ensures InFrames(frames[i := frames[i].(trace := t)]) == InFrames(frames) + added
  {
    hide InFrames, InTrace;
    var changed := frames[i := frames[i].(trace := t)];
    FrameOut(frames, i);
    FrameOut(changed, i);
    assert changed[..i] + changed[i + 1..] == frames[..i] + frames[i + 1..];
  }

  /** Exchanging a block, however deep, changes what the whole trace owns by what was added. */
  lemma {:induction false} BlockChanges(t: Owned, path: seq<Hop>, b: Block, added: multiset<Address>)
    requires TraceAt(t, path).Some? && InBlock(Some(b)) == InBlock(TraceAt(t, path).value.block) + added
    ensures InTrace(SetBlock(t, path, b)) == InTrace(t) + added
    decreases path
  {
    hide InPieces, InName, InTraces, InStack;
    if path != [] {
      var at := t.block.value;
      match path[0]
      case Recorded(k) =>
        var changed := SetBlock(at.traces[k], path[1..], b);
        BlockChanges(at.traces[k], path[1..], b, added);
        TraceChanges(at.traces, k, changed, added);
      case Running(k) =>
        var changed := SetBlock(at.stack[k].trace, path[1..], b);
        BlockChanges(at.stack[k].trace, path[1..], b, added);
        CallChanges(at.stack, k, Outer(changed), added);
    }
  }

  lemma {:induction false} MessageChanges(queue: seq<Message>, i: nat, m: Message, added: multiset<Address>)
    requires i < |queue| && InMessage(m) == InMessage(queue[i]) + added
    ensures InQueue(queue[i := m]) == InQueue(queue) + added
  {
    hide InMessage;
    if i > 0 {
      assert queue[i := m][1..] == queue[1..][i - 1 := m];
      MessageChanges(queue[1..], i - 1, m, added);
    } else {
      assert queue[i := m][1..] == queue[1..];
    }
  }

  lemma {:induction false} QueueSnoc(queue: seq<Message>, m: Message)
    ensures InQueue(queue + [m]) == InQueue(queue) + InMessage(m)
  {
    hide InMessage;
    if queue == [] {
      assert queue + [m] == [m];
    } else {
      assert (queue + [m])[1..] == queue[1..] + [m];
      QueueSnoc(queue[1..], m);
    }
  }

  lemma CarriedChanges(m: Message, t: Owned, added: multiset<Address>)
    requires m.trace.Some? && InTrace(t) == InTrace(m.trace.value) + added
    ensures InMessage(m.(trace := Some(t))) == InMessage(m) + added
  {
    hide InTrace;
  }

  lemma HeldChanges(m: Held, t: Owned, added: multiset<Address>)
    requires InTrace(t) == InTrace(m.trace) + added
    ensures InHand(Some(m.(trace := t))) == InHand(Some(m)) + added
  {
    hide InTrace;
  }

  lemma {:induction false} RootChanges(s: State, root: Root, t: Owned, added: multiset<Address>)
    requires HasRoot(s, root) && InTrace(t) == InTrace(AtRoot(s, root)) + added
    ensures Everywhere(SetRoot(s, root, t)) == Everywhere(s) + added
  {
    hide InFrames, InQueue, InTrace, InMessage, InHand;
    match root
    case OnCallStack(i) => FrameChanges(s.frames, i, t, added);
    case Queued(i) =>
      CarriedChanges(s.queue[i], t, added);
      MessageChanges(s.queue, i, s.queue[i].(trace := Some(t)), added);
    case InWorker => HeldChanges(s.hand.value, t, added);
  }

  lemma {:induction false} FramesAreFreed(frames: seq<Frame>)
    ensures multiset(FreedByFrames(frames)) == InFrames(frames)
  {
    hide InTrace, FreedByTrace;
    if frames != [] {
      FramesAreFreed(frames[..|frames| - 1]);
      TraceIsFreed(frames[|frames| - 1].trace);
    }
  }

  /** What a new trace owns. */
  lemma NewTrace(next: nat, pieces: seq<Piece>, count: nat, passed: Passed)
    requires Fresh(pieces, next + 1, count)
    ensures
      var name := next + 1 + count;
      && next <= Behind(passed, name)
      && InTrace(Owned(next, pieces, NewBlock(passed, name))) + multiset(Lost(passed, name))
         == Range(next, Behind(passed, name))
  {
    hide InPieces, InTraces, InStack, Range;
    var name := next + 1 + count;
    RangeSplits(next, next + 1, name);
    OneAllocated(next);
    OneAllocated(name);
    RangeSplits(next, name, Behind(passed, name));
    NoneAllocated(name);
    EmptyBlock();
  }

  lemma EmptyBlock()
    ensures InTraces([]) == multiset{} && InStack([]) == multiset{}
  {
  }

  lemma OneAllocated(n: nat)
    ensures Range(n, n + 1) == multiset{n}
  {
    NoneAllocated(n);
  }

  lemma ReturnedTrace(t: Owned, returned: Instance, next: nat, count: nat)
    requires Fresh([Typed(returned)], next, count)
    ensures InTrace(AddInstance(t, returned)) == InTrace(t) + Range(next, next + count)
  {
    hide Range, InBlock, InInstance, InPieces;
    PiecesSnoc(t.pieces, Typed(returned));
    OnePiece(returned);
  }

  lemma OnePiece(c: Instance)
    ensures InPieces([Typed(c)]) == InInstance(c) == InPiece(Typed(c))
  {
    assert [Typed(c)][1..] == [];
  }

  // ---------------------------------------------------------------------------
  // Every step conserves

  lemma CallConserves(s: State, step: Step)
    requires Conserved(s) && Enabled(s, step) && step.Call?
    ensures Conserved(Apply(s, step))
  {
    hide InTrace, Range, NewBlock, InQueue, InHand, Fresh, Lost, Behind;
    var name := s.next + 1 + step.count;
    var frame := Frame(step.fiber, Owned(s.next, step.pieces, NewBlock(step.passed, name)));
    NewTrace(s.next, step.pieces, step.count, step.passed);
    RangeSplits(0, s.next, Behind(step.passed, name));
    assert (s.frames + [frame])[..|s.frames|] == s.frames;
  }

  lemma RetriedCallConserves(s: State)
    requires Conserved(s)
    ensures Conserved(Apply(s, RetriedCall))
  {
    hide InTrace, Range, InQueue, InHand, InFrames, FreedByTrace;
    BytesAreFresh(s.next + 1);
    NewTrace(s.next, [Bytes(s.next + 1)], 1, NoBlock);
    TraceIsFreed(Owned(s.next, [Bytes(s.next + 1)], None));
    RangeSplits(0, s.next, s.next + 2);
  }

  lemma NothingIsFresh(from: nat)
    ensures Fresh([], from, 0)
  {
  }

  lemma BytesAreFresh(from: nat)
    ensures Fresh([Bytes(from)], from, 1)
  {
    OneAllocated(from);
    assert [Bytes(from)][1..] == [];
  }

  lemma ReturnConserves(s: State, step: Step)
    requires Conserved(s) && Enabled(s, step) && step.Return?
    ensures Conserved(Apply(s, step))
  {
    hide InTrace, Range, InFrames, AddInstance, Fresh, InHand, InQueue, InMessage;
    var t := s.frames[step.i].trace;
    var at := s.next + step.count;
    FrameOut(s.frames, step.i);
    ReturnedMessage(t, step.returned, s.next, step.count);
    QueueSnoc(s.queue, Message(at + 1, at, Some(AddInstance(t, step.returned))));
    RangeSplits(0, s.next, at + 2);
  }

  lemma ReturnedMessage(t: Owned, returned: Instance, next: nat, count: nat)
    requires Fresh([Typed(returned)], next, count)
    ensures
      var at := next + count;
      InMessage(Message(at + 1, at, Some(AddInstance(t, returned)))) == InTrace(t) + Range(next, at + 2)
  {
    hide InTrace, Range, AddInstance, Fresh;
    ReturnedTrace(t, returned, next, count);
    TwoAllocated(next + count);
    RangeSplits(next, next + count, next + count + 2);
  }

  lemma TwoAllocated(n: nat)
    ensures Range(n, n + 2) == multiset{n, n + 1}
  {
    OneAllocated(n);
  }

  lemma StopConserves(s: State)
    requires Conserved(s)
    ensures Conserved(Apply(s, Stop))
  {
    hide Range, InFrames, InHand, InQueue, FreedByFrames;
    FramesAreFreed(s.frames);
    NoFrames();
  }

  lemma EnqueueingConserves(s: State, m: Message, end: nat)
    requires Conserved(s) && s.next <= end && InMessage(m) == Range(s.next, end)
    ensures Conserved(s.(queue := s.queue + [m], next := end))
  {
    hide Range, InFrames, InHand, InQueue, InMessage;
    QueueSnoc(s.queue, m);
    RangeSplits(0, s.next, end);
  }

  lemma FlushConserves(s: State)
    requires Conserved(s)
    ensures Conserved(Apply(s, Flush))
  {
    hide Range, InFrames, InHand, InQueue, FreedByFrames, Conserved;
    StopConserves(s);
    TwoAllocated(s.next);
    EnqueueingConserves(Apply(s, Stop), Message(s.next + 1, s.next, None), s.next + 2);
  }

  lemma PopConserves(s: State)
    requires Conserved(s) && Enabled(s, WorkerPops)
    ensures Conserved(Apply(s, WorkerPops))
  {
    hide Range, InFrames, InTrace, InQueue, InMessage, InHand;
    var m, frames, rest := s.queue[0], InFrames(s.frames), InQueue(s.queue[1..]);
    var freed, lost := multiset(s.freed), multiset(s.lost);
    TakenFromQueue(s.queue);
    PoppedMessage(m);
    AddedLast(s.freed, m.node);
    AddedLast(s.lost, m.at);
    if m.trace.Some? {
      Repartition(frames, multiset{m.node}, InHand(Some(Held(m.at, m.trace.value))), rest, freed, lost);
    } else {
      Repartition(frames, multiset{m.node}, multiset{m.at}, rest, freed, lost);
    }
  }

  /** The parts of the first message of a queue, moved elsewhere. */
  lemma Repartition(
      frames: multiset<Address>, node: multiset<Address>, other: multiset<Address>, rest: multiset<Address>,
      freed: multiset<Address>, lost: multiset<Address>)
    ensures frames + (node + other + rest) + multiset{} + freed + lost == frames + rest + other + (freed + node) + lost
    ensures frames + (node + other + rest) + multiset{} + freed + lost
         == frames + rest + multiset{} + (freed + node) + (lost + other)
  {
  }

  lemma AddedLast(s: seq<Address>, a: Address)
    ensures multiset(s + [a]) == multiset(s) + multiset{a}
  {
  }

  lemma PoppedMessage(m: Message)
    ensures InHand(None) == multiset{}
    ensures InMessage(m) ==
            multiset{m.node} + if m.trace.Some? then InHand(Some(Held(m.at, m.trace.value))) else multiset{m.at}
  {
    hide InTrace;
  }

  lemma FreeConserves(s: State)
    requires Conserved(s) && Enabled(s, WorkerFrees)
    ensures Conserved(Apply(s, WorkerFrees))
  {
    hide Range, InFrames, InTrace, InQueue, FreedByTrace;
    TraceIsFreed(s.hand.value.trace);
    assert multiset([s.hand.value.at]) == multiset{s.hand.value.at};
  }

  /** Exchanging a block for one that owns what has been allocated besides and not lost. */
  lemma BlockStepConserves(
      s: State, root: Root, path: seq<Hop>, b: Block, added: multiset<Address>, lost: seq<Address>, end: nat)
    requires Conserved(s) && Live(s, root, path) && s.next <= end
    requires InBlock(Some(b)) == InBlock(BlockAt(s, root, path)) + added
    requires added + multiset(lost) == Range(s.next, end)
    ensures Conserved(WithBlock(s, root, path, b).(lost := s.lost + lost, next := end))
  {
    hide InFrames, Range, TraceAt, SetBlock, InQueue, InHand, InBlock, InTrace;
    BlockChanges(AtRoot(s, root), path, b, added);
    RootChanges(s, root, SetBlock(AtRoot(s, root), path, b), added);
    LostAdds(s, WithBlock(s, root, path, b), lost, end);
    RangeSplits(0, s.next, end);
  }

  lemma LostAdds(s: State, s': State, lost: seq<Address>, end: nat)
    requires s'.lost == s.lost
    ensures Everywhere(s'.(lost := s.lost + lost, next := end)) == Everywhere(s') + multiset(lost)
  {
    hide InFrames, InQueue, InHand;
  }

  /** A block step that allocates nothing. */
  lemma BlockStepAllocatesNothing(s: State, root: Root, path: seq<Hop>, b: Block)
    requires Conserved(s) && Live(s, root, path) && InBlock(Some(b)) == InBlock(BlockAt(s, root, path))
    ensures Conserved(WithBlock(s, root, path, b))
  {
    hide Conserved, InBlock, Live, BlockAt, Range;
    NoneAllocated(s.next);
    BlockStepConserves(s, root, path, b, multiset{}, [], s.next);
    OthersStay(s, root, path, b);
    assert s.lost + [] == s.lost;
  }

  lemma OthersStay(s: State, root: Root, path: seq<Hop>, b: Block)
    requires Live(s, root, path)
    ensures WithBlock(s, root, path, b).(lost := s.lost, next := s.next) == WithBlock(s, root, path, b)
  {
  }

  lemma NoneAllocated(n: nat)
    ensures Range(n, n) == multiset{}
  {
  }

  lemma InnerCall(b: Block)
    ensures InBlock(Some(b.(stack := b.stack + [Inner]))) == InBlock(Some(b))
  {
    StackSnoc(b.stack, Inner);
  }

  lemma OuterCall(b: Block, t: Owned)
    requires b.stack == []
    ensures InBlock(Some(b.(stack := [Outer(t)]))) == InBlock(Some(b)) + InTrace(t)
  {
    hide InTrace, InTraces;
    StackSnoc([], Outer(t));
    assert [] + [Outer(t)] == [Outer(t)];
  }

  lemma BlockCallConserves(s: State, step: Step)
    requires Conserved(s) && Enabled(s, step) && step.CallOfBlock?
    ensures Conserved(Apply(s, step))
  {
    hide InTrace, InFrames, WithBlock, Live, BlockAt, Conserved, Fresh, NewBlock, InTraces, InBlock, Range;
    hide Lost, Behind;
    var b := BlockAt(s, step.root, step.path).value;
    if b.traces == [] {
      if b.stack != [] {
        InnerCall(b);
        BlockStepAllocatesNothing(s, step.root, step.path, b.(stack := b.stack + [Inner]));
      } else {
        var name := s.next + 1 + step.count;
        var t := Owned(s.next, step.pieces, NewBlock(step.passed, name));
        NewTrace(s.next, step.pieces, step.count, step.passed);
        OuterCall(b, t);
        BlockStepConserves(s, step.root, step.path, b.(stack := [Outer(t)]), InTrace(t), Lost(step.passed, name),
                           Behind(step.passed, name));
      }
    }
  }

  /** A returning block call moves from the stack to the traces of the block. */
  lemma BlockReturns(b: Block, returned: Instance, next: nat, count: nat)
    requires b.stack != [] && b.stack[|b.stack| - 1].Outer? && Fresh([Typed(returned)], next, count)
    ensures
      var t := AddInstance(b.stack[|b.stack| - 1].trace, returned);
      InBlock(Some(b.(traces := b.traces + [t], stack := b.stack[..|b.stack| - 1])))
        == InBlock(Some(b)) + Range(next, next + count)
  {
    hide InTrace, Range, Fresh, AddInstance, InTraces, InStack, InName;
    var rest, last := b.stack[..|b.stack| - 1], b.stack[|b.stack| - 1];
    assert b.stack == rest + [last];
    StackSnoc(rest, last);
    ReturnedTrace(last.trace, returned, next, count);
    TracesSnoc(b.traces, AddInstance(last.trace, returned));
  }

  lemma BlockReturnConserves(s: State, step: Step)
    requires Conserved(s) && Enabled(s, step) && step.BlockReturn?
    ensures Conserved(Apply(s, step))
  {
    hide InTrace, InFrames, WithBlock, Live, BlockAt, Conserved, Fresh, AddInstance, InTraces, InStack, Range, InBlock;
    var root, path := step.root, step.path;
    var b := BlockAt(s, root, path).value;
    if b.traces == [] && b.stack != [] {
      var rest, last := b.stack[..|b.stack| - 1], b.stack[|b.stack| - 1];
      match last
      case Inner =>
        assert b.stack == rest + [last];
        InnerCall(b.(stack := rest));
        assert b == b.(stack := rest + [Inner]);
        BlockStepAllocatesNothing(s, root, path, b.(stack := rest));
      case Outer(t) =>
        var b' := b.(traces := b.traces + [AddInstance(t, step.returned)], stack := rest);
        BlockReturns(b, step.returned, s.next, step.count);
        BlockStepConserves(s, root, path, b', Range(s.next, s.next + step.count), [], s.next + step.count);
        LostStays(s, root, path, b');
        assert s.lost + [] == s.lost;
    }
  }

  lemma LostStays(s: State, root: Root, path: seq<Hop>, b: Block)
    requires Live(s, root, path)
    ensures WithBlock(s, root, path, b).lost == s.lost
  {
  }

  lemma StepConserves(s: State, step: Step)
    requires Conserved(s) && Enabled(s, step)
    ensures Conserved(Apply(s, step))
  {
    hide Conserved, Apply;
    match step
    case Call(_, _, _, _) => CallConserves(s, step);
    case RetriedCall => RetriedCallConserves(s);
    case Return(_, _, _) => ReturnConserves(s, step);
    case CallOfBlock(_, _, _, _, _) => BlockCallConserves(s, step);
    case BlockReturn(_, _, _, _) => BlockReturnConserves(s, step);
    case WorkerPops => PopConserves(s);
    case WorkerFrees => FreeConserves(s);
    case Stop => StopConserves(s);
    case Flush => FlushConserves(s);
  }

  lemma TakenFromQueue(queue: seq<Message>)
    ensures queue != [] ==> InQueue(queue) == InMessage(queue[0]) + InQueue(queue[1..])
  {
  }

  lemma NoFrames()
    ensures InFrames([]) == multiset{}
  {
  }

  lemma {:induction false} RunConserves(s: State, steps: seq<Step>)
    requires Conserved(s) && Possible(s, steps)
    ensures Conserved(After(s, steps))
    decreases |steps|
  {
    hide Conserved, Apply, Enabled;
    if steps != [] {
      StepConserves(s, steps[0]);
      RunConserves(Apply(s, steps[0]), steps[1..]);
    }
  }

  lemma {:induction false} RangeHoldsEachOnce(n: nat, a: Address)
    ensures Range(0, n)[a] == if a < n then 1 else 0
  {
    if n > 0 {
      RangeHoldsEachOnce(n - 1, a);
    }
  }

  /** In every reachable state each allocation is in exactly one place: owned, once, by one
      trace on a call stack, in the queue or in the worker's hand, or freed, once, or lost. */
  lemma EachInOnePlace(steps: seq<Step>, a: Address)
    requires Possible(NOTHING, steps)
    ensures
      var s := After(NOTHING, steps);
      InFrames(s.frames)[a] + InQueue(s.queue)[a] + InHand(s.hand)[a]
        + multiset(s.freed)[a] + multiset(s.lost)[a] == if a < s.next then 1 else 0
  {
    hide Range, After, Possible;
    NothingIsConserved();
    RunConserves(NOTHING, steps);
    RangeHoldsEachOnce(After(NOTHING, steps).next, a);
  }

  /** A call that takes its block by a parameter `&`, of a method or of a block that gets a
      trace. */
  ghost predicate TakesAnonymous(s: State, step: Step)
    requires Enabled(s, step)
  {
    match step
    case Call(_, _, _, passed) => passed.Anonymous?
    case CallOfBlock(root, path, _, _, passed) =>
      var b := BlockAt(s, root, path);
      passed.Anonymous? && b.value.traces == [] && b.value.stack == []
    case _ => false
  }

  /** Some call took its block by a parameter `&`, or tracing was flushed. */
  ghost predicate SomethingLost(s: State, steps: seq<Step>)
    requires Possible(s, steps)
    decreases |steps|
  {
    steps != []
    && (TakesAnonymous(s, steps[0]) || steps[0].Flush? || SomethingLost(Apply(s, steps[0]), steps[1..]))
  }

  ghost predicate HasSentinel(queue: seq<Message>) {
    exists m :: m in queue && m.trace == None
  }

  /** Something is lost, or will be when the worker takes it. */
  ghost predicate Losing(s: State) {
    s.lost != [] || HasSentinel(s.queue)
  }

  lemma StepLoses(s: State, step: Step)
    requires Enabled(s, step)
    ensures Losing(Apply(s, step)) <==> Losing(s) || TakesAnonymous(s, step) || step.Flush?
  {
    hide SetBlock, FreedByTrace, FreedByFrames, Fresh, TraceAt, AddInstance;
    match step
    case CallOfBlock(root, path, _, _, _) => BlockStepsKeepSentinels(s, root, path);
    case BlockReturn(root, path, _, _) => BlockStepsKeepSentinels(s, root, path);
    case Flush =>
      var m := Message(s.next + 1, s.next, None);
      assert m in Apply(s, step).queue;
    case Return(i, returned, count) =>
      assert forall m :: m in Apply(s, step).queue && m.trace == None ==> m in s.queue;
      assert forall m :: m in s.queue ==> m in Apply(s, step).queue;
    case WorkerPops => assert s.queue == [s.queue[0]] + s.queue[1..];
    case _ =>
  }

  lemma BlockStepsKeepSentinels(s: State, root: Root, path: seq<Hop>)
    requires Live(s, root, path)
    ensures forall b: Block ::
              var r := WithBlock(s, root, path, b);
              r.lost == s.lost && (HasSentinel(r.queue) <==> HasSentinel(s.queue))
  {
    hide SetBlock, TraceAt;
    forall b: Block
      ensures
        var r := WithBlock(s, root, path, b);
        r.lost == s.lost && (HasSentinel(r.queue) <==> HasSentinel(s.queue))
    {
      if root.Queued? {
        SameSentinels(s.queue, root.i, s.queue[root.i].(trace := Some(SetBlock(AtRoot(s, root), path, b))));
      }
    }
  }

  lemma SameSentinels(queue: seq<Message>, i: nat, m: Message)
    requires i < |queue| && queue[i].trace.Some? && m.trace.Some?
    ensures HasSentinel(queue[i := m]) <==> HasSentinel(queue)
  {
    if x :| x in queue && x.trace == None {
      var k :| 0 <= k < |queue| && queue[k] == x;
      assert queue[i := m][k] == x;
    }
  }

  lemma {:induction false} RunLoses(s: State, steps: seq<Step>)
    requires Possible(s, steps)
    ensures Losing(After(s, steps)) <==> Losing(s) || SomethingLost(s, steps)
    decreases |steps|
  {
    hide TakesAnonymous, Apply, Enabled, Losing;
    if steps != [] {
      StepLoses(s, steps[0]);
      RunLoses(Apply(s, steps[0]), steps[1..]);
    }
  }

  /** When tracing has stopped and the worker has drained the queue, everything ever allocated
      has been freed, exactly once, if and only if no call took its block by a parameter `&` and
      tracing was not flushed; whatever has not been freed then is lost. */
  lemma NothingLeaks(steps: seq<Step>)
    requires Possible(NOTHING, steps)
    ensures
      var s := After(NOTHING, steps);
      s.frames == [] && s.queue == [] && s.hand == None ==>
        && multiset(s.freed) + multiset(s.lost) == Range(0, s.next)
        && (multiset(s.freed) == Range(0, s.next) <==> !SomethingLost(NOTHING, steps))
  {
    hide Range, After, Possible, SomethingLost;
    NothingIsConserved();
    RunConserves(NOTHING, steps);
    RunLoses(NOTHING, steps);
    var s := After(NOTHING, steps);
    NoFrames();
    SumIsLeft(s.freed, s.lost, Range(0, s.next));
  }

  lemma NothingIsConserved()
    ensures Conserved(NOTHING)
  {
    NoFrames();
    NoneAllocated(0);
  }

  lemma SumIsLeft(freed: seq<Address>, lost: seq<Address>, all: multiset<Address>)
    ensures multiset(freed) + multiset(lost) == all ==> (multiset(freed) == all <==> lost == [])
  {
    assert |multiset(freed) + multiset(lost)| == |freed| + |lost|;
    assert |multiset(freed)| == |freed|;
  }

  lemma OneMore(s: State, step: Step, s': State, rest: seq<Step>)
    requires Enabled(s, step) && Apply(s, step) == s' && Possible(s', rest)
    ensures Possible(s, [step] + rest) && After(s, [step] + rest) == After(s', rest)
  {
    assert ([step] + rest)[1..] == rest;
  }

  lemma AnonymousCall(pieces: seq<Piece>)
    requires Fresh(pieces, 1, 1)
    ensures
      var call, t := Call(0, pieces, 1, Anonymous), Owned(0, pieces, Some(Block(None, [], [])));
      Enabled(NOTHING, call) && Apply(NOTHING, call) == State([Frame(0, t)], [], None, [], [2], 3)
  {
    hide Fresh;
    var none: seq<Address> := [];
    assert none + [2] == [2];
  }

  lemma ReturnOfOnly(t: Owned, returned: Instance, s: State)
    requires s.frames == [Frame(0, t)] && s.queue == [] && InInstance(returned) == multiset{}
    ensures Enabled(s, Return(0, returned, 0))
    ensures Apply(s, Return(0, returned, 0)) ==
            s.(frames := [], queue := [Message(s.next + 1, s.next, Some(AddInstance(t, returned)))], next := s.next + 2)
  {
    NothingToAllocate(returned, s.next);
    assert s.frames[..0] + s.frames[1..] == [];
  }

  /** The name of one parameter `&` is never freed. */
  lemma AnonymousNameIsLost(returned: Instance) returns (steps: seq<Step>)
    requires InInstance(returned) == multiset{}
    ensures Possible(NOTHING, steps)
    ensures
      var s := After(NOTHING, steps);
      s.frames == [] && s.queue == [] && s.hand == None && s.freed == [4, 1, 0, 3] && s.lost == [2]
  {
    hide FreedByTrace, Possible, After, Fresh;
    var t := Owned(0, [Bytes(1)], Some(Block(None, [], [])));
    var u := AddInstance(t, returned);
    var s1, s2 := State([Frame(0, t)], [], None, [], [2], 3), State([], [Message(4, 3, Some(u))], None, [], [2], 5);
    var s3, s4 := State([], [], Some(Held(3, u)), [4], [2], 5), State([], [], None, [4, 1, 0, 3], [2], 5);
    NoArrayNoFree(returned);
    FreedInOrder(returned);
    assert u.pieces == [Bytes(1), Typed(returned)];
    BytesAreFresh(1);
    AnonymousCall([Bytes(1)]);
    ReturnOfOnly(t, returned, s1);
    assert s2.queue[1..] == [] && [] + [4] == [4] && [4] + ([1, 0] + [3]) == [4, 1, 0, 3];
    NoSteps(s4);
    OneMore(s3, WorkerFrees, s4, []);
    OneMore(s2, WorkerPops, s3, [WorkerFrees] + []);
    OneMore(s1, Return(0, returned, 0), s2, [WorkerPops] + ([WorkerFrees] + []));
    steps := [Return(0, returned, 0)] + ([WorkerPops] + ([WorkerFrees] + []));
    OneMore(NOTHING, Call(0, [Bytes(1)], 1, Anonymous), s1, steps);
    steps := [Call(0, [Bytes(1)], 1, Anonymous)] + steps;
  }

  lemma NoSteps(s: State)
    ensures Possible(s, []) && After(s, []) == s
  {
  }

  lemma FreedInOrder(c: Instance)
    requires FreedByInstance(c) == []
    ensures FreedByTrace(Owned(0, [Bytes(1), Typed(c)], Some(Block(None, [], [])))) == [1, 0]
  {
    hide FreedByInstance;
    var ps := [Bytes(1), Typed(c)];
    assert ps[1..] == [Typed(c)] && [Typed(c)][1..] == [];
    assert FreedByPieces([Typed(c)]) == [];
    assert FreedByPieces(ps) == [1];
    assert FreedByBlock(Some(Block(None, [], []))) == [];
  }

  lemma NothingToAllocate(c: Instance, from: nat)
    requires InInstance(c) == multiset{}
    ensures Fresh([Typed(c)], from, 0)
  {
    assert [Typed(c)][1..] == [];
  }

  lemma NoArrayNoFree(c: Instance)
    requires InInstance(c) == multiset{}
    ensures FreedByInstance(c) == []
  {
    InstanceIsFreed(c);
    assert |multiset(FreedByInstance(c))| == |FreedByInstance(c)|;
  }

  // ---------------------------------------------------------------------------
  // What the steps ask for is what the summaries give

  /** A trace's name, its parameters' names and their array, `texts` allocations in all, and then
      the summaries of several values, built one after the other. */
  function BuildPieces(h: Heap, vs: seq<Ref>, limit: nat, texts: nat, n: nat): (seq<Piece>, nat)
    requires ValidHeap(h) && forall v :: v in vs ==> v in h
  {
    if vs == [] then (seq(texts, k requires 0 <= k < texts => Bytes(n + k)), n + texts) else
    var (ps, mid) := BuildPieces(h, vs[..|vs| - 1], limit, texts, n);
    var (c, end) := Build(h, vs[|vs| - 1], 0, limit, mid);
    (ps + [Typed(c)], end)
  }

  lemma {:induction false} TextsAreFresh(texts: nat, n: nat)
    ensures Fresh(seq(texts, k requires 0 <= k < texts => Bytes(n + k)), n, texts)
  {
    hide Range, InPieces;
    if texts == 0 {
      NothingIsFresh(n);
    } else {
      var front := seq(texts - 1, k requires 0 <= k < texts - 1 => Bytes(n + k));
      TextsAreFresh(texts - 1, n);
      PiecesSnoc(front, Bytes(n + texts - 1));
      RangeSplits(n, n + texts - 1, n + texts);
      OneAllocated(n + texts - 1);
      assert seq(texts, k requires 0 <= k < texts => Bytes(n + k)) == front + [Bytes(n + texts - 1)];
    }
  }

  lemma {:induction false} PiecesAreFresh(h: Heap, vs: seq<Ref>, limit: nat, texts: nat, n: nat)
    requires ValidHeap(h) && forall v :: v in vs ==> v in h
    ensures
      var (ps, end) := BuildPieces(h, vs, limit, texts, n);
      n <= end && Fresh(ps, n, end - n)
  {
    hide Build, Range, InPieces, InInstance;
    if vs == [] {
      TextsAreFresh(texts, n);
    } else {
      var (ps, mid) := BuildPieces(h, vs[..|vs| - 1], limit, texts, n);
      PiecesAreFresh(h, vs[..|vs| - 1], limit, texts, n);
      BuildOwns(h, vs[|vs| - 1], 0, limit, mid);
      var (c, end) := Build(h, vs[|vs| - 1], 0, limit, mid);
      PiecesSnoc(ps, Typed(c));
      RangeSplits(n, mid, end);
    }
  }

  lemma OneIsFresh(h: Heap, v: Ref, limit: nat, n: nat)
    requires ValidHeap(h) && v in h
    ensures
      var (c, end) := Build(h, v, 0, limit, n);
      n <= end && Fresh([Typed(c)], n, end - n)
  {
    hide Build, Range, InInstance;
    BuildOwns(h, v, 0, limit, n);
    OnePiece(Build(h, v, 0, limit, n).0);
  }

  /** Any values can be recorded: their summaries, built where the numbering stands, are what a
      call, a return and the events of a block at any depth ask for. */
  lemma SummariesEnableSteps(
      s: State, h: Heap, vs: seq<Ref>, v: Ref, limit: nat, texts: nat, fiber: nat, root: Root, path: seq<Hop>,
      passed: Passed)
    requires ValidHeap(h) && v in h && forall a :: a in vs ==> a in h
    ensures
      var (ps, end) := BuildPieces(h, vs, limit, texts, s.next + 1);
      && s.next < end
      && Enabled(s, Call(fiber, ps, end - s.next - 1, passed))
      && (HasTracePoint(s, root, path) ==> Enabled(s, CallOfBlock(root, path, ps, end - s.next - 1, passed)))
    ensures
      var (c, end) := Build(h, v, 0, limit, s.next);
      && s.next <= end
      && (forall i | IsTop(s.frames, i) :: Enabled(s, Return(i, c, end - s.next)))
      && (HasTracePoint(s, root, path) ==> Enabled(s, BlockReturn(root, path, c, end - s.next)))
  {
    hide Build, BuildPieces, Fresh, HasTracePoint, IsTop;
    PiecesAreFresh(h, vs, limit, texts, s.next + 1);
    OneIsFresh(h, v, limit, s.next);
  }

  // ---------------------------------------------------------------------------
  // Blocks of blocks

  /** A running block call in a running block call, and so on, of blocks that take a block by a
      name. */
  function Nested(first: Address, depth: nat): Owned
    decreases depth
  {
    Owned(first, [], Some(Block(Some(first + 1), [], if depth == 0 then [] else [Outer(Nested(first + 2, depth - 1))])))
  }

  function Down(depth: nat): seq<Hop> {
    if depth == 0 then [] else [Running(0)] + Down(depth - 1)
  }

  lemma {:induction false} NestedGrows(first: Address, depth: nat)
    ensures
      var t, path, last := Nested(first, depth), Down(depth), first + 2 * depth;
      && TraceAt(t, path) == Some(Owned(last, [], Some(Block(Some(last + 1), [], []))))
      && SetBlock(t, path, Block(Some(last + 1), [], [Outer(Nested(last + 2, 0))])) == Nested(first, depth + 1)
    decreases depth
  {
    if depth > 0 {
      assert Down(depth)[1..] == Down(depth - 1);
      NestedGrows(first + 2, depth - 1);
      var inner, deeper := Nested(first + 2, depth - 1), Nested(first + 2, depth);
      assert [Outer(inner)][0 := Outer(deeper)] == [Outer(deeper)];
    }
  }

  function Deep(depth: nat): State {
    State([Frame(0, Nested(0, depth))], [], None, [], [], 2 * depth + 2)
  }

  /** Block traces nest to any depth. */
  lemma AnyDepthIsReached(depth: nat) returns (steps: seq<Step>)
    ensures Possible(NOTHING, steps) && After(NOTHING, steps) == Deep(depth)
  {
    NothingIsFresh(1);
    var call := Call(0, [], 0, Named);
    assert Apply(NOTHING, call) == Deep(0);
    steps := Deepens(0, depth);
    steps := [call] + steps;
  }

  lemma {:induction false} Deepens(from: nat, depth: nat) returns (steps: seq<Step>)
    requires from <= depth
    ensures Possible(Deep(from), steps) && After(Deep(from), steps) == Deep(depth)
    decreases depth - from
  {
    hide Nested;
    steps := [];
    if from < depth {
      var step := CallOfBlock(OnCallStack(0), Down(from), [], 0, Named);
      DeepCall(from);
      steps := Deepens(from + 1, depth);
      steps := [step] + steps;
    }
  }

  lemma DeepCall(depth: nat)
    ensures
      var step := CallOfBlock(OnCallStack(0), Down(depth), [], 0, Named);
      Enabled(Deep(depth), step) && Apply(Deep(depth), step) == Deep(depth + 1)
  {
    NothingIsFresh(2 * depth + 3);
    NestedGrows(0, depth);
  }

  // ---------------------------------------------------------------------------
  // The block steps are those of one block parameter

  /** The same stack and the same recorded traces, traces being told apart by their address. */
  ghost predicate SameBlock(b: Block, st: BlockCalls.State) {
    && |b.stack| == |st.stack| && |b.traces| == |st.traces|
    && (forall i :: 0 <= i < |b.stack| ==>
          st.stack[i] == match b.stack[i] case Inner => None case Outer(t) => Some(t.address))
    && (forall i :: 0 <= i < |b.traces| ==> st.traces[i].id == b.traces[i].address)
  }

  lemma {:induction false} ExchangedBlock(t: Owned, path: seq<Hop>, b: Block)
    requires TraceAt(t, path).Some?
    ensures TraceAt(SetBlock(t, path, b), path).Some? && TraceAt(SetBlock(t, path, b), path).value.block == Some(b)
    decreases path
  {
    if path != [] {
      match path[0]
      case Recorded(k) => ExchangedBlock(t.block.value.traces[k], path[1..], b);
      case Running(k) => ExchangedBlock(t.block.value.stack[k].trace, path[1..], b);
    }
  }

  lemma ExchangedIsThere(s: State, root: Root, path: seq<Hop>, b: Block)
    requires Live(s, root, path)
    ensures Live(WithBlock(s, root, path, b), root, path) && BlockAt(WithBlock(s, root, path, b), root, path) == Some(b)
  {
    hide TraceAt, SetBlock;
    ExchangedBlock(AtRoot(s, root), path, b);
  }

  lemma OtherFieldsDoNotMatter(s: State, root: Root, path: seq<Hop>, lost: seq<Address>, next: Address)
    requires Live(s, root, path)
    ensures
      var r := s.(lost := lost, next := next);
      Live(r, root, path) && BlockAt(r, root, path) == BlockAt(s, root, path)
  {
    hide TraceAt;
  }

  /** An event of a block parameter at any depth does there what it does on its own: a call
      pushes its trace or a placeholder, a return records or removes one. */
  lemma BlockCallAgrees(s: State, step: Step, st: BlockCalls.State)
    requires Enabled(s, step) && step.CallOfBlock? && SameBlock(BlockAt(s, step.root, step.path).value, st)
    ensures
      var s' := Apply(s, step);
      && Live(s', step.root, step.path) && BlockAt(s', step.root, step.path).Some?
      && SameBlock(BlockAt(s', step.root, step.path).value, BlockCalls.OnEvent(st, BlockCalls.BlockCall(s.next)))
  {
    hide WithBlock, BlockAt, Live, Fresh, NewBlock;
    var root, path := step.root, step.path;
    var b := BlockAt(s, root, path).value;
    if b.traces == [] {
      var name := s.next + 1 + step.count;
      var b' := if b.stack != [] then b.(stack := b.stack + [Inner])
                else b.(stack := [Outer(Owned(s.next, step.pieces, NewBlock(step.passed, name)))]);
      ExchangedIsThere(s, root, path, b');
      OtherFieldsDoNotMatter(WithBlock(s, root, path, b'), root, path, Apply(s, step).lost, Apply(s, step).next);
    }
  }

  lemma BlockReturnAgrees(s: State, step: Step, st: BlockCalls.State, value: int)
    requires Enabled(s, step) && step.BlockReturn? && SameBlock(BlockAt(s, step.root, step.path).value, st)
    ensures
      var s' := Apply(s, step);
      && Live(s', step.root, step.path) && BlockAt(s', step.root, step.path).Some?
      && SameBlock(BlockAt(s', step.root, step.path).value, BlockCalls.OnEvent(st, BlockCalls.BlockReturn(value)))
  {
    hide WithBlock, BlockAt, Live, Fresh;
    var root, path := step.root, step.path;
    var b := BlockAt(s, root, path).value;
    if b.traces == [] && b.stack != [] {
      var rest, last := b.stack[..|b.stack| - 1], b.stack[|b.stack| - 1];
      var b' := if last.Inner? then b.(stack := rest)
                else b.(traces := b.traces + [AddInstance(last.trace, step.returned)], stack := rest);
      ExchangedIsThere(s, root, path, b');
      OtherFieldsDoNotMatter(WithBlock(s, root, path, b'), root, path, Apply(s, step).lost, Apply(s, step).next);
    }
  }
}
