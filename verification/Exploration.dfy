/** Memoised exploration of the graph of constants: a depth-first search over namespaces,
    ancestors and singleton ancestors that records each constant once and prunes modules that
    are already listed by another one. */
module Exploration {
  import opened Traces

  type Id = nat

  /** An entry of a singleton class's ancestors: the class itself, the singleton of Object or
      Module (where the scan ends), another class, or a module. */
  datatype SingletonAncestor = Own | End | OtherClass | Extension(id: Id)

  /** What the VM says about a constant. `namespaces` are the constants its name is nested
      in, outermost first. */
  datatype Info = Info(
    isClass: bool, namespaces: seq<Id>, ancestors: seq<Id>, singletonAncestors: seq<SingletonAncestor>)

  datatype World = World(constants: map<Id, Info>, objectClass: Id, kernelModule: Id) {
    ghost predicate Valid() {
      forall c :: c in constants ==>
        && (forall n :: n in constants[c].namespaces ==> n in constants)
        && (forall a :: a in constants[c].ancestors ==> a in constants)
        && (forall a :: Extension(a) in constants[c].singletonAncestors ==> a in constants)
    }

    /** Where the scan of the ancestors ends. */
    function StopObject(c: Id): Id {
      if c == objectClass then kernelModule else objectClass
    }
  }

  /** What is recorded about a constant; constants are referred to by their identity, which
      stands for their unique name. */
  datatype Entry = Entry(superclass: Option<Id>, included: seq<Id>, prepended: seq<Id>, extended: seq<Id>)

  const EMPTY := Entry(None, [], [], [])

  /** The memo map and the constants not yet sent. */
  datatype Graph = Graph(entries: map<Id, Entry>, updates: seq<Id>)

  ghost predicate Within(w: World, g: Graph) {
    w.Valid() && g.entries.Keys <= w.constants.Keys
  }

  function Unexplored(w: World, g: Graph): set<Id> {
    w.constants.Keys - g.entries.Keys
  }

  function SetEntry(g: Graph, c: Id, e: Entry): Graph {
    g.(entries := g.entries[c := e])
  }

  // ---------------------------------------------------------------------------
  // The search

  /** Also returns the constants the call adds to the caller's set of visited constants. */
  function Explore(w: World, g: Graph, c: Id): (r: (Graph, set<Id>))
    requires Within(w, g) && c in w.constants
    ensures Within(w, r.0) && g.entries.Keys + {c} <= r.0.entries.Keys
    decreases Unexplored(w, g), 0
  {
    if c in g.entries then (g, {}) else
    var g1 := SetEntry(g, c, EMPTY);
    assert c in Unexplored(w, g) && c !in Unexplored(w, g1);
    var g2 := ExploreAll(w, g1, w.constants[c].namespaces);
    var s3 := ScanAncestors(w, Scan(g2, {}, {}), c, 0);
    var s4 := ScanSingleton(w, s3, c, 0);
    (s4.graph.(updates := s4.graph.updates + [c]), s4.visited + s4.inner)
  }

  function ExploreAll(w: World, g: Graph, cs: seq<Id>): (r: Graph)
    requires Within(w, g) && forall c :: c in cs ==> c in w.constants
    ensures Within(w, r) && g.entries.Keys <= r.entries.Keys
    decreases Unexplored(w, g), 1, |cs|
  {
    if cs == [] then g else
    var g1 := Explore(w, g, cs[0]).0;
    assert Unexplored(w, g1) <= Unexplored(w, g);
    ExploreAll(w, g1, cs[1..])
  }

  /** The state of a scan: `inner` holds what the explored modules visited, `visited` the
      modules listed here. */
  datatype Scan = Scan(graph: Graph, inner: set<Id>, visited: set<Id>)

  function ScanAncestors(w: World, s: Scan, c: Id, i: nat): (r: Scan)
    requires Within(w, s.graph) && c in s.graph.entries && i <= |w.constants[c].ancestors|
    ensures Within(w, r.graph) && s.graph.entries.Keys <= r.graph.entries.Keys
    decreases Unexplored(w, s.graph), 1, |w.constants[c].ancestors| - i
  {
    var info := w.constants[c];
    if i == |info.ancestors| then s else
    var a := info.ancestors[i];
    var prepended := c !in info.ancestors[..i];
    if a == c then ScanAncestors(w, s, c, i + 1)
    else if a == w.StopObject(c) then s
    else if info.isClass && w.constants[a].isClass then
      if prepended then ScanAncestors(w, s, c, i + 1)
      else
        var g := Explore(w, s.graph, a).0;
        s.(graph := SetEntry(g, c, g.entries[c].(superclass := Some(a))))
    else if a in s.inner then ScanAncestors(w, s, c, i + 1)
    else
      var (g, visited) := Explore(w, s.graph, a);
      var s' := Scan(Mix(g, c, a, prepended), s.inner + visited, s.visited + {a});
      assert Unexplored(w, s'.graph) <= Unexplored(w, s.graph);
      ScanAncestors(w, s', c, i + 1)
  }

  function Mix(g: Graph, c: Id, a: Id, prepended: bool): Graph
    requires c in g.entries
  {
    var e := g.entries[c];
    SetEntry(g, c, if prepended then e.(prepended := e.prepended + [a]) else e.(included := e.included + [a]))
  }

  function Extend(g: Graph, c: Id, a: Id): Graph
    requires c in g.entries
  {
    SetEntry(g, c, g.entries[c].(extended := g.entries[c].extended + [a]))
  }

  function ScanSingleton(w: World, s: Scan, c: Id, i: nat): (r: Scan)
    requires Within(w, s.graph) && c in s.graph.entries && i <= |w.constants[c].singletonAncestors|
    ensures Within(w, r.graph) && s.graph.entries.Keys <= r.graph.entries.Keys
    decreases Unexplored(w, s.graph), 1, |w.constants[c].singletonAncestors| - i
  {
    var ancestors := w.constants[c].singletonAncestors;
    if i == |ancestors| || ancestors[i] == End then s
    else if ancestors[i].Extension? && ancestors[i].id !in s.inner then
      var a := ancestors[i].id;
      var (g, visited) := Explore(w, s.graph, a);
      var s' := Scan(Extend(g, c, a), s.inner + visited, s.visited + {a});
      assert Unexplored(w, s'.graph) <= Unexplored(w, s.graph);
      ScanSingleton(w, s', c, i + 1)
    else ScanSingleton(w, s, c, i + 1)
  }

  /** Enclosing constants are explored one after the other, in the given order. */
  lemma {:induction false} NamespacesInOrder(w: World, g: Graph, cs: seq<Id>, n: nat)
    requires Within(w, g) && (forall c :: c in cs ==> c in w.constants) && n < |cs|
    ensures ExploreAll(w, g, []) == g
    ensures ExploreAll(w, g, cs[..n + 1]) == Explore(w, ExploreAll(w, g, cs[..n]), cs[n]).0
    decreases n
  {
    hide Explore;
    if n > 0 {
      assert cs[..n + 1][1..] == cs[1..][..n] && cs[..n][1..] == cs[1..][..n - 1];
      NamespacesInOrder(w, Explore(w, g, cs[0]).0, cs[1..], n - 1);
    }
  }

  /** A constant that is new comes last among the pending ones, behind all that were pending and
      all that its exploration has added. */
  lemma ExploredComesLast(w: World, g: Graph, c: Id, published: set<Id>, open: set<Id>)
    requires Inv(w, g, published, open) && c in w.constants && c !in g.entries
    ensures
      var updates := Explore(w, g, c).0.updates;
      g.updates <= updates && updates != [] && updates[|updates| - 1] == c
  {
    hide ExploreAll, ScanAncestors, ScanSingleton, Complete, Bookkept, Closed, AllReached;
    ExploreKeeps(w, g, c, published, open);
  }

  lemma ScanEnds(w: World, s: Scan, c: Id)
    requires Within(w, s.graph) && c in s.graph.entries
    ensures ScanAncestors(w, s, c, |w.constants[c].ancestors|) == s
  {
  }

  /** The search as it runs, on the shared memo map and update list. */
  class Explorer {
    const world: World
    var constantMap: map<Id, Entry>
    var constantUpdates: seq<Id>

    function State(): Graph
      reads this
    {
      Graph(constantMap, constantUpdates)
    }

    constructor (world: World)
      ensures this.world == world && State() == Graph(map[], [])
    {
      this.world := world;
      constantMap, constantUpdates := map[], [];
    }

    /** Hands the pending constants to a trace; a constant missing from the map would raise. */
    method TakeUpdates() returns (updates: seq<Entry>)
      requires forall c :: c in constantUpdates ==> c in constantMap
      modifies this
      ensures State() == old(State()).(updates := [])
      ensures |updates| == |old(constantUpdates)|
      ensures forall k :: 0 <= k < |updates| ==> updates[k] == constantMap[old(constantUpdates)[k]]
    {
      updates := [];
      for k := 0 to |constantUpdates|
        invariant |updates| == k && State() == old(State())
        invariant forall l :: 0 <= l < k ==> updates[l] == constantMap[constantUpdates[l]]
      {
        updates := updates + [constantMap[constantUpdates[k]]];
      }
      constantUpdates := [];
    }

    // `rest` bounds what is still unexplored; it serves the termination measure only.

    method ExploreConstant(c: Id, ghost rest: set<Id>) returns (visited: set<Id>)
      requires Within(world, State()) && Unexplored(world, State()) <= rest && c in world.constants
      modifies this
      ensures (State(), visited) == Explore(world, old(State()), c)
      decreases rest, 0
    {
      if c in constantMap {
        return {};
      }
      constantMap := constantMap[c := EMPTY];
      assert c in Unexplored(world, old(State()));
      ghost var less := rest - {c};
      ExploreNamespace(c, less);
      var inner: set<Id> := {};
      inner, visited := ScanForMixins(c, less);
      inner, visited := ScanForExtensions(c, inner, visited, less);
      visited := visited + inner;
      constantUpdates := constantUpdates + [c];
    }

    method ExploreNamespace(c: Id, ghost rest: set<Id>)
      requires Within(world, State()) && Unexplored(world, State()) <= rest && c in constantMap
      modifies this
      ensures State() == ExploreAll(world, old(State()), world.constants[c].namespaces)
      decreases rest, 2
    {
      var namespaces := world.constants[c].namespaces;
      for i := 0 to |namespaces|
        invariant Within(world, State()) && Unexplored(world, State()) <= rest
        invariant ExploreAll(world, old(State()), namespaces) == ExploreAll(world, State(), namespaces[i..])
      {
        assert namespaces[i..][0] == namespaces[i] && namespaces[i..][1..] == namespaces[i + 1..];
        var _ := ExploreConstant(namespaces[i], rest);
      }
    }

    method ListMixin(c: Id, ancestor: Id, prepended: bool, ghost rest: set<Id>) returns (explored: set<Id>)
      requires Within(world, State()) && Unexplored(world, State()) <= rest
      requires c in constantMap && ancestor in world.constants
      modifies this
      ensures State() == Mix(Explore(world, old(State()), ancestor).0, c, ancestor, prepended)
      ensures explored == Explore(world, old(State()), ancestor).1
      decreases rest, 1
    {
      explored := ExploreConstant(ancestor, rest);
      var entry := constantMap[c];
      if prepended {
        entry := entry.(prepended := entry.prepended + [ancestor]);
      } else {
        entry := entry.(included := entry.included + [ancestor]);
      }
      constantMap := constantMap[c := entry];
    }

    method ListExtension(c: Id, ancestor: Id, ghost rest: set<Id>) returns (explored: set<Id>)
      requires Within(world, State()) && Unexplored(world, State()) <= rest
      requires c in constantMap && ancestor in world.constants
      modifies this
      ensures State() == Extend(Explore(world, old(State()), ancestor).0, c, ancestor)
      ensures explored == Explore(world, old(State()), ancestor).1
      decreases rest, 1
    {
      explored := ExploreConstant(ancestor, rest);
      var entry := constantMap[c];
      constantMap := constantMap[c := entry.(extended := entry.extended + [ancestor])];
    }

    method SetSuperclass(c: Id, ancestor: Id, ghost rest: set<Id>)
      requires Within(world, State()) && Unexplored(world, State()) <= rest
      requires c in constantMap && ancestor in world.constants
      modifies this
      ensures
        var g := Explore(world, old(State()), ancestor).0;
        State() == SetEntry(g, c, g.entries[c].(superclass := Some(ancestor)))
      decreases rest, 1
    {
      var _ := ExploreConstant(ancestor, rest);
      var entry := constantMap[c];
      constantMap := constantMap[c := entry.(superclass := Some(ancestor))];
    }

    /** One round of the loop over the ancestors; `done` where the loop breaks. */
    method VisitAncestor(c: Id, i: nat, inner: set<Id>, visited: set<Id>, ghost rest: set<Id>)
      returns (inner': set<Id>, visited': set<Id>, done: bool)
      requires Within(world, State()) && Unexplored(world, State()) <= rest
      requires c in constantMap && i < |world.constants[c].ancestors|
      modifies this
      ensures Within(world, State()) && c in constantMap && Unexplored(world, State()) <= rest
      ensures ScanAncestors(world, Scan(old(State()), inner, visited), c, i) ==
        if done then Scan(State(), inner', visited')
        else ScanAncestors(world, Scan(State(), inner', visited'), c, i + 1)
      decreases rest, 2
    {
      var info := world.constants[c];
      var ancestor := info.ancestors[i];
      var prepended := c !in info.ancestors[..i];
      inner', visited', done := inner, visited, false;
      if ancestor == c {
      } else if ancestor == world.StopObject(c) {
        done := true;
      } else if info.isClass && world.constants[ancestor].isClass {
        if !prepended {
          SetSuperclass(c, ancestor, rest);
          done := true;
        }
      } else if ancestor !in inner {
        var explored := ListMixin(c, ancestor, prepended, rest);
        inner', visited' := inner + explored, visited + {ancestor};
      }
    }

    /** The loop over the ancestors. */
    method ScanForMixins(c: Id, ghost rest: set<Id>) returns (inner: set<Id>, visited: set<Id>)
      requires Within(world, State()) && Unexplored(world, State()) <= rest && c in constantMap
      modifies this
      ensures Scan(State(), inner, visited) == ScanAncestors(world, Scan(old(State()), {}, {}), c, 0)
      decreases rest, 3
    {
      hide Explore, ExploreAll, ScanAncestors, ScanSingleton;
      inner, visited := {}, {};
      ghost var goal := ScanAncestors(world, Scan(State(), inner, visited), c, 0);
      for i := 0 to |world.constants[c].ancestors|
        invariant Within(world, State()) && c in constantMap && Unexplored(world, State()) <= rest
        invariant goal == ScanAncestors(world, Scan(State(), inner, visited), c, i)
      {
        var done: bool;
        inner, visited, done := VisitAncestor(c, i, inner, visited, rest);
        if done {
          return;
        }
      }
      ScanEnds(world, Scan(State(), inner, visited), c);
    }

    /** The module part of the loop over the singleton class's ancestors. */
    method VisitExtension(c: Id, i: nat, inner: set<Id>, visited: set<Id>, ghost rest: set<Id>)
      returns (inner': set<Id>, visited': set<Id>)
      requires Within(world, State()) && Unexplored(world, State()) <= rest && c in constantMap
      requires i < |world.constants[c].singletonAncestors| && world.constants[c].singletonAncestors[i].Extension?
      modifies this
      ensures Within(world, State()) && c in constantMap
      ensures Unexplored(world, State()) <= rest
      ensures ScanSingleton(world, Scan(State(), inner', visited'), c, i + 1)
           == ScanSingleton(world, Scan(old(State()), inner, visited), c, i)
      decreases rest, 2
    {
      var ancestor := world.constants[c].singletonAncestors[i].id;
      inner', visited' := inner, visited;
      if ancestor !in inner {
        var explored := ListExtension(c, ancestor, rest);
        inner', visited' := inner + explored, visited + {ancestor};
      }
    }

    /** The loop over the singleton class's ancestors. */
    method ScanForExtensions(c: Id, inner0: set<Id>, visited0: set<Id>, ghost rest: set<Id>)
      returns (inner: set<Id>, visited: set<Id>)
      requires Within(world, State()) && Unexplored(world, State()) <= rest && c in constantMap
      modifies this
      ensures Scan(State(), inner, visited) == ScanSingleton(world, Scan(old(State()), inner0, visited0), c, 0)
      decreases rest, 3
    {
      hide Explore, ExploreAll, ScanAncestors;
      var ancestors := world.constants[c].singletonAncestors;
      inner, visited := inner0, visited0;
      ghost var goal := ScanSingleton(world, Scan(State(), inner, visited), c, 0);
      for i := 0 to |ancestors|
        invariant Within(world, State()) && c in constantMap
        invariant Unexplored(world, State()) <= rest
        invariant goal == ScanSingleton(world, Scan(State(), inner, visited), c, i)
      {
        if ancestors[i] == End {
          return;
        }
        if ancestors[i].Extension? {
          inner, visited := VisitExtension(c, i, inner, visited, rest);
        }
      }
    }
  }

  // ---------------------------------------------------------------------------
  // What the ancestor lists say

  /** The scan of c's ancestors ends at index j: the stop object, or the superclass. */
  predicate Ends(w: World, c: Id, j: nat)
    requires w.Valid() && c in w.constants && j < |w.constants[c].ancestors|
  {
    var info := w.constants[c];
    var a := info.ancestors[j];
    a != c && (a == w.StopObject(c) || (info.isClass && w.constants[a].isClass && c in info.ancestors[..j]))
  }

  ghost predicate Reached(w: World, c: Id, j: nat)
    requires w.Valid() && c in w.constants
  {
    j <= |w.constants[c].ancestors| && forall k :: 0 <= k < j ==> !Ends(w, c, k)
  }

  /** Index j holds a module of c's ancestor window. */
  ghost predicate MixinAt(w: World, c: Id, j: nat)
    requires w.Valid() && c in w.constants
  {
    var info := w.constants[c];
    j < |info.ancestors| && Reached(w, c, j) && info.ancestors[j] != c && info.ancestors[j] != w.StopObject(c)
    && !(info.isClass && w.constants[info.ancestors[j]].isClass)
  }

  /** Index j holds c's superclass. */
  ghost predicate SuperclassAt(w: World, c: Id, j: nat)
    requires w.Valid() && c in w.constants
  {
    var info := w.constants[c];
    j < |info.ancestors| && Reached(w, c, j) && Ends(w, c, j) && info.ancestors[j] != w.StopObject(c)
  }

  /** An ancestor at which the scan stops: Object, and for Object itself Kernel. */
  predicate IsStop(w: World, c: Id, a: Id) {
    a != c && if c == w.objectClass then a == w.kernelModule else a == w.objectClass
  }

  /** A class behind c among its ancestors, when c is a class. */
  predicate IsClassBehind(w: World, c: Id, k: nat)
    requires w.Valid() && c in w.constants && k < |w.constants[c].ancestors|
  {
    var ancestors := w.constants[c].ancestors;
    w.constants[c].isClass && w.constants[ancestors[k]].isClass && ancestors[k] != c && c in ancestors[..k]
  }

  /** What the windows are, read off the ancestors: c's mixins are what stands before Object, for
      Object before Kernel, and for a class before the next class behind it, other than c and, for
      a class, other classes; its superclass is that next class, if it stands before Object. */
  lemma WindowsReadOff(w: World, c: Id, j: nat)
    requires w.Valid() && c in w.constants && j < |w.constants[c].ancestors|
    ensures
      var ancestors := w.constants[c].ancestors;
      var before := forall k :: 0 <= k < j ==> !IsStop(w, c, ancestors[k]) && !IsClassBehind(w, c, k);
      && (MixinAt(w, c, j) <==>
            before && ancestors[j] != c && !IsStop(w, c, ancestors[j])
            && !(w.constants[c].isClass && w.constants[ancestors[j]].isClass))
      && (SuperclassAt(w, c, j) <==> before && !IsStop(w, c, ancestors[j]) && IsClassBehind(w, c, j))
  {
    var ancestors := w.constants[c].ancestors;
    forall k | 0 <= k < |ancestors|
      ensures Ends(w, c, k) <==> IsStop(w, c, ancestors[k]) || IsClassBehind(w, c, k)
    {
    }
  }

  /** Index j holds a module of c's singleton window. */
  ghost predicate ExtensionAt(w: World, c: Id, j: nat)
    requires w.Valid() && c in w.constants
  {
    var ancestors := w.constants[c].singletonAncestors;
    j < |ancestors| && ancestors[j].Extension? && forall k :: 0 <= k < j ==> ancestors[k] != End
  }

  // ---------------------------------------------------------------------------
  // Reachability through the recorded lists

  predicate Edge(m: map<Id, Entry>, x: Id, y: Id) {
    x in m && (y in m[x].included || y in m[x].prepended || y in m[x].extended)
  }

  ghost predicate IsPath(m: map<Id, Entry>, p: seq<Id>) {
    |p| >= 2 && forall i :: 0 <= i < |p| - 1 ==> Edge(m, p[i], p[i + 1])
  }

  ghost predicate Connects(m: map<Id, Entry>, p: seq<Id>, x: Id, y: Id) {
    IsPath(m, p) && p[0] == x && p[|p| - 1] == y
  }

  ghost predicate Reaches(m: map<Id, Entry>, x: Id, y: Id) {
    exists p :: Connects(m, p, x, y)
  }

  ghost predicate MoreEdges(m: map<Id, Entry>, m': map<Id, Entry>) {
    forall x, y :: Edge(m, x, y) ==> Edge(m', x, y)
  }

  lemma EdgeReaches(m: map<Id, Entry>, x: Id, y: Id)
    requires Edge(m, x, y)
    ensures Reaches(m, x, y)
  {
    assert Connects(m, [x, y], x, y);
  }

  lemma EdgeThenReaches(m: map<Id, Entry>, x: Id, y: Id, z: Id)
    requires Edge(m, x, y) && Reaches(m, y, z)
    ensures Reaches(m, x, z)
  {
    var p :| Connects(m, p, y, z);
    assert Connects(m, [x] + p, x, z);
  }

  lemma ReachesGrows(m: map<Id, Entry>, m': map<Id, Entry>, x: Id, y: Id)
    requires MoreEdges(m, m') && Reaches(m, x, y)
    ensures Reaches(m', x, y)
  {
    var p :| Connects(m, p, x, y);
    assert Connects(m', p, x, y);
  }

  // ---------------------------------------------------------------------------
  // The invariant

  predicate Refers(e: Entry, x: Id) {
    e.superclass == Some(x) || x in e.included || x in e.prepended || x in e.extended
  }

  ghost predicate RightSuperclass(w: World, e: Entry, c: Id)
    requires w.Valid() && c in w.constants
  {
    match e.superclass
    case None => forall j: nat :: !SuperclassAt(w, c, j)
    case Some(a) => exists j: nat :: SuperclassAt(w, c, j) && w.constants[c].ancestors[j] == a
  }

  /** Every listed module is one the ancestors call for, on the right side of the class. */
  ghost predicate OnlyMixins(w: World, e: Entry, c: Id)
    requires w.Valid() && c in w.constants
  {
    var ancestors := w.constants[c].ancestors;
    && (forall a :: a in e.included ==> exists j: nat :: MixinAt(w, c, j) && ancestors[j] == a && c in ancestors[..j])
    && (forall a :: a in e.prepended ==> exists j: nat :: MixinAt(w, c, j) && ancestors[j] == a && c !in ancestors[..j])
  }

  ghost predicate OnlyExtensions(w: World, e: Entry, c: Id)
    requires w.Valid() && c in w.constants
  {
    forall a :: a in e.extended ==>
      exists j: nat :: ExtensionAt(w, c, j) && w.constants[c].singletonAncestors[j] == Extension(a)
  }

  ghost predicate CoversMixins(w: World, m: map<Id, Entry>, c: Id, n: nat)
    requires w.Valid() && c in w.constants
  {
    forall j: nat :: MixinAt(w, c, j) && j < n ==> Reaches(m, c, w.constants[c].ancestors[j])
  }

  ghost predicate CoversExtensions(w: World, m: map<Id, Entry>, c: Id, n: nat)
    requires w.Valid() && c in w.constants
  {
    forall j: nat :: ExtensionAt(w, c, j) && j < n ==> Reaches(m, c, w.constants[c].singletonAncestors[j].id)
  }

  /** The constants that c's name is nested in are in the memo map. */
  ghost predicate NamespacesKnown(w: World, m: map<Id, Entry>, c: Id)
    requires w.Valid() && c in w.constants
  {
    forall n :: n in w.constants[c].namespaces ==> n in m
  }

  /** What holds of a constant whose exploration is complete. */
  ghost predicate Complete(w: World, m: map<Id, Entry>, c: Id)
    requires w.Valid() && c in w.constants
  {
    && c in m && NamespacesKnown(w, m, c)
    && RightSuperclass(w, m[c], c) && OnlyMixins(w, m[c], c) && OnlyExtensions(w, m[c], c)
    && CoversMixins(w, m, c, |w.constants[c].ancestors|)
    && CoversExtensions(w, m, c, |w.constants[c].singletonAncestors|)
  }

  ghost predicate NoDuplicates(s: seq<Id>) {
    forall i, j :: 0 <= i < j < |s| ==> s[i] != s[j]
  }

  /** `published` have been sent; `open` are the constants being explored right now. */
  ghost predicate Bookkept(g: Graph, published: set<Id>, open: set<Id>) {
    && NoDuplicates(g.updates)
    && (forall k :: k in g.entries <==> k in published || k in g.updates || k in open)
    && (forall k :: k in open ==> k !in published && k !in g.updates)
    && (forall k :: k in g.updates ==> k !in published)
  }

  ghost predicate Closed(m: map<Id, Entry>) {
    forall k, x :: k in m && Refers(m[k], x) ==> x in m
  }

  ghost predicate Inv(w: World, g: Graph, published: set<Id>, open: set<Id>) {
    && Within(w, g)
    && Bookkept(g, published, open)
    && Closed(g.entries)
    && (forall k :: k in g.entries && k !in open ==> Complete(w, g.entries, k))
  }

  /** Nothing recorded is changed, except that the lists of `c` may grow. */
  ghost predicate PreservedBut(g: Graph, g': Graph, c: Option<Id>) {
    && g.updates <= g'.updates
    && (forall k :: k in g.entries ==> k in g'.entries && (Some(k) == c || g'.entries[k] == g.entries[k]))
    && (forall k, y :: Some(k) == c && Edge(g.entries, k, y) ==> Edge(g'.entries, k, y))
  }

  lemma PreservedHasMoreEdges(g: Graph, g': Graph, c: Option<Id>)
    requires PreservedBut(g, g', c)
    ensures MoreEdges(g.entries, g'.entries)
  {
  }

  lemma PreservedTwice(g: Graph, g': Graph, g'': Graph, c: Option<Id>)
    requires PreservedBut(g, g', c) && PreservedBut(g', g'', c)
    ensures PreservedBut(g, g'', c)
  {
  }

  lemma PreservedThen(g: Graph, g': Graph, g'': Graph, c: Id)
    requires PreservedBut(g, g', None) && PreservedBut(g', g'', Some(c))
    ensures PreservedBut(g, g'', Some(c))
  {
  }

  lemma PreservedItself(g: Graph, c: Option<Id>)
    ensures PreservedBut(g, g, c)
  {
  }

  lemma CompleteStays(w: World, m: map<Id, Entry>, m': map<Id, Entry>, k: Id)
    requires w.Valid() && k in w.constants && Complete(w, m, k)
    requires MoreEdges(m, m') && m.Keys <= m'.Keys && m'[k] == m[k]
    ensures Complete(w, m', k)
  {
    var info := w.constants[k];
    forall j: nat | MixinAt(w, k, j)
      ensures Reaches(m', k, info.ancestors[j])
    {
      ReachesGrows(m, m', k, info.ancestors[j]);
    }
    forall j: nat | ExtensionAt(w, k, j)
      ensures Reaches(m', k, info.singletonAncestors[j].id)
    {
      ReachesGrows(m, m', k, info.singletonAncestors[j].id);
    }
  }

  /** Changing the entry of an open constant, with references to known constants only. */
  lemma SetOpenEntry(w: World, g: Graph, c: Id, e: Entry, published: set<Id>, open: set<Id>)
    requires Inv(w, g, published, open) && c in open
    requires forall x :: Refers(e, x) ==> x in g.entries
    requires forall y :: Edge(g.entries, c, y) ==> y in e.included || y in e.prepended || y in e.extended
    ensures Inv(w, SetEntry(g, c, e), published, open)
    ensures PreservedBut(g, SetEntry(g, c, e), Some(c))
  {
    var g' := SetEntry(g, c, e);
    assert MoreEdges(g.entries, g'.entries);
    forall k | k in g'.entries && k !in open
      ensures Complete(w, g'.entries, k)
    {
      CompleteStays(w, g.entries, g'.entries, k);
    }
  }

  ghost predicate AllReached(m: map<Id, Entry>, c: Id, s: set<Id>) {
    forall x :: x in s ==> Reaches(m, c, x)
  }

  lemma AllReachedGrows(m: map<Id, Entry>, m': map<Id, Entry>, c: Id, s: set<Id>)
    requires MoreEdges(m, m') && AllReached(m, c, s)
    ensures AllReached(m', c, s)
  {
    forall x | x in s
      ensures Reaches(m', c, x)
    {
      ReachesGrows(m, m', c, x);
    }
  }

  /** A scan of c's ancestors that has dealt with the first i of them. */
  ghost predicate MixinsUpTo(w: World, s: Scan, c: Id, i: nat, published: set<Id>, open: set<Id>) {
    && Inv(w, s.graph, published, open) && c in w.constants && c in open && c in s.graph.entries
    && Reached(w, c, i) && NamespacesKnown(w, s.graph.entries, c)
    && AllReached(s.graph.entries, c, s.inner) && AllReached(s.graph.entries, c, s.visited)
    && OnlyMixins(w, s.graph.entries[c], c) && CoversMixins(w, s.graph.entries, c, i)
    && s.graph.entries[c].superclass == None && s.graph.entries[c].extended == []
  }

  ghost predicate MixinsDone(w: World, s: Scan, c: Id, published: set<Id>, open: set<Id>) {
    && Inv(w, s.graph, published, open) && c in w.constants && c in open && c in s.graph.entries
    && NamespacesKnown(w, s.graph.entries, c)
    && AllReached(s.graph.entries, c, s.inner) && AllReached(s.graph.entries, c, s.visited)
    && OnlyMixins(w, s.graph.entries[c], c)
    && CoversMixins(w, s.graph.entries, c, |w.constants[c].ancestors|)
    && RightSuperclass(w, s.graph.entries[c], c)
  }

  ghost predicate ExtensionsUpTo(w: World, s: Scan, c: Id, i: nat, published: set<Id>, open: set<Id>) {
    && MixinsDone(w, s, c, published, open)
    && i <= |w.constants[c].singletonAncestors|
    && (forall k :: 0 <= k < i ==> w.constants[c].singletonAncestors[k] != End)
    && OnlyExtensions(w, s.graph.entries[c], c) && CoversExtensions(w, s.graph.entries, c, i)
  }

  /** Exploring another constant does not disturb a scan. */
  lemma ExploringKeepsMixins(
      w: World, s: Scan, c: Id, i: nat, published: set<Id>, open: set<Id>, g: Graph)
    requires MixinsUpTo(w, s, c, i, published, open)
    requires Inv(w, g, published, open) && PreservedBut(s.graph, g, None)
    ensures MixinsUpTo(w, s.(graph := g), c, i, published, open)
  {
    PreservedHasMoreEdges(s.graph, g, None);
    AllReachedGrows(s.graph.entries, g.entries, c, s.inner);
    AllReachedGrows(s.graph.entries, g.entries, c, s.visited);
    forall j: nat | MixinAt(w, c, j) && j < i
      ensures Reaches(g.entries, c, w.constants[c].ancestors[j])
    {
      ReachesGrows(s.graph.entries, g.entries, c, w.constants[c].ancestors[j]);
    }
  }

  /** Changing c's own entry keeps what has been reached so far. */
  lemma ChangingKeepsReached(w: World, s: Scan, c: Id, e: Entry, published: set<Id>, open: set<Id>)
    requires Inv(w, s.graph, published, open) && c in open
    requires AllReached(s.graph.entries, c, s.inner) && AllReached(s.graph.entries, c, s.visited)
    requires forall x :: Refers(e, x) ==> x in s.graph.entries
    requires forall y :: Edge(s.graph.entries, c, y) ==> y in e.included || y in e.prepended || y in e.extended
    ensures
      var g := SetEntry(s.graph, c, e);
      && Inv(w, g, published, open) && PreservedBut(s.graph, g, Some(c)) && MoreEdges(s.graph.entries, g.entries)
      && AllReached(g.entries, c, s.inner) && AllReached(g.entries, c, s.visited)
  {
    var g := SetEntry(s.graph, c, e);
    SetOpenEntry(w, s.graph, c, e, published, open);
    PreservedHasMoreEdges(s.graph, g, Some(c));
    AllReachedGrows(s.graph.entries, g.entries, c, s.inner);
    AllReachedGrows(s.graph.entries, g.entries, c, s.visited);
  }

  /** What a newly listed module reaches is reached through it. */
  lemma ReachedThrough(m: map<Id, Entry>, m': map<Id, Entry>, c: Id, a: Id, v: set<Id>)
    requires MoreEdges(m, m') && AllReached(m, a, v) && Edge(m', c, a)
    ensures AllReached(m', c, v + {a})
  {
    EdgeReaches(m', c, a);
    forall x | x in v
      ensures Reaches(m', c, x)
    {
      ReachesGrows(m, m', a, x);
      EdgeThenReaches(m', c, a, x);
    }
  }

  /** Listing the module at index i, whose exploration visited v. */
  lemma MixKeeps(w: World, s: Scan, c: Id, i: nat, published: set<Id>, open: set<Id>, v: set<Id>)
    requires MixinsUpTo(w, s, c, i, published, open) && MixinAt(w, c, i)
    requires
      var a := w.constants[c].ancestors[i];
      a in s.graph.entries && AllReached(s.graph.entries, a, v)
    ensures
      var a := w.constants[c].ancestors[i];
      var g := Mix(s.graph, c, a, c !in w.constants[c].ancestors[..i]);
      && MixinsUpTo(w, Scan(g, s.inner + v, s.visited + {a}), c, i + 1, published, open)
      && PreservedBut(s.graph, g, Some(c))
  {
    hide Complete, Bookkept, CoversMixins, Reaches;
    var a := w.constants[c].ancestors[i];
    var g := Mix(s.graph, c, a, c !in w.constants[c].ancestors[..i]);
    ChangingKeepsReached(w, s, c, g.entries[c], published, open);
    ReachedThrough(s.graph.entries, g.entries, c, a, v);
    assert Reaches(g.entries, c, a);
    CoversMore(w, s.graph.entries, g.entries, c, i);
  }

  lemma CoversMore(w: World, m: map<Id, Entry>, m': map<Id, Entry>, c: Id, i: nat)
    requires w.Valid() && c in w.constants && MoreEdges(m, m') && CoversMixins(w, m, c, i)
    requires MixinAt(w, c, i) ==> Reaches(m', c, w.constants[c].ancestors[i])
    ensures CoversMixins(w, m', c, i + 1)
  {
    forall j: nat | MixinAt(w, c, j) && j < i + 1
      ensures Reaches(m', c, w.constants[c].ancestors[j])
    {
      if j < i {
        ReachesGrows(m, m', c, w.constants[c].ancestors[j]);
      }
    }
  }

  /** Where the scan has come to its end nothing is left to cover. */
  lemma CoversAll(w: World, m: map<Id, Entry>, c: Id, i: nat)
    requires w.Valid() && c in w.constants && CoversMixins(w, m, c, i)
    requires i == |w.constants[c].ancestors| || (i < |w.constants[c].ancestors| && Ends(w, c, i) && !MixinAt(w, c, i))
    ensures CoversMixins(w, m, c, |w.constants[c].ancestors|)
  {
    forall j: nat | MixinAt(w, c, j)
      ensures j < i
    {
    }
  }

  lemma MixinsEnd(w: World, s: Scan, c: Id, i: nat, published: set<Id>, open: set<Id>)
    requires MixinsUpTo(w, s, c, i, published, open)
    requires i == |w.constants[c].ancestors| || (Ends(w, c, i) && w.constants[c].ancestors[i] == w.StopObject(c))
    ensures MixinsDone(w, s, c, published, open)
  {
    CoversAll(w, s.graph.entries, c, i);
  }

  lemma SuperclassKeeps(w: World, s: Scan, c: Id, i: nat, published: set<Id>, open: set<Id>)
    requires MixinsUpTo(w, s, c, i, published, open) && SuperclassAt(w, c, i)
    requires w.constants[c].ancestors[i] in s.graph.entries
    ensures
      var a := w.constants[c].ancestors[i];
      var g := SetEntry(s.graph, c, s.graph.entries[c].(superclass := Some(a)));
      MixinsDone(w, s.(graph := g), c, published, open) && PreservedBut(s.graph, g, Some(c))
      && g.entries[c].extended == []
  {
    var a := w.constants[c].ancestors[i];
    var e := s.graph.entries[c].(superclass := Some(a));
    var g := SetEntry(s.graph, c, e);
    ChangingKeepsReached(w, s, c, e, published, open);
    CoversMore(w, s.graph.entries, g.entries, c, i);
    CoversAll(w, g.entries, c, i);
  }

  // ---------------------------------------------------------------------------
  // The search keeps the invariant

  /** Everything a call promises: the invariant, c known, nothing else changed, and the
      constants it reports as visited reachable from c. */
  ghost predicate ExploreKept(w: World, g: Graph, c: Id, published: set<Id>, open: set<Id>, g': Graph, v: set<Id>) {
    Inv(w, g', published, open) && c in g'.entries && PreservedBut(g, g', None) && AllReached(g'.entries, c, v)
  }

  lemma {:induction false} ExploreKeeps(w: World, g: Graph, c: Id, published: set<Id>, open: set<Id>)
    requires Inv(w, g, published, open) && c in w.constants
    ensures ExploreKept(w, g, c, published, open, Explore(w, g, c).0, Explore(w, g, c).1)
    decreases Unexplored(w, g), 0
  {
    hide ExploreAll, ScanAncestors, ScanSingleton, Complete, Bookkept, Closed, Reaches;
    hide OnlyMixins, CoversMixins, RightSuperclass, OnlyExtensions, CoversExtensions, AllReached;
    if c !in g.entries {
      var g1, open' := SetEntry(g, c, EMPTY), open + {c};
      StartKeeps(w, g, c, published, open);
      assert c in Unexplored(w, g) && c !in Unexplored(w, g1);
      var g2 := ExploreAll(w, g1, w.constants[c].namespaces);
      ExploreAllKeeps(w, g1, w.constants[c].namespaces, published, open');
      var s2 := Scan(g2, {}, {});
      assert Unexplored(w, g2) <= Unexplored(w, g1);
      ScanStarts(w, g2, c, published, open');
      var s3 := ScanAncestors(w, s2, c, 0);
      ScanAncestorsKeeps(w, s2, c, 0, published, open');
      assert Unexplored(w, s3.graph) <= Unexplored(w, g1);
      ExtensionsStart(w, s3, c, published, open');
      var s4 := ScanSingleton(w, s3, c, 0);
      ScanSingletonKeeps(w, s3, c, 0, published, open');
      PreservedThen(g1, g2, s3.graph, c);
      PreservedTwice(g1, s3.graph, s4.graph, Some(c));
      FinishKeeps(w, g, s4, c, published, open);
    } else {
      NothingNew(w, g, c, published, open);
    }
  }

  lemma NothingNew(w: World, g: Graph, c: Id, published: set<Id>, open: set<Id>)
    requires Inv(w, g, published, open) && c in g.entries
    ensures ExploreKept(w, g, c, published, open, g, {})
  {
  }

  lemma ScanStarts(w: World, g: Graph, c: Id, published: set<Id>, open: set<Id>)
    requires Inv(w, g, published, open) && c in open && c in w.constants && c in g.entries && g.entries[c] == EMPTY
    requires NamespacesKnown(w, g.entries, c)
    ensures MixinsUpTo(w, Scan(g, {}, {}), c, 0, published, open)
  {
  }

  lemma ExtensionsStart(w: World, s: Scan, c: Id, published: set<Id>, open: set<Id>)
    requires MixinsDone(w, s, c, published, open) && s.graph.entries[c].extended == []
    ensures ExtensionsUpTo(w, s, c, 0, published, open)
  {
  }

  lemma StartKeeps(w: World, g: Graph, c: Id, published: set<Id>, open: set<Id>)
    requires Inv(w, g, published, open) && c in w.constants && c !in g.entries
    ensures Inv(w, SetEntry(g, c, EMPTY), published, open + {c})
    ensures PreservedBut(g, SetEntry(g, c, EMPTY), None)
  {
    var g' := SetEntry(g, c, EMPTY);
    forall k | k in g'.entries && k !in open + {c}
      ensures Complete(w, g'.entries, k)
    {
      CompleteStays(w, g.entries, g'.entries, k);
    }
  }

  lemma FinishKeeps(w: World, g: Graph, s: Scan, c: Id, published: set<Id>, open: set<Id>)
    requires Inv(w, g, published, open) && c !in g.entries && c in w.constants
    requires ExtensionsDone(w, SetEntry(g, c, EMPTY), s, c, published, open + {c})
    ensures ExploreKept(w, g, c, published, open, s.graph.(updates := s.graph.updates + [c]), s.visited + s.inner)
  {
    hide Reaches, CoversMixins, CoversExtensions, OnlyMixins, OnlyExtensions, RightSuperclass, Closed, Bookkept;
    hide AllReached, Edge;
    NotOpenBefore(g, c, published, open);
    FinishBooks(s.graph, c, published, open);
    AllReachedUnion(s.graph.entries, c, s.visited, s.inner);
  }

  lemma NotOpenBefore(g: Graph, c: Id, published: set<Id>, open: set<Id>)
    requires Bookkept(g, published, open) && c !in g.entries
    ensures c !in open
  {
  }

  lemma AllReachedUnion(m: map<Id, Entry>, c: Id, a: set<Id>, b: set<Id>)
    requires AllReached(m, c, a) && AllReached(m, c, b)
    ensures AllReached(m, c, a + b)
  {
  }

  lemma FinishBooks(g: Graph, c: Id, published: set<Id>, open: set<Id>)
    requires Bookkept(g, published, open + {c}) && c !in open
    ensures Bookkept(g.(updates := g.updates + [c]), published, open)
  {
  }

  lemma {:induction false} ExploreAllKeeps(w: World, g: Graph, cs: seq<Id>, published: set<Id>, open: set<Id>)
    requires Inv(w, g, published, open) && forall c :: c in cs ==> c in w.constants
    ensures Inv(w, ExploreAll(w, g, cs), published, open) && PreservedBut(g, ExploreAll(w, g, cs), None)
    ensures forall c :: c in cs ==> c in ExploreAll(w, g, cs).entries
    decreases Unexplored(w, g), 1, |cs|
  {
    hide Explore, ScanAncestors, ScanSingleton, Complete, Bookkept, Closed;
    if cs != [] {
      var g1 := Explore(w, g, cs[0]).0;
      ExploreKeeps(w, g, cs[0], published, open);
      assert Unexplored(w, g1) <= Unexplored(w, g);
      ExploreAllKeeps(w, g1, cs[1..], published, open);
      PreservedTwice(g, g1, ExploreAll(w, g1, cs[1..]), None);
    }
  }

  lemma {:induction false} ScanAncestorsKeeps(w: World, s: Scan, c: Id, i: nat, published: set<Id>, open: set<Id>)
    requires MixinsUpTo(w, s, c, i, published, open)
    ensures MixinsDone(w, ScanAncestors(w, s, c, i), c, published, open)
    ensures PreservedBut(s.graph, ScanAncestors(w, s, c, i).graph, Some(c))
    ensures ScanAncestors(w, s, c, i).graph.entries[c].extended == []
    decreases Unexplored(w, s.graph), 1, |w.constants[c].ancestors| - i, 1
  {
    hide Explore, ExploreAll, ScanSingleton, Complete, Bookkept, Closed, Reaches;
    hide OnlyMixins, CoversMixins, RightSuperclass;
    var info := w.constants[c];
    if i == |info.ancestors| {
      MixinsEnd(w, s, c, i, published, open);
    } else {
      var a := info.ancestors[i];
      if Ends(w, c, i) {
        if a == w.StopObject(c) {
          MixinsEnd(w, s, c, i, published, open);
        } else {
          var g := Explore(w, s.graph, a).0;
          ExploreKeeps(w, s.graph, a, published, open);
          ExploringKeepsMixins(w, s, c, i, published, open, g);
          SuperclassKeeps(w, s.(graph := g), c, i, published, open);
        }
      } else if MixinAt(w, c, i) && a !in s.inner {
        NextMixin(w, s, c, i, published, open);
      } else {
        CoversMore(w, s.graph.entries, s.graph.entries, c, i);
        ScanAncestorsKeeps(w, s, c, i + 1, published, open);
      }
    }
  }

  lemma {:induction false} NextMixin(w: World, s: Scan, c: Id, i: nat, published: set<Id>, open: set<Id>)
    requires MixinsUpTo(w, s, c, i, published, open) && MixinAt(w, c, i) && !Ends(w, c, i)
    requires w.constants[c].ancestors[i] !in s.inner
    ensures MixinsDone(w, ScanAncestors(w, s, c, i), c, published, open)
    ensures PreservedBut(s.graph, ScanAncestors(w, s, c, i).graph, Some(c))
    ensures ScanAncestors(w, s, c, i).graph.entries[c].extended == []
    decreases Unexplored(w, s.graph), 1, |w.constants[c].ancestors| - i, 0
  {
    hide Explore, ExploreAll, ScanSingleton, Complete, Bookkept, Closed, PreservedBut;
    hide OnlyMixins, CoversMixins, RightSuperclass, AllReached;
    var a := w.constants[c].ancestors[i];
    var (g, v) := Explore(w, s.graph, a);
    ExploreKeeps(w, s.graph, a, published, open);
    ExploringKeepsMixins(w, s, c, i, published, open, g);
    MixKeeps(w, s.(graph := g), c, i, published, open, v);
    var s' := Scan(Mix(g, c, a, c !in w.constants[c].ancestors[..i]), s.inner + v, s.visited + {a});
    assert Unexplored(w, s'.graph) <= Unexplored(w, s.graph);
    ScanAncestorsKeeps(w, s', c, i + 1, published, open);
    var r := ScanAncestors(w, s', c, i + 1);
    assert ScanAncestors(w, s, c, i) == r;
    PreservedTwice(g, s'.graph, r.graph, Some(c));
    PreservedThen(s.graph, g, r.graph, c);
  }

  lemma {:induction false} ScanSingletonKeeps(w: World, s: Scan, c: Id, i: nat, published: set<Id>, open: set<Id>)
    requires ExtensionsUpTo(w, s, c, i, published, open)
    ensures ExtensionsDone(w, s.graph, ScanSingleton(w, s, c, i), c, published, open)
    decreases Unexplored(w, s.graph), 1, |w.constants[c].singletonAncestors| - i, 1
  {
    hide Explore, ExploreAll, ScanAncestors, MixinsDone, OnlyExtensions;
    InnerIsReached(w, s, c, published, open);
    var ancestors := w.constants[c].singletonAncestors;
    if i == |ancestors| || ancestors[i] == End {
      PreservedItself(s.graph, Some(c));
      forall j: nat | ExtensionAt(w, c, j)
        ensures j < i
      {
      }
    } else if ancestors[i].Extension? && ancestors[i].id !in s.inner {
      NextExtension(w, s, c, i, published, open);
    } else {
      CoversMoreExtensions(w, s.graph.entries, s.graph.entries, c, i);
      ScanSingletonKeeps(w, s, c, i + 1, published, open);
    }
  }

  ghost predicate ExtensionsDone(w: World, g: Graph, r: Scan, c: Id, published: set<Id>, open: set<Id>) {
    && ExtensionsUpTo(w, r, c, 0, published, open)
    && CoversExtensions(w, r.graph.entries, c, |w.constants[c].singletonAncestors|)
    && PreservedBut(g, r.graph, Some(c))
  }

  lemma InnerIsReached(w: World, s: Scan, c: Id, published: set<Id>, open: set<Id>)
    requires MixinsDone(w, s, c, published, open)
    ensures Within(w, s.graph) && c in w.constants && c in s.graph.entries && AllReached(s.graph.entries, c, s.inner)
  {
  }

  lemma {:induction false} NextExtension(w: World, s: Scan, c: Id, i: nat, published: set<Id>, open: set<Id>)
    requires ExtensionsUpTo(w, s, c, i, published, open) && ExtensionAt(w, c, i)
    requires w.constants[c].singletonAncestors[i].id !in s.inner
    ensures ExtensionsDone(w, s.graph, ScanSingleton(w, s, c, i), c, published, open)
    decreases Unexplored(w, s.graph), 1, |w.constants[c].singletonAncestors| - i, 0
  {
    hide Explore, ExploreAll, ScanAncestors, Complete, Bookkept, Closed, PreservedBut;
    hide OnlyMixins, CoversMixins, RightSuperclass, OnlyExtensions, CoversExtensions, AllReached;
    var a := w.constants[c].singletonAncestors[i].id;
    var (g, v) := Explore(w, s.graph, a);
    ExploreKeeps(w, s.graph, a, published, open);
    ExploringKeepsExtensions(w, s, c, i, published, open, g);
    ExtendKeeps(w, s.(graph := g), c, i, published, open, v);
    var s' := Scan(Extend(g, c, a), s.inner + v, s.visited + {a});
    assert Unexplored(w, s'.graph) <= Unexplored(w, s.graph);
    ScanSingletonKeeps(w, s', c, i + 1, published, open);
    var r := ScanSingleton(w, s', c, i + 1);
    assert ScanSingleton(w, s, c, i) == r;
    PreservedTwice(g, s'.graph, r.graph, Some(c));
    PreservedThen(s.graph, g, r.graph, c);
  }

  lemma CoversMoreExtensions(w: World, m: map<Id, Entry>, m': map<Id, Entry>, c: Id, i: nat)
    requires w.Valid() && c in w.constants && MoreEdges(m, m') && CoversExtensions(w, m, c, i)
    requires ExtensionAt(w, c, i) ==> Reaches(m', c, w.constants[c].singletonAncestors[i].id)
    ensures CoversExtensions(w, m', c, i + 1)
  {
    forall j: nat | ExtensionAt(w, c, j) && j < i + 1
      ensures Reaches(m', c, w.constants[c].singletonAncestors[j].id)
    {
      if j < i {
        ReachesGrows(m, m', c, w.constants[c].singletonAncestors[j].id);
      }
    }
  }

  lemma GrowingKeepsDone(w: World, s: Scan, c: Id, i: nat, published: set<Id>, open: set<Id>, s': Scan)
    requires ExtensionsUpTo(w, s, c, i, published, open)
    requires Inv(w, s'.graph, published, open) && PreservedBut(s.graph, s'.graph, Some(c))
    requires
      var e, e' := s.graph.entries[c], s'.graph.entries[c];
      e'.superclass == e.superclass && e'.included == e.included && e'.prepended == e.prepended
      && OnlyExtensions(w, e', c)
    requires AllReached(s'.graph.entries, c, s'.inner) && AllReached(s'.graph.entries, c, s'.visited)
    ensures ExtensionsUpTo(w, s', c, i, published, open)
  {
    PreservedHasMoreEdges(s.graph, s'.graph, Some(c));
    forall j: nat | MixinAt(w, c, j)
      ensures Reaches(s'.graph.entries, c, w.constants[c].ancestors[j])
    {
      ReachesGrows(s.graph.entries, s'.graph.entries, c, w.constants[c].ancestors[j]);
    }
    forall j: nat | ExtensionAt(w, c, j) && j < i
      ensures Reaches(s'.graph.entries, c, w.constants[c].singletonAncestors[j].id)
    {
      ReachesGrows(s.graph.entries, s'.graph.entries, c, w.constants[c].singletonAncestors[j].id);
    }
  }

  lemma ExploringKeepsExtensions(
      w: World, s: Scan, c: Id, i: nat, published: set<Id>, open: set<Id>, g: Graph)
    requires ExtensionsUpTo(w, s, c, i, published, open)
    requires Inv(w, g, published, open) && PreservedBut(s.graph, g, None)
    ensures ExtensionsUpTo(w, s.(graph := g), c, i, published, open)
  {
    PreservedHasMoreEdges(s.graph, g, None);
    AllReachedGrows(s.graph.entries, g.entries, c, s.inner);
    AllReachedGrows(s.graph.entries, g.entries, c, s.visited);
    GrowingKeepsDone(w, s, c, i, published, open, s.(graph := g));
  }

  lemma ExtendKeeps(w: World, s: Scan, c: Id, i: nat, published: set<Id>, open: set<Id>, v: set<Id>)
    requires ExtensionsUpTo(w, s, c, i, published, open) && ExtensionAt(w, c, i)
    requires
      var a := w.constants[c].singletonAncestors[i].id;
      a in s.graph.entries && AllReached(s.graph.entries, a, v)
    ensures
      var a := w.constants[c].singletonAncestors[i].id;
      var g := Extend(s.graph, c, a);
      && ExtensionsUpTo(w, Scan(g, s.inner + v, s.visited + {a}), c, i + 1, published, open)
      && PreservedBut(s.graph, g, Some(c))
  {
    hide Complete, Bookkept, CoversMixins, CoversExtensions, OnlyMixins, Reaches;
    var a := w.constants[c].singletonAncestors[i].id;
    var g := Extend(s.graph, c, a);
    ChangingKeepsReached(w, s, c, g.entries[c], published, open);
    ReachedThrough(s.graph.entries, g.entries, c, a, v);
    assert Reaches(g.entries, c, a);
    GrowingKeepsDone(w, s, c, i, published, open, Scan(g, s.inner + v, s.visited + {a}));
    CoversMoreExtensions(w, s.graph.entries, g.entries, c, i);
  }
}
