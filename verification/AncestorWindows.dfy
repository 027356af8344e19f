/** How exact the pruned mixin lists are. */
module AncestorWindows {
  import opened Traces
  import opened Exploration

  ghost predicate InWindow(w: World, c: Id, a: Id)
    requires w.Valid()
  {
    c in w.constants && exists j: nat :: MixinAt(w, c, j) && w.constants[c].ancestors[j] == a
  }

  /** Ancestor windows contain the windows of their modules. */
  ghost predicate WindowsTransitive(w: World)
    requires w.Valid()
  {
    forall k, a, b :: InWindow(w, k, a) && InWindow(w, a, b) ==> InWindow(w, k, b)
  }

  ghost predicate NoExtensions(w: World)
    requires w.Valid()
  {
    forall k, j: nat :: k in w.constants ==> !ExtensionAt(w, k, j)
  }

  // ---------------------------------------------------------------------------
  // Includes and prepends alone

  predicate MixEdge(m: map<Id, Entry>, x: Id, y: Id) {
    x in m && (y in m[x].included || y in m[x].prepended)
  }

  ghost predicate MixConnects(m: map<Id, Entry>, p: seq<Id>, x: Id, y: Id) {
    |p| >= 2 && p[0] == x && p[|p| - 1] == y && forall i :: 0 <= i < |p| - 1 ==> MixEdge(m, p[i], p[i + 1])
  }

  /** y can be reached from x over recorded includes and prepends. */
  ghost predicate MixReaches(m: map<Id, Entry>, x: Id, y: Id) {
    exists p :: MixConnects(m, p, x, y)
  }

  ghost predicate ExtendedBy(w: World, x: Id, y: Id)
    requires w.Valid()
  {
    x in w.constants && exists j: nat :: ExtensionAt(w, x, j) && w.constants[x].singletonAncestors[j] == Extension(y)
  }

  /** x has y among its ancestors or its singleton ancestors. */
  ghost predicate Touches(w: World, x: Id, y: Id)
    requires w.Valid()
  {
    InWindow(w, x, y) || ExtendedBy(w, x, y)
  }

  ghost predicate TouchPath(w: World, p: seq<Id>, x: Id, y: Id)
    requires w.Valid()
  {
    p != [] && p[0] == x && p[|p| - 1] == y && forall i :: 0 <= i < |p| - 1 ==> Touches(w, p[i], p[i + 1])
  }

  ghost predicate LeadsTo(w: World, x: Id, y: Id)
    requires w.Valid()
  {
    exists p :: TouchPath(w, p, x, y)
  }

  /** Something that c leads to is extended by a module that leads to one of c's window. */
  ghost predicate ExtendedBack(w: World, c: Id)
    requires w.Valid()
  {
    exists x, y, b :: LeadsTo(w, c, x) && ExtendedBy(w, x, y) && InWindow(w, c, b) && LeadsTo(w, y, b)
  }

  ghost predicate AllComplete(w: World, m: map<Id, Entry>)
    requires w.Valid()
  {
    forall k :: k in m ==> k in w.constants && Complete(w, m, k)
  }

  lemma EdgesTouch(w: World, m: map<Id, Entry>, x: Id, y: Id)
    requires w.Valid() && AllComplete(w, m) && Edge(m, x, y)
    ensures MixEdge(m, x, y) ==> InWindow(w, x, y)
    ensures !MixEdge(m, x, y) ==> ExtendedBy(w, x, y)
  {
  }

  lemma PathLeads(w: World, m: map<Id, Entry>, p: seq<Id>, i: nat, j: nat)
    requires w.Valid() && AllComplete(w, m) && IsPath(m, p) && i <= j < |p|
    ensures LeadsTo(w, p[i], p[j])
  {
    hide Complete, ExtendedBy, InWindow;
    var q := p[i..j + 1];
    forall k | 0 <= k < |q| - 1
      ensures Touches(w, q[k], q[k + 1])
    {
      assert Edge(m, p[i + k], p[i + k + 1]);
      EdgesTouch(w, m, p[i + k], p[i + k + 1]);
    }
    assert TouchPath(w, q, p[i], p[j]);
  }

  /** Every module of c's window is reached over recorded includes and prepends alone, unless
      something that c leads to is extended by a module that leads back into the window. */
  lemma IncludesAreKept(w: World, m: map<Id, Entry>, c: Id, b: Id)
    requires w.Valid() && AllComplete(w, m) && c in m && InWindow(w, c, b) && !ExtendedBack(w, c)
    ensures MixReaches(m, c, b)
  {
    hide LeadsTo, ExtendedBy, Complete, InWindow;
    WindowIsReached(w, m, c, b);
    var p :| Connects(m, p, c, b);
    forall i | 0 <= i < |p| - 1
      ensures MixEdge(m, p[i], p[i + 1])
    {
      assert Edge(m, p[i], p[i + 1]);
      EdgesTouch(w, m, p[i], p[i + 1]);
      PathLeads(w, m, p, 0, i);
      PathLeads(w, m, p, i + 1, |p| - 1);
    }
    assert MixConnects(m, p, c, b);
  }

  lemma WindowIsReached(w: World, m: map<Id, Entry>, c: Id, b: Id)
    requires w.Valid() && AllComplete(w, m) && c in m && InWindow(w, c, b)
    ensures Reaches(m, c, b)
  {
    assert Complete(w, m, c);
  }

  lemma {:induction false} MixPathStaysInWindow(w: World, m: map<Id, Entry>, c: Id, p: seq<Id>, b: Id)
    requires w.Valid() && AllComplete(w, m) && WindowsTransitive(w) && MixConnects(m, p, c, b)
    ensures InWindow(w, c, b)
    decreases |p|
  {
    hide Complete, InWindow;
    var n := |p| - 1;
    assert MixEdge(m, p[n - 1], p[n - 1 + 1]);
    EdgesTouch(w, m, p[n - 1], p[n]);
    if |p| > 2 {
      MixPathStaysInWindow(w, m, c, p[..n], p[n - 1]);
    }
  }

  /** With transitive windows nothing else is reached: includes and prepends describe the
      window exactly. */
  lemma MixReachabilityIsTheWindow(w: World, m: map<Id, Entry>, c: Id, b: Id)
    requires w.Valid() && AllComplete(w, m) && c in m && WindowsTransitive(w)
    ensures MixReaches(m, c, b) ==> InWindow(w, c, b)
    ensures !ExtendedBack(w, c) ==> (MixReaches(m, c, b) <==> InWindow(w, c, b))
  {
    hide ExtendedBack, InWindow, AllComplete, WindowsTransitive;
    if p :| MixConnects(m, p, c, b) {
      MixPathStaysInWindow(w, m, c, p, b);
    }
    if InWindow(w, c, b) && !ExtendedBack(w, c) {
      IncludesAreKept(w, m, c, b);
    }
  }

  // ---------------------------------------------------------------------------
  // All edges

  lemma {:induction false} PathStaysInWindow(w: World, m: map<Id, Entry>, c: Id, p: seq<Id>)
    requires w.Valid() && WindowsTransitive(w) && NoExtensions(w)
    requires forall k :: k in m ==> k in w.constants && Complete(w, m, k)
    requires IsPath(m, p) && p[0] == c
    ensures InWindow(w, c, p[|p| - 1])
    decreases |p|
  {
    var n := |p| - 1;
    assert Edge(m, p[n - 1], p[n]) by {
      assert Edge(m, p[n - 1], p[n - 1 + 1]);
    }
    assert InWindow(w, p[n - 1], p[n]);
    if |p| > 2 {
      PathStaysInWindow(w, m, c, p[..n]);
    }
  }

  /** Where no constant is extended and windows are transitive, the pruned include and prepend
      lists still describe the ancestor window exactly. */
  lemma ReachabilityIsTheWindow(w: World, m: map<Id, Entry>, c: Id)
    requires w.Valid() && WindowsTransitive(w) && NoExtensions(w)
    requires c in m && forall k :: k in m ==> k in w.constants && Complete(w, m, k)
    ensures forall y :: Reaches(m, c, y) <==> InWindow(w, c, y)
  {
    forall y
      ensures Reaches(m, c, y) <==> InWindow(w, c, y)
    {
      if Reaches(m, c, y) {
        var p :| Connects(m, p, c, y);
        PathStaysInWindow(w, m, c, p);
      }
      if InWindow(w, c, y) {
        var j: nat :| MixinAt(w, c, j) && w.constants[c].ancestors[j] == y;
        assert Reaches(m, c, w.constants[c].ancestors[j]);
      }
    }
  }

  /** A class (1) that includes a module (2) and a module (3) by which 2 is extended. */
  function ExtendedWorld(): World {
    World(map[
      0 := Info(true, [], [0], [Own, End]),
      1 := Info(true, [], [1, 2, 3, 0], [Own, End]),
      2 := Info(false, [], [2], [Own, Extension(3), End]),
      3 := Info(false, [], [3], [Own, End])], 0, 9)
  }

  predicate IsExtendedWorld(w: World) {
    && w.constants.Keys == {0, 1, 2, 3} && w.objectClass == 0
    && w.constants[0] == Info(true, [], [0], [Own, End])
    && w.constants[1] == Info(true, [], [1, 2, 3, 0], [Own, End])
    && w.constants[2] == Info(false, [], [2], [Own, Extension(3), End])
    && w.constants[3] == Info(false, [], [3], [Own, End])
  }

  lemma ExtendedWorldIsValid()
    ensures IsExtendedWorld(ExtendedWorld())
    ensures forall w :: IsExtendedWorld(w) ==> w.Valid()
  {
  }

  lemma ScanStep(w: World, s: Scan, c: Id, i: nat)
    requires Within(w, s.graph) && c in s.graph.entries && i < |w.constants[c].ancestors|
    ensures
      var a := w.constants[c].ancestors[i];
      var prepended := c !in w.constants[c].ancestors[..i];
      var (g, v) := Explore(w, s.graph, a);
      && (a == c || (a in s.inner && a != w.StopObject(c) && !w.constants[a].isClass) ==>
            ScanAncestors(w, s, c, i) == ScanAncestors(w, s, c, i + 1))
      && (a != c && a == w.StopObject(c) ==> ScanAncestors(w, s, c, i) == s)
      && (a != c && a != w.StopObject(c) && !w.constants[a].isClass && a !in s.inner ==>
            ScanAncestors(w, s, c, i)
               == ScanAncestors(w, Scan(Mix(g, c, a, prepended), s.inner + v, s.visited + {a}), c, i + 1))
  {
    hide Explore, ExploreAll, ScanSingleton;
  }

  lemma SingletonStep(w: World, s: Scan, c: Id, i: nat)
    requires Within(w, s.graph) && c in s.graph.entries && i < |w.constants[c].singletonAncestors|
    ensures
      var a := w.constants[c].singletonAncestors[i];
      && (a == Own ==> ScanSingleton(w, s, c, i) == ScanSingleton(w, s, c, i + 1))
      && (a == End ==> ScanSingleton(w, s, c, i) == s)
      && (a.Extension? && a.id !in s.inner ==>
            var (g, v) := Explore(w, s.graph, a.id);
            ScanSingleton(w, s, c, i)
               == ScanSingleton(w, Scan(Extend(g, c, a.id), s.inner + v, s.visited + {a.id}), c, i + 1))
  {
    hide Explore, ExploreAll, ScanAncestors;
  }

  lemma ExploreUnfolds(w: World, g: Graph, c: Id)
    requires Within(w, g) && c in w.constants && c !in g.entries && w.constants[c].namespaces == []
    ensures
      var s3 := ScanAncestors(w, Scan(SetEntry(g, c, EMPTY), {}, {}), c, 0);
      var s4 := ScanSingleton(w, s3, c, 0);
      Explore(w, g, c) == (s4.graph.(updates := s4.graph.updates + [c]), s4.visited + s4.inner)
  {
    hide ScanAncestors, ScanSingleton;
    assert ExploreAll(w, SetEntry(g, c, EMPTY), []) == SetEntry(g, c, EMPTY);
  }

  /** A module without mixins of its own. */
  lemma {:induction false} ExploreLeaf(w: World, g: Graph, c: Id)
    requires Within(w, g) && c in w.constants && c !in g.entries
    requires w.constants[c] == Info(false, [], [c], [Own, End])
    ensures Explore(w, g, c).0.entries == g.entries[c := EMPTY] && Explore(w, g, c).1 == {}
  {
    hide Explore, ScanAncestors, ScanSingleton;
    var s := Scan(SetEntry(g, c, EMPTY), {}, {});
    ExploreUnfolds(w, g, c);
    ScanStep(w, s, c, 0);
    ScanEnds(w, s, c);
    SingletonStep(w, s, c, 0);
    SingletonStep(w, s, c, 1);
  }

  /** Module 2 of the example: 3 is listed as an extension and reported as visited. */
  lemma ExploreExtended(w: World, g: Graph)
    requires IsExtendedWorld(w) && Within(w, g) && 2 !in g.entries && 3 !in g.entries
    ensures
      var (g', visited) := Explore(w, g, 2);
      g'.entries == g.entries[2 := Entry(None, [], [], [3])][3 := EMPTY] && visited == {3}
  {
    hide Explore, ScanAncestors, ScanSingleton, World.Valid;
    var g1 := SetEntry(g, 2, EMPTY);
    var s := Scan(g1, {}, {});
    ExploreUnfolds(w, g, 2);
    ScanStep(w, s, 2, 0);
    ScanEnds(w, s, 2);
    SingletonStep(w, s, 2, 0);
    ExploreLeaf(w, g1, 3);
    SingletonStep(w, s, 2, 1);
    var s' := Scan(Extend(Explore(w, g1, 3).0, 2, 3), {} + {}, {} + {3});
    SingletonStep(w, s', 2, 2);
    var e := Explore(w, g1, 3).0.entries;
    assert e[2] == EMPTY && EMPTY.extended + [3] == [3];
    assert e[2 := Entry(None, [], [], [3])] == g.entries[2 := Entry(None, [], [], [3])][3 := EMPTY];
  }

  lemma ScanIncluding(w: World, g1: Graph) returns (g: Graph)
    requires IsExtendedWorld(w) && Within(w, g1) && g1.entries == map[1 := EMPTY]
    ensures ScanAncestors(w, Scan(g1, {}, {}), 1, 0).graph == g
    ensures g.entries.Keys == {1, 2, 3}
    ensures g.entries[1] == Entry(None, [2], [], []) && g.entries[2] == Entry(None, [], [], [3])
    ensures g.entries[3] == EMPTY
  {
    hide Explore, ScanAncestors, ScanSingleton, World.Valid;
    var s := Scan(g1, {}, {});
    ScanStep(w, s, 1, 0);
    ExploreExtended(w, g1);
    assert [1, 2, 3, 0][..1] == [1];
    ScanStep(w, s, 1, 1);
    g := Mix(Explore(w, g1, 2).0, 1, 2, false);
    var s' := Scan(g, {} + {3}, {} + {2});
    ScanStep(w, s', 1, 2);
    ScanStep(w, s', 1, 3);
  }

  lemma ExampleWindow(w: World)
    requires IsExtendedWorld(w)
    ensures w.Valid() && InWindow(w, 1, 3)
  {
    ExtendedWorldIsValid();
    assert MixinAt(w, 1, 2);
  }

  /** Extended modules count as visited: class 1 includes 3, but its exploration lists 2 only,
      and 2 does not include 3. The include survives as an extend edge alone. */
  lemma ExtensionHidesInclude(w: World) returns (g: Graph)
    requires IsExtendedWorld(w)
    ensures w.Valid() && InWindow(w, 1, 3) && g == Explore(w, Graph(map[], []), 1).0
    ensures 1 in g.entries && g.entries[1] == Entry(None, [2], [], [])
    ensures 2 in g.entries && g.entries[2] == Entry(None, [], [], [3])
    ensures Reaches(g.entries, 1, 3) && !MixReaches(g.entries, 1, 3)
  {
    hide Explore, ScanAncestors, ScanSingleton, MixinAt, World.Valid;
    ExampleWindow(w);
    var g0 := Graph(map[], []);
    var g1 := SetEntry(g0, 1, EMPTY);
    ExploreUnfolds(w, g0, 1);
    var g2 := ScanIncluding(w, g1);
    var s := ScanAncestors(w, Scan(g1, {}, {}), 1, 0);
    SingletonStep(w, s, 1, 0);
    SingletonStep(w, s, 1, 1);
    g := Explore(w, g0, 1).0;
    assert Connects(g.entries, [1, 2, 3], 1, 3);
    assert forall x :: !MixEdge(g.entries, x, 3);
    forall p
      ensures !MixConnects(g.entries, p, 1, 3)
    {
      if |p| >= 2 && p[|p| - 1] == 3 {
        assert !MixEdge(g.entries, p[|p| - 2], p[|p| - 2 + 1]);
      }
    }
  }

  /** The same modules, with the extending one first among the ancestors of class 1. */
  function ReversedWorld(): World {
    ExtendedWorld().(constants := ExtendedWorld().constants[1 := Info(true, [], [1, 3, 2, 0], [Own, End])])
  }

  predicate IsReversedWorld(w: World) {
    && w.constants.Keys == {0, 1, 2, 3} && w.objectClass == 0
    && w.constants[0] == Info(true, [], [0], [Own, End])
    && w.constants[1] == Info(true, [], [1, 3, 2, 0], [Own, End])
    && w.constants[2] == Info(false, [], [2], [Own, Extension(3), End])
    && w.constants[3] == Info(false, [], [3], [Own, End])
  }

  lemma ReversedWorldIsValid()
    ensures IsReversedWorld(ReversedWorld())
    ensures forall w :: IsReversedWorld(w) ==> w.Valid()
  {
  }

  /** Module 2 when 3 has been explored: it is listed as an extension, too. */
  lemma ExploreExtendedLater(w: World, g: Graph)
    requires IsReversedWorld(w) && Within(w, g) && 2 !in g.entries && 3 in g.entries
    ensures Explore(w, g, 2).0.entries == g.entries[2 := Entry(None, [], [], [3])]
  {
    hide Explore, ScanAncestors, ScanSingleton, World.Valid;
    var g1 := SetEntry(g, 2, EMPTY);
    var s := Scan(g1, {}, {});
    ExploreUnfolds(w, g, 2);
    ScanStep(w, s, 2, 0);
    ScanEnds(w, s, 2);
    SingletonStep(w, s, 2, 0);
    NothingNewFor(w, g1, 3);
    SingletonStep(w, s, 2, 1);
    var s' := Scan(Extend(g1, 2, 3), {} + {}, {} + {3});
    SingletonStep(w, s', 2, 2);
    assert EMPTY.extended + [3] == [3];
  }

  lemma NothingNewFor(w: World, g: Graph, c: Id)
    requires Within(w, g) && c in g.entries
    ensures Explore(w, g, c) == (g, {})
  {
  }

  lemma ReversedWindow(w: World)
    requires IsReversedWorld(w)
    ensures w.Valid() && ExtendedBack(w, 1)
  {
    ReversedWorldIsValid();
    assert MixinAt(w, 1, 1) && MixinAt(w, 1, 2) && ExtensionAt(w, 2, 1);
    assert InWindow(w, 1, 2) && InWindow(w, 1, 3) && ExtendedBy(w, 2, 3);
    assert TouchPath(w, [1, 2], 1, 2) && TouchPath(w, [3], 3, 3);
    assert LeadsTo(w, 1, 2) && LeadsTo(w, 3, 3);
  }

  lemma ScanReversed(w: World, g1: Graph) returns (h: Graph)
    requires IsReversedWorld(w) && Within(w, g1) && g1.entries == map[1 := EMPTY]
    ensures ScanAncestors(w, Scan(g1, {}, {}), 1, 0).graph == h
    ensures 1 in h.entries && h.entries[1].included == [3, 2]
  {
    hide Explore, ScanAncestors, ScanSingleton, World.Valid;
    var s := Scan(g1, {}, {});
    ScanStep(w, s, 1, 0);
    ExploreLeaf(w, g1, 3);
    assert [1, 3, 2, 0][..1] == [1];
    ScanStep(w, s, 1, 1);
    var h1 := Mix(Explore(w, g1, 3).0, 1, 3, false);
    var s1 := Scan(h1, {} + {}, {} + {3});
    ExploreExtendedLater(w, h1);
    ScanStep(w, s1, 1, 2);
    var (g2, v) := Explore(w, h1, 2);
    h := Mix(g2, 1, 2, false);
    ScanStep(w, Scan(h, s1.inner + v, s1.visited + {2}), 1, 3);
  }

  /** The condition is not necessary: it depends on the order of the ancestors whether the
      extending module is listed first. */
  lemma OrderCanSaveIncludes(w: World) returns (g: Graph)
    requires IsReversedWorld(w)
    ensures w.Valid() && ExtendedBack(w, 1) && g == Explore(w, Graph(map[], []), 1).0
    ensures MixReaches(g.entries, 1, 2) && MixReaches(g.entries, 1, 3)
  {
    hide Explore, ScanAncestors, ScanSingleton, World.Valid, ExtendedBack;
    ReversedWindow(w);
    var g0 := Graph(map[], []);
    var g1 := SetEntry(g0, 1, EMPTY);
    ExploreUnfolds(w, g0, 1);
    var h := ScanReversed(w, g1);
    var s := ScanAncestors(w, Scan(g1, {}, {}), 1, 0);
    SingletonStep(w, s, 1, 0);
    SingletonStep(w, s, 1, 1);
    g := Explore(w, g0, 1).0;
    assert MixConnects(g.entries, [1, 3], 1, 3) && MixConnects(g.entries, [1, 2], 1, 2);
  }
}
