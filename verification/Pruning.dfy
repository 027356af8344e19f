/** When exactly the pruning of mixin lists loses an include. The scan of a constant's ancestors
    lists a module unless something listed before has visited it, over ancestors or over
    extensions. From any state of the memo map on, a module is listed if and only if that guard
    lets it pass, and an include of the constant's own is reachable over recorded includes and
    prepends if and only if it is listed. Joined over all constants of a run this is exactly when
    includes and prepends describe all ancestor windows. */
module Pruning {
  import opened Traces
  import opened Exploration
  import opened AncestorWindows
  import opened Ledgers
  import opened Selection

  // ---------------------------------------------------------------------------
  // Exploring changes no entry that is there

  ghost predicate Framed(g: Graph, g': Graph, c: Option<Id>) {
    forall k :: k in g.entries && Some(k) != c ==> k in g'.entries && g'.entries[k] == g.entries[k]
  }

  lemma {:induction false} ExploreFrames(w: World, g: Graph, c: Id)
    requires Within(w, g) && c in w.constants
    ensures Framed(g, Explore(w, g, c).0, None)
    decreases Unexplored(w, g), 0
  {
    hide ExploreAll, ScanAncestors, ScanSingleton;
    if c !in g.entries {
      var g1 := SetEntry(g, c, EMPTY);
      assert c in Unexplored(w, g) && c !in Unexplored(w, g1);
      var g2 := ExploreAll(w, g1, w.constants[c].namespaces);
      ExploreAllFrames(w, g1, w.constants[c].namespaces);
      assert Unexplored(w, g2) <= Unexplored(w, g1);
      var s3 := ScanAncestors(w, Scan(g2, {}, {}), c, 0);
      ScanAncestorsFrames(w, Scan(g2, {}, {}), c, 0);
      assert Unexplored(w, s3.graph) <= Unexplored(w, g2);
      ScanSingletonFrames(w, s3, c, 0);
    }
  }

  lemma {:induction false} ExploreAllFrames(w: World, g: Graph, cs: seq<Id>)
    requires Within(w, g) && forall c :: c in cs ==> c in w.constants
    ensures Framed(g, ExploreAll(w, g, cs), None)
    decreases Unexplored(w, g), 1, |cs|
  {
    hide Explore;
    if cs != [] {
      var g1 := Explore(w, g, cs[0]).0;
      ExploreFrames(w, g, cs[0]);
      assert Unexplored(w, g1) <= Unexplored(w, g);
      ExploreAllFrames(w, g1, cs[1..]);
    }
  }

  lemma {:induction false} ScanAncestorsFrames(w: World, s: Scan, c: Id, i: nat)
    requires Within(w, s.graph) && c in s.graph.entries && i <= |w.constants[c].ancestors|
    ensures Framed(s.graph, ScanAncestors(w, s, c, i).graph, Some(c))
    decreases Unexplored(w, s.graph), 1, |w.constants[c].ancestors| - i + 1
  {
    hide Explore;
    var info := w.constants[c];
    if i < |info.ancestors| && info.ancestors[i] != c && info.ancestors[i] != w.StopObject(c) {
      var a := info.ancestors[i];
      if info.isClass && w.constants[a].isClass {
        if c !in info.ancestors[..i] { ScanAncestorsFrames(w, s, c, i + 1); } else { ExploreFrames(w, s.graph, a); }
      } else if a in s.inner {
        ScanAncestorsFrames(w, s, c, i + 1);
      } else {
        var s' := Listed(w, s, c, i);
        ListedFrames(w, s, c, i);
        ScanAncestorsFrames(w, s', c, i + 1);
      }
    } else if i < |info.ancestors| && info.ancestors[i] == c {
      ScanAncestorsFrames(w, s, c, i + 1);
    }
  }

  /** The scan after listing the module at index i. */
  function Listed(w: World, s: Scan, c: Id, i: nat): (r: Scan)
    requires Within(w, s.graph) && c in s.graph.entries && i < |w.constants[c].ancestors|
    ensures Within(w, r.graph) && c in r.graph.entries && Unexplored(w, r.graph) <= Unexplored(w, s.graph)
    decreases Unexplored(w, s.graph), 1, 0
  {
    var a := w.constants[c].ancestors[i];
    var (g, v) := Explore(w, s.graph, a);
    Scan(Mix(g, c, a, c !in w.constants[c].ancestors[..i]), s.inner + v, s.visited + {a})
  }

  lemma {:induction false} ListedFrames(w: World, s: Scan, c: Id, i: nat)
    requires Within(w, s.graph) && c in s.graph.entries && i < |w.constants[c].ancestors|
    ensures Framed(s.graph, Listed(w, s, c, i).graph, Some(c))
    ensures
      var e, e' := s.graph.entries[c], Listed(w, s, c, i).graph.entries[c];
      var a := w.constants[c].ancestors[i];
      e'.superclass == e.superclass && e'.extended == e.extended
      && (if c !in w.constants[c].ancestors[..i] then e'.prepended == e.prepended + [a] && e'.included == e.included
          else e'.included == e.included + [a] && e'.prepended == e.prepended)
    decreases Unexplored(w, s.graph), 1, 0
  {
    hide Explore;
    ExploreFrames(w, s.graph, w.constants[c].ancestors[i]);
  }

  lemma {:induction false} ScanSingletonFrames(w: World, s: Scan, c: Id, i: nat)
    requires Within(w, s.graph) && c in s.graph.entries && i <= |w.constants[c].singletonAncestors|
    ensures Framed(s.graph, ScanSingleton(w, s, c, i).graph, Some(c))
    ensures
      var e, e' := s.graph.entries[c], ScanSingleton(w, s, c, i).graph.entries[c];
      e'.included == e.included && e'.prepended == e.prepended
    decreases Unexplored(w, s.graph), 1, |w.constants[c].singletonAncestors| - i
  {
    hide Explore;
    var ancestors := w.constants[c].singletonAncestors;
    if i < |ancestors| && ancestors[i] != End {
      if ancestors[i].Extension? && ancestors[i].id !in s.inner {
        var a := ancestors[i].id;
        ExploreFrames(w, s.graph, a);
        var (g, v) := Explore(w, s.graph, a);
        var s' := Scan(Extend(g, c, a), s.inner + v, s.visited + {a});
        assert Unexplored(w, s'.graph) <= Unexplored(w, s.graph);
        ScanSingletonFrames(w, s', c, i + 1);
      } else {
        ScanSingletonFrames(w, s, c, i + 1);
      }
    }
  }

  // ---------------------------------------------------------------------------
  // The scan of a constant, from any memo map on

  /** The scan as it starts, when the namespaces have been explored. */
  function StartOf(w: World, g: Graph, c: Id): (s: Scan)
    requires Within(w, g) && c in w.constants
    ensures Within(w, s.graph) && c in s.graph.entries
  {
    Scan(ExploreAll(w, SetEntry(g, c, EMPTY), w.constants[c].namespaces), {}, {})
  }

  /** The guard of the scan: a module that nothing listed before has visited. */
  ghost predicate Lists(w: World, s: Scan, c: Id, j: nat)
    requires w.Valid() && c in w.constants
  {
    MixinAt(w, c, j) && w.constants[c].ancestors[j] !in s.inner
  }

  /** The state in which the scan of c's ancestors comes to index j. */
  ghost function BeforeFrom(w: World, s: Scan, c: Id, j: nat): (r: Scan)
    requires Within(w, s.graph) && c in s.graph.entries && Reached(w, c, j)
    ensures Within(w, r.graph) && c in r.graph.entries
  {
    if j == 0 then s else
    var m := BeforeFrom(w, s, c, j - 1);
    if Lists(w, m, c, j - 1) then Listed(w, m, c, j - 1) else m
  }

  /** The module at index j passes the guard, when c is explored with the memo map g. */
  ghost predicate Passes(w: World, g: Graph, c: Id, j: nat)
    requires Within(w, g) && c in w.constants && MixinAt(w, c, j)
  {
    w.constants[c].ancestors[j] !in BeforeFrom(w, StartOf(w, g, c), c, j).inner
  }

  lemma {:induction false} ScanComesTo(w: World, s: Scan, c: Id, j: nat)
    requires Within(w, s.graph) && c in s.graph.entries && Reached(w, c, j)
    ensures ScanAncestors(w, s, c, 0) == ScanAncestors(w, BeforeFrom(w, s, c, j), c, j)
  {
    hide ScanAncestors, Listed, Lists, Ends;
    if j > 0 {
      ReachedBefore(w, c, j);
      ScanComesTo(w, s, c, j - 1);
      ScanGoesOn(w, BeforeFrom(w, s, c, j - 1), c, j - 1);
    }
  }

  lemma ReachedBefore(w: World, c: Id, j: nat)
    requires w.Valid() && c in w.constants && Reached(w, c, j) && j > 0
    ensures Reached(w, c, j - 1) && !Ends(w, c, j - 1)
  {
  }

  lemma ScanGoesOn(w: World, s: Scan, c: Id, i: nat)
    requires Within(w, s.graph) && c in s.graph.entries && Reached(w, c, i) && i < |w.constants[c].ancestors|
    requires !Ends(w, c, i)
    ensures ScanAncestors(w, s, c, i) ==
              ScanAncestors(w, if Lists(w, s, c, i) then Listed(w, s, c, i) else s, c, i + 1)
  {
    hide Explore;
  }

  /** Where the scan ends, it at most sets the superclass. */
  lemma ScanEnds(w: World, s: Scan, c: Id, i: nat)
    requires Within(w, s.graph) && c in s.graph.entries && Reached(w, c, i)
    requires i == |w.constants[c].ancestors| || Ends(w, c, i)
    ensures
      var e, e' := s.graph.entries[c], ScanAncestors(w, s, c, i).graph.entries[c];
      e'.included == e.included && e'.prepended == e.prepended
  {
    hide Explore;
    if i < |w.constants[c].ancestors| {
      ExploreFrames(w, s.graph, w.constants[c].ancestors[i]);
    }
  }

  // ---------------------------------------------------------------------------
  // What is listed in the end

  predicate InLists(e: Entry, x: Id) {
    x in e.included || x in e.prepended
  }

  /** Index j is the first that holds its module. */
  ghost predicate FirstAt(w: World, c: Id, j: nat)
    requires w.Valid() && c in w.constants && j < |w.constants[c].ancestors|
  {
    w.constants[c].ancestors[j] !in w.constants[c].ancestors[..j]
  }

  /** Nothing is listed before the scan comes to it. */
  lemma {:induction false} ListedSoFar(w: World, s: Scan, c: Id, j: nat, x: Id)
    requires Within(w, s.graph) && c in s.graph.entries && Reached(w, c, j)
    requires !InLists(s.graph.entries[c], x) && x !in w.constants[c].ancestors[..j]
    ensures !InLists(BeforeFrom(w, s, c, j).graph.entries[c], x)
  {
    hide Listed, Lists, Ends;
    if j > 0 {
      var front := w.constants[c].ancestors[..j];
      assert front[j - 1] in front && front[..j - 1] == w.constants[c].ancestors[..j - 1];
      ReachedBefore(w, c, j);
      ListedSoFar(w, s, c, j - 1, x);
      ListedFrames(w, BeforeFrom(w, s, c, j - 1), c, j - 1);
    }
  }

  /** Once a module is listed or visited, the rest of the scan does not change whether it is
      listed. */
  lemma {:induction false} DecidedStays(w: World, s: Scan, c: Id, i: nat, x: Id)
    requires Within(w, s.graph) && c in s.graph.entries && Reached(w, c, i)
    requires InLists(s.graph.entries[c], x) || x in s.inner
    ensures InLists(ScanAncestors(w, s, c, i).graph.entries[c], x) <==> InLists(s.graph.entries[c], x)
    decreases |w.constants[c].ancestors| - i
  {
    hide ScanAncestors, Ends, Explore;
    if i == |w.constants[c].ancestors| || Ends(w, c, i) {
      ScanEnds(w, s, c, i);
    } else {
      ScanGoesOn(w, s, c, i);
      ListedFrames(w, s, c, i);
      DecidedStays(w, if Lists(w, s, c, i) then Listed(w, s, c, i) else s, c, i + 1, x);
    }
  }

  lemma MixinParts(w: World, c: Id, j: nat)
    requires w.Valid() && c in w.constants && MixinAt(w, c, j)
    ensures j < |w.constants[c].ancestors| && Reached(w, c, j) && !Ends(w, c, j) && Reached(w, c, j + 1)
  {
  }

  lemma StartIsEmpty(w: World, g: Graph, c: Id)
    requires Within(w, g) && c in w.constants
    ensures StartOf(w, g, c).graph.entries[c] == EMPTY
  {
    hide ExploreAll;
    ExploreAllFrames(w, SetEntry(g, c, EMPTY), w.constants[c].namespaces);
  }

  /** Behind the scan of the ancestors the lists of mixins are final. */
  lemma ScanDecides(w: World, g: Graph, c: Id)
    requires Within(w, g) && c in w.constants && c !in g.entries
    ensures
      var r, m := ScanAncestors(w, StartOf(w, g, c), c, 0).graph.entries, Explore(w, g, c).0.entries;
      c in r && c in m && forall x :: InLists(m[c], x) <==> InLists(r[c], x)
  {
    hide ScanAncestors, ScanSingleton, ExploreAll;
    ScanSingletonFrames(w, ScanAncestors(w, StartOf(w, g, c), c, 0), c, 0);
  }

  /** From any memo map on: a module of c's window is listed if and only if, where it is met
      first, it passes the guard. */
  lemma ListsIff(w: World, g: Graph, c: Id, j: nat)
    requires Within(w, g) && c in w.constants && c !in g.entries && MixinAt(w, c, j) && FirstAt(w, c, j)
    ensures
      var m := Explore(w, g, c).0.entries;
      c in m && (InLists(m[c], w.constants[c].ancestors[j]) <==> Passes(w, g, c, j))
  {
    hide Explore, ScanAncestors, MixinAt, Ends, StartOf;
    MixinParts(w, c, j);
    var b, start := w.constants[c].ancestors[j], StartOf(w, g, c);
    var s := BeforeFrom(w, start, c, j);
    StartIsEmpty(w, g, c);
    ListedSoFar(w, start, c, j, b);
    ListedFrames(w, s, c, j);
    ScanComesTo(w, start, c, j);
    ScanGoesOn(w, s, c, j);
    DecidedStays(w, if Lists(w, s, c, j) then Listed(w, s, c, j) else s, c, j + 1, b);
    ScanDecides(w, g, c);
  }

  // ---------------------------------------------------------------------------
  // In which order

  /** The module at index i is listed as included: c itself stands before it. */
  ghost function IncludedAt(w: World, s: Scan, c: Id): nat -> bool
    requires Within(w, s.graph) && c in s.graph.entries
  {
    (i: nat) => MixinAt(w, c, i) && c in w.constants[c].ancestors[..i] && Lists(w, BeforeFrom(w, s, c, i), c, i)
  }

  ghost function PrependedAt(w: World, s: Scan, c: Id): nat -> bool
    requires Within(w, s.graph) && c in s.graph.entries
  {
    (i: nat) => MixinAt(w, c, i) && c !in w.constants[c].ancestors[..i] && Lists(w, BeforeFrom(w, s, c, i), c, i)
  }

  lemma {:induction false} ListsGrowInOrder(w: World, s: Scan, c: Id, j: nat)
    requires Within(w, s.graph) && c in s.graph.entries && s.graph.entries[c] == EMPTY && Reached(w, c, j)
    ensures
      var e, ancestors := BeforeFrom(w, s, c, j).graph.entries[c], w.constants[c].ancestors;
      && e.included == Selected(ancestors, IncludedAt(w, s, c), j)
      && e.prepended == Selected(ancestors, PrependedAt(w, s, c), j)
  {
    hide Listed, Ends, MixinAt;
    if j > 0 {
      ReachedBefore(w, c, j);
      ListsGrowInOrder(w, s, c, j - 1);
      ListedFrames(w, BeforeFrom(w, s, c, j - 1), c, j - 1);
    }
  }

  /** Where the scan ends. */
  lemma EndOf(w: World, c: Id) returns (j: nat)
    requires w.Valid() && c in w.constants
    ensures Reached(w, c, j) && (j == |w.constants[c].ancestors| || Ends(w, c, j))
  {
    hide Ends;
    j := 0;
    while j < |w.constants[c].ancestors| && !Ends(w, c, j)
      invariant Reached(w, c, j)
    {
      j := j + 1;
    }
  }

  lemma {:induction false} NothingBehind<T>(s: seq<T>, keep: nat -> bool, j: nat, n: nat)
    requires j <= n <= |s| && forall i: nat :: j <= i < n ==> !keep(i)
    ensures Selected(s, keep, n) == Selected(s, keep, j)
  {
    if j < n {
      NothingBehind(s, keep, j, n - 1);
    }
  }

  /** The lists of mixins are exactly the modules of the window that pass the guard, those before
      the constant itself prepended and those behind it included, in the order of the ancestors. */
  lemma ListsInOrder(w: World, g: Graph, c: Id)
    requires Within(w, g) && c in w.constants && c !in g.entries
    ensures
      var m, start, ancestors := Explore(w, g, c).0.entries, StartOf(w, g, c), w.constants[c].ancestors;
      && c in m
      && m[c].included == Selected(ancestors, IncludedAt(w, start, c), |ancestors|)
      && m[c].prepended == Selected(ancestors, PrependedAt(w, start, c), |ancestors|)
  {
    hide ScanAncestors, ScanSingleton, Ends, StartOf, Lists;
    var start, n := StartOf(w, g, c), |w.constants[c].ancestors|;
    var j := EndOf(w, c);
    StartIsEmpty(w, g, c);
    ListsGrowInOrder(w, start, c, j);
    ScanComesTo(w, start, c, j);
    ScanEnds(w, BeforeFrom(w, start, c, j), c, j);
    forall i: nat | j <= i
      ensures !MixinAt(w, c, i)
    {
      NoMixinBehind(w, c, j, i);
    }
    NothingBehind(w.constants[c].ancestors, IncludedAt(w, start, c), j, n);
    NothingBehind(w.constants[c].ancestors, PrependedAt(w, start, c), j, n);
    ScanKeepsLists(w, g, c);
  }

  lemma NoMixinBehind(w: World, c: Id, j: nat, i: nat)
    requires w.Valid() && c in w.constants && (j == |w.constants[c].ancestors| || (Reached(w, c, j) && Ends(w, c, j)))
    requires j <= i
    ensures !MixinAt(w, c, i)
  {
  }

  lemma ScanKeepsLists(w: World, g: Graph, c: Id)
    requires Within(w, g) && c in w.constants && c !in g.entries
    ensures
      var r, m := ScanAncestors(w, StartOf(w, g, c), c, 0).graph.entries, Explore(w, g, c).0.entries;
      c in r && c in m && m[c].included == r[c].included && m[c].prepended == r[c].prepended
  {
    hide ScanAncestors, ScanSingleton, ExploreAll;
    ScanSingletonFrames(w, ScanAncestors(w, StartOf(w, g, c), c, 0), c, 0);
  }

  /** Modules that extend c are listed in the order of the singleton ancestors. */
  ghost predicate ExtensionsInOrder(w: World, c: Id, extended: seq<Id>, idx: seq<nat>)
    requires w.Valid() && c in w.constants
  {
    && |idx| == |extended|
    && (forall k, l :: 0 <= k < l < |idx| ==> idx[k] < idx[l])
    && (forall k :: 0 <= k < |idx| ==>
          ExtensionAt(w, c, idx[k]) && w.constants[c].singletonAncestors[idx[k]] == Extension(extended[k]))
  }

  lemma ListedExtensionLast(w: World, s: Scan, c: Id, i: nat)
    requires Within(w, s.graph) && c in s.graph.entries && i < |w.constants[c].singletonAncestors|
    requires w.constants[c].singletonAncestors[i].Extension?
    ensures ListedExtension(w, s, c, i).graph.entries[c].extended
         == s.graph.entries[c].extended + [w.constants[c].singletonAncestors[i].id]
  {
    hide Explore;
    ExploreFrames(w, s.graph, w.constants[c].singletonAncestors[i].id);
  }

  lemma OneMoreExtension(w: World, c: Id, extended: seq<Id>, idx: seq<nat>, i: nat)
    requires w.Valid() && c in w.constants && ExtensionAt(w, c, i)
    requires ExtensionsInOrder(w, c, extended, idx) && forall k :: 0 <= k < |idx| ==> idx[k] < i
    ensures ExtensionsInOrder(w, c, extended + [w.constants[c].singletonAncestors[i].id], idx + [i])
  {
  }

  lemma {:induction false} ScanSingletonOrder(w: World, s: Scan, c: Id, i: nat, idx: seq<nat>) returns (idx': seq<nat>)
    requires Within(w, s.graph) && c in s.graph.entries && i <= |w.constants[c].singletonAncestors|
    requires forall k :: 0 <= k < i ==> w.constants[c].singletonAncestors[k] != End
    requires ExtensionsInOrder(w, c, s.graph.entries[c].extended, idx) && forall k :: 0 <= k < |idx| ==> idx[k] < i
    ensures ExtensionsInOrder(w, c, ScanSingleton(w, s, c, i).graph.entries[c].extended, idx')
    decreases |w.constants[c].singletonAncestors| - i
  {
    hide ListedExtension, Explore, ExtensionsInOrder;
    idx' := idx;
    var ancestors := w.constants[c].singletonAncestors;
    if i < |ancestors| && ancestors[i] != End {
      hide ScanSingleton;
      SingletonGoesOn(w, s, c, i);
      if ancestors[i].Extension? && ancestors[i].id !in s.inner {
        ListedExtensionLast(w, s, c, i);
        OneMoreExtension(w, c, s.graph.entries[c].extended, idx, i);
        idx' := ScanSingletonOrder(w, ListedExtension(w, s, c, i), c, i + 1, idx + [i]);
      } else {
        idx' := ScanSingletonOrder(w, s, c, i + 1, idx);
      }
    }
  }

  lemma ScanExtendsNothing(w: World, g: Graph, c: Id, j: nat)
    requires Within(w, g) && c in w.constants && c !in g.entries && Reached(w, c, j)
    requires j == |w.constants[c].ancestors| || Ends(w, c, j)
    ensures ScanAncestors(w, StartOf(w, g, c), c, 0).graph.entries[c].extended == []
  {
    hide ScanAncestors, Ends, StartOf, Lists, Listed;
    var start := StartOf(w, g, c);
    StartIsEmpty(w, g, c);
    NoExtensionsBefore(w, start, c, j);
    ScanComesTo(w, start, c, j);
    ScanEndExtends(w, BeforeFrom(w, start, c, j), c, j);
  }

  lemma {:induction false} NoExtensionsBefore(w: World, s: Scan, c: Id, j: nat)
    requires Within(w, s.graph) && c in s.graph.entries && s.graph.entries[c].extended == [] && Reached(w, c, j)
    ensures BeforeFrom(w, s, c, j).graph.entries[c].extended == []
  {
    hide Listed, Ends, Lists;
    if j > 0 {
      ReachedBefore(w, c, j);
      NoExtensionsBefore(w, s, c, j - 1);
      ListedFrames(w, BeforeFrom(w, s, c, j - 1), c, j - 1);
    }
  }

  lemma ScanEndExtends(w: World, s: Scan, c: Id, i: nat)
    requires Within(w, s.graph) && c in s.graph.entries && Reached(w, c, i)
    requires i == |w.constants[c].ancestors| || Ends(w, c, i)
    ensures ScanAncestors(w, s, c, i).graph.entries[c].extended == s.graph.entries[c].extended
  {
    hide Explore;
    if i < |w.constants[c].ancestors| {
      ExploreFrames(w, s.graph, w.constants[c].ancestors[i]);
    }
  }

  /** The list of extensions stands in the order of the singleton ancestors, each once. */
  lemma ExtendedInOrder(w: World, g: Graph, c: Id) returns (idx: seq<nat>)
    requires Within(w, g) && c in w.constants && c !in g.entries
    ensures
      var m := Explore(w, g, c).0.entries;
      c in m && ExtensionsInOrder(w, c, m[c].extended, idx)
  {
    hide ScanAncestors, ScanSingleton, ExploreAll, Ends;
    var j := EndOf(w, c);
    ScanExtendsNothing(w, g, c, j);
    idx := ScanSingletonOrder(w, ScanAncestors(w, StartOf(w, g, c), c, 0), c, 0, []);
  }

  // ---------------------------------------------------------------------------
  // What is left of an include

  /** The module at index j comes into c's window by c alone, not by another module of it. */
  ghost predicate Direct(w: World, c: Id, j: nat)
    requires w.Valid() && c in w.constants && j < |w.constants[c].ancestors|
  {
    forall a :: InWindow(w, c, a) ==> !InWindow(w, a, w.constants[c].ancestors[j])
  }

  /** c's entry in m is the one its exploration with the memo map g recorded. */
  ghost predicate StartedFrom(w: World, m: map<Id, Entry>, c: Id, g: Graph) {
    && Within(w, g) && c in w.constants && c !in g.entries
    && c in m && m[c] == Explore(w, g, c).0.entries[c]
  }

  lemma LastMixEdge(w: World, m: map<Id, Entry>, c: Id, b: Id)
    requires w.Valid() && AllComplete(w, m) && WindowsTransitive(w) && MixReaches(m, c, b)
    requires forall a :: InWindow(w, c, a) ==> !InWindow(w, a, b)
    ensures MixEdge(m, c, b)
  {
    hide AllComplete, WindowsTransitive, InWindow;
    var p :| MixConnects(m, p, c, b);
    var n := |p| - 2;
    assert MixEdge(m, p[n], p[n + 1]);
    if n > 0 {
      MixPathStaysInWindow(w, m, c, p[..n + 1], p[n]);
      MixEdgeInWindow(w, m, p[n], b);
    }
  }

  lemma MixEdgeInWindow(w: World, m: map<Id, Entry>, x: Id, y: Id)
    requires w.Valid() && AllComplete(w, m) && MixEdge(m, x, y)
    ensures InWindow(w, x, y)
  {
    EdgesTouch(w, m, x, y);
  }

  lemma MixEdgeReaches(m: map<Id, Entry>, x: Id, y: Id)
    requires MixEdge(m, x, y)
    ensures MixReaches(m, x, y)
  {
    assert MixConnects(m, [x, y], x, y);
  }

  /** The exact condition, in every later memo map: a module that c includes or prepends itself
      can be reached over recorded includes and prepends if and only if it passed the guard when
      c was explored. */
  lemma KeptIff(w: World, m: map<Id, Entry>, c: Id, g: Graph, j: nat)
    requires w.Valid() && AllComplete(w, m) && WindowsTransitive(w) && StartedFrom(w, m, c, g)
    requires MixinAt(w, c, j) && FirstAt(w, c, j) && Direct(w, c, j)
    ensures MixReaches(m, c, w.constants[c].ancestors[j]) <==> Passes(w, g, c, j)
  {
    hide Explore, Passes, WindowsTransitive, MixinAt, AllComplete, InWindow, MixReaches;
    MixinParts(w, c, j);
    var b := w.constants[c].ancestors[j];
    ListsIff(w, g, c, j);
    if MixReaches(m, c, b) {
      LastMixEdge(w, m, c, b);
    }
    if MixEdge(m, c, b) {
      MixEdgeReaches(m, c, b);
    }
  }

  lemma ExploredComplete(w: World, g: Graph, c: Id, published: set<Id>)
    requires Inv(w, g, published, {}) && c in w.constants
    ensures AllComplete(w, Explore(w, g, c).0.entries)
  {
    hide Explore, Complete;
    ExploreKeeps(w, g, c, published, {});
  }

  /** In particular right after c has been explored, whatever had been explored before. */
  lemma IncludeIsKeptIff(w: World, g: Graph, c: Id, published: set<Id>, j: nat)
    requires Inv(w, g, published, {}) && c in w.constants && c !in g.entries && WindowsTransitive(w)
    requires MixinAt(w, c, j) && FirstAt(w, c, j) && Direct(w, c, j)
    ensures MixReaches(Explore(w, g, c).0.entries, c, w.constants[c].ancestors[j]) <==> Passes(w, g, c, j)
  {
    hide Explore, Passes, WindowsTransitive, MixinAt, AllComplete, Direct;
    ExploredComplete(w, g, c, published);
    KeptIff(w, Explore(w, g, c).0.entries, c, g, j);
  }

  // ---------------------------------------------------------------------------
  // All constants together

  /** The modules of k's window between k and b. */
  ghost function Between(w: World, k: Id, b: Id): set<Id>
    requires w.Valid()
  {
    set a | a in w.constants && InWindow(w, k, a) && InWindow(w, a, b)
  }

  lemma BetweenShrinks(w: World, k: Id, a: Id, b: Id)
    requires w.Valid() && WindowsTransitive(w) && InWindow(w, k, a) && InWindow(w, a, b)
    ensures |Between(w, k, a)| < |Between(w, k, b)| && |Between(w, a, b)| < |Between(w, k, b)|
  {
    NotInOwnWindow(w, a);
    assert a in w.constants && a in Between(w, k, b) && a !in Between(w, k, a) && a !in Between(w, a, b);
    assert Between(w, k, a) <= Between(w, k, b) && Between(w, a, b) <= Between(w, k, b);
    StrictlySmaller(Between(w, k, a), Between(w, k, b));
    StrictlySmaller(Between(w, a, b), Between(w, k, b));
  }

  lemma NotInOwnWindow(w: World, a: Id)
    requires w.Valid()
    ensures !InWindow(w, a, a)
  {
  }

  lemma StrictlySmaller(a: set<Id>, b: set<Id>)
    requires a < b
    ensures |a| < |b|
  {
    var rest := b - a;
    assert b == a + rest;
    var x :| x in rest;
    assert |rest| > 0;
  }

  /** Every module that a constant brings in itself is listed. */
  ghost predicate DirectAreListed(w: World, m: map<Id, Entry>)
    requires w.Valid()
  {
    forall k, j: nat :: k in m && k in w.constants && MixinAt(w, k, j) && Direct(w, k, j) ==>
      InLists(m[k], w.constants[k].ancestors[j])
  }

  /** Includes and prepends alone reach every module of every window. */
  ghost predicate WindowsAreKept(w: World, m: map<Id, Entry>)
    requires w.Valid()
  {
    forall k, b :: k in m && InWindow(w, k, b) ==> MixReaches(m, k, b)
  }

  lemma WindowIsExplored(w: World, m: map<Id, Entry>, k: Id, b: Id)
    requires w.Valid() && AllComplete(w, m) && Closed(m) && k in m && InWindow(w, k, b)
    ensures b in m
  {
    hide Complete, InWindow;
    WindowIsReached(w, m, k, b);
    ReachedIsKnown(m, k, b);
  }

  lemma ReachedIsKnown(m: map<Id, Entry>, x: Id, y: Id)
    requires Closed(m) && Reaches(m, x, y)
    ensures y in m
  {
    var p :| Connects(m, p, x, y);
    var n := |p| - 2;
    assert Edge(m, p[n], p[n + 1]);
  }

  lemma MixReachesThrough(m: map<Id, Entry>, x: Id, y: Id, z: Id)
    requires MixReaches(m, x, y) && MixReaches(m, y, z)
    ensures MixReaches(m, x, z)
  {
    var p :| MixConnects(m, p, x, y);
    var q :| MixConnects(m, q, y, z);
    var r := p + q[1..];
    forall i | 0 <= i < |r| - 1
      ensures MixEdge(m, r[i], r[i + 1])
    {
      if i < |p| - 1 {
        assert MixEdge(m, p[i], p[i + 1]);
      } else {
        var n := i - (|p| - 1);
        assert r[i] == q[n] && r[i + 1] == q[n + 1];
        assert MixEdge(m, q[n], q[n + 1]);
      }
    }
    assert MixConnects(m, r, x, z);
  }

  lemma {:induction false} WindowIsKept(w: World, m: map<Id, Entry>, k: Id, b: Id)
    requires w.Valid() && AllComplete(w, m) && Closed(m) && WindowsTransitive(w) && DirectAreListed(w, m)
    requires k in m && InWindow(w, k, b)
    ensures MixReaches(m, k, b)
    decreases |Between(w, k, b)|
  {
    hide AllComplete, Closed, WindowsTransitive, MixReaches, Between, Reached;
    if a :| InWindow(w, k, a) && InWindow(w, a, b) {
      BetweenShrinks(w, k, a, b);
      WindowIsExplored(w, m, k, a);
      WindowIsKept(w, m, k, a);
      WindowIsKept(w, m, a, b);
      MixReachesThrough(m, k, a, b);
    } else {
      var j: nat :| MixinAt(w, k, j) && w.constants[k].ancestors[j] == b;
      assert Direct(w, k, j);
      MixEdgeReaches(m, k, b);
    }
  }

  lemma WindowsAreKeptIff(w: World, m: map<Id, Entry>)
    requires w.Valid() && AllComplete(w, m) && Closed(m) && WindowsTransitive(w)
    ensures WindowsAreKept(w, m) <==> DirectAreListed(w, m)
  {
    hide AllComplete, Closed, WindowsTransitive, MixReaches, InWindow, Reached;
    if DirectAreListed(w, m) {
      forall k, b | k in m && InWindow(w, k, b)
        ensures MixReaches(m, k, b)
      {
        WindowIsKept(w, m, k, b);
      }
    }
    if WindowsAreKept(w, m) {
      forall k, j: nat | k in m && k in w.constants && MixinAt(w, k, j) && Direct(w, k, j)
        ensures InLists(m[k], w.constants[k].ancestors[j])
      {
        MixinIsInWindow(w, k, j);
        LastMixEdge(w, m, k, w.constants[k].ancestors[j]);
      }
    }
  }

  lemma MixinIsInWindow(w: World, k: Id, j: nat)
    requires w.Valid() && k in w.constants && MixinAt(w, k, j)
    ensures InWindow(w, k, w.constants[k].ancestors[j])
  {
  }

  // ---------------------------------------------------------------------------
  // Every entry was recorded by an exploration

  lemma {:induction false} ExploreStarts(w: World, g: Graph, c: Id, k: Id) returns (g0: Graph)
    requires Within(w, g) && c in w.constants && k in Explore(w, g, c).0.entries && k !in g.entries
    ensures StartedFrom(w, Explore(w, g, c).0.entries, k, g0)
    decreases Unexplored(w, g), 0
  {
    hide ExploreAll, ScanAncestors, ScanSingleton;
    var g1 := SetEntry(g, c, EMPTY);
    assert c in Unexplored(w, g) && c !in Unexplored(w, g1);
    var g2 := ExploreAll(w, g1, w.constants[c].namespaces);
    assert Unexplored(w, g2) <= Unexplored(w, g1);
    var s2 := Scan(g2, {}, {});
    var s3 := ScanAncestors(w, s2, c, 0);
    assert Unexplored(w, s3.graph) <= Unexplored(w, g2);
    ScanAncestorsFrames(w, s2, c, 0);
    ScanSingletonFrames(w, s3, c, 0);
    if k == c {
      g0 := g;
    } else if k in g2.entries {
      g0 := ExploreAllStarts(w, g1, w.constants[c].namespaces, k);
    } else if k in s3.graph.entries {
      g0 := ScanAncestorsStarts(w, s2, c, 0, k);
    } else {
      g0 := ScanSingletonStarts(w, s3, c, 0, k);
    }
  }

  lemma {:induction false} ExploreAllStarts(w: World, g: Graph, cs: seq<Id>, k: Id) returns (g0: Graph)
    requires Within(w, g) && forall c :: c in cs ==> c in w.constants
    requires k in ExploreAll(w, g, cs).entries && k !in g.entries
    ensures StartedFrom(w, ExploreAll(w, g, cs).entries, k, g0)
    decreases Unexplored(w, g), 1, |cs|
  {
    hide Explore;
    var g1 := Explore(w, g, cs[0]).0;
    assert Unexplored(w, g1) <= Unexplored(w, g);
    if k in g1.entries {
      g0 := ExploreStarts(w, g, cs[0], k);
      ExploreAllFrames(w, g1, cs[1..]);
    } else {
      g0 := ExploreAllStarts(w, g1, cs[1..], k);
    }
  }

  lemma {:induction false} ScanAncestorsStarts(w: World, s: Scan, c: Id, i: nat, k: Id) returns (g0: Graph)
    requires Within(w, s.graph) && c in s.graph.entries && Reached(w, c, i)
    requires k in ScanAncestors(w, s, c, i).graph.entries && k !in s.graph.entries
    ensures StartedFrom(w, ScanAncestors(w, s, c, i).graph.entries, k, g0)
    decreases Unexplored(w, s.graph), 1, |w.constants[c].ancestors| - i + 1
  {
    hide Explore, ScanAncestors, Ends, Lists, Listed;
    if i == |w.constants[c].ancestors| || Ends(w, c, i) {
      ScanEndsWith(w, s, c, i);
      g0 := ExploreStarts(w, s.graph, w.constants[c].ancestors[i], k);
    } else {
      ScanGoesOn(w, s, c, i);
      if Lists(w, s, c, i) && k in Listed(w, s, c, i).graph.entries {
        ListedFrames(w, s, c, i);
        ListedEntries(w, s, c, i);
        g0 := ExploreStarts(w, s.graph, w.constants[c].ancestors[i], k);
        ScanAncestorsFrames(w, Listed(w, s, c, i), c, i + 1);
      } else {
        g0 := ScanAncestorsStarts(w, if Lists(w, s, c, i) then Listed(w, s, c, i) else s, c, i + 1, k);
      }
    }
  }

  lemma ScanEndsWith(w: World, s: Scan, c: Id, i: nat)
    requires Within(w, s.graph) && c in s.graph.entries && Reached(w, c, i)
    requires i == |w.constants[c].ancestors| || Ends(w, c, i)
    ensures
      var r := ScanAncestors(w, s, c, i).graph;
      r == s.graph
      || (i < |w.constants[c].ancestors|
          && var g := Explore(w, s.graph, w.constants[c].ancestors[i]).0;
             r.entries.Keys == g.entries.Keys && Framed(g, r, Some(c)))
  {
    hide Explore;
  }

  lemma ListedEntries(w: World, s: Scan, c: Id, i: nat)
    requires Within(w, s.graph) && c in s.graph.entries && i < |w.constants[c].ancestors|
    ensures
      var g, r := Explore(w, s.graph, w.constants[c].ancestors[i]).0, Listed(w, s, c, i).graph;
      r.entries.Keys == g.entries.Keys && Framed(g, r, Some(c))
  {
    hide Explore;
  }

  lemma {:induction false} ScanSingletonStarts(w: World, s: Scan, c: Id, i: nat, k: Id) returns (g0: Graph)
    requires Within(w, s.graph) && c in s.graph.entries && i <= |w.constants[c].singletonAncestors|
    requires k in ScanSingleton(w, s, c, i).graph.entries && k !in s.graph.entries
    ensures StartedFrom(w, ScanSingleton(w, s, c, i).graph.entries, k, g0)
    decreases Unexplored(w, s.graph), 1, |w.constants[c].singletonAncestors| - i + 1
  {
    hide Explore;
    var ancestors := w.constants[c].singletonAncestors;
    if ancestors[i].Extension? && ancestors[i].id !in s.inner {
      var s' := ListedExtension(w, s, c, i);
      if k in s'.graph.entries {
        g0 := ExploreStarts(w, s.graph, ancestors[i].id, k);
        ScanSingletonFrames(w, s', c, i + 1);
      } else {
        g0 := ScanSingletonStarts(w, s', c, i + 1, k);
      }
    } else {
      g0 := ScanSingletonStarts(w, s, c, i + 1, k);
    }
  }

  /** The scan after listing the extension at index i. */
  function ListedExtension(w: World, s: Scan, c: Id, i: nat): (r: Scan)
    requires Within(w, s.graph) && c in s.graph.entries && i < |w.constants[c].singletonAncestors|
    requires w.constants[c].singletonAncestors[i].Extension?
    ensures Within(w, r.graph) && c in r.graph.entries && Unexplored(w, r.graph) <= Unexplored(w, s.graph)
    decreases Unexplored(w, s.graph), 1, 0
  {
    var a := w.constants[c].singletonAncestors[i].id;
    var (g, v) := Explore(w, s.graph, a);
    Scan(Extend(g, c, a), s.inner + v, s.visited + {a})
  }

  ghost predicate AllStarted(w: World, m: map<Id, Entry>) {
    forall k :: k in m ==> exists g :: StartedFrom(w, m, k, g)
  }

  lemma {:induction false} RunStarts(w: World, l: Ledger, steps: seq<LedgerStep>)
    requires Within(w, l.graph) && Possible(w, l, steps) && AllStarted(w, l.graph.entries)
    ensures AllStarted(w, After(w, l, steps).graph.entries)
    decreases |steps|
  {
    hide AllStarted, Explore;
    if steps != [] {
      if steps[0].Mention? {
        MentionStarts(w, l.graph, steps[0].c);
      }
      RunStarts(w, Follow(w, l, steps[0]), steps[1..]);
    }
  }

  lemma MentionStarts(w: World, g: Graph, c: Id)
    requires Within(w, g) && c in w.constants && AllStarted(w, g.entries)
    ensures AllStarted(w, Explore(w, g, c).0.entries)
  {
    hide Explore;
    var m := Explore(w, g, c).0.entries;
    ExploreFrames(w, g, c);
    forall k | k in m
      ensures exists g0 :: StartedFrom(w, m, k, g0)
    {
      if k in g.entries {
        var g0 :| StartedFrom(w, g.entries, k, g0);
        assert StartedFrom(w, m, k, g0);
      } else {
        var g0 := ExploreStarts(w, g, c, k);
      }
    }
  }

  // ---------------------------------------------------------------------------
  // Runs

  /** Every module that a constant brings in itself passed the guard when the constant was
      explored. */
  ghost predicate DirectPassed(w: World, m: map<Id, Entry>)
    requires w.Valid()
  {
    forall k, g, j: nat ::
      StartedFrom(w, m, k, g) && MixinAt(w, k, j) && FirstAt(w, k, j) && Direct(w, k, j) ==> Passes(w, g, k, j)
  }

  lemma ListedMeansPassed(w: World, m: map<Id, Entry>)
    requires w.Valid() && AllStarted(w, m)
    ensures DirectAreListed(w, m) <==> DirectPassed(w, m)
  {
    hide Explore, Passes, Direct, Reached, FirstAt;
    if DirectAreListed(w, m) {
      forall k, g, j: nat | StartedFrom(w, m, k, g) && MixinAt(w, k, j) && FirstAt(w, k, j) && Direct(w, k, j)
        ensures Passes(w, g, k, j)
      {
        StartedLists(w, m, k, g, j);
      }
    }
    if DirectPassed(w, m) {
      forall k, j: nat | k in m && k in w.constants && MixinAt(w, k, j) && Direct(w, k, j)
        ensures InLists(m[k], w.constants[k].ancestors[j])
      {
        var g :| StartedFrom(w, m, k, g);
        var i := FirstIndex(w, k, j);
        StartedLists(w, m, k, g, i);
      }
    }
  }

  lemma StartedLists(w: World, m: map<Id, Entry>, c: Id, g: Graph, j: nat)
    requires w.Valid() && StartedFrom(w, m, c, g) && MixinAt(w, c, j) && FirstAt(w, c, j)
    ensures c in m && (InLists(m[c], w.constants[c].ancestors[j]) <==> Passes(w, g, c, j))
  {
    hide Explore, Passes, Reached;
    ListsIff(w, g, c, j);
  }

  lemma FirstIndex(w: World, c: Id, j: nat) returns (i: nat)
    requires w.Valid() && c in w.constants && MixinAt(w, c, j)
    ensures i <= j && MixinAt(w, c, i) && FirstAt(w, c, i) && w.constants[c].ancestors[i] == w.constants[c].ancestors[j]
    ensures Direct(w, c, j) ==> Direct(w, c, i)
  {
    hide InWindow;
    var ancestors := w.constants[c].ancestors;
    i := 0;
    while ancestors[i] != ancestors[j]
      invariant i <= j < |ancestors| && ancestors[j] !in ancestors[..i]
      decreases j - i
    {
      i := i + 1;
    }
  }

  /** In every state that a run of the tracer can reach: recorded includes and prepends describe
      the ancestor windows of all explored constants if and only if every module that a constant
      brings in itself passed the guard when that constant was explored. */
  lemma EveryWindowIsKeptIff(w: World, steps: seq<LedgerStep>)
    requires w.Valid() && Possible(w, BLANK, steps) && WindowsTransitive(w)
    ensures
      var m := After(w, BLANK, steps).graph.entries;
      WindowsAreKept(w, m) <==> DirectPassed(w, m)
  {
    hide WindowsTransitive, Complete, WindowsAreKept, DirectPassed, DirectAreListed, AllStarted, After;
    var m := After(w, BLANK, steps).graph.entries;
    BlankIsBalanced(w);
    RunBalances(w, BLANK, steps);
    RunStarts(w, BLANK, steps);
    ListedMeansPassed(w, m);
    WindowsAreKeptIff(w, m);
  }

  lemma BlankIsBalanced(w: World)
    requires w.Valid()
    ensures Balanced(w, BLANK) && AllStarted(w, BLANK.graph.entries)
  {
  }

  // ---------------------------------------------------------------------------
  // What the guard says: modules report what they visit

  /** What can be an ancestor or an extension is a module without namespaces of its own. */
  ghost predicate PlainModules(w: World)
    requires w.Valid()
  {
    forall k, y :: Touches(w, k, y) ==> y in w.constants && !w.constants[y].isClass && w.constants[y].namespaces == []
  }

  /** A path on which every constant but the last is not known yet. */
  ghost predicate FreshPath(w: World, known: set<Id>, p: seq<Id>, x: Id, y: Id)
    requires w.Valid()
  {
    && |p| >= 2 && p[0] == x && p[|p| - 1] == y
    && forall i :: 0 <= i < |p| - 1 ==> p[i] !in known && Touches(w, p[i], p[i + 1])
  }

  ghost predicate LeadsFreshly(w: World, known: set<Id>, x: Id, y: Id)
    requires w.Valid()
  {
    exists p :: FreshPath(w, known, p, x, y)
  }

  lemma FewerKnown(w: World, known: set<Id>, known': set<Id>, x: Id, y: Id)
    requires w.Valid() && LeadsFreshly(w, known', x, y) && known <= known'
    ensures LeadsFreshly(w, known, x, y)
  {
    hide Touches;
    var p :| FreshPath(w, known', p, x, y);
    assert FreshPath(w, known, p, x, y);
  }

  lemma OneFreshStep(w: World, known: set<Id>, x: Id, y: Id)
    requires w.Valid() && x !in known && Touches(w, x, y)
    ensures LeadsFreshly(w, known, x, y)
  {
    hide Touches;
    assert FreshPath(w, known, [x, y], x, y);
  }

  lemma FreshStepFirst(w: World, known: set<Id>, x: Id, y: Id, z: Id)
    requires w.Valid() && x !in known && Touches(w, x, y) && LeadsFreshly(w, known, y, z)
    ensures LeadsFreshly(w, known, x, z)
  {
    hide Touches;
    var p :| FreshPath(w, known, p, y, z);
    var q := [x] + p;
    forall i | 0 <= i < |q| - 1
      ensures q[i] !in known && Touches(w, q[i], q[i + 1])
    {
      if i > 0 {
        assert q[i] == p[i - 1] && q[i + 1] == p[i - 1 + 1];
      }
    }
    assert FreshPath(w, known, q, x, z);
  }

  /** The books of a scan that began with the constants `known` and has come past `roots`: what
      the explored modules have visited is exactly what they touch, and all of it is led to from
      the roots. */
  ghost predicate Books(w: World, known: set<Id>, s: Scan, roots: set<Id>)
    requires w.Valid()
  {
    var keys := s.graph.entries.Keys;
    && known <= keys && s.inner <= keys && s.visited <= roots <= s.inner + s.visited && roots <= keys
    && (forall y, t :: y in keys && y !in known && Touches(w, y, t) ==> t in s.inner)
    && (forall x :: x in s.inner ==> exists z :: z in roots && LeadsFreshly(w, known, z, x))
  }

  /** What an exploration reports. */
  ghost predicate Reports(w: World, g: Graph, c: Id, g': Graph, v: set<Id>)
    requires w.Valid()
  {
    && v <= g'.entries.Keys && g.entries.Keys + {c} <= g'.entries.Keys
    && (forall y, t :: y in g'.entries && y !in g.entries && Touches(w, y, t) ==> t in v)
    && (forall x :: x in v ==> LeadsFreshly(w, g.entries.Keys, c, x))
  }

  lemma {:induction false} ExploreReports(w: World, g: Graph, c: Id)
    requires Within(w, g) && c in w.constants && PlainModules(w)
    requires !w.constants[c].isClass && w.constants[c].namespaces == []
    ensures Reports(w, g, c, Explore(w, g, c).0, Explore(w, g, c).1)
    decreases Unexplored(w, g), 0
  {
    hide ScanAncestors, ScanSingleton, PlainModules, Books, Touches, LeadsFreshly;
    if c !in g.entries {
      var g1 := SetEntry(g, c, EMPTY);
      assert c in Unexplored(w, g) && c !in Unexplored(w, g1);
      ExploreUnfolds(w, g, c);
      var s2 := Scan(g1, {}, {});
      assert g1.entries.Keys == g.entries.Keys + {c};
      NothingBooked(w, s2);
      assert Mixins(w, c, 0) == {} && Extensions(w, c, 0) == {};
      var s3 := ScanAncestors(w, s2, c, 0);
      ScanAncestorsBooks(w, g1.entries.Keys, s2, c, 0);
      assert Unexplored(w, s3.graph) <= Unexplored(w, g1);
      assert Mixins(w, c, |w.constants[c].ancestors|) + {} == Mixins(w, c, |w.constants[c].ancestors|);
      ScanSingletonBooks(w, g1.entries.Keys, s3, c, 0);
      RootsAreTouched(w, c);
      ScanReports(w, g, c, ScanSingleton(w, s3, c, 0), Touched(w, c, |w.constants[c].singletonAncestors|));
    }
  }

  lemma NothingBooked(w: World, s: Scan)
    requires w.Valid() && s.inner == {} && s.visited == {}
    ensures Books(w, s.graph.entries.Keys, s, {})
  {
  }

  /** A scan that is past everything c touches reports all of it, and what is behind. */
  lemma ScanReports(w: World, g: Graph, c: Id, s: Scan, roots: set<Id>)
    requires w.Valid() && c !in g.entries && Books(w, g.entries.Keys + {c}, s, roots)
    requires forall t :: Touches(w, c, t) <==> t in roots
    ensures Reports(w, g, c, s.graph, s.visited + s.inner)
  {
    hide Touches, LeadsFreshly;
    var known, v := g.entries.Keys, s.visited + s.inner;
    forall x | x in v
      ensures LeadsFreshly(w, known, c, x)
    {
      if x in s.inner {
        var z :| z in roots && LeadsFreshly(w, known + {c}, z, x);
        FewerKnown(w, known, known + {c}, z, x);
        FreshStepFirst(w, known, c, z, x);
      } else {
        OneFreshStep(w, known, c, x);
      }
    }
  }

  /** Exploring one more module keeps the books. */
  lemma ListingBooks(w: World, known: set<Id>, s: Scan, roots: set<Id>, a: Id, g: Graph, v: set<Id>, r: Scan)
    requires w.Valid() && Books(w, known, s, roots) && Reports(w, s.graph, a, g, v)
    requires r.graph.entries.Keys == g.entries.Keys && r.inner == s.inner + v && r.visited == s.visited + {a}
    ensures Books(w, known, r, roots + {a})
  {
    hide Touches, LeadsFreshly;
    forall x | x in r.inner
      ensures exists z :: z in roots + {a} && LeadsFreshly(w, known, z, x)
    {
      if x in s.inner {
        var z :| z in roots && LeadsFreshly(w, known, z, x);
        assert z in roots + {a};
      } else {
        FewerKnown(w, known, s.graph.entries.Keys, a, x);
        assert a in roots + {a};
      }
    }
  }

  lemma SkippingBooks(w: World, known: set<Id>, s: Scan, roots: set<Id>, a: Id)
    requires w.Valid() && Books(w, known, s, roots) && a in s.inner
    ensures Books(w, known, s, roots + {a})
  {
    hide Touches, LeadsFreshly;
    forall x | x in s.inner
      ensures exists z :: z in roots + {a} && LeadsFreshly(w, known, z, x)
    {
      var z :| z in roots && LeadsFreshly(w, known, z, x);
      assert z in roots + {a};
    }
  }

  lemma {:induction false} ListedBooks(w: World, known: set<Id>, s: Scan, c: Id, i: nat, roots: set<Id>)
    requires Within(w, s.graph) && c in s.graph.entries && PlainModules(w) && Books(w, known, s, roots)
    requires Lists(w, s, c, i)
    ensures Books(w, known, Listed(w, s, c, i), roots + {w.constants[c].ancestors[i]})
    decreases Unexplored(w, s.graph), 1, 0
  {
    hide Explore, PlainModules, Books, Touches, LeadsFreshly, Reports;
    var a := w.constants[c].ancestors[i];
    MixinIsPlain(w, c, i);
    ExploreReports(w, s.graph, a);
    ListingBooks(w, known, s, roots, a, Explore(w, s.graph, a).0, Explore(w, s.graph, a).1, Listed(w, s, c, i));
  }

  lemma MixinIsPlain(w: World, c: Id, i: nat)
    requires w.Valid() && PlainModules(w) && c in w.constants && MixinAt(w, c, i)
    ensures
      var a := w.constants[c].ancestors[i];
      Touches(w, c, a) && !w.constants[a].isClass && w.constants[a].namespaces == []
  {
    assert InWindow(w, c, w.constants[c].ancestors[i]);
    assert Touches(w, c, w.constants[c].ancestors[i]);
  }

  lemma ExtensionIsPlain(w: World, c: Id, i: nat)
    requires w.Valid() && PlainModules(w) && c in w.constants && ExtensionAt(w, c, i)
    ensures
      var a := w.constants[c].singletonAncestors[i].id;
      Touches(w, c, a) && !w.constants[a].isClass && w.constants[a].namespaces == []
  {
    assert ExtendedBy(w, c, w.constants[c].singletonAncestors[i].id);
    assert Touches(w, c, w.constants[c].singletonAncestors[i].id);
  }

  /** The modules of c's window up to index i. */
  ghost function Mixins(w: World, c: Id, i: nat): set<Id>
    requires w.Valid() && c in w.constants
  {
    set k: nat | k < i && MixinAt(w, c, k) :: w.constants[c].ancestors[k]
  }

  ghost function Extensions(w: World, c: Id, i: nat): set<Id>
    requires w.Valid() && c in w.constants
  {
    set k: nat | k < i && ExtensionAt(w, c, k) :: w.constants[c].singletonAncestors[k].id
  }

  /** What a scan has come past with the singleton ancestors up to index i. */
  ghost function Touched(w: World, c: Id, i: nat): set<Id>
    requires w.Valid() && c in w.constants
  {
    Mixins(w, c, |w.constants[c].ancestors|) + Extensions(w, c, i)
  }

  lemma MixinsNext(w: World, c: Id, i: nat)
    requires w.Valid() && c in w.constants
    ensures Mixins(w, c, i + 1) ==
            if MixinAt(w, c, i) then Mixins(w, c, i) + {w.constants[c].ancestors[i]} else Mixins(w, c, i)
  {
    hide Reached;
  }

  lemma ExtensionsNext(w: World, c: Id, i: nat)
    requires w.Valid() && c in w.constants
    ensures Extensions(w, c, i + 1) ==
            if ExtensionAt(w, c, i) then Extensions(w, c, i) + {w.constants[c].singletonAncestors[i].id}
            else Extensions(w, c, i)
  {
  }

  lemma NoMixinsBehind(w: World, c: Id, i: nat)
    requires w.Valid() && c in w.constants && Reached(w, c, i)
    requires i == |w.constants[c].ancestors| || Ends(w, c, i)
    ensures Mixins(w, c, |w.constants[c].ancestors|) == Mixins(w, c, i)
  {
    forall k: nat | MixinAt(w, c, k)
      ensures k < i
    {
      assert Reached(w, c, k);
    }
  }

  lemma NoExtensionsBehind(w: World, c: Id, i: nat)
    requires w.Valid() && c in w.constants && i <= |w.constants[c].singletonAncestors|
    requires i == |w.constants[c].singletonAncestors| || w.constants[c].singletonAncestors[i] == End
    ensures Extensions(w, c, |w.constants[c].singletonAncestors|) == Extensions(w, c, i)
  {
    forall k: nat | ExtensionAt(w, c, k)
      ensures k < i
    {
    }
  }

  lemma RootsAreTouched(w: World, c: Id)
    requires w.Valid() && c in w.constants
    ensures forall t :: Touches(w, c, t) <==> t in Touched(w, c, |w.constants[c].singletonAncestors|)
  {
    hide Reached;
    var n := |w.constants[c].singletonAncestors|;
    forall t
      ensures InWindow(w, c, t) <==> t in Mixins(w, c, |w.constants[c].ancestors|)
      ensures ExtendedBy(w, c, t) <==> t in Extensions(w, c, n)
    {
      if k: nat :| ExtensionAt(w, c, k) && w.constants[c].singletonAncestors[k] == Extension(t) {
        assert w.constants[c].singletonAncestors[k].id in Extensions(w, c, n);
      }
    }
  }

  /** One step of the scan over the ancestors keeps the books. */
  lemma {:induction false} MixinStepBooks(w: World, known: set<Id>, s: Scan, c: Id, i: nat)
    requires Within(w, s.graph) && c in s.graph.entries && PlainModules(w) && i < |w.constants[c].ancestors|
    requires Books(w, known, s, Mixins(w, c, i))
    ensures Books(w, known, if Lists(w, s, c, i) then Listed(w, s, c, i) else s, Mixins(w, c, i + 1))
    decreases Unexplored(w, s.graph), 1, 1
  {
    hide Explore, Listed, PlainModules, Books, Mixins, MixinAt;
    MixinsNext(w, c, i);
    if Lists(w, s, c, i) {
      ListedBooks(w, known, s, c, i, Mixins(w, c, i));
    } else if MixinAt(w, c, i) {
      SkippingBooks(w, known, s, Mixins(w, c, i), w.constants[c].ancestors[i]);
    }
  }

  lemma {:induction false} ScanAncestorsBooks(w: World, known: set<Id>, s: Scan, c: Id, i: nat)
    requires Within(w, s.graph) && c in s.graph.entries && Reached(w, c, i) && !w.constants[c].isClass
    requires PlainModules(w) && Books(w, known, s, Mixins(w, c, i))
    ensures Books(w, known, ScanAncestors(w, s, c, i), Mixins(w, c, |w.constants[c].ancestors|))
    decreases Unexplored(w, s.graph), 1, |w.constants[c].ancestors| - i + 2
  {
    hide Explore, Listed, PlainModules, Books, Mixins, Lists, ScanAncestors;
    if i == |w.constants[c].ancestors| || Ends(w, c, i) {
      NoMixinsBehind(w, c, i);
      ModuleScanEnds(w, s, c, i);
    } else {
      ScanGoesOn(w, s, c, i);
      MixinStepBooks(w, known, s, c, i);
      ScanAncestorsBooks(w, known, if Lists(w, s, c, i) then Listed(w, s, c, i) else s, c, i + 1);
    }
  }

  /** A module has no superclass. */
  lemma ModuleScanEnds(w: World, s: Scan, c: Id, i: nat)
    requires Within(w, s.graph) && c in s.graph.entries && Reached(w, c, i) && !w.constants[c].isClass
    requires i == |w.constants[c].ancestors| || Ends(w, c, i)
    ensures ScanAncestors(w, s, c, i) == s
  {
    hide Explore;
  }

  lemma SingletonGoesOn(w: World, s: Scan, c: Id, i: nat)
    requires Within(w, s.graph) && c in s.graph.entries && i < |w.constants[c].singletonAncestors|
    requires w.constants[c].singletonAncestors[i] != End
    ensures
      var a := w.constants[c].singletonAncestors[i];
      ScanSingleton(w, s, c, i) ==
        ScanSingleton(w, if a.Extension? && a.id !in s.inner then ListedExtension(w, s, c, i) else s, c, i + 1)
  {
    hide Explore;
  }

  lemma {:induction false} ExtensionStepBooks(w: World, known: set<Id>, s: Scan, c: Id, i: nat)
    requires Within(w, s.graph) && c in s.graph.entries && PlainModules(w) && i < |w.constants[c].singletonAncestors|
    requires forall k :: 0 <= k <= i ==> w.constants[c].singletonAncestors[k] != End
    requires Books(w, known, s, Touched(w, c, i))
    ensures
      var a := w.constants[c].singletonAncestors[i];
      Books(w, known, if a.Extension? && a.id !in s.inner then ListedExtension(w, s, c, i) else s, Touched(w, c, i + 1))
    decreases Unexplored(w, s.graph), 1, 1
  {
    hide Explore, PlainModules, Books, Mixins, Extensions, Reports, Reached;
    ExtensionsNext(w, c, i);
    var a := w.constants[c].singletonAncestors[i];
    if a.Extension? {
      assert ExtensionAt(w, c, i);
      assert Touched(w, c, i + 1) == Touched(w, c, i) + {a.id};
      if a.id in s.inner {
        SkippingBooks(w, known, s, Touched(w, c, i), a.id);
      } else {
        ExtensionIsPlain(w, c, i);
        ExploreReports(w, s.graph, a.id);
        ListingBooks(w, known, s, Touched(w, c, i), a.id, Explore(w, s.graph, a.id).0, Explore(w, s.graph, a.id).1,
                     ListedExtension(w, s, c, i));
      }
    }
  }

  lemma {:induction false} ScanSingletonBooks(w: World, known: set<Id>, s: Scan, c: Id, i: nat)
    requires Within(w, s.graph) && c in s.graph.entries && i <= |w.constants[c].singletonAncestors|
    requires PlainModules(w) && forall k :: 0 <= k < i ==> w.constants[c].singletonAncestors[k] != End
    requires Books(w, known, s, Touched(w, c, i))
    ensures Books(w, known, ScanSingleton(w, s, c, i), Touched(w, c, |w.constants[c].singletonAncestors|))
    decreases Unexplored(w, s.graph), 1, |w.constants[c].singletonAncestors| - i + 2
  {
    hide Explore, ListedExtension, PlainModules, Books, Mixins, Extensions;
    var ancestors := w.constants[c].singletonAncestors;
    if i == |ancestors| || ancestors[i] == End {
      NoExtensionsBehind(w, c, i);
    } else {
      hide ScanSingleton;
      SingletonGoesOn(w, s, c, i);
      ExtensionStepBooks(w, known, s, c, i);
      var a := ancestors[i];
      ScanSingletonBooks(
        w, known, if a.Extension? && a.id !in s.inner then ListedExtension(w, s, c, i) else s, c, i + 1);
    }
  }

  // ---------------------------------------------------------------------------
  // The guard of any scan

  lemma {:induction false} BeforeBooks(w: World, known: set<Id>, s: Scan, c: Id, j: nat)
    requires Within(w, s.graph) && c in s.graph.entries && Reached(w, c, j) && PlainModules(w)
    requires Books(w, known, s, Mixins(w, c, 0))
    ensures Books(w, known, BeforeFrom(w, s, c, j), Mixins(w, c, j))
  {
    hide Explore, Listed, PlainModules, Books, Mixins, Lists, Ends;
    if j > 0 {
      ReachedBefore(w, c, j);
      BeforeBooks(w, known, s, c, j - 1);
      MixinStepBooks(w, known, BeforeFrom(w, s, c, j - 1), c, j - 1);
    }
  }

  /** What is led to freshly from an explored constant has been visited. */
  lemma {:induction false} FreshIsVisited(
      w: World, known: set<Id>, s: Scan, roots: set<Id>, p: seq<Id>, x: Id, y: Id)
    requires w.Valid() && Books(w, known, s, roots) && FreshPath(w, known, p, x, y) && x in s.graph.entries
    ensures y in s.inner
    decreases |p|
  {
    hide Touches, LeadsFreshly;
    assert p[0] !in known && Touches(w, p[0], p[0 + 1]);
    if |p| > 2 {
      var rest := p[1..];
      forall i | 0 <= i < |rest| - 1
        ensures rest[i] !in known && Touches(w, rest[i], rest[i + 1])
      {
        assert rest[i] == p[i + 1] && rest[i + 1] == p[i + 1 + 1];
      }
      FreshIsVisited(w, known, s, roots, rest, p[1], y);
    }
  }

  /** A module of c's window before index j leads to x over constants that were not known when
      the scan began. */
  ghost predicate EarlierLeads(w: World, known: set<Id>, c: Id, j: nat, x: Id)
    requires w.Valid() && c in w.constants
  {
    exists k: nat :: k < j && MixinAt(w, c, k) && LeadsFreshly(w, known, w.constants[c].ancestors[k], x)
  }

  /** What the guard says, when ancestors and extensions are modules without namespaces of their
      own: nothing before it in the window leads to the module over constants that were not known
      when the scan began. */
  lemma GuardIff(w: World, g: Graph, c: Id, j: nat)
    requires Within(w, g) && c in w.constants && PlainModules(w) && MixinAt(w, c, j)
    ensures Passes(w, g, c, j) <==>
              !EarlierLeads(w, StartOf(w, g, c).graph.entries.Keys, c, j, w.constants[c].ancestors[j])
  {
    hide Explore, StartOf, PlainModules, LeadsFreshly;
    var start, b := StartOf(w, g, c), w.constants[c].ancestors[j];
    var known, s := start.graph.entries.Keys, BeforeFrom(w, start, c, j);
    StartVisitsNothing(w, g, c);
    NothingBooked(w, start);
    assert Mixins(w, c, 0) == {};
    BeforeBooks(w, known, start, c, j);
    if EarlierLeads(w, known, c, j, b) {
      var k: nat :| k < j && MixinAt(w, c, k) && LeadsFreshly(w, known, w.constants[c].ancestors[k], b);
      VisitedAhead(w, known, s, c, j, k, b);
    }
    if b in s.inner {
      var k := RootOf(w, known, s, c, j, b);
    }
  }

  lemma StartVisitsNothing(w: World, g: Graph, c: Id)
    requires Within(w, g) && c in w.constants
    ensures StartOf(w, g, c).inner == {} && StartOf(w, g, c).visited == {}
  {
  }

  lemma VisitedAhead(w: World, known: set<Id>, s: Scan, c: Id, j: nat, k: nat, x: Id)
    requires w.Valid() && c in w.constants && Books(w, known, s, Mixins(w, c, j))
    requires k < j && MixinAt(w, c, k) && LeadsFreshly(w, known, w.constants[c].ancestors[k], x)
    ensures x in s.inner
  {
    hide Touches, Reached;
    var a := w.constants[c].ancestors[k];
    assert a in Mixins(w, c, j);
    var p :| FreshPath(w, known, p, a, x);
    FreshIsVisited(w, known, s, Mixins(w, c, j), p, a, x);
  }

  lemma RootOf(w: World, known: set<Id>, s: Scan, c: Id, j: nat, x: Id) returns (k: nat)
    requires w.Valid() && c in w.constants && Books(w, known, s, Mixins(w, c, j)) && x in s.inner
    ensures k < j && MixinAt(w, c, k) && LeadsFreshly(w, known, w.constants[c].ancestors[k], x)
  {
    hide Touches, Reached, LeadsFreshly;
    var z :| z in Mixins(w, c, j) && LeadsFreshly(w, known, z, x);
    k :| k < j && MixinAt(w, c, k) && w.constants[c].ancestors[k] == z;
  }

  /** Put together: what is listed, read off the ancestors and extensions. */
  lemma ListedIff(w: World, g: Graph, c: Id, j: nat)
    requires Within(w, g) && c in w.constants && c !in g.entries && PlainModules(w)
    requires MixinAt(w, c, j) && FirstAt(w, c, j)
    ensures
      var m, b := Explore(w, g, c).0.entries, w.constants[c].ancestors[j];
      c in m && (InLists(m[c], b) <==> !EarlierLeads(w, StartOf(w, g, c).graph.entries.Keys, c, j, b))
  {
    hide Explore, StartOf, PlainModules, EarlierLeads, Passes;
    ListsIff(w, g, c, j);
    GuardIff(w, g, c, j);
  }
}
