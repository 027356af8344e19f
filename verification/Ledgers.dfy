/** What a trace carries when it is pushed: the books of the constants that were mentioned,
    explored, and sent. */
module Ledgers {
  import opened Exploration

  /** Between events a constant may be mentioned (and is explored), and a trace naming
      mentioned constants may be emitted (and carries off all pending updates). */
  datatype LedgerStep = Mention(c: Id) | Emit(names: set<Id>)

  datatype Ledger = Ledger(graph: Graph, mentioned: set<Id>, sent: seq<Id>)

  const BLANK := Ledger(Graph(map[], []), {}, [])

  predicate CanFollow(w: World, l: Ledger, step: LedgerStep) {
    match step
    case Mention(c) => c in w.constants
    case Emit(names) => names <= l.mentioned
  }

  function Follow(w: World, l: Ledger, step: LedgerStep): (r: Ledger)
    requires Within(w, l.graph) && CanFollow(w, l, step)
    ensures Within(w, r.graph)
  {
    match step
    case Mention(c) => l.(graph := Explore(w, l.graph, c).0, mentioned := l.mentioned + {c})
    case Emit(_) => l.(graph := l.graph.(updates := []), sent := l.sent + l.graph.updates)
  }

  predicate Possible(w: World, l: Ledger, steps: seq<LedgerStep>)
    requires Within(w, l.graph)
    decreases |steps|
  {
    steps == [] || (CanFollow(w, l, steps[0]) && Possible(w, Follow(w, l, steps[0]), steps[1..]))
  }

  function After(w: World, l: Ledger, steps: seq<LedgerStep>): (r: Ledger)
    requires Within(w, l.graph) && Possible(w, l, steps)
    ensures Within(w, r.graph)
    decreases |steps|
  {
    if steps == [] then l else After(w, Follow(w, l, steps[0]), steps[1..])
  }

  ghost function Members(s: seq<Id>): set<Id> {
    set x | x in s
  }

  /** The books balance: the memo map is the disjoint union of what was sent and what is
      pending, and nothing is in either twice. */
  ghost predicate Balanced(w: World, l: Ledger) {
    && Inv(w, l.graph, Members(l.sent), {})
    && NoDuplicates(l.sent + l.graph.updates)
    && l.mentioned <= l.graph.entries.Keys
  }

  lemma MentionBalances(w: World, l: Ledger, c: Id)
    requires Balanced(w, l) && c in w.constants
    ensures Balanced(w, Follow(w, l, Mention(c)))
  {
    hide Explore, Complete, Closed;
    ExploreKeeps(w, l.graph, c, Members(l.sent), {});
    var g' := Explore(w, l.graph, c).0;
    SplitWithoutDuplicates(l.sent, l.graph.updates);
    assert forall x :: x in g'.updates ==> x !in Members(l.sent);
    JoinWithoutDuplicates(l.sent, g'.updates);
  }

  lemma JoinWithoutDuplicates(a: seq<Id>, b: seq<Id>)
    requires NoDuplicates(a) && NoDuplicates(b) && forall x :: x in b ==> x !in a
    ensures NoDuplicates(a + b)
  {
    forall i, j | 0 <= i < j < |a + b|
      ensures (a + b)[i] != (a + b)[j]
    {
      if i < |a| <= j {
        assert a[i] in a && b[j - |a|] in b;
      }
    }
  }

  lemma SplitWithoutDuplicates(a: seq<Id>, b: seq<Id>)
    requires NoDuplicates(a + b)
    ensures NoDuplicates(a)
  {
    assert forall i :: 0 <= i < |a| ==> a[i] == (a + b)[i];
  }

  lemma EmitBalances(w: World, l: Ledger, names: set<Id>)
    requires Balanced(w, l) && names <= l.mentioned
    ensures Balanced(w, Follow(w, l, Emit(names)))
    ensures Members(Follow(w, l, Emit(names)).sent) == l.graph.entries.Keys
  {
    var l' := Follow(w, l, Emit(names));
    assert l'.sent + l'.graph.updates == l.sent + l.graph.updates;
    assert forall x :: x in l'.sent <==> x in l.sent || x in l.graph.updates;
  }

  lemma {:induction false} RunBalances(w: World, l: Ledger, steps: seq<LedgerStep>)
    requires Within(w, l.graph) && Possible(w, l, steps) && Balanced(w, l)
    ensures Balanced(w, After(w, l, steps))
    ensures steps != [] && steps[|steps| - 1].Emit? ==>
              var l' := After(w, l, steps);
              steps[|steps| - 1].names <= Members(l'.sent) && Members(l'.sent) == l'.graph.entries.Keys
    decreases |steps|
  {
    hide Explore, Inv;
    if steps != [] {
      match steps[0] {
        case Mention(c) => MentionBalances(w, l, c);
        case Emit(names) => EmitBalances(w, l, names);
      }
      RunBalances(w, Follow(w, l, steps[0]), steps[1..]);
    }
  }

  lemma NamespacesAreKnown(w: World, m: map<Id, Entry>, k: Id)
    requires w.Valid() && k in w.constants && Complete(w, m, k)
    ensures forall n :: n in w.constants[k].namespaces ==> n in m
  {
  }

  /** For every run of mentions and emissions: the memo map's keys are the constants sent and
      pending, each exactly once. At an emission every constant the trace names has been
      sent, in this trace or an earlier one; the constants sent are closed under superclass,
      include, prepend and extend references and under the namespaces of their names; and each of
      them has its right superclass, lists only modules its ancestors call for, and reaches all of
      those. */
  lemma PublishBeforeUse(w: World, steps: seq<LedgerStep>)
    requires w.Valid() && Possible(w, BLANK, steps)
    ensures
      var l := After(w, BLANK, steps);
      && NoDuplicates(l.sent + l.graph.updates)
      && Members(l.sent) + Members(l.graph.updates) == l.graph.entries.Keys
      && Members(l.sent) !! Members(l.graph.updates)
    ensures steps != [] && steps[|steps| - 1].Emit? ==>
      var l := After(w, BLANK, steps);
      && (forall x :: x in steps[|steps| - 1].names ==> x in l.sent)
      && (forall k, x :: k in l.sent && Refers(l.graph.entries[k], x) ==> x in l.sent)
      && (forall k, n :: k in l.sent && k in w.constants && n in w.constants[k].namespaces ==> n in l.sent)
      && (forall k :: k in l.sent ==> Complete(w, l.graph.entries, k))
  {
    hide Complete;
    assert Balanced(w, BLANK);
    RunBalances(w, BLANK, steps);
    var l := After(w, BLANK, steps);
    if steps != [] && steps[|steps| - 1].Emit? {
      forall x | x in steps[|steps| - 1].names
        ensures x in l.sent
      {
        assert x in Members(l.sent);
      }
      forall k | k in l.graph.entries
        ensures k in l.sent
      {
        assert k in Members(l.sent);
      }
      forall k, n | k in l.sent && k in w.constants && n in w.constants[k].namespaces
        ensures n in l.sent
      {
        NamespacesAreKnown(w, l.graph.entries, k);
      }
    }
  }
}
