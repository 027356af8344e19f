/** The streams of traces a tracer can emit are ones the collector can file. */
module Publishing {
  import opened Traces
  import opened Exploration
  import opened Ledgers
  import Collector

  /** Constants have fixed names. */
  type Naming = Id -> string

  predicate References(e: Entry, naming: Naming, c: Constant) {
    && (c.superclass == match e.superclass case None => None case Some(s) => Some(naming(s)))
    && AreNames(c.includedModules, e.included, naming)
    && AreNames(c.prependedModules, e.prepended, naming)
    && AreNames(c.extendedModules, e.extended, naming)
  }

  predicate AreNames(names: seq<string>, ids: seq<Id>, naming: Naming) {
    |names| == |ids| && forall k :: 0 <= k < |ids| ==> names[k] == naming(ids[k])
  }

  /** The updates a trace carries off: one constant per pending identity, described by its
      entry in the memo map. */
  ghost predicate CarriesUpdates(g: Graph, naming: Naming, t: Trace) {
    |t.constantUpdates| == |g.updates|
    && forall k :: 0 <= k < |g.updates| ==>
         t.constantUpdates[k].name == naming(g.updates[k])
         && g.updates[k] in g.entries
         && References(g.entries[g.updates[k]], naming, t.constantUpdates[k])
  }

  ghost predicate Names(names: set<Id>, naming: Naming, name: string) {
    exists x :: x in names && naming(x) == name
  }

  /** The k-th trace is the one the k-th emission pushes. */
  ghost predicate Emits(w: World, l: Ledger, steps: seq<LedgerStep>, naming: Naming, ts: seq<Trace>)
    requires Within(w, l.graph) && Possible(w, l, steps)
    decreases |steps|
  {
    if steps == [] then ts == []
    else match steps[0]
      case Mention(_) => Emits(w, Follow(w, l, steps[0]), steps[1..], naming, ts)
      case Emit(names) =>
        ts != [] && CarriesUpdates(l.graph, naming, ts[0]) && Names(names, naming, Collector.OwnerName(ts[0]))
        && Emits(w, Follow(w, l, steps[0]), steps[1..], naming, ts[1..])
  }

  ghost function SentNames(l: Ledger, naming: Naming): set<string> {
    set x | x in l.sent :: naming(x)
  }

  lemma {:induction false} PublishedFromRest(ts: seq<Trace>, n: nat)
    requires 0 < n <= |ts|
    ensures Collector.Published(ts, n)
         == Collector.NamesOf(ts[0].constantUpdates) + Collector.Published(ts[1..], n - 1)
  {
    if n > 1 {
      PublishedFromRest(ts, n - 1);
    }
  }

  lemma SentGrows(w: World, l: Ledger, names: set<Id>, naming: Naming, t: Trace)
    requires Within(w, l.graph) && CanFollow(w, l, Emit(names)) && CarriesUpdates(l.graph, naming, t)
    ensures SentNames(Follow(w, l, Emit(names)), naming) == SentNames(l, naming) + Collector.NamesOf(t.constantUpdates)
  {
    var l' := Follow(w, l, Emit(names));
    forall n | n in SentNames(l', naming)
      ensures n in SentNames(l, naming) + Collector.NamesOf(t.constantUpdates)
    {
      var x :| x in l'.sent && naming(x) == n;
      if x !in l.sent {
        var k :| 0 <= k < |l.graph.updates| && l.graph.updates[k] == x;
        assert t.constantUpdates[k] in t.constantUpdates;
      }
    }
    forall n | n in Collector.NamesOf(t.constantUpdates)
      ensures n in SentNames(l', naming)
    {
      var k :| 0 <= k < |t.constantUpdates| && t.constantUpdates[k].name == n;
      assert l.graph.updates[k] in l'.sent;
    }
  }

  /** The names the collector looks up for a trace: the owner it is filed under and what the
      constants published with it refer to. */
  ghost predicate Needs(t: Trace, name: string) {
    Collector.OwnerName(t) == name || exists c :: c in t.constantUpdates && Collector.Refers(c, name)
  }

  /** What a pushed trace needs has been sent once it is pushed. */
  lemma EmissionSendsNeeds(w: World, l: Ledger, names: set<Id>, naming: Naming, t: Trace, name: string)
    requires Within(w, l.graph) && CanFollow(w, l, Emit(names)) && Balanced(w, l)
    requires CarriesUpdates(l.graph, naming, t) && Names(names, naming, Collector.OwnerName(t)) && Needs(t, name)
    ensures name in SentNames(Follow(w, l, Emit(names)), naming)
  {
    hide Complete, Explore;
    EmitBalances(w, l, names);
    var l' := Follow(w, l, Emit(names));
    assert Members(l'.sent) == l.graph.entries.Keys;
    var x: Id;
    if Collector.OwnerName(t) == name {
      x :| x in names && naming(x) == name;
    } else {
      var c :| c in t.constantUpdates && Collector.Refers(c, name);
      x := ReferredId(l.graph, naming, t, c, name);
    }
    assert x in Members(l'.sent);
  }

  lemma ReferredId(g: Graph, naming: Naming, t: Trace, c: Constant, name: string) returns (x: Id)
    requires CarriesUpdates(g, naming, t) && Closed(g.entries)
    requires c in t.constantUpdates && Collector.Refers(c, name)
    ensures x in g.entries && naming(x) == name
  {
    var k :| 0 <= k < |t.constantUpdates| && t.constantUpdates[k] == c;
    var e := g.entries[g.updates[k]];
    if c.superclass == Some(name) {
      x := e.superclass.value;
    } else if name in c.includedModules {
      x := NamedId(c.includedModules, e.included, naming, name);
    } else if name in c.prependedModules {
      x := NamedId(c.prependedModules, e.prepended, naming, name);
    } else {
      x := NamedId(c.extendedModules, e.extended, naming, name);
    }
    assert Exploration.Refers(e, x);
  }

  lemma NamedId(names: seq<string>, ids: seq<Id>, naming: Naming, name: string) returns (x: Id)
    requires AreNames(names, ids, naming) && name in names
    ensures x in ids && naming(x) == name
  {
    var k :| 0 <= k < |names| && names[k] == name;
    x := ids[k];
  }

  /** From any balanced ledger on, what a trace needs is among the names sent before and the
      names published by the stream up to that trace. */
  lemma {:induction false} NeedsWereSent(
      w: World, l: Ledger, steps: seq<LedgerStep>, naming: Naming, ts: seq<Trace>, i: nat, name: string)
    requires Within(w, l.graph) && Possible(w, l, steps) && Balanced(w, l)
    requires Emits(w, l, steps, naming, ts) && i < |ts| && Needs(ts[i], name)
    ensures name in SentNames(l, naming) + Collector.Published(ts, i + 1)
    decreases |steps|
  {
    hide Explore, Balanced, CarriesUpdates, Needs, Names, SentNames;
    var l' := Follow(w, l, steps[0]);
    match steps[0] {
      case Mention(c) =>
        MentionBalances(w, l, c);
        MentionSendsNothing(w, l, c, naming);
        NeedsWereSent(w, l', steps[1..], naming, ts, i, name);
      case Emit(names) =>
        EmitBalances(w, l, names);
        SentGrows(w, l, names, naming, ts[0]);
        PublishedFromRest(ts, i + 1);
        if i == 0 {
          EmissionSendsNeeds(w, l, names, naming, ts[0], name);
        } else {
          NeedsWereSent(w, l', steps[1..], naming, ts[1..], i - 1, name);
        }
    }
  }

  lemma MentionSendsNothing(w: World, l: Ledger, c: Id, naming: Naming)
    requires Within(w, l.graph) && c in w.constants
    ensures SentNames(Follow(w, l, Mention(c)), naming) == SentNames(l, naming)
  {
  }

  /** Whatever the tracer explores and emits, every owner is published in its trace or an
      earlier one, and so is whatever a published constant refers to: the collector files
      every trace whose method name RBS can write and never misses a reference. */
  lemma TracerStreamsAreFiled(w: World, steps: seq<LedgerStep>, naming: Naming, ts: seq<Trace>)
    requires w.Valid() && Possible(w, BLANK, steps) && Emits(w, BLANK, steps, naming, ts)
    ensures Collector.PublishedBeforeUse(ts) && Collector.ReferencesPublished(ts)
    ensures forall i: nat :: i < |ts| ==> Collector.Filed(ts, i) == Collector.ValidMethodName(ts[i].methodName)
  {
    hide Collector.Refers, Collector.OwnerName, Emits;
    assert Balanced(w, BLANK);
    forall i: nat, name | i < |ts| && Needs(ts[i], name)
      ensures name in Collector.Published(ts, i + 1)
    {
      NeedsWereSent(w, BLANK, steps, naming, ts, i, name);
    }
    forall i: nat | i < |ts|
      ensures Collector.OwnerName(ts[i]) in Collector.Published(ts, i + 1)
    {
      assert Needs(ts[i], Collector.OwnerName(ts[i]));
    }
    forall i: nat, c, name | i < |ts| && c in ts[i].constantUpdates && Collector.Refers(c, name)
      ensures name in Collector.Published(ts, |ts|)
    {
      assert Needs(ts[i], name);
      Collector.PublishedCovers(ts, |ts|, i);
    }
  }
}
