/** Folding the stream of traces into one list per owner, kind and method name. */
module Collector {
  import opened Traces
  import opened Equality
  import opened Selection

  // ---------------------------------------------------------------------------
  // Data

  /** The mixins the RBS environment already declares for a class or module. */
  datatype Declaration = Declaration(included: set<string>, prepended: set<string>, extended: set<string>)

  type Environment = map<string, Declaration>

  datatype Owner = Owner(
    constant: Constant, instanceMethods: map<string, seq<Trace>>, singletonMethods: map<string, seq<Trace>>)

  type Results = map<string, Owner>

  /** What became of a collected trace; with `UnknownOwner` the lookup of the owner fails. */
  datatype Outcome = Stored | Repeated | InvalidName | UnknownOwner

  datatype Key = Key(owner: string, kind: MethodKind, name: string)

  function OwnerName(t: Trace): string {
    match t.callee
    case Some(callee) => callee.name
    case None => t.owner.name
  }

  function KeyOf(t: Trace): Key {
    Key(OwnerName(t), t.methodKind, t.methodName)
  }

  predicate SameShape(a: Trace, b: Trace) {
    a.params == b.params && a.returnType == b.returnType && a.blockParam == b.blockParam
  }

  // ---------------------------------------------------------------------------
  // Valid method names

  predicate IsLetter(c: char) { 'a' <= c <= 'z' || 'A' <= c <= 'Z' || c == '_' }

  predicate IsWordCharacter(c: char) { IsLetter(c) || '0' <= c <= '9' }

  predicate IsIdentifier(s: string) {
    s != "" && IsLetter(s[0]) && forall i :: 0 <= i < |s| ==> IsWordCharacter(s[i])
  }

  const OPERATORS := [
    "+", "-", "*", "/", "%", "**", "==", "!=", "===", "<=>", "<=", ">=", "<", ">", "<<", ">>", "&", "|", "^", "~", "!",
    "`", "=~", "!~", "[]", "[]="]

  predicate ValidMethodName(s: string) {
    IsIdentifier(s)
    || (s != "" && s[|s| - 1] in {'!', '?', '='} && IsIdentifier(s[..|s| - 1]))
    || s in OPERATORS
  }

  // ---------------------------------------------------------------------------
  // One step

  function Rejecting(modules: seq<string>, known: set<string>): seq<string> {
    if modules == [] then []
    else Rejecting(modules[..|modules| - 1], known)
         + (if modules[|modules| - 1] in known then [] else [modules[|modules| - 1]])
  }

  /** A constant without the mixins that are declared already. */
  function Undeclared(environment: Environment, c: Constant): Constant {
    if c.name !in environment then c else
    var d := environment[c.name];
    c.(includedModules := Rejecting(c.includedModules, d.included),
       prependedModules := Rejecting(c.prependedModules, d.prepended),
       extendedModules := Rejecting(c.extendedModules, d.extended))
  }

  function Push(environment: Environment, results: Results, c: Constant): Results {
    if c.name in results then results
    else results[c.name := Owner(Undeclared(environment, c), map[], map[])]
  }

  function PushAll(environment: Environment, results: Results, cs: seq<Constant>): Results {
    if cs == [] then results
    else Push(environment, PushAll(environment, results, cs[..|cs| - 1]), cs[|cs| - 1])
  }

  function MethodsOf(owner: Owner, kind: MethodKind): map<string, seq<Trace>> {
    match kind
    case InstanceMethod => owner.instanceMethods
    case SingletonMethod => owner.singletonMethods
  }

  function WithMethods(owner: Owner, kind: MethodKind, methods: map<string, seq<Trace>>): Owner {
    match kind
    case InstanceMethod => owner.(instanceMethods := methods)
    case SingletonMethod => owner.(singletonMethods := methods)
  }

  /** The traces kept under a key. */
  function Kept(results: Results, key: Key): seq<Trace> {
    if key.owner in results && key.name in MethodsOf(results[key.owner], key.kind)
    then MethodsOf(results[key.owner], key.kind)[key.name] else []
  }

  function Keep(results: Results, key: Key, traces: seq<Trace>): Results
    requires key.owner in results
  {
    var owner := results[key.owner];
    results[key.owner := WithMethods(owner, key.kind, MethodsOf(owner, key.kind)[key.name := traces])]
  }

  function Step(environment: Environment, results: Results, t: Trace): (Results, Outcome) {
    var pushed := PushAll(environment, results, t.constantUpdates);
    var key := KeyOf(t);
    if !ValidMethodName(t.methodName) then (pushed, InvalidName)
    else if key.owner !in pushed then (pushed, UnknownOwner)
    else if exists k :: k in Kept(pushed, key) && SameShape(k, t) then (pushed, Repeated)
    else (Keep(pushed, key, Kept(pushed, key) + [t]), Stored)
  }

  // ---------------------------------------------------------------------------
  // The collector

  class RbsCollector {
    const environment: Environment
    var results: Results
    var existingTypes: set<string>
    var modulesInObjectClass: set<string>

    ghost predicate Valid()
      reads this
    {
      existingTypes == results.Keys * environment.Keys
    }

    constructor (environment: Environment)
      ensures Valid() && this.environment == environment && results == map[] && modulesInObjectClass == {}
    {
      this.environment, results, existingTypes, modulesInObjectClass := environment, map[], {}, {};
    }

    method PushConstantToResults(given: Constant)
      requires Valid()
      modifies this
      ensures Valid() && results == Push(environment, old(results), given)
      ensures
        var c := Undeclared(environment, given);
        modulesInObjectClass == old(modulesInObjectClass)
          + if given.name == "Object" && "Object" !in old(results)
            then (set m | m in c.includedModules) + (set m | m in c.prependedModules) else {}
    {
      if given.name in results { return; }
      if given.name in existingTypes { return; }
      var constant := given;
      if given.name in environment {
        existingTypes := existingTypes + {given.name};
        var declaration := environment[given.name];
        constant := constant.(includedModules := Rejecting(constant.includedModules, declaration.included));
        constant := constant.(prependedModules := Rejecting(constant.prependedModules, declaration.prepended));
        constant := constant.(extendedModules := Rejecting(constant.extendedModules, declaration.extended));
      }
      if constant.name == "Object" {
        modulesInObjectClass := modulesInObjectClass + (set m | m in constant.includedModules);
        modulesInObjectClass := modulesInObjectClass + (set m | m in constant.prependedModules);
      }
      results := results[given.name := Owner(constant, map[], map[])];
    }

    method Collect(t: Trace) returns (outcome: Outcome)
      requires Valid()
      modifies this
      ensures Valid()
      ensures (results, outcome) == Step(environment, old(results), t)
    {
      for k := 0 to |t.constantUpdates|
        invariant Valid() && results == PushAll(environment, old(results), t.constantUpdates[..k])
      {
        PushConstantToResults(t.constantUpdates[k]);
        assert t.constantUpdates[..k + 1][..k] == t.constantUpdates[..k];
      }
      assert t.constantUpdates[..|t.constantUpdates|] == t.constantUpdates;
      if !ValidMethodName(t.methodName) {
        return InvalidName;
      }
      var owner := match t.callee { case Some(callee) => callee.name case None => t.owner.name };
      if owner !in results {
        return UnknownOwner;
      }
      var traces := [];
      if t.methodName in MethodsOf(results[owner], t.methodKind) {
        traces := MethodsOf(results[owner], t.methodKind)[t.methodName];
      }
      var repeated := HasShape(traces, t);
      if repeated {
        return Repeated;
      }
      results := Keep(results, KeyOf(t), traces + [t]);
      outcome := Stored;
    }
  }

  method HasShape(traces: seq<Trace>, t: Trace) returns (found: bool)
    ensures found <==> exists k :: k in traces && SameShape(k, t)
  {
    for k := 0 to |traces|
      invariant forall j :: 0 <= j < k ==> !SameShape(traces[j], t)
    {
      ParamsEquality(traces[k].params, t.params);
      InstanceEquality(traces[k].returnType, t.returnType);
      BlockParamEquality(traces[k].blockParam, t.blockParam);
      if SameParams(traces[k].params, t.params) && SameInstance(traces[k].returnType, t.returnType)
         && SameBlockParam(traces[k].blockParam, t.blockParam) {
        assert traces[k] in traces && SameShape(traces[k], t);
        return true;
      }
    }
    return false;
  }

  // ---------------------------------------------------------------------------
  // Whole streams

  function Run(environment: Environment, ts: seq<Trace>): Results {
    if ts == [] then map[] else Step(environment, Run(environment, ts[..|ts| - 1]), ts[|ts| - 1]).0
  }

  function NamesOf(cs: seq<Constant>): set<string> {
    set c | c in cs :: c.name
  }

  /** The names of all constants sent with the first n traces. */
  function Published(ts: seq<Trace>, n: nat): set<string>
    requires n <= |ts|
  {
    if n == 0 then {} else Published(ts, n - 1) + NamesOf(ts[n - 1].constantUpdates)
  }

  /** The trace can be filed: it has a name RBS can write and its owner is known by then. */
  predicate Filed(ts: seq<Trace>, i: nat)
    requires i < |ts|
  {
    ValidMethodName(ts[i].methodName) && OwnerName(ts[i]) in Published(ts, i + 1)
  }

  ghost predicate IsFirst(ts: seq<Trace>, i: nat)
    requires i < |ts|
  {
    Filed(ts, i)
    && forall j: nat :: j < i && Filed(ts, j) && KeyOf(ts[j]) == KeyOf(ts[i]) ==> !SameShape(ts[j], ts[i])
  }

  /** Of the first n traces, the first occurrences of each shape under a key, in order. */
  ghost function FirstOccurrences(ts: seq<Trace>, n: nat, key: Key): seq<Trace>
    requires n <= |ts|
  {
    if n == 0 then [] else
    FirstOccurrences(ts, n - 1, key) + if KeyOf(ts[n - 1]) == key && IsFirst(ts, n - 1) then [ts[n - 1]] else []
  }

  lemma {:induction false} PublishedIsLocal(ts: seq<Trace>, more: seq<Trace>, n: nat)
    requires n <= |ts|
    ensures Published(ts + more, n) == Published(ts, n)
  {
    if n > 0 {
      PublishedIsLocal(ts, more, n - 1);
    }
  }

  lemma FiledIsLocal(ts: seq<Trace>, more: seq<Trace>)
    ensures forall i: nat :: i < |ts| ==> Filed(ts + more, i) == Filed(ts, i)
  {
    forall i: nat | i < |ts|
      ensures Filed(ts + more, i) == Filed(ts, i)
    {
      PublishedIsLocal(ts, more, i + 1);
    }
  }

  lemma {:induction false} FirstOccurrencesAreLocal(ts: seq<Trace>, more: seq<Trace>, n: nat, key: Key)
    requires n <= |ts|
    ensures FirstOccurrences(ts + more, n, key) == FirstOccurrences(ts, n, key)
  {
    if n > 0 {
      FirstOccurrencesAreLocal(ts, more, n - 1, key);
      FiledIsLocal(ts, more);
    }
  }

  /** Every shape filed under the key is among the first occurrences. */
  lemma {:induction false} Represented(ts: seq<Trace>, n: nat, key: Key, j: nat) returns (k: Trace)
    requires j < n <= |ts| && Filed(ts, j) && KeyOf(ts[j]) == key
    ensures k in FirstOccurrences(ts, n, key) && SameShape(k, ts[j])
  {
    hide Filed, KeyOf;
    if j < n - 1 {
      k := Represented(ts, n - 1, key, j);
    } else if IsFirst(ts, j) {
      k := ts[j];
    } else {
      var i: nat :| i < j && Filed(ts, i) && KeyOf(ts[i]) == key && SameShape(ts[i], ts[j]);
      k := Represented(ts, n - 1, key, i);
    }
  }

  lemma {:induction false} Origin(ts: seq<Trace>, n: nat, key: Key, k: Trace) returns (j: nat)
    requires n <= |ts| && k in FirstOccurrences(ts, n, key)
    ensures j < n && IsFirst(ts, j) && KeyOf(ts[j]) == key && ts[j] == k
  {
    hide IsFirst, KeyOf;
    if k in FirstOccurrences(ts, n - 1, key) {
      j := Origin(ts, n - 1, key, k);
    } else {
      j := n - 1;
    }
  }

  lemma PushKeeps(environment: Environment, results: Results, c: Constant)
    ensures Push(environment, results, c).Keys == results.Keys + {c.name}
    ensures forall key :: Kept(Push(environment, results, c), key) == Kept(results, key)
  {
  }

  lemma {:induction false} PushAllKeeps(environment: Environment, results: Results, cs: seq<Constant>)
    ensures PushAll(environment, results, cs).Keys == results.Keys + NamesOf(cs)
    ensures forall key :: Kept(PushAll(environment, results, cs), key) == Kept(results, key)
  {
    hide Kept, Push;
    if cs != [] {
      var front, c := cs[..|cs| - 1], cs[|cs| - 1];
      PushAllKeeps(environment, results, front);
      PushKeeps(environment, PushAll(environment, results, front), c);
      assert cs == front + [c];
      assert NamesOf(cs) == NamesOf(front) + {c.name};
    }
  }

  lemma KeepChangesOneKey(results: Results, key: Key, traces: seq<Trace>)
    requires key.owner in results
    ensures Keep(results, key, traces).Keys == results.Keys
    ensures forall k :: Kept(Keep(results, key, traces), k) == if k == key then traces else Kept(results, k)
  {
  }

  /** For every stream of traces, the list kept under each key is the stream's first
      occurrences for that key: traces that repeat parameters, return type and block of an
      earlier one of the same owner, kind and name are dropped, all others stay in order. */
  lemma {:induction false} KeepsFirstOccurrences(environment: Environment, ts: seq<Trace>, key: Key)
    ensures Run(environment, ts).Keys == Published(ts, |ts|)
    ensures Kept(Run(environment, ts), key) == FirstOccurrences(ts, |ts|, key)
    decreases |ts|
  {
    if ts != [] {
      var n := |ts| - 1;
      var front, t := ts[..n], ts[n];
      assert ts == front + [t];
      var results := Run(environment, front);
      KeepsFirstOccurrences(environment, front, key);
      KeepsFirstOccurrences(environment, front, KeyOf(t));
      PublishedIsLocal(front, [t], n);
      FiledIsLocal(front, [t]);
      FirstOccurrencesAreLocal(front, [t], n, key);
      FirstOccurrencesAreLocal(front, [t], n, KeyOf(t));
      StepMeansFirst(environment, results, ts, n, key);
    }
  }

  lemma StepMeansFirst(environment: Environment, results: Results, ts: seq<Trace>, n: nat, key: Key)
    requires n < |ts| && results.Keys == Published(ts, n)
    requires Kept(results, key) == FirstOccurrences(ts, n, key)
    requires Kept(results, KeyOf(ts[n])) == FirstOccurrences(ts, n, KeyOf(ts[n]))
    ensures
      var next := Step(environment, results, ts[n]).0;
      next.Keys == Published(ts, n + 1) && Kept(next, key) == FirstOccurrences(ts, n + 1, key)
  {
    hide PushAll, Kept, Keep, SameShape, ValidMethodName, KeyOf;
    var t := ts[n];
    var pushed := PushAll(environment, results, t.constantUpdates);
    PushAllKeeps(environment, results, t.constantUpdates);
    OwnerOfKey(t);
    if Filed(ts, n) {
      RepeatedMeansNotFirst(ts, n);
      KeepChangesOneKey(pushed, KeyOf(t), Kept(pushed, KeyOf(t)) + [t]);
    }
  }

  lemma OwnerOfKey(t: Trace)
    ensures KeyOf(t).owner == OwnerName(t)
  {
  }

  lemma RepeatedMeansNotFirst(ts: seq<Trace>, n: nat)
    requires n < |ts| && Filed(ts, n)
    ensures IsFirst(ts, n) <==> !exists k :: k in FirstOccurrences(ts, n, KeyOf(ts[n])) && SameShape(k, ts[n])
  {
    hide Filed, KeyOf;
    if k :| k in FirstOccurrences(ts, n, KeyOf(ts[n])) && SameShape(k, ts[n]) {
      var j := Origin(ts, n, KeyOf(ts[n]), k);
    }
    if !IsFirst(ts, n) {
      var j: nat :| j < n && Filed(ts, j) && KeyOf(ts[j]) == KeyOf(ts[n]) && SameShape(ts[j], ts[n]);
      var k := Represented(ts, n, KeyOf(ts[n]), j);
    }
  }

  // ---------------------------------------------------------------------------
  // The same in terms of the recorded fields

  /** The class a trace is filed under: the one it was called on, or else its owner. */
  predicate CalledOn(t: Trace, owner: string) {
    if t.callee.Some? then t.callee.value.name == owner else t.owner.name == owner
  }

  /** The method a trace is about. */
  predicate IsAbout(t: Trace, owner: string, kind: MethodKind, name: string) {
    CalledOn(t, owner) && t.methodKind == kind && t.methodName == name
  }

  /** Which traces stay for a method: those that can be filed and are about it, unless an earlier
      one of them has the same parameters, return type and block. */
  ghost function FirstOfMethod(ts: seq<Trace>, owner: string, kind: MethodKind, name: string): nat -> bool {
    (i: nat) =>
      && i < |ts| && Filed(ts, i) && IsAbout(ts[i], owner, kind, name)
      && !(exists j: nat :: j < i && Filed(ts, j) && IsAbout(ts[j], owner, kind, name)
             && ts[j].params == ts[i].params && ts[j].returnType == ts[i].returnType
             && ts[j].blockParam == ts[i].blockParam)
  }

  lemma KeySaysWhat(t: Trace, owner: string, kind: MethodKind, name: string)
    ensures KeyOf(t) == Key(owner, kind, name) <==> IsAbout(t, owner, kind, name)
  {
  }

  lemma {:induction false} FirstsOfMethod(ts: seq<Trace>, owner: string, kind: MethodKind, name: string, n: nat)
    requires n <= |ts|
    ensures FirstOccurrences(ts, n, Key(owner, kind, name)) == Selected(ts, FirstOfMethod(ts, owner, kind, name), n)
  {
    hide Filed, KeyOf, IsAbout;
    if n > 0 {
      FirstsOfMethod(ts, owner, kind, name, n - 1);
      FirstOrNot(ts, owner, kind, name, n - 1);
    }
  }

  lemma FirstOrNot(ts: seq<Trace>, owner: string, kind: MethodKind, name: string, i: nat)
    requires i < |ts|
    ensures KeyOf(ts[i]) == Key(owner, kind, name) && IsFirst(ts, i) <==> FirstOfMethod(ts, owner, kind, name)(i)
  {
    hide Filed, KeyOf, IsAbout;
    KeySaysWhat(ts[i], owner, kind, name);
    forall j: nat | j < i
      ensures KeyOf(ts[j]) == Key(owner, kind, name) <==> IsAbout(ts[j], owner, kind, name)
    {
      KeySaysWhat(ts[j], owner, kind, name);
    }
  }

  function Listed(methods: map<string, seq<Trace>>, name: string): seq<Trace> {
    if name in methods then methods[name] else []
  }

  /** After any stream, the instance methods recorded for a class hold, under each name, exactly
      the traces of instance methods of that name called on the class, without repeats and in
      order, and its singleton methods those of singleton methods. */
  lemma FiledByKind(environment: Environment, ts: seq<Trace>, owner: string, name: string)
    ensures owner in Run(environment, ts) ==>
              var r := Run(environment, ts)[owner];
              && Listed(r.instanceMethods, name)
                 == Selected(ts, FirstOfMethod(ts, owner, InstanceMethod, name), |ts|)
              && Listed(r.singletonMethods, name)
                 == Selected(ts, FirstOfMethod(ts, owner, SingletonMethod, name), |ts|)
    ensures forall i: nat :: i < |ts| && Filed(ts, i) && CalledOn(ts[i], owner) ==> owner in Run(environment, ts)
  {
    hide Run, Filed, FirstOfMethod, Selected;
    KeepsFirstOccurrences(environment, ts, Key(owner, InstanceMethod, name));
    KeepsFirstOccurrences(environment, ts, Key(owner, SingletonMethod, name));
    FirstsOfMethod(ts, owner, InstanceMethod, name, |ts|);
    FirstsOfMethod(ts, owner, SingletonMethod, name, |ts|);
    forall i: nat | i < |ts| && Filed(ts, i) && CalledOn(ts[i], owner)
      ensures owner in Run(environment, ts)
    {
      FiledIsKnown(ts, i, owner);
    }
  }

  lemma FiledIsKnown(ts: seq<Trace>, i: nat, owner: string)
    requires i < |ts| && Filed(ts, i) && CalledOn(ts[i], owner)
    ensures owner in Published(ts, |ts|)
  {
    PublishedCovers(ts, |ts|, i);
  }

  /** Every filed trace has one of its shape among those recorded for its own kind of method. */
  lemma FiledTracesAreFound(environment: Environment, ts: seq<Trace>, i: nat, owner: string) returns (k: Trace)
    requires i < |ts| && Filed(ts, i) && CalledOn(ts[i], owner)
    ensures owner in Run(environment, ts)
    ensures
      var r := Run(environment, ts)[owner];
      var methods := match ts[i].methodKind case InstanceMethod => r.instanceMethods
                                            case SingletonMethod => r.singletonMethods;
      ts[i].methodName in methods && k in methods[ts[i].methodName]
    ensures k.params == ts[i].params && k.returnType == ts[i].returnType && k.blockParam == ts[i].blockParam
    ensures IsAbout(k, owner, ts[i].methodKind, ts[i].methodName)
  {
    hide Run, Filed, Published;
    var t := ts[i];
    var key := Key(owner, t.methodKind, t.methodName);
    KeySaysWhat(t, owner, t.methodKind, t.methodName);
    FiledIsKnown(ts, i, owner);
    KeepsFirstOccurrences(environment, ts, key);
    k := Represented(ts, |ts|, key, i);
    var j := Origin(ts, |ts|, key, k);
    KeySaysWhat(k, owner, t.methodKind, t.methodName);
  }

  // ---------------------------------------------------------------------------
  // Repeats and lookups

  lemma {:induction false} KnownConstantsChangeNothing(environment: Environment, results: Results, cs: seq<Constant>)
    requires NamesOf(cs) <= results.Keys
    ensures PushAll(environment, results, cs) == results
  {
    if cs != [] {
      var front, c := cs[..|cs| - 1], cs[|cs| - 1];
      assert forall x :: x in front ==> x in cs;
      assert c in cs && c.name in NamesOf(cs);
      KnownConstantsChangeNothing(environment, results, front);
    }
  }

  lemma {:induction false} PublishedCovers(ts: seq<Trace>, n: nat, i: nat)
    requires i < n <= |ts|
    ensures Published(ts, i + 1) <= Published(ts, n)
    ensures NamesOf(ts[i].constantUpdates) <= Published(ts, n)
  {
    if i < n - 1 {
      PublishedCovers(ts, n - 1, i);
    }
  }

  /** Collecting a trace of the stream again, at the end, changes nothing. */
  lemma CollectingAgainChangesNothing(environment: Environment, ts: seq<Trace>, i: nat)
    requires i < |ts| && (Filed(ts, i) || !ValidMethodName(ts[i].methodName))
    ensures Run(environment, ts + [ts[i]]) == Run(environment, ts)
    ensures Filed(ts, i) ==> Step(environment, Run(environment, ts), ts[i]).1 == Repeated
  {
    hide ValidMethodName, PushAll;
    var t, results := ts[i], Run(environment, ts);
    assert (ts + [t])[..|ts|] == ts;
    KeepsFirstOccurrences(environment, ts, KeyOf(t));
    PublishedCovers(ts, |ts|, i);
    KnownConstantsChangeNothing(environment, results, t.constantUpdates);
    if Filed(ts, i) {
      var k := Represented(ts, |ts|, KeyOf(t), i);
      assert k in Kept(results, KeyOf(t)) && SameShape(k, t);
    }
  }

  /** Every trace comes with, or after, the constant it is filed under. */
  ghost predicate PublishedBeforeUse(ts: seq<Trace>) {
    forall i: nat :: i < |ts| ==> OwnerName(ts[i]) in Published(ts, i + 1)
  }

  /** The lookup of the owner fails for a trace exactly if its method name is valid and its owner
      was not published by then. */
  lemma OwnersAreKnown(environment: Environment, ts: seq<Trace>)
    ensures forall i: nat :: i < |ts| ==>
              (Step(environment, Run(environment, ts[..i]), ts[i]).1 == UnknownOwner <==>
                 ValidMethodName(ts[i].methodName) && OwnerName(ts[i]) !in Published(ts, i + 1))
  {
    hide ValidMethodName, PushAll, Kept, SameShape;
    forall i: nat | i < |ts|
      ensures Step(environment, Run(environment, ts[..i]), ts[i]).1 == UnknownOwner <==>
                ValidMethodName(ts[i].methodName) && OwnerName(ts[i]) !in Published(ts, i + 1)
    {
      KeepsFirstOccurrences(environment, ts[..i], KeyOf(ts[i]));
      assert ts == ts[..i] + ts[i..];
      PublishedIsLocal(ts[..i], ts[i..], i);
      PushAllKeeps(environment, Run(environment, ts[..i]), ts[i].constantUpdates);
    }
  }

  predicate Refers(c: Constant, name: string) {
    c.superclass == Some(name) || name in c.includedModules || name in c.prependedModules || name in c.extendedModules
  }

  ghost predicate ReferencesPublished(ts: seq<Trace>) {
    forall i: nat, c, name ::
      i < |ts| && c in ts[i].constantUpdates && Refers(c, name) ==> name in Published(ts, |ts|)
  }

  /** The j-th constant that comes with the i-th trace is the first of its name in the stream. */
  ghost predicate FirstPublished(ts: seq<Trace>, i: nat, j: nat, name: string) {
    && i < |ts| && j < |ts[i].constantUpdates| && ts[i].constantUpdates[j].name == name
    && (forall l :: 0 <= l < j ==> ts[i].constantUpdates[l].name != name)
    && name !in Published(ts, i)
  }

  ghost predicate Recorded(environment: Environment, ts: seq<Trace>, name: string, constant: Constant) {
    exists i: nat, j: nat ::
      FirstPublished(ts, i, j, name) && constant == Undeclared(environment, ts[i].constantUpdates[j])
  }

  lemma {:induction false} RejectingKeepsOthers(modules: seq<string>, known: set<string>)
    ensures forall m :: m in Rejecting(modules, known) <==> m in modules && m !in known
  {
    if modules != [] {
      RejectingKeepsOthers(modules[..|modules| - 1], known);
      assert modules == modules[..|modules| - 1] + [modules[|modules| - 1]];
    }
  }

  /** The indices of the modules that are not among those declared. */
  function NotIn(modules: seq<string>, declared: set<string>): nat -> bool {
    (i: nat) => i < |modules| && modules[i] !in declared
  }

  lemma {:induction false} RejectingPrefix(modules: seq<string>, known: set<string>, n: nat)
    requires n <= |modules|
    ensures Rejecting(modules[..n], known) == Selected(modules, NotIn(modules, known), n)
  {
    if n > 0 {
      RejectingPrefix(modules, known, n - 1);
      assert modules[..n][..n - 1] == modules[..n - 1];
    }
  }

  lemma RejectingInOrder(modules: seq<string>, known: set<string>)
    ensures Rejecting(modules, known) == Selected(modules, NotIn(modules, known), |modules|)
  {
    RejectingPrefix(modules, known, |modules|);
    assert modules[..|modules|] == modules;
  }

  /** What remains stands in its order, nothing else about a constant changes, and a constant
      that is not declared stays as it is. */
  lemma UndeclaredInOrder(environment: Environment, c: Constant)
    ensures c.name !in environment ==> Undeclared(environment, c) == c
    ensures c.name in environment ==>
              var d := environment[c.name];
              Undeclared(environment, c) ==
                c.(includedModules :=
                     Selected(c.includedModules, NotIn(c.includedModules, d.included), |c.includedModules|),
                   prependedModules :=
                     Selected(c.prependedModules, NotIn(c.prependedModules, d.prepended), |c.prependedModules|),
                   extendedModules :=
                     Selected(c.extendedModules, NotIn(c.extendedModules, d.extended), |c.extendedModules|))
  {
    hide Rejecting;
    if c.name in environment {
      RejectingInOrder(c.includedModules, environment[c.name].included);
      RejectingInOrder(c.prependedModules, environment[c.name].prepended);
      RejectingInOrder(c.extendedModules, environment[c.name].extended);
    }
  }

  /** Of each list exactly the mixins remain that are not declared for the same purpose. */
  lemma UndeclaredRemain(environment: Environment, c: Constant, m: string)
    ensures
      var r, known := Undeclared(environment, c), c.name in environment;
      && (m in r.includedModules <==> m in c.includedModules && !(known && m in environment[c.name].included))
      && (m in r.prependedModules <==> m in c.prependedModules && !(known && m in environment[c.name].prepended))
      && (m in r.extendedModules <==> m in c.extendedModules && !(known && m in environment[c.name].extended))
      && r.name == c.name && r.superclass == c.superclass && r.kind == c.kind
  {
    if c.name in environment {
      RejectingKeepsOthers(c.includedModules, environment[c.name].included);
      RejectingKeepsOthers(c.prependedModules, environment[c.name].prepended);
      RejectingKeepsOthers(c.extendedModules, environment[c.name].extended);
    }
  }

  /** Of constants of one name that come together the first is recorded, unless one was before. */
  lemma {:induction false} PushAllRecords(environment: Environment, results: Results, cs: seq<Constant>, name: string)
    returns (j: nat)
    requires name in PushAll(environment, results, cs)
    ensures name in results ==> PushAll(environment, results, cs)[name] == results[name]
    ensures name !in results ==>
              && j < |cs| && cs[j].name == name && (forall l :: 0 <= l < j ==> cs[l].name != name)
              && PushAll(environment, results, cs)[name].constant == Undeclared(environment, cs[j])
  {
    hide Undeclared;
    j := 0;
    if cs != [] {
      var front := cs[..|cs| - 1];
      PushAllKeeps(environment, results, front);
      if name in PushAll(environment, results, front) {
        j := PushAllRecords(environment, results, front, name);
      } else {
        j := |cs| - 1;
        forall l | 0 <= l < j
          ensures cs[l].name != name
        {
          assert front[l] in front && front[l].name in NamesOf(front);
        }
      }
    }
  }

  lemma StepKeepsConstants(environment: Environment, results: Results, t: Trace, name: string)
    requires name in Step(environment, results, t).0
    ensures
      var pushed := PushAll(environment, results, t.constantUpdates);
      name in pushed && Step(environment, results, t).0[name].constant == pushed[name].constant
  {
    hide PushAll, ValidMethodName, SameShape;
  }

  /** What is recorded about a constant is what was published about it first. */
  lemma {:induction false} ConstantsAreRecorded(environment: Environment, ts: seq<Trace>, name: string)
    requires name in Run(environment, ts)
    ensures Recorded(environment, ts, name, Run(environment, ts)[name].constant)
    decreases |ts|
  {
    hide Undeclared, PushAll, Step;
    var n := |ts| - 1;
    var front, t := ts[..n], ts[n];
    assert ts == front + [t];
    var results := Run(environment, front);
    StepKeepsConstants(environment, results, t, name);
    var j := PushAllRecords(environment, results, t.constantUpdates, name);
    KeepsFirstOccurrences(environment, front, Key(name, InstanceMethod, name));
    PublishedIsLocal(front, [t], n);
    var constant := Run(environment, ts)[name].constant;
    if name in results {
      ConstantsAreRecorded(environment, front, name);
      var i: nat, l: nat :|
        FirstPublished(front, i, l, name) && constant == Undeclared(environment, front[i].constantUpdates[l]);
      PublishedIsLocal(front, [t], i);
      assert ts[i] == front[i] && FirstPublished(ts, i, l, name);
    } else {
      assert FirstPublished(ts, n, j, name);
    }
  }

  /** If the published constants are closed under references, every name a recorded constant
      refers to has an entry: following superclasses and mixins never misses. */
  lemma ReferencesResolve(environment: Environment, ts: seq<Trace>, owner: string, name: string)
    requires ReferencesPublished(ts)
    requires owner in Run(environment, ts) && Refers(Run(environment, ts)[owner].constant, name)
    ensures name in Run(environment, ts)
  {
    hide Run, Undeclared, Published, FirstOccurrences;
    KeepsFirstOccurrences(environment, ts, Key(owner, InstanceMethod, name));
    ConstantsAreRecorded(environment, ts, owner);
    var constant := Run(environment, ts)[owner].constant;
    var i: nat, j: nat :|
      FirstPublished(ts, i, j, owner) && constant == Undeclared(environment, ts[i].constantUpdates[j]);
    var c := ts[i].constantUpdates[j];
    UndeclaredRemain(environment, c, name);
    assert Refers(c, name);
  }
}
