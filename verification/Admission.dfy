/** Which values the type made from a list of summaries accepts, told from the summaries. */
module Admission {
  import opened Traces
  import opened Values
  import opened RbsTypes
  import opened TypeSoundness

  // ---------------------------------------------------------------------------
  // Plain values and class objects

  /** A plain value's class is covered by a list of summaries. */
  predicate Covered(cs: seq<ConstantInstance>, cls: string) {
    if cls == "TrueClass" || cls == "FalseClass" then exists c :: c in cs && IsBoolean(c)
    else if cls == "NilClass" then exists c :: c in cs && c.name == "NilClass"
    else ConstantInstance(cls, false, []) in cs
  }

  /** An alternative accepts the plain values of a class. */
  predicate Fits(a: ConstantInstance, cls: string) {
    if cls == "TrueClass" || cls == "FalseClass" then a == BOOL
    else if cls == "NilClass" then a.name == "NilClass"
    else a == ConstantInstance(cls, false, [])
  }

  lemma {:induction false} FittingAlternative(arity: Arities, h: Heap, v: Ref, a: ConstantInstance, n: nat)
    requires ValidHeap(h) && v in h && h[v].Plain? && WellFormed(a) && (a == BOOL || Shaped(a, n)) && !IsBoolean(a)
    ensures Conforms(h, v, ToRbsOne(arity, a)) <==> Fits(a, h[v].cls)
  {
  }

  lemma CoveredMeansFitting(cs: seq<ConstantInstance>, cls: string, n: nat)
    requires AreSummaries(cs, n) && cls !in {"Array", "Hash", "bool"}
    ensures Covered(cs, cls) <==> exists a :: a in Alternatives(cs) && Fits(a, cls)
  {
    hide Alternatives, WellFormed;
    if Covered(cs, cls) {
      if cls == "TrueClass" || cls == "FalseClass" {
        NormalisedUnion(cs);
        assert BOOL in Alternatives(cs) && Fits(BOOL, cls);
      } else {
        var a := if cls == "NilClass" then var c :| c in cs && c.name == "NilClass"; c
                 else ConstantInstance(cls, false, []);
        NotDropped(cs, n, a);
        assert Fits(a, cls);
      }
    }
    forall a | a in Alternatives(cs) && Fits(a, cls)
      ensures Covered(cs, cls)
    {
      var c := AlternativeOrigin(cs, n, a);
    }
  }

  /** Only summaries of arrays and hashes have generics, so nothing else is ever dropped. */
  lemma NotDropped(cs: seq<ConstantInstance>, n: nat, a: ConstantInstance)
    requires AreSummaries(cs, n) && a in cs && !IsBoolean(a) && a.name !in {"Array", "Hash"}
    ensures a in Alternatives(cs)
  {
    hide Alternatives, WellFormed;
    NormalisedUnion(cs);
    forall g | g in Alternatives(cs) && g.genericArguments != []
      ensures g.name in {"Array", "Hash"}
    {
      assert Shaped(g, n);
    }
  }

  /** A value that is no array, hash or class object is accepted by the type of any list of
      summaries exactly if its class is covered. */
  lemma PlainAccepted(arity: Arities, h: Heap, v: Ref, cs: seq<ConstantInstance>, n: nat)
    requires ValidHeap(h) && v in h && h[v].Plain? && AreSummaries(cs, n)
    ensures Conforms(h, v, ToRbs(arity, cs)) <==> Covered(cs, h[v].cls)
  {
    hide Alternatives, ToRbs, WellFormed, Shaped, Conforms, Fits, Covered, ToRbsOne;
    UnionAccepts(arity, h, v, cs);
    CoveredMeansFitting(cs, h[v].cls, n);
    forall a | a in Alternatives(cs)
      ensures Conforms(h, v, ToRbsOne(arity, a)) <==> Fits(a, h[v].cls)
    {
      var _ := AlternativeOrigin(cs, n, a);
      NormalisedNames(cs, n, a);
      FittingAlternative(arity, h, v, a, n);
    }
  }

  lemma NormalisedNames(cs: seq<ConstantInstance>, n: nat, a: ConstantInstance)
    requires AreSummaries(cs, n) && a in Alternatives(cs)
    ensures !IsBoolean(a)
  {
    hide Alternatives;
    NormalisedUnion(cs);
  }

  /** A class object is left in the union and has no name that is taken for an instance. */
  predicate LeavesClassObject(cs: seq<ConstantInstance>, name: string) {
    !MistakenName(name) && ConstantInstance(name, true, []) in Alternatives(cs)
  }

  lemma ClassAlternative(arity: Arities, h: Heap, v: Ref, a: ConstantInstance, n: nat)
    requires ValidHeap(h) && v in h && h[v].ClassObject?
    requires WellFormed(a) && (a == BOOL || Shaped(a, n)) && !IsBoolean(a)
    ensures Conforms(h, v, ToRbsOne(arity, a)) <==>
              !MistakenName(h[v].name) && a == ConstantInstance(h[v].name, true, [])
  {
    hide GenericArguments;
  }

  lemma ClassObjectAdmitted(arity: Arities, h: Heap, v: Ref, cs: seq<ConstantInstance>, n: nat)
    requires ValidHeap(h) && v in h && h[v].ClassObject? && AreSummaries(cs, n)
    ensures Conforms(h, v, ToRbs(arity, cs)) <==> LeavesClassObject(cs, h[v].name)
  {
    hide Alternatives, ToRbs, WellFormed, Shaped, Conforms, ToRbsOne;
    UnionAccepts(arity, h, v, cs);
    forall a | a in Alternatives(cs)
      ensures Conforms(h, v, ToRbsOne(arity, a)) <==>
                !MistakenName(h[v].name) && a == ConstantInstance(h[v].name, true, [])
    {
      var _ := AlternativeOrigin(cs, n, a);
      NormalisedNames(cs, n, a);
      ClassAlternative(arity, h, v, a, n);
    }
  }

  // ---------------------------------------------------------------------------
  // All values

  /** Nothing is said of the contents: the class is written without arguments or with untyped
      ones. */
  predicate LeavesOpen(arity: Arities, a: ConstantInstance) {
    a.genericArguments == [] || a.name !in arity || arity[a.name] != |a.genericArguments|
  }

  lemma GenericsAreSummaries(c: ConstantInstance, n: nat, k: nat)
    requires Shaped(c, n) && WellFormed(c) && k < |c.genericArguments|
    ensures n > 0 && WellFormedArgument(c.genericArguments[k]) && AreSummaries(c.genericArguments[k].members, n - 1)
  {
    assert ShapedArgument(c.genericArguments[k], n - 1) && WellFormedArgument(c.genericArguments[k]);
  }

  /** What a list of summaries with n levels left says of a value: a plain value's class is
      covered, a class object is left, and an array or hash fits one that is left. */
  ghost predicate Admits(arity: Arities, cs: seq<ConstantInstance>, n: nat, h: Heap, v: Ref)
    requires ValidHeap(h) && v in h && AreSummaries(cs, n)
    decreases n, 1
  {
    match h[v]
    case Plain(cls) => Covered(cs, cls)
    case ClassObject(name) => LeavesClassObject(cs, name)
    case _ => exists a :: a in Alternatives(cs) && Shaped(a, n) && WellFormed(a) && FitsIn(arity, a, n, h, v)
  }

  /** An array fits the summary of one if all its elements are admitted by the summaries of that
      one's elements, and a hash likewise. */
  ghost predicate FitsIn(arity: Arities, a: ConstantInstance, n: nat, h: Heap, v: Ref)
    requires ValidHeap(h) && v in h && Shaped(a, n) && WellFormed(a)
    decreases n, 0, 1
  {
    !a.singleton
    && match h[v]
       case List(items) =>
         a.name == "Array" && (LeavesOpen(arity, a) || AllAdmitted(arity, a, n, 0, h, items))
       case Table(keys, values) =>
         a.name == "Hash"
         && (LeavesOpen(arity, a)
             || (AllAdmitted(arity, a, n, 0, h, keys) && AllAdmitted(arity, a, n, 1, h, values)))
       case _ => false
  }

  /** The k-th generic argument admits all these values. */
  ghost predicate AllAdmitted(arity: Arities, a: ConstantInstance, n: nat, k: nat, h: Heap, vs: seq<Ref>)
    requires ValidHeap(h) && (forall x :: x in vs ==> x in h) && Shaped(a, n) && WellFormed(a)
    decreases n, 0, 0
  {
    k < |a.genericArguments|
    && (GenericsAreSummaries(a, n, k);
        forall x :: x in vs ==> Admits(arity, a.genericArguments[k].members, n - 1, h, x))
  }

  /** The type made from any list of summaries accepts a value if and only if the list admits
      it. */
  lemma {:induction false} AdmittedIff(arity: Arities, cs: seq<ConstantInstance>, n: nat, h: Heap, v: Ref)
    requires ValidHeap(h) && v in h && AreSummaries(cs, n)
    ensures Conforms(h, v, ToRbs(arity, cs)) <==> Admits(arity, cs, n, h, v)
    decreases n, 1
  {
    hide Conforms, ToRbs, Alternatives, Covered, AreSummaries, FitsIn, LeavesClassObject;
    match h[v]
    case Plain(_) => PlainAccepted(arity, h, v, cs, n);
    case ClassObject(_) => ClassObjectAdmitted(arity, h, v, cs, n);
    case _ => ContainerAdmittedIff(arity, cs, n, h, v);
  }

  lemma {:induction false} ContainerAdmittedIff(arity: Arities, cs: seq<ConstantInstance>, n: nat, h: Heap, v: Ref)
    requires ValidHeap(h) && v in h && AreSummaries(cs, n) && (h[v].List? || h[v].Table?)
    ensures Conforms(h, v, ToRbs(arity, cs)) <==>
              exists a :: a in Alternatives(cs) && Shaped(a, n) && WellFormed(a) && FitsIn(arity, a, n, h, v)
    decreases n, 0, 2
  {
    hide Conforms, ToRbs, Alternatives, FitsIn, ToRbsOne, WellFormed, Shaped;
    UnionAccepts(arity, h, v, cs);
    forall a | a in Alternatives(cs)
      ensures WellFormed(a)
      ensures Conforms(h, v, ToRbsOne(arity, a)) <==> Shaped(a, n) && FitsIn(arity, a, n, h, v)
    {
      var c := AlternativeOrigin(cs, n, a);
      if a == BOOL {
        BoolHoldsNothing(arity, n, h, v);
      } else {
        FitsInIff(arity, a, n, h, v);
      }
    }
  }

  lemma BoolHoldsNothing(arity: Arities, n: nat, h: Heap, v: Ref)
    requires ValidHeap(h) && v in h && (h[v].List? || h[v].Table?)
    ensures WellFormed(BOOL) && !Conforms(h, v, ToRbsOne(arity, BOOL)) && !Shaped(BOOL, n)
  {
  }

  lemma {:induction false} FitsInIff(arity: Arities, a: ConstantInstance, n: nat, h: Heap, v: Ref)
    requires ValidHeap(h) && v in h && (h[v].List? || h[v].Table?) && Shaped(a, n) && WellFormed(a)
    ensures Conforms(h, v, ToRbsOne(arity, a)) <==> FitsIn(arity, a, n, h, v)
    decreases n, 0, 1
  {
    hide ToRbs, WellFormed, Alternatives, AllAdmitted;
    if a.singleton || !IsInstance(h[v], a.name) {
      OthersReject(arity, a, n, h, v);
    } else if LeavesOpen(arity, a) {
      OpenAccepts(arity, a, h, v);
    } else {
      hide Conforms;
      TypedContents(arity, h, v, a);
      match h[v]
      case List(items) => ArgumentAdmittedIff(arity, a, n, 0, h, items);
      case Table(keys, values) =>
        ArgumentAdmittedIff(arity, a, n, 0, h, keys);
        ArgumentAdmittedIff(arity, a, n, 1, h, values);
    }
  }

  lemma OthersReject(arity: Arities, a: ConstantInstance, n: nat, h: Heap, v: Ref)
    requires ValidHeap(h) && v in h && (h[v].List? || h[v].Table?) && Shaped(a, n) && WellFormed(a)
    requires a.singleton || !IsInstance(h[v], a.name)
    ensures !Conforms(h, v, ToRbsOne(arity, a))
  {
    hide GenericArguments;
  }

  lemma OpenAccepts(arity: Arities, a: ConstantInstance, h: Heap, v: Ref)
    requires ValidHeap(h) && v in h && WellFormed(a) && !a.singleton && LeavesOpen(arity, a)
    requires (h[v].List? || h[v].Table?) && IsInstance(h[v], a.name)
    ensures Conforms(h, v, ToRbsOne(arity, a))
  {
    hide ToRbs;
  }

  lemma {:induction false} ArgumentAdmittedIff(
      arity: Arities, a: ConstantInstance, n: nat, k: nat, h: Heap, vs: seq<Ref>)
    requires ValidHeap(h) && (forall x :: x in vs ==> x in h) && Shaped(a, n) && WellFormed(a)
    requires k < |a.genericArguments|
    ensures n > 0 && WellFormedArgument(a.genericArguments[k])
    ensures AllAdmitted(arity, a, n, k, h, vs) <==>
              forall x :: x in vs ==> Conforms(h, x, ToRbs(arity, a.genericArguments[k].members))
    decreases n, 0, 0
  {
    hide ToRbs, Conforms, Admits, WellFormed, Shaped;
    GenericsAreSummaries(a, n, k);
    forall x | x in vs
      ensures Conforms(h, x, ToRbs(arity, a.genericArguments[k].members))
         <==> Admits(arity, a.genericArguments[k].members, n - 1, h, x)
    {
      AdmittedIff(arity, a.genericArguments[k].members, n - 1, h, x);
    }
  }

  // ---------------------------------------------------------------------------
  // Acceptance in any company

  /** A class object that is clean; an array or hash whose contents' summaries admit each of its
      contents. */
  ghost predicate Robust(arity: Arities, h: Heap, v: Ref, depth: nat, limit: nat)
    requires ValidHeap(h) && v in h && depth <= limit
  {
    var c := Summary(h, v, depth, limit);
    SummaryIsShaped(h, v, depth, limit);
    match h[v]
    case Plain(_) => true
    case ClassObject(_) => Clean(h, v, depth, limit)
    case _ => c.genericArguments == [] || FitsIn(arity, c, limit - depth, h, v)
  }

  /** Any value, containers of containers included, is accepted whatever else is seen with it if
      and only if it is robust. */
  lemma RobustIff(arity: Arities, h: Heap, v: Ref, depth: nat, limit: nat)
    requires ValidHeap(h) && v in h && depth <= limit
    ensures Robust(arity, h, v, depth, limit) <==>
              forall cs :: SeenAmong(cs, h, v, depth, limit) ==> Conforms(h, v, ToRbs(arity, cs))
  {
    hide Clean, Conforms, ToRbs, FitsIn, WellFormed, Shaped, Alternatives;
    var c := Summary(h, v, depth, limit);
    SummaryIsShaped(h, v, depth, limit);
    if h[v].ClassObject? {
      CleanIsExact(arity, h, v, depth, limit);
    } else if h[v].Plain? || c.genericArguments == [] {
      BareIsClean(h, v, depth, limit);
      forall cs | SeenAmong(cs, h, v, depth, limit)
        ensures Conforms(h, v, ToRbs(arity, cs))
      {
        Accepted(arity, h, v, depth, limit, cs);
      }
    } else {
      GenericIsRobustIff(arity, h, v, depth, limit);
    }
  }

  lemma BareIsClean(h: Heap, v: Ref, depth: nat, limit: nat)
    requires ValidHeap(h) && v in h && depth <= limit && !h[v].ClassObject?
    requires h[v].Plain? || Summary(h, v, depth, limit).genericArguments == []
    ensures Clean(h, v, depth, limit)
  {
    hide UnionOf;
    if depth < limit {
      NothingToSettle(h, depth + 1, limit);
    }
  }

  lemma GenericIsRobustIff(arity: Arities, h: Heap, v: Ref, depth: nat, limit: nat)
    requires ValidHeap(h) && v in h && depth <= limit && (h[v].List? || h[v].Table?)
    requires Summary(h, v, depth, limit).genericArguments != []
    ensures Robust(arity, h, v, depth, limit) <==>
              forall cs :: SeenAmong(cs, h, v, depth, limit) ==> Conforms(h, v, ToRbs(arity, cs))
  {
    hide Clean, Conforms, ToRbs, FitsIn, WellFormed, Shaped, Alternatives, Summary;
    var c, n := Summary(h, v, depth, limit), limit - depth;
    SummaryIsShaped(h, v, depth, limit);
    ContainerName(h, v, depth, limit);
    AlternativesOfOne(c);
    assert SeenAmong([c], h, v, depth, limit);
    ContainerAdmittedIff(arity, [c], n, h, v);
    if FitsIn(arity, c, n, h, v) {
      forall cs | SeenAmong(cs, h, v, depth, limit)
        ensures Conforms(h, v, ToRbs(arity, cs))
      {
        GenericStays(cs, c, n);
        ContainerAdmittedIff(arity, cs, n, h, v);
      }
    }
  }

  lemma ContainerName(h: Heap, v: Ref, depth: nat, limit: nat)
    requires ValidHeap(h) && v in h && depth <= limit && (h[v].List? || h[v].Table?)
    ensures !IsBoolean(Summary(h, v, depth, limit))
  {
    hide UnionOf;
  }

  lemma GenericStays(cs: seq<ConstantInstance>, c: ConstantInstance, n: nat)
    requires AreSummaries(cs, n) && c in cs && c.genericArguments != [] && !IsBoolean(c)
    ensures c in Alternatives(cs)
  {
    hide Alternatives;
    NormalisedUnion(cs);
  }
}
