/** Turning the summaries seen at one place into one RBS type. */
module RbsTypes {
  import opened Traces
  import opened Values
  import opened Selection

  datatype RbsType =
    | Untyped
    | BoolType
    | NilType
    | ClassSingleton(name: string)
    | ClassInstance(name: string, arguments: seq<RbsType>)
    | Union(types: seq<RbsType>)

  /** The number of type parameters of the classes the RBS environment knows. */
  type Arities = map<string, nat>

  const BOOL := ConstantInstance("bool", false, [])

  predicate IsBoolean(c: ConstantInstance) {
    c.name == "TrueClass" || c.name == "FalseClass"
  }

  // ---------------------------------------------------------------------------
  // Nesting height, the termination measure

  function Max(a: nat, b: nat): nat { if a < b then b else a }

  function Height(c: ConstantInstance): (n: nat)
    ensures n >= 1
    decreases c, 0
  {
    1 + HeightOfArguments(c.genericArguments)
  }

  function HeightOfArguments(arguments: seq<Argument>): nat
    decreases arguments, 1
  {
    if arguments == [] then 0 else Max(HeightOfAll(arguments[0].members), HeightOfArguments(arguments[1..]))
  }

  function HeightOfAll(cs: seq<ConstantInstance>): nat
    decreases cs, 1
  {
    if cs == [] then 0 else Max(Height(cs[0]), HeightOfAll(cs[1..]))
  }

  lemma {:induction false} MemberHeight(cs: seq<ConstantInstance>, c: ConstantInstance)
    requires c in cs
    ensures Height(c) <= HeightOfAll(cs)
    decreases |cs|
  {
    if c != cs[0] {
      MemberHeight(cs[1..], c);
    }
  }

  lemma {:induction false} HeightBound(cs: seq<ConstantInstance>, n: nat)
    requires forall c :: c in cs ==> Height(c) <= n
    ensures HeightOfAll(cs) <= n
    decreases |cs|
  {
    if cs != [] {
      HeightBound(cs[1..], n);
    }
  }

  lemma {:induction false} ArgumentHeight(arguments: seq<Argument>, k: nat)
    requires k < |arguments|
    ensures HeightOfAll(arguments[k].members) <= HeightOfArguments(arguments)
    decreases |arguments|
  {
    if k > 0 {
      ArgumentHeight(arguments[1..], k - 1);
    }
  }

  // ---------------------------------------------------------------------------
  // Normalising a union

  function Uniq(cs: seq<ConstantInstance>): seq<ConstantInstance> {
    if cs == [] then [] else
    var front, c := Uniq(cs[..|cs| - 1]), cs[|cs| - 1];
    if c in front then front else front + [c]
  }

  function WithoutBooleans(cs: seq<ConstantInstance>): seq<ConstantInstance> {
    if cs == [] then [] else
    var front, c := WithoutBooleans(cs[..|cs| - 1]), cs[|cs| - 1];
    if IsBoolean(c) then front else front + [c]
  }

  function MergeBooleans(cs: seq<ConstantInstance>): seq<ConstantInstance> {
    if exists c :: c in cs && IsBoolean(c) then WithoutBooleans(cs) + [BOOL] else cs
  }

  predicate DroppedWith(c: ConstantInstance, name: string) {
    c.name == name && c.genericArguments == []
  }

  function DropBare(cs: seq<ConstantInstance>, name: string): (r: seq<ConstantInstance>)
    ensures |r| <= |cs|
  {
    if cs == [] then [] else
    var front, c := DropBare(cs[..|cs| - 1], name), cs[|cs| - 1];
    if DroppedWith(c, name) then front else front + [c]
  }

  /** Iterating over an array that shrinks: deleting moves later elements to earlier indices,
      so the iteration can skip some of them. */
  function Sweep(cs: seq<ConstantInstance>, i: nat): seq<ConstantInstance>
    decreases |cs| - i
  {
    if i >= |cs| then cs
    else if cs[i].genericArguments != [] then Sweep(DropBare(cs, cs[i].name), i + 1)
    else Sweep(cs, i + 1)
  }

  function Alternatives(cs: seq<ConstantInstance>): seq<ConstantInstance> {
    var merged := MergeBooleans(Uniq(cs));
    if |merged| > 1 then Sweep(merged, 0) else merged
  }

  // ---------------------------------------------------------------------------
  // What the steps keep

  lemma {:induction false} UniqMembers(cs: seq<ConstantInstance>)
    ensures forall c :: c in Uniq(cs) <==> c in cs
    ensures forall i, j :: 0 <= i < j < |Uniq(cs)| ==> Uniq(cs)[i] != Uniq(cs)[j]
  {
    if cs != [] {
      UniqMembers(cs[..|cs| - 1]);
      assert cs == cs[..|cs| - 1] + [cs[|cs| - 1]];
    }
  }

  function FirstsOnly(cs: seq<ConstantInstance>): nat -> bool {
    (i: nat) => i < |cs| && cs[i] !in cs[..i]
  }

  function NoBooleans(cs: seq<ConstantInstance>): nat -> bool {
    (i: nat) => i < |cs| && cs[i].name != "TrueClass" && cs[i].name != "FalseClass"
  }

  lemma {:induction false} UniqPrefix(cs: seq<ConstantInstance>, n: nat)
    requires n <= |cs|
    ensures Uniq(cs[..n]) == Selected(cs, FirstsOnly(cs), n)
  {
    if n > 0 {
      UniqPrefix(cs, n - 1);
      UniqMembers(cs[..n - 1]);
      assert cs[..n][..n - 1] == cs[..n - 1];
    }
  }

  lemma {:induction false} WithoutBooleansPrefix(cs: seq<ConstantInstance>, n: nat)
    requires n <= |cs|
    ensures WithoutBooleans(cs[..n]) == Selected(cs, NoBooleans(cs), n)
  {
    if n > 0 {
      WithoutBooleansPrefix(cs, n - 1);
      assert cs[..n][..n - 1] == cs[..n - 1];
    }
  }

  /** Duplicates go and the first occurrences stay, in order; then `bool` takes the place of
      TrueClass and FalseClass, behind all others. */
  lemma MergedInOrder(cs: seq<ConstantInstance>)
    ensures Uniq(cs) == Selected(cs, FirstsOnly(cs), |cs|)
    ensures
      var unique := Selected(cs, FirstsOnly(cs), |cs|);
      MergeBooleans(Uniq(cs)) ==
        Selected(unique, NoBooleans(unique), |unique|)
        + if exists c :: c in cs && c.name in {"TrueClass", "FalseClass"}
          then [ConstantInstance("bool", false, [])] else []
  {
    hide Uniq, WithoutBooleans, Selected, FirstsOnly, NoBooleans;
    UniqPrefix(cs, |cs|);
    assert cs[..|cs|] == cs;
    UniqMembers(cs);
    MergingInOrder(Uniq(cs));
  }

  lemma MergingInOrder(cs: seq<ConstantInstance>)
    ensures MergeBooleans(cs) ==
            Selected(cs, NoBooleans(cs), |cs|) + if exists c :: c in cs && IsBoolean(c) then [BOOL] else []
  {
    hide WithoutBooleans, Selected, NoBooleans;
    WithoutBooleansPrefix(cs, |cs|);
    assert cs[..|cs|] == cs;
    if !exists c :: c in cs && IsBoolean(c) {
      KeptWhole(cs);
    }
  }

  lemma KeptWhole(cs: seq<ConstantInstance>)
    requires forall c :: c in cs ==> !IsBoolean(c)
    ensures Selected(cs, NoBooleans(cs), |cs|) + [] == cs
  {
    KeptUpTo(cs, |cs|);
    assert cs[..|cs|] == cs;
  }

  lemma {:induction false} KeptUpTo(cs: seq<ConstantInstance>, n: nat)
    requires n <= |cs| && forall c :: c in cs ==> !IsBoolean(c)
    ensures Selected(cs, NoBooleans(cs), n) == cs[..n]
  {
    if n > 0 {
      KeptUpTo(cs, n - 1);
      assert cs[n - 1] in cs;
    }
  }

  lemma {:induction false} WithoutBooleansMembers(cs: seq<ConstantInstance>)
    ensures forall c :: c in WithoutBooleans(cs) <==> c in cs && !IsBoolean(c)
  {
    if cs != [] {
      WithoutBooleansMembers(cs[..|cs| - 1]);
      assert cs == cs[..|cs| - 1] + [cs[|cs| - 1]];
    }
  }

  lemma {:induction false} DropBareMembers(cs: seq<ConstantInstance>, name: string)
    ensures forall c :: c in DropBare(cs, name) <==> c in cs && !DroppedWith(c, name)
  {
    if cs != [] {
      DropBareMembers(cs[..|cs| - 1], name);
      assert cs == cs[..|cs| - 1] + [cs[|cs| - 1]];
    }
  }

  /** The union after the sweep: nothing new; all generic instances; and what is gone had no
      generics and stands beside a surviving generic instance of its name. */
  lemma {:induction false} SweepMembers(cs: seq<ConstantInstance>, i: nat)
    ensures forall c :: c in Sweep(cs, i) ==> c in cs
    ensures forall c :: c in cs && c.genericArguments != [] ==> c in Sweep(cs, i)
    ensures forall c :: c in cs && c !in Sweep(cs, i) ==>
              c.genericArguments == []
              && exists g :: g in Sweep(cs, i) && g.name == c.name && g.genericArguments != []
    decreases |cs| - i
  {
    if i < |cs| {
      if cs[i].genericArguments != [] {
        var dropped := DropBare(cs, cs[i].name);
        DropBareMembers(cs, cs[i].name);
        SweepMembers(dropped, i + 1);
        assert cs[i] in dropped;
      } else {
        SweepMembers(cs, i + 1);
      }
    }
  }

  /** `r` is `cs` with some elements left out, in the same order. */
  predicate IsSubsequence<T(==)>(r: seq<T>, cs: seq<T>)
    decreases |cs|
  {
    if r == [] then true
    else if cs == [] then false
    else if r[|r| - 1] == cs[|cs| - 1] then IsSubsequence(r[..|r| - 1], cs[..|cs| - 1])
    else IsSubsequence(r, cs[..|cs| - 1])
  }

  lemma {:induction false} SubsequenceOfItself<T>(cs: seq<T>)
    ensures IsSubsequence(cs, cs)
  {
    if cs != [] {
      SubsequenceOfItself(cs[..|cs| - 1]);
    }
  }

  lemma {:induction false} DropLast<T>(r: seq<T>, cs: seq<T>)
    requires r != [] && IsSubsequence(r, cs)
    ensures IsSubsequence(r[..|r| - 1], cs)
    decreases |cs|, 1
  {
    if r[|r| - 1] == cs[|cs| - 1] {
      SkipLast(r[..|r| - 1], cs);
    } else {
      DropLast(r, cs[..|cs| - 1]);
      SkipLast(r[..|r| - 1], cs);
    }
  }

  lemma {:induction false} SkipLast<T>(r: seq<T>, cs: seq<T>)
    requires cs != [] && IsSubsequence(r, cs[..|cs| - 1])
    ensures IsSubsequence(r, cs)
    decreases |cs|, 0
  {
    if r != [] && r[|r| - 1] == cs[|cs| - 1] {
      DropLast(r, cs[..|cs| - 1]);
    }
  }

  lemma {:induction false} SubsequenceIsTransitive<T>(a: seq<T>, b: seq<T>, c: seq<T>)
    requires IsSubsequence(a, b) && IsSubsequence(b, c)
    ensures IsSubsequence(a, c)
    decreases |c|, |b|
  {
    if a != [] {
      if b[|b| - 1] != c[|c| - 1] {
        SubsequenceIsTransitive(a, b, c[..|c| - 1]);
        SkipLast(a, c);
      } else if a[|a| - 1] == b[|b| - 1] {
        SubsequenceIsTransitive(a[..|a| - 1], b[..|b| - 1], c[..|c| - 1]);
      } else {
        SubsequenceIsTransitive(a, b[..|b| - 1], c[..|c| - 1]);
        SkipLast(a, c);
      }
    }
  }

  lemma {:induction false} DropBareOrder(cs: seq<ConstantInstance>, name: string)
    ensures IsSubsequence(DropBare(cs, name), cs)
  {
    if cs != [] {
      DropBareOrder(cs[..|cs| - 1], name);
      if DroppedWith(cs[|cs| - 1], name) {
        SkipLast(DropBare(cs, name), cs);
      } else {
        assert DropBare(cs, name)[..|DropBare(cs, name)| - 1] == DropBare(cs[..|cs| - 1], name);
      }
    }
  }

  lemma {:induction false} SweepOrder(cs: seq<ConstantInstance>, i: nat)
    ensures IsSubsequence(Sweep(cs, i), cs)
    decreases |cs| - i
  {
    if i >= |cs| {
      SubsequenceOfItself(cs);
    } else if cs[i].genericArguments != [] {
      var dropped := DropBare(cs, cs[i].name);
      SweepOrder(dropped, i + 1);
      DropBareOrder(cs, cs[i].name);
      SubsequenceIsTransitive(Sweep(dropped, i + 1), dropped, cs);
    } else {
      SweepOrder(cs, i + 1);
    }
  }

  ghost predicate Distinct<T>(cs: seq<T>) {
    forall i, j :: 0 <= i < j < |cs| ==> cs[i] != cs[j]
  }

  lemma {:induction false} SubsequenceIsDistinct<T>(r: seq<T>, cs: seq<T>)
    requires IsSubsequence(r, cs) && Distinct(cs)
    ensures Distinct(r) && forall x :: x in r ==> x in cs
    decreases |cs|
  {
    if r != [] {
      var front := cs[..|cs| - 1];
      assert cs == front + [cs[|cs| - 1]];
      if r[|r| - 1] == cs[|cs| - 1] {
        SubsequenceIsDistinct(r[..|r| - 1], front);
        assert cs[|cs| - 1] !in front;
        assert r == r[..|r| - 1] + [r[|r| - 1]];
      } else {
        SubsequenceIsDistinct(r, front);
      }
    }
  }

  lemma {:induction false} WithoutBooleansOrder(cs: seq<ConstantInstance>)
    ensures IsSubsequence(WithoutBooleans(cs), cs)
  {
    if cs != [] {
      WithoutBooleansOrder(cs[..|cs| - 1]);
      if IsBoolean(cs[|cs| - 1]) {
        SkipLast(WithoutBooleans(cs), cs);
      } else {
        assert WithoutBooleans(cs)[..|WithoutBooleans(cs)| - 1] == WithoutBooleans(cs[..|cs| - 1]);
      }
    }
  }

  lemma MergeBooleansIsDistinct(cs: seq<ConstantInstance>)
    requires Distinct(cs) && BOOL !in cs
    ensures Distinct(MergeBooleans(cs))
  {
    WithoutBooleansOrder(cs);
    SubsequenceIsDistinct(WithoutBooleans(cs), cs);
  }

  lemma MergeBooleansMembers(cs: seq<ConstantInstance>)
    ensures forall c :: c in MergeBooleans(cs) <==>
              (c in cs && !IsBoolean(c)) || (c == BOOL && exists b :: b in cs && IsBoolean(b))
  {
    WithoutBooleansMembers(cs);
  }

  /** The normalised union of any list of summaries: no duplicates and no TrueClass or
      FalseClass; `bool` exactly if one of them was there; every generic instance; nothing
      that was not there; and whatever else is missing has no generics and stands beside a
      generic instance of its name. */
  lemma NormalisedUnion(cs: seq<ConstantInstance>)
    requires forall c :: c in cs ==> c.name != "bool"
    ensures Distinct(Alternatives(cs))
    ensures forall c :: c in Alternatives(cs) ==> !IsBoolean(c) && (c in cs || c == BOOL)
    ensures BOOL in Alternatives(cs) <==> exists b :: b in cs && IsBoolean(b)
    ensures forall c :: c in cs && c.genericArguments != [] && !IsBoolean(c) ==> c in Alternatives(cs)
    ensures forall c :: c in cs && !IsBoolean(c) && c !in Alternatives(cs) ==>
              c.genericArguments == []
              && exists g :: g in Alternatives(cs) && g.name == c.name && g.genericArguments != []
    ensures IsSubsequence(Alternatives(cs), MergeBooleans(Uniq(cs)))
  {
    var merged := MergeBooleans(Uniq(cs));
    UniqMembers(cs);
    MergeBooleansMembers(Uniq(cs));
    MergeBooleansIsDistinct(Uniq(cs));
    SweepMembers(merged, 0);
    SweepOrder(merged, 0);
    SubsequenceOfItself(merged);
    SubsequenceIsDistinct(Alternatives(cs), merged);
  }

  // ---------------------------------------------------------------------------
  // The sweep, round by round

  function Surviving(cs: seq<ConstantInstance>, name: string): nat -> bool {
    (i: nat) => i < |cs| && !(cs[i].name == name && cs[i].genericArguments == [])
  }

  /** The array after n rounds of the iteration: round k looks at index k of the array as it is
      then, and if a generic instance is there, deletes all bare ones of its name. */
  function ArrayAfter(cs: seq<ConstantInstance>, n: nat): seq<ConstantInstance> {
    if n == 0 then cs else
    var a := ArrayAfter(cs, n - 1);
    if n - 1 < |a| && a[n - 1].genericArguments != [] then Selected(a, Surviving(a, a[n - 1].name), |a|) else a
  }

  lemma {:induction false} DropBarePrefix(cs: seq<ConstantInstance>, name: string, n: nat)
    requires n <= |cs|
    ensures DropBare(cs[..n], name) == Selected(cs, Surviving(cs, name), n)
  {
    if n > 0 {
      DropBarePrefix(cs, name, n - 1);
      assert cs[..n][..n - 1] == cs[..n - 1];
    }
  }

  lemma DropBareSelects(cs: seq<ConstantInstance>, name: string)
    ensures DropBare(cs, name) == Selected(cs, Surviving(cs, name), |cs|)
  {
    DropBarePrefix(cs, name, |cs|);
    assert cs[..|cs|] == cs;
  }

  lemma {:induction false} SweepFollowsRounds(cs: seq<ConstantInstance>, k: nat, n: nat)
    requires |ArrayAfter(cs, k)| <= n && k <= n
    ensures Sweep(ArrayAfter(cs, k), k) == ArrayAfter(cs, n)
    decreases n - k
  {
    hide DropBare, Selected;
    var a := ArrayAfter(cs, k);
    if k < n {
      if k < |a| {
        DropBareSelects(a, a[k].name);
      } else {
        assert Sweep(a, k) == a == Sweep(a, k + 1);
      }
      SweepFollowsRounds(cs, k + 1, n);
    }
  }

  /** The sweep is what is left after as many rounds as there were elements, and no later round
      changes it. */
  lemma SweepIsRounds(cs: seq<ConstantInstance>, n: nat)
    requires |cs| <= n
    ensures Sweep(cs, 0) == ArrayAfter(cs, n)
  {
    SweepFollowsRounds(cs, 0, n);
  }

  // ---------------------------------------------------------------------------
  // Which elements the sweep deletes

  /** The elements the walk over the shrinking array comes to. */
  function Looked(cs: seq<ConstantInstance>, i: nat): seq<ConstantInstance>
    decreases |cs| - i
  {
    if i >= |cs| then []
    else if cs[i].genericArguments != [] then [cs[i]] + Looked(DropBare(cs, cs[i].name), i + 1)
    else [cs[i]] + Looked(cs, i + 1)
  }

  predicate HasGeneric(cs: seq<ConstantInstance>, name: string) {
    exists g :: g in cs && g.genericArguments != [] && g.name == name
  }

  lemma HasGenericCons(g: ConstantInstance, cs: seq<ConstantInstance>, name: string)
    ensures HasGeneric([g] + cs, name) <==> (g.genericArguments != [] && g.name == name) || HasGeneric(cs, name)
  {
    assert g in [g] + cs;
    assert forall x :: x in [g] + cs <==> x == g || x in cs;
    if HasGeneric(cs, name) {
      var x :| x in cs && x.genericArguments != [] && x.name == name;
      assert x in [g] + cs;
    }
  }

  /** Exactly the elements without generics are deleted for whose name the walk comes to a
      generic instance. */
  lemma {:induction false} SweepDeletes(cs: seq<ConstantInstance>, i: nat, c: ConstantInstance)
    ensures c in Sweep(cs, i) <==> c in cs && !(c.genericArguments == [] && HasGeneric(Looked(cs, i), c.name))
    decreases |cs| - i
  {
    hide HasGeneric;
    if i < |cs| {
      if cs[i].genericArguments != [] {
        var dropped := DropBare(cs, cs[i].name);
        DropBareMembers(cs, cs[i].name);
        SweepDeletes(dropped, i + 1, c);
        HasGenericCons(cs[i], Looked(dropped, i + 1), c.name);
      } else {
        SweepDeletes(cs, i + 1, c);
        HasGenericCons(cs[i], Looked(cs, i + 1), c.name);
      }
    } else {
      NoGenerics(c.name);
    }
  }

  lemma NoGenerics(name: string)
    ensures !HasGeneric([], name)
  {
  }

  /** What is left of a list of summaries, for all lists. */
  lemma AlternativesExactly(cs: seq<ConstantInstance>, c: ConstantInstance)
    ensures
      var merged := MergeBooleans(Uniq(cs));
      c in Alternatives(cs) <==>
        c in merged && !(c.genericArguments == [] && HasGeneric(Looked(merged, 0), c.name))
  {
    var merged := MergeBooleans(Uniq(cs));
    SweepDeletes(merged, 0, c);
    if |merged| == 1 {
      LookedAtOne(merged);
    } else if merged == [] {
      assert c !in merged;
    }
  }

  lemma LookedAtOne(cs: seq<ConstantInstance>)
    requires |cs| == 1
    ensures Looked(cs, 0) == cs || cs[0].genericArguments != []
  {
  }

  /** No bare instance stands beside a generic one of its name. */
  ghost predicate NoBareBeside(cs: seq<ConstantInstance>) {
    forall c :: c in cs && c.genericArguments == [] ==> !HasGeneric(cs, c.name)
  }

  /** No bare instance is left beside a generic one exactly if, for each name that occurs both
      bare and generic, the walk comes to a generic instance. */
  lemma NoneBesideIff(cs: seq<ConstantInstance>)
    ensures
      var merged := MergeBooleans(Uniq(cs));
      NoBareBeside(Alternatives(cs)) <==>
        forall c :: c in merged && c.genericArguments == [] && HasGeneric(merged, c.name) ==>
          HasGeneric(Looked(merged, 0), c.name)
  {
    hide Alternatives, MergeBooleans, Looked;
    var merged := MergeBooleans(Uniq(cs));
    forall c
      ensures c in Alternatives(cs) <==>
                c in merged && !(c.genericArguments == [] && HasGeneric(Looked(merged, 0), c.name))
    {
      AlternativesExactly(cs, c);
    }
    forall name: string
      ensures HasGeneric(Alternatives(cs), name) <==> HasGeneric(merged, name)
    {
      if HasGeneric(merged, name) {
        var g :| g in merged && g.genericArguments != [] && g.name == name;
        assert g in Alternatives(cs);
      }
    }
  }

  /** No bare instance stands before a generic one of its name. */
  predicate GenericsFirst(cs: seq<ConstantInstance>) {
    if cs == [] then true else
    var front, c := cs[..|cs| - 1], cs[|cs| - 1];
    GenericsFirst(front)
    && (c.genericArguments != [] ==> forall b :: b in front ==> !DroppedWith(b, c.name))
  }

  lemma {:induction false} DropBareOfConcat(a: seq<ConstantInstance>, b: seq<ConstantInstance>, name: string)
    ensures DropBare(a + b, name) == DropBare(a, name) + DropBare(b, name)
  {
    if b == [] {
      assert a + b == a;
    } else {
      assert (a + b)[..|a + b| - 1] == a + b[..|b| - 1];
      DropBareOfConcat(a, b[..|b| - 1], name);
    }
  }

  lemma {:induction false} NothingToDrop(cs: seq<ConstantInstance>, name: string)
    requires forall c :: c in cs ==> !DroppedWith(c, name)
    ensures DropBare(cs, name) == cs
  {
    if cs != [] {
      NothingToDrop(cs[..|cs| - 1], name);
      assert cs == cs[..|cs| - 1] + [cs[|cs| - 1]];
    }
  }

  lemma {:induction false} DroppingKeepsGenericsFirst(cs: seq<ConstantInstance>, name: string)
    requires GenericsFirst(cs)
    ensures GenericsFirst(DropBare(cs, name))
  {
    if cs != [] {
      var front := cs[..|cs| - 1];
      DroppingKeepsGenericsFirst(front, name);
      DropBareMembers(front, name);
      if !DroppedWith(cs[|cs| - 1], name) {
        assert DropBare(cs, name)[..|DropBare(cs, name)| - 1] == DropBare(front, name);
      }
    }
  }

  lemma {:induction false} GenericsFirstBefore(a: seq<ConstantInstance>, g: ConstantInstance, b: seq<ConstantInstance>)
    requires GenericsFirst(a + [g] + b) && g.genericArguments != []
    ensures forall c :: c in a ==> !DroppedWith(c, g.name)
    decreases |b|
  {
    var cs := a + [g] + b;
    if b == [] {
      assert cs == a + [g] && cs[..|cs| - 1] == a;
    } else {
      assert cs[..|cs| - 1] == a + [g] + b[..|b| - 1];
      GenericsFirstBefore(a, g, b[..|b| - 1]);
    }
  }

  /** Then deleting beside a generic instance deletes behind it only. */
  lemma DroppedBehind(a: seq<ConstantInstance>, x: ConstantInstance, rest: seq<ConstantInstance>)
    requires GenericsFirst((a + [x]) + rest) && x.genericArguments != []
    ensures DropBare((a + [x]) + rest, x.name) == (a + [x]) + DropBare(rest, x.name)
    ensures GenericsFirst((a + [x]) + DropBare(rest, x.name))
  {
    GenericsFirstBefore(a, x, rest);
    NothingToDrop(a + [x], x.name);
    DropBareOfConcat(a + [x], rest, x.name);
    DroppingKeepsGenericsFirst((a + [x]) + rest, x.name);
  }

  lemma LookedFrom(a: seq<ConstantInstance>, x: ConstantInstance, rest: seq<ConstantInstance>)
    ensures
      var cs := (a + [x]) + rest;
      Looked(cs, |a|) == [x] + Looked(if x.genericArguments != [] then DropBare(cs, x.name) else cs, |a| + 1)
  {
  }

  /** If no bare instance stands before a generic one of its name, deleting never moves an
      element the walk has still to come to before it: no generic instance is missed. */
  lemma {:induction false} GenericsAreLookedAt(a: seq<ConstantInstance>, b: seq<ConstantInstance>, g: ConstantInstance)
    requires GenericsFirst(a + b) && g in b && g.genericArguments != []
    ensures g in Looked(a + b, |a|)
    decreases |b|
  {
    hide Looked, DropBare, GenericsFirst;
    var x, rest := b[0], b[1..];
    assert b == [x] + rest && a + b == (a + [x]) + rest;
    LookedFrom(a, x, rest);
    if x.genericArguments == [] {
      GenericsAreLookedAt(a + [x], rest, g);
    } else {
      DroppedBehind(a, x, rest);
      DropBareMembers(rest, x.name);
      if g != x {
        GenericsAreLookedAt(a + [x], DropBare(rest, x.name), g);
      }
    }
  }

  lemma {:induction false} UniqKeepsGenericsFirst(cs: seq<ConstantInstance>)
    requires GenericsFirst(cs)
    ensures GenericsFirst(Uniq(cs))
  {
    hide DroppedWith;
    if cs != [] {
      hide GenericsFirst;
      var front, c := cs[..|cs| - 1], cs[|cs| - 1];
      assert cs == front + [c];
      GenericsFirstSnoc(front, c);
      UniqKeepsGenericsFirst(front);
      UniqMembers(front);
      GenericsFirstSnoc(Uniq(front), c);
    }
  }

  lemma GenericsFirstSnoc(front: seq<ConstantInstance>, c: ConstantInstance)
    ensures GenericsFirst(front + [c]) <==>
            GenericsFirst(front) && (c.genericArguments != [] ==> forall b :: b in front ==> !DroppedWith(b, c.name))
  {
    assert (front + [c])[..|front|] == front;
  }

  lemma {:induction false} WithoutBooleansKeepsGenericsFirst(cs: seq<ConstantInstance>)
    requires GenericsFirst(cs)
    ensures GenericsFirst(WithoutBooleans(cs))
  {
    hide DroppedWith, IsBoolean;
    if cs != [] {
      hide GenericsFirst;
      var front, c := cs[..|cs| - 1], cs[|cs| - 1];
      assert cs == front + [c];
      GenericsFirstSnoc(front, c);
      WithoutBooleansKeepsGenericsFirst(front);
      WithoutBooleansMembers(front);
      GenericsFirstSnoc(WithoutBooleans(front), c);
    }
  }

  lemma MergingKeepsGenericsFirst(cs: seq<ConstantInstance>)
    requires GenericsFirst(cs)
    ensures GenericsFirst(MergeBooleans(cs))
  {
    hide GenericsFirst, WithoutBooleans, IsBoolean;
    WithoutBooleansKeepsGenericsFirst(cs);
    GenericsFirstSnoc(WithoutBooleans(cs), BOOL);
  }

  /** In particular none is left if, in the given list, no bare instance stands before a
      generic one of its name. */
  lemma GenericsFirstLeavesNoneBeside(cs: seq<ConstantInstance>)
    requires GenericsFirst(cs)
    ensures NoBareBeside(Alternatives(cs))
  {
    hide Alternatives, Looked;
    var merged := MergeBooleans(Uniq(cs));
    UniqKeepsGenericsFirst(cs);
    MergingKeepsGenericsFirst(Uniq(cs));
    NoneBesideIff(cs);
    forall c | c in merged && HasGeneric(merged, c.name)
      ensures HasGeneric(Looked(merged, 0), c.name)
    {
      var g :| g in merged && g.genericArguments != [] && g.name == c.name;
      assert [] + merged == merged;
      GenericsAreLookedAt([], merged, g);
    }
  }

  /** The shrinking array makes the sweep skip elements: a bare instance can survive next to a
      generic one of its name. */
  lemma SweepCanSkip() returns (cs: seq<ConstantInstance>)
    ensures var element := ConstantInstance("Integer", false, []);
      && cs == [ConstantInstance("Array", false, []),
                ConstantInstance("Array", false, [Argument([element])]),
                ConstantInstance("Hash", false, [Argument([element]), Argument([element])]),
                ConstantInstance("Hash", false, [])]
      && Alternatives(cs) == cs[1..]
  {
    var element := ConstantInstance("Integer", false, []);
    var bareArray, bareHash := ConstantInstance("Array", false, []), ConstantInstance("Hash", false, []);
    var intArray := ConstantInstance("Array", false, [Argument([element])]);
    var intHash := ConstantInstance("Hash", false, [Argument([element]), Argument([element])]);
    cs := [bareArray, intArray, intHash, bareHash];
    UniqOfDistinct(cs);
    var x3, x2, x1 := [bareArray, intArray, intHash], [bareArray, intArray], [bareArray];
    assert cs[..3] == x3 && x3[..2] == x2 && x2[..1] == x1;
    assert DropBare(x1, "Array") == [] && DropBare(x2, "Array") == [intArray];
    assert DropBare(x3, "Array") == [intArray, intHash];
    assert DropBare(cs, "Array") == [intArray, intHash, bareHash];
    assert Sweep(cs, 1) == Sweep([intArray, intHash, bareHash], 2) == [intArray, intHash, bareHash];
  }

  lemma {:induction false} UniqOfDistinct(cs: seq<ConstantInstance>)
    requires Distinct(cs)
    ensures Uniq(cs) == cs
  {
    if cs != [] {
      UniqOfDistinct(cs[..|cs| - 1]);
    }
  }

  // ---------------------------------------------------------------------------
  // The type of a union

  /** Every generic argument has at least one member; the types of an empty list are not
      defined, and the tracer records arguments for non-empty arrays and hashes only. */
  predicate WellFormed(c: ConstantInstance)
    decreases c
  {
    forall k :: 0 <= k < |c.genericArguments| ==> WellFormedArgument(c.genericArguments[k])
  }

  predicate WellFormedArgument(a: Argument)
    decreases a
  {
    a.members != [] && forall j :: 0 <= j < |a.members| ==> WellFormed(a.members[j])
  }

  lemma AlternativesAreWellFormed(cs: seq<ConstantInstance>)
    requires cs != [] && forall c :: c in cs ==> WellFormed(c)
    ensures Alternatives(cs) != [] && forall c :: c in Alternatives(cs) ==> WellFormed(c)
    ensures forall c :: c in Alternatives(cs) ==> Height(c) <= HeightOfAll(cs) && !IsBoolean(c)
  {
    var merged := MergeBooleans(Uniq(cs));
    UniqMembers(cs);
    MergeBooleansMembers(Uniq(cs));
    SweepMembers(merged, 0);
    MemberHeight(cs, cs[0]);
    assert cs[0] in Uniq(cs);
    assert (if IsBoolean(cs[0]) then BOOL else cs[0]) in merged;
    forall c | c in Alternatives(cs)
      ensures WellFormed(c) && Height(c) <= HeightOfAll(cs) && !IsBoolean(c)
    {
      if c in cs {
        MemberHeight(cs, c);
      } else {
        assert c == BOOL;
      }
    }
  }

  function ToRbs(arity: Arities, cs: seq<ConstantInstance>): RbsType
    requires cs != [] && forall c :: c in cs ==> WellFormed(c)
    decreases HeightOfAll(cs), 1
  {
    var alternatives := Alternatives(cs);
    AlternativesAreWellFormed(cs);
    if |MergeBooleans(Uniq(cs))| > 1
    then Union(seq(|alternatives|, i requires 0 <= i < |alternatives| => ToRbsOne(arity, alternatives[i])))
    else ToRbsOne(arity, alternatives[0])
  }

  /** The members of a written union stand in the order of the given summaries, `bool` last:
      more than one is written as a union of theirs, one as it is. */
  lemma UnionsInOrder(arity: Arities, cs: seq<ConstantInstance>)
    requires cs != [] && forall c :: c in cs ==> WellFormed(c)
    requires forall c :: c in cs ==> c.name != "bool"
    ensures forall a :: a in Alternatives(cs) ==> WellFormed(a)
    ensures
      var unique := Selected(cs, FirstsOnly(cs), |cs|);
      var merged := Selected(unique, NoBooleans(unique), |unique|)
                    + if exists c :: c in cs && c.name in {"TrueClass", "FalseClass"} then [BOOL] else [];
      && IsSubsequence(Alternatives(cs), merged)
      && var t := ToRbs(arity, cs);
         if |merged| > 1 then
           t.Union? && |t.types| == |Alternatives(cs)|
           && forall k :: 0 <= k < |t.types| ==> t.types[k] == ToRbsOne(arity, Alternatives(cs)[k])
         else |Alternatives(cs)| == 1 && t == ToRbsOne(arity, Alternatives(cs)[0])
  {
    hide Sweep, Uniq, WithoutBooleans, Selected, ToRbsOne, WellFormed;
    AlternativesAreWellFormed(cs);
    NormalisedUnion(cs);
    MergedInOrder(cs);
  }

  /** The types of t are, in order, those of the instances at the given indices, each the first of
      its kind, and then `bool` or nothing. */
  ghost predicate StandsFor(arity: Arities, t: RbsType, cs: seq<ConstantInstance>, idx: seq<nat>)
    requires forall c :: c in cs ==> WellFormed(c)
  {
    var types := if t.Union? then t.types else [t];
    && Ascending(idx, |cs|) && |types| <= |idx| + 1 && |idx| <= |types|
    && (forall k :: 0 <= k < |idx| ==> types[k] == ToRbsOne(arity, cs[idx[k]]) && cs[idx[k]] !in cs[..idx[k]])
    && (|types| > |idx| ==> types[|idx|] == BoolType)
  }

  lemma {:induction false} SubsequenceAt<T>(r: seq<T>, cs: seq<T>) returns (idx: seq<nat>)
    requires IsSubsequence(r, cs)
    ensures Ascending(idx, |cs|) && |idx| == |r| && forall k :: 0 <= k < |idx| ==> r[k] == cs[idx[k]]
    decreases |cs|
  {
    if r == [] {
      idx := [];
    } else if r[|r| - 1] == cs[|cs| - 1] {
      idx := SubsequenceAt(r[..|r| - 1], cs[..|cs| - 1]);
      idx := idx + [|cs| - 1];
    } else {
      idx := SubsequenceAt(r, cs[..|cs| - 1]);
    }
  }

  /** The list holds, in order, the instances at the given indices, each the first of its kind, and
      then `bool` or nothing. */
  ghost predicate ListsFirsts(list: seq<ConstantInstance>, cs: seq<ConstantInstance>, idx: seq<nat>) {
    && Ascending(idx, |cs|) && |idx| <= |list| <= |idx| + 1
    && (forall k :: 0 <= k < |idx| ==> list[k] == cs[idx[k]] && cs[idx[k]] !in cs[..idx[k]])
    && (|list| > |idx| ==> list[|idx|] == BOOL)
  }

  lemma MergedAt(cs: seq<ConstantInstance>) returns (idx: seq<nat>)
    requires forall c :: c in cs ==> c.name != "bool"
    ensures ListsFirsts(MergeBooleans(Uniq(cs)), cs, idx)
  {
    hide Uniq, MergeBooleans, Selected, NoBooleans;
    MergedInOrder(cs);
    var unique := Selected(cs, FirstsOnly(cs), |cs|);
    var a := SelectedAt(cs, FirstsOnly(cs), |cs|);
    var b := SelectedAt(unique, NoBooleans(unique), |unique|);
    idx := seq(|b|, k requires 0 <= k < |b| => a[b[k]]);
  }

  lemma PartOfListAt(part: seq<ConstantInstance>, list: seq<ConstantInstance>, cs: seq<ConstantInstance>, at: seq<nat>)
    returns (idx: seq<nat>)
    requires ListsFirsts(list, cs, at) && IsSubsequence(part, list)
    ensures ListsFirsts(part, cs, idx)
  {
    var sub := SubsequenceAt(part, list);
    hide IsSubsequence;
    var n := if sub != [] && sub[|sub| - 1] == |at| then |sub| - 1 else |sub|;
    idx := seq(n, k requires 0 <= k < n => assert sub[k] < |at|; at[sub[k]]);
  }

  /** A written type stands for the first occurrences, in order, of the instances it stands for. */
  lemma TypesStandInOrder(arity: Arities, cs: seq<ConstantInstance>) returns (idx: seq<nat>)
    requires cs != [] && forall c :: c in cs ==> WellFormed(c)
    requires forall c :: c in cs ==> c.name != "bool"
    ensures StandsFor(arity, ToRbs(arity, cs), cs, idx)
  {
    hide Sweep, Uniq, MergeBooleans, Selected, WellFormed, IsSubsequence, Alternatives, ToRbs;
    UnionsInOrder(arity, cs);
    NormalisedUnion(cs);
    var at := MergedAt(cs);
    idx := PartOfListAt(Alternatives(cs), MergeBooleans(Uniq(cs)), cs, at);
    hide ListsFirsts, IsSubsequence;
    ListedTypes(arity, cs, idx, ToRbs(arity, cs));
  }

  lemma ListedTypes(arity: Arities, cs: seq<ConstantInstance>, idx: seq<nat>, t: RbsType)
    requires forall c :: c in cs ==> WellFormed(c)
    requires forall c :: c in Alternatives(cs) ==> WellFormed(c)
    requires ListsFirsts(Alternatives(cs), cs, idx)
    requires if t.Union? then |t.types| == |Alternatives(cs)|
                              && forall k :: 0 <= k < |t.types| ==> t.types[k] == ToRbsOne(arity, Alternatives(cs)[k])
             else |Alternatives(cs)| == 1 && t == ToRbsOne(arity, Alternatives(cs)[0])
    ensures StandsFor(arity, t, cs, idx)
  {
    hide Alternatives, WellFormed;
  }

  function ToRbsOne(arity: Arities, c: ConstantInstance): RbsType
    requires WellFormed(c)
    decreases Height(c), 0
  {
    if c.name == "bool" then BoolType
    else if c.name == "NilClass" then NilType
    else if c.singleton then ClassSingleton(c.name)
    else ClassInstance(c.name, GenericArguments(arity, c.name, c.genericArguments))
  }

  function GenericArguments(arity: Arities, name: string, arguments: seq<Argument>): seq<RbsType>
    requires forall k :: 0 <= k < |arguments| ==> WellFormedArgument(arguments[k])
    decreases HeightOfArguments(arguments), 2
  {
    if name !in arity then []
    else if |arguments| == arity[name] then
      seq(|arguments|, k requires 0 <= k < |arguments| =>
        ArgumentHeight(arguments, k);
        assert WellFormedArgument(arguments[k]);
        ToRbs(arity, arguments[k].members))
    else seq(arity[name], k => Untyped)
  }

  /** Class types have as many arguments as the class has parameters, and none for a class the
      environment does not know; unions are not empty. */
  predicate WellKinded(arity: Arities, t: RbsType)
    decreases t
  {
    match t
    case ClassInstance(name, arguments) =>
      |arguments| == (if name in arity then arity[name] else 0)
      && forall k :: 0 <= k < |arguments| ==> WellKinded(arity, arguments[k])
    case Union(types) => types != [] && forall k :: 0 <= k < |types| ==> WellKinded(arity, types[k])
    case _ => true
  }

  /** Every generated type is well kinded, through all levels of generics. */
  lemma {:induction false} TypesAreWellKinded(arity: Arities, cs: seq<ConstantInstance>)
    requires cs != [] && forall c :: c in cs ==> WellFormed(c)
    ensures WellKinded(arity, ToRbs(arity, cs))
    decreases HeightOfAll(cs), 1
  {
    hide Alternatives, MergeBooleans, Uniq, HeightOfAll, WellFormed;
    AlternativesAreWellFormed(cs);
    var alternatives := Alternatives(cs);
    forall i | 0 <= i < |alternatives|
      ensures WellKinded(arity, ToRbsOne(arity, alternatives[i]))
    {
      OneIsWellKinded(arity, alternatives[i]);
    }
  }

  lemma {:induction false} OneIsWellKinded(arity: Arities, c: ConstantInstance)
    requires WellFormed(c)
    ensures WellKinded(arity, ToRbsOne(arity, c))
    decreases Height(c), 0
  {
    var arguments := c.genericArguments;
    if c.name in arity && |arguments| == arity[c.name] {
      forall k | 0 <= k < |arguments|
        ensures WellKinded(arity, GenericArguments(arity, c.name, arguments)[k])
      {
        ArgumentHeight(arguments, k);
        assert WellFormedArgument(arguments[k]);
        TypesAreWellKinded(arity, arguments[k].members);
      }
    }
  }

  lemma {:induction false} UniqShrinks(cs: seq<ConstantInstance>)
    ensures |Uniq(cs)| <= |cs|
  {
    if cs != [] {
      UniqShrinks(cs[..|cs| - 1]);
    }
  }

  lemma {:induction false} WithoutBooleansShrinks(cs: seq<ConstantInstance>)
    ensures |WithoutBooleans(cs)| <= |cs|
    ensures (exists c :: c in cs && IsBoolean(c)) ==> |WithoutBooleans(cs)| < |cs|
  {
    if cs != [] {
      WithoutBooleansShrinks(cs[..|cs| - 1]);
      assert cs == cs[..|cs| - 1] + [cs[|cs| - 1]];
    }
  }

  lemma MergingShrinks(cs: seq<ConstantInstance>)
    ensures |MergeBooleans(Uniq(cs))| <= |cs|
  {
    UniqShrinks(cs);
    WithoutBooleansShrinks(Uniq(cs));
  }

  lemma AlternativesOfOne(c: ConstantInstance)
    requires !IsBoolean(c)
    ensures MergeBooleans(Uniq([c])) == [c] && Alternatives([c]) == [c]
  {
    UniqOfDistinct([c]);
  }

  /** The conversion as it is computed, on an array that it edits while walking over it. */
  method ToRbsType(arity: Arities, given: seq<ConstantInstance>) returns (t: RbsType)
    requires given != [] && forall c :: c in given ==> WellFormed(c)
    ensures t == ToRbs(arity, given)
    decreases HeightOfAll(given), if |given| > 1 then 3 else 1
  {
    hide Sweep, Uniq, WithoutBooleans, DropBare, HeightOfAll, HeightOfArguments, WellFormed;
    var constants := Uniq(given);
    var hasBoolean := HasBoolean(constants);
    if hasBoolean {
      constants := WithoutBooleans(constants) + [BOOL];
    }
    assert constants == MergeBooleans(Uniq(given));
    AlternativesAreWellFormed(given);
    if |constants| > 1 {
      MergingShrinks(given);
      constants := DeleteWhileIterating(constants);
      var types := MapToRbs(arity, constants, HeightOfAll(given));
      t := Union(types);
      return;
    }
    var constant := constants[0];
    if constant.name == "bool" {
      t := BoolType;
    } else if constant.name == "NilClass" {
      t := NilType;
    } else if constant.singleton {
      t := ClassSingleton(constant.name);
    } else {
      var arguments := GenericArgumentsOfClass(arity, constant);
      t := ClassInstance(constant.name, arguments);
    }
  }

  method HasBoolean(constants: seq<ConstantInstance>) returns (found: bool)
    ensures found <==> exists c :: c in constants && IsBoolean(c)
  {
    found := false;
    for k := 0 to |constants|
      invariant found <==> exists j :: 0 <= j < k && IsBoolean(constants[j])
    {
      if constants[k].name == "TrueClass" || constants[k].name == "FalseClass" {
        found := true;
      }
    }
  }

  method DeleteWhileIterating(given: seq<ConstantInstance>) returns (constants: seq<ConstantInstance>)
    ensures constants == Sweep(given, 0)
  {
    constants := given;
    var i := 0;
    while i < |constants|
      invariant Sweep(constants, i) == Sweep(given, 0)
      decreases |constants| - i
    {
      if constants[i].genericArguments != [] {
        constants := DropBare(constants, constants[i].name);
      }
      i := i + 1;
    }
  }

  method MapToRbs(arity: Arities, constants: seq<ConstantInstance>, ghost height: nat)
    returns (types: seq<RbsType>)
    requires forall c :: c in constants ==> WellFormed(c) && !IsBoolean(c) && Height(c) <= height
    ensures |types| == |constants| && forall j :: 0 <= j < |types| ==> types[j] == ToRbsOne(arity, constants[j])
    decreases height, 2
  {
    types := [];
    for j := 0 to |constants|
      invariant |types| == j && forall k :: 0 <= k < j ==> types[k] == ToRbsOne(arity, constants[k])
    {
      HeightBound([constants[j]], Height(constants[j]));
      AlternativesOfOne(constants[j]);
      var t := ToRbsType(arity, [constants[j]]);
      types := types + [t];
    }
  }

  lemma UnfoldWellFormed(c: ConstantInstance)
    requires WellFormed(c)
    ensures forall k :: 0 <= k < |c.genericArguments| ==> WellFormedArgument(c.genericArguments[k])
  {
  }

  lemma UnfoldWellFormedArgument(a: Argument)
    requires WellFormedArgument(a)
    ensures a.members != [] && forall c :: c in a.members ==> WellFormed(c)
  {
  }

  method GenericArgumentsOfClass(arity: Arities, c: ConstantInstance) returns (types: seq<RbsType>)
    requires WellFormed(c)
    ensures types == GenericArguments(arity, c.name, c.genericArguments)
    decreases Height(c), 0
  {
    hide ToRbs, HeightOfAll, HeightOfArguments, WellFormed, WellFormedArgument;
    types := [];
    UnfoldWellFormed(c);
    if c.name !in arity {
      return;
    }
    if |c.genericArguments| == arity[c.name] {
      for k := 0 to |c.genericArguments|
        invariant |types| == k
        invariant forall i :: 0 <= i < k ==> types[i] == GenericArguments(arity, c.name, c.genericArguments)[i]
      {
        ArgumentHeight(c.genericArguments, k);
        UnfoldWellFormedArgument(c.genericArguments[k]);
        var t := ToRbsType(arity, c.genericArguments[k].members);
        types := types + [t];
      }
    } else {
      types := seq(arity[c.name], k => Untyped);
    }
  }
}
