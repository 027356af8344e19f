/** The parameter record of an RBS function, built from lists of observed parameters. */
module Parameters {
  import opened Traces
  import opened RbsTypes
  import opened Selection

  datatype RbsParam = RbsParam(name: Option<string>, rbsType: RbsType)

  datatype Record = Record(
    required: seq<RbsParam>, optional: seq<RbsParam>, rest: Option<RbsParam>, trailing: seq<RbsParam>,
    requiredKeywords: map<Option<string>, RbsType>, optionalKeywords: map<Option<string>, RbsType>,
    restKeywords: Option<RbsParam>)

  const NO_PARAMETERS := Record([], [], None, [], map[], map[], None)

  /** A parameter with its kind and its type. */
  datatype Slot = Slot(kind: ParamKind, name: Option<string>, rbsType: RbsType)

  // ---------------------------------------------------------------------------
  // Types of parameters

  predicate SameSizes(sets: seq<seq<Param>>) {
    forall k :: 0 <= k < |sets| ==> |sets[k]| == |sets[0]|
  }

  ghost predicate WellFormedSets(sets: seq<seq<Param>>) {
    sets != [] && forall k, n :: 0 <= k < |sets| && 0 <= n < |sets[k]| ==> WellFormed(sets[k][n].typeName)
  }

  function TypesAt(sets: seq<seq<Param>>, n: nat): seq<ConstantInstance>
    requires sets != [] && SameSizes(sets) && n < |sets[0]|
  {
    seq(|sets|, k requires 0 <= k < |sets| => sets[k][n].typeName)
  }

  /** The type of what argument k of a class with `size` arguments holds: untyped if the
      first observed instance has another number of arguments. */
  function ElementType(arity: Arities, c: ConstantInstance, size: nat, k: nat): RbsType
    requires WellFormed(c) && k < size
  {
    if |c.genericArguments| == size then
      assert WellFormedArgument(c.genericArguments[k]);
      ToRbs(arity, c.genericArguments[k].members)
    else Untyped
  }

  function SlotAt(arity: Arities, sets: seq<seq<Param>>, n: nat): Slot
    requires WellFormedSets(sets) && SameSizes(sets) && n < |sets[0]|
  {
    var p := sets[0][n];
    var types := TypesAt(sets, n);
    match p.kind
    case Rest => Slot(Rest, if p.name == Some("*") then None else p.name, ElementType(arity, types[0], 1, 0))
    case KeywordRest =>
      Slot(KeywordRest, if p.name == Some("**") then None else p.name, ElementType(arity, types[0], 2, 1))
    case _ => Slot(p.kind, p.name, ToRbs(arity, types))
  }

  function SlotsOf(arity: Arities, sets: seq<seq<Param>>): (slots: seq<Slot>)
    requires WellFormedSets(sets) && SameSizes(sets)
  {
    seq(|sets[0]|, n requires 0 <= n < |sets[0]| => SlotAt(arity, sets, n))
  }

  // ---------------------------------------------------------------------------
  // Building the record

  function Place(r: Record, s: Slot): Record {
    var p := RbsParam(s.name, s.rbsType);
    match s.kind
    case Required =>
      if r.rest.Some? then r.(trailing := r.trailing + [p]) else r.(required := r.required + [p])
    case Optional => r.(optional := r.optional + [p])
    case Rest => r.(rest := Some(p))
    case KeywordRequired => r.(requiredKeywords := r.requiredKeywords[s.name := s.rbsType])
    case KeywordOptional => r.(optionalKeywords := r.optionalKeywords[s.name := s.rbsType])
    case KeywordRest => r.(restKeywords := Some(p))
  }

  function RecordOf(slots: seq<Slot>): Record {
    if slots == [] then NO_PARAMETERS else Place(RecordOf(slots[..|slots| - 1]), slots[|slots| - 1])
  }

  /** The record for parameter lists of one size; lists of different sizes are given up on. */
  function ParametersOf(arity: Arities, sets: seq<seq<Param>>): Record
    requires WellFormedSets(sets)
  {
    if SameSizes(sets) then RecordOf(SlotsOf(arity, sets)) else NO_PARAMETERS
  }

  method MethodParameters(arity: Arities, sets: seq<seq<Param>>) returns (r: Record)
    requires WellFormedSets(sets)
    ensures r == ParametersOf(arity, sets)
  {
    hide ToRbs, WellFormed;
    r := NO_PARAMETERS;
    var size := |sets[0]|;
    for k := 0 to |sets|
      invariant forall j :: 0 <= j < k ==> |sets[j]| == size
    {
      if |sets[k]| != size {
        return;
      }
    }
    ghost var slots := SlotsOf(arity, sets);
    for n := 0 to size
      invariant r == RecordOf(slots[..n])
    {
      assert slots[..n + 1][..n] == slots[..n];
      assert slots[n] == SlotAt(arity, sets, n);
      var kind, name := sets[0][n].kind, sets[0][n].name;
      var types := TypesAt(sets, n);
      assert forall k :: 0 <= k < |types| ==> WellFormed(sets[k][n].typeName);
      match kind
      case Required =>
        var t := ToRbsType(arity, types);
        if r.rest.Some? {
          r := r.(trailing := r.trailing + [RbsParam(name, t)]);
        } else {
          r := r.(required := r.required + [RbsParam(name, t)]);
        }
      case Optional =>
        var t := ToRbsType(arity, types);
        r := r.(optional := r.optional + [RbsParam(name, t)]);
      case Rest =>
        var t := TypeOfElements(arity, types[0], 1, 0);
        r := r.(rest := Some(RbsParam(if name == Some("*") then None else name, t)));
      case KeywordRequired =>
        var t := ToRbsType(arity, types);
        r := r.(requiredKeywords := r.requiredKeywords[name := t]);
      case KeywordOptional =>
        var t := ToRbsType(arity, types);
        r := r.(optionalKeywords := r.optionalKeywords[name := t]);
      case KeywordRest =>
        var t := TypeOfElements(arity, types[0], 2, 1);
        r := r.(restKeywords := Some(RbsParam(if name == Some("**") then None else name, t)));
    }
    assert slots[..size] == slots;
  }

  method TypeOfElements(arity: Arities, c: ConstantInstance, size: nat, k: nat) returns (t: RbsType)
    requires WellFormed(c) && k < size
    ensures t == ElementType(arity, c, size, k)
  {
    if |c.genericArguments| == size {
      assert WellFormedArgument(c.genericArguments[k]);
      t := ToRbsType(arity, c.genericArguments[k].members);
    } else {
      t := Untyped;
    }
  }

  // ---------------------------------------------------------------------------
  // What the record keeps

  predicate IsPositional(kind: ParamKind) {
    kind == Required || kind == Optional || kind == Rest
  }

  predicate HasKind(slots: seq<Slot>, kind: ParamKind) {
    exists s :: s in slots && s.kind == kind
  }

  function PositionalOnly(slots: seq<Slot>): seq<Slot> {
    if slots == [] then [] else
    PositionalOnly(slots[..|slots| - 1]) + if IsPositional(slots[|slots| - 1].kind) then [slots[|slots| - 1]] else []
  }

  function WithKind(params: seq<RbsParam>, kind: ParamKind): (slots: seq<Slot>)
    ensures |slots| == |params|
  {
    seq(|params|, i requires 0 <= i < |params| => Slot(kind, params[i].name, params[i].rbsType))
  }

  /** The positional parameters in the order RBS reads them from a record. */
  function Positionals(r: Record): seq<Slot> {
    WithKind(r.required, Required) + WithKind(r.optional, Optional)
    + (match r.rest case None => [] case Some(p) => [Slot(Rest, p.name, p.rbsType)])
    + WithKind(r.trailing, Required)
  }

  /** A required positional follows an optional one only after a rest parameter, and nothing
      but required positionals follow a rest parameter. */
  predicate InOrder(slots: seq<Slot>) {
    if slots == [] then true else
    var front, s := slots[..|slots| - 1], slots[|slots| - 1];
    InOrder(front)
    && match s.kind
       case Required => HasKind(front, Optional) ==> HasKind(front, Rest)
       case Optional => !HasKind(front, Rest)
       case Rest => !HasKind(front, Rest)
       case _ => true
  }

  lemma {:induction false} PositionalOnlyKinds(slots: seq<Slot>)
    ensures forall kind :: IsPositional(kind) ==> (HasKind(PositionalOnly(slots), kind) <==> HasKind(slots, kind))
  {
    if slots != [] {
      var front := slots[..|slots| - 1];
      PositionalOnlyKinds(front);
      assert slots == front + [slots[|slots| - 1]];
      forall kind | IsPositional(kind)
        ensures HasKind(PositionalOnly(slots), kind) <==> HasKind(slots, kind)
      {
        HasKindSnoc(front, slots[|slots| - 1], kind);
        HasKindSnoc(PositionalOnly(front), slots[|slots| - 1], kind);
      }
    }
  }

  lemma NoKinds()
    ensures forall kind :: !HasKind([], kind)
  {
  }

  lemma HasKindSnoc(slots: seq<Slot>, s: Slot, kind: ParamKind)
    ensures HasKind(slots + [s], kind) <==> HasKind(slots, kind) || s.kind == kind
  {
    if HasKind(slots, kind) {
      var x :| x in slots && x.kind == kind;
      assert x in slots + [s];
    }
    assert s in slots + [s];
  }

  lemma {:induction false} OrderIgnoresKeywords(slots: seq<Slot>)
    ensures InOrder(PositionalOnly(slots)) <==> InOrder(slots)
  {
    hide HasKind;
    if slots != [] {
      var front, s := slots[..|slots| - 1], slots[|slots| - 1];
      OrderIgnoresKeywords(front);
      PositionalOnlyKinds(front);
      if IsPositional(s.kind) {
        assert PositionalOnly(slots) == PositionalOnly(front) + [s];
        assert PositionalOnly(slots)[..|PositionalOnly(slots)| - 1] == PositionalOnly(front);
      } else {
        assert PositionalOnly(slots) == PositionalOnly(front);
      }
    }
  }

  /** What is in the record, by kind. */
  lemma {:induction false} RecordFields(slots: seq<Slot>)
    ensures
      var r := RecordOf(slots);
      && (r.optional != [] <==> HasKind(slots, Optional))
      && (r.rest.Some? <==> HasKind(slots, Rest))
      && (r.trailing != [] ==> r.rest.Some?)
  {
    hide HasKind;
    if slots != [] {
      var front, s := slots[..|slots| - 1], slots[|slots| - 1];
      RecordFields(front);
      assert slots == front + [s];
      HasKindSnoc(front, s, Optional);
      HasKindSnoc(front, s, Rest);
    } else {
      NoKinds();
    }
  }

  lemma {:induction false} PlainInOrder(slots: seq<Slot>, n: nat, kind: ParamKind)
    requires n <= |slots| && InOrder(slots[..n])
    requires kind == Required || kind == Optional
    requires forall i :: n <= i < |slots| ==> slots[i].kind == kind
    requires kind == Required ==> (HasKind(slots[..n], Optional) ==> HasKind(slots[..n], Rest))
    requires kind == Optional ==> !HasKind(slots[..n], Rest)
    ensures InOrder(slots)
    ensures forall k :: k != kind ==> (HasKind(slots, k) <==> HasKind(slots[..n], k))
    decreases |slots|
  {
    if n == |slots| {
      assert slots[..n] == slots;
    } else {
      var front := slots[..|slots| - 1];
      assert front[..n] == slots[..n];
      PlainInOrder(front, n, kind);
      assert slots == front + [slots[|slots| - 1]];
    }
  }

  lemma NothingIsInOrder()
    ensures InOrder([])
  {
  }

  lemma EndsWithRest(slots: seq<Slot>, s: Slot)
    requires InOrder(slots) && !HasKind(slots, Rest) && s.kind == Rest
    ensures InOrder(slots + [s]) && HasKind(slots + [s], Rest)
  {
    HasKindSnoc(slots, s, Rest);
  }

  /** Every record can only represent an ordered list. */
  lemma PositionalsAreInOrder(r: Record)
    requires r.trailing != [] ==> r.rest.Some?
    ensures InOrder(Positionals(r))
  {
    hide HasKind, InOrder;
    var required, optional := WithKind(r.required, Required), WithKind(r.optional, Optional);
    var rest := match r.rest case None => [] case Some(p) => [Slot(Rest, p.name, p.rbsType)];
    var trailing := WithKind(r.trailing, Required);
    assert required[..0] == [];
    NoKinds();
    assert InOrder([]) by { NothingIsInOrder(); }
    PlainInOrder(required, 0, Required);
    assert (required + optional)[..|required|] == required;
    PlainInOrder(required + optional, |required|, Optional);
    var upToRest := required + optional + rest;
    if r.rest.Some? {
      EndsWithRest(required + optional, rest[0]);
    } else {
      assert upToRest == required + optional;
    }
    assert Positionals(r) == upToRest + trailing;
    assert (upToRest + trailing)[..|upToRest|] == upToRest;
    if trailing != [] {
      PlainInOrder(upToRest + trailing, |upToRest|, Required);
    } else {
      assert upToRest + trailing == upToRest;
    }
  }

  lemma {:induction false} OrderedListsAreKept(slots: seq<Slot>)
    requires InOrder(slots)
    ensures Positionals(RecordOf(slots)) == PositionalOnly(slots)
  {
    if slots != [] {
      var front, s := slots[..|slots| - 1], slots[|slots| - 1];
      OrderedListsAreKept(front);
      RecordFields(front);
      PlacedLast(RecordOf(front), s);
    }
  }

  lemma PlacedLast(r: Record, s: Slot)
    requires s.kind == Required && r.optional != [] ==> r.rest.Some?
    requires s.kind == Optional || s.kind == Rest ==> r.rest == None
    requires r.trailing != [] ==> r.rest.Some?
    ensures Positionals(Place(r, s)) == Positionals(r) + if IsPositional(s.kind) then [s] else []
  {
  }

  /** The record determines the positional parameters in order, none lost and none twice, if
      and only if a required one follows an optional one only after a rest parameter (Ruby
      itself allows nothing else after a rest parameter). */
  lemma RecordKeepsPositionals(slots: seq<Slot>)
    ensures Positionals(RecordOf(slots)) == PositionalOnly(slots) <==> InOrder(slots)
  {
    RecordFields(slots);
    PositionalsAreInOrder(RecordOf(slots));
    OrderIgnoresKeywords(slots);
    if InOrder(slots) {
      OrderedListsAreKept(slots);
    }
  }

  predicate IsKeyword(kind: ParamKind) {
    kind == KeywordRequired || kind == KeywordOptional
  }

  /** No two keyword parameters share a name. */
  ghost predicate DistinctKeywords(slots: seq<Slot>) {
    forall i, j :: 0 <= i < j < |slots| && IsKeyword(slots[i].kind) && IsKeyword(slots[j].kind) ==>
      slots[i].name != slots[j].name
  }

  function Keywords(r: Record, kind: ParamKind): map<Option<string>, RbsType>
    requires IsKeyword(kind)
  {
    if kind == KeywordRequired then r.requiredKeywords else r.optionalKeywords
  }

  lemma PlacedKeyword(r: Record, s: Slot, kind: ParamKind)
    requires IsKeyword(kind)
    ensures Keywords(Place(r, s), kind)
         == if s.kind == kind then Keywords(r, kind)[s.name := s.rbsType] else Keywords(r, kind)
  {
  }

  lemma NoKeywords(kind: ParamKind)
    requires IsKeyword(kind)
    ensures Keywords(NO_PARAMETERS, kind) == map[]
  {
  }

  /** The record holds exactly the keyword parameters, each with its type. */
  lemma {:induction false} RecordKeepsKeywords(slots: seq<Slot>, kind: ParamKind, name: Option<string>, t: RbsType)
    requires DistinctKeywords(slots) && IsKeyword(kind)
    ensures Slot(kind, name, t) in slots <==>
              name in Keywords(RecordOf(slots), kind) && Keywords(RecordOf(slots), kind)[name] == t
  {
    hide Place, Keywords;
    if slots != [] {
      var front, s := slots[..|slots| - 1], slots[|slots| - 1];
      RecordKeepsKeywords(front, kind, name, t);
      PlacedKeyword(RecordOf(front), s, kind);
      assert slots == front + [s];
      if s.kind == kind && s.name == name {
        assert forall i :: 0 <= i < |front| && IsKeyword(front[i].kind) ==> front[i].name != name;
      }
    } else {
      NoKeywords(kind);
    }
  }

  // ---------------------------------------------------------------------------
  // Which names are written where

  /** Some rest parameter stands before index i. */
  predicate RestBefore(ps: seq<Param>, i: nat)
    requires i <= |ps|
  {
    exists j :: 0 <= j < i && ps[j].kind == Rest
  }

  /** The indices of parameters that are written as required ones, before or behind the rest
      parameter, and as optional ones. */
  function RequiredAt(ps: seq<Param>): nat -> bool {
    (i: nat) => i < |ps| && ps[i].kind == Required && !RestBefore(ps, i)
  }

  function TrailingAt(ps: seq<Param>): nat -> bool {
    (i: nat) => i < |ps| && ps[i].kind == Required && RestBefore(ps, i)
  }

  function OptionalAt(ps: seq<Param>): nat -> bool {
    (i: nat) => i < |ps| && ps[i].kind == Optional
  }

  function Names(ps: seq<Param>): (r: seq<Option<string>>)
    ensures |r| == |ps| && forall i :: 0 <= i < |ps| ==> r[i] == ps[i].name
  {
    seq(|ps|, i requires 0 <= i < |ps| => ps[i].name)
  }

  function NamesOf(params: seq<RbsParam>): (r: seq<Option<string>>)
    ensures |r| == |params|
  {
    seq(|params|, i requires 0 <= i < |params| => params[i].name)
  }

  lemma NamesOfSnoc(params: seq<RbsParam>, p: RbsParam)
    ensures NamesOf(params + [p]) == NamesOf(params) + [p.name]
  {
  }

  /** What is written for a rest parameter named so in Ruby: nothing for an anonymous one. */
  predicate Written(p: Param, name: Option<string>) {
    name == if (p.kind == Rest && p.name == Some("*")) || (p.kind == KeywordRest && p.name == Some("**"))
            then None else p.name
  }

  /** The record of the first n parameters holds the names of the observed ones: positional ones
      in order, keywords by name, and the last rest parameters. */
  ghost predicate HoldsNames(r: Record, ps: seq<Param>, n: nat)
    requires n <= |ps|
  {
    && NamesOf(r.required) == Selected(Names(ps), RequiredAt(ps), n)
    && NamesOf(r.trailing) == Selected(Names(ps), TrailingAt(ps), n)
    && NamesOf(r.optional) == Selected(Names(ps), OptionalAt(ps), n)
    && HoldsRest(r.rest, ps, n, Rest) && HoldsRest(r.restKeywords, ps, n, KeywordRest)
    && HoldsKeywords(r.requiredKeywords, ps, n, KeywordRequired)
    && HoldsKeywords(r.optionalKeywords, ps, n, KeywordOptional)
  }

  ghost predicate HoldsRest(rest: Option<RbsParam>, ps: seq<Param>, n: nat, kind: ParamKind)
    requires n <= |ps|
  {
    match rest
    case None => forall i :: 0 <= i < n ==> ps[i].kind != kind
    case Some(p) =>
      exists i :: 0 <= i < n && ps[i].kind == kind && Written(ps[i], p.name)
                  && forall j :: i < j < n ==> ps[j].kind != kind
  }

  ghost predicate HoldsKeywords(keywords: map<Option<string>, RbsType>, ps: seq<Param>, n: nat, kind: ParamKind)
    requires n <= |ps|
  {
    forall name :: name in keywords <==> exists i :: 0 <= i < n && ps[i].kind == kind && ps[i].name == name
  }

  lemma SlotIsNamed(arity: Arities, sets: seq<seq<Param>>, n: nat)
    requires WellFormedSets(sets) && SameSizes(sets) && n < |sets[0]|
    ensures SlotAt(arity, sets, n).kind == sets[0][n].kind && Written(sets[0][n], SlotAt(arity, sets, n).name)
  {
    hide ToRbs, WellFormed, ElementType;
  }

  lemma {:induction false} NamesUpTo(arity: Arities, sets: seq<seq<Param>>, n: nat)
    requires WellFormedSets(sets) && SameSizes(sets) && n <= |sets[0]|
    ensures HoldsNames(RecordOf(SlotsOf(arity, sets)[..n]), sets[0], n)
  {
    hide SlotAt, Place, HoldsNames, WellFormed;
    var slots := SlotsOf(arity, sets);
    if n == 0 {
      NothingIsNamed(sets[0]);
    } else {
      NamesUpTo(arity, sets, n - 1);
      SlotIsNamed(arity, sets, n - 1);
      assert slots[..n][..n - 1] == slots[..n - 1] && slots[n - 1] == SlotAt(arity, sets, n - 1);
      PlacingNames(RecordOf(slots[..n - 1]), slots[n - 1], sets[0], n - 1);
    }
  }

  lemma NothingIsNamed(ps: seq<Param>)
    ensures HoldsNames(NO_PARAMETERS, ps, 0)
  {
  }

  lemma RestIsKnown(r: Record, ps: seq<Param>, n: nat)
    requires n <= |ps| && HoldsRest(r.rest, ps, n, Rest)
    ensures r.rest.Some? <==> RestBefore(ps, n)
  {
  }

  lemma PlacingNames(r: Record, s: Slot, ps: seq<Param>, n: nat)
    requires n < |ps| && HoldsNames(r, ps, n) && s.kind == ps[n].kind && Written(ps[n], s.name)
    ensures HoldsNames(Place(r, s), ps, n + 1)
  {
    hide HoldsRest, HoldsKeywords, NamesOf, RestBefore;
    var p, q := RbsParam(s.name, s.rbsType), ps[n];
    RestIsKnown(r, ps, n);
    NamesOfSnoc(r.required, p);
    NamesOfSnoc(r.trailing, p);
    NamesOfSnoc(r.optional, p);
    PlacingRest(r.rest, p, ps, n, Rest);
    PlacingRest(r.restKeywords, p, ps, n, KeywordRest);
    PlacingKeyword(r.requiredKeywords, s, ps, n, KeywordRequired);
    PlacingKeyword(r.optionalKeywords, s, ps, n, KeywordOptional);
  }

  lemma PlacingRest(rest: Option<RbsParam>, p: RbsParam, ps: seq<Param>, n: nat, kind: ParamKind)
    requires n < |ps| && HoldsRest(rest, ps, n, kind) && (kind == ps[n].kind ==> Written(ps[n], p.name))
    ensures HoldsRest(if ps[n].kind == kind then Some(p) else rest, ps, n + 1, kind)
  {
    hide Written;
    if ps[n].kind != kind && rest.Some? {
      var i :| 0 <= i < n && ps[i].kind == kind && Written(ps[i], rest.value.name)
               && forall j :: i < j < n ==> ps[j].kind != kind;
      assert forall j :: i < j < n + 1 ==> ps[j].kind != kind;
    }
  }

  lemma PlacingKeyword(keywords: map<Option<string>, RbsType>, s: Slot, ps: seq<Param>, n: nat, kind: ParamKind)
    requires n < |ps| && IsKeyword(kind) && HoldsKeywords(keywords, ps, n, kind)
    requires s.kind == ps[n].kind && Written(ps[n], s.name)
    ensures HoldsKeywords(if ps[n].kind == kind then keywords[s.name := s.rbsType] else keywords, ps, n + 1, kind)
  {
    var keywords' := if ps[n].kind == kind then keywords[s.name := s.rbsType] else keywords;
    forall name
      ensures name in keywords' <==> exists i :: 0 <= i < n + 1 && ps[i].kind == kind && ps[i].name == name
    {
      if name in keywords' && !(ps[n].kind == kind && ps[n].name == name) {
        var i :| 0 <= i < n && ps[i].kind == kind && ps[i].name == name;
      }
    }
  }

  /** For every list of parameter lists of one size: the record has, in order, the names of the
      observed required parameters before and behind the rest parameter and of the optional ones,
      exactly the observed keywords, and the rest parameters by their names, none for anonymous
      ones. */
  lemma NamesAreWritten(arity: Arities, sets: seq<seq<Param>>)
    requires WellFormedSets(sets) && SameSizes(sets)
    ensures HoldsNames(ParametersOf(arity, sets), sets[0], |sets[0]|)
  {
    hide WellFormed, HoldsNames, SlotAt;
    NamesUpTo(arity, sets, |sets[0]|);
    assert SlotsOf(arity, sets)[..|sets[0]|] == SlotsOf(arity, sets);
  }
}
