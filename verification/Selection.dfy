/** Picking elements of a list by their index, the measure for what keeps an order. */
module Selection {
  /** The elements at those of the first n indices that are to be kept, in order. */
  function Selected<T>(s: seq<T>, keep: nat -> bool, n: nat): seq<T>
    requires n <= |s|
  {
    if n == 0 then [] else Selected(s, keep, n - 1) + if keep(n - 1) then [s[n - 1]] else []
  }

  ghost predicate Ascending(idx: seq<nat>, n: nat) {
    (forall k :: 0 <= k < |idx| ==> idx[k] < n) && forall k, l :: 0 <= k < l < |idx| ==> idx[k] < idx[l]
  }

  /** The picked elements are those at the given indices, all of them to be kept. */
  ghost predicate Picks<T>(s: seq<T>, keep: nat -> bool, picked: seq<T>, idx: seq<nat>, n: nat) {
    && n <= |s| && |idx| == |picked| && Ascending(idx, n)
    && forall k :: 0 <= k < |idx| ==> keep(idx[k]) && picked[k] == s[idx[k]]
  }

  lemma OneMore<T>(s: seq<T>, keep: nat -> bool, picked: seq<T>, idx: seq<nat>, n: nat)
    requires Picks(s, keep, picked, idx, n) && n < |s|
    ensures Picks(s, keep, picked, idx, n + 1)
    ensures keep(n) ==> Picks(s, keep, picked + [s[n]], idx + [n], n + 1)
  {
  }

  /** Where the selected elements stand. */
  lemma {:induction false} SelectedAt<T>(s: seq<T>, keep: nat -> bool, n: nat) returns (idx: seq<nat>)
    requires n <= |s|
    ensures Picks(s, keep, Selected(s, keep, n), idx, n)
  {
    idx := [];
    if n > 0 {
      hide Picks;
      idx := SelectedAt(s, keep, n - 1);
      OneMore(s, keep, Selected(s, keep, n - 1), idx, n - 1);
      if keep(n - 1) {
        idx := idx + [n - 1];
      }
    }
  }
}
