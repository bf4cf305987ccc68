/**
 The order check of client fingerprints (caddyhttp/httpserver/mitm.go, assertPresenceAndOrdering):
 a greedy walk through one list for the items of another.
 */
module Ordering {

  /** Positions for the items: each holds an equal item, and they never go back. */
  ghost predicate Places(items: seq<int>, list: seq<int>, f: seq<nat>) {
    && |f| == |items|
    && (forall i :: 0 <= i < |f| ==> f[i] < |list| && list[f[i]] == items[i])
    && (forall i :: 0 < i < |f| ==> f[i - 1] <= f[i])
  }

  /** The items can be placed in the list without going back; equal items in a row may share a place. */
  ghost predicate InOrder(items: seq<int>, list: seq<int>) {
    exists f :: Places(items, list, f)
  }

  lemma {:induction false} PlacesPrefix(items: seq<int>, list: seq<int>, f: seq<nat>, i: nat)
    requires Places(items, list, f) && i <= |items|
    ensures Places(items[..i], list, f[..i])
  {
  }

  /** No way of placing the first i items ends before j. */
  ghost predicate NoEarlier(items: seq<int>, list: seq<int>, j: nat) {
    items != [] ==> forall f :: Places(items, list, f) ==> j <= f[|items| - 1]
  }

  /** Decides whether the required items and the candidates agree in order, in either direction. */
  method AssertPresenceAndOrdering(requiredItems: seq<int>, candidateList: seq<int>, requiredIsSubset: bool)
    returns (r: bool)
    ensures r <==> if requiredIsSubset then InOrder(requiredItems, candidateList)
                   else InOrder(candidateList, requiredItems)
  {
    hide Places, NoEarlier;
    var superset, subset := requiredItems, candidateList;
    if requiredIsSubset {
      superset, subset := candidateList, requiredItems;
    }
    var j := 0;
    ghost var f: seq<nat> := [];
    Nothing(subset, superset);
    for i := 0 to |subset|
      invariant j <= |superset| && Places(subset[..i], superset, f) && (f != [] ==> f[|f| - 1] <= j)
      invariant NoEarlier(subset[..i], superset, j) && (i == 0 ==> j == 0)
    {
      var item := subset[i];
      var found := false;
      ghost var start := j;
      while j < |superset| && !found
        invariant start <= j <= |superset| && (found ==> j < |superset| && superset[j] == item)
        invariant forall k :: start <= k < j ==> superset[k] != item
        decreases |superset| - j, !found
      {
        if superset[j] == item {
          found := true;
        } else {
          j := j + 1;
        }
      }
      NextPlace(subset, superset, i, start, j);
      if j == |superset| && !found {
        NoWay(subset, superset, i);
        return false;
      }
      PlaceNext(subset, superset, i, f, j);
      f := f + [j];
    }
    assert subset[..|subset|] == subset;
    return true;
  }

  lemma {:induction false} Nothing(items: seq<int>, list: seq<int>)
    ensures Places(items[..0], list, []) && NoEarlier(items[..0], list, 0)
  {
  }

  lemma {:induction false} PlaceNext(items: seq<int>, list: seq<int>, i: nat, f: seq<nat>, j: nat)
    requires i < |items| && Places(items[..i], list, f) && (f != [] ==> f[|f| - 1] <= j)
    requires j < |list| && list[j] == items[i]
    ensures Places(items[..i + 1], list, f + [j])
  {
  }

  /** Whoever places one item more does so no earlier than the first equal item from there on. */
  lemma {:induction false} NextPlace(items: seq<int>, list: seq<int>, i: nat, start: nat, j: nat)
    requires i < |items| && start <= j <= |list| && NoEarlier(items[..i], list, start)
    requires forall k :: start <= k < j ==> list[k] != items[i]
    requires i == 0 ==> start == 0
    ensures NoEarlier(items[..i + 1], list, j)
  {
    forall f | Places(items[..i + 1], list, f)
      ensures j <= f[i]
    {
      PlacesPrefix(items[..i + 1], list, f, i);
      assert items[..i + 1][..i] == items[..i];
      assert i > 0 ==> f[..i][i - 1] == f[i - 1];
    }
  }

  lemma {:induction false} NoWay(items: seq<int>, list: seq<int>, i: nat)
    requires i < |items| && NoEarlier(items[..i + 1], list, |list|)
    ensures !InOrder(items, list)
  {
    forall f
      ensures !Places(items, list, f)
    {
      if Places(items, list, f) {
        PlacesPrefix(items, list, f, i + 1);
      }
    }
  }

  // ---------------------------------------------------------------------------------------------
  // The ordinary notion
  // ---------------------------------------------------------------------------------------------

  /** Places that go strictly forward: the items are a subsequence of the list. */
  ghost predicate Subsequence(items: seq<int>, list: seq<int>) {
    exists f :: Places(items, list, f) && Forward(f)
  }

  ghost predicate Forward(f: seq<nat>) {
    forall i :: 0 < i < |f| ==> f[i - 1] < f[i]
  }

  predicate NoRepeats(items: seq<int>) {
    forall i :: 0 < i < |items| ==> items[i - 1] != items[i]
  }

  /** The items with equal ones in a row made one. */
  function Collapse(items: seq<int>): (r: seq<int>)
    ensures r == [] <==> items == []
    ensures items != [] ==> r[|r| - 1] == items[|items| - 1]
  {
    if items == [] then []
    else
      var n := |items| - 1;
      var r := Collapse(items[..n]);
      if n > 0 && items[n - 1] == items[n] then r else r + [items[n]]
  }

  lemma {:induction false} CollapseKeeps(items: seq<int>)
    ensures NoRepeats(Collapse(items)) && |Collapse(items)| <= |items|
    ensures Collapse(items) == items <==> NoRepeats(items)
    ensures !NoRepeats(items) ==> |Collapse(items)| < |items|
  {
    hide NoRepeats;
    RepeatsAtEnd([], 0);
    if items != [] {
      var n := |items| - 1;
      CollapseKeeps(items[..n]);
      assert items == items[..n] + [items[n]];
      RepeatsAtEnd(items[..n], items[n]);
      RepeatsAtEnd(Collapse(items[..n]), items[n]);
    }
  }

  lemma {:induction false} RepeatsAtEnd(items: seq<int>, x: int)
    ensures NoRepeats(items + [x]) <==> NoRepeats(items) && (items != [] ==> items[|items| - 1] != x)
    ensures NoRepeats([])
  {
    var more := items + [x];
    if NoRepeats(more) {
      forall i | 0 < i < |items|
        ensures items[i - 1] != items[i]
      {
        assert more[i - 1] == items[i - 1] && more[i] == items[i];
      }
      assert items != [] ==> more[|items| - 1] == items[|items| - 1] && more[|items|] == x;
    }
  }

  /** The check is the ordinary subsequence test on the items with repeats collapsed. */
  lemma {:induction false} InOrderIsCollapsed(items: seq<int>, list: seq<int>)
    ensures InOrder(items, list) <==> Subsequence(Collapse(items), list)
  {
    hide Places, Collapse;
    if InOrder(items, list) {
      var f :| Places(items, list, f);
      var g := Thin(items, list, f);
      assert Places(Collapse(items), list, g) && Forward(g);
    }
    if Subsequence(Collapse(items), list) {
      var g :| Places(Collapse(items), list, g) && Forward(g);
      var f := Spread(items, list, g);
      assert Places(items, list, f);
    }
  }

  lemma {:induction false} Thin(items: seq<int>, list: seq<int>, f: seq<nat>) returns (g: seq<nat>)
    requires Places(items, list, f)
    ensures Places(Collapse(items), list, g) && Forward(g)
    ensures items != [] ==> g[|g| - 1] <= f[|f| - 1]
  {
    if items == [] {
      g := [];
    } else {
      var n := |items| - 1;
      PlacesPrefix(items, list, f, n);
      g := Thin(items[..n], list, f[..n]);
      if n == 0 || items[n - 1] != items[n] {
        assert n > 0 ==> f[..n][n - 1] == f[n - 1] && items[..n][n - 1] == items[n - 1];
        ThinStep(Collapse(items[..n]), list, g, items[n], f[n]);
        g := g + [f[n]];
      }
    }
  }

  lemma {:induction false} ThinStep(items: seq<int>, list: seq<int>, g: seq<nat>, item: int, j: nat)
    requires Places(items, list, g) && Forward(g) && j < |list| && list[j] == item
    requires g != [] ==> g[|g| - 1] <= j && items[|items| - 1] != item
    ensures Places(items + [item], list, g + [j]) && Forward(g + [j])
  {
    assert g != [] ==> list[g[|g| - 1]] == items[|items| - 1];
  }

  lemma {:induction false} Spread(items: seq<int>, list: seq<int>, g: seq<nat>) returns (f: seq<nat>)
    requires Places(Collapse(items), list, g)
    ensures Places(items, list, f)
    ensures items != [] ==> f[|f| - 1] == g[|g| - 1]
  {
    if items == [] {
      f := [];
    } else {
      var n := |items| - 1;
      var c := Collapse(items[..n]);
      assert items == items[..n] + [items[n]];
      if n > 0 && items[n - 1] == items[n] {
        f := Spread(items[..n], list, g);
      } else {
        PlacesPrefix(c + [items[n]], list, g, |c|);
        assert (c + [items[n]])[..|c|] == c;
        f := Spread(items[..n], list, g[..|c|]);
      }
      SpreadStep(items[..n], list, f, items[n], g[|g| - 1]);
      f := f + [g[|g| - 1]];
    }
  }

  lemma {:induction false} SpreadStep(items: seq<int>, list: seq<int>, f: seq<nat>, item: int, j: nat)
    requires Places(items, list, f) && j < |list| && list[j] == item && (f != [] ==> f[|f| - 1] <= j)
    ensures Places(items + [item], list, f + [j])
  {
  }

  /** It is the subsequence test itself, for every list, exactly when no two items in a row are equal. */
  lemma {:induction false} OrdinaryIffNoRepeats(items: seq<int>)
    ensures (forall list :: InOrder(items, list) <==> Subsequence(items, list)) <==> NoRepeats(items)
  {
    hide InOrder, Subsequence, NoRepeats, Collapse;
    CollapseKeeps(items);
    forall list: seq<int>
      ensures InOrder(items, list) <==> Subsequence(Collapse(items), list)
    {
      InOrderIsCollapsed(items, list);
    }
    if !NoRepeats(items) {
      var list := Collapse(items);
      Itself(list);
      TooLong(items, list);
      assert InOrder(items, list) && !Subsequence(items, list);
    }
  }

  lemma {:induction false} Itself(list: seq<int>)
    ensures Subsequence(list, list)
  {
    var f: seq<nat> := seq(|list|, i => i);
    assert Places(list, list, f) && Forward(f);
  }

  lemma {:induction false} TooLong(items: seq<int>, list: seq<int>)
    requires |list| < |items|
    ensures !Subsequence(items, list)
  {
    forall f | Places(items, list, f) && Forward(f)
      ensures false
    {
      Climbs(f, |f| - 1);
    }
  }

  lemma {:induction false} Climbs(f: seq<nat>, i: nat)
    requires Forward(f) && i < |f|
    ensures f[i] >= i
  {
    if i > 0 {
      Climbs(f, i - 1);
    }
  }
}
