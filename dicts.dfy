/**
 * What building a Python dict in a loop does: `{key(x): x for x in xs}` keeps every key
 * once, in the order of its first insertion, and maps it to the last element with that key.
 */
module Dicts {
  import opened Catalog

  /** The keys of `xs`, element by element. */
  function Keys<T>(xs: seq<T>, key: T -> int): (ks: seq<int>)
    ensures |ks| == |xs|
    ensures forall i :: 0 <= i < |xs| ==> ks[i] == key(xs[i])
  {
    if xs == [] then [] else Keys(xs[..|xs| - 1], key) + [key(xs[|xs| - 1])]
  }

  /** The dict `{key(x): x for x in xs}` (a later element overwrites an earlier one). */
  function IndexBy<T>(xs: seq<T>, key: T -> int): (m: map<int, T>)
    ensures forall i :: 0 <= i < |xs| ==> key(xs[i]) in m
    ensures forall k :: k in m ==> key(m[k]) == k
  {
    if xs == [] then map[] else IndexBy(xs[..|xs| - 1], key)[key(xs[|xs| - 1]) := xs[|xs| - 1]]
  }

  /** Every value of the dict is an element of the list. */
  lemma {:induction false} IndexByValuesFromList<T>(xs: seq<T>, key: T -> int)
    ensures forall k :: k in IndexBy(xs, key) ==> IndexBy(xs, key)[k] in xs
  {
    if xs != [] {
      var init := xs[..|xs| - 1];
      IndexByValuesFromList(init, key);
      forall k | k in IndexBy(xs, key) ensures IndexBy(xs, key)[k] in xs {
        if k != key(xs[|xs| - 1]) {
          assert IndexBy(xs, key)[k] == IndexBy(init, key)[k];
          assert IndexBy(init, key)[k] in init;
          assert init == xs[..|xs| - 1];
        }
      }
    }
  }

  /** A later element with the same key overwrites an earlier one: the last occurrence wins. */
  lemma {:induction false} IndexByLastWins<T>(xs: seq<T>, key: T -> int)
    ensures forall i :: 0 <= i < |xs| && (forall j :: i < j < |xs| ==> key(xs[j]) != key(xs[i])) ==>
      IndexBy(xs, key)[key(xs[i])] == xs[i]
  {
    if xs != [] {
      var init := xs[..|xs| - 1];
      IndexByLastWins(init, key);
      forall i | 0 <= i < |xs| && (forall j :: i < j < |xs| ==> key(xs[j]) != key(xs[i]))
        ensures IndexBy(xs, key)[key(xs[i])] == xs[i]
      {
        if i < |xs| - 1 {
          assert xs[i] == init[i];
          assert forall j :: i < j < |init| ==> init[j] == xs[j];
        }
      }
    }
  }

  /** The dict's key order: each key once, at its first insertion. */
  function KeyOrder<T>(xs: seq<T>, key: T -> int): (ks: seq<int>)
    ensures Distinct(ks)
    ensures forall k :: k in ks <==> k in IndexBy(xs, key)
  {
    if xs == [] then []
    else
      var ks0 := KeyOrder(xs[..|xs| - 1], key);
      var k := key(xs[|xs| - 1]);
      if k in ks0 then ks0 else ks0 + [k]
  }

  /** Key `ka` occurs in `xs` before the first occurrence of key `kb`. */
  ghost predicate FirstSeenBefore<T>(xs: seq<T>, key: T -> int, ka: int, kb: int) {
    exists i :: 0 <= i < |xs| && key(xs[i]) == ka && forall j :: 0 <= j <= i ==> key(xs[j]) != kb
  }

  /** The key order is the order of first appearance in `xs`. */
  lemma {:induction false} KeyOrderIsFirstAppearance<T>(xs: seq<T>, key: T -> int)
    ensures forall a, b :: 0 <= a < b < |KeyOrder(xs, key)| ==>
      FirstSeenBefore(xs, key, KeyOrder(xs, key)[a], KeyOrder(xs, key)[b])
  {
    if xs != [] {
      var init := xs[..|xs| - 1];
      KeyOrderIsFirstAppearance(init, key);
      var ks0 := KeyOrder(init, key);
      var ks := KeyOrder(xs, key);
      forall a, b | 0 <= a < b < |ks|
        ensures FirstSeenBefore(xs, key, ks[a], ks[b])
      {
        if b < |ks0| {
          assert ks[a] == ks0[a] && ks[b] == ks0[b];
          assert FirstSeenBefore(init, key, ks0[a], ks0[b]);
          var i :| 0 <= i < |init| && key(init[i]) == ks0[a] && forall j :: 0 <= j <= i ==> key(init[j]) != ks0[b];
          assert xs[i] == init[i];
          assert forall j :: 0 <= j <= i ==> xs[j] == init[j];
        } else {
          // ks[b] is the key of the last element, first seen there
          var k := key(xs[|xs| - 1]);
          assert k !in ks0 && ks[b] == k && ks[a] == ks0[a];
          assert ks0[a] in IndexBy(init, key);
          IndexByValuesFromList(init, key);
          var w := IndexBy(init, key)[ks0[a]];
          var i :| 0 <= i < |init| && init[i] == w;
          assert key(xs[i]) == ks[a];
          forall j | 0 <= j <= i ensures key(xs[j]) != k {
            assert key(init[j]) in IndexBy(init, key);
            assert xs[j] == init[j];
          }
        }
      }
    }
  }

  /** With distinct keys, the dict keeps the list's order and maps each key to its element. */
  lemma {:induction false} IndexByDistinct<T>(xs: seq<T>, key: T -> int)
    requires Distinct(Keys(xs, key))
    ensures KeyOrder(xs, key) == Keys(xs, key)
    ensures forall i :: 0 <= i < |xs| ==> IndexBy(xs, key)[key(xs[i])] == xs[i]
  {
    if xs != [] {
      var init := xs[..|xs| - 1];
      assert Keys(init, key) == Keys(xs, key)[..|xs| - 1];
      IndexByDistinct(init, key);
      var k := key(xs[|xs| - 1]);
      assert k !in Keys(init, key) by {
        forall i | 0 <= i < |init| ensures Keys(init, key)[i] != k {
          assert Keys(init, key)[i] == Keys(xs, key)[i];
        }
      }
      forall i | 0 <= i < |xs| ensures IndexBy(xs, key)[key(xs[i])] == xs[i] {
        if i < |xs| - 1 {
          assert Keys(xs, key)[i] != Keys(xs, key)[|xs| - 1];
          assert xs[i] == init[i];
        }
      }
    }
  }
}
