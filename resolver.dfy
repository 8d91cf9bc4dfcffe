/**
 * The pure part of the quiz engine: how an answer is resolved against the transition
 * rules, which products the answers given so far forbid, and how the candidates are
 * filtered against them.
 */
module Resolver {
  import opened Wrappers
  import opened Catalog

  /** A rule for `answerId` whose next question is truthy: it ends the scan. */
  predicate LeadsToQuestion(t: Transition, answerId: int) {
    t.answerId == answerId && Truthy(t.nextQuestionId)
  }

  /** A rule for `answerId` with no truthy next question but a truthy product. */
  predicate OffersProduct(t: Transition, answerId: int) {
    t.answerId == answerId && !Truthy(t.nextQuestionId) && Truthy(t.productId)
  }

  /** Position of the first rule that leads `answerId` to a question; `|rules|` if none does. */
  function FirstNextIndex(rules: seq<Transition>, answerId: int): (k: nat)
    ensures k <= |rules|
    ensures forall j :: 0 <= j < k ==> !LeadsToQuestion(rules[j], answerId)
    ensures k < |rules| ==> LeadsToQuestion(rules[k], answerId)
  {
    if rules == [] || LeadsToQuestion(rules[0], answerId) then 0
    else 1 + FirstNextIndex(rules[1..], answerId)
  }

  /** The products that the rules offer for `answerId`, in rule order, duplicates kept. */
  function CollectProducts(rules: seq<Transition>, answerId: int): (ps: seq<int>)
    ensures |ps| <= |rules|
    ensures forall p :: p in ps <==>
      exists j :: 0 <= j < |rules| && OffersProduct(rules[j], answerId) && rules[j].productId.value == p
  {
    if rules == [] then []
    else
      var rest := CollectProducts(rules[1..], answerId);
      assert forall j :: 0 <= j < |rules| - 1 ==> rules[1..][j] == rules[j + 1];
      if OffersProduct(rules[0], answerId) then [rules[0].productId.value] + rest else rest
  }

  /** Collecting over two lists of rules is collecting over each, kept in order. */
  lemma {:induction false} CollectProductsAppend(r1: seq<Transition>, r2: seq<Transition>, answerId: int)
    ensures CollectProducts(r1 + r2, answerId) == CollectProducts(r1, answerId) + CollectProducts(r2, answerId)
  {
    if r1 != [] {
      assert (r1 + r2)[0] == r1[0];
      assert (r1 + r2)[1..] == r1[1..] + r2;
      CollectProductsAppend(r1[1..], r2, answerId);
      var head := if OffersProduct(r1[0], answerId) then [r1[0].productId.value] else [];
      assert CollectProducts(r1 + r2, answerId) == head + CollectProducts(r1[1..] + r2, answerId);
      assert CollectProducts(r1, answerId) == head + CollectProducts(r1[1..], answerId);
      assert head + (CollectProducts(r1[1..], answerId) + CollectProducts(r2, answerId))
          == (head + CollectProducts(r1[1..], answerId)) + CollectProducts(r2, answerId);
    } else {
      assert r1 + r2 == r2;
    }
  }

  /** What one answer resolves to: a next question id, and the products collected so far. */
  datatype Resolution = Resolution(nextQuestionId: Option<int>, productIds: seq<int>)

  /**
   * Scanning the rules in list order: the first rule leading to a question decides and
   * stops the scan; the products offered by the rules before it are collected in order.
   */
  function Resolve(rules: seq<Transition>, answerId: int): (r: Resolution)
    ensures r.nextQuestionId.Some? <==> exists j :: 0 <= j < |rules| && LeadsToQuestion(rules[j], answerId)
    ensures r.nextQuestionId.Some? ==> Truthy(r.nextQuestionId)
    ensures r.nextQuestionId.Some? ==>
      exists k :: 0 <= k < |rules| && LeadsToQuestion(rules[k], answerId)
        && r.nextQuestionId == rules[k].nextQuestionId
        && (forall j :: 0 <= j < k ==> !LeadsToQuestion(rules[j], answerId))
        && r.productIds == CollectProducts(rules[..k], answerId)
    ensures r.nextQuestionId.None? ==> r.productIds == CollectProducts(rules, answerId)
  {
    var k := FirstNextIndex(rules, answerId);
    assert k == |rules| ==> rules[..k] == rules;
    Resolution(if k < |rules| then rules[k].nextQuestionId else None, CollectProducts(rules[..k], answerId))
  }

  /** Whether the scan reaches a next question depends only on the rules for that answer. */
  lemma {:induction false} ResolveIgnoresOtherAnswers(rules: seq<Transition>, t: Transition, answerId: int)
    requires t.answerId != answerId
    ensures Resolve(rules + [t], answerId) == Resolve(rules, answerId)
  {
    var k := FirstNextIndex(rules, answerId);
    var k' := FirstNextIndex(rules + [t], answerId);
    FirstNextIndexAppend(rules, t, answerId);
    if k < |rules| {
      assert (rules + [t])[..k] == rules[..k];
    } else {
      assert (rules + [t])[..k'] == rules + [t];
      CollectProductsAppend(rules, [t], answerId);
      assert CollectProducts([t], answerId) == [] by {
        assert [t][1..] == [];
      }
    }
  }

  lemma {:induction false} FirstNextIndexAppend(rules: seq<Transition>, t: Transition, answerId: int)
    requires t.answerId != answerId
    ensures FirstNextIndex(rules + [t], answerId) ==
      if FirstNextIndex(rules, answerId) < |rules| then FirstNextIndex(rules, answerId) else |rules| + 1
  {
    if rules != [] {
      assert (rules + [t])[1..] == rules[1..] + [t];
      FirstNextIndexAppend(rules[1..], t, answerId);
    }
  }

  /** The products forbidden by a restriction on one of `answerIds`. */
  function RestrictedBy(restrictions: seq<Restriction>, answerIds: seq<int>): (r: set<int>)
    ensures forall n :: 0 <= n < |restrictions| && restrictions[n].answerId in answerIds ==> restrictions[n].productId in r
    ensures forall p :: p in r ==> exists n :: (0 <= n < |restrictions| && restrictions[n].answerId in answerIds
      && restrictions[n].productId == p)
  {
    set r | r in restrictions && r.answerId in answerIds :: r.productId
  }

  /** More answers given can only forbid more products. */
  lemma RestrictedByGrows(restrictions: seq<Restriction>, answerIds: seq<int>, more: seq<int>)
    ensures RestrictedBy(restrictions, answerIds) <= RestrictedBy(restrictions, answerIds + more)
  {
  }

  /** The candidates that are not restricted, in their order (the list comprehension). */
  function FilterRestricted(candidates: seq<int>, restricted: set<int>): (r: seq<int>)
    ensures |r| <= |candidates|
    ensures forall p :: p in r <==> p in candidates && p !in restricted
  {
    if candidates == [] then []
    else
      var rest := FilterRestricted(candidates[1..], restricted);
      assert forall p :: p in candidates <==> p == candidates[0] || p in candidates[1..];
      if candidates[0] in restricted then rest else [candidates[0]] + rest
  }

  /** Filtering keeps every occurrence of an allowed product and none of a restricted one. */
  lemma {:induction false} FilterRestrictedCount(candidates: seq<int>, restricted: set<int>, p: int)
    ensures multiset(FilterRestricted(candidates, restricted))[p] ==
      if p in restricted then 0 else multiset(candidates)[p]
  {
    if candidates != [] {
      FilterRestrictedCount(candidates[1..], restricted, p);
      assert candidates == [candidates[0]] + candidates[1..];
    }
  }

  /** Filtering a concatenation filters each part and keeps their order. */
  lemma {:induction false} FilterRestrictedAppend(c1: seq<int>, c2: seq<int>, restricted: set<int>)
    ensures FilterRestricted(c1 + c2, restricted) == FilterRestricted(c1, restricted) + FilterRestricted(c2, restricted)
  {
    if c1 != [] {
      assert (c1 + c2)[0] == c1[0];
      assert (c1 + c2)[1..] == c1[1..] + c2;
      FilterRestrictedAppend(c1[1..], c2, restricted);
      var head := if c1[0] in restricted then [] else [c1[0]];
      assert FilterRestricted(c1 + c2, restricted) == head + FilterRestricted(c1[1..] + c2, restricted);
      assert FilterRestricted(c1, restricted) == head + FilterRestricted(c1[1..], restricted);
      assert head + (FilterRestricted(c1[1..], restricted) + FilterRestricted(c2, restricted))
          == (head + FilterRestricted(c1[1..], restricted)) + FilterRestricted(c2, restricted);
    } else {
      assert c1 + c2 == c2;
    }
  }

  /** Nothing to filter out: the candidates come back unchanged. */
  lemma {:induction false} FilterRestrictedNone(candidates: seq<int>, restricted: set<int>)
    requires forall i :: 0 <= i < |candidates| ==> candidates[i] !in restricted
    ensures FilterRestricted(candidates, restricted) == candidates
  {
    if candidates != [] {
      FilterRestrictedNone(candidates[1..], restricted);
    }
  }
}
