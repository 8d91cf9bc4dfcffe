/**
 * The question_transitions table: a rule must name either a next question or a product,
 * never both and never neither; falsy values are stored as NULL.
 */
module TransitionService {
  import opened Wrappers
  import opened Catalog
  import opened Resolver

  datatype RuleError =
    | /** `not (next_question_id or product_id)` */ NoTarget
    | /** `next_question_id and product_id` */ BothTargets

  /** A stored rule: exactly one target, and that target is truthy. */
  predicate WellFormedRule(t: Transition) {
    && (t.nextQuestionId.Some? != t.productId.Some?)
    && (t.nextQuestionId.Some? ==> Truthy(t.nextQuestionId))
    && (t.productId.Some? ==> Truthy(t.productId))
  }

  /** The exactly-one-of check, then the row as written (`x or None` for each target). */
  function CheckedRule(answerId: int, next: Option<int>, product: Option<int>): (r: Result<Transition, RuleError>)
    ensures r.Failure? <==> Truthy(next) == Truthy(product)
    ensures r.Failure? ==> (r.error == NoTarget <==> !Truthy(next))
    ensures r.Success? ==> WellFormedRule(r.value) && r.value.answerId == answerId
    ensures r.Success? ==> r.value.nextQuestionId == (if Truthy(next) then next else None)
    ensures r.Success? ==> r.value.productId == (if Truthy(product) then product else None)
  {
    if !(Truthy(next) || Truthy(product)) then Failure(NoTarget)
    else if Truthy(next) && Truthy(product) then Failure(BothTargets)
    else Success(Transition(answerId, OrNone(next), OrNone(product)))
  }

  /** For a stored rule the resolver sees exactly one thing: a next question or a product. */
  lemma StoredRuleDecides(t: Transition)
    requires WellFormedRule(t)
    ensures LeadsToQuestion(t, t.answerId) != OffersProduct(t, t.answerId)
  {
  }

  /** The number of rules for an answer. */
  function RulesFor(rules: seq<Transition>, answerId: int): nat {
    if rules == [] then 0 else (if rules[0].answerId == answerId then 1 else 0) + RulesFor(rules[1..], answerId)
  }

  /**
   * Over stored rules, when no rule for the answer leads to a question, every rule for
   * it contributes exactly one candidate product.
   */
  lemma {:induction false} StoredRulesOfferOneEach(rules: seq<Transition>, answerId: int)
    requires forall i :: 0 <= i < |rules| ==> WellFormedRule(rules[i])
    requires FirstNextIndex(rules, answerId) == |rules|
    ensures |CollectProducts(rules, answerId)| == RulesFor(rules, answerId)
  {
    if rules != [] {
      assert !LeadsToQuestion(rules[0], answerId);
      StoredRulesOfferOneEach(rules[1..], answerId);
    }
  }

  /** The question_transitions table; ids come from the auto-increment counter. */
  class TransitionTable {
    var rules: map<int, Transition>
    var nextId: int

    /** Every stored rule passed the check, and every id lies below the counter. */
    ghost predicate Valid()
      reads this
    {
      forall k :: k in rules ==> k < nextId && WellFormedRule(rules[k])
    }

    constructor ()
      ensures Valid() && rules == map[] && nextId == 1
    {
      rules := map[];
      nextId := 1;
    }

    /** Checks the rule before touching the table, then inserts it; the row count is 1. */
    method CreateQuestionTransition(answerId: int, next: Option<int>, product: Option<int>) returns (r: Result<int, RuleError>)
      requires Valid()
      modifies this
      ensures Valid()
      ensures r.Failure? <==> CheckedRule(answerId, next, product).Failure?
      ensures r.Failure? ==> (r.error == CheckedRule(answerId, next, product).error
        && rules == old(rules) && nextId == old(nextId))
      ensures r.Success? ==> (r.value == 1 && nextId == old(nextId) + 1
        && rules == old(rules)[old(nextId) := CheckedRule(answerId, next, product).value])
    {
      if !(Truthy(next) || Truthy(product)) {
        return Failure(NoTarget);
      }
      if Truthy(next) && Truthy(product) {
        return Failure(BothTargets);
      }
      rules := rules[nextId := Transition(answerId, OrNone(next), OrNone(product))];
      nextId := nextId + 1;
      return Success(1);
    }

    /**
     * The same check, then overwrites the rule with that id. The row count is the number
     * of rows the update changed: 1 when the id exists and its rule differs from the
     * checked one, 0 when the id is unknown or the rule is rewritten unchanged.
     */
    method UpdateQuestionTransition(id: int, answerId: int, next: Option<int>, product: Option<int>) returns (r: Result<int, RuleError>)
      requires Valid()
      modifies this
      ensures Valid()
      ensures nextId == old(nextId)
      ensures r.Failure? <==> CheckedRule(answerId, next, product).Failure?
      ensures r.Failure? ==> r.error == CheckedRule(answerId, next, product).error && rules == old(rules)
      ensures r.Success? ==> rules == if id in old(rules)
        then old(rules)[id := CheckedRule(answerId, next, product).value] else old(rules)
      ensures r.Success? ==> (r.value == 1 <==> id in old(rules) && old(rules)[id] != CheckedRule(answerId, next, product).value)
      ensures r.Success? ==> r.value == 0 || r.value == 1
    {
      if !(Truthy(next) || Truthy(product)) {
        return Failure(NoTarget);
      }
      if Truthy(next) && Truthy(product) {
        return Failure(BothTargets);
      }
      if id !in rules {
        return Success(0);
      }
      var rule := Transition(answerId, OrNone(next), OrNone(product));
      var changed := if rules[id] == rule then 0 else 1;
      rules := rules[id := rule];
      return Success(changed);
    }
  }

  /** The stored fixture rule: answer 1 leads to question 2, and no product column is set. */
  lemma CreateWithNextQuestion()
    ensures CheckedRule(1, Some(2), None) == Success(Transition(1, Some(2), None))
    ensures CheckedRule(1, Some(2), Some(0)) == Success(Transition(1, Some(2), None))
    ensures CheckedRule(1, None, Some(0)) == Failure(NoTarget)
    ensures CheckedRule(1, Some(2), Some(1)) == Failure(BothTargets)
  {
  }
}
