/**
 * The two-question catalog of the session tests: question 1 (answers 1, 2) and
 * question 2 (answers 3, 4, 5), products A and B, and four transition rules.
 */
module QuizFixtures {
  import opened Wrappers
  import opened Catalog
  import opened Dicts
  import opened Resolver
  import opened QuizFillerDomain
  import opened QuizService

  const Q1: Question := Question(1, "am I old?", PUBLISHED,
    [AnswerOption(1, "yes", PUBLISHED), AnswerOption(2, "no", PUBLISHED)])
  const Q2: Question := Question(2, "am I pretty?", PUBLISHED,
    [AnswerOption(3, "yes", PUBLISHED), AnswerOption(4, "maybe", PUBLISHED), AnswerOption(5, "no", PUBLISHED)])
  const ProductA: Product := Product(1, "Product A", Some("Desc A"), DRAFT)
  const ProductB: Product := Product(2, "Product B", Some("Desc B"), DRAFT)
  const Rules: seq<Transition> := [
    Transition(1, Some(2), None), Transition(2, Some(2), None),
    Transition(3, None, Some(1)), Transition(4, None, Some(2))]

  /** The catalog, with the given restrictions. */
  function Fixture(restrictions: seq<Restriction>): Snapshot {
    Snapshot([Q1, Q2], [ProductA, ProductB], restrictions, Rules)
  }

  /** What the engine's dicts hold for the fixture. */
  lemma FixtureIndex(restrictions: seq<Restriction>)
    ensures var ix := BuildIndex(Fixture(restrictions));
      && ix.questionOrder == [1, 2]
      && 1 in ix.questions && ix.questions[1] == Q1 && 2 in ix.questions && ix.questions[2] == Q2
      && 1 in ix.products && ix.products[1] == ProductA && 2 in ix.products && ix.products[2] == ProductB
      && ix.productRestrictions == restrictions && ix.questionTransitions == Rules
  {
    var s := Fixture(restrictions);
    assert Keys(s.questions, QuestionKey) == [1, 2];
    assert Keys(s.products, ProductKey) == [1, 2];
    IndexByDistinct(s.questions, QuestionKey);
    IndexByDistinct(s.products, ProductKey);
    assert IndexBy(s.questions, QuestionKey)[QuestionKey(s.questions[1])] == Q2;
    assert IndexBy(s.products, ProductKey)[ProductKey(s.products[1])] == ProductB;
  }

  /** Answer 1 to question 1 moves the session to question 2. */
  lemma AnswerOneMovesToQuestionTwo()
    ensures var ix := BuildIndex(Fixture([]));
      ServeAnswer(ix, Progress([], Some(1), []), 1) ==
        (Some(Progress([AnswerGiven(1, 1)], Some(2), [])), Success(NextQuestionView(Q2, [AnswerGiven(1, 1)])))
  {
    FixtureIndex([]);
    var ix := BuildIndex(Fixture([]));
    var p := Progress([], Some(1), []);
    assert Q1.answers[0] in Q1.answers;
    assert FirstNextIndex(Rules, 1) == 0;
    assert Resolve(Rules, 1).nextQuestionId == Some(2);
    assert QuestionIds([]) == [];
    assert p.answersGiven + [AnswerGiven(1, 1)] == [AnswerGiven(1, 1)];
    assert LookupQuestion(ix.questions, Some(2)) == Some(Q2);
    assert Step(ix, p, 1, Q1) == (Progress([AnswerGiven(1, 1)], Some(2), []), Success(NextQuestion(Some(Q2))));
  }

  /** Answer 99 is not an answer of question 1: refused, and nothing is saved. */
  lemma InvalidAnswerRejected()
    ensures var ix := BuildIndex(Fixture([]));
      ServeAnswer(ix, Progress([], Some(1), []), 99) == (None, Failure(AnswerRejected(InvalidAnswer(99, 1))))
  {
    FixtureIndex([]);
    assert !HasAnswer(Q1, 99);
  }

  /** Answer 3 to question 2 recommends product A; the current question stays 2. */
  lemma AnswerThreeRecommendsProductA()
    ensures var ix := BuildIndex(Fixture([]));
      var given := [AnswerGiven(1, 1), AnswerGiven(2, 3)];
      ServeAnswer(ix, Progress([AnswerGiven(1, 1)], Some(2), []), 3) ==
        (Some(Progress(given, Some(2), [ProductA])), Success(RecommendationView([ProductA], given)))
  {
    FixtureIndex([]);
    AnswerThreeOn(BuildIndex(Fixture([])));
  }

  /** Answer 3 served on any well-formed index with the fixture's question 2, rules and product A. */
  lemma AnswerThreeOn(ix: SnapshotIndex)
    requires WellFormed(ix)
    requires 2 in ix.questions && ix.questions[2] == Q2
    requires ix.questionTransitions == Rules && ix.productRestrictions == []
    requires 1 in ix.products && ix.products[1] == ProductA
    ensures var given := [AnswerGiven(1, 1), AnswerGiven(2, 3)];
      ServeAnswer(ix, Progress([AnswerGiven(1, 1)], Some(2), []), 3) ==
        (Some(Progress(given, Some(2), [ProductA])), Success(RecommendationView([ProductA], given)))
  {
    assert QuestionIds([AnswerGiven(1, 1)]) == [1];
    StepAnswerThree(ix);
  }

  /** Answer 3 to question 2, on any index with the fixture's rules and product A under id 1. */
  lemma StepAnswerThree(ix: SnapshotIndex)
    requires ix.questionTransitions == Rules && ix.productRestrictions == []
    requires 1 in ix.products && ix.products[1] == ProductA
    ensures var given := [AnswerGiven(1, 1), AnswerGiven(2, 3)];
      Step(ix, Progress([AnswerGiven(1, 1)], Some(2), []), 3, Q2) ==
        (Progress(given, Some(2), [ProductA]), Success(Recommended([ProductA])))
  {
    var given := [AnswerGiven(1, 1), AnswerGiven(2, 3)];
    assert Q2.answers[0] in Q2.answers;
    CandidatesForAnswerThree();
    assert RestrictedBy([], AnswerIds(given)) == {};
    assert FilterRestricted([1], {}) == [1];
    var found := LookupAll(ix.products, [1]);
    assert found.Success? && |found.value| == 1 && found.value[0] == ProductA;
    assert [AnswerGiven(1, 1)] + [AnswerGiven(2, 3)] == given;
    var r := Step(ix, Progress([AnswerGiven(1, 1)], Some(2), []), 3, Q2);
    assert r.0.answersGiven == given;
    assert r.0.currentQuestionId == Some(2) && r.0.recommendedProducts == [ProductA];
  }

  /** Answer 3 has no next-question rule; its one product rule offers product 1. */
  lemma CandidatesForAnswerThree()
    ensures FirstNextIndex(Rules, 3) == |Rules|
    ensures Resolve(Rules, 3) == Resolution(None, [1])
  {
    assert Rules[1..][1..][1..][1..] == [];
    assert CollectProducts(Rules[1..][1..][1..], 3) == [];
    assert CollectProducts(Rules[1..][1..], 3) == [1];
    assert CollectProducts(Rules, 3) == [1];
    assert Rules[..|Rules|] == Rules;
  }

  /** A restriction on the earlier answer 1 removes product A: the recommendation is empty. */
  lemma RestrictionOnEarlierAnswerEmptiesRecommendation()
    ensures var ix := BuildIndex(Fixture([Restriction(1, 1)]));
      var given := [AnswerGiven(1, 1), AnswerGiven(2, 3)];
      ServeAnswer(ix, Progress([AnswerGiven(1, 1)], Some(2), []), 3) ==
        (Some(Progress(given, Some(2), [])), Success(RecommendationView([], given)))
  {
    FixtureIndex([Restriction(1, 1)]);
    AnswerThreeRestrictedOn(BuildIndex(Fixture([Restriction(1, 1)])));
  }

  /** Answer 3 served on any well-formed index with question 2, the rules and the restriction on answer 1. */
  lemma AnswerThreeRestrictedOn(ix: SnapshotIndex)
    requires WellFormed(ix)
    requires 2 in ix.questions && ix.questions[2] == Q2
    requires ix.questionTransitions == Rules && ix.productRestrictions == [Restriction(1, 1)]
    ensures var given := [AnswerGiven(1, 1), AnswerGiven(2, 3)];
      ServeAnswer(ix, Progress([AnswerGiven(1, 1)], Some(2), []), 3) ==
        (Some(Progress(given, Some(2), [])), Success(RecommendationView([], given)))
  {
    assert QuestionIds([AnswerGiven(1, 1)]) == [1];
    StepAnswerThreeRestricted(ix);
  }

  /** Answer 3 to question 2 when a restriction on answer 1 forbids product 1. */
  lemma StepAnswerThreeRestricted(ix: SnapshotIndex)
    requires ix.questionTransitions == Rules && ix.productRestrictions == [Restriction(1, 1)]
    ensures var given := [AnswerGiven(1, 1), AnswerGiven(2, 3)];
      Step(ix, Progress([AnswerGiven(1, 1)], Some(2), []), 3, Q2) ==
        (Progress(given, Some(2), []), Success(Recommended([])))
  {
    var given := [AnswerGiven(1, 1), AnswerGiven(2, 3)];
    assert Q2.answers[0] in Q2.answers;
    CandidatesForAnswerThree();
    assert AnswerIds(given) == [1, 3];
    RestrictionOnAnswerOne();
    assert LookupAll(ix.products, []) == Success([]);
    assert [AnswerGiven(1, 1)] + [AnswerGiven(2, 3)] == given;
    var r := Step(ix, Progress([AnswerGiven(1, 1)], Some(2), []), 3, Q2);
    assert r.0.answersGiven == given;
    assert r.0.currentQuestionId == Some(2) && r.0.recommendedProducts == [];
  }

  /** The restriction on answer 1 forbids product 1, the only candidate of answer 3. */
  lemma RestrictionOnAnswerOne()
    ensures RestrictedBy([Restriction(1, 1)], [1, 3]) == {1}
    ensures FilterRestricted([1], {1}) == []
  {
    assert [Restriction(1, 1)][0] == Restriction(1, 1);
  }

  /** A stored recommendation is returned on re-fetch, with the answers given. */
  lemma StoredRecommendationReturned()
    ensures var ix := BuildIndex(Fixture([]));
      ServeFetch(ix, Progress([AnswerGiven(1, 1)], None, [ProductA])) ==
        (None, RecommendationView([ProductA], [AnswerGiven(1, 1)]))
  {
  }

  /** Rewinding to question 2 drops its answer and what followed, and keeps the recommendation. */
  lemma RewindToQuestionTwo()
    ensures var ix := BuildIndex(Fixture([]));
      var p := Progress([AnswerGiven(1, 1), AnswerGiven(2, 3)], Some(2), [ProductA]);
      var p' := Progress([AnswerGiven(1, 1)], Some(2), [ProductA]);
      ServeRewind(ix, p, 2) == (Some(p'), Success(CurrentQuestionView(Some(Q2), [AnswerGiven(1, 1)])))
  {
    FixtureIndex([]);
    var given := [AnswerGiven(1, 1), AnswerGiven(2, 3)];
    assert QuestionIds(given)[1] == 2;
    assert RewindIndex(given, 2) == Some(1);
    assert given[..1] == [AnswerGiven(1, 1)];
  }
}
